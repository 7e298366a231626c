/** Route patterns as the framework compiles them with path-to-regexp
  * (strict, case-sensitive, "/" as delimiter), and the three helpers that
  * query them: a yes/no test, the named parameters, and the matched prefix. */
module Route {
  import opened Wrappers
  import opened Text

  /** One "/"-separated piece of a route string: literal text, or a `:name` parameter. */
  datatype Piece = Lit(text: string) | Param(name: string)

  datatype Pattern =
    /** A compiled route string; `end` is false in prefix mode. */
    | PathPattern(pieces: seq<Piece>, end: bool)
    /** A RegExp object given by the caller, here one that matches `source`
      * literally anywhere in the path. */
    | LiteralRegExp(source: string)

  /** What callers pass as a route: a string, or a RegExp object. */
  datatype RouteSource = PathString(s: string) | NativeRegExp(source: string)

  /** `{ regexp, keys }`: keys are the parameter names, in order. */
  datatype ParsedRoute = ParsedRoute(regexp: Pattern, keys: seq<string>)

  /** What a successful `exec` returns: the matched text and the capture groups. */
  datatype MatchResult = MatchResult(matched: string, groups: seq<string>)

  predicate IsWordChar(c: char)
  {
    'a' <= c <= 'z' || 'A' <= c <= 'Z' || '0' <= c <= '9' || c == '_'
  }

  predicate IsParamPiece(t: string)
  {
    |t| >= 2 && t[0] == ':' && forall i :: 1 <= i < |t| ==> IsWordChar(t[i])
  }

  function ToPiece(t: string): Piece
  {
    if IsParamPiece(t) then Param(t[1..]) else Lit(t)
  }

  /** `s.split("/")`. */
  function SplitSlash(s: string): (parts: seq<string>)
    ensures |parts| >= 1
    ensures forall i :: 0 <= i < |parts| ==> '/' !in parts[i]
    ensures Join(parts, "/") == s
  {
    if s == [] then [[]]
    else if s[0] == '/' then
      var rest := SplitSlash(s[1..]);
      [[]] + rest
    else
      var rest := SplitSlash(s[1..]);
      [[s[0]] + rest[0]] + rest[1..]
  }

  function Pieces(parts: seq<string>): (ps: seq<Piece>)
    ensures |ps| == |parts|
    ensures forall i :: 0 <= i < |parts| ==> ps[i] == ToPiece(parts[i])
  {
    if parts == [] then [] else [ToPiece(parts[0])] + Pieces(parts[1..])
  }

  function KeysOf(ps: seq<Piece>): seq<string>
  {
    if ps == [] then []
    else (if ps[0].Param? then [ps[0].name] else []) + KeysOf(ps[1..])
  }

  /** `parseRoutePath(route, options)`: a RegExp object is used as it is, with no
    * keys; a string is compiled, `end` choosing full or prefix matching. */
  function ParseRoutePath(route: RouteSource, end: bool): (r: ParsedRoute)
    ensures route.NativeRegExp? ==> r == ParsedRoute(LiteralRegExp(route.source), [])
    ensures route.PathString? ==> r.regexp.PathPattern? && r.regexp.end == end
  {
    match route
    case NativeRegExp(src) => ParsedRoute(LiteralRegExp(src), [])
    case PathString(s) =>
      var ps := Pieces(SplitSlash(s));
      ParsedRoute(PathPattern(ps, end), KeysOf(ps))
  }

  /** The longest run of non-"/" characters of `path` starting at `pos`. */
  function SegmentEnd(path: string, pos: nat): (e: nat)
    requires pos <= |path|
    ensures pos <= e <= |path|
    ensures forall k :: pos <= k < e ==> path[k] != '/'
    ensures e == |path| || path[e] == '/'
    decreases |path| - pos
  {
    if pos == |path| || path[pos] == '/' then pos else SegmentEnd(path, pos + 1)
  }

  /** One piece at `pos`: literal text must be there; a parameter (`[^\/]+?`,
    * which the delimiter or the end that follows it forces to be maximal)
    * takes the non-empty run of non-"/" characters. */
  function MatchPiece(p: Piece, path: string, pos: nat): (r: Option<(nat, seq<string>)>)
    requires pos <= |path|
    ensures r.Some? ==> pos <= r.value.0 <= |path|
  {
    match p
    case Lit(t) =>
      if pos + |t| <= |path| && path[pos..pos + |t|] == t then Some((pos + |t|, [])) else None
    case Param(_) =>
      var e := SegmentEnd(path, pos);
      if e > pos then Some((e, [path[pos..e]])) else None
  }

  /** The pieces in order from `pos`, each after the first preceded by "/". */
  function MatchPieces(ps: seq<Piece>, path: string, pos: nat, first: bool): (r: Option<(nat, seq<string>)>)
    requires pos <= |path|
    ensures r.Some? ==> pos <= r.value.0 <= |path|
    decreases |ps|
  {
    if ps == [] then Some((pos, []))
    else if !first && !(pos < |path| && path[pos] == '/') then None
    else
      var start := if first then pos else pos + 1;
      match MatchPiece(ps[0], path, start)
      case None => None
      case Some((q, cap)) =>
        match MatchPieces(ps[1..], path, q, false)
        case None => None
        case Some((e, caps)) => Some((e, cap + caps))
  }

  /** Whether the route string ended with the delimiter, in which case prefix
    * mode adds no `(?=\/|$)` look-ahead. */
  predicate EndsWithDelimiter(ps: seq<Piece>)
  {
    |ps| > 1 && ps[|ps| - 1] == Lit([])
  }

  predicate OccursAt(hay: string, needle: string, i: nat)
  {
    i + |needle| <= |hay| && hay[i..i + |needle|] == needle
  }

  /** The first index of `needle` in `hay` at or after `from`, if any. */
  function IndexOf(hay: string, needle: string, from: nat): (r: Option<nat>)
    ensures r.Some? ==> from <= r.value && OccursAt(hay, needle, r.value)
    ensures r.Some? ==> forall i :: from <= i < r.value ==> !OccursAt(hay, needle, i)
    ensures r.None? ==> forall i :: from <= i ==> !OccursAt(hay, needle, i)
    decreases |hay| - from
  {
    if from + |needle| > |hay| then None
    else if OccursAt(hay, needle, from) then Some(from)
    else IndexOf(hay, needle, from + 1)
  }

  /** `regexp.exec(path)` after `lastIndex = 0`. A compiled route string is
    * anchored at the start, so what it matches is a prefix of the path, the
    * whole path in full mode. */
  function Exec(re: Pattern, path: string): (r: Option<MatchResult>)
    ensures r.Some? && re.PathPattern? ==> IsPrefix(r.value.matched, path)
    ensures r.Some? && re.PathPattern? && re.end ==> r.value.matched == path
    ensures r.Some? && re.LiteralRegExp? ==> r.value.matched == re.source && r.value.groups == []
  {
    match re
    case LiteralRegExp(src) =>
      if IndexOf(path, src, 0).Some? then Some(MatchResult(src, [])) else None
    case PathPattern(ps, end) =>
      match MatchPieces(ps, path, 0, true)
      case None => None
      case Some((e, caps)) =>
        var tailOk :=
          if end then e == |path|
          else EndsWithDelimiter(ps) || e == |path| || path[e] == '/';
        if tailOk then Some(MatchResult(path[..e], caps)) else None
  }

  /** `testRoutePath`: no route matches everything. */
  predicate TestRoutePath(path: string, route: Option<ParsedRoute>)
  {
    route.None? || Exec(route.value.regexp, path).Some?
  }

  /** `params[keys[i]] = values[i + 1]` for each key in order, so a repeated
    * name keeps its last value. */
  function ZipParams(keys: seq<string>, groups: seq<string>): map<string, string>
    requires |keys| <= |groups|
  {
    if keys == [] then map[]
    else ZipParams(keys[..|keys| - 1], groups)[keys[|keys| - 1] := groups[|keys| - 1]]
  }

  /** `getRouteParams`: `{}` unless there is a route and it matches. */
  function GetRouteParams(path: string, route: Option<ParsedRoute>): map<string, string>
  {
    if route.None? then map[]
    else match Exec(route.value.regexp, path)
      case None => map[]
      case Some(m) =>
        if |route.value.keys| <= |m.groups| then ZipParams(route.value.keys, m.groups)
        else map[]
  }

  /** `getRouteMatchPath`: the matched text, or "" when there is no route or no match. */
  function GetRouteMatchPath(path: string, route: Option<ParsedRoute>): (r: string)
    ensures !TestRoutePath(path, route) || route.None? ==> r == []
    ensures route.Some? && route.value.regexp.PathPattern? ==> IsPrefix(r, path)
  {
    if route.None? then []
    else match Exec(route.value.regexp, path)
      case None => []
      case Some(m) => m.matched
  }

  // ----- properties -----

  /** A compiled route string captures one group per key. */
  lemma {:induction false} MatchPiecesGroups(ps: seq<Piece>, path: string, pos: nat, first: bool)
    requires pos <= |path|
    requires MatchPieces(ps, path, pos, first).Some?
    ensures |MatchPieces(ps, path, pos, first).value.1| == |KeysOf(ps)|
    decreases |ps|
  {
    if ps != [] {
      var start := if first then pos else pos + 1;
      var q := MatchPiece(ps[0], path, start).value.0;
      MatchPiecesGroups(ps[1..], path, q, false);
    }
  }

  /** The fold that fills `params` defines exactly the keys, each with the group
    * of its last occurrence. */
  lemma {:induction false} ZipParamsSpec(keys: seq<string>, groups: seq<string>, k: string)
    requires |keys| <= |groups|
    ensures k in ZipParams(keys, groups) <==> k in keys
    ensures forall i :: 0 <= i < |keys| && keys[i] == k && (forall j :: i < j < |keys| ==> keys[j] != k) ==>
              k in ZipParams(keys, groups) && ZipParams(keys, groups)[k] == groups[i]
    decreases |keys|
  {
    if keys != [] {
      var n := |keys| - 1;
      ZipParamsSpec(keys[..n], groups, k);
      assert keys == keys[..n] + [keys[n]];
      forall i | 0 <= i < |keys| && keys[i] == k && (forall j :: i < j < |keys| ==> keys[j] != k)
        ensures k in ZipParams(keys, groups) && ZipParams(keys, groups)[k] == groups[i]
      {
        if i < n {
          assert keys[..n][i] == k;
        }
      }
    }
  }

  /** When the route matches: every key is a parameter, nothing else is, and a
    * key that appears once carries its own group. */
  lemma RouteParamsOfMatch(path: string, s: string, end: bool, i: nat)
    requires TestRoutePath(path, Some(ParseRoutePath(PathString(s), end)))
    requires var keys := ParseRoutePath(PathString(s), end).keys;
      i < |keys| && (forall j :: 0 <= j < |keys| && j != i ==> keys[j] != keys[i])
    ensures var route := ParseRoutePath(PathString(s), end);
      var params := GetRouteParams(path, Some(route));
      var m := Exec(route.regexp, path).value;
      (forall k :: k in params <==> k in route.keys) &&
      |m.groups| == |route.keys| && params[route.keys[i]] == m.groups[i]
  {
    var route := ParseRoutePath(PathString(s), end);
    var ps := Pieces(SplitSlash(s));
    MatchPiecesGroups(ps, path, 0, true);
    var m := Exec(route.regexp, path).value;
    forall k ensures k in GetRouteParams(path, Some(route)) <==> k in route.keys {
      ZipParamsSpec(route.keys, m.groups, k);
    }
    ZipParamsSpec(route.keys, m.groups, route.keys[i]);
  }

  /** Whatever matches a route in full mode also matches it in prefix mode,
    * with the same parameters. */
  lemma FullMatchImpliesPrefixMatch(path: string, s: string)
    requires TestRoutePath(path, Some(ParseRoutePath(PathString(s), true)))
    ensures TestRoutePath(path, Some(ParseRoutePath(PathString(s), false)))
    ensures GetRouteParams(path, Some(ParseRoutePath(PathString(s), false)))
         == GetRouteParams(path, Some(ParseRoutePath(PathString(s), true)))
  {
  }

  /** The literal text a run of literal pieces stands for: the pieces joined by
    * "/", with a leading "/" unless they start the route. */
  function Expected(ts: seq<string>, first: bool): string
  {
    if ts == [] then [] else (if first then [] else "/") + Join(ts, "/")
  }

  predicate StartsAt(path: string, pos: nat, e: string)
  {
    pos + |e| <= |path| && path[pos..pos + |e|] == e
  }

  lemma StartsAtConcat(path: string, pos: nat, a: string, b: string)
    ensures StartsAt(path, pos, a + b) <==> StartsAt(path, pos, a) && StartsAt(path, pos + |a|, b)
  {
    if StartsAt(path, pos, a + b) {
      assert path[pos..pos + |a|] == path[pos..pos + |a| + |b|][..|a|];
      assert path[pos + |a|..pos + |a| + |b|] == path[pos..pos + |a| + |b|][|a|..];
    }
    if StartsAt(path, pos, a) && StartsAt(path, pos + |a|, b) {
      assert path[pos..pos + |a| + |b|] == path[pos..pos + |a|] + path[pos + |a|..pos + |a| + |b|];
    }
  }

  /** Where a piece after the first starts: past its "/". */
  function After(pos: nat, first: bool): nat
  {
    if first then pos else pos + 1
  }

  predicate LeadAt(path: string, pos: nat, first: bool)
  {
    first || (pos < |path| && path[pos] == '/')
  }

  /** One step of `MatchPieces` over a literal piece: the "/" before it unless it
    * starts the route, then the literal, then the rest. */
  lemma MatchLiteralStep(ps: seq<Piece>, t: string, path: string, pos: nat, first: bool)
    requires pos <= |path| && |ps| > 0 && ps[0] == Lit(t)
    ensures MatchPieces(ps, path, pos, first) ==
      if LeadAt(path, pos, first) && StartsAt(path, After(pos, first), t)
      then MatchPieces(ps[1..], path, After(pos, first) + |t|, false) else None
  {
    if LeadAt(path, pos, first) && StartsAt(path, After(pos, first), t) {
      var tail := MatchPieces(ps[1..], path, After(pos, first) + |t|, false);
      if tail.Some? {
        assert [] + tail.value.1 == tail.value.1;
      }
    }
  }

  /** Text that starts with the lead "/" (unless first) is there when the "/" is
    * and the rest follows it. */
  lemma StartsAtLead(path: string, pos: nat, first: bool, x: string)
    ensures StartsAt(path, pos, (if first then [] else "/") + x) <==>
      LeadAt(path, pos, first) && StartsAt(path, After(pos, first), x)
  {
    var lead: string := if first then [] else "/";
    StartsAtConcat(path, pos, lead, x);
    assert !first ==> (StartsAt(path, pos, lead) <==> pos < |path| && path[pos] == '/');
  }

  lemma ExpectedStep(ts: seq<string>, first: bool)
    requires |ts| > 0
    ensures Expected(ts, first) == (if first then [] else "/") + ts[0] + Expected(ts[1..], false)
  {
    var lead: string := if first then [] else "/";
    if |ts| == 1 {
      assert ts[1..] == [];
      assert Expected(ts, first) == lead + ts[0];
      assert lead + ts[0] + [] == lead + ts[0];
    } else {
      var j := Join(ts[1..], "/");
      assert Join(ts, "/") == ts[0] + "/" + j;
      assert Expected(ts[1..], false) == "/" + j;
      Assoc3(lead, ts[0], "/", j);
    }
  }

  lemma Assoc3(a: string, b: string, c: string, d: string)
    ensures a + (b + c + d) == a + b + (c + d)
  {
  }

  /** What `LiteralPiecesMatch` states, for pieces `ps` against the text `e`. */
  predicate MatchesExactly(ps: seq<Piece>, path: string, pos: nat, first: bool, e: string)
    requires pos <= |path|
  {
    var r := MatchPieces(ps, path, pos, first);
    (r.Some? <==> StartsAt(path, pos, e)) && (r.Some? ==> r.value.0 == pos + |e| && r.value.1 == [])
  }

  /** The inductive step of `LiteralPiecesMatch` with the match results and the
    * texts given by name: `r` matches the lead and `t`, then does what `r1` does. */
  lemma LiteralStepCombine(path: string, pos: nat, first: bool, t: string, rest: string,
                           r: Option<(nat, seq<string>)>, r1: Option<(nat, seq<string>)>)
    requires pos <= |path|
    requires r == if LeadAt(path, pos, first) && StartsAt(path, After(pos, first), t) then r1 else None
    requires var q := After(pos, first) + |t|;
      q <= |path| ==> (r1.Some? <==> StartsAt(path, q, rest)) && (r1.Some? ==> r1.value.0 == q + |rest| && r1.value.1 == [])
    ensures var e := (if first then [] else "/") + (t + rest);
      (r.Some? <==> StartsAt(path, pos, e)) && (r.Some? ==> r.value.0 == pos + |e| && r.value.1 == [])
  {
    StartsAtLead(path, pos, first, t + rest);
    StartsAtConcat(path, After(pos, first), t, rest);
  }

  lemma LiteralPiecesCombine(ps: seq<Piece>, t: string, path: string, pos: nat, first: bool, rest: string)
    requires pos <= |path| && |ps| > 0 && ps[0] == Lit(t)
    requires var q := After(pos, first) + |t|;
      q <= |path| ==> MatchesExactly(ps[1..], path, q, false, rest)
    ensures MatchesExactly(ps, path, pos, first, (if first then [] else "/") + (t + rest))
  {
    MatchLiteralStep(ps, t, path, pos, first);
    var q := After(pos, first) + |t|;
    var r1 := if q <= |path| then MatchPieces(ps[1..], path, q, false) else None;
    LiteralStepCombine(path, pos, first, t, rest, MatchPieces(ps, path, pos, first), r1);
  }

  lemma {:induction false} LiteralPiecesMatch(ps: seq<Piece>, ts: seq<string>, path: string, pos: nat, first: bool)
    requires pos <= |path|
    requires |ps| == |ts| && forall i :: 0 <= i < |ps| ==> ps[i] == Lit(ts[i])
    ensures MatchesExactly(ps, path, pos, first, Expected(ts, first))
    decreases |ps|
  {
    if ps != [] {
      var ps', ts' := ps[1..], ts[1..];
      forall i | 0 <= i < |ps'| ensures ps'[i] == Lit(ts'[i]) {
        assert ps'[i] == ps[i + 1] && ts'[i] == ts[i + 1];
      }
      var q := After(pos, first) + |ts[0]|;
      if q <= |path| {
        LiteralPiecesMatch(ps', ts', path, q, false);
      }
      ExpectedStep(ts, first);
      assert Expected(ts, first) == (if first then [] else "/") + (ts[0] + Expected(ts', false));
      LiteralPiecesCombine(ps, ts[0], path, pos, first, Expected(ts', false));
    }
  }

  predicate IsParamFree(s: string)
  {
    var parts := SplitSlash(s);
    forall i :: 0 <= i < |parts| ==> !IsParamPiece(parts[i])
  }

  lemma {:induction false} SplitSlashTrailing(s: string)
    ensures var parts := SplitSlash(s);
      (|parts| > 1 && parts[|parts| - 1] == []) <==> (|s| > 0 && s[|s| - 1] == '/')
    decreases |s|
  {
    if s != [] {
      SplitSlashTrailing(s[1..]);
      if |s| == 1 { assert SplitSlash(s[1..]) == [[]]; }
    }
  }

  lemma LiteralRouteMatch(s: string, path: string, end: bool)
    requires IsParamFree(s)
    ensures var r := MatchPieces(ParseRoutePath(PathString(s), end).regexp.pieces, path, 0, true);
      (r.Some? <==> IsPrefix(s, path)) && (r.Some? ==> r.value.0 == |s| && r.value.1 == [])
  {
    var parts := SplitSlash(s);
    var ps := Pieces(parts);
    assert ParseRoutePath(PathString(s), end).regexp.pieces == ps;
    forall i | 0 <= i < |ps| ensures ps[i] == Lit(parts[i]) {
      assert !IsParamPiece(parts[i]);
    }
    LiteralPiecesMatch(ps, parts, path, 0, true);
    assert Expected(parts, true) == s;
    assert StartsAt(path, 0, s) <==> IsPrefix(s, path) by {
      if |s| <= |path| { assert path[0..|s|] == path[..|s|]; }
    }
  }

  /** Only an empty last part compiles to the empty literal the delimiter test looks for. */
  lemma PiecesTrailing(parts: seq<string>)
    ensures EndsWithDelimiter(Pieces(parts)) <==> |parts| > 1 && parts[|parts| - 1] == []
  {
    if |parts| > 1 {
      var last := parts[|parts| - 1];
      assert Pieces(parts)[|parts| - 1] == ToPiece(last);
    }
  }

  /** The compiled route ends with the delimiter exactly when the route string does. */
  lemma TrailingSlashRoute(s: string, end: bool)
    ensures EndsWithDelimiter(ParseRoutePath(PathString(s), end).regexp.pieces) <==> (|s| > 0 && s[|s| - 1] == '/')
  {
    SplitSlashTrailing(s);
    PiecesTrailing(SplitSlash(s));
  }

  /** A route string without parameters matches, in full mode, exactly the path equal to it. */
  lemma StaticRouteFullMatch(s: string, path: string)
    requires IsParamFree(s)
    ensures TestRoutePath(path, Some(ParseRoutePath(PathString(s), true))) <==> path == s
  {
    LiteralRouteMatch(s, path, true);
  }

  /** In prefix mode it matches the paths that start with it and continue with
    * "/" or stop there; a route ending in "/" needs no such boundary. */
  lemma StaticRoutePrefixMatch(s: string, path: string)
    requires IsParamFree(s)
    ensures TestRoutePath(path, Some(ParseRoutePath(PathString(s), false))) <==>
      IsPrefix(s, path) && (|path| == |s| || path[|s|] == '/' || (|s| > 0 && s[|s| - 1] == '/'))
    ensures TestRoutePath(path, Some(ParseRoutePath(PathString(s), false))) ==>
      GetRouteMatchPath(path, Some(ParseRoutePath(PathString(s), false))) == s
  {
    LiteralRouteMatch(s, path, false);
    TrailingSlashRoute(s, false);
  }

  /** A RegExp object has no keys, so it never yields parameters. */
  lemma RegExpRouteHasNoParams(path: string, source: string)
    ensures GetRouteParams(path, Some(ParseRoutePath(NativeRegExp(source), true))) == map[]
  {
  }
}
