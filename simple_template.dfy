/** The built-in template engine: every `{{key}}` in the template replaced by
  * the data's value for `key` as a string. A placeholder is the shortest
  * text between `{{` and the next `}}` on the same line; placeholders are
  * found left to right and never overlap. */
module SimpleTemplate {
  import opened Wrappers
  import opened Values

  /** The characters a regular expression's `.` does not match. */
  predicate IsLineTerminator(c: char)
  {
    c == '\n' || c == '\r' || c == '\U{2028}' || c == '\U{2029}'
  }

  predicate ClosesAt(u: string, j: nat)
  {
    j + 2 <= |u| && u[j] == '}' && u[j + 1] == '}'
  }

  /** Where the shortest key that `(.*?)\}\}` accepts at the start of `u`
    * ends: the first `}}` with no line terminator before it. */
  function Close(u: string): (r: Option<nat>)
    ensures r.Some? ==> ClosesAt(u, r.value)
    ensures r.Some? ==> forall k :: 0 <= k < r.value ==> !IsLineTerminator(u[k]) && !ClosesAt(u, k)
    ensures r.None? ==> forall j :: 0 <= j < |u| && ClosesAt(u, j) ==> exists k :: 0 <= k < j && IsLineTerminator(u[k])
  {
    if ClosesAt(u, 0) then Some(0)
    else if |u| == 0 || IsLineTerminator(u[0]) then None
    else
      var rest := Close(u[1..]);
      assert forall j :: 1 <= j < |u| ==> (ClosesAt(u, j) <==> ClosesAt(u[1..], j - 1));
      if rest.None? then None else Some(rest.value + 1)
  }

  /** The text a placeholder becomes: `String(data[key])`, which is
    * "undefined" for a missing key. */
  function Value(data: map<string, JsValue>, key: string): string
  {
    ToJsString(if key in data then data[key] else JUndefined)
  }

  /** Whether a placeholder starts at the head of `t`. */
  predicate OpensHere(t: string)
  {
    |t| >= 2 && t[0] == '{' && t[1] == '{' && Close(t[2..]).Some?
  }

  /** `render`: `template.replace(/\{\{(.*?)\}\}/g, (match, key) => data[key])`. */
  function Render(t: string, data: map<string, JsValue>): string
    decreases |t|
  {
    if t == [] then []
    else if OpensHere(t) then
      var j := Close(t[2..]).value;
      Value(data, t[2..][..j]) + Render(t[2..][j + 2..], data)
    else [t[0]] + Render(t[1..], data)
  }

  /** Text with no opening brace is copied as it is, and placeholders after
    * it are replaced as if it were not there. */
  lemma {:induction false} LiteralPrefix(p: string, s: string, data: map<string, JsValue>)
    requires forall i :: 0 <= i < |p| ==> p[i] != '{'
    ensures Render(p + s, data) == p + Render(s, data)
    decreases |p|
  {
    if p != [] {
      var t := p + s;
      var head, tail := p[0], p[1..];
      assert t[0] == head && t[1..] == tail + s;
      LiteralStep(t, data);
      LiteralPrefix(tail, s, data);
      assert Render(t, data) == [head] + (tail + Render(s, data));
      assert p == [head] + tail;
    } else {
      assert p + s == s;
    }
  }

  /** A character that cannot open a placeholder is copied. */
  lemma LiteralStep(t: string, data: map<string, JsValue>)
    requires t != [] && t[0] != '{'
    ensures Render(t, data) == [t[0]] + Render(t[1..], data)
  {
  }

  /** A template without a `{{…}}` pair on one line is returned as it is. */
  lemma {:induction false} NoPlaceholderUnchanged(t: string, data: map<string, JsValue>)
    requires forall i :: 0 <= i < |t| ==> !OpensHere(t[i..])
    ensures Render(t, data) == t
    decreases |t|
  {
    if t != [] {
      assert t[0..] == t;
      forall i | 0 <= i < |t| - 1 ensures !OpensHere(t[1..][i..]) {
        assert t[1..][i..] == t[i + 1..];
      }
      NoPlaceholderUnchanged(t[1..], data);
    }
  }

  /** In particular a template with no `{{` at all. */
  lemma NoBracesUnchanged(t: string, data: map<string, JsValue>)
    requires forall i :: 0 <= i < |t| - 1 ==> !(t[i] == '{' && t[i + 1] == '{')
    ensures Render(t, data) == t
  {
    forall i | 0 <= i < |t| ensures !OpensHere(t[i..]) {
      if |t[i..]| >= 2 {
        assert t[i..][0] == t[i] && t[i..][1] == t[i + 1];
      }
    }
    NoPlaceholderUnchanged(t, data);
  }

  /** A placeholder whose key has no closing brace and stays on one line is
    * replaced by the key's value, and the rest rendered after it. */
  lemma Placeholder(key: string, s: string, data: map<string, JsValue>)
    requires forall i :: 0 <= i < |key| ==> key[i] != '}' && !IsLineTerminator(key[i])
    ensures Render("{{" + key + "}}" + s, data) == Value(data, key) + Render(s, data)
  {
    var t := "{{" + key + "}}" + s;
    var u := key + "}}" + s;
    assert t[2..] == u;
    assert u == key + ("}}" + s);
    KeyCloses(key, "}}" + s);
    assert Close(u) == Some(|key|);
    assert u[..|key|] == key;
    assert u[|key| + 2..] == s;
  }

  lemma {:induction false} KeyCloses(key: string, rest: string)
    requires forall i :: 0 <= i < |key| ==> key[i] != '}' && !IsLineTerminator(key[i])
    requires |rest| >= 2 && rest[0] == '}' && rest[1] == '}'
    ensures Close(key + rest) == Some(|key|)
    decreases |key|
  {
    if key != [] {
      assert (key + rest)[1..] == key[1..] + rest;
      assert !ClosesAt(key + rest, 0);
      KeyCloses(key[1..], rest);
    } else {
      assert key + rest == rest;
    }
  }

  /** The match is lazy: two placeholders side by side are two
    * replacements, not one key running from the first `{{` to the last `}}`. */
  lemma TwoPlaceholders(a: string, b: string, data: map<string, JsValue>)
    requires forall i :: 0 <= i < |a| ==> a[i] != '}' && !IsLineTerminator(a[i])
    requires forall i :: 0 <= i < |b| ==> b[i] != '}' && !IsLineTerminator(b[i])
    ensures Render("{{" + a + "}}{{" + b + "}}", data) == Value(data, a) + Value(data, b)
  {
    assert "{{" + a + "}}{{" + b + "}}" == "{{" + a + "}}" + ("{{" + b + "}}" + "");
    Placeholder(a, "{{" + b + "}}" + "", data);
    Placeholder(b, "", data);
  }

  /** A `{{ … }}` pair with a line break inside is not a placeholder: it is
    * left as written. */
  lemma BrokenLineUnchanged(a: string, b: string, data: map<string, JsValue>)
    requires forall i :: 0 <= i < |a| ==> a[i] != '}' && a[i] != '{'
    requires forall i :: 0 <= i < |b| ==> b[i] != '}' && b[i] != '{'
    ensures Render("{{" + a + "\n" + b + "}}", data) == "{{" + a + "\n" + b + "}}"
  {
    var t := "{{" + a + "\n" + b + "}}";
    var u := a + "\n" + b + "}}";
    assert t[2..] == u;
    assert u == a + ("\n" + b + "}}");
    NoCloseBefore(a, "\n" + b + "}}");
    assert !OpensHere(t);
    var t1 := t[1..];
    assert t1 == "{" + (a + "\n" + b + "}}");
    assert !OpensHere(t1);
    forall i | 0 <= i < |a + "\n" + b + "}}"| ensures (a + "\n" + b + "}}")[i] != '{' {
    }
    LiteralPrefix(a + "\n" + b + "}}", [], data);
    assert a + "\n" + b + "}}" + [] == a + "\n" + b + "}}";
    assert Render(t, data) == [t[0]] + Render(t1, data);
    assert Render(t1, data) == [t1[0]] + Render(t1[1..], data);
    assert t1[1..] == a + "\n" + b + "}}";
    assert Render([], data) == [];
  }

  lemma {:induction false} NoCloseBefore(a: string, rest: string)
    requires forall i :: 0 <= i < |a| ==> a[i] != '}' && a[i] != '{'
    requires |rest| > 0 && IsLineTerminator(rest[0])
    ensures Close(a + rest).None?
    decreases |a|
  {
    if a != [] {
      assert (a + rest)[1..] == a[1..] + rest;
      assert !ClosesAt(a + rest, 0);
      NoCloseBefore(a[1..], rest);
    } else {
      assert a + rest == rest;
    }
  }
}
