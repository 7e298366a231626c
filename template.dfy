/** The template engine manager: engines registered by file extension, a
  * default engine, a root directory and variables shared by every render;
  * `render` picks the engine from the template name's extension, falling
  * back on the default engine (whose extension is then added to an
  * extension-less name). */
module Template {
  import opened Wrappers
  import opened Values

  /** A `renderFile` function: the built-in simple engine, or one from
    * outside the framework, by number. */
  datatype Engine = SimpleEngine | OtherEngine(id: nat)

  /** The failed assertions: `setDefault` of an extension nobody registered,
    * and `render` with neither a matching nor a default engine (the
    * extension the name had, possibly ""). */
  datatype TemplateError = NotRegistered(ext: string) | NoDefaultEngine(ext: string)

  /** `if (ext[0] !== ".") ext = "." + ext`. */
  function Dotted(ext: string): (r: string)
    ensures r != [] && r[0] == '.'
    ensures ext != [] && ext[0] == '.' ==> r == ext
    ensures !(ext != [] && ext[0] == '.') ==> r == "." + ext
  {
    if ext != [] && ext[0] == '.' then ext else "." + ext
  }

  /** Adding the dot twice is adding it once. */
  lemma DottedIdempotent(ext: string)
    ensures Dotted(Dotted(ext)) == Dotted(ext)
  {
  }

  function LastIndexOf(s: string, c: char): (r: int)
    ensures -1 <= r < |s|
    ensures r >= 0 ==> s[r] == c
    ensures forall k :: r < k < |s| ==> s[k] != c
  {
    if s == [] then -1
    else if s[|s| - 1] == c then |s| - 1
    else LastIndexOf(s[..|s| - 1], c)
  }

  /** The last segment of a path. */
  function Basename(name: string): (b: string)
    ensures |b| <= |name| && b == name[|name| - |b|..]
    ensures forall k :: 0 <= k < |b| ==> b[k] != '/'
  {
    name[LastIndexOf(name, '/') + 1..]
  }

  /** `path.extname`: the last segment's text from its last dot; "" when
    * that segment has no dot, begins with its last dot, or is "..". */
  function Extname(name: string): (e: string)
    ensures e != [] ==> e[0] == '.' && |e| <= |name| && name[|name| - |e|..] == e
    ensures forall k :: 0 < k < |e| ==> e[k] != '.' && e[k] != '/'
  {
    var b := Basename(name);
    var d := LastIndexOf(b, '.');
    if d <= 0 || b == ".." then "" else b[d..]
  }

  lemma {:induction false} LastIndexOfAppend(s: string, t: string, c: char)
    ensures LastIndexOf(s + t, c) == if LastIndexOf(t, c) >= 0 then |s| + LastIndexOf(t, c) else LastIndexOf(s, c)
    decreases |t|
  {
    if t == [] {
      assert s + t == s;
    } else {
      var u := s + t;
      assert u[..|u| - 1] == s + t[..|t| - 1];
      if t[|t| - 1] != c {
        LastIndexOfAppend(s, t[..|t| - 1], c);
      }
    }
  }

  /** The file the default engine is given has the default extension: a
    * name whose last segment is not empty, with an extension added (a dot
    * and at least one character, none of them a dot or a slash), has
    * exactly that extension. */
  lemma ExtnameOfAppended(name: string, ext: string)
    requires Basename(name) != [] && |ext| >= 2 && ext[0] == '.'
    requires forall k :: 0 < k < |ext| ==> ext[k] != '.' && ext[k] != '/'
    ensures Extname(name + ext) == ext
  {
    var i := LastIndexOf(name, '/');
    var base := Basename(name);
    assert base == name[i + 1..];
    AppendedBasename(name, ext);
    AppendedDot(base, ext);
  }

  lemma AppendedBasename(name: string, ext: string)
    requires |ext| >= 1 && ext[0] == '.'
    requires forall k :: 0 < k < |ext| ==> ext[k] != '/'
    ensures Basename(name + ext) == Basename(name) + ext
  {
    LastIndexOfAppend(name, ext, '/');
    var i := LastIndexOf(name, '/');
    assert LastIndexOf(name + ext, '/') == i;
    assert (name + ext)[i + 1..] == name[i + 1..] + ext;
  }

  lemma AppendedDot(base: string, ext: string)
    requires base != [] && |ext| >= 2 && ext[0] == '.'
    requires forall k :: 0 < k < |ext| ==> ext[k] != '.'
    ensures var b := base + ext; LastIndexOf(b, '.') == |base| && b != ".." && b[|base|..] == ext
  {
    assert LastIndexOf(ext, '.') == 0;
    LastIndexOfAppend(base, ext, '.');
    assert |base + ext| >= 3;
  }

  /** `{ ...this.locals, ...data }`: every shared variable and every render
    * variable, the render's winning where both have a name. */
  function Merged(locals: map<string, JsValue>, data: map<string, JsValue>): (r: map<string, JsValue>)
    ensures forall k :: k in r <==> k in locals || k in data
    ensures forall k :: k in data ==> r[k] == data[k]
    ensures forall k :: k in locals && k !in data ==> r[k] == locals[k]
  {
    locals + data
  }

  /** What `render` hands to the engine: the file and the merged variables. */
  datatype RenderCall = RenderCall(engine: Engine, fileName: string, data: map<string, JsValue>)

  /** The engine choice of `render`. `resolve` is `path.resolve`. A name
    * with a registered extension goes to that extension's engine as it is;
    * any other needs a default engine, whose extension is added when the
    * name has none. */
  function Select(engines: map<string, Engine>, defaultEngine: string, root: string, locals: map<string, JsValue>,
                  name: string, data: map<string, JsValue>, resolve: (string, string) -> string): (r: Result<RenderCall, TemplateError>)
    ensures var ext := Extname(name);
      (ext != "" && ext in engines ==> r == Success(RenderCall(engines[ext], resolve(root, name), Merged(locals, data))))
    ensures var ext := Extname(name);
      (!(ext != "" && ext in engines) ==> (r.Success? <==> defaultEngine in engines))
    ensures var ext := Extname(name);
      (!(ext != "" && ext in engines) && defaultEngine !in engines ==> r == Failure(NoDefaultEngine(ext)))
    ensures var ext := Extname(name);
      (!(ext != "" && ext in engines) && defaultEngine in engines ==>
        r == Success(RenderCall(engines[defaultEngine],
                                if ext == "" then resolve(root, name) + defaultEngine else resolve(root, name),
                                Merged(locals, data))))
  {
    var ext := Extname(name);
    var fileName := resolve(root, name);
    if ext != "" && ext in engines then Success(RenderCall(engines[ext], fileName, Merged(locals, data)))
    else if defaultEngine !in engines then Failure(NoDefaultEngine(ext))
    else Success(RenderCall(engines[defaultEngine], if ext == "" then fileName + defaultEngine else fileName, Merged(locals, data)))
  }

  /** A name without an extension is rendered by the default engine from the
    * file with the default extension added: the extension it would have
    * needed to pick that engine itself. */
  lemma DefaultFileHasDefaultExtension(engines: map<string, Engine>, defaultEngine: string, root: string,
                                       locals: map<string, JsValue>, name: string, data: map<string, JsValue>,
                                       resolve: (string, string) -> string)
    requires Extname(name) == "" && defaultEngine in engines
    ensures var r := Select(engines, defaultEngine, root, locals, name, data, resolve);
      r.Success? && r.value.engine == engines[defaultEngine] &&
      r.value.fileName == resolve(root, name) + defaultEngine
  {
  }

  class TemplateEngineManager {
    var engines: map<string, Engine>
    var defaultEngine: string
    var root: string
    /** The variables every render sees. */
    var locals: map<string, JsValue>

    /** Every registered extension starts with a dot. */
    ghost predicate Valid()
      reads this
    {
      forall ext :: ext in engines ==> ext != [] && ext[0] == '.'
    }

    constructor()
      ensures Valid() && engines == map[] && defaultEngine == "" && root == "./views" && locals == map[]
    {
      engines := map[];
      defaultEngine := "";
      root := "./views";
      locals := map[];
    }

    method SetRoot(dir: string)
      modifies this`root
      ensures root == dir
    {
      root := dir;
    }

    /** `register`: the engine stored under the extension with its dot. */
    method Register(ext: string, renderFile: Engine)
      requires Valid()
      modifies this`engines
      ensures Valid() && engines == old(engines)[Dotted(ext) := renderFile]
    {
      var key := Dotted(ext);
      engines := engines[key := renderFile];
    }

    /** `setDefault`: fails for an extension nobody registered; with
      * `ignoreIfExists`, a default already set is kept. */
    method SetDefault(ext: string, ignoreIfExists: bool) returns (r: Outcome<TemplateError>)
      modifies this`defaultEngine
      ensures Dotted(ext) !in engines ==> r == Fail(NotRegistered(Dotted(ext))) && defaultEngine == old(defaultEngine)
      ensures Dotted(ext) in engines ==> (r.Pass? &&
        defaultEngine == (if old(defaultEngine) != "" && ignoreIfExists then old(defaultEngine) else Dotted(ext)))
    {
      var key := Dotted(ext);
      if key !in engines {
        return Fail(NotRegistered(key));
      }
      r := Pass;
      if defaultEngine != "" && ignoreIfExists {
        return;
      }
      defaultEngine := key;
    }

    /** `render`'s choice of engine, file and variables. */
    method Render(name: string, data: map<string, JsValue>, resolve: (string, string) -> string)
      returns (r: Result<RenderCall, TemplateError>)
      ensures r == Select(engines, defaultEngine, root, locals, name, data, resolve)
    {
      var ext := Extname(name);
      var fileName := resolve(root, name);
      if ext != "" && ext in engines {
        return Success(RenderCall(engines[ext], fileName, Merged(locals, data)));
      }
      if defaultEngine !in engines {
        return Failure(NoDefaultEngine(ext));
      }
      if ext == "" {
        fileName := fileName + defaultEngine;
      }
      r := Success(RenderCall(engines[defaultEngine], fileName, Merged(locals, data)));
    }

    /** `setLocals`: one variable set, the others kept. */
    method SetLocals(name: string, value: JsValue)
      modifies this`locals
      ensures locals == old(locals)[name := value]
    {
      locals := locals[name := value];
    }

    /** `initSimple(ext = ".html")` and its kind (the engine module found):
      * registered, and the default unless one is set already, so the first
      * engine initialised stays the default. */
    method Init(ext: string, renderFile: Engine)
      requires Valid()
      modifies this`engines, this`defaultEngine
      ensures Valid() && engines == old(engines)[Dotted(ext) := renderFile]
      ensures defaultEngine == (if old(defaultEngine) != "" then old(defaultEngine) else Dotted(ext))
    {
      Register(ext, renderFile);
      var r := SetDefault(ext, true);
    }
  }
}
