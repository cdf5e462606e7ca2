/**
 * The template inheritance registry of templates/template.go: templates are
 * registered by name with their extends directive already resolved
 * (`AddTemplate`), and rendered by compiling the named template, with its
 * layout appended, together with every other registered template into one
 * html/template set, which may be kept in a cache (`ExecuteTemplate`).
 *
 * html/template itself is not modelled: parsing a source into a set and
 * executing a set are oracles (function parameters) that may fail.
 */
module Templates {
  import opened Wrappers
  import opened GoStrings
  import opened ExtendsDirective

  /** A registered template: the layout it extends ("" for none) and the content that is compiled. */
  datatype TemplateFile = TemplateFile(layout: string, content: Bytes)

  /** An opaque identity for a helper function handed to html/template. */
  datatype HelperFunc = HelperFunc(id: string)

  type FuncMap = map<string, HelperFunc>

  /** A compiled html/template set: its name, its helper functions and the sources parsed into it, in order. */
  datatype TemplateSet = TemplateSet(name: string, funcs: FuncMap, sources: seq<Bytes>)

  /** What html/template's `Parse` says of one more source for a set: `None` accepts it, `Some(e)` is a syntax error. */
  type ParseOracle = (TemplateSet, Bytes) -> Option<string>

  /** What html/template's `Execute` writes to the output, and the error it returns, if any. */
  datatype Execution = Execution(written: Bytes, failure: Option<string>)

  datatype Error =
    | TemplateMissing(name: string)      // "template (name) does not exist"
    | LayoutMissing(layout: string)      // "template layout (layout) does not exist"
    | SyntaxError(parse: string)         // the error of html/template's Parse
    | ExecutionError(exec: string)       // the error of html/template's Execute

  function Message(e: Error): string {
    match e
    case TemplateMissing(name) => "template (" + name + ") does not exist"
    case LayoutMissing(layout) => "template layout (" + layout + ") does not exist"
    case SyntaxError(msg) => msg
    case ExecutionError(msg) => msg
  }

  /** The cache key of a template's compiled set. */
  function CacheKey(name: string): string {
    "executeTemplate:" + name
  }

  /** The time-to-live of a cached set, 24 hours, in nanoseconds as Go's `time.Duration` counts it. */
  const CacheTtl: nat := 24 * 60 * 60 * 1_000_000_000

  // ------------------------------------------------------------------
  // Registration
  // ------------------------------------------------------------------

  /**
   * The entry `AddTemplate` stores for `content`: when the first line is at
   * least 10 bytes long and holds an extends directive, the captured name is
   * the layout and the whole first line is removed; otherwise the content is
   * kept as it is with no layout.
   */
  function ParseTemplateFile(content: Bytes): TemplateFile {
    var line := FirstLine(content);
    if |line| < MinDirectiveLine then TemplateFile("", content)
    else match FindExtends(line)
      case Some(name) => TemplateFile(StringOf(name), content[|line|..])
      case None => TemplateFile("", content)
  }

  /** The registry after `AddTemplate(name, content)`: in caching mode a known name is left alone. */
  function Added(templates: map<string, TemplateFile>, cache: bool, name: string, content: Bytes): map<string, TemplateFile> {
    if cache && name in templates then templates
    else templates[name := ParseTemplateFile(content)]
  }

  /**
   * What a stored entry is: either the unchanged content with no layout, or
   * a non-empty layout named by the leftmost directive of the first line,
   * with `content == FirstLine(content) + stored content`.
   */
  lemma ParseTemplateFileSpec(content: Bytes)
    ensures var t := ParseTemplateFile(content);
      (t.layout == "" && t.content == content) ||
      (t.layout != "" && IsByteString(t.layout) &&
       FindExtends(FirstLine(content)) == Some(BytesOf(t.layout)) &&
       content == FirstLine(content) + t.content)
  {
    var line := FirstLine(content);
    FirstLineShape(content);
    if |line| >= MinDirectiveLine && FindExtends(line).Some? {
      FindExtendsName(line);
      BytesOfStringOf(FindExtends(line).value);
      assert content == line + content[|line|..];
    }
  }

  /** The 10-byte guard never changes the stored entry: without it the outcome is the same. */
  lemma LengthGuardIsRedundant(content: Bytes)
    ensures ParseTemplateFile(content) ==
      match FindExtends(FirstLine(content))
      case Some(name) => TemplateFile(StringOf(name), content[|FirstLine(content)|..])
      case None => TemplateFile("", content)
  {
    FirstLineShape(content);
    if |FirstLine(content)| < MinDirectiveLine {
      ShortLineNeverMatches(FirstLine(content));
    }
  }

  /** A template whose first line holds no directive is stored as it is: a malformed directive is not an error. */
  lemma NoDirectiveKeepsContent(content: Bytes)
    requires forall p, k1, k2, name, k3 :: !DirectiveAt(FirstLine(content), p, k1, k2, name, k3)
    ensures ParseTemplateFile(content) == TemplateFile("", content)
  {
    FindExtendsIsDirective(FirstLine(content));
  }

  /** Registering a name twice: in caching mode the first body stays, otherwise the second replaces it. */
  lemma RegisterTwice(templates: map<string, TemplateFile>, cache: bool, name: string, first: Bytes, second: Bytes)
    ensures cache ==>
      Added(Added(templates, cache, name, first), cache, name, second)[name] ==
        (if name in templates then templates[name] else ParseTemplateFile(first))
    ensures !cache ==> Added(Added(templates, cache, name, first), cache, name, second)[name] == ParseTemplateFile(second)
  {
  }

  // ------------------------------------------------------------------
  // Compilation
  // ------------------------------------------------------------------

  /**
   * The source compiled for a registered template: its stored content,
   * followed by its layout's stored content when it has a layout. Only one
   * level: the layout's own layout is not appended.
   */
  function CompiledSource(templates: map<string, TemplateFile>, name: string): Result<Bytes, Error>
    requires name in templates
  {
    var t := templates[name];
    if t.layout == "" then Ok(t.content)
    else if t.layout !in templates then Err(LayoutMissing(t.layout))
    else Ok(t.content + templates[t.layout].content)
  }

  /** Parse one more source into a set. */
  function ParseInto(parse: ParseOracle, t: TemplateSet, src: Bytes): Result<TemplateSet, Error> {
    match parse(t, src)
    case Some(e) => Err(SyntaxError(e))
    case None => Ok(t.(sources := t.sources + [src]))
  }

  /**
   * The second pass of `ExecuteTemplate` over `visited`, a prefix of the
   * registry's iteration order: every template but the target is compiled
   * and parsed into the set; the first failure stops the pass.
   */
  function OthersPass(templates: map<string, TemplateFile>, target: string, parse: ParseOracle,
                      t: TemplateSet, visited: seq<string>): Result<TemplateSet, Error>
    requires forall x :: x in visited ==> x in templates
  {
    if visited == [] then Ok(t)
    else
      var last := visited[|visited| - 1];
      match OthersPass(templates, target, parse, t, visited[..|visited| - 1])
      case Err(e) => Err(e)
      case Ok(t') =>
        if last == target then Ok(t')
        else match CompiledSource(templates, last)
          case Err(e) => Err(e)
          case Ok(src) => ParseInto(parse, t', src)
  }

  /** `order` lists every registered name exactly once, as Go's map iteration does. */
  predicate IsEnumeration(order: seq<string>, names: set<string>) {
    |order| == |names| &&
    (forall k :: 0 <= k < |order| ==> order[k] in names) &&
    (forall j, k :: 0 <= j < k < |order| ==> order[j] != order[k])
  }

  /**
   * The compiled set for `name`, or the first error: a missing target, then
   * its missing layout, then its syntax error, then — in iteration order —
   * the missing layout or syntax error of any other template.
   */
  function Compile(templates: map<string, TemplateFile>, funcs: FuncMap, name: string,
                   order: seq<string>, parse: ParseOracle): Result<TemplateSet, Error>
    requires forall x :: x in order ==> x in templates
  {
    if name !in templates then Err(TemplateMissing(name))
    else match CompiledSource(templates, name)
      case Err(e) => Err(e)
      case Ok(src) =>
        match ParseInto(parse, TemplateSet(name, funcs, []), src)
        case Err(e) => Err(e)
        case Ok(t) => OthersPass(templates, name, parse, t, order)
  }

  /** The names the second pass compiles: the iteration order without the target. */
  function Others(order: seq<string>, target: string): (r: seq<string>)
    ensures forall x :: x in r <==> x in order && x != target
    ensures |r| <= |order|
  {
    if order == [] then []
    else
      var last := order[|order| - 1];
      Others(order[..|order| - 1], target) + (if last == target then [] else [last])
  }

  /** The sources of a set compiled without error, in the order they were parsed. */
  function Sources(templates: map<string, TemplateFile>, names: seq<string>): seq<Bytes>
    requires forall x :: x in names ==> x in templates && CompiledSource(templates, x).Ok?
  {
    if names == [] then []
    else Sources(templates, names[..|names| - 1]) + [CompiledSource(templates, names[|names| - 1]).value]
  }

  /**
   * A successful second pass parsed exactly the other templates, each once,
   * in iteration order, and each of them compiled without error.
   */
  lemma {:induction false} OthersPassSuccess(templates: map<string, TemplateFile>, target: string, parse: ParseOracle,
                                             t: TemplateSet, visited: seq<string>)
    requires forall x :: x in visited ==> x in templates
    requires OthersPass(templates, target, parse, t, visited).Ok?
    ensures forall x :: x in Others(visited, target) ==> CompiledSource(templates, x).Ok?
    ensures OthersPass(templates, target, parse, t, visited).value ==
      t.(sources := t.sources + Sources(templates, Others(visited, target)))
  {
    if visited != [] {
      var init := visited[..|visited| - 1];
      var last := visited[|visited| - 1];
      OthersPassSuccess(templates, target, parse, t, init);
      var before := OthersPass(templates, target, parse, t, init).value;
      if last != target {
        var names := Others(visited, target);
        assert names == Others(init, target) + [last];
        assert names[..|names| - 1] == Others(init, target);
        var src := CompiledSource(templates, last).value;
        assert OthersPass(templates, target, parse, t, visited) == ParseInto(parse, before, src);
        assert Sources(templates, names) == Sources(templates, Others(init, target)) + [src];
        assert before.sources + [src] == t.sources + Sources(templates, names);
      } else {
        assert Others(visited, target) == Others(init, target) + [] == Others(init, target);
        assert OthersPass(templates, target, parse, t, visited) == Ok(before);
        assert before == t.(sources := t.sources + Sources(templates, Others(init, target)));
      }
    } else {
      assert t.sources + [] == t.sources;
    }
  }

  /** The first error of the second pass stays the error however the iteration goes on. */
  lemma {:induction false} OthersPassErrorSticks(templates: map<string, TemplateFile>, target: string, parse: ParseOracle,
                                                 t: TemplateSet, visited: seq<string>, more: seq<string>)
    requires forall x :: x in visited ==> x in templates
    requires forall x :: x in more ==> x in templates
    requires OthersPass(templates, target, parse, t, visited).Err?
    ensures OthersPass(templates, target, parse, t, visited + more) == OthersPass(templates, target, parse, t, visited)
    decreases |more|
  {
    if more != [] {
      var init := more[..|more| - 1];
      OthersPassErrorSticks(templates, target, parse, t, visited, init);
      assert (visited + more)[..|visited + more| - 1] == visited + init;
    } else {
      assert visited + more == visited;
    }
  }

  /**
   * What a successful compile holds: the target's source first, then the
   * source of every other registered template, each exactly once, in
   * iteration order; each source is its content plus one level of layout.
   */
  lemma CompileSuccess(templates: map<string, TemplateFile>, funcs: FuncMap, name: string,
                       order: seq<string>, parse: ParseOracle)
    requires IsEnumeration(order, templates.Keys)
    requires Compile(templates, funcs, name, order, parse).Ok?
    ensures name in templates
    ensures forall x :: x in templates ==> CompiledSource(templates, x).Ok?
    ensures var others := Others(order, name);
      (forall x :: x in others <==> x in templates && x != name) &&
      Compile(templates, funcs, name, order, parse).value ==
        TemplateSet(name, funcs, [CompiledSource(templates, name).value] + Sources(templates, others))
  {
    var src := CompiledSource(templates, name).value;
    var t := TemplateSet(name, funcs, [src]);
    assert [] + [src] == [src];
    OthersPassSuccess(templates, name, parse, t, order);
    forall x ensures x in Others(order, name) <==> x in templates && x != name {
      if x in templates {
        EnumerationCovers(order, templates.Keys, x);
      }
    }
    forall x | x in templates ensures CompiledSource(templates, x).Ok? {
      if x != name {
        EnumerationCovers(order, templates.Keys, x);
        assert x in Others(order, name);
      }
    }
  }

  lemma EnumerationCovers(order: seq<string>, names: set<string>, x: string)
    requires IsEnumeration(order, names) && x in names
    ensures x in order
  {
    var seen := set k | 0 <= k < |order| :: order[k];
    assert seen <= names;
    if x !in order {
      assert seen <= names - {x};
      SeqImageSize(order);
      assert |names - {x}| == |names| - 1;
      SubsetSize(seen, names - {x});
      assert false;
    }
  }

  lemma SubsetSize<T>(a: set<T>, b: set<T>)
    requires a <= b
    ensures |a| <= |b|
  {
    assert b == a + (b - a);
  }

  lemma {:induction false} SeqImageSize(order: seq<string>)
    requires forall j, k :: 0 <= j < k < |order| ==> order[j] != order[k]
    ensures |set k | 0 <= k < |order| :: order[k]| == |order|
  {
    if order != [] {
      var init := order[..|order| - 1];
      SeqImageSize(init);
      var a := set k | 0 <= k < |init| :: init[k];
      var b := set k | 0 <= k < |order| :: order[k];
      assert b == a + {order[|order| - 1]};
      assert order[|order| - 1] !in a;
    }
  }

  /** A template whose layout is not registered is never compiled, whatever its place. */
  lemma MissingLayoutFails(templates: map<string, TemplateFile>, funcs: FuncMap, name: string,
                           order: seq<string>, parse: ParseOracle, x: string)
    requires IsEnumeration(order, templates.Keys)
    requires x in templates && templates[x].layout != "" && templates[x].layout !in templates
    ensures Compile(templates, funcs, name, order, parse).Err?
  {
    if Compile(templates, funcs, name, order, parse).Ok? {
      CompileSuccess(templates, funcs, name, order, parse);
    }
  }

  // ------------------------------------------------------------------
  // The cache provider and the registry
  // ------------------------------------------------------------------

  datatype CacheEntry = CacheEntry(value: TemplateSet, ttl: nat)

  /** A `CacheProvider` as a plain map from keys to entries (expiry is not modelled). */
  class CacheProvider {
    var entries: map<string, CacheEntry>

    constructor ()
      ensures entries == map[]
    {
      entries := map[];
    }

    method Get(key: string) returns (value: Option<TemplateSet>)
      ensures value == if key in entries then Some(entries[key].value) else None
    {
      value := if key in entries then Some(entries[key].value) else None;
    }

    method Set(key: string, value: TemplateSet, ttl: nat)
      modifies this
      ensures entries == old(entries)[key := CacheEntry(value, ttl)]
    {
      entries := entries[key := CacheEntry(value, ttl)];
    }

    method Delete(key: string)
      modifies this
      ensures entries == old(entries) - {key}
    {
      entries := entries - {key};
    }
  }

  datatype Dependencies = Dependencies(funcs: FuncMap, cache: bool, cacheProvider: CacheProvider?)

  class InheritanceMultiTemplate {
    var templates: map<string, TemplateFile>
    const funcs: FuncMap
    const cache: bool
    const cachedTemplates: CacheProvider?

    /** `NewInheritanceMultiTemplate`: an empty registry over the given dependencies. */
    constructor (dependencies: Dependencies)
      ensures templates == map[]
      ensures funcs == dependencies.funcs && cache == dependencies.cache
      ensures cachedTemplates == dependencies.cacheProvider
    {
      templates := map[];
      funcs := dependencies.funcs;
      cache := dependencies.cache;
      cachedTemplates := dependencies.cacheProvider;
    }

    /**
     * Register `content` under `name`. Never fails; in caching mode a name
     * that is already registered is left as it is.
     */
    method AddTemplate(name: string, content: Bytes) returns (err: Option<Error>)
      modifies this`templates
      ensures err == None
      ensures templates == Added(old(templates), cache, name, content)
    {
      if cache && name in templates {
        return None;
      }
      var templ := TemplateFile("", content);
      var line := ScanFirstLine(templ.content);
      if |line| < MinDirectiveLine {
        templates := templates[name := templ];
        return None;
      }
      var m := FindExtends(line);
      if m.Some? {
        FirstLineShape(content);
        templ := TemplateFile(StringOf(m.value), templ.content[|line|..]);
      }
      templates := templates[name := templ];
      return None;
    }

    /** The compilation `ExecuteTemplate` performs on a cache miss: the inheritance pass, then every other template. */
    method CompileNamed(name: string, order: seq<string>, parse: ParseOracle) returns (r: Result<TemplateSet, Error>)
      requires IsEnumeration(order, templates.Keys)
      ensures r == Compile(templates, funcs, name, order, parse)
    {
      if name !in templates {
        return Err(TemplateMissing(name));
      }
      var templ := templates[name];
      var t := TemplateSet(name, map[], []);
      if templ.layout != "" {
        if templ.layout !in templates {
          return Err(LayoutMissing(templ.layout));
        }
        templ := templ.(content := templ.content + templates[templ.layout].content);
      }
      t := t.(funcs := funcs);
      var e := parse(t, templ.content);
      if e.Some? {
        return Err(SyntaxError(e.value));
      }
      t := t.(sources := t.sources + [templ.content]);
      ghost var first := t;
      var i := 0;
      while i < |order|
        invariant 0 <= i <= |order|
        invariant OthersPass(templates, name, parse, first, order[..i]) == Ok(t)
      {
        var templName := order[i];
        assert order[..i + 1][..i] == order[..i];
        if templName != name {
          var other := templates[templName];
          if other.layout != "" {
            if other.layout !in templates {
              OthersPassErrorSticks(templates, name, parse, first, order[..i + 1], order[i + 1..]);
              assert order[..i + 1] + order[i + 1..] == order;
              return Err(LayoutMissing(other.layout));
            }
            other := other.(content := other.content + templates[other.layout].content);
          }
          var e := parse(t, other.content);
          if e.Some? {
            OthersPassErrorSticks(templates, name, parse, first, order[..i + 1], order[i + 1..]);
            assert order[..i + 1] + order[i + 1..] == order;
            return Err(SyntaxError(e.value));
          }
          t := t.(sources := t.sources + [other.content]);
        }
        i := i + 1;
      }
      assert order[..|order|] == order;
      return Ok(t);
    }

    /**
     * Render the template `name` with `data`. A cached set is used only when
     * caching is on, a provider is present and it holds the key; otherwise
     * the set is compiled (`Compile`), and a compiled set is stored whenever
     * a provider is present. Errors from before execution write nothing.
     * `order` is the order in which Go's map iteration visits the registry.
     */
    method ExecuteTemplate<D>(name: string, data: D, order: seq<string>,
                              parse: ParseOracle, execute: (TemplateSet, D) -> Execution)
      returns (written: Bytes, err: Option<Error>)
      requires IsEnumeration(order, templates.Keys)
      modifies cachedTemplates
      ensures templates == old(templates)
      ensures var key := CacheKey(name);
        var hit := cachedTemplates != null && key in old(cachedTemplates.entries);
        if cache && hit then
          cachedTemplates.entries == old(cachedTemplates.entries) &&
          (written, err) == Run(execute, old(cachedTemplates.entries)[key].value, data)
        else match Compile(templates, funcs, name, order, parse)
          case Err(e) =>
            written == [] && err == Some(e) &&
            (cachedTemplates != null ==> cachedTemplates.entries == old(cachedTemplates.entries))
          case Ok(t) =>
            (written, err) == Run(execute, t, data) &&
            (cachedTemplates != null ==>
               cachedTemplates.entries == old(cachedTemplates.entries)[key := CacheEntry(t, CacheTtl)])
    {
      var key := CacheKey(name);
      var t := TemplateSet(name, map[], []);
      var ok := false;
      if cachedTemplates != null {
        var cached := cachedTemplates.Get(key);
        if cached.Some? {
          ok := true;
          t := cached.value;
        }
      }
      if !cache || !ok {
        var compiled := CompileNamed(name, order, parse);
        if compiled.Err? {
          return [], Some(compiled.error);
        }
        t := compiled.value;
        if cachedTemplates != null {
          cachedTemplates.Set(key, t, CacheTtl);
        }
      }
      var result := execute(t, data);
      written := result.written;
      err := if result.failure.Some? then Some(ExecutionError(result.failure.value)) else None;
    }
  }

  /** Executing a set: what it writes, and its error as an `ExecutionError`. */
  function Run<D>(execute: (TemplateSet, D) -> Execution, t: TemplateSet, data: D): (Bytes, Option<Error>) {
    var r := execute(t, data);
    (r.written, if r.failure.Some? then Some(ExecutionError(r.failure.value)) else None)
  }
}
