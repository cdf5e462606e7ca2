/**
 * The common web module of module/cbwebcommon/module.go: assembling a
 * template registry from global templates and page files, the default
 * template helpers, CDN URLs, the global template set, and the static file
 * server's path handling and error classification.
 *
 * The template box and the web-asset box are oracles; the clock is a
 * parameter.
 */
module WebCommon {
  import opened Wrappers
  import opened GoStrings
  import opened Templates

  /** The fields of `Module` the modelled operations read. */
  datatype Module = Module(env: string, version: string, brandName: string,
                           templateFuncs: FuncMap, globalTemplates: map<string, Bytes>)

  const NoFileNames := "no fileNames provided"

  // ------------------------------------------------------------------
  // Template helpers
  // ------------------------------------------------------------------

  /** `getDefaultTemplateFuncs`: the four default helpers, by name. */
  function DefaultTemplateFuncs(): (f: FuncMap)
    ensures f.Keys == {"getCdnUrlString", "getCdnUrlTemplateURL", "getVersionString", "getBrandName"}
  {
    map["getCdnUrlString" := HelperFunc("getDefaultCdnUrl"),
        "getCdnUrlTemplateURL" := HelperFunc("getDefaultCdnUrlTemplateUrl"),
        "getVersionString" := HelperFunc("getDefaultVersionString"),
        "getBrandName" := HelperFunc("getDefaultBrandName")]
  }

  /** The defaults overlaid with the module's own helpers, entry by entry in any order. */
  method MergeTemplateFuncs(m: Module) returns (merged: FuncMap)
    ensures merged == DefaultTemplateFuncs() + m.templateFuncs
  {
    merged := DefaultTemplateFuncs();
    var remaining := m.templateFuncs.Keys;
    while remaining != {}
      invariant remaining <= m.templateFuncs.Keys
      invariant merged == DefaultTemplateFuncs() + map k | k in m.templateFuncs.Keys - remaining :: m.templateFuncs[k]
      decreases |remaining|
    {
      var key :| key in remaining;
      merged := merged[key := m.templateFuncs[key]];
      remaining := remaining - {key};
    }
    assert m.templateFuncs == map k | k in m.templateFuncs.Keys - remaining :: m.templateFuncs[k];
  }

  /** A custom helper replaces the default of the same name; every other default survives. */
  lemma CustomFuncsOverride(custom: FuncMap, key: string)
    ensures key in custom ==> (DefaultTemplateFuncs() + custom)[key] == custom[key]
    ensures key !in custom && key in DefaultTemplateFuncs() ==>
      (DefaultTemplateFuncs() + custom)[key] == DefaultTemplateFuncs()[key]
    ensures (DefaultTemplateFuncs() + custom).Keys == DefaultTemplateFuncs().Keys + custom.Keys
  {
  }

  // ------------------------------------------------------------------
  // Template-set assembly
  // ------------------------------------------------------------------

  /** What the template box answers for a file name: its bytes, or the error of opening or reading it. */
  datatype ReadOutcome = Content(bytes: Bytes) | OpenFailed(openError: string) | ReadFailed(readError: string)

  function Failure(r: ReadOutcome): string
    requires !r.Content?
  {
    if r.OpenFailed? then r.openError else r.readError
  }

  /** The first file name the box cannot deliver. */
  function FirstFailure(fileNames: seq<string>, box: string -> ReadOutcome): (r: Option<nat>)
    ensures r.Some? ==> r.value < |fileNames| && !box(fileNames[r.value]).Content?
    ensures r.Some? ==> forall j :: 0 <= j < r.value ==> box(fileNames[j]).Content?
    ensures r.None? ==> forall j :: 0 <= j < |fileNames| ==> box(fileNames[j]).Content?
  {
    if fileNames == [] then None
    else if !box(fileNames[0]).Content? then Some(0)
    else match FirstFailure(fileNames[1..], box)
      case Some(k) => Some(k + 1)
      case None => None
  }

  lemma FirstFailureIs(fileNames: seq<string>, box: string -> ReadOutcome, k: nat)
    requires k <= |fileNames|
    requires forall j :: 0 <= j < k ==> box(fileNames[j]).Content?
    requires k < |fileNames| ==> !box(fileNames[k]).Content?
    ensures FirstFailure(fileNames, box) == if k < |fileNames| then Some(k) else None
  {
    var r := FirstFailure(fileNames, box);
    if r.Some? {
      assert r.value >= k;
    }
  }

  /** The registry entries of the global templates. */
  function GlobalEntries(globals: map<string, Bytes>): map<string, TemplateFile> {
    map name | name in globals :: ParseTemplateFile(globals[name])
  }

  /** The registry after adding the page files in order, each with caching off, to `entries`. */
  function WithFiles(entries: map<string, TemplateFile>, fileNames: seq<string>, box: string -> ReadOutcome): map<string, TemplateFile>
    requires forall j :: 0 <= j < |fileNames| ==> box(fileNames[j]).Content?
  {
    if fileNames == [] then entries
    else
      var last := fileNames[|fileNames| - 1];
      Added(WithFiles(entries, fileNames[..|fileNames| - 1], box), false, last, box(last).bytes)
  }

  /**
   * A page file's entry is the one parsed from its bytes, whatever came
   * before it: a page file overrides a global template of the same name.
   */
  lemma {:induction false} WithFilesLastWins(entries: map<string, TemplateFile>, fileNames: seq<string>,
                                             box: string -> ReadOutcome, name: string)
    requires forall j :: 0 <= j < |fileNames| ==> box(fileNames[j]).Content?
    ensures name in fileNames ==>
      name in WithFiles(entries, fileNames, box) &&
      WithFiles(entries, fileNames, box)[name] == ParseTemplateFile(box(name).bytes)
    ensures name !in fileNames ==> (name in WithFiles(entries, fileNames, box) <==> name in entries)
    ensures name !in fileNames && name in entries ==> WithFiles(entries, fileNames, box)[name] == entries[name]
  {
    if fileNames != [] {
      var init := fileNames[..|fileNames| - 1];
      WithFilesLastWins(entries, init, box, name);
      assert forall x :: x in fileNames <==> x in init || x == fileNames[|fileNames| - 1];
    }
  }

  /** The loop over the global templates, in any order: each is added to the empty registry; none can fail. */
  method AddGlobalTemplates(registry: InheritanceMultiTemplate, globals: map<string, Bytes>) returns (reported: seq<string>)
    requires registry.templates == map[] && !registry.cache
    modifies registry`templates
    ensures registry.templates == GlobalEntries(globals) && reported == []
  {
    reported := [];
    var remaining := globals.Keys;
    while remaining != {}
      invariant remaining <= globals.Keys
      invariant registry.templates == map k | k in globals.Keys - remaining :: ParseTemplateFile(globals[k])
      invariant reported == []
      decreases |remaining|
    {
      var name :| name in remaining;
      var e := registry.AddTemplate(name, globals[name]);
      if e.Some? {
        // AddTemplate never fails, so nothing is ever reported here
        assert false;
      }
      remaining := remaining - {name};
    }
  }

  /** The loop over the page files, in order, stopping at the first that cannot be opened, read or added. */
  method AddPageFiles(registry: InheritanceMultiTemplate, fileNames: seq<string>, box: string -> ReadOutcome)
    returns (err: Option<string>)
    requires !registry.cache
    modifies registry`templates
    ensures match FirstFailure(fileNames, box)
      case Some(k) => err == Some(Failure(box(fileNames[k])))
      case None => err == None && registry.templates == WithFiles(old(registry.templates), fileNames, box)
  {
    ghost var start := registry.templates;
    var i := 0;
    while i < |fileNames|
      invariant 0 <= i <= |fileNames|
      invariant forall j :: 0 <= j < i ==> box(fileNames[j]).Content?
      invariant registry.templates == WithFiles(start, fileNames[..i], box)
    {
      var fileName := fileNames[i];
      var read := box(fileName);
      if read.OpenFailed? {
        FirstFailureIs(fileNames, box, i);
        return Some(read.openError);
      }
      if read.ReadFailed? {
        FirstFailureIs(fileNames, box, i);
        return Some(read.readError);
      }
      var e := registry.AddTemplate(fileName, read.bytes);
      if e.Some? {
        // AddTemplate never fails, so this return is never taken
        assert false;
      }
      assert fileNames[..i + 1][..i] == fileNames[..i];
      i := i + 1;
    }
    FirstFailureIs(fileNames, box, |fileNames|);
    assert fileNames[..|fileNames|] == fileNames;
    return None;
  }

  /**
   * `GenerateTemplate`: a registry over the merged helpers, without a cache,
   * holding the global templates and then the page files in order. An error
   * adding a global template is only reported; the first page file that
   * cannot be opened, read or added is reported and returned.
   */
  method GenerateTemplate(m: Module, fileNames: seq<string>, box: string -> ReadOutcome)
    returns (t: InheritanceMultiTemplate?, err: Option<string>, reported: seq<string>)
    ensures fileNames == [] ==> t == null && err == Some(NoFileNames) && reported == []
    ensures fileNames != [] ==> match FirstFailure(fileNames, box)
      case Some(k) =>
        t == null && err == Some(Failure(box(fileNames[k]))) && reported == [Failure(box(fileNames[k]))]
      case None =>
        t != null && fresh(t) && err == None && reported == [] &&
        t.funcs == DefaultTemplateFuncs() + m.templateFuncs && !t.cache && t.cachedTemplates == null &&
        t.templates == WithFiles(GlobalEntries(m.globalTemplates), fileNames, box)
  {
    var merged := MergeTemplateFuncs(m);
    var registry := new InheritanceMultiTemplate(Dependencies(merged, false, null));
    reported := AddGlobalTemplates(registry, m.globalTemplates);
    if |fileNames| == 0 {
      return null, Some(NoFileNames), reported;
    }
    var e := AddPageFiles(registry, fileNames, box);
    if e.Some? {
      reported := reported + [e.value];
      return null, e, reported;
    }
    return registry, None, reported;
  }

  // ------------------------------------------------------------------
  // Small helpers
  // ------------------------------------------------------------------

  /**
   * `getDefaultCdnUrl`: the URL with a cache-busting query, the current Unix
   * time `now` in "dev" and the module's version otherwise.
   */
  function DefaultCdnUrl(m: Module, nonCdnUrl: string, now: nat): (r: string)
    ensures |r| > |nonCdnUrl| && r[..|nonCdnUrl|] == nonCdnUrl && r[|nonCdnUrl|] == '?'
    ensures m.env != "dev" ==> r[|nonCdnUrl| + 1..] == m.version
    ensures m.env == "dev" ==> r[|nonCdnUrl| + 1..] == Decimal(now)
    ensures m.env == "dev" ==> ParseDecimal(r[|nonCdnUrl| + 1..]) == Some(now)
  {
    var query := if m.env == "dev" then Decimal(now) else m.version;
    var r := nonCdnUrl + "?" + query;
    assert r[|nonCdnUrl| + 1..] == query;
    ParseDecimalOfDecimal(now);
    r
  }

  /** Outside "dev" the CDN URL does not depend on the clock. */
  lemma CdnUrlIgnoresClock(m: Module, nonCdnUrl: string, t1: nat, t2: nat)
    requires m.env != "dev"
    ensures DefaultCdnUrl(m, nonCdnUrl, t1) == DefaultCdnUrl(m, nonCdnUrl, t2)
  {
  }

  const GlobalPrefix := "-global-/cbwebcommon/"

  /** `GetGlobalTemplates`: the four shared templates under their global names. */
  function GetGlobalTemplates(master: Bytes, nav: Bytes, flash: Bytes, inputText: Bytes): (g: map<string, Bytes>)
    ensures |g| == 4
    ensures forall name :: name in g ==> HasPrefix(name, GlobalPrefix)
    ensures GlobalPrefix + "master.gohtml" in g && g[GlobalPrefix + "master.gohtml"] == master
    ensures GlobalPrefix + "nav.gohtml" in g && g[GlobalPrefix + "nav.gohtml"] == nav
    ensures GlobalPrefix + "flash.gohtml" in g && g[GlobalPrefix + "flash.gohtml"] == flash
    ensures GlobalPrefix + "inputtext.gohtml" in g && g[GlobalPrefix + "inputtext.gohtml"] == inputText
  {
    var g := map[GlobalPrefix + "master.gohtml" := master, GlobalPrefix + "nav.gohtml" := nav,
                 GlobalPrefix + "flash.gohtml" := flash, GlobalPrefix + "inputtext.gohtml" := inputText];
    assert (GlobalPrefix + "master.gohtml")[..|GlobalPrefix|] == GlobalPrefix;
    assert (GlobalPrefix + "nav.gohtml")[..|GlobalPrefix|] == GlobalPrefix;
    assert (GlobalPrefix + "flash.gohtml")[..|GlobalPrefix|] == GlobalPrefix;
    assert (GlobalPrefix + "inputtext.gohtml")[..|GlobalPrefix|] == GlobalPrefix;
    assert g.Keys == {GlobalPrefix + "master.gohtml", GlobalPrefix + "nav.gohtml",
                      GlobalPrefix + "flash.gohtml", GlobalPrefix + "inputtext.gohtml"};
    g
  }

  // ------------------------------------------------------------------
  // Static files
  // ------------------------------------------------------------------

  /** The request path up to its first '?', as `strings.Split(uri, "?")[0]` gives it. */
  function TruncatePath(uri: string): (r: string)
    ensures |r| <= |uri| && r == uri[..|r|] && '?' !in r
    ensures '?' !in uri ==> r == uri
    ensures '?' in uri ==> |r| < |uri| && uri[|r|] == '?'
  {
    ContainsChar(uri, '?');
    SplitFirst(uri, '?');
    if Contains(uri, "?") then Split(uri, '?')[0] else uri
  }

  /** An open error that means the file is absent. */
  predicate IsMissingFile(message: string) {
    Contains(message, "file does not exist") || Contains(message, "no such file or directory")
  }

  datatype StaticResponse = Serve(path: string) | ErrorPage(status: nat, body: string)

  const NotFoundPage := ErrorPage(404, "Error: 404 Not Found")
  const ServerErrorPage := ErrorPage(500, "Error: 500")

  /**
   * `DefaultFileServer` up to streaming: the truncated path is opened and
   * stat'ed; a missing file gives the 404 page, any other failure is
   * reported and gives the 500 page. `openError` and `statError` are the
   * web-asset box's answers.
   */
  function DefaultFileServer(uri: string, openError: string -> Option<string>, statError: string -> Option<string>)
    : (r: (StaticResponse, Option<string>))
    ensures var path := TruncatePath(uri);
      match openError(path)
      case Some(e) => r == if IsMissingFile(e) then (NotFoundPage, None) else (ServerErrorPage, Some(e))
      case None =>
        match statError(path)
        case Some(e) => r == (ServerErrorPage, Some(e))
        case None => r == (Serve(path), None)
  {
    var path := if Contains(uri, "?") then Split(uri, '?')[0] else uri;
    match openError(path)
    case Some(e) =>
      if Contains(e, "file does not exist") || Contains(e, "no such file or directory") then (NotFoundPage, None)
      else (ServerErrorPage, Some(e))
    case None =>
      match statError(path)
      case Some(e) => (ServerErrorPage, Some(e))
      case None => (Serve(path), None)
  }

  /** The file served never carries the query string, and a missing file is never reported as an error. */
  lemma FileServerOutcomes(uri: string, openError: string -> Option<string>, statError: string -> Option<string>)
    ensures var (resp, reported) := DefaultFileServer(uri, openError, statError);
      (resp.Serve? ==> '?' !in resp.path && HasPrefix(uri, resp.path)) &&
      (resp == NotFoundPage ==> reported == None) &&
      (reported.Some? ==> resp == ServerErrorPage)
  {
  }

  /** Go's messages for a missing file, "open NAME: file does not exist" and the like, give the 404 page. */
  lemma MissingFileMessages(before: string, after: string)
    ensures IsMissingFile(before + "file does not exist" + after)
    ensures IsMissingFile(before + "no such file or directory" + after)
  {
    var a := before + "file does not exist" + after;
    assert HasPrefix(a[|before|..], "file does not exist");
    var b := before + "no such file or directory" + after;
    assert HasPrefix(b[|before|..], "no such file or directory");
  }
}
