/**
 * The loader's constants, the classification of file names by suffix, and
 * the library list: its entries, their normalisation and the lookup by
 * module name (lib/index.js).
 */
module Config {
  import opened Wrappers
  import opened JsString

  datatype FileType = Js | Vue

  datatype StyleType = Css | Scss | Less {
    /** The language name, as a suffix and as a `lang` attribute. */
    function Name(): (r: string)
      ensures |r| >= 3 && !HasUpper(r)
    {
      match this
      case Css => "css"
      case Scss => "scss"
      case Less => "less"
    }
  }

  /**
   * The `style` option of a library: a path template with `{{name}}`
   * placeholders, a user function from the imported name to a path (or to
   * nothing), or a value of any other kind.
   */
  datatype StyleRule =
    | Template(pattern: string)
    | Resolver(resolve: string -> Option<string>)
    | NoRule

  /** A library entry after normalisation. */
  datatype LibraryConfig = LibraryConfig(name: string, splitChart: Option<string>, style: StyleRule)

  /** Whether an object has an own property, and its value (which may be `undefined`). */
  datatype Key<T> = Absent | Present(value: T)

  /** A library entry as the user wrote it. */
  datatype RawLibrary = RawLibrary(name: string, splitChart: Key<Option<string>>, style: StyleRule)

  /** The loader's options: `list`, when given, is the library list. */
  datatype LoaderOptions = LoaderOptions(list: Option<seq<RawLibrary>>)

  /** `path` ends with `suffix` once both are lower-cased (`suffix` already is). */
  predicate HasSuffixIgnoringCase(path: string, suffix: string) {
    |suffix| <= |path| && Lower(path[|path| - |suffix|..]) == suffix
  }

  lemma EndsWithLower(path: string, suffix: string)
    ensures EndsWith(Lower(path), suffix) <==> HasSuffixIgnoringCase(path, suffix)
  {
    if |suffix| <= |path| {
      LowerSlice(path, |path| - |suffix|, |path|);
    }
  }

  /** Once a path has a case-insensitive suffix, a shorter one holds exactly when it is the tail of the longer. */
  lemma SuffixesNest(path: string, a: string, b: string)
    requires HasSuffixIgnoringCase(path, a) && |b| <= |a|
    ensures HasSuffixIgnoringCase(path, b) <==> a[|a| - |b|..] == b
  {
    var s := path[|path| - |a|..];
    assert path[|path| - |b|..] == s[|a| - |b|..];
    LowerSlice(s, |a| - |b|, |s|);
  }

  /** No path has two of the suffixes the classifiers test. */
  lemma SuffixesExclusive(path: string)
    ensures HasSuffixIgnoringCase(path, ".vue") ==> !HasSuffixIgnoringCase(path, ".js")
    ensures HasSuffixIgnoringCase(path, ".scss") ==> !HasSuffixIgnoringCase(path, ".css")
    ensures HasSuffixIgnoringCase(path, ".less") ==> !HasSuffixIgnoringCase(path, ".css")
    ensures HasSuffixIgnoringCase(path, ".less") ==> !HasSuffixIgnoringCase(path, ".scss")
  {
    if HasSuffixIgnoringCase(path, ".vue") {
      SuffixesNest(path, ".vue", ".js");
      assert ".vue"[1..] == "vue";
    }
    if HasSuffixIgnoringCase(path, ".scss") {
      SuffixesNest(path, ".scss", ".css");
      assert ".scss"[1..] == "scss";
    }
    if HasSuffixIgnoringCase(path, ".less") {
      SuffixesNest(path, ".less", ".css");
      SuffixesNest(path, ".less", ".scss");
      assert ".less"[1..] == "less";
      assert ".less"[0..] == ".less";
    }
  }

  /** `getFileType`: `.vue` before `.js`, ignoring case; anything else (or no path) is unsupported. */
  function GetFileType(resourcePath: Option<string>): (r: Option<FileType>)
    ensures var p := resourcePath.GetOr("");
            (r == Some(Vue) <==> HasSuffixIgnoringCase(p, ".vue"))
            && (r == Some(Js) <==> HasSuffixIgnoringCase(p, ".js"))
            && (r == None <==> !HasSuffixIgnoringCase(p, ".vue") && !HasSuffixIgnoringCase(p, ".js"))
  {
    var path := resourcePath.GetOr("");
    var filePath := Lower(path);
    EndsWithLower(path, ".vue");
    EndsWithLower(path, ".js");
    SuffixesExclusive(path);
    if EndsWith(filePath, ".vue") then Some(Vue)
    else if EndsWith(filePath, ".js") then Some(Js)
    else None
  }

  /** `getStyleFileType`: the stylesheet language a path's suffix names, ignoring case. */
  function GetStyleFileType(styleName: string): (r: Option<StyleType>)
    ensures r == Some(Css) <==> HasSuffixIgnoringCase(styleName, ".css")
    ensures r == Some(Scss) <==> HasSuffixIgnoringCase(styleName, ".scss")
    ensures r == Some(Less) <==> HasSuffixIgnoringCase(styleName, ".less")
  {
    var filePath := Lower(styleName);
    EndsWithLower(styleName, ".css");
    EndsWithLower(styleName, ".scss");
    EndsWithLower(styleName, ".less");
    SuffixesExclusive(styleName);
    if EndsWith(filePath, ".css") then Some(Css)
    else if EndsWith(filePath, ".scss") then Some(Scss)
    else if EndsWith(filePath, ".less") then Some(Less)
    else None
  }

  /** The language found is the one the path's suffix names. */
  lemma StyleFileTypeSuffix(styleName: string)
    requires GetStyleFileType(styleName).Some?
    ensures HasSuffixIgnoringCase(styleName, "." + GetStyleFileType(styleName).value.Name())
  {
    match GetStyleFileType(styleName).value
    case Css => assert "." + "css" == ".css";
    case Scss => assert "." + "scss" == ".scss";
    case Less => assert "." + "less" == ".less";
  }

  /** Both classifiers look at the lower-cased name only. */
  lemma {:induction false} ClassifiersIgnoreCase(p: string, q: string)
    requires Lower(p) == Lower(q)
    ensures GetFileType(Some(p)) == GetFileType(Some(q))
    ensures GetStyleFileType(p) == GetStyleFileType(q)
  {
    var suffixes := [".vue", ".js", ".css", ".scss", ".less"];
    forall s | s in suffixes
      ensures HasSuffixIgnoringCase(p, s) <==> HasSuffixIgnoringCase(q, s)
    {
      EndsWithLower(p, s);
      EndsWithLower(q, s);
    }
  }

  /**
   * One entry of `styleImport`'s normalisation: `Object.assign({}, {splitChart: '_'}, d)`.
   * An own `splitChart` key wins, even when its value is `undefined`.
   */
  function NormalizeLibrary(raw: RawLibrary): (c: LibraryConfig)
    ensures c.name == raw.name && c.style == raw.style
    ensures raw.splitChart.Absent? ==> c.splitChart == Some("_")
    ensures raw.splitChart.Present? ==> c.splitChart == raw.splitChart.value
  {
    LibraryConfig(raw.name, match raw.splitChart case Absent => Some("_") case Present(v) => v, raw.style)
  }

  /** `(rawOptions.list || []).map(…)`: the list read from the options, entry by entry. */
  function NormalizeLibraries(options: LoaderOptions): (libs: seq<LibraryConfig>)
    ensures options.list.None? ==> libs == []
    ensures options.list.Some? ==> |libs| == |options.list.value|
    ensures options.list.Some? ==> forall i :: 0 <= i < |libs| ==> libs[i] == NormalizeLibrary(options.list.value[i])
  {
    var list := options.list.GetOr([]);
    seq(|list|, i requires 0 <= i < |list| => NormalizeLibrary(list[i]))
  }

  /** `getLibrayOptions`: the first library whose `name` is exactly the module name. */
  function FindLibrary(name: string, libs: seq<LibraryConfig>): (r: Option<LibraryConfig>)
    ensures r.None? <==> forall i :: 0 <= i < |libs| ==> libs[i].name != name
    ensures r.Some? ==> exists i :: 0 <= i < |libs| && libs[i] == r.value && libs[i].name == name
                                    && forall j :: 0 <= j < i ==> libs[j].name != name
    decreases |libs|
  {
    if |libs| == 0 then None
    else if libs[0].name == name then Some(libs[0])
    else
      var r := FindLibrary(name, libs[1..]);
      assert r.Some? ==> exists i :: 0 <= i < |libs[1..]| && libs[1..][i] == r.value && libs[1..][i].name == name
                                    && forall j :: 0 <= j < i ==> libs[1..][j].name != name;
      assert r.None? ==> forall i :: 1 <= i < |libs| ==> libs[i].name == libs[1..][i - 1].name;
      r
  }
}
