/**
 * The loader entry point (`styleImport`, `convertJsSource`,
 * `convertVueSource` in lib/index.js): options are normalised, the file type
 * picks the rewriter, and the two parsers are inputs of the model.
 */
module Loader {
  import opened Wrappers
  import opened JsString
  import opened Util
  import opened Parsed
  import opened Config
  import opened Resolver
  import opened Scanner
  import opened JsRewriter
  import opened VueRewriter

  /** The script parser: the top-level statements, or `None` where it throws. */
  type JsParser = string -> Option<seq<Statement>>

  /** The component sectioner; it always produces sections. */
  type VueParser = string -> VueSections

  /** What the loader hands back: a text, or the parser's exception passed on. */
  datatype Outcome = Rewritten(text: string) | ParseFailure

  /**
   * The statements in front of a script: a failure exactly when the script
   * does not parse, and otherwise the script kept whole at the end.
   */
  function JsOutcome(source: string, libraryList: seq<LibraryConfig>, parseJs: JsParser): (r: Outcome)
    ensures r.ParseFailure? <==> parseJs(source).None?
    ensures r.Rewritten? ==> EndsWith(r.text, source)
  {
    match parseJs(source)
    case None => ParseFailure
    case Some(body) =>
      var prefix := JsPrefix(ImportRecords(body, libraryList, |body|));
      assert (prefix + source)[|prefix|..] == source;
      Rewritten(prefix + source)
  }

  /**
   * The component with statements merged into its style blocks and written
   * back out: a failure exactly when its script does not parse, and
   * otherwise the template first and the script last, both as they were.
   */
  function VueOutcome(source: string, libraryList: seq<LibraryConfig>, parseJs: JsParser, parseVue: VueParser): (r: Outcome)
    ensures r.ParseFailure? <==> parseJs(parseVue(source).script.GetOr("")).None?
    ensures r.Rewritten? ==> StartsWith(r.text, "<template>" + parseVue(source).template.GetOr("") + "</template>\n")
    ensures r.Rewritten? ==> EndsWith(r.text, "<script>" + parseVue(source).script.GetOr("") + "</script>")
  {
    var vueRes := parseVue(source);
    match parseJs(vueRes.script.GetOr(""))
    case None => ParseFailure
    case Some(body) =>
      Rewritten(VueMarkup(vueRes.(styles := MergeRecords(vueRes.styles, ImportRecords(body, libraryList, |body|)))))
  }

  /**
   * The whole loader: files that are neither scripts nor components come
   * back as they are, and only a script or component that does not parse
   * fails.
   */
  function Transform(source: string, resourcePath: Option<string>, rawOptions: Option<LoaderOptions>,
                     parseJs: JsParser, parseVue: VueParser): (r: Outcome)
    ensures GetFileType(resourcePath).None? ==> r == Rewritten(source)
    ensures GetFileType(resourcePath) == Some(Js) ==> (r.ParseFailure? <==> parseJs(source).None?)
    ensures GetFileType(resourcePath) == Some(Vue) ==> (r.ParseFailure? <==> parseJs(parseVue(source).script.GetOr("")).None?)
  {
    var libraryList := NormalizeLibraries(rawOptions.GetOr(LoaderOptions(None)));
    match GetFileType(resourcePath)
    case None => Rewritten(source)
    case Some(Js) => JsOutcome(source, libraryList, parseJs)
    case Some(Vue) => VueOutcome(source, libraryList, parseJs, parseVue)
  }

  /** `convertJsSource`. */
  method ConvertJsSource(source: string, libraryList: seq<LibraryConfig>, parseJs: JsParser) returns (out: Outcome)
    ensures out == JsOutcome(source, libraryList, parseJs)
  {
    var ast := parseJs(source);
    if ast.None? {
      return ParseFailure;
    }
    var componentList := GetImportComponentList(ast.value, libraryList);
    var text := InsertStyleImportToJsSource(source, componentList);
    out := Rewritten(text);
  }

  /** The sectioner's style entries as objects of their own. */
  method StyleEntries(styles: seq<StyleBlock>) returns (list: seq<StyleRes>)
    ensures Distinct(list) && Values(list) == styles
    ensures forall i :: 0 <= i < |list| ==> fresh(list[i])
  {
    list := [];
    var i := 0;
    while i < |styles|
      invariant i <= |styles|
      invariant Distinct(list) && Values(list) == styles[..i]
      invariant forall m :: 0 <= m < |list| ==> fresh(list[m])
    {
      var entry := new StyleRes(styles[i].lang, styles[i].content);
      list := list + [entry];
      i := i + 1;
    }
    assert styles[..|styles|] == styles;
  }

  /** `convertVueSource`: the script's imports feed the style blocks; the style list is replaced. */
  method ConvertVueSource(source: string, libraryList: seq<LibraryConfig>, parseJs: JsParser, parseVue: VueParser)
    returns (out: Outcome)
    ensures out == VueOutcome(source, libraryList, parseJs, parseVue)
  {
    var vueRes := parseVue(source);
    var jsSource := vueRes.script.GetOr("");
    var styleResList := StyleEntries(vueRes.styles);
    var jsAst := parseJs(jsSource);
    if jsAst.None? {
      return ParseFailure;
    }
    var componentList := GetImportComponentList(jsAst.value, libraryList);
    var newStyleResList := InsertStyleImportToVueStyles(styleResList, componentList);
    vueRes := vueRes.(styles := Values(newStyleResList));
    var text := ConvertSourceByVueRes(vueRes);
    out := Rewritten(text);
  }

  /** `styleImport`: normalise the library list, then dispatch on the file type. */
  method StyleImport(source: string, resourcePath: Option<string>, rawOptions: Option<LoaderOptions>,
                     parseJs: JsParser, parseVue: VueParser) returns (out: Outcome)
    ensures out == Transform(source, resourcePath, rawOptions, parseJs, parseVue)
  {
    var libraryList := NormalizeLibraries(rawOptions.GetOr(LoaderOptions(None)));
    var fileType := GetFileType(resourcePath);
    if fileType.None? {
      return Rewritten(source);
    }
    if fileType == Some(Js) {
      out := ConvertJsSource(source, libraryList, parseJs);
    } else {
      out := ConvertVueSource(source, libraryList, parseJs, parseVue);
    }
  }

  /** A path that is neither `.js` nor `.vue` (in any case) leaves the source as it is, whatever the parsers do. */
  lemma UnsupportedFileUnchanged(source: string, resourcePath: Option<string>, rawOptions: Option<LoaderOptions>,
                                 parseJs: JsParser, parseVue: VueParser)
    requires var p := resourcePath.GetOr("");
             !HasSuffixIgnoringCase(p, ".js") && !HasSuffixIgnoringCase(p, ".vue")
    ensures Transform(source, resourcePath, rawOptions, parseJs, parseVue) == Rewritten(source)
  {
  }

  /** No declaration of a configured library, no records. */
  lemma {:induction false} NoMatchNoRecords(body: seq<Statement>, libs: seq<LibraryConfig>, n: nat)
    requires n <= |body|
    requires forall i :: 0 <= i < n ==> !Matches(body[i], libs)
    ensures ImportRecords(body, libs, n) == []
    decreases n
  {
    if n > 0 {
      NoMatchNoRecords(body, libs, n - 1);
    }
  }

  /**
   * A script is only ever extended at the front: the output is the statements
   * followed by the source, and a script that imports no configured library
   * comes back unchanged.
   */
  lemma JsSourceIsSuffix(source: string, libraryList: seq<LibraryConfig>, parseJs: JsParser)
    requires parseJs(source).Some?
    ensures JsOutcome(source, libraryList, parseJs).Rewritten?
    ensures EndsWith(JsOutcome(source, libraryList, parseJs).text, source)
    ensures var body := parseJs(source).value;
            (forall i :: 0 <= i < |body| ==> !Matches(body[i], libraryList))
            ==> JsOutcome(source, libraryList, parseJs) == Rewritten(source)
  {
    var body := parseJs(source).value;
    var t := JsOutcome(source, libraryList, parseJs).text;
    assert t[|t| - |source|..] == source;
    if forall i :: 0 <= i < |body| ==> !Matches(body[i], libraryList) {
      NoMatchNoRecords(body, libraryList, |body|);
      assert JsPrefix([]) == "";
    }
  }

  /** Without a library list (or without options) a script comes back unchanged. */
  lemma NoLibrariesNoChange(source: string, resourcePath: Option<string>, parseJs: JsParser, parseVue: VueParser)
    requires HasSuffixIgnoringCase(resourcePath.GetOr(""), ".js") && parseJs(source).Some?
    ensures Transform(source, resourcePath, None, parseJs, parseVue) == Rewritten(source)
    ensures Transform(source, resourcePath, Some(LoaderOptions(None)), parseJs, parseVue) == Rewritten(source)
  {
    var body := parseJs(source).value;
    forall i | 0 <= i < |body|
      ensures !Matches(body[i], [])
    {
    }
    JsSourceIsSuffix(source, [], parseJs);
  }

  /** The script's parser failing is passed on for both kinds of file. */
  lemma ParseFailurePropagates(source: string, resourcePath: Option<string>, rawOptions: Option<LoaderOptions>,
                               parseJs: JsParser, parseVue: VueParser)
    requires GetFileType(resourcePath).Some?
    requires GetFileType(resourcePath) == Some(Js) ==> parseJs(source).None?
    requires GetFileType(resourcePath) == Some(Vue) ==> parseJs(parseVue(source).script.GetOr("")).None?
    ensures Transform(source, resourcePath, rawOptions, parseJs, parseVue) == ParseFailure
  {
  }

  /**
   * In a component only the style blocks change: the template comes first and
   * the script last as they were, and the blocks in between keep the original
   * ones in place with at most three added.
   */
  lemma VueOnlyStylesChange(source: string, libraryList: seq<LibraryConfig>, parseJs: JsParser, parseVue: VueParser)
    requires parseJs(parseVue(source).script.GetOr("")).Some?
    ensures var v := parseVue(source);
            var body := parseJs(v.script.GetOr("")).value;
            var merged := MergeRecords(v.styles, ImportRecords(body, libraryList, |body|));
            && VueOutcome(source, libraryList, parseJs, parseVue)
               == Rewritten("<template>" + v.template.GetOr("") + "</template>\n" + StylesMarkup(merged)
                            + ("<script>" + v.script.GetOr("") + "</script>"))
            && Grows(v.styles, merged)
            && |merged| <= |v.styles| + 3
  {
    var v := parseVue(source);
    var body := parseJs(v.script.GetOr("")).value;
    MergeRecordsGrows(v.styles, ImportRecords(body, libraryList, |body|));
    MergeRecordsBounded(v.styles, ImportRecords(body, libraryList, |body|));
  }

  /** A library whose `splitChart` is given as undefined keeps member names as they are. */
  lemma ExplicitUndefinedKeepsNames(raw: RawLibrary, name: string)
    requires raw.splitChart == Present(None)
    ensures RawDirName(name, NormalizeLibrary(raw)) == name
  {
  }

  /** A library without a `splitChart` key converts names with `_`. */
  lemma AbsentSeparatorIsUnderscore(raw: RawLibrary, name: string)
    requires raw.splitChart.Absent?
    ensures RawDirName(name, NormalizeLibrary(raw)) == ConvertName(name, Some("_"))
  {
  }
}
