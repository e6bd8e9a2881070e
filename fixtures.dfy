/**
 * The library entry of the repository's own webpack test configuration
 * (test/webpack.config.js): `antd`, separator `-`, style template
 * `lib/{{name}}/style/index.less`, and the declaration of test/index.js
 * lines 5 to 9 that imports `DatePicker`, `message` and `Alert` from it.
 */
module Fixtures {
  import opened Wrappers
  import opened JsString
  import opened Util
  import opened Config
  import opened Resolver
  import opened Parsed
  import opened Scanner
  import opened JsRewriter
  import opened VueRewriter
  import opened Loader

  const ANTD := LibraryConfig("antd", Some("-"), Template("lib/{{name}}/style/index.less"))

  /** The stylesheet paths the template gives for the three members. */
  const DATE_PICKER_PATH := "lib/date-picker/style/index.less"
  const MESSAGE_PATH := "lib/message/style/index.less"
  const ALERT_PATH := "lib/alert/style/index.less"

  lemma DatePickerSpread(name: string)
    requires name == "DatePicker"
    ensures Spread(name, "-") == "-date-picker"
  {
    assert name == ['D'] + "ate" + ['P'] + "icker";
    SpreadTwoWords('D', "ate", 'P', "icker", "-");
    assert LowerChar('D') == 'd' && LowerChar('P') == 'p';
  }

  /** `DatePicker` becomes `date-picker`: the separator before `D` is stripped again. */
  lemma DatePickerDirName(name: string)
    requires name == "DatePicker"
    ensures ConvertName(name, Some("-")) == "date-picker"
  {
    DatePickerSpread(name);
    var c := "-date-picker";
    assert StartsWith(c, "-") && c[1..] == "date-picker";
  }

  /** `message` has no capital and does not start with `-`: it is its own directory name. */
  lemma MessageDirName(name: string)
    requires name == "message"
    ensures ConvertName(name, Some("-")) == "message"
  {
    assert !HasUpper(name);
    ConvertNameNoUpper(name, "-");
    assert name[..1] != "-";
  }

  /** `Alert` becomes `alert`: only its leading capital is lowered. */
  lemma AlertDirName(name: string)
    requires name == "Alert"
    ensures ConvertName(name, Some("-")) == "alert"
  {
    LowerNoUpper("-");
    ConvertNameLeadingUpper(name, "-");
    assert name[1..] == "lert" && !HasUpper("lert");
    InsertNoUpper("lert", "-");
    LowerNoUpper("lert");
    assert LowerChar('A') == 'a';
  }

  lemma AntdPattern(s: string)
    requires s == "lib/{{name}}/style/index.less"
    ensures s == "lib/" + PLACEHOLDER + "/style/index.less"
    ensures NoPlaceholderBefore(s, 4)
  {
    NoBraceNoPlaceholderBefore("lib/", PLACEHOLDER + "/style/index.less");
    assert "lib/" + (PLACEHOLDER + "/style/index.less") == s;
  }

  /** Only a solver step: the literal tail of the `antd` template has no placeholder. */
  lemma AntdTail(t: string, d: string)
    requires t == "/style/index.less"
    ensures ReplacePlaceholder(t, d) == t
  {
    NoBraceNoPlaceholder(t);
  }

  /** The template for any member: its directory name between `lib/` and `/style/index.less`. */
  lemma AntdPath(name: string, lib: LibraryConfig, d: string)
    requires lib == ANTD && ConvertName(name, Some("-")) == d
    ensures ImportStyleFilePath(name, lib) == Some("lib/" + d + "/style/index.less")
  {
    AntdPattern(lib.style.pattern);
    TemplatePath(name, lib, "lib/", "/style/index.less");
    AntdTail("/style/index.less", d);
  }

  /** Every such path is a less file. */
  lemma AntdLess(d: string)
    ensures GetStyleFileType("lib/" + d + "/style/index.less") == Some(Less)
  {
    var p := "lib/" + d + "/style/index.less";
    var a := "lib/" + d + "/style/index";
    assert p == a + ".less";
    assert p[|p| - 5..] == ".less";
    assert Lower(".less") == ".less";
  }

  /**
   * The statements the loader writes for a member of `antd` whose directory
   * name is `d`, in a script and in a style block, and the block language.
   */
  lemma AntdStatements(name: string, lib: LibraryConfig, d: string, path: string)
    requires lib == ANTD && ConvertName(name, Some("-")) == d && path == "lib/" + d + "/style/index.less"
    ensures SubComponentStyleString(name, lib, false) == Some(StyleStatement("antd", path, false))
    ensures SubComponentStyleString(name, lib, true) == Some(StyleStatement("antd", path, true))
    ensures StatementLang(name, lib) == "less"
  {
    AntdPath(name, lib, d);
    AntdLess(d);
    LessStatements(name, lib, path);
  }

  /** A member whose path is a less file gets the statement for that path, in a less block. */
  lemma LessStatements(name: string, lib: LibraryConfig, path: string)
    requires ImportStyleFilePath(name, lib) == Some(path) && GetStyleFileType(path) == Some(Less)
    ensures SubComponentStyleString(name, lib, false) == Some(StyleStatement(lib.name, path, false))
    ensures SubComponentStyleString(name, lib, true) == Some(StyleStatement(lib.name, path, true))
    ensures StatementLang(name, lib) == "less"
  {
    assert |path| >= |".less"|;
  }

  lemma DatePickerStatements(name: string)
    requires name == "DatePicker"
    ensures SubComponentStyleString(name, ANTD, false) == Some(StyleStatement("antd", DATE_PICKER_PATH, false))
    ensures SubComponentStyleString(name, ANTD, true) == Some(StyleStatement("antd", DATE_PICKER_PATH, true))
    ensures StatementLang(name, ANTD) == "less"
  {
    DatePickerDirName(name);
    AntdStatements(name, ANTD, "date-picker", DATE_PICKER_PATH);
  }

  lemma MessageStatements(name: string)
    requires name == "message"
    ensures SubComponentStyleString(name, ANTD, false) == Some(StyleStatement("antd", MESSAGE_PATH, false))
    ensures SubComponentStyleString(name, ANTD, true) == Some(StyleStatement("antd", MESSAGE_PATH, true))
    ensures StatementLang(name, ANTD) == "less"
  {
    MessageDirName(name);
    MessagePath("message", MESSAGE_PATH);
    AntdStatements(name, ANTD, "message", MESSAGE_PATH);
  }

  /** Only splits the literal `message` path into its pieces for the solver. */
  lemma MessagePath(d: string, path: string)
    requires d == "message" && path == MESSAGE_PATH
    ensures path == "lib/" + d + "/style/index.less"
  {
  }

  lemma AlertStatements(name: string)
    requires name == "Alert"
    ensures SubComponentStyleString(name, ANTD, false) == Some(StyleStatement("antd", ALERT_PATH, false))
    ensures SubComponentStyleString(name, ANTD, true) == Some(StyleStatement("antd", ALERT_PATH, true))
    ensures StatementLang(name, ANTD) == "less"
  {
    AlertDirName(name);
    AntdStatements(name, ANTD, "alert", ALERT_PATH);
  }

  /** The specifiers `DatePicker, message, Alert,` of the declaration. */
  const ANTD_SPECIFIERS := [Specifier(Some("DatePicker")), Specifier(Some("message")), Specifier(Some("Alert"))]

  /** The declaration importing them from `'antd'`, on lines 5 to 9. */
  const ANTD_IMPORT := Statement(IMPORT_DECLARATION, Some("antd"), ANTD_SPECIFIERS, 5, 9)

  /**
   * The top-level statements of test/index.js around it: the default imports
   * of `vue` and `./index.vue`, the bare import of `./index.scss`, the named
   * imports from `vant` on line 10, and the `new Vue(…)` call of lines 12 to 16.
   */
  const VUE_IMPORT := Statement(IMPORT_DECLARATION, Some("vue"), [Specifier(None)], 1, 1)
  const APP_IMPORT := Statement(IMPORT_DECLARATION, Some("./index.vue"), [Specifier(None)], 2, 2)
  const SCSS_IMPORT := Statement(IMPORT_DECLARATION, Some("./index.scss"), [], 4, 4)
  const VANT_IMPORT := Statement(IMPORT_DECLARATION, Some("vant"),
    [Specifier(Some("Radio")), Specifier(Some("RadioGroup")), Specifier(Some("Cell")),
     Specifier(Some("CellGroup")), Specifier(Some("Icon"))], 10, 10)
  const NEW_VUE := Statement("ExpressionStatement", None, [], 12, 16)

  /** The whole program body of test/index.js; the `antd` declaration is its fourth statement. */
  const TEST_INDEX_BODY := [VUE_IMPORT, APP_IMPORT, SCSS_IMPORT, ANTD_IMPORT, VANT_IMPORT, NEW_VUE]

  /** The record the scan builds for the `antd` declaration. */
  const ANTD_RECORD := ImportRecord(ANTD, 3, 5, 9, ["DatePicker", "message", "Alert"], true)

  /** The three specifiers contribute their names, in declaration order. */
  lemma AntdNames(specs: seq<Specifier>)
    requires specs == ANTD_SPECIFIERS
    ensures NamedImports(specs) == ["DatePicker", "message", "Alert"]
  {
    assert specs[..2][..1][..0] == [];
    assert NamedImports(specs[..1]) == ["DatePicker"];
    assert NamedImports(specs[..2]) == ["DatePicker", "message"];
  }

  /**
   * With only `antd` configured, every other statement of the body is
   * skipped: `vue`, `./index.vue`, `./index.scss` and `vant` name no
   * configured library, and the call has no source literal.
   */
  lemma OthersSkipped(body: seq<Statement>, libs: seq<LibraryConfig>)
    requires body == TEST_INDEX_BODY && libs == [ANTD]
    ensures !Matches(body[0], libs) && !Matches(body[1], libs) && !Matches(body[2], libs)
    ensures !Matches(body[4], libs) && !Matches(body[5], libs)
  {
    assert FindLibrary(body[0].source.value, libs).None?;
    assert FindLibrary(body[1].source.value, libs).None?;
    assert FindLibrary(body[2].source.value, libs).None?;
    assert FindLibrary(body[4].source.value, libs).None?;
  }

  /** The scan of test/index.js finds exactly the `antd` declaration, at index 3. */
  lemma AntdRecord(body: seq<Statement>, libs: seq<LibraryConfig>)
    requires body == TEST_INDEX_BODY && libs == [ANTD]
    ensures ImportRecords(body, libs, |body|) == [ANTD_RECORD]
  {
    OthersSkipped(body, libs);
    NoMatchNoRecords(body, libs, 3);
    assert FindLibrary(body[3].source.value, libs) == Some(ANTD);
    AntdNames(ANTD_SPECIFIERS);
    assert ImportRecords(body, libs, 4) == [ANTD_RECORD];
    assert ImportRecords(body, libs, 5) == [ANTD_RECORD];
  }

  /** The lines of three members, in order. */
  lemma ThreeNameLines(names: seq<string>, lib: LibraryConfig)
    requires |names| == 3
    ensures NameLines(names, lib) == NameLine(names[0], lib) + NameLine(names[1], lib) + NameLine(names[2], lib)
  {
    var ls := Lines(names, lib);
    assert ls[..2][..1] == [ls[0]];
    JoinSingle(ls[0]);
    assert Join(ls[..2]) == ls[0] + ls[1];
  }

  /** A record that is needed contributes exactly its own lines. */
  lemma SingleRecordPrefix(rec: ImportRecord)
    requires rec.isNeed
    ensures JsPrefix([rec]) == NameLines(rec.names, rec.library)
  {
    assert Styles([rec]) == [ComponentStyle(rec)];
    JoinSingle(ComponentStyle(rec));
  }

  /** A needed record of three members: their lines, in order. */
  lemma ThreeMemberPrefix(rec: ImportRecord, n1: string, n2: string, n3: string)
    requires rec.isNeed && rec.names == [n1, n2, n3]
    ensures JsPrefix([rec]) == NameLine(n1, rec.library) + NameLine(n2, rec.library) + NameLine(n3, rec.library)
  {
    SingleRecordPrefix(rec);
    ThreeNameLines(rec.names, rec.library);
  }

  lemma AntdLines(lib: LibraryConfig, n1: string, n2: string, n3: string, p1: string, p2: string, p3: string)
    requires lib == ANTD && n1 == "DatePicker" && n2 == "message" && n3 == "Alert"
    requires p1 == DATE_PICKER_PATH && p2 == MESSAGE_PATH && p3 == ALERT_PATH
    ensures NameLine(n1, lib) == StyleStatement(lib.name, p1, false) + "\n"
    ensures NameLine(n2, lib) == StyleStatement(lib.name, p2, false) + "\n"
    ensures NameLine(n3, lib) == StyleStatement(lib.name, p3, false) + "\n"
  {
    DatePickerStatements(n1);
    MessageStatements(n2);
    AlertStatements(n3);
  }

  /**
   * The text in front of the script: the statements for `p1`, `p2` and `p3`
   * (the paths of `DatePicker`, `message` and `Alert`), one per line, in
   * declaration order.
   */
  lemma AntdPrefix(rec: ImportRecord, p1: string, p2: string, p3: string)
    requires rec == ANTD_RECORD && p1 == DATE_PICKER_PATH && p2 == MESSAGE_PATH && p3 == ALERT_PATH
    ensures JsPrefix([rec])
         == (StyleStatement(rec.library.name, p1, false) + "\n")
          + (StyleStatement(rec.library.name, p2, false) + "\n")
          + (StyleStatement(rec.library.name, p3, false) + "\n")
  {
    var names := rec.names;
    ThreeMemberPrefix(rec, names[0], names[1], names[2]);
    AntdLines(rec.library, names[0], names[1], names[2], p1, p2, p3);
  }

  /**
   * A script with the body of test/index.js gets the three stylesheet imports of
   * `lib` (`antd`) in front, for `p1`, `p2` and `p3`: `date-picker`,
   * `message` and `alert`, in this order.
   */
  lemma AntdScript(source: string, parseJs: JsParser, lib: LibraryConfig, p1: string, p2: string, p3: string)
    requires parseJs(source) == Some(TEST_INDEX_BODY)
    requires lib == ANTD && p1 == DATE_PICKER_PATH && p2 == MESSAGE_PATH && p3 == ALERT_PATH
    ensures JsOutcome(source, [lib], parseJs)
         == Rewritten((StyleStatement(lib.name, p1, false) + "\n")
                    + (StyleStatement(lib.name, p2, false) + "\n")
                    + (StyleStatement(lib.name, p3, false) + "\n") + source)
  {
    AntdRecord(TEST_INDEX_BODY, [lib]);
    AntdPrefix(ANTD_RECORD, p1, p2, p3);
  }

  /** Three members of a record are taken one after the other, in order. */
  lemma MergeThreeNames(list: seq<StyleBlock>, names: seq<string>, lib: LibraryConfig)
    requires |names| == 3
    ensures MergeNames(list, names, lib) == MergeStep(MergeStep(MergeStep(list, names[0], lib), names[1], lib), names[2], lib)
  {
    MergeNamesPair(list, names[0], names[1], lib);
    assert names[..2] == [names[0], names[1]];
  }

  lemma SingleRecordMerge(styles: seq<StyleBlock>, rec: ImportRecord)
    ensures MergeRecords(styles, [rec]) == MergeNames(styles, rec.names, rec.library)
  {
    assert [rec][..0] == [];
  }

  /** Three statements of a language that has no block yet: one new block, latest statement first. */
  lemma AddThreeNewBlock(list: seq<StyleBlock>, s1: string, s2: string, s3: string, lang: string)
    requires lang != ""
    requires forall i :: 0 <= i < |list| ==> LangOrCss(list[i].lang) != lang
    ensures AddStatement(AddStatement(AddStatement(list, s1, lang), s2, lang), s3, lang)
         == list + [StyleBlock(Some(lang), s3 + "\n" + (s2 + "\n" + (s1 + "\n")))]
  {
    AddTwoNewBlock(list, s1, s2, lang);
    var mid := list + [StyleBlock(Some(lang), s2 + "\n" + (s1 + "\n"))];
    assert LangOrCss(mid[|list|].lang) == lang;
    assert forall i :: 0 <= i < |list| ==> mid[i] == list[i];
    AddStatementIntoFirst(mid, s3, lang, |list|);
    assert mid[|list| := mid[|list|].(content := s3 + "\n" + mid[|list|].content)]
        == list + [StyleBlock(Some(lang), s3 + "\n" + (s2 + "\n" + (s1 + "\n")))];
  }

  /**
   * Three members of one language that has no block yet: one block is added
   * at the end, holding their statements in reverse order.
   */
  lemma ThreeMembersNewBlock(styles: seq<StyleBlock>, names: seq<string>, lib: LibraryConfig, s1: string, s2: string, s3: string, lang: string)
    requires |names| == 3 && lang != ""
    requires SubComponentStyleString(names[0], lib, true) == Some(s1) && StatementLang(names[0], lib) == lang
    requires SubComponentStyleString(names[1], lib, true) == Some(s2) && StatementLang(names[1], lib) == lang
    requires SubComponentStyleString(names[2], lib, true) == Some(s3) && StatementLang(names[2], lib) == lang
    requires forall i :: 0 <= i < |styles| ==> LangOrCss(styles[i].lang) != lang
    ensures MergeNames(styles, names, lib) == styles + [StyleBlock(Some(lang), s3 + "\n" + (s2 + "\n" + (s1 + "\n")))]
  {
    MergeThreeNames(styles, names, lib);
    AddThreeNewBlock(styles, s1, s2, s3, lang);
  }

  lemma NoLessBlock(styles: seq<StyleBlock>)
    requires styles == [StyleBlock(Some("scss"), "a {}")]
    ensures forall i :: 0 <= i < |styles| ==> LangOrCss(styles[i].lang) != "less"
  {
    assert LangOrCss(styles[0].lang) == "scss";
  }

  lemma AntdBlockStatements(lib: LibraryConfig, n1: string, n2: string, n3: string, p1: string, p2: string, p3: string)
    requires lib == ANTD && n1 == "DatePicker" && n2 == "message" && n3 == "Alert"
    requires p1 == DATE_PICKER_PATH && p2 == MESSAGE_PATH && p3 == ALERT_PATH
    ensures SubComponentStyleString(n1, lib, true) == Some(StyleStatement(lib.name, p1, true)) && StatementLang(n1, lib) == "less"
    ensures SubComponentStyleString(n2, lib, true) == Some(StyleStatement(lib.name, p2, true)) && StatementLang(n2, lib) == "less"
    ensures SubComponentStyleString(n3, lib, true) == Some(StyleStatement(lib.name, p3, true)) && StatementLang(n3, lib) == "less"
  {
    DatePickerStatements(n1);
    MessageStatements(n2);
    AlertStatements(n3);
  }

  /**
   * A component with only an scss block whose script holds the declaration:
   * one less block is added after it, with the statements for `p1`, `p2`
   * and `p3` in reverse order, since each is put in front of the block's text.
   */
  lemma AntdComponentStyles(styles: seq<StyleBlock>, rec: ImportRecord, p1: string, p2: string, p3: string)
    requires styles == [StyleBlock(Some("scss"), "a {}")]
    requires rec == ANTD_RECORD && p1 == DATE_PICKER_PATH && p2 == MESSAGE_PATH && p3 == ALERT_PATH
    ensures MergeRecords(styles, [rec])
         == styles + [StyleBlock(Some("less"),
                        StyleStatement(rec.library.name, p3, true) + "\n"
                        + (StyleStatement(rec.library.name, p2, true) + "\n"
                        + (StyleStatement(rec.library.name, p1, true) + "\n")))]
  {
    var names := rec.names;
    AntdBlockStatements(rec.library, names[0], names[1], names[2], p1, p2, p3);
    NoLessBlock(styles);
    SingleRecordMerge(styles, rec);
    ThreeMembersNewBlock(styles, names, rec.library,
      StyleStatement(rec.library.name, p1, true), StyleStatement(rec.library.name, p2, true),
      StyleStatement(rec.library.name, p3, true), "less");
  }
}
