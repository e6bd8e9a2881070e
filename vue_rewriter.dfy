/**
 * The single-file-component rewriter of lib/index.js: statements go to the
 * front of the first style block of their language (a new block is added
 * when there is none), and the component is written back out from its
 * sections.
 */
module VueRewriter {
  import opened Wrappers
  import opened JsString
  import opened Parsed
  import opened Config
  import opened Resolver
  import opened Scanner

  /** The language assumed when a block or a request names none. */
  const CSS_FILE := "css"

  /** A `lang` value, or `css` when it is missing or empty. */
  function LangOrCss(lang: Option<string>): (r: string)
    ensures r != ""
    ensures lang.Some? && lang.value != "" ==> r == lang.value
    ensures lang.None? || lang.value == "" ==> r == CSS_FILE
  {
    if lang.Some? && lang.value != "" then lang.value else CSS_FILE
  }

  /** The first block from `from` on whose language is `target`. */
  function FindLang(list: seq<StyleBlock>, target: string, from: nat): (r: Option<nat>)
    requires from <= |list|
    ensures r.None? <==> forall i :: from <= i < |list| ==> LangOrCss(list[i].lang) != target
    ensures r.Some? ==> from <= r.value < |list| && LangOrCss(list[r.value].lang) == target
    ensures r.Some? ==> forall i :: from <= i < r.value ==> LangOrCss(list[i].lang) != target
    decreases |list| - from
  {
    if from == |list| then None
    else if LangOrCss(list[from].lang) == target then Some(from)
    else FindLang(list, target, from + 1)
  }

  /**
   * `getStyleResByStyleType`: the index of the first block whose language
   * (css when unnamed) is the requested one (css when unnamed), if any.
   */
  function GetStyleResByStyleType(list: seq<StyleBlock>, styleType: Option<string>): (r: Option<nat>)
    ensures r.None? <==> forall i :: 0 <= i < |list| ==> LangOrCss(list[i].lang) != LangOrCss(styleType)
    ensures r.Some? ==> r.value < |list| && LangOrCss(list[r.value].lang) == LangOrCss(styleType)
    ensures r.Some? ==> forall i :: 0 <= i < r.value ==> LangOrCss(list[i].lang) != LangOrCss(styleType)
  {
    FindLang(list, LangOrCss(styleType), 0)
  }

  /** The value `createStyleRes` gives a new entry: empty, and found by a lookup for the same type. */
  function EmptyBlock(styleType: Option<string>): (b: StyleBlock)
    ensures LangOrCss(b.lang) == LangOrCss(styleType) && b.lang.Some? && b.content == ""
    ensures GetStyleResByStyleType([b], styleType) == Some(0)
  {
    StyleBlock(Some(LangOrCss(styleType)), "")
  }

  /**
   * The language of a member's statement, found by resolving its path again
   * and classifying it (`StatementLangSuffix`, `StatementLangKnown`).
   */
  function StatementLang(name: string, lib: LibraryConfig): string
    requires SubComponentStyleString(name, lib, true).Some?
  {
    GetStyleFileType(ImportStyleFilePath(name, lib).value).value.Name()
  }

  /** The language of a member's statement is the suffix its path ends with, ignoring case. */
  lemma StatementLangSuffix(name: string, lib: LibraryConfig)
    requires SubComponentStyleString(name, lib, true).Some?
    ensures HasSuffixIgnoringCase(ImportStyleFilePath(name, lib).value, "." + StatementLang(name, lib))
  {
    StyleFileTypeSuffix(ImportStyleFilePath(name, lib).value);
  }

  /**
   * A statement of a given language put in front of the first block of that
   * language, or into a new block at the end when there is none.
   */
  function AddStatement(list: seq<StyleBlock>, stmt: string, lang: string): (r: seq<StyleBlock>)
    ensures |list| <= |r| <= |list| + 1
    ensures forall i :: 0 <= i < |list| ==> r[i].lang == list[i].lang
  {
    var target := Some(lang);
    var found := GetStyleResByStyleType(list, target);
    var l := if found.None? then list + [EmptyBlock(target)] else list;
    var k := if found.None? then |list| else found.value;
    l[k := l[k].(content := stmt + "\n" + l[k].content)]
  }

  /** One member's turn in the inner loop of `insertStyleImportToVueStyles`. */
  function MergeStep(list: seq<StyleBlock>, name: string, lib: LibraryConfig): (r: seq<StyleBlock>)
    ensures |list| <= |r| <= |list| + 1
  {
    var sub := SubComponentStyleString(name, lib, true);
    if sub.None? then list else AddStatement(list, sub.value, StatementLang(name, lib))
  }

  /** The blocks after a record's members, taken in order. */
  function MergeNames(list: seq<StyleBlock>, names: seq<string>, lib: LibraryConfig): (r: seq<StyleBlock>)
    ensures |list| <= |r| <= |list| + |names|
    decreases |names|
  {
    if |names| == 0 then list
    else MergeStep(MergeNames(list, names[..|names| - 1], lib), names[|names| - 1], lib)
  }

  /** The blocks after all records, taken in order. */
  function MergeRecords(list: seq<StyleBlock>, records: seq<ImportRecord>): (r: seq<StyleBlock>)
    ensures |list| <= |r|
    ensures records == [] ==> r == list
    decreases |records|
  {
    if |records| == 0 then list
    else
      var last := records[|records| - 1];
      MergeNames(MergeRecords(list, records[..|records| - 1]), last.names, last.library)
  }

  /** A style entry of the parsed component; the merge updates its text in place. */
  class StyleRes {
    var lang: Option<string>
    var content: string

    constructor (lang: Option<string>, content: string)
      ensures this.lang == lang && this.content == content
    {
      this.lang := lang;
      this.content := content;
    }

    /** The entry's current value. */
    function Value(): StyleBlock
      reads this
    {
      StyleBlock(lang, content)
    }
  }

  /** The current values of a list of entries. */
  function Values(list: seq<StyleRes>): (r: seq<StyleBlock>)
    reads list
    ensures |r| == |list|
    ensures forall i :: 0 <= i < |list| ==> r[i] == list[i].Value()
  {
    seq(|list|, i requires 0 <= i < |list| reads list => list[i].Value())
  }

  /** No entry occurs twice in a list. */
  predicate Distinct(list: seq<StyleRes>) {
    forall i, j :: 0 <= i < j < |list| ==> list[i] != list[j]
  }

  /** `createStyleRes`: a new, empty entry of the given type (css when none). */
  method CreateStyleRes(styleType: Option<string>) returns (r: StyleRes)
    ensures fresh(r) && r.Value() == EmptyBlock(styleType)
  {
    r := new StyleRes(Some(LangOrCss(styleType)), "");
  }

  /** The entry a statement of the given language goes to: the first of that language, or a new one appended. */
  method EntryFor(list: seq<StyleRes>, lang: string) returns (newList: seq<StyleRes>, styleRes: StyleRes, ghost k: nat)
    requires Distinct(list)
    ensures |list| <= |newList| <= |list| + 1 && newList[..|list|] == list
    ensures forall i :: |list| <= i < |newList| ==> fresh(newList[i])
    ensures Distinct(newList)
    ensures var found := GetStyleResByStyleType(Values(list), Some(lang));
            && Values(newList) == (if found.None? then Values(list) + [EmptyBlock(Some(lang))] else Values(list))
            && k == (if found.None? then |list| else found.value)
    ensures k < |newList| && newList[k] == styleRes
  {
    var found := GetStyleResByStyleType(Values(list), Some(lang));
    if found.None? {
      styleRes := CreateStyleRes(Some(lang));
      newList := list + [styleRes];
      k := |list|;
    } else {
      newList := list;
      styleRes := list[found.value];
      k := found.value;
    }
  }

  /**
   * A statement put in front of the text of the first entry of its language,
   * or of a new entry appended for it: the object is updated in place.
   */
  method AddStatementTo(list: seq<StyleRes>, stmt: string, lang: string) returns (newList: seq<StyleRes>)
    requires Distinct(list)
    modifies list
    ensures |list| <= |newList| <= |list| + 1 && newList[..|list|] == list
    ensures forall i :: |list| <= i < |newList| ==> fresh(newList[i])
    ensures Distinct(newList)
    ensures Values(newList) == AddStatement(old(Values(list)), stmt, lang)
  {
    var styleRes: StyleRes;
    ghost var k: nat;
    newList, styleRes, k := EntryFor(list, lang);
    ghost var before := Values(newList);
    styleRes.content := stmt + "\n" + styleRes.content;
    assert Values(newList) == before[k := before[k].(content := stmt + "\n" + before[k].content)];
  }

  /** The body of the inner loop of `insertStyleImportToVueStyles`, for one member. */
  method MergeMember(newList: seq<StyleRes>, subComponent: string, lib: LibraryConfig)
    returns (list: seq<StyleRes>)
    requires Distinct(newList)
    modifies newList
    ensures |newList| <= |list| <= |newList| + 1 && list[..|newList|] == newList
    ensures forall i :: |newList| <= i < |list| ==> fresh(list[i])
    ensures Distinct(list)
    ensures Values(list) == MergeStep(old(Values(newList)), subComponent, lib)
  {
    var subComponentStyleString := SubComponentStyleString(subComponent, lib, true);
    if subComponentStyleString.None? {
      return newList;
    }
    var styleFilePath := ImportStyleFilePath(subComponent, lib);
    var styleFileType := GetStyleFileType(styleFilePath.value);
    list := AddStatementTo(newList, subComponentStyleString.value, styleFileType.value.Name());
  }

  /** One record's turn in the outer loop: its members are merged in order. */
  method MergeComponent(newList: seq<StyleRes>, component: ImportRecord) returns (list: seq<StyleRes>)
    requires Distinct(newList)
    modifies newList
    ensures |newList| <= |list| && list[..|newList|] == newList
    ensures forall i :: |newList| <= i < |list| ==> fresh(list[i])
    ensures Distinct(list)
    ensures Values(list) == MergeNames(old(Values(newList)), component.names, component.library)
  {
    list := newList;
    var j := 0;
    while j < |component.names|
      invariant j <= |component.names|
      invariant |newList| <= |list| && list[..|newList|] == newList
      invariant forall m :: |newList| <= m < |list| ==> fresh(list[m])
      invariant Distinct(list)
      invariant Values(list) == MergeNames(old(Values(newList)), component.names[..j], component.library)
    {
      assert component.names[..j + 1][..j] == component.names[..j];
      ghost var prev := list;
      list := MergeMember(list, component.names[j], component.library);
      assert list[..|newList|] == list[..|prev|][..|newList|];
      j := j + 1;
    }
    assert component.names[..|component.names|] == component.names;
  }

  /**
   * `insertStyleImportToVueStyles`: the list is copied, but the entries are
   * the caller's own objects, updated in place; entries it creates are
   * appended.
   */
  method InsertStyleImportToVueStyles(styleResList: seq<StyleRes>, componentList: seq<ImportRecord>)
    returns (newList: seq<StyleRes>)
    requires Distinct(styleResList)
    modifies styleResList
    ensures |styleResList| <= |newList| && newList[..|styleResList|] == styleResList
    ensures forall i :: |styleResList| <= i < |newList| ==> fresh(newList[i])
    ensures Distinct(newList)
    ensures Values(newList) == MergeRecords(old(Values(styleResList)), componentList)
    ensures forall i :: 0 <= i < |styleResList| ==> styleResList[i].Value() == Values(newList)[i]
  {
    newList := styleResList;
    var i := 0;
    while i < |componentList|
      invariant i <= |componentList|
      invariant |styleResList| <= |newList| && newList[..|styleResList|] == styleResList
      invariant forall m :: |styleResList| <= m < |newList| ==> fresh(newList[m])
      invariant Distinct(newList)
      invariant Values(newList) == MergeRecords(old(Values(styleResList)), componentList[..i])
    {
      assert componentList[..i + 1][..i] == componentList[..i];
      ghost var prev := newList;
      ghost var merged := MergeRecords(old(Values(styleResList)), componentList[..i]);
      newList := MergeComponent(newList, componentList[i]);
      assert Values(newList) == MergeNames(merged, componentList[i].names, componentList[i].library);
      assert newList[..|styleResList|] == newList[..|prev|][..|styleResList|];
      i := i + 1;
    }
    assert componentList[..|componentList|] == componentList;
    assert forall m :: 0 <= m < |styleResList| ==> newList[m] == styleResList[m];
  }

  /** A block of the statement's language exists: the first one gets the statement in front, nothing else changes. */
  lemma AddStatementIntoFirst(list: seq<StyleBlock>, stmt: string, lang: string, k: nat)
    requires lang != ""
    requires k < |list| && LangOrCss(list[k].lang) == lang
    requires forall i :: 0 <= i < k ==> LangOrCss(list[i].lang) != lang
    ensures AddStatement(list, stmt, lang) == list[k := list[k].(content := stmt + "\n" + list[k].content)]
  {
    assert LangOrCss(Some(lang)) == lang;
    var found := GetStyleResByStyleType(list, Some(lang));
    if found.value < k {
    } else if found.value > k {
    }
  }

  /** No block of the statement's language: a new one holding just the statement is added at the end. */
  lemma AddStatementAppends(list: seq<StyleBlock>, stmt: string, lang: string)
    requires lang != ""
    requires forall i :: 0 <= i < |list| ==> LangOrCss(list[i].lang) != lang
    ensures AddStatement(list, stmt, lang) == list + [StyleBlock(Some(lang), stmt + "\n")]
  {
    assert LangOrCss(Some(lang)) == lang;
    assert stmt + "\n" + "" == stmt + "\n";
  }

  /**
   * A member whose language already has a block: its statement and a newline
   * go in front of the first such block, and nothing else changes.
   */
  lemma MergeStepIntoFirst(list: seq<StyleBlock>, name: string, lib: LibraryConfig, k: nat)
    requires SubComponentStyleString(name, lib, true).Some?
    requires k < |list| && LangOrCss(list[k].lang) == StatementLang(name, lib)
    requires forall i :: 0 <= i < k ==> LangOrCss(list[i].lang) != StatementLang(name, lib)
    ensures MergeStep(list, name, lib)
         == list[k := list[k].(content := SubComponentStyleString(name, lib, true).value + "\n" + list[k].content)]
  {
    AddStatementIntoFirst(list, SubComponentStyleString(name, lib, true).value, StatementLang(name, lib), k);
  }

  /**
   * A member whose language has no block yet: a new block of that language,
   * holding just its statement and a newline, is added at the end.
   */
  lemma MergeStepAppends(list: seq<StyleBlock>, name: string, lib: LibraryConfig)
    requires SubComponentStyleString(name, lib, true).Some?
    requires forall i :: 0 <= i < |list| ==> LangOrCss(list[i].lang) != StatementLang(name, lib)
    ensures MergeStep(list, name, lib)
         == list + [StyleBlock(Some(StatementLang(name, lib)), SubComponentStyleString(name, lib, true).value + "\n")]
  {
    AddStatementAppends(list, SubComponentStyleString(name, lib, true).value, StatementLang(name, lib));
  }

  /**
   * Two members of the same language whose block exists, taken in turn: the
   * later statement ends up in front of the earlier one, both in front of the
   * old text.
   */
  lemma TwoStepsSameBlock(list: seq<StyleBlock>, n1: string, n2: string, lib: LibraryConfig, k: nat)
    requires SubComponentStyleString(n1, lib, true).Some? && SubComponentStyleString(n2, lib, true).Some?
    requires StatementLang(n1, lib) == StatementLang(n2, lib)
    requires k < |list| && LangOrCss(list[k].lang) == StatementLang(n1, lib)
    requires forall i :: 0 <= i < k ==> LangOrCss(list[i].lang) != StatementLang(n1, lib)
    ensures |MergeStep(MergeStep(list, n1, lib), n2, lib)| == |list|
    ensures var s1, s2 := SubComponentStyleString(n1, lib, true).value, SubComponentStyleString(n2, lib, true).value;
            MergeStep(MergeStep(list, n1, lib), n2, lib)[k].content == s2 + "\n" + (s1 + "\n" + list[k].content)
    ensures forall j :: 0 <= j < |list| && j != k ==> MergeStep(MergeStep(list, n1, lib), n2, lib)[j] == list[j]
    ensures MergeStep(MergeStep(list, n1, lib), n2, lib)[k].lang == list[k].lang
  {
    var s1, s2 := SubComponentStyleString(n1, lib, true).value, SubComponentStyleString(n2, lib, true).value;
    AddTwoSameBlock(list, s1, s2, StatementLang(n1, lib), k);
  }

  lemma AddTwoSameBlock(list: seq<StyleBlock>, s1: string, s2: string, lang: string, k: nat)
    requires lang != ""
    requires k < |list| && LangOrCss(list[k].lang) == lang
    requires forall i :: 0 <= i < k ==> LangOrCss(list[i].lang) != lang
    ensures |AddStatement(AddStatement(list, s1, lang), s2, lang)| == |list|
    ensures AddStatement(AddStatement(list, s1, lang), s2, lang)[k].content == s2 + "\n" + (s1 + "\n" + list[k].content)
    ensures forall j :: 0 <= j < |list| && j != k ==> AddStatement(AddStatement(list, s1, lang), s2, lang)[j] == list[j]
    ensures AddStatement(AddStatement(list, s1, lang), s2, lang)[k].lang == list[k].lang
  {
    AddStatementIntoFirst(list, s1, lang, k);
    var mid := list[k := list[k].(content := s1 + "\n" + list[k].content)];
    assert forall i :: 0 <= i < |list| ==> mid[i].lang == list[i].lang;
    AddStatementIntoFirst(mid, s2, lang, k);
  }

  /**
   * Two members of the same language whose block does not exist yet: the
   * first creates it, and the later statement ends up in front of the earlier
   * one.
   */
  lemma TwoStepsNewBlock(list: seq<StyleBlock>, n1: string, n2: string, lib: LibraryConfig)
    requires SubComponentStyleString(n1, lib, true).Some? && SubComponentStyleString(n2, lib, true).Some?
    requires StatementLang(n1, lib) == StatementLang(n2, lib)
    requires forall i :: 0 <= i < |list| ==> LangOrCss(list[i].lang) != StatementLang(n1, lib)
    ensures var s1, s2 := SubComponentStyleString(n1, lib, true).value, SubComponentStyleString(n2, lib, true).value;
            MergeStep(MergeStep(list, n1, lib), n2, lib)
            == list + [StyleBlock(Some(StatementLang(n1, lib)), s2 + "\n" + (s1 + "\n"))]
  {
    var s1, s2 := SubComponentStyleString(n1, lib, true).value, SubComponentStyleString(n2, lib, true).value;
    AddTwoNewBlock(list, s1, s2, StatementLang(n1, lib));
  }

  lemma AddTwoNewBlock(list: seq<StyleBlock>, s1: string, s2: string, lang: string)
    requires lang != ""
    requires forall i :: 0 <= i < |list| ==> LangOrCss(list[i].lang) != lang
    ensures AddStatement(AddStatement(list, s1, lang), s2, lang) == list + [StyleBlock(Some(lang), s2 + "\n" + (s1 + "\n"))]
  {
    AddStatementAppends(list, s1, lang);
    var mid := list + [StyleBlock(Some(lang), s1 + "\n")];
    assert LangOrCss(mid[|list|].lang) == lang;
    assert forall i :: 0 <= i < |list| ==> mid[i] == list[i];
    AddStatementIntoFirst(mid, s2, lang, |list|);
    assert mid[|list| := mid[|list|].(content := s2 + "\n" + mid[|list|].content)]
        == list + [StyleBlock(Some(lang), s2 + "\n" + (s1 + "\n"))];
  }

  /** Two members are taken one after the other, in order. */
  lemma MergeNamesPair(list: seq<StyleBlock>, n1: string, n2: string, lib: LibraryConfig)
    ensures MergeNames(list, [n1, n2], lib) == MergeStep(MergeStep(list, n1, lib), n2, lib)
  {
    assert [n1, n2][..1] == [n1];
    assert [n1][..0] == [];
    assert MergeNames(list, [n1], lib) == MergeStep(MergeNames(list, [], lib), n1, lib);
    assert MergeNames(list, [n1, n2], lib) == MergeStep(MergeNames(list, [n1], lib), n2, lib);
  }

  /** The languages a created block can have. */
  predicate KnownLang(lang: string) {
    lang == "css" || lang == "scss" || lang == "less"
  }

  /** A statement's language is css, scss or less. */
  lemma StatementLangKnown(name: string, lib: LibraryConfig)
    requires SubComponentStyleString(name, lib, true).Some?
    ensures KnownLang(StatementLang(name, lib))
  {
  }

  /**
   * What merging keeps: the original blocks stay in place with their
   * languages and their old text at the end, and every added block has a known
   * language that no block before it has.
   */
  predicate Grows(before: seq<StyleBlock>, after: seq<StyleBlock>) {
    && |before| <= |after|
    && (forall i :: 0 <= i < |before| ==> after[i].lang == before[i].lang && EndsWith(after[i].content, before[i].content))
    && (forall i :: |before| <= i < |after| ==> after[i].lang.Some? && KnownLang(after[i].lang.value))
    && (forall i, k :: |before| <= i < |after| && 0 <= k < i ==> LangOrCss(after[k].lang) != LangOrCss(after[i].lang))
  }

  lemma EndsWithTrans(a: string, b: string, c: string)
    requires EndsWith(a, b) && EndsWith(b, c)
    ensures EndsWith(a, c)
  {
    assert a[|a| - |c|..] == a[|a| - |b|..][|b| - |c|..];
  }

  lemma GrowsRefl(list: seq<StyleBlock>)
    ensures Grows(list, list)
  {
    forall i | 0 <= i < |list|
      ensures EndsWith(list[i].content, list[i].content)
    {
      assert list[i].content[|list[i].content| - |list[i].content|..] == list[i].content;
    }
  }

  lemma GrowsTrans(a: seq<StyleBlock>, b: seq<StyleBlock>, c: seq<StyleBlock>)
    requires Grows(a, b) && Grows(b, c)
    ensures Grows(a, c)
  {
    forall i | 0 <= i < |a|
      ensures c[i].lang == a[i].lang && EndsWith(c[i].content, a[i].content)
    {
      EndsWithTrans(c[i].content, b[i].content, a[i].content);
    }
  }

  lemma PrependEndsWith(x: string, s: string)
    ensures EndsWith(x + "\n" + s, s)
  {
    var t := x + "\n" + s;
    assert t[|t| - |s|..] == s;
  }

  /** Adding a statement of a known language keeps `Grows`. */
  lemma AddStatementGrows(list: seq<StyleBlock>, stmt: string, lang: string)
    requires KnownLang(lang)
    ensures Grows(list, AddStatement(list, stmt, lang))
  {
    assert LangOrCss(Some(lang)) == lang;
    GrowsRefl(list);
    var found := GetStyleResByStyleType(list, Some(lang));
    if found.None? {
      AddStatementAppends(list, stmt, lang);
    } else {
      var k := found.value;
      AddStatementIntoFirst(list, stmt, lang, k);
      PrependEndsWith(stmt, list[k].content);
    }
  }

  /** One member's turn keeps `Grows`. */
  lemma MergeStepGrows(list: seq<StyleBlock>, name: string, lib: LibraryConfig)
    ensures Grows(list, MergeStep(list, name, lib))
  {
    if SubComponentStyleString(name, lib, true).None? {
      GrowsRefl(list);
    } else {
      StatementLangKnown(name, lib);
      AddStatementGrows(list, SubComponentStyleString(name, lib, true).value, StatementLang(name, lib));
    }
  }

  lemma {:induction false} MergeNamesGrows(list: seq<StyleBlock>, names: seq<string>, lib: LibraryConfig)
    ensures Grows(list, MergeNames(list, names, lib))
    decreases |names|
  {
    if |names| == 0 {
      GrowsRefl(list);
    } else {
      var mid := MergeNames(list, names[..|names| - 1], lib);
      MergeNamesGrows(list, names[..|names| - 1], lib);
      MergeStepGrows(mid, names[|names| - 1], lib);
      GrowsTrans(list, mid, MergeNames(list, names, lib));
    }
  }

  /** All of `insertStyleImportToVueStyles` keeps `Grows`. */
  lemma {:induction false} MergeRecordsGrows(list: seq<StyleBlock>, records: seq<ImportRecord>)
    ensures Grows(list, MergeRecords(list, records))
    decreases |records|
  {
    if |records| == 0 {
      GrowsRefl(list);
    } else {
      var last := records[|records| - 1];
      var mid := MergeRecords(list, records[..|records| - 1]);
      MergeRecordsGrows(list, records[..|records| - 1]);
      MergeNamesGrows(mid, last.names, last.library);
      GrowsTrans(list, mid, MergeRecords(list, records));
    }
  }

  /** Only a counting step for the solver: four known languages include a repeat. */
  lemma FourKnownLangsRepeat(a: string, b: string, c: string, d: string)
    requires KnownLang(a) && KnownLang(b) && KnownLang(c) && KnownLang(d)
    ensures a == b || a == c || a == d || b == c || b == d || c == d
  {
  }

  /** At most one block per style language is ever added. */
  lemma GrowsAddsAtMostThree(before: seq<StyleBlock>, after: seq<StyleBlock>)
    requires Grows(before, after)
    ensures |after| <= |before| + 3
  {
    if |after| > |before| + 3 {
      var o := |before|;
      FourKnownLangsRepeat(after[o].lang.value, after[o + 1].lang.value, after[o + 2].lang.value, after[o + 3].lang.value);
      assert false;
    }
  }

  /** The merged list has at most three more blocks than the original. */
  lemma MergeRecordsBounded(list: seq<StyleBlock>, records: seq<ImportRecord>)
    ensures |list| <= |MergeRecords(list, records)| <= |list| + 3
  {
    MergeRecordsGrows(list, records);
    GrowsAddsAtMostThree(list, MergeRecords(list, records));
  }

  /** One style block written out: its language (css when unnamed) and its text. */
  function StyleTag(b: StyleBlock): (r: string)
    ensures StartsWith(r, "<style lang=\"" + LangOrCss(b.lang) + "\">")
    ensures EndsWith(r, b.content + "</style>\n")
  {
    var open := "<style lang=\"" + LangOrCss(b.lang) + "\">";
    var tag := open + b.content + "</style>\n";
    assert tag[..|open|] == open;
    assert tag[|tag| - |b.content + "</style>\n"|..] == b.content + "</style>\n";
    tag
  }

  /** The style blocks written out, in order; the text ends with the last block's. */
  function StylesMarkup(styles: seq<StyleBlock>): (r: string)
    ensures styles == [] ==> r == ""
    ensures styles != [] ==> EndsWith(r, styles[|styles| - 1].content + "</style>\n")
  {
    var tags := seq(|styles|, i requires 0 <= i < |styles| => StyleTag(styles[i]));
    if styles == [] then ""
    else
      var last := tags[|tags| - 1];
      assert Join(tags) == Join(tags[..|tags| - 1]) + last;
      assert EndsWith(Join(tags), last) by {
        var j := Join(tags);
        assert j[|j| - |last|..] == last;
      }
      EndsWithTrans(Join(tags), last, styles[|styles| - 1].content + "</style>\n");
      Join(tags)
  }

  /** The component written out: template, then the style blocks, then the script. */
  function VueMarkup(res: VueSections): (r: string)
    ensures StartsWith(r, "<template>" + res.template.GetOr("") + "</template>\n")
    ensures EndsWith(r, "<script>" + res.script.GetOr("") + "</script>")
  {
    var template := "<template>" + res.template.GetOr("") + "</template>\n";
    var script := "<script>" + res.script.GetOr("") + "</script>";
    var out := template + StylesMarkup(res.styles) + script;
    assert out[..|template|] == template;
    assert out[|out| - |script|..] == script;
    out
  }

  /** The style blocks of a list are written out as those of its parts, in order. */
  lemma StylesMarkupAppend(a: seq<StyleBlock>, b: seq<StyleBlock>)
    ensures StylesMarkup(a + b) == StylesMarkup(a) + StylesMarkup(b)
  {
    var ta := seq(|a|, i requires 0 <= i < |a| => StyleTag(a[i]));
    var tb := seq(|b|, i requires 0 <= i < |b| => StyleTag(b[i]));
    assert seq(|a + b|, i requires 0 <= i < |a + b| => StyleTag((a + b)[i])) == ta + tb;
    JoinAppend(ta, tb);
  }

  lemma StylesMarkupSnoc(styles: seq<StyleBlock>, i: nat)
    requires i < |styles|
    ensures StylesMarkup(styles[..i + 1]) == StylesMarkup(styles[..i]) + StyleTag(styles[i])
  {
    assert styles[..i + 1] == styles[..i] + [styles[i]];
    StylesMarkupAppend(styles[..i], [styles[i]]);
    assert seq(1, k requires 0 <= k < 1 => StyleTag([styles[i]][k])) == [StyleTag(styles[i])];
    JoinSingle(StyleTag(styles[i]));
  }

  /** One loop step of the write-out: the next block's tag extends the text so far. */
  lemma StyleTagStep(styles: seq<StyleBlock>, i: nat, acc: string, tag: string)
    requires i < |styles| && acc == StylesMarkup(styles[..i])
    requires tag == "<style lang=\"" + LangOrCss(styles[i].lang) + "\">" + styles[i].content + "</style>\n"
    ensures acc + tag == StylesMarkup(styles[..i + 1])
  {
    StylesMarkupSnoc(styles, i);
  }

  /** A block without a language is written out as a css block. */
  lemma UnnamedBlockIsCss(content: string)
    ensures StyleTag(StyleBlock(None, content)) == StyleTag(StyleBlock(Some(CSS_FILE), content))
    ensures StyleTag(StyleBlock(Some(""), content)) == StyleTag(StyleBlock(Some(CSS_FILE), content))
  {
  }

  /** `convertSourceByVueRes`: the loop writing out the style blocks between template and script. */
  method ConvertSourceByVueRes(res: VueSections) returns (source: string)
    ensures source == VueMarkup(res)
  {
    var template := "<template>" + res.template.GetOr("") + "</template>\n";
    var script := "<script>" + res.script.GetOr("") + "</script>";
    var styles := "";
    var i := 0;
    while i < |res.styles|
      invariant i <= |res.styles|
      invariant styles == StylesMarkup(res.styles[..i])
    {
      var d := res.styles[i];
      var tag := "<style lang=\"" + LangOrCss(d.lang) + "\">" + d.content + "</style>\n";
      StyleTagStep(res.styles, i, styles, tag);
      styles := styles + tag;
      i := i + 1;
    }
    assert res.styles[..|res.styles|] == res.styles;
    source := template + styles + script;
  }
}
