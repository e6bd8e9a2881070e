/**
 * The script rewriter of lib/index.js (`getComponentStyleString`,
 * `insertStyleImportToJsSource`): the statements for every matched import
 * are put, one per line, in front of the unchanged source.
 */
module JsRewriter {
  import opened Wrappers
  import opened JsString
  import opened Config
  import opened Resolver
  import opened Scanner

  /** A text made of whole lines: empty, or ending with a newline. */
  predicate WholeLines(s: string) {
    s == "" || s[|s| - 1] == '\n'
  }

  /**
   * The line one member contributes: nothing exactly when it has no
   * statement, and otherwise a whole line (the statement and a newline, as
   * `NameLineIsStatement` states).
   */
  function NameLine(name: string, lib: LibraryConfig): (r: string)
    ensures r == "" <==> SubComponentStyleString(name, lib, false).None?
    ensures WholeLines(r)
  {
    match SubComponentStyleString(name, lib, false)
    case Some(s) => s + "\n"
    case None => ""
  }

  /** Texts made of whole lines, joined, are made of whole lines. */
  lemma {:induction false} JoinWholeLines(parts: seq<string>)
    requires forall i :: 0 <= i < |parts| ==> WholeLines(parts[i])
    ensures WholeLines(Join(parts))
    decreases |parts|
  {
    if |parts| > 0 {
      var init, last := parts[..|parts| - 1], parts[|parts| - 1];
      JoinWholeLines(init);
      if last == "" {
        assert Join(parts) == Join(init) + "" == Join(init);
      }
    }
  }

  /** The line of each member, in order. */
  function Lines(names: seq<string>, lib: LibraryConfig): (r: seq<string>)
    ensures |r| == |names|
  {
    seq(|names|, i requires 0 <= i < |names| => NameLine(names[i], lib))
  }

  /** The lines for a list of members, in order. */
  function NameLines(names: seq<string>, lib: LibraryConfig): string {
    Join(Lines(names, lib))
  }

  /**
   * The text `getComponentStyleString` builds for one record: nothing unless
   * `isNeed`, and always whole lines.
   */
  function ComponentStyle(rec: ImportRecord): (r: string)
    ensures !rec.isNeed ==> r == ""
    ensures WholeLines(r)
  {
    if rec.isNeed then
      JoinWholeLines(Lines(rec.names, rec.library));
      NameLines(rec.names, rec.library)
    else ""
  }

  /** The text of each record, in order. */
  function Styles(records: seq<ImportRecord>): (r: seq<string>)
    ensures |r| == |records|
  {
    seq(|records|, i requires 0 <= i < |records| => ComponentStyle(records[i]))
  }

  /**
   * The text in front of the source: every record's lines, in record order.
   * It is whole lines, so the source starts on a line of its own.
   */
  function JsPrefix(records: seq<ImportRecord>): (r: string)
    ensures records == [] ==> r == ""
    ensures WholeLines(r)
  {
    JoinWholeLines(Styles(records));
    Join(Styles(records))
  }

  /** `getComponentStyleString`: the loop appending each defined statement and a newline. */
  method GetComponentStyleString(rec: ImportRecord) returns (styleString: string)
    ensures styleString == ComponentStyle(rec)
  {
    styleString := "";
    if rec.isNeed {
      var i := 0;
      while i < |rec.names|
        invariant i <= |rec.names|
        invariant styleString == NameLines(rec.names[..i], rec.library)
      {
        var subComponentStyleString := SubComponentStyleString(rec.names[i], rec.library, false);
        NameLinesSnoc(rec.names, i, rec.library);
        if subComponentStyleString.Some? {
          styleString := styleString + subComponentStyleString.value + "\n";
        }
        i := i + 1;
      }
      assert rec.names[..|rec.names|] == rec.names;
    }
  }

  /** `insertStyleImportToJsSource`: the statements of all records, then the source. */
  method InsertStyleImportToJsSource(source: string, records: seq<ImportRecord>) returns (out: string)
    ensures out == JsPrefix(records) + source
  {
    var prex := "";
    var i := 0;
    while i < |records|
      invariant i <= |records|
      invariant prex == JsPrefix(records[..i])
    {
      var componentStyle := GetComponentStyleString(records[i]);
      JsPrefixSnoc(records, i);
      prex := prex + componentStyle;
      i := i + 1;
    }
    assert records[..|records|] == records;
    out := prex + source;
  }

  /** The lines of a list of members are the lines of its parts, in order. */
  lemma NameLinesAppend(a: seq<string>, b: seq<string>, lib: LibraryConfig)
    ensures NameLines(a + b, lib) == NameLines(a, lib) + NameLines(b, lib)
  {
    assert Lines(a + b, lib) == Lines(a, lib) + Lines(b, lib);
    JoinAppend(Lines(a, lib), Lines(b, lib));
  }

  /** The prefix for a list of records is the prefixes of its parts, in order. */
  lemma JsPrefixAppend(a: seq<ImportRecord>, b: seq<ImportRecord>)
    ensures JsPrefix(a + b) == JsPrefix(a) + JsPrefix(b)
  {
    assert Styles(a + b) == Styles(a) + Styles(b);
    JoinAppend(Styles(a), Styles(b));
  }

  /** One more member adds its line at the end. */
  lemma NameLinesSnoc(names: seq<string>, i: nat, lib: LibraryConfig)
    requires i < |names|
    ensures NameLines(names[..i + 1], lib) == NameLines(names[..i], lib) + NameLine(names[i], lib)
  {
    assert names[..i + 1] == names[..i] + [names[i]];
    NameLinesAppend(names[..i], [names[i]], lib);
    assert Lines([names[i]], lib) == [NameLine(names[i], lib)];
    JoinSingle(NameLine(names[i], lib));
  }

  /** One more record adds its text at the end. */
  lemma JsPrefixSnoc(records: seq<ImportRecord>, i: nat)
    requires i < |records|
    ensures JsPrefix(records[..i + 1]) == JsPrefix(records[..i]) + ComponentStyle(records[i])
  {
    assert records[..i + 1] == records[..i] + [records[i]];
    JsPrefixAppend(records[..i], [records[i]]);
    assert Styles([records[i]]) == [ComponentStyle(records[i])];
    JoinSingle(ComponentStyle(records[i]));
  }

  /**
   * A member without a statement (no path, or a path that is not css, scss or
   * less) leaves the output as if it had not been imported.
   */
  lemma SkippedNameLeavesNoTrace(a: seq<string>, name: string, b: seq<string>, lib: LibraryConfig)
    requires SubComponentStyleString(name, lib, false).None?
    ensures NameLines(a + [name] + b, lib) == NameLines(a + b, lib)
  {
    NameLinesAppend(a + [name], b, lib);
    NameLinesAppend(a, [name], lib);
    NameLinesAppend(a, b, lib);
    SkippedLineEmpty(name, lib);
  }

  lemma SkippedLineEmpty(name: string, lib: LibraryConfig)
    requires SubComponentStyleString(name, lib, false).None?
    ensures NameLines([name], lib) == ""
  {
    assert NameLine(name, lib) == "";
    assert Lines([name], lib) == [""];
    JoinSingle("");
  }

  /** A record whose declaration imports no member by name adds nothing. */
  lemma UnneededRecordLeavesNoTrace(a: seq<ImportRecord>, rec: ImportRecord, b: seq<ImportRecord>)
    requires !rec.isNeed
    ensures JsPrefix(a + [rec] + b) == JsPrefix(a + b)
  {
    JsPrefixAppend(a + [rec], b);
    JsPrefixAppend(a, [rec]);
    JsPrefixAppend(a, b);
    assert Styles([rec]) == [ComponentStyle(rec)];
    JoinSingle(ComponentStyle(rec));
  }

  /** Each member with a statement contributes exactly that statement and a newline. */
  lemma NameLineIsStatement(name: string, lib: LibraryConfig)
    requires SubComponentStyleString(name, lib, false).Some?
    ensures NameLine(name, lib) == StyleStatement(lib.name, ImportStyleFilePath(name, lib).value, false) + "\n"
  {
  }
}
