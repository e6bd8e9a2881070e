/**
 * The import scanner (`getImportComponentList` in lib/index.js): which
 * top-level import declarations name a configured library, and which named
 * members each of them imports.
 */
module Scanner {
  import opened Wrappers
  import opened Parsed
  import opened Config

  /**
   * What the scanner records for one matching declaration: the first library
   * with that name, the statement's index and lines (kept, not used further),
   * the imported member names and whether there are any.
   */
  datatype ImportRecord = ImportRecord(
    library: LibraryConfig,
    astIdx: nat,
    startLine: nat,
    endLine: nat,
    names: seq<string>,
    isNeed: bool)

  /** The member name a specifier contributes: a truthy `imported.name`. */
  function ImportedName(sp: Specifier): (r: Option<string>)
    ensures r.Some? <==> sp.imported.Some? && sp.imported.value != ""
    ensures r.Some? ==> r == sp.imported
  {
    if sp.imported.Some? && sp.imported.value != "" then sp.imported else None
  }

  /** The names the inner loop pushes, in specifier order. */
  function NamedImports(specs: seq<Specifier>): (r: seq<string>)
    ensures |r| <= |specs|
    ensures forall k :: 0 <= k < |r| ==> r[k] != ""
    decreases |specs|
  {
    if |specs| == 0 then []
    else
      var last := specs[|specs| - 1];
      NamedImports(specs[..|specs| - 1]) + (if ImportedName(last).Some? then [ImportedName(last).value] else [])
  }

  /** Whether a statement is an import declaration of a configured library. */
  predicate Matches(st: Statement, libs: seq<LibraryConfig>)
    ensures Matches(st, libs) ==> st.source.Some? && exists i :: 0 <= i < |libs| && libs[i].name == st.source.value
  {
    st.kind == IMPORT_DECLARATION && st.source.Some? && FindLibrary(st.source.value, libs).Some?
  }

  function MakeRecord(body: seq<Statement>, libs: seq<LibraryConfig>, i: nat): (r: ImportRecord)
    requires i < |body| && Matches(body[i], libs)
    ensures r.library == FindLibrary(body[i].source.value, libs).value && r.library.name == body[i].source.value
    ensures r.astIdx == i && r.startLine == body[i].startLine && r.endLine == body[i].endLine
    ensures r.names == NamedImports(body[i].specifiers) && (r.isNeed <==> |r.names| > 0)
  {
    var d := body[i];
    var names := NamedImports(d.specifiers);
    ImportRecord(FindLibrary(d.source.value, libs).value, i, d.startLine, d.endLine, names, |names| > 0)
  }

  /** The records for the first `n` statements, in statement order. */
  function ImportRecords(body: seq<Statement>, libs: seq<LibraryConfig>, n: nat): (r: seq<ImportRecord>)
    requires n <= |body|
    ensures |r| <= n
    ensures forall k :: 0 <= k < |r| ==> r[k].astIdx < n
    decreases n
  {
    if n == 0 then []
    else ImportRecords(body, libs, n - 1) + (if Matches(body[n - 1], libs) then [MakeRecord(body, libs, n - 1)] else [])
  }

  /** `getImportComponentList` over the program body. */
  method GetImportComponentList(body: seq<Statement>, libs: seq<LibraryConfig>) returns (list: seq<ImportRecord>)
    ensures list == ImportRecords(body, libs, |body|)
  {
    list := [];
    var i := 0;
    while i < |body|
      invariant i <= |body|
      invariant list == ImportRecords(body, libs, i)
    {
      var d := body[i];
      var target := if d.source.Some? then FindLibrary(d.source.value, libs) else None;
      if d.kind == IMPORT_DECLARATION && target.Some? {
        var names := [];
        var j := 0;
        while j < |d.specifiers|
          invariant j <= |d.specifiers|
          invariant names == NamedImports(d.specifiers[..j])
        {
          var importName := d.specifiers[j].imported;
          assert d.specifiers[..j + 1][..j] == d.specifiers[..j];
          if importName.Some? && importName.value != "" {
            names := names + [importName.value];
          }
          j := j + 1;
        }
        assert d.specifiers[..|d.specifiers|] == d.specifiers;
        list := list + [ImportRecord(target.value, i, d.startLine, d.endLine, names, |names| > 0)];
      }
      i := i + 1;
    }
  }

  /** Collecting names works specifier by specifier. */
  lemma {:induction false} NamedImportsAppend(a: seq<Specifier>, b: seq<Specifier>)
    ensures NamedImports(a + b) == NamedImports(a) + NamedImports(b)
    decreases |b|
  {
    if |b| == 0 {
      assert a + b == a;
    } else {
      var b' := b[..|b| - 1];
      assert (a + b)[..|a + b| - 1] == a + b';
      assert (a + b)[|a + b| - 1] == b[|b| - 1];
      NamedImportsAppend(a, b');
    }
  }

  /** A name is collected exactly when some specifier imports it by name. */
  lemma {:induction false} NamedImportsMembers(specs: seq<Specifier>, x: string)
    ensures x in NamedImports(specs) <==> exists i :: 0 <= i < |specs| && ImportedName(specs[i]) == Some(x)
    decreases |specs|
  {
    if |specs| > 0 {
      var init := specs[..|specs| - 1];
      NamedImportsMembers(init, x);
      assert forall i :: 0 <= i < |init| ==> init[i] == specs[i];
    }
  }

  /** Default and namespace specifiers (no `imported`) contribute nothing. */
  lemma UnnamedSpecifiersIgnored(a: seq<Specifier>, b: seq<Specifier>)
    ensures NamedImports(a + [Specifier(None)] + b) == NamedImports(a + b)
  {
    NamedImportsAppend(a + [Specifier(None)], b);
    NamedImportsAppend(a, [Specifier(None)]);
    NamedImportsAppend(a, b);
    assert [Specifier(None)][..0] == [];
  }

  /** `isNeed` holds exactly when some specifier imports a member by name. */
  lemma IsNeedIff(body: seq<Statement>, libs: seq<LibraryConfig>, i: nat)
    requires i < |body| && Matches(body[i], libs)
    ensures MakeRecord(body, libs, i).isNeed
        <==> exists k :: 0 <= k < |body[i].specifiers| && ImportedName(body[i].specifiers[k]).Some?
  {
    var specs := body[i].specifiers;
    var names := NamedImports(specs);
    if |names| > 0 {
      NamedImportsMembers(specs, names[0]);
    } else {
      forall k | 0 <= k < |specs| && ImportedName(specs[k]).Some?
        ensures false
      {
        NamedImportsMembers(specs, ImportedName(specs[k]).value);
      }
    }
  }

  /** Every record is the record of a matching declaration among the first `n`. */
  lemma {:induction false} ImportRecordsSound(body: seq<Statement>, libs: seq<LibraryConfig>, n: nat, k: nat)
    requires n <= |body| && k < |ImportRecords(body, libs, n)|
    ensures var rec := ImportRecords(body, libs, n)[k];
            rec.astIdx < n && Matches(body[rec.astIdx], libs) && rec == MakeRecord(body, libs, rec.astIdx)
    decreases n
  {
    var prev := ImportRecords(body, libs, n - 1);
    if k < |prev| {
      ImportRecordsSound(body, libs, n - 1, k);
    }
  }

  /** The records follow the body order, one per declaration at most. */
  lemma {:induction false} ImportRecordsOrdered(body: seq<Statement>, libs: seq<LibraryConfig>, n: nat, k: nat, l: nat)
    requires n <= |body| && k < l < |ImportRecords(body, libs, n)|
    ensures ImportRecords(body, libs, n)[k].astIdx < ImportRecords(body, libs, n)[l].astIdx
    decreases n
  {
    var prev := ImportRecords(body, libs, n - 1);
    if l < |prev| {
      ImportRecordsOrdered(body, libs, n - 1, k, l);
    } else {
      ImportRecordsSound(body, libs, n - 1, k);
    }
  }

  /** Every matching declaration among the first `n` has its record. */
  lemma {:induction false} ImportRecordsComplete(body: seq<Statement>, libs: seq<LibraryConfig>, n: nat, i: nat)
    requires i < n <= |body| && Matches(body[i], libs)
    ensures exists k :: 0 <= k < |ImportRecords(body, libs, n)| && ImportRecords(body, libs, n)[k].astIdx == i
    decreases n
  {
    var prev := ImportRecords(body, libs, n - 1);
    var r := ImportRecords(body, libs, n);
    if i < n - 1 {
      ImportRecordsComplete(body, libs, n - 1, i);
      var k :| 0 <= k < |prev| && prev[k].astIdx == i;
      assert r[k] == prev[k];
    } else {
      assert r[|prev|].astIdx == i;
    }
  }
}
