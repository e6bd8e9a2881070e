/**
 * The style-path resolver and the statement synthesiser of lib/index.js
 * (`getRawDirName`, `getImportStyleFilePath`, `getSubComponentStyleString`):
 * from an imported member name and its library to a stylesheet path, and
 * from that path to an import statement.
 */
module Resolver {
  import opened Wrappers
  import opened JsString
  import opened Util
  import opened Config

  /** `getRawDirName`: the member's directory name, converted only when the library has a truthy `splitChart`. */
  function RawDirName(name: string, lib: LibraryConfig): (r: string)
    ensures !Truthy(lib.splitChart) ==> r == name
    ensures Truthy(lib.splitChart) ==> !HasUpper(r)
  {
    if Truthy(lib.splitChart) then ConvertName(name, lib.splitChart) else name
  }

  /**
   * `getImportStyleFilePath` with the directory name inserted literally: a
   * user function's result as it is, a template with every `{{name}}`
   * replaced, and the empty path for a `style` of any other kind.
   */
  function ImportStyleFilePath(name: string, lib: LibraryConfig): (r: Option<string>)
    ensures lib.style.Resolver? ==> r == lib.style.resolve(name)
    ensures !lib.style.Resolver? ==> r.Some?
    ensures lib.style.NoRule? ==> r == Some("")
  {
    match lib.style
    case Resolver(resolve) => resolve(name)
    case Template(pattern) => Some(ReplacePlaceholder(pattern, RawDirName(name, lib)))
    case NoRule => Some("")
  }

  /** `getImportStyleFilePath` as written: the directory name is a replacement template. */
  function ImportStyleFilePathAsWritten(name: string, lib: LibraryConfig): (r: Option<string>)
    ensures lib.style.Resolver? ==> r == lib.style.resolve(name)
    ensures lib.style.NoRule? ==> r == Some("")
  {
    match lib.style
    case Resolver(resolve) => resolve(name)
    case Template(pattern) => Some(ReplacePlaceholderWithTemplate(pattern, RawDirName(name, lib), 0))
    case NoRule => Some("")
  }

  /** The two agree whenever the directory name has no dollar sign. */
  lemma PathAsWrittenAgrees(name: string, lib: LibraryConfig)
    requires '$' !in RawDirName(name, lib)
    ensures ImportStyleFilePathAsWritten(name, lib) == ImportStyleFilePath(name, lib)
  {
    if lib.style.Template? {
      ReplacePlaceholderLiteral(lib.style.pattern, RawDirName(name, lib), 0);
      assert lib.style.pattern[0..] == lib.style.pattern;
    }
  }

  /**
   * A template split at its first placeholder: the text before it is kept,
   * the directory name goes in its place, and the rest is replaced in turn.
   */
  lemma TemplatePath(name: string, lib: LibraryConfig, head: string, tail: string)
    requires lib.style == Template(head + PLACEHOLDER + tail)
    requires NoPlaceholderBefore(head + PLACEHOLDER + tail, |head|)
    ensures ImportStyleFilePath(name, lib)
         == Some(head + RawDirName(name, lib) + ReplacePlaceholder(tail, RawDirName(name, lib)))
  {
    ReplacePlaceholderAfterLiteral(head, tail, RawDirName(name, lib));
  }

  lemma ExpandDoubleDollar(before: string, after: string)
    ensures Expand("$$Button", PLACEHOLDER, before, after, None) == "$Button"
  {
    var t := "$$Button";
    assert t[2..] == "Button";
    assert '$' !in "Button";
  }

  lemma ReplaceDoubleDollarHead(s: string, t: string)
    requires s == "lib/{{name}}.css" && t == "$$Button"
    ensures ReplacePlaceholderWithTemplate(s, t, 0) == "lib/" + ReplacePlaceholderWithTemplate(s, t, 4)
  {
    TemplateScanCopies(s, t, 0, 4);
    assert s[0..4] == "lib/";
  }

  lemma ReplaceDoubleDollarMiddle(s: string, t: string)
    requires s == "lib/{{name}}.css" && t == "$$Button"
    ensures ReplacePlaceholderWithTemplate(s, t, 4) == "$Button" + ReplacePlaceholderWithTemplate(s, t, 12)
  {
    assert StartsWith(s[4..], PLACEHOLDER);
    ExpandDoubleDollar(s[..4], s[12..]);
  }

  lemma ReplaceDoubleDollarTail(s: string, t: string)
    requires s == "lib/{{name}}.css" && t == "$$Button"
    ensures ReplacePlaceholderWithTemplate(s, t, 12) == ".css"
  {
    TemplateScanCopies(s, t, 12, 16);
    assert s[12..16] == ".css";
  }

  lemma DollarNameUnfold(name: string, lib: LibraryConfig)
    requires name == "$$Button" && lib == LibraryConfig("ui", None, Template("lib/{{name}}.css"))
    ensures ImportStyleFilePathAsWritten(name, lib) == Some(ReplacePlaceholderWithTemplate(lib.style.pattern, name, 0))
    ensures ImportStyleFilePath(name, lib) == Some(ReplacePlaceholder(lib.style.pattern, name))
  {
    assert RawDirName(name, lib) == name;
  }

  lemma DollarNameAsWritten(name: string, lib: LibraryConfig)
    requires name == "$$Button" && lib == LibraryConfig("ui", None, Template("lib/{{name}}.css"))
    ensures ImportStyleFilePathAsWritten(name, lib) == Some("lib/$Button.css")
  {
    DollarNameUnfold(name, lib);
    ReplaceDoubleDollar(lib.style.pattern, name);
  }

  lemma ReplaceDoubleDollar(s: string, t: string)
    requires s == "lib/{{name}}.css" && t == "$$Button"
    ensures ReplacePlaceholderWithTemplate(s, t, 0) == "lib/$Button.css"
  {
    ReplaceDoubleDollarHead(s, t);
    ReplaceDoubleDollarMiddle(s, t);
    ReplaceDoubleDollarTail(s, t);
    DollarPathPieces();
  }

  /** Only splits a literal path into its pieces for the solver. */
  lemma DollarPathPieces()
    ensures "lib/" + "$Button" + ".css" == "lib/$Button.css"
  {
  }

  /** Only splits the literal template `lib/{{name}}.css` for the solver. */
  lemma PatternPieces(s: string)
    requires s == "lib/{{name}}.css"
    ensures s == "lib/" + PLACEHOLDER + ".css"
    ensures NoPlaceholderBefore(s, 4)
  {
    NoBraceNoPlaceholderBefore("lib/", PLACEHOLDER + ".css");
    assert "lib/" + (PLACEHOLDER + ".css") == s;
  }

  /** Only splits a literal path into its pieces for the solver. */
  lemma DollarNamePieces(name: string)
    requires name == "$$Button"
    ensures "lib/" + name + ".css" == "lib/$$Button.css"
  {
  }

  lemma DollarNameLiteral(name: string, lib: LibraryConfig)
    requires name == "$$Button" && lib == LibraryConfig("ui", None, Template("lib/{{name}}.css"))
    ensures ImportStyleFilePath(name, lib) == Some("lib/$$Button.css")
  {
    DollarNameUnfold(name, lib);
    DollarPathLiteral(lib.style.pattern, name);
  }

  lemma DollarPathLiteral(s: string, name: string)
    requires s == "lib/{{name}}.css" && name == "$$Button"
    ensures ReplacePlaceholder(s, name) == "lib/$$Button.css"
  {
    PatternPieces(s);
    ReplacePlaceholderAfterLiteral("lib/", ".css", name);
    NoBraceNoPlaceholder(".css");
    DollarNamePieces(name);
  }

  /**
   * `$$Button` (a valid identifier) from a library without conversion: the
   * engine reads `$$` in the directory name as one dollar sign.
   */
  lemma DollarNameCounterexample(name: string, lib: LibraryConfig)
    requires name == "$$Button" && lib == LibraryConfig("ui", None, Template("lib/{{name}}.css"))
    ensures ImportStyleFilePathAsWritten(name, lib) == Some("lib/$Button.css")
    ensures ImportStyleFilePath(name, lib) == Some("lib/$$Button.css")
  {
    DollarNameAsWritten(name, lib);
    DollarNameLiteral(name, lib);
  }

  /**
   * The statement text for a path: `import '<lib>/<path>';`, or
   * `@import '~<lib>/<path>';` in a style block. The path can be read back
   * from it, so distinct paths give distinct statements.
   */
  function StyleStatement(libName: string, path: string, isVue: bool): (r: string)
    ensures StatementPath(r, libName, isVue) == Some(path)
  {
    var prefix := (if isVue then "@import '~" else "import '") + libName + "/";
    var stmt := prefix + path + "';";
    assert stmt[..|prefix|] == prefix;
    assert stmt[|prefix|..|stmt| - 2] == path;
    assert stmt[|stmt| - 2..] == "';";
    assert stmt == (if isVue then "@import '~" else "import '") + libName + "/" + path + "';";
    stmt
  }

  /** The inverse of `StyleStatement`: the path back out of a statement for a known library, if it has that form. */
  function StatementPath(stmt: string, libName: string, isVue: bool): Option<string> {
    var prefix := (if isVue then "@import '~" else "import '") + libName + "/";
    if StartsWith(stmt, prefix) && |stmt| >= |prefix| + 2 && stmt[|stmt| - 2..] == "';"
    then Some(stmt[|prefix|..|stmt| - 2])
    else None
  }

  /**
   * `getSubComponentStyleString`: no statement when the path is missing or
   * empty or does not name a css, scss or less file; otherwise the statement
   * for the library and that path.
   */
  function SubComponentStyleString(name: string, lib: LibraryConfig, isVue: bool): (r: Option<string>)
    ensures var p := ImportStyleFilePath(name, lib);
            r.None? <==> (p.None? || p.value == "" || GetStyleFileType(p.value).None?)
    ensures r.Some? ==> r.value == StyleStatement(lib.name, ImportStyleFilePath(name, lib).value, isVue)
  {
    var styleFilePath := ImportStyleFilePath(name, lib);
    if styleFilePath.None? || styleFilePath.value == "" then None
    else if GetStyleFileType(styleFilePath.value).None? then None
    else Some(StyleStatement(lib.name, styleFilePath.value, isVue))
  }

  /** A user function that returns nothing for a name yields no statement for it. */
  lemma ResolverWithoutPath(name: string, lib: LibraryConfig, isVue: bool)
    requires lib.style.Resolver? && lib.style.resolve(name).None?
    ensures SubComponentStyleString(name, lib, isVue).None?
  {
  }

  /** A path with an unknown suffix yields no statement, whatever the mode. */
  lemma UnknownSuffixSkipped(name: string, lib: LibraryConfig, isVue: bool)
    requires ImportStyleFilePath(name, lib).Some?
    requires var p := ImportStyleFilePath(name, lib).value;
             !HasSuffixIgnoringCase(p, ".css") && !HasSuffixIgnoringCase(p, ".scss") && !HasSuffixIgnoringCase(p, ".less")
    ensures SubComponentStyleString(name, lib, isVue).None?
  {
  }
}
