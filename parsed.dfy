/**
 * What the two foreign parsers hand to the loader, as plain values: the
 * top-level statements of a script (from `@babel/parser`) and the sections of
 * a single-file component (from `vue-template-compiler`'s `parseComponent`).
 */
module Parsed {
  import opened Wrappers

  /** The node type of a standard `import … from '…'` declaration. */
  const IMPORT_DECLARATION := "ImportDeclaration"

  /**
   * One specifier of an import declaration. `imported` is the name of the
   * exported member a named specifier binds (`imported.name`); default and
   * namespace specifiers have none.
   */
  datatype Specifier = Specifier(imported: Option<string>)

  /**
   * One top-level statement: its node type, the raw value of its source
   * literal if it has one (`source.extra.rawValue`), its specifiers and the
   * lines it spans.
   */
  datatype Statement = Statement(
    kind: string,
    source: Option<string>,
    specifiers: seq<Specifier>,
    startLine: nat,
    endLine: nat)

  /** One style section: its `lang` attribute, if any, and its text. */
  datatype StyleBlock = StyleBlock(lang: Option<string>, content: string)

  /** The sections of a component file; an absent template or script section is `None`. */
  datatype VueSections = VueSections(template: Option<string>, script: Option<string>, styles: seq<StyleBlock>)
}
