# style-import loader, modelled in Dafny

This project models a webpack loader that adds stylesheet imports for UI
library components. The loader sees a `.js` file or a `.vue` single-file
component and finds its top-level `import { A, B } from '<library>'`
declarations for the libraries in its options. For each imported member it
works out a stylesheet path, either from a `{{name}}` template or from a user
function, and writes one import statement per stylesheet:

- into a script, the statements `import '<library>/<path>';` go in front of
  the unchanged source;
- into a component, the statements `@import '~<library>/<path>';` go to the
  front of the first `<style>` block of the stylesheet's language (css, scss
  or less). A new block is added when the component has none of that
  language. The component is then written back out as template, style blocks
  and script.

Member names are turned into directory names by `convertName`. It puts the
library's `splitChart` separator (default `_`) before each upper-case letter,
lower-cases the result and drops one leading separator, so `DatePicker` with
`-` becomes `date-picker`.

Modules, following the two source files:

- `Wrappers`: `Option`.
- `JsString`: ASCII case, prefixes and suffixes, and the two global regular
  expression replacements the source uses (`/([A-Z])/g` and
  `/\{\{name\}\}/g`). Each comes in two forms: one with the replacement string
  read as a JavaScript replacement template (`$$`, `$&`, `` $` ``, `$'`, `$1`),
  and one with it inserted literally.
- `Util`: `convertName`.
- `Parsed`: what the two parsers hand to the loader, as input datatypes.
- `Config`: the suffix classifiers, the library entries, their normalisation
  and the lookup by name.
- `Scanner`: the import scan.
- `Resolver`: the directory name, the stylesheet path and the statement.
- `JsRewriter`: the script rewrite.
- `VueRewriter`: the style-block merge, over a class `StyleRes` whose objects
  are updated in place, and the write-out.
- `Loader`: `convertJsSource`, `convertVueSource` and `styleImport`.
- `Fixtures`: the repository's own `antd` configuration and its import of
  `DatePicker`, `message` and `Alert` from `antd`, worked through the
  pipeline.

The script parser and the component sectioner are function parameters. A
script parser that throws is `None`, and the loader then fails with
`ParseFailure`. The user's `style` function is a pure function parameter
`string -> Option<string>`, where `None` stands for its `undefined`.

The merge is specified twice. The value functions `AddStatement`,
`MergeStep`, `MergeNames` and `MergeRecords` say what the blocks become. The
methods over `StyleRes` objects are proved to produce exactly those values.
They also prove the aliasing the source has: the list is copied, but its
first entries are the caller's own objects, now holding the merged text, and
only the appended entries are new.

In two places the code evidently does not do what was meant. The separator
and the directory name end up inside a replacement string, where the
replacement codes `$$`, `$&`, `` $` ``, `$'` (and `$1`, `$01` for the
separator, whose pattern has a capture group) are expanded; any other `$`
stands for itself. Both places are listed under "## Findings". There the model gives the code as
written as a member of its own, and the pipeline (`Resolver.RawDirName`,
`Resolver.ImportStyleFilePath` and everything built on them, up to
`Loader.StyleImport`) uses the corrected form, which inserts the text
literally. The two forms agree whenever no `$` is involved, and can differ
only when the replacement string holds one of those codes.

Elsewhere, where the loader's documentation and its code differ, the model
follows the code:

- `convertName` also drops the separator from a name that already began with
  it (`_message` becomes `message`);
- a library entry with `splitChart: undefined` turns conversion off instead
  of falling back to `_`.

## Model

| member | source | states |
|---|---|---|
| Util.ConvertName | lib/util.js:7-18 | with a falsy separator the name comes back unchanged; with a truthy one the result has no upper-case letter |
| Util.ConvertNameAsWritten | lib/util.js:9 | the conversion as written, with the separator read as a replacement template; a falsy separator returns the name |
| Util.Spread | lib/util.js:9-10 | inserting the separator and lower-casing leaves no upper-case letter |
| Util.DollarHeadBack | lib/util.js:7-18 | the corrected conversion of `HeadBack` with `$` is `head$back` |
| Util.AsWrittenAgrees | lib/util.js:9 | as written and corrected agree whenever the separator has no `$` |
| Util.DollarSeparatorCounterexample | lib/util.js:9 | for `HeadBack` with separator `$`, as written gives `1ead$1ack` and the corrected version gives `head$back` |
| Util.ReplaceUppersDollar | lib/util.js:9 | with the template `$$1` the engine replaces every capital of `HeadBack` with the two characters `$1` |
| Util.InsertBeforeUppersLength | lib/util.js:9 | inserting the separator adds its length once per upper-case letter |
| Util.InsertBeforeUppersAppend | lib/util.js:9 | the insertion works character by character, so it distributes over concatenation |
| Util.InsertBeforeUppersAt | lib/util.js:9 | each character keeps its place among the others, with the separator inserted only before capitals |
| Util.SpreadAt | lib/util.js:9 | after lower-casing, each character of the name appears lower-cased in order, with the lower-cased separator before each former capital |
| Util.InsertNoUpper | lib/util.js:9 | a name without capitals gets no separator |
| Util.ConvertNameStripsOnlyLeading | lib/util.js:9-15 | the result is the spread name with exactly one leading separator removed when it starts with one, and nothing else removed |
| Util.ConvertNameLength | lib/util.js:9-12 | the result has length name + separator x capitals, minus one separator when the leading strip happens |
| Util.ConvertNameLeadingUpper | lib/util.js:9-12 | a name starting with a capital (and a lower-case separator) gets no leading separator: its first letter lower-cased, then the rest spread |
| Util.ConvertNameNoUpper | lib/util.js:9-15 | a name without capitals comes back as it is, except that a leading separator is removed |
| Util.HeadBackUnderscore | lib/util.js:3 | `HeadBack` with `_` becomes `head_back` |
| Util.MessageUnchanged | lib/util.js:8-17 | `message` with `_` stays `message`; `HeadBack` without a separator stays `HeadBack` |
| Util.SingleLetter | lib/util.js:9-12 | `A` with `-` becomes `a` |
| JsString.LowerChar | lib/util.js:9 | ASCII lower-casing: capitals move by 32, every other character is kept |
| JsString.Lower | lib/index.js:23 | lower-casing keeps the length and maps each character |
| JsString.LowerIdempotent | lib/index.js:23 | lower-casing twice is lower-casing once |
| JsString.ReplaceUppersLiteral | lib/util.js:9 | a template `sep$1` with no other `$` inserts the separator literally before each capital |
| JsString.Expand | lib/util.js:9 | a replacement template without `$` is copied as it is |
| JsString.InsertBeforeUppers | lib/util.js:9 | the literal insertion never shortens the text; its exact length is `Util.InsertBeforeUppersLength` |
| JsString.ReplacePlaceholderWithTemplate | lib/index.js:136 | from a position with no `{` after it the text is copied as it is |
| JsString.CopyUpTo | lib/index.js:136 | text up to a position where no placeholder starts is copied unchanged, and the replacement goes on from there |
| JsString.NoBraceNoPlaceholderBefore | lib/index.js:136 | no placeholder starts inside a text without `{` |
| JsString.ReplacePlaceholderLiteral | lib/index.js:136 | replacing `{{name}}` with a `$`-free directory name agrees with literal replacement |
| JsString.ReplacePlaceholder | lib/index.js:136 | a template without `{{name}}` is left as it is |
| JsString.ReplacePlaceholderLength | lib/index.js:136 | the length only: it moves by the directory name's length minus eight, once per placeholder |
| JsString.ReplacePlaceholderAfterLiteral | lib/index.js:136 | text before the first `{{name}}` is kept whatever it holds, a lone `{` included; the name goes in its place and the rest is replaced in turn |
| JsString.NoBraceNoPlaceholder | lib/index.js:136 | a text without `{` has no placeholder |
| JsString.JoinAppend | lib/index.js:172-176 | accumulating with `+=` distributes over concatenation of the parts |
| Config.StyleType.Name | lib/index.js:12-14 | the three stylesheet languages `css`, `scss` and `less`, all lower-case |
| Config.EndsWithLower | lib/index.js:23-27 | testing a suffix of the lower-cased path is the same as testing the path ignoring case |
| Config.SuffixesExclusive | lib/index.js:25-27 | no path is both `.vue` and `.js`, and no path has two of `.css`, `.scss` and `.less` |
| Config.GetFileType | lib/index.js:22-32 | `vue` exactly for a `.vue` suffix and `js` exactly for `.js`, both ignoring case; no file type otherwise, or when there is no path |
| Config.GetStyleFileType | lib/index.js:39-51 | css, scss or less exactly when the path ends with that suffix, ignoring case |
| Config.StyleFileTypeSuffix | lib/index.js:39-51 | the language found is the one the path's suffix names |
| Config.ClassifiersIgnoreCase | lib/index.js:22-51 | two paths that lower-case alike are classified alike by both classifiers |
| Config.NormalizeLibrary | lib/index.js:337-341 | name and style are kept; a missing `splitChart` key becomes `_`; a present one wins, even when it is `undefined`; the entry is a new value, so the caller's entry is left as it was |
| Config.NormalizeLibraries | lib/index.js:336-342 | no `list` gives no libraries; otherwise one normalised entry per raw entry, in order |
| Config.FindLibrary | lib/index.js:58-62 | no result exactly when no library has that name; otherwise the first library whose name is exactly the one asked for |
| Scanner.GetImportComponentList | lib/index.js:69-103 | the list is the records of all matching declarations, in body order |
| Scanner.ImportRecords | lib/index.js:74-100 | at most one record per statement looked at, each pointing at one of those statements |
| Scanner.Matches | lib/index.js:75-80 | a matching statement has a source literal naming a configured library |
| Scanner.MakeRecord | lib/index.js:81-98 | the first configured library of that name, the statement's index and lines, its collected names, and `isNeed` exactly when there is a name |
| Scanner.NamedImports | lib/index.js:91-96 | at most one name per specifier, and no empty name |
| Scanner.ImportedName | lib/index.js:92-93 | a name exactly when `imported.name` is a non-empty string, and then that string |
| Scanner.NamedImportsAppend | lib/index.js:91-96 | names are collected specifier by specifier, in order |
| Scanner.NamedImportsMembers | lib/index.js:91-96 | a name is collected exactly when some specifier imports it by that name |
| Scanner.UnnamedSpecifiersIgnored | lib/index.js:92-95 | a default or namespace specifier adds no name |
| Scanner.IsNeedIff | lib/index.js:97 | `isNeed` holds exactly when some specifier imports a member by name |
| Scanner.ImportRecordsSound | lib/index.js:74-99 | every record belongs to a matching import declaration of a configured library and carries that declaration's data |
| Scanner.ImportRecordsOrdered | lib/index.js:74-99 | records follow the body order, at most one per statement |
| Scanner.ImportRecordsComplete | lib/index.js:74-99 | every matching declaration has its record |
| Resolver.RawDirName | lib/index.js:111-115 | the name is unchanged without a truthy separator; converted names have no capitals |
| Resolver.ImportStyleFilePath | lib/index.js:123-140 | a user function's result verbatim; for a template some path; the empty path for a `style` of any other kind |
| Resolver.ImportStyleFilePathAsWritten | lib/index.js:136 | the path as written, with the directory name read as a replacement template |
| Resolver.PathAsWrittenAgrees | lib/index.js:136 | as written and corrected agree whenever the directory name has no `$` |
| Resolver.TemplatePath | lib/index.js:135-137 | a template split at its first `{{name}}` gives the text before it, the directory name, and the rest with its own placeholders replaced |
| Resolver.DollarNameCounterexample | lib/index.js:136 | `$$Button` with `lib/{{name}}.css` and no conversion gives `lib/$Button.css` as written and `lib/$$Button.css` corrected |
| Resolver.StyleStatement | lib/index.js:158-160 | the path can be read back from the statement by `StatementPath`, so distinct paths give distinct statements |
| Resolver.SubComponentStyleString | lib/index.js:148-162 | no statement exactly when the path is missing, empty or not css/scss/less; otherwise `import '<lib>/<path>';`, or `@import '~<lib>/<path>';` in a component |
| Resolver.ResolverWithoutPath | lib/index.js:130-132 | a user function returning nothing yields no statement |
| Resolver.UnknownSuffixSkipped | lib/index.js:154-156 | a path with another suffix yields no statement |
| JsRewriter.NameLine | lib/index.js:173-176 | a member contributes nothing exactly when it has no statement, and otherwise a whole line ending in a newline |
| JsRewriter.ComponentStyle | lib/index.js:168-182 | the text of one record: nothing without `isNeed`, and always whole lines |
| JsRewriter.JsPrefix | lib/index.js:189-197 | the text put in front of the source: nothing without records, and always whole lines, so the source starts on a line of its own |
| JsRewriter.GetComponentStyleString | lib/index.js:168-182 | for a record with `isNeed`, each member's defined statement and a newline, in order; nothing otherwise |
| JsRewriter.InsertStyleImportToJsSource | lib/index.js:189-197 | the records' texts in record order, then the source |
| JsRewriter.NameLinesAppend | lib/index.js:172-178 | the lines of a list of members are those of its parts, in order |
| JsRewriter.JsPrefixAppend | lib/index.js:192-194 | the text of a list of records is that of its parts, in order |
| JsRewriter.SkippedNameLeavesNoTrace | lib/index.js:173-177 | a member without a statement leaves the output as if it were not imported |
| JsRewriter.UnneededRecordLeavesNoTrace | lib/index.js:171 | a record without named imports adds nothing |
| JsRewriter.NameLineIsStatement | lib/index.js:175-176 | a member with a statement contributes exactly that statement and a newline |
| VueRewriter.LangOrCss | lib/index.js:205-208 | a missing or empty `lang` is css; any other is itself |
| VueRewriter.FindLang | lib/index.js:207-210 | the first index from a position on whose language matches, or none exactly when none matches |
| VueRewriter.GetStyleResByStyleType | lib/index.js:204-211 | the first entry whose language (css when unnamed) equals the requested one (css when unnamed); none exactly when there is none |
| VueRewriter.EmptyBlock | lib/index.js:217-223 | a new entry has the requested language or css, and empty content, and the lookup for that type finds it |
| VueRewriter.AddStatement | lib/index.js:250-258 | one statement adds at most one entry, and every existing entry keeps its language |
| VueRewriter.MergeStep | lib/index.js:239-258 | one member's turn adds at most one entry |
| VueRewriter.MergeNames | lib/index.js:237-259 | a record's members add at most one entry each |
| VueRewriter.MergeRecords | lib/index.js:235-260 | no entry is removed, and without records nothing changes |
| VueRewriter.StyleRes.constructor | lib/index.js:218-222 | an entry with the given language and content |
| VueRewriter.Values | lib/index.js:232 | the current values of entries, position by position |
| VueRewriter.CreateStyleRes | lib/index.js:217-223 | a new object holding the empty entry for that type |
| VueRewriter.EntryFor | lib/index.js:250-256 | the first entry of the language, or a new one appended when there is none |
| VueRewriter.AddStatementTo | lib/index.js:250-258 | the statement and a newline go in front of that entry's text, in place; the caller's entries stay the same objects |
| VueRewriter.MergeMember | lib/index.js:239-258 | one member's turn: nothing without a statement, otherwise the statement goes to its language's entry |
| VueRewriter.InsertStyleImportToVueStyles | lib/index.js:230-263 | the new list starts with the caller's own entries, now holding the merged text, followed by fresh entries; its values are the merge of all records' members in order |
| VueRewriter.MergeComponent | lib/index.js:237-259 | one record's turn: the caller's entries stay first and are the same objects, the added ones are fresh, all stay distinct, and the values are the merge of the record's members in order |
| VueRewriter.AddStatementIntoFirst | lib/index.js:250-258 | with an entry of the language, only the first such entry changes: statement, newline, old text |
| VueRewriter.AddStatementAppends | lib/index.js:253-258 | without one, a single entry of that language holding just the statement and a newline is appended |
| VueRewriter.MergeStepIntoFirst | lib/index.js:239-258 | the same for a member: its statement goes in front of the first entry of its stylesheet's language |
| VueRewriter.MergeStepAppends | lib/index.js:239-258 | a member whose language has no entry gets a new one at the end |
| VueRewriter.TwoStepsSameBlock | lib/index.js:237-258 | two members of the same language: the later statement ends up in front of the earlier one in the first block of that language, which keeps its language; no other entry changes and none is added |
| VueRewriter.AddTwoSameBlock | lib/index.js:250-258 | two statements into an existing entry: the later one, a newline, the earlier one, a newline, then the old text; every other entry is unchanged and none is added |
| VueRewriter.TwoStepsNewBlock | lib/index.js:237-258 | two members of a language without an entry: one new entry at the end, holding the later statement, a newline, the earlier one and a newline |
| VueRewriter.AddTwoNewBlock | lib/index.js:250-258 | the same for two statements: exactly one entry is appended, holding the second statement, a newline, the first and a newline |
| VueRewriter.MergeNamesPair | lib/index.js:237 | members are taken in order |
| VueRewriter.StatementLangSuffix | lib/index.js:245-247 | the language found by resolving a member's path again is the suffix that path ends with, ignoring case |
| VueRewriter.StatementLangKnown | lib/index.js:245-247 | a member with a statement has a css, scss or less language |
| VueRewriter.GrowsTrans | lib/index.js:235-260 | keeping entries in place with their old text at the end composes over successive steps |
| VueRewriter.AddStatementGrows | lib/index.js:250-258 | one statement keeps every existing entry in place with its language, its old text at the end, and appends only an entry of a new known language |
| VueRewriter.MergeStepGrows | lib/index.js:239-258 | the same for a member's turn |
| VueRewriter.MergeNamesGrows | lib/index.js:237-259 | the same for a record's members |
| VueRewriter.MergeRecordsGrows | lib/index.js:230-263 | the same for the whole merge |
| VueRewriter.GrowsAddsAtMostThree | lib/index.js:253-256 | entries are appended at most once per language, so at most three |
| VueRewriter.MergeRecordsBounded | lib/index.js:230-263 | the merged list keeps every entry and adds at most three |
| VueRewriter.StylesMarkup | lib/index.js:273-276 | no blocks give no text; otherwise the text ends with the last block's content, `</style>` and a newline |
| VueRewriter.StylesMarkupAppend | lib/index.js:274-276 | the blocks of a list are written out as those of its parts, in order |
| VueRewriter.StyleTag | lib/index.js:275 | a block starts with `<style lang="L">`, L being its language or css, and ends with its content, `</style>` and a newline |
| VueRewriter.VueMarkup | lib/index.js:269-281 | the text starts with the template part and ends with the script part |
| VueRewriter.UnnamedBlockIsCss | lib/index.js:275 | a block without a language, or with an empty one, is written out as css |
| VueRewriter.ConvertSourceByVueRes | lib/index.js:269-281 | `<template>T</template>` and a newline, then `<style lang="L">C</style>` and a newline per block in order, then `<script>S</script>` |
| Loader.StyleEntries | lib/index.js:313 | the sectioner's entries as distinct new objects with the same values |
| Loader.JsOutcome | lib/index.js:288-300 | failure exactly when the parser fails; otherwise the source is kept whole at the end |
| Loader.VueOutcome | lib/index.js:307-328 | failure exactly when the component's script fails to parse; otherwise the text starts with the unchanged template part and ends with the unchanged script part |
| Loader.Transform | lib/index.js:330-355 | any other file comes back unchanged; a script or a component fails exactly when its script does not parse |
| Loader.ConvertJsSource | lib/index.js:288-300 | the script's statements in front of the source, or the parser's failure |
| Loader.ConvertVueSource | lib/index.js:307-328 | the component written out with the merged style list in place of the old one, or the script parser's failure |
| Loader.StyleImport | lib/index.js:330-355 | normalise the library list, then rewrite a script, rewrite a component, or return the source of any other file |
| Loader.UnsupportedFileUnchanged | lib/index.js:345-348 | a file that is neither `.js` nor `.vue` comes back unchanged |
| Loader.NoMatchNoRecords | lib/index.js:74-99 | without a matching declaration there are no records |
| Loader.JsSourceIsSuffix | lib/index.js:189-197 | a script's text is always an unchanged suffix of the output, and a script importing no configured library comes back as it is |
| Loader.NoLibrariesNoChange | lib/index.js:331-336 | without options or without a `list`, a script comes back unchanged |
| Loader.ParseFailurePropagates | lib/index.js:291-293 | the script parser's failure is the loader's failure, for scripts and components alike |
| Loader.VueOnlyStylesChange | lib/index.js:307-328 | in a component the template and script are kept; the old style blocks stay in place with their text at the end, and at most three are added |
| Loader.ExplicitUndefinedKeepsNames | lib/index.js:337-341 | an entry giving `splitChart: undefined` keeps member names as they are |
| Loader.AbsentSeparatorIsUnderscore | lib/index.js:339 | an entry without `splitChart` converts with `_` |
| Fixtures.DatePickerDirName | test/webpack.config.js:16 | `DatePicker` with `-` becomes `date-picker` |
| Fixtures.MessageDirName | test/webpack.config.js:16 | `message` with `-` stays `message` |
| Fixtures.AlertDirName | test/webpack.config.js:16 | `Alert` with `-` becomes `alert` |
| Fixtures.AntdPath | test/webpack.config.js:13-19 | the `antd` template gives `lib/<dir>/style/index.less` for a member whose directory name is `<dir>` |
| Fixtures.AntdStatements | lib/index.js:148-162 | for such a member, the `antd` statements in a script and in a component, both of the less language |
| Fixtures.DatePickerStatements | lib/index.js:148-162 | the `antd` statements for `DatePicker`, in a script and in a component |
| Fixtures.MessageStatements | lib/index.js:148-162 | the same for `message`, with `lib/message/style/index.less` |
| Fixtures.AlertStatements | lib/index.js:148-162 | the same for `Alert`, with `lib/alert/style/index.less` |
| Fixtures.AntdNames | test/index.js:5-9 | the three specifiers give the names `DatePicker`, `message` and `Alert`, in that order |
| Fixtures.OthersSkipped | test/index.js:1-16 | with only `antd` configured, none of the body's other five statements matches |
| Fixtures.AntdRecord | test/index.js:1-16 | with `antd` configured, the scan of the whole body skips the `vue`, `./index.vue`, `./index.scss` and `vant` imports and the `new Vue` call, and gives one record: index 3, lines 5 to 9, the names `DatePicker`, `message` and `Alert` in order |
| Fixtures.AntdPrefix | lib/index.js:168-197 | that record's script text is its three statements, each with a newline, in order |
| Fixtures.AntdScript | test/index.js:1-16 | the script test/index.js gets `import 'antd/lib/date-picker/style/index.less';`, then the `message` and the `Alert` statement, each with a newline, in front of the source |
| Fixtures.ThreeMembersNewBlock | lib/index.js:237-258 | three members of a language without an entry give one new entry holding their statements in reverse order, each with a newline |
| Fixtures.AntdComponentStyles | test/index.js:5-9 | a component with only an scss block, whose script holds that import, gets one less block after it holding the `Alert`, `message` and `DatePicker` `@import` statements, in that order |

## Left out

- The script parser (`@babel/parser`) and the component sectioner (`lib/vue_parse.js` over `vue-template-compiler`) are function parameters. Their output is the `Parsed` datatypes: statement kind, source literal, specifiers' `imported.name` and lines; template, script and `{lang, content}` style entries.
- The sectioner's cache (`lru-cache` keyed by `hash-sum`) is read but never written, and so has no effect. It is not part of this model.
- `loader-utils.getOptions` and `this.resourcePath` are parameters of `StyleImport`.
- The warnings written with `console.warn`/`console.log` are left out. They change no result.
- The user `style` functions check the file system and log. They are modelled as arbitrary pure functions. The component path calls the function twice per member (lib/index.js:150 by way of 239, and 245), and the model assumes both calls agree.
- `@babel/generator` is imported but never used.
- Lower-casing (`toLowerCase`, `toLocaleLowerCase`) and the capital test `[A-Z]` are ASCII only. No Unicode case mapping or locale is modelled.
- Configuration values of types other than the source tests for are not modelled. A `splitChart` is a string or `undefined`, and a user function returns a string or `undefined`; a number, or a string object, is neither.
- The `type: 'style'` field `createStyleRes` sets is not modelled. The write-out never reads it.
- The write-out only has what `convertSourceByVueRes` emits: other block attributes (`scoped`, `src`, custom blocks) are dropped as the source drops them. The sectioner's other fields are not modelled.
- Missing `loc` data defaults to line 0 in the source. Here the lines are plain inputs of the statement.
- The fixtures configure only the `antd` entry of test/webpack.config.js. Its `vant` entry's `style` function reads the file system, so the `vant` import of test/index.js is a statement the scan skips there.
- `test_js/webpack.config.js` uses option keys the loader never reads. It is not part of this model.
- `Resolver.RawDirName`: calls the corrected `Util.ConvertName`, which inserts the separator literally, while lib/index.js:113 calls `convertName`, whose lib/util.js:9 reads `${split}$1` as a replacement template (`Util.ConvertNameAsWritten` is that reading). The two can differ when that string holds a replacement code other than its final `$1`, as with a separator ending in `$` or holding `$$`, `$&`, `` $` ``, `$'` or `$1`; see "## Findings".
- `Resolver.ImportStyleFilePath`: inserts the directory name literally, while lib/index.js:136 reads it as a replacement template (`Resolver.ImportStyleFilePathAsWritten` is that reading). The two can differ when the template holds `{{name}}` and the directory name holds one of the codes `$$`, `$&`, `` $` `` or `$'`; a lone `$`, as in `$Button`, is copied either way; see "## Findings".
- `Loader.StyleImport`: built on the two corrected forms above, so its output can differ from the source's when a separator or a directory name holds one of those replacement codes; without `$` the two agree (`Util.AsWrittenAgrees`, `Resolver.PathAsWrittenAgrees`).
- `JsString.ReplacePlaceholderLength`: states the length of the result only; what the result holds is `JsString.ReplacePlaceholderAfterLiteral`, `Resolver.TemplatePath` and `JsString.ReplacePlaceholderLiteral`.
- `JsString.ReplaceUppersWithTemplate` carries no contract of its own; it is specified by `JsString.ReplaceUppersLiteral`, `Util.AsWrittenAgrees` and `Util.ReplaceUppersDollar`.
- `Loader.StyleEntries` stands for the sectioner creating its own style objects. The model does not say whether those objects are shared with a cached copy, since the cache is never filled.

## Findings

| source | as written | input that shows it | evidently intended | confidence | as-written member | corrected member |
|---|---|---|---|---|---|---|
| lib/util.js:9 | the separator is spliced into the replacement string `${split}$1`, so `$` sequences in it are read as template codes | `convertName('HeadBack', '$')` gives `1ead$1ack` | `head$back`: the separator inserted literally before each capital | not executed | Util.DollarSeparatorCounterexample | Util.ConvertName |
| lib/index.js:136 | the directory name is passed as the replacement string, so `$$`, `$&` and the like in it are read as template codes | member `$$Button` from a library with `style: 'lib/{{name}}.css'` and no conversion gives `lib/$Button.css` | `lib/$$Button.css`: the directory name inserted literally | not executed | Resolver.DollarNameCounterexample | Resolver.ImportStyleFilePath |
