# Django widgets core, modelled in Dafny

This project models the core of a small Django application for reusable page
widgets ("gidgits"). A template uses `{% widget app.widgets.Clock --size 3 -v as
clock %}`. The parts modelled are:

- the command-style argument lexer and parser (`widgets/command_parser.py`);
- the option kinds (plain, bool, select, multi, list): their parsing, resolution,
  validation and query reading (`widgets/options.py`);
- the `widget` and `box_widget` template tags and the render node
  (`widgets/templatetags/widget_tags.py`);
- the discovery of widget nodes through `extends` and `include`, and media
  de-duplication (`widgets/template.py`);
- the GET-to-values translation and download format lookup (`widgets/views.py`);
- the tag-string and query-string serialisers (`widgets/utils.py`);
- the widget registry and its autodiscovery (`widgets/registry.py`).

Files and modules:

| file | module | models |
|---|---|---|
| `wrappers.dfy` | `Wrappers` | `Option`, `Result`, `Outcome`, the closed `Error` type, `Enumerates` |
| `values.dfy` | `Values` | Python values (`None`, bool, int, str, list), truthiness, the template context |
| `widgets.dfy` | `Widgets` | a widget class: its options and its CSS/JS media |
| `lexer.dfy` | `Lexer` | `OptionLexer`: `strip`, `re.split`, flag expansion, `consume` |
| `options.dfy` | `Options` | `Option` and its subclasses, `process_values` |
| `argument_parser.dfy` | `ArgumentParser` | `_find_option`, `parse_argument_list` |
| `widget_tags.dfy` | `WidgetTags` | the tags, `WidgetRenderNode`, `BoxedWidget`, `decamel` |
| `template.dfy` | `Template` | `_find_widget_nodes`, Django `Media`, `WidgetTemplateWrapper` |
| `views.dfy` | `Views` | `_getquery_to_dict`, the mimetype table |
| `utils.dfy` | `Utils` | `options_to_tag_string`, `options_to_query_string` |
| `registry.dfy` | `WidgetRegistry` | `Registry`, `autodiscover` |

Modelling choices:

- **Mutable objects are classes.** The lexer, the registry, the media object, the
  render node and the template wrapper update their fields in place, so they are
  Dafny classes with `modifies` clauses.
- **Methods have pure specifications.** Each such method, and each loop of the
  source, is proved against a pure function (`LexState.Consumed`, `ParseFrom`,
  `AddAll`, `SetDefaults`, `Discovered`, ...). The properties are proved about
  those functions.
- **Dict iteration order is not fixed.** Python 2 gives no order for a dict's
  `items()`. Results that depend on it are stated for some enumeration of the
  keys (`Enumerates`).
- **Deep lookups are parameters.** Template variables, `escape`, `urllib.quote`,
  `str()`, `get_widget_class` and `import_module` are function parameters, and so
  is what each installed app offers.
- **Errors are values.** Every exception the core raises, and every exception it
  lets through from Django, is an `Err`/`Fail` value of the `Error` type. The
  ones from Django are: `TemplateSyntaxError` or `IndexError` when a placeholder
  `Variable(text)` is refused as the tag is compiled; `VariableDoesNotExist` when
  a template variable is undefined; `TemplateDoesNotExist`; and an import error.
  Django's `Variable` constructor (django/template) is not part of this model.
  `VariableCheck` states the rule it applies: after a `_( ... )` wrapper is
  taken off, an empty text raises `IndexError`. Otherwise any text that is not
  a quoted literal and has a dotted segment starting with `_` raises
  `TemplateSyntaxError`. A number never has such a segment.

## Model

| member | source | states |
|---|---|---|
| Lexer.StripLeft | widgets/command_parser.py:21 | the result is a suffix of the input; everything dropped is whitespace; the result does not start with whitespace |
| Lexer.StripRight | widgets/command_parser.py:21 | the result is a prefix of the input; everything dropped is whitespace; the result does not end with whitespace |
| Lexer.Strip | widgets/command_parser.py:21 | `strip()` is a slice of the input with only whitespace cut from either side; it has no whitespace at either end, and is empty exactly when the input is all whitespace |
| Lexer.StripSlice | widgets/command_parser.py:21 | (proof helper) cutting whitespace from the front and then the back leaves a slice with only whitespace around it |
| Lexer.StripAllSpace | widgets/command_parser.py:21 | stripping from the left and then the right gives the `strip()` properties |
| Lexer.ClosingQuote | widgets/command_parser.py:21 | the lazy `".*?"` / `'.*?'` match closes at the first matching quote, with no newline before it (`.` does not match a newline) |
| Lexer.QuoteClosesAt | widgets/command_parser.py:21 | a quote with no earlier quote or newline before it is the one the lazy match closes at |
| Lexer.SeparatorLength | widgets/command_parser.py:21 | a separator match stays inside the string and starts with a space or a quote |
| Lexer.ReSplit | widgets/command_parser.py:21 | `re.split` with a capturing group always returns at least one piece |
| Lexer.ReSplitLossless | widgets/command_parser.py:21 | concatenating the pieces of `re.split` (the captured separators included) gives back the input |
| Lexer.SplitSpace | widgets/command_parser.py:21 | a leading space splits off as an empty piece and the captured space |
| Lexer.SplitQuoted | widgets/command_parser.py:21 | a leading quoted span splits off whole, spaces inside it included |
| Lexer.SplitPlainWord | widgets/command_parser.py:21 | a leading word without spaces or quotes stays glued to the first piece of the rest |
| Lexer.ConcatAppend | widgets/command_parser.py:21 | (proof helper) concatenation distributes over appending piece lists |
| Lexer.Flags | widgets/command_parser.py:38-39 | the flag cluster `-abc` yields `-a`, `-b`, `-c`, one per character, in order |
| Lexer.ExpandTokenCases | widgets/command_parser.py:36-41 | one token: a short-flag cluster gives one flag per letter (a bare `-` gives none), a blank token gives nothing, a `--long` token or any other token is kept as is |
| Lexer.ExpandedAppend | widgets/command_parser.py:36-41 | `_expanded` distributes over concatenation of token lists |
| Lexer.ExpandedSingle | widgets/command_parser.py:36-41 | expanding a one-token list is expanding that token |
| Lexer.ExpandedCons | widgets/command_parser.py:36-41 | expanding `[t] + rest` is the expansion of `t` followed by the expansion of `rest` |
| Lexer.ExpandedSnoc | widgets/command_parser.py:36-41 | expanding `ts + [t]` is the expansion of `ts` followed by the expansion of `t` |
| Lexer.ExpandedPrefix | widgets/command_parser.py:36-41 | (proof helper) the expansion of one more token of a prefix adds that token's expansion |
| Lexer.FlagsSnoc | widgets/command_parser.py:38-39 | the flags of one more character are the earlier flags plus one |
| Lexer.ExpandedNonBlank | widgets/command_parser.py:40-41 | no expanded token is blank (whitespace is discarded) |
| Lexer.ExpandedOfToken | widgets/command_parser.py:36-41 | re-expanding one token's expansion changes nothing |
| Lexer.ExpandedFlags | widgets/command_parser.py:38-39 | single flags `-x` expand to themselves |
| Lexer.ExpandedIdempotent | widgets/command_parser.py:36-41 | expansion is idempotent: expanding an already expanded stream changes nothing |
| Lexer.ExpandAll | widgets/command_parser.py:36-41 | the loop over tokens yields exactly `Expanded(tokens)` |
| Lexer.ExpandOne | widgets/command_parser.py:37-41 | the inner loop over one token yields exactly that token's expansion |
| Lexer.ExpandKeep | widgets/command_parser.py:40-41 | a non-flag token that does not start with whitespace is kept |
| Lexer.ExpandDrop | widgets/command_parser.py:40-41 | a token made of spaces is dropped |
| Lexer.ExpandWordsAndBlanks | widgets/command_parser.py:36-41 | words survive and the empty and space pieces `re.split` leaves between them are dropped |
| Lexer.ClusterExample | widgets/tests.py:29 | `--xyz -abc` lexes to `--xyz -a -b -c` |
| Lexer.LongThenCluster | widgets/tests.py:26-29 | any long option followed by a three-letter cluster keeps the long option and splits the cluster |
| Lexer.QuotedExample | widgets/tests.py:33 | `a "b c" d` lexes to `a`, `"b c"`, `d` |
| Lexer.QuotedExampleStrip | widgets/tests.py:33 | `strip()` leaves `a "b c" d` unchanged |
| Lexer.QuotedExampleSplit | widgets/tests.py:33 | `re.split` of `a "b c" d` gives the pieces `a`, space, empty, `"b c"`, empty, space, `d` |
| Lexer.QuotedExampleExpand | widgets/tests.py:33 | expanding those pieces leaves `a`, `"b c"`, `d` |
| Lexer.LexState.Consumed | widgets/command_parser.py:48-53 | `consume` advances to the next token, or marks the lexer exhausted and keeps the stale token; it keeps the lexer well formed, and it strictly shrinks what is left unless already exhausted |
| Lexer.ConsumedRemaining | widgets/command_parser.py:48-53 | the tokens not yet handed out are the current token followed by what remains after `consume` |
| Lexer.Steps | widgets/command_parser.py:48-53 | any number of `consume` calls keeps the lexer well formed |
| Lexer.ConsumeN | widgets/command_parser.py:48-53 | after `n` consumes the current token is the `n`-th; once past the end the lexer is exhausted and holds the last token |
| Lexer.OptionLexer.constructor | widgets/command_parser.py:18-28 | a new lexer holds the stripped, split and expanded stream, no token and not exhausted |
| Lexer.OptionLexer.Consume | widgets/command_parser.py:48-53 | the lexer's new state is `Consumed()` of its old state |
| ArgumentParser.Find | widgets/command_parser.py:59-64 | `_find_option` returns the first option whose short or long form equals the token; it fails with `Unknown argument` exactly when none does |
| ArgumentParser.FindOption | widgets/command_parser.py:59-64 | the loop returns what `Find` specifies |
| ArgumentParser.ParseFrom | widgets/command_parser.py:82-85 | an exhausted lexer gives no pairs; the only errors are an unknown argument, an unexpected option, or a `TemplateSyntaxError` or `IndexError` from building a value's placeholder |
| ArgumentParser.ParseArgumentList | widgets/command_parser.py:67-87 | the method (lexer, first consume, loop) returns `Parse(options, arguments)` |
| ArgumentParser.ParseStep | widgets/command_parser.py:83-85 | one loop iteration either fails as the whole parse fails, or adds one pair in front of the parse of the rest and strictly advances the lexer |
| ArgumentParser.ParseFromStep | widgets/command_parser.py:83-85 | the parse of a state is the found option with its parsed value, followed by the parse from where its value ends |
| ArgumentParser.PrependNothing | widgets/command_parser.py:85 | (proof helper) putting no pairs in front of a result changes nothing |
| ArgumentParser.PrependAppend | widgets/command_parser.py:85 | (proof helper) putting pairs in front of a result is associative |
| ArgumentParser.EmptyInput | widgets/command_parser.py:80-82 | input with no tokens parses to an empty list |
| ArgumentParser.PairsFit | widgets/command_parser.py:83-85 | every parsed pair holds an option from the list and a raw value of that option's kind |
| ArgumentParser.FlagTokens | widgets/command_parser.py:82-85 | the flag tokens picked from a stream are flags of that stream |
| ArgumentParser.FlagTokensAppend | widgets/command_parser.py:82-85 | picking flags distributes over concatenation |
| ArgumentParser.FlagTokensNone | widgets/command_parser.py:82-85 | a stream without flags has no flag tokens |
| ArgumentParser.OnePairPerFlag | widgets/command_parser.py:82-85 | when every option form starts with `-`, a successful parse has exactly one pair per flag token, in input order, each holding the option `_find_option` picks for that flag |
| ArgumentParser.OnePairStep | widgets/command_parser.py:83-85 | the one-pair-per-flag relation is kept by one loop iteration |
| ArgumentParser.FlagsStep | widgets/command_parser.py:83-85 | the flags left before an iteration are its flag followed by the flags left after it |
| ArgumentParser.PairsMatchCons | widgets/command_parser.py:83-85 | a found option in front of matching pairs still matches its flags |
| ArgumentParser.FlagsAfterOneValue | widgets/command_parser.py:83-85 | the non-flag values an option consumes add no flags |
| ArgumentParser.UnknownFlagAborts | widgets/command_parser.py:59-64 | any flag in the remaining input that no option matches makes the parse fail |
| ArgumentParser.ShortFlagKept | widgets/command_parser.py:36-41 | a two-character short flag survives expansion |
| ArgumentParser.SingleShortFlag | widgets/command_parser.py:37-39 | a lone short flag `-c` expands to exactly itself |
| ArgumentParser.KeptWords | widgets/command_parser.py:36-41 | a list of lone short flags and non-blank non-flags comes out of expansion unchanged, in order |
| ArgumentParser.StartRemaining | widgets/command_parser.py:80 | after the first consume nothing of the stream has been handed out yet |
| ArgumentParser.TestingIgnoresA | widgets/tests.py:65 | `Option('testing', '-t')` does not match `-a` |
| ArgumentParser.UnknownShortFlag | widgets/command_parser.py:59-64 | argument words holding a short flag that no option matches fail to parse |
| ArgumentParser.UnknownAfterOnePair | widgets/command_parser.py:82-85 | a value flag, a value that passes the variable check, then a flag no option matches: the parse fails with the unknown-argument error for that flag |
| ArgumentParser.BadOptionWords | widgets/tests.py:98-101 | any four words `-t`, `"xyz"`, `-a`, `1` against `Option('testing', '-t')` fail with the unknown-argument error for `-a` |
| ArgumentParser.BadOptionExample | widgets/tests.py:98-101 | `-t "xyz" -a 1` against `Option('testing', '-t')` raises the parser error for the unknown argument `-a` |
| Options.Dashed | widgets/options.py:77 | `name.replace('_', '-')`: same length, every underscore becomes a hyphen and nothing else changes |
| Options.LongForm | widgets/options.py:77 | a non-empty `long_form` argument is kept, otherwise `--` followed by the dashed name |
| Options.NewOption | widgets/options.py:73-176 | an `Option` keeps its name and short form and gets the long form above; a plain or select option is required unless told otherwise, with default `None` (lines 73-80); a `BoolOption` is never required and defaults to `False` (134-137); a `MultiOption` or `ListOption` defaults to not required and `[]` (173-176) |
| Options.GetVar | widgets/options.py:95-101 | `_get_var` fails with `Unexpected option` exactly when the current token is a flag; otherwise it consumes the token and returns it as a placeholder, unless `Variable` refuses it, and then fails with that error |
| Options.GetVarFrom | widgets/options.py:95-101 | the method on the lexer does what `GetVar` specifies; at a flag it leaves the lexer alone, and a refused placeholder leaves it one token on |
| Options.ParseMany | widgets/options.py:183-187 | the multi-option loop stops at a flag or at exhaustion, never moving the lexer backwards |
| Options.ParseManyRemaining | widgets/options.py:183-187 | the values collected are exactly the non-flag tokens between the option and where the loop stopped |
| Options.ManyUnfold | widgets/options.py:185-186 | one loop iteration takes the current non-flag token and goes on from the consumed state |
| Options.ManyStep | widgets/options.py:185-186 | the remaining tokens split as the current one, what the rest of the loop takes, and what is left after it |
| Options.MultiStopsAtFlag | widgets/options.py:183-187 | before `used ++ [flag] ++ rest` with no flag in `used`, the loop collects exactly `used` and stops on `flag`; the option's value is the placeholders of `used`, or the error of the first one `Variable` refuses |
| Options.ManyRun | widgets/options.py:185-186 | the loop collects exactly the run of non-flag tokens before a flag and stops on that flag |
| Options.MultiHead | widgets/options.py:185-186 | the first collected value is the current token, and the lexer stays ready after consuming it |
| Options.ParseManyFrom | widgets/options.py:183-187 | the `while` loop on the lexer returns the placeholders `ParseMany` collects and stops where it stops when all of them build; otherwise it returns the first refusal's error, with the lexer just past the refused token |
| Options.ParseTokens | widgets/options.py:103-187 | a parsed value fits its option kind and consumes only non-flag tokens; a bool option never fails; a multi option fails exactly when one of its placeholders is refused, with the first refusal's error; every error is an unexpected option, `TemplateSyntaxError` or `IndexError` |
| Options.ScalarTokens | widgets/options.py:103-109 | a plain or select option consumes one non-flag token into one placeholder; its errors are an unexpected option or a refused placeholder |
| Options.MultiTokens | widgets/options.py:183-187 | a multi option's value is the placeholders of the non-flag run, and it succeeds exactly when all of them build; otherwise the first refusal's error |
| Options.CheckAll | widgets/options.py:186 | building the placeholders of a list in order succeeds exactly when every one builds; otherwise the outcome is the error of the first refused one |
| Options.RefusedHere | widgets/options.py:185-186 | (proof helper) the loop stops at the first refused text |
| Options.ScalarParse | widgets/options.py:95-109 | a plain or select option fails on a flag; otherwise it takes exactly one token as a placeholder, or fails with the error `Variable` gives for it |
| Options.BoolParse | widgets/options.py:142-143 | a bool option takes `True` and consumes nothing |
| Options.ParseTokensFrom | widgets/options.py:103-187 | the method dispatch on the option kind returns what `ParseTokens` specifies; on success the lexer is where `ParseTokens` leaves it; at a flag it leaves the lexer alone; a refused scalar placeholder leaves it one token on; a refused multi placeholder leaves it just past the refused token |
| Values.Resolve | widgets/options.py:111-113 | `Variable.resolve` gives the context's value for a defined variable and raises `VariableDoesNotExist` naming it exactly when it is undefined |
| Values.Untranslated | widgets/options.py:101 | Django's `Variable` takes off a `_( ... )` translation wrapper (prefix `_(`, suffix `)`) and keeps any other text as it is |
| Values.Segments | widgets/options.py:101 | `split('.')` always gives at least one segment |
| Values.SegmentsJoin | widgets/options.py:101 | joining the segments with dots gives back the text, and no segment holds a dot |
| Values.LaterSegmentPrivate | widgets/options.py:101 | some segment after the first starts with `_` exactly when the text holds `._` |
| Values.DotHead | widgets/options.py:101 | (proof helper) the step of `LaterSegmentPrivate` at a leading dot |
| Values.PlainHead | widgets/options.py:101 | (proof helper) the step of `LaterSegmentPrivate` at any other first character |
| Values.UnderscoreSegment | widgets/options.py:101 | Django's test `var.find('._') > -1 or var[0] == '_'` holds exactly when some dotted segment starts with `_` |
| Values.VariableCheck | widgets/options.py:101 | building `Variable(text)` when the tag is compiled: `IndexError` exactly when the text is empty once the translation wrapper is off; `TemplateSyntaxError` exactly when it is not a quoted literal and some dotted segment starts with `_`; otherwise it builds |
| Options.ResolveAll | widgets/options.py:189-190 | the list comprehension resolves every item, in order and to the same length, and raises for the first undefined item exactly when one is undefined |
| Options.ResolveValue | widgets/options.py:111-113 | it succeeds exactly when every variable of the value is defined; a variable resolves against the context, a literal (`True`) stays itself, a multi value resolves item by item into a list of the same length; the only error is `VariableDoesNotExist` for the first undefined variable |
| Options.ProcessValues | widgets/options.py:23-50 | `Missing arguments` (checked first) for required names not given; then `Unknown arguments` for names no option has; it succeeds exactly when required ⊆ given ⊆ names; the result has one entry per option, the given value or else the default (the last option wins for a repeated name) |
| Options.BuildKeys | widgets/options.py:49-50 | the `Values` dict has exactly the option names as keys |
| Options.BuildEntry | widgets/options.py:49-50 | the last option with a name sets that name's entry to the filtered given value or default |
| Options.BuildEntries | widgets/options.py:49-50 | the entry of every last-of-its-name option, at once |
| Options.DistinctLast | widgets/options.py:49-50 | with distinct names each option is the last, and only, option of its name |
| Options.GetAttr | widgets/options.py:16-20 | `v.name` gives the inherited attribute for a name `dict` or `object` defines (`items`, `keys`, `get`, ...); any other name reaches `__getattr__`, which returns the entry, or raises `KeyError` exactly when the name is absent |
| Options.QueryGet | widgets/options.py:121 | `QueryDict.get` gives the last value of the key, and the default when the key is absent or has no values |
| Options.QueryGetList | widgets/options.py:193 | `getlist` gives every value of the key in order, or an empty list |
| Options.ValueFromQuery | widgets/options.py:119-121 | a bool option reads the name's presence, a multi or list option reads `getlist`, and the others read `get` with their default |
| WidgetTags.StripAs | widgets/templatetags/widget_tags.py:94-99 | a trailing `as uid` is taken off exactly when the second-to-last word is `as`; what is kept plus the suffix gives back the words |
| WidgetTags.WidgetTag | widgets/templatetags/widget_tags.py:85-101 | `TemplateSyntaxError` when there are fewer than two words or the first is not `widget`; then a refused `as` name gives `Variable`'s error; otherwise `IndexError` exactly for `widget as uid`; no other error |
| WidgetTags.TagWordsRead | widgets/templatetags/widget_tags.py:85-101 | an unambiguous call, written out as words, reads back as the same call, unless `Variable` refuses its `as` name, and then fails with that error |
| WidgetTags.TagWordsOfRead | widgets/templatetags/widget_tags.py:85-101 | any tag that reads, written out again, gives the same words |
| WidgetTags.AsWithoutClass | widgets/templatetags/widget_tags.py:94-101 | `{% widget as uid %}` passes the syntax check, fails with `Variable`'s error if `uid` is refused, and otherwise fails on the missing class name |
| WidgetTags.PrivateAsName | widgets/templatetags/widget_tags.py:94-96 | `{% widget app.W as _uid %}` fails with `TemplateSyntaxError`, because a name starting with `_` cannot be a placeholder |
| WidgetTags.Title | widgets/templatetags/widget_tags.py:116 | `title[1:-1]` drops the first and last characters, and is empty for titles shorter than two |
| WidgetTags.IsLiteralString | widgets/templatetags/widget_tags.py:106-107 | a word is a literal exactly when it is non-empty and starts with a double or a single quote |
| WidgetTags.TemplateOf | widgets/templatetags/widget_tags.py:112-115 | the box template is a literal, kept as written, exactly when the word starts with a quote; otherwise it is a placeholder of the same text, or `Variable`'s error when that is refused |
| WidgetTags.BoxWidgetTag | widgets/templatetags/widget_tags.py:112-153 | `TemplateSyntaxError` when there are fewer than four words or the first is not `box_widget`; then a refused `as` name gives `Variable`'s error; then `IndexError` exactly when taking off `as uid` leaves fewer than four words; then a refused template gives its error; otherwise the template, title and class come from words 1 to 3 |
| WidgetTags.BoxTagQuoted | widgets/templatetags/widget_tags.py:112-153 | a box tag with a quoted title, arguments and `as uid` fails with `Variable`'s error for a refused uid, then for a refused template; otherwise it reads as that call, with the title's quotes dropped |
| WidgetTags.Decamel | widgets/templatetags/widget_tags.py:159-162 | every capital gets a space before it, so the result does not start with a capital |
| WidgetTags.DecamelRoundTrip | widgets/templatetags/widget_tags.py:159-162 | removing the space before each capital gives back the input |
| WidgetTags.DecamelLength | widgets/templatetags/widget_tags.py:159-162 | the result is longer by the number of capitals |
| WidgetTags.ResolvedFails | widgets/templatetags/widget_tags.py:65-66 | the resolved dict is built exactly when every passed value resolves; otherwise the error is that of the first pair that does not |
| WidgetTags.ResolvedErrPrefix | widgets/templatetags/widget_tags.py:65-66 | once a prefix of the pairs fails to resolve, the whole generator fails with the same error |
| WidgetTags.ResolvedKeys | widgets/templatetags/widget_tags.py:65-66 | when built, the resolved dict has one key per option name that was passed |
| WidgetTags.LaterFlagWins | widgets/templatetags/widget_tags.py:65-66 | for an option passed several times, the last occurrence's resolved value wins |
| WidgetTags.ResolvePairs | widgets/templatetags/widget_tags.py:65-66 | the generator, run pair by pair, gives what `Resolved` specifies |
| WidgetTags.Uid | widgets/templatetags/widget_tags.py:69-71 | no `as` gives no uid; otherwise the uid is the `as` variable's value, or `VariableDoesNotExist` exactly when it is undefined |
| WidgetTags.FlaggedAreOptions | widgets/templatetags/widget_tags.py:57 | (proof helper) every passed name is the name of one of the widget's options |
| WidgetTags.RenderOnlyMissing | widgets/templatetags/widget_tags.py:63-71 | rendering fails only with `VariableDoesNotExist` or `Missing arguments` (passed values cannot be unknown); an undefined passed variable fails first; when every passed variable resolves, it fails with `Missing arguments` naming exactly the required options not passed, and otherwise succeeds exactly when the uid resolves |
| WidgetTags.RenderedOptionValues | widgets/templatetags/widget_tags.py:63-67 | each passed option renders with the resolved value of its last occurrence |
| WidgetTags.WidgetRenderNode.constructor | widgets/templatetags/widget_tags.py:53-57 | a node holds the widget class, the parsed values and the `as` name |
| WidgetTags.WidgetRenderNode.Render | widgets/templatetags/widget_tags.py:63-79 | `render` returns `Rendering(...)`: the processed options, the resolved values and the uid; its only errors are an undefined variable and missing arguments |
| WidgetTags.NewWidgetRenderNode | widgets/templatetags/widget_tags.py:53-57 | a class lookup error or a parse error is returned; otherwise a fresh valid node holds the found class and the parsed values; the registry changes as `find` changes it |
| WidgetTags.WidgetRenderTag | widgets/templatetags/widget_tags.py:85-101 | a syntax error leaves the registry alone; for a tag that reads, a class lookup error or a parse error is returned, otherwise a fresh valid node holds the class found for its name, its parsed arguments and its `as` name; the registry changes as `find` changes it |
| WidgetTags.BoxedWidget.constructor | widgets/templatetags/widget_tags.py:112-117 | a boxed widget holds its template reference, title and node |
| WidgetTags.BoxWidgetRenderTag | widgets/templatetags/widget_tags.py:138-153 | a tag error leaves the registry alone; for a tag that reads, a class lookup error or a parse error is returned, otherwise a fresh boxed widget holds the template `TemplateOf` reads from word 1, the title of word 2 and a fresh valid node of the class found, with the parsed arguments and the `as` name; the registry changes as `find` changes it |
| Template.StaticParents | widgets/template.py:19 | a parent is followed exactly when it has a static name |
| Template.StaticParentsVariable | widgets/template.py:19 | a variable parent adds nothing to the parents followed |
| Template.Discover | widgets/template.py:8-27 | a template's own widget nodes come first in what discovery returns; running out of recursion fails (what it finds is exactly the nodes of the reachable templates: `DiscoverReaches` and `DiscoverSound`) |
| Template.DiscoverNames | widgets/template.py:20-21 | following no parents finds nothing |
| Template.DiscoverFuel | widgets/template.py:8-27 | once discovery succeeds, a deeper recursion limit gives the same nodes |
| Template.DiscoverNamesFuel | widgets/template.py:16-21 | the same for the parents of a template |
| Template.VariableParentSkipped | widgets/template.py:16-21 | an `extends` with a variable parent changes nothing |
| Template.ExtendsOne | widgets/template.py:15-21 | a template extending one parent yields its own nodes followed by the parent's |
| Template.IncludeOne | widgets/template.py:23-25 | a template including one constant template yields its own nodes followed by the included one's |
| Template.Leaf | widgets/template.py:8-27 | a template without parents or includes yields just its own nodes |
| Template.OccursAt | widgets/template.py:21 | (proof helper) a sequence is a run of anything built around it |
| Template.OccursTrans | widgets/template.py:21 | (proof helper) a run of a run is a run |
| Template.OccursMultiset | widgets/template.py:21 | (proof helper) a run contributes its elements to the multiset |
| Template.DiscoverNamesMember | widgets/template.py:16-25 | every name walked is loaded, and what is found under it is a run of the combined result |
| Template.DiscoverChild | widgets/template.py:16-25 | a successful walk loaded every static parent and constant include, and what is found under each is a run of the result |
| Template.ReachStep | widgets/template.py:16-25 | (proof helper) one step down a chain of parents and includes keeps the run relation |
| Template.DiscoverReaches | widgets/template.py:8-27 | every template reachable through static parents and constant includes is walked within the recursion limit, and what is found under it is a run of the result |
| Template.ReachableWidgetsFound | widgets/template.py:8-27 | the widget nodes of every reachable template are among those found, in order and with their multiplicity |
| Template.DiscoverNamesSound | widgets/template.py:16-25 | a node found under a list of names was found under one of the named templates, which is loaded |
| Template.PathCons | widgets/template.py:16-25 | (proof helper) a parent or include in front of a chain is a chain to the same template |
| Template.DiscoverSound | widgets/template.py:8-27 | every node the walk finds is a widget node of a template reachable through static parents and constant includes |
| Template.DiscoverExactly | widgets/template.py:8-27 | when the walk succeeds, a node is found exactly when it belongs to a reachable template |
| Template.ThreeLevels | widgets/tests.py:151-166 | for C extends B extends A, the nodes of C, then of B, then of A are found |
| Template.AddAll | widgets/template.py:97-99 | adding paths keeps the existing ones first, in order; it holds exactly the old and the added paths; it never creates a duplicate |
| Template.AddAllPresent | widgets/template.py:97-99 | adding paths already present changes nothing |
| Template.AddAllIdempotent | widgets/template.py:97-99 | adding the same paths twice is adding them once |
| Template.AddAllFresh | widgets/template.py:97-99 | adding new distinct paths appends them |
| Template.AddAllAppend | widgets/template.py:97-99 | adding `a` and then `b` is adding `a + b` |
| Template.CssSnoc | widgets/template.py:97-99 | the media of one more node are the earlier media followed by its own |
| Template.Media.constructor | widgets/template.py:96 | a new `Media()` has no CSS and no JS |
| Template.Media.AddCss | widgets/template.py:98 | `add_css` adds the paths not yet there and leaves the JS alone |
| Template.Media.AddJs | widgets/template.py:99 | `add_js` adds the paths not yet there and leaves the CSS alone |
| Template.AddTwice | widgets/template.py:97-99 | adding a list of distinct paths twice over keeps one copy |
| Template.MediaOfPair | widgets/template.py:97-99 | the media of two nodes of one widget are its media twice |
| Template.TwoInstances | widgets/tests.py:103-134 | two instances of a widget with three CSS and three JS files yield each file once, in order |
| Template.NoMediaNoChange | widgets/tests.py:136-145 | widgets without CSS or JS add nothing to either list |
| Template.CollectNodes | widgets/template.py:89-94 | the loop over the template and its variable includes returns `AllNodes` |
| Template.AddNodeMedia | widgets/template.py:97-99 | the loop over the nodes adds every node's CSS and JS, without duplicates |
| Template.NewWidgetTemplateWrapper | widgets/template.py:80-99 | the wrapper holds the template and all discovered nodes; the media (given, or a fresh one) gains every node's media; a discovery error leaves a given media object alone |
| Template.WidgetTemplateWrapper.constructor | widgets/template.py:91-96 | the wrapper holds its template, nodes and media |
| Template.WidgetTemplateWrapper.Render | widgets/template.py:101-106 | rendering sets `widgets` in the context to the wrapper's media and leaves every other entry alone |
| Template.RenderContext.constructor | widgets/template.py:72 | a new context is empty |
| Template.ExtendAppend | widgets/template.py:21 | (proof helper) extending the node list twice is extending it with both lists |
| Views.ComprehensionKeys | widgets/views.py:48-52 | the dict comprehension has a key for exactly the options it keeps |
| Views.ComprehensionEntry | widgets/views.py:48-52 | a kept option whose name no later option reuses has its picked value |
| Views.ComprehensionLast | widgets/views.py:48-52 | the comprehension over one more option adds or overwrites that option's entry |
| Views.QueryToDict | widgets/views.py:29-59 | only option names are keys; every required option and every valid option is present |
| Views.QueryEntry | widgets/views.py:29-59 | with distinct names: an option is present exactly when valid or its default is truthy; a valid option holds what the query gives it, and an invalid one its default |
| Views.NoCatalogue | widgets/views.py:40-46 | without `catalogue` in the query every option is read from it |
| Views.DownloadValuesValid | widgets/views.py:29-59 | the values from a query always pass `process_values` |
| Views.Mimetype | widgets/views.py:64-70 | the format defaults to `svg`, also when `as` has no values; the lookup succeeds exactly for the four known formats, and otherwise raises `KeyError` for the format given |
| Views.FormatsDistinct | widgets/views.py:65-70 | the four formats have four different mimetypes |
| Utils.Join | widgets/utils.py:44-46 | the joined string is at least as long as its first part |
| Utils.Split | widgets/utils.py:71-78 | splitting always gives at least one piece |
| Utils.SplitNone | widgets/utils.py:71-78 | a part without the separator splits to itself |
| Utils.SplitAfter | widgets/utils.py:71-78 | a leading part without the separator splits off before the rest |
| Utils.SplitJoined | widgets/utils.py:71-78 | parts joined by a separator they do not contain split back into those parts |
| Utils.JoinSplit | widgets/utils.py:71-78 | `'&'.join` followed by split on `&` gives back the parts, when no part holds `&` |
| Utils.JoinSnoc | widgets/utils.py:44-46 | joining one more part appends the separator and that part |
| Utils.CollectKeys | widgets/utils.py:31-42 | the dict filled by the loop has a key for exactly the options that produce one |
| Utils.CollectEntry | widgets/utils.py:31-42 | an option whose key no later option sets keeps its entry |
| Utils.CollectSnoc | widgets/utils.py:31-42 | (proof helper) one more loop iteration sets at most one entry |
| Utils.QuotedItems | widgets/utils.py:35-36 | each list item becomes `"escaped item"`, in order |
| Utils.TagArg | widgets/utils.py:34-42 | an option is written exactly when its value is truthy, and with no argument text exactly when the value is `True` |
| Utils.TagArgumentsEntries | widgets/utils.py:30-42 | the `arguments` dict holds exactly the options with a truthy given value, each with its argument text |
| Utils.FillTagArguments | widgets/utils.py:30-42 | the loop fills `arguments` as `TagArguments` specifies |
| Utils.TagEntries | widgets/utils.py:44-46 | each entry is the option's long form, a space and its argument text |
| Utils.TagEntriesOf | widgets/utils.py:44-46 | the list comprehension writes one entry per key, in some enumeration of the dict |
| Utils.OptionsToTagString | widgets/utils.py:24-47 | the tag string is the space-joined entries, for some order of the dict |
| Utils.ScalarArgsEntry | widgets/utils.py:58-69 | with distinct names, a scalar entry is present exactly for a truthy non-list value, holding `""` for `True` and otherwise `str(value)` |
| Utils.ListArgsEntry | widgets/utils.py:58-65 | with distinct names, a list entry is present exactly for a non-empty list value, holding its items |
| Utils.ScalarParts | widgets/utils.py:71-73 | each scalar part is `name=` followed by the quoted value, in the given order |
| Utils.ListPartsSingle | widgets/utils.py:74-78 | one list option gives one `name=quoted item` part per item, in order |
| Utils.ListPartsMembers | widgets/utils.py:74-78 | the list parts are exactly the `name=quoted item` strings for every listed name and every one of its items |
| Utils.FillQueryArguments | widgets/utils.py:56-69 | the loop fills `arguments` and `list_args` as specified |
| Utils.ScalarEntries | widgets/utils.py:71-73 | the comprehension writes one part per scalar key, in some enumeration of the dict |
| Utils.ListEntries | widgets/utils.py:74-78 | the nested comprehension writes the parts of every list key, in some enumeration |
| Utils.OptionsToQueryString | widgets/utils.py:50-80 | the query string is the scalar parts, `&`, and the list parts, for some order of each dict |
| Utils.QueryStringSplit | widgets/utils.py:71-78 | when no part holds `&`, splitting the query string on `&` gives the scalar parts then the list parts (an empty side shows as one empty piece) |
| Utils.NothingToRender | widgets/utils.py:50-80 | with no truthy value the two dicts are empty and the query string is just `&` |
| WidgetRegistry.SetDefaults | widgets/registry.py:57 | `setdefault` adds exactly the offered keys and never changes an existing entry |
| WidgetRegistry.SetDefaultsFirstWins | widgets/registry.py:57 | of several offers of a new key, the first wins |
| WidgetRegistry.SetDefaultsAppend | widgets/registry.py:50-57 | offering `a` then `b` is offering `a + b` |
| WidgetRegistry.AddClassesStep | widgets/registry.py:50-57 | one loop iteration adds the member under `path.Name` if it qualifies and the key is new |
| WidgetRegistry.Qualified | widgets/registry.py:50-55 | the offers are exactly `path.Name` for the qualifying members |
| WidgetRegistry.QualifiedSnoc | widgets/registry.py:50-55 | one more member adds one offer, if it qualifies |
| WidgetRegistry.FirstSegment | widgets/registry.py:81 | `split('.')[0]` is the prefix up to the first dot, and holds no dot |
| WidgetRegistry.FirstSegmentOf | widgets/registry.py:81 | the app of `app.rest` is `app` |
| WidgetRegistry.AddedKeyApp | widgets/registry.py:46-55 | every key `_add_classes` adds for an app is grouped under that app |
| WidgetRegistry.GroupedByFirstSegment | widgets/registry.py:77-83 | `widgets_by_app` has a key for exactly the apps of the registered names, each holding that app's widgets in iteration order |
| WidgetRegistry.GroupOfNone | widgets/registry.py:77-83 | an app with no registered name has no widgets |
| WidgetRegistry.GroupOfSize | widgets/registry.py:77-83 | an app holds one widget per registered name of that app |
| WidgetRegistry.NamesOfSnoc | widgets/registry.py:80-82 | (proof helper) one more key adds itself to its app's names |
| WidgetRegistry.DiscoverAppsKeeps | widgets/registry.py:111-125 | autodiscovery of apps never removes or changes an entry that was already registered |
| WidgetRegistry.FailedAppsLeaveNothing | widgets/registry.py:114-119 | every entry afterwards was there before or was offered by an app whose registration went through; a failed app is rolled back |
| WidgetRegistry.AsWrittenAgreesWhenMainImports | widgets/registry.py:128-131 | when the main widgets package imports, the code as written and the corrected one agree |
| WidgetRegistry.AsWrittenRestoresStaleSnapshot | widgets/registry.py:128-134 | when it does not import, the code as written restores the registry from before the last app, while the corrected one keeps what the apps added |
| WidgetRegistry.StaleSnapshotExample | widgets/registry.py:128-134 | `autodiscover('gidgits')` with one app whose `app.gidgits` registers `W` and no top-level `gidgits` package: as written the registry ends empty, corrected it keeps `W` |
| WidgetRegistry.NoAppsExample | widgets/registry.py:128-134 | with no apps and no main package the code as written raises `NameError`, the corrected one passes |
| WidgetRegistry.Registry.constructor | widgets/registry.py:33-34 | a new registry is empty |
| WidgetRegistry.Registry.RegisterByQualifiedName | widgets/registry.py:36-40 | a known name changes nothing; otherwise the loaded class is added, or the load error returned with nothing changed |
| WidgetRegistry.Registry.AddClasses | widgets/registry.py:42-57 | the `options` module is skipped; an import error changes nothing; otherwise the qualifying members are `setdefault`ed under `app.noun[.modnm].Name` |
| WidgetRegistry.Registry.WidgetsByApp | widgets/registry.py:77-83 | the result is the grouping by first segment, for some iteration order of the registry |
| WidgetRegistry.Registry.Find | widgets/registry.py:85-92 | a registered class is returned without change; otherwise it is loaded and registered, or the load error returned; a found class is then registered under its name |
| WidgetRegistry.Registry.Autodiscover | widgets/registry.py:99-134 | the registry and outcome are those of `Discovered`: every app in turn with rollback on failure, then the main package |

## Left out

- ForeignKey and queryset options (`_QueryOptionMixin` and the model lookups in `get_raw_value`): they need the Django ORM. `get_raw_value` is treated as the identity, which it is for every other kind.
- `form_field` of every option kind: it renders Django form HTML.
- `options_to_command_string`, and the glue in `widgets/base.py` (`_render_wrapper`, `uid`, the query string handed to it): `widgets/base.py` is not part of this model. `WidgetTags.WidgetRenderNode.Render` stops at the values it would hand over.
- `BoxedWidget.render`, the node's `media` property and `render_head`: they load and render templates.
- `render_to_response`, the HTTP responses and the date-stamped file name of the download view: they are I/O.
- `SelectOption.choices`: it only feeds `form_field`.
- Logging calls.
- Template loading: a template is a `TemplateTree` with its widget nodes, its `extends` parents (`""` for a variable parent) and its constant includes. The loader is a map.
- Template variable resolution: `Resolve` on an abstract `Context`, a lookup that may find no value. Django's own rules (dotted lookups, literals, filters) sit inside that lookup.
- `escape`, `urllib.quote` and `str()`: parameters.
- Module scanning (`pkgutil.iter_modules`, `inspect.getmembers`, `import_module`): it is abstracted into an `Environment` that says which apps import and what each offers.
- Template.Discover: the Python recursion limit is a fuel parameter. Running out is `Err(RecursionLimit)`, so a cyclic `extends` chain is not modelled as a crash.
- Template.Media.AddCss: Django keeps CSS per medium (`{'all': [...]}`). The model keeps one flat list of paths.
- Lexer.OptionLexer.TokenIsOption: it is a one-line property and has no contract of its own. Its meaning is `IsFlag` of the current token, which the parser lemmas use.
- Lexer.OptionLexer.constructor: Python expands the tokens lazily in a generator. The model expands them when the lexer is built. The sequence handed out by `consume` is the same.
- WidgetTags.WidgetRenderNode.Render: the query string built by `options_to_query_string` is not part of the result; the uid is.
- Lexer.IsSpace: the six ASCII whitespace characters that Python 2's `str.strip()` removes. A `unicode` token would also lose U+0085, U+00A0, U+2028 and the other Unicode spaces; the model does not strip those.
- Utils.TagArguments: Python keys the `arguments` dict by the option object, so two distinct options with equal fields are two entries. The model keys by the option's value, so they are one.
- Utils.OptionsToTagString, Utils.OptionsToQueryString and WidgetRegistry.Registry.WidgetsByApp: the dict order is stated as some enumeration of the keys, not as CPython's hash order.

## Findings

| source | as written | input that shows it | evidently intended | confidence | as-written member | corrected member |
|---|---|---|---|---|---|---|
| widgets/registry.py:128-134 | when `import_module(widget_noun)` fails, the `except` branch restores `before_import_register`, which still holds the snapshot taken before the last app registered | `autodiscover('gidgits')` with `INSTALLED_APPS = ['app']`, where `app.gidgits` defines `W`, and no top-level `gidgits` package: the registry ends empty. With no installed apps the branch raises `NameError` | a failed import of the main package leaves the registry as the apps left it | not executed | WidgetRegistry.StaleSnapshotExample | WidgetRegistry.Registry.Autodiscover |
