# CANopen C-file generator core, in Dafny

A model of `src/generators_common.py` of the custom object-dictionary
generators: the shared core that turns a CANopen node description into the
context a C-file generator renders from. It covers:

- **the type resolver** (`CFileContext.get_valid_type_infos`). It turns a
  CANopen basic data-type name (`UNSIGNEDn`, `INTEGERn`, `REALn`,
  `VISIBLE_STRING`, `OCTET_STRING`, `DOMAIN`, `BOOLEAN`, as in section 7.1 of
  CiA 301) into a `TypeInfos` record and memoises it in the context's type
  cache;
- **the name sanitiser** (`format_name`). It keeps the `[A-Za-z0-9_]` runs of
  a display name and joins them with `_`;
- **the literal formatter** (`compute_value`). It renders a dictionary value
  as C literal text plus a comment;
- **the C type map** (`convert_from_canopen_to_c_type`);
- **the context set-up** (`setup_c_file_context`). It fills the metadata map
  and splits the node's indexes into bands. It also builds the value-range
  table: a `#define` and a `switch` case per object-dictionary entry whose name
  has the range form `TYPE[min-max]`, checking a value against the entry's
  bounds.

Layout, one module per file:

| file | module | what it holds |
|---|---|---|
| `wrappers.dfy` | `Wrappers` | `Option`, `Result` |
| `strings.dfy` | `Strings` | character classes, the greedy run `Span` behind the regular expressions, decimal and hexadecimal digits |
| `types.dfy` | `Types` | `TypeInfos`, dictionary values, metadata values, the error values |
| `type_resolver.dfy` | `TypeResolver` | the type-name split, `Resolve` (the resolver as a function of the cache), a lemma per type family |
| `context.dfy` | `Context` | the template formatting behind `%=`, the classes `CFileContext` and `Text` |
| `name_formatter.dfy` | `NameFormatter` | `format_name` |
| `value_formatter.dfy` | `ValueFormatter` | `compute_value` |
| `ctypes.dfy` | `CTypes` | `convert_from_canopen_to_c_type` |
| `range_table.dfy` | `RangeTable` | the node input, the index bands, the range matcher, the walk over the range band and `SetupCFileContext` |

The source changes state in three places, and the model keeps those parts imperative:

- `CFileContext` and `Text` are classes whose methods update their fields.
- `GetValidTypeInfos` writes the cache, and its size scans are loops.
- `SetupCFileContext` is a loop over the range band. It carries the counter,
  appends to the two text accumulators and writes the type cache.

Each of these methods is proved against a specification function:

- `Resolve` for the cache;
- `ValueRanges`, the walk over the band as a fold of `RangeStep`;
- `TableText` for the generated text.

The lemmas state what the source promises about those functions.

Where the code and its description disagree, the model follows the code:

- an integer's comment is `\t/* v */`, with a leading tab;
- the index bands keep the order of the node's index list and are not sorted;
- `__copy__` copies the data and the type cache but not
  `default_string_size`, so a copy has the class default of 10.

Failures the source signals by raising (a `ValueError`, a failed `assert
isinstance`) are `Failure` results. A failure ends `SetupCFileContext` with no
result.

## Model

| member | source | states |
|---|---|---|
| Strings.Span | src/generators_common.py:10-11 | the length a greedy `[class]*` consumes: every character before it is in the class, the next one is not |
| Strings.SpanOf | src/generators_common.py:10-11 | a run of the class followed by a character outside it (or the end) is exactly what the greedy run consumes |
| Strings.DigitsRoundTrip | src/generators_common.py:165-166 | the digits printed for `n` in base 10 or 16 read back to `n` |
| Strings.DecimalRoundTrip | src/generators_common.py:165-166 | `str(v)` of any integer, negative ones included, reads back to `v` |
| Strings.DigitsCase | src/generators_common.py:157 | the digits of `{n:X}` are all in `[0-9A-F]` and those of `{n:x}` all in `[0-9a-f]` |
| Strings.Hex2 | src/generators_common.py:248 | `{n:02X}` / `{n:02x}` has at least two digits in the requested case and reads back to `n`; it starts with `0` only when it is the single padding zero of a value below 16 |
| TypeResolver.SplitTypeName | src/generators_common.py:110 | the two groups of the type pattern are a `[_A-Z]` run and a digit run that together form a prefix of the name |
| TypeResolver.SplitTypeNameOf | src/generators_common.py:10 | the split is the maximal one: a name written as such runs plus a rest neither run could absorb splits into exactly those runs |
| TypeResolver.Classify | src/generators_common.py:109-137 | the uncached branch fails only with the invalid-type error; a record carries a size exactly when its kind is `visible_string` or `domain`, and is unsigned exactly when the name's prefix is `UNSIGNED` |
| TypeResolver.ClassifyParts | src/generators_common.py:115-137 | the same for the `elif` chain on the two groups of the pattern |
| TypeResolver.LongestItem | src/generators_common.py:122-124 | the scanned size is at least the start value and every item's length, and is one of them |
| TypeResolver.Resolve | src/generators_common.py:101-142 | a cached name returns its record with the cache unchanged; otherwise the cache gains the name exactly when the kind is not `visible_string`/`domain`, no existing key changes, and the only failure is the invalid-type error |
| TypeResolver.ResolveIdempotent | src/generators_common.py:105-107 | resolving a cacheable name again, with any items, returns the same record and leaves the cache alone |
| TypeResolver.UnsignedNames | src/generators_common.py:115-116 | `UNSIGNEDn` resolves exactly when n is 8, 16, ..., 64, to `("UNSn", None, "uintn", unsigned)` |
| TypeResolver.IntegerNames | src/generators_common.py:117-118 | `INTEGERn` resolves exactly when n is 8, 16, ..., 64, to `("INTEGERn", None, "intn", not unsigned)` |
| TypeResolver.RealNames | src/generators_common.py:119-120 | `REALn` resolves exactly when n is 32 or 64, to `("REALn", None, "realn", not unsigned)` |
| TypeResolver.NumericPrefixWithoutWidth | src/generators_common.py:115-120 | `UNSIGNED`, `INTEGER` or `REAL` with no width fails, as `int("")` does |
| TypeResolver.StringNames | src/generators_common.py:121-127 | `VISIBLE_STRING`/`OCTET_STRING` give UNS8 of size max(default size, longest item, explicit width if any), kind `visible_string`, cache unchanged |
| TypeResolver.DomainNames | src/generators_common.py:128-132 | `DOMAIN` gives UNS8 of size max(0, longest item), kind `domain`, cache unchanged |
| TypeResolver.BooleanNames | src/generators_common.py:133-134 | `BOOLEAN` gives `("UNS8", None, "boolean", not unsigned)` and caches it under the name |
| TypeResolver.OtherNamesFail | src/generators_common.py:135-137 | every other prefix fails with the invalid-type error |
| Context.FormatTemplate | src/generators_common.py:62-65 | formatting fails only on a malformed template or on a field whose key is absent from the context, naming that key |
| Context.FormatPlain | src/generators_common.py:62-65 | text without braces is copied by the formatting |
| Context.FormatField | src/generators_common.py:62-65 | a `{key}` keyword field is replaced by the text of the context's value for that key |
| Context.FormatOneField | src/generators_common.py:264 | plain text, one field, plain text and `{{` format to the surrounding texts, the field's value and one brace |
| Context.HeaderFormats | src/generators_common.py:264 | the header template formats to the header with the node name substituted and `{{` turned into `{` |
| Context.CFileContext.constructor | src/generators_common.py:78-80 | a new context holds the given data, an empty type cache and the default string size 10 |
| Context.CFileContext.SetItem | src/generators_common.py:198-203 | storing a metadata key changes that key only |
| Context.CFileContext.Copy | src/generators_common.py:86-89 | the copy is a new context with equal data and type cache, and the class-default string size |
| Context.CFileContext.NewText | src/generators_common.py:92-94 | a new accumulator holding the given text over this context |
| Context.CFileContext.GetValidTypeInfos | src/generators_common.py:101-142 | returns what `Resolve` returns for the current cache and leaves the cache as `Resolve` does; a failure leaves it unchanged |
| Context.LongestOf | src/generators_common.py:122-124 | the size loop computes `LongestItem` |
| Context.Text.constructor | src/generators_common.py:49-51 | the accumulator holds the given text and context |
| Context.Text.Append | src/generators_common.py:53-56 | `+=` appends the string to the text |
| Context.Text.Plus | src/generators_common.py:58-60 | `+` gives a new accumulator over the same context holding the concatenation, and leaves this one alone |
| Context.Text.AppendFormatted | src/generators_common.py:62-65 | `%=` appends the template formatted with the context's data, and fails with the text unchanged when the template does not format |
| NameFormatter.Words | src/generators_common.py:146 | every word found is a non-empty run of `[A-Za-z0-9_]` |
| NameFormatter.WordsKeepWordChars | src/generators_common.py:146 | the words, concatenated, are exactly the input's word characters in order |
| NameFormatter.WordsOfWord | src/generators_common.py:146 | a run of word characters is its own only word |
| NameFormatter.WordsStep | src/generators_common.py:146 | a word followed by a separator is the first word, and the rest of the input gives the remaining words |
| NameFormatter.WordsSkip | src/generators_common.py:146 | a separator in front of the input adds no word, so with `WordsStep` and `WordsOfWord` the words of every input are fixed |
| NameFormatter.WordsStepTwo | src/generators_common.py:146 | a word followed by two separators is the first word, and the rest of the input gives the remaining words |
| NameFormatter.AdjacentSeparators | src/generators_common.py:146-147 | two separators in a row split like one: `a`, two separators, `b`, a separator, `c` gives the words `a`, `b`, `c` |
| NameFormatter.Join | src/generators_common.py:147 | `sep.join(ws)` of a non-empty list is as long as its words together plus one separator between each two |
| NameFormatter.FormatName | src/generators_common.py:144-147 | the result holds only `[A-Za-z0-9_]`, and is empty exactly when the name has no word character |
| NameFormatter.FormatNameIdempotent | src/generators_common.py:144-147 | formatting a formatted name changes nothing |
| NameFormatter.FormatNameExample | src/generators_common.py:144-147 | `Comm Object 1!` becomes `Comm_Object_1` |
| ValueFormatter.ComputeValue | src/generators_common.py:150-166 | fails exactly for a non-string under `domain` (not text) and for a non-integer under an integer kind (not integral); a successful literal has a comment exactly under an integer kind |
| ValueFormatter.IntegerLiteral | src/generators_common.py:161-166 | under an integer kind an integer becomes `0x` (or `-0x` for a negative value) followed by upper-case hexadecimal digits without a leading zero whose value is the magnitude, so the literal reads back to the value; the comment is `\t/* v */` |
| ValueFormatter.NonIntegerFails | src/generators_common.py:161-162 | under an integer kind a string or a real value fails |
| ValueFormatter.DomainEscapes | src/generators_common.py:157 | for characters below 256, the i-th four characters of the escaped text are a backslash, `x` and two lower-case hexadecimal digits giving the i-th character's code |
| ValueFormatter.DomainRoundTrip | src/generators_common.py:157 | each byte-sized character becomes a four-character escape, and the escapes read back to the text |
| ValueFormatter.QuotedKinds | src/generators_common.py:152-158 | a `domain` string is its escapes between two `"`, with no comment, and a non-string fails; a `visible_string` value is its text in quotes, with no comment |
| CTypes.ConvertFromCanopenToCType | src/generators_common.py:168-191 | the result is one of the table's C types or `dummy` |
| CTypes.CTypeTable | src/generators_common.py:168-191 | the 40/48/56/64-bit keys give the 64-bit C types, `boolean`/`real32`/`real64` give `bool`/`float`/`double`, and exactly the keys outside the table (24-bit ones included) give `dummy` |
| CTypes.IntegerTagCType | src/generators_common.py:173-186 | an integer key `uintn`/`intn` of a width the resolver accepts has a C type exactly when n is not 24 |
| CTypes.TagCType | src/generators_common.py:173-186 | the same, for the width's decimal digits |
| CTypes.ResolvedIntegerCTypes | src/generators_common.py:115-118 | every integer type the resolver accepts resolves, and its kind has no C type exactly when it is 24-bit |
| RangeTable.Band | src/generators_common.py:208-211 | a band holds exactly the node's indexes within its bounds |
| RangeTable.BandAppend | src/generators_common.py:208-211 | a band of a concatenation is the concatenation of the bands, so a band keeps the order of the index list |
| RangeTable.BandOfBand | src/generators_common.py:209-211 | a band taken out of a band is the band of the intersected bounds |
| RangeTable.ListsWithinListIndex | src/generators_common.py:209-211 | the communication and variable lists are the bands of `listindex` over their bounds, in the same order |
| RangeTable.Metadata | src/generators_common.py:198-203 | the six metadata keys; `NodeName`, `NodeID` and `NodeType` hold the node's name, id and type, `maxPDOtransmit` is 0; `Description` holds the node's description, or `""` when it has none; `iam_a_slave` is 1 exactly for a `slave` node and 0 otherwise |
| RangeTable.MatchesRangeExactly | src/generators_common.py:11 | the matcher accepts exactly the names that start with a `[_A-Z]` run, a digit run, `[`, a `[-0-9]` run holding a `-`, and `]` |
| RangeTable.RangeNameExample | src/generators_common.py:230 | `UNS8[0-100]` is a range name |
| RangeTable.RangeStep | src/generators_common.py:229-246 | an entry whose name does not match is skipped, leaving the state as it was |
| RangeTable.StepAdvances | src/generators_common.py:232-246 | a successful step on a matching entry appends one case numbered after the earlier ones whose base type is what the entry's type index resolves to and whose bounds are the entry's sub-index 2 and 3 integers, registers its pseudo-type under the entry's name and keeps the other cache entries |
| RangeTable.StepFails | src/generators_common.py:233-246 | a matching entry fails exactly when one of its fields is not well formed, with the error of the first such field: a non-integer type index, a type index without a type name, a type name that does not resolve, a non-integer low or high bound |
| RangeTable.BuildRanges | src/generators_common.py:228-246 | the walk fails only at a matching entry, and a band without one leaves the state as it is |
| RangeTable.ValueRanges | src/generators_common.py:208-246 | the same for the node's range band from the state with only the EMC type |
| RangeTable.BuildRangesSucceeds | src/generators_common.py:228-246 | the walk succeeds whenever every matching entry of the band is well formed against the cache it starts from |
| RangeTable.WellFormedGrows | src/generators_common.py:105-107 | a well-formed range entry stays well formed when the type cache gains names |
| RangeTable.SingleRangeWalk | src/generators_common.py:226-246 | a range band of one well-formed matching entry gives exactly its case numbered 1, and a cache that adds its `valueRange_1` pseudo-type to the resolved one |
| RangeTable.OneRangeWalk | src/generators_common.py:226-246 | a node whose one entry `UNS8[0-100]` at 0x10 has type UNSIGNED8 and bounds 0 and 100 gives the single case of base UNS8, unsigned, with those bounds |
| RangeTable.OneRangeText | src/generators_common.py:247-261 | that case defines `valueRange_1` as `0x10` with its type and bounds, leaves the low check out as unsigned with minimum 0, and checks the value against 100 |
| RangeTable.TableOfOne | src/generators_common.py:263-267 | the table of one case is the EMC define, its define, the header, the switch with the EMC case and its case block, and the function's end |
| RangeTable.WalkStops | src/generators_common.py:236-246 | a failing step ends the walk with its error |
| RangeTable.BuildRangesCases | src/generators_common.py:227-232 | the walk appends one case per matching index, in band order, numbered on from the earlier cases |
| RangeTable.ValueRangeNumbering | src/generators_common.py:227-246 | the table's cases are numbered 1, 2, ... and are exactly the matching range-band indexes in band order, each carrying its entry's name and its entry's integer type index and bounds |
| RangeTable.AdvancesRegisters | src/generators_common.py:239-241 | a step keeps every registration and every non-range cache entry |
| RangeTable.BuildRangesRegisters | src/generators_common.py:228-241 | the walk keeps every registration and every non-range cache entry |
| RangeTable.PseudoTypesRegistered | src/generators_common.py:226-241 | after the walk `valueRange_EMC` is still the pre-registered type, and each case not renamed by a later one has `valueRange_N` with its base type's storage type, size and signedness under its name |
| RangeTable.EmcIsNoRange | src/generators_common.py:226-230 | the pre-registered name is not a range name |
| RangeTable.RegisteredNamesResolve | src/generators_common.py:105-107 | after the walk, resolving `valueRange_EMC` or a registered range name, with any items, returns the stored record with the cache unchanged |
| RangeTable.CaseChecks | src/generators_common.py:252-260 | a case has two checks: the low check, left out exactly for an unsigned type with a minimum of at most 0, then the high check on the maximum |
| RangeTable.CaseChecksExact | src/generators_common.py:252-260 | for every value of the base type, the case's checks reject exactly the values below the minimum or above the maximum, so leaving out the low check for an unsigned type with minimum at most 0 loses nothing |
| RangeTable.StepMatched | src/generators_common.py:233-246 | a matching entry with integer fields and a resolvable base type gives the next state: the case appended and its pseudo-type registered |
| RangeTable.RegisterRange | src/generators_common.py:233-246 | the registration part of an iteration leaves the cache and the case as `RangeStep` describes, or fails with its error |
| RangeTable.AppendDefine | src/generators_common.py:247-250 | each match appends exactly its `#define valueRange_N 0x<index:02X>` line |
| RangeTable.AppendCase | src/generators_common.py:251-261 | each match appends exactly its case block: the head, the low check or the note that it is left out, the high check, `break` |
| RangeTable.NewNodeContext | src/generators_common.py:196-205 | the new context holds the node's metadata, an empty cache and the node's default string size |
| RangeTable.AssembleValueRanges | src/generators_common.py:263-267 | the value-range text is the defines, the formatted header, the switch with the EMC case and the range cases, and the function's end |
| RangeTable.SetupCFileContext | src/generators_common.py:193-269 | fails exactly when the range walk fails, with its error; otherwise returns new objects holding the metadata, the cache the walk ends with, the three index bands and the full value-range text |

## Left out

- `src/od_integer.h` and `src/od_value.h` are not part of this model. They are value holders with no decision logic.
- The `real` branch of `compute_value` keeps the value's text as given, because Python's float-to-text conversion is not modelled.
- `Text.__imod__` models only doubled braces and keyword fields whose names are runs of `[A-Za-z0-9_]` that are not all digits. Any other field is a bad template, even where `str.format` would accept it with the key present: a name such as `a-b` or `Node Name`, a format specification, a positional field, attribute or index access.
- `CFileContext.ftext` is not modelled: it formats general templates, and this file never calls it.
- The `UserDict` base and the attribute lookup `__getattr__` of `CFileContext` are not modelled. The data is an explicit map field.
- `NodeProtocol` is an input value: the node's index list, entry names, entry values and type names as maps. The node object's own behaviour is not part of this model. Its `Valid` asks for an entry name only at the indexes of the range band (0 to 0x260), the only names the set-up reads.
- A missing entry value, or a value that is not an integer where the source asserts one, is a failure naming the index and sub-index.
- A type index with no type name is a failure too. The source would instead fail later, inside the regular-expression match.
- Python's booleans counting as integers is not modelled: a dictionary value is an integer, a string or a real.
- The text of the `!!!` error message is not modelled; the failure carries the type name.
- The branch for a failed type-pattern match is not modelled: the pattern also matches the empty string, so that branch cannot be taken.
- The unused constants `CATEGORIES`, `INDEX_CATEGORIES`, `RE_STARTS_WITH_DIGIT` and `RE_NOTW` are not modelled.
- ValueFormatter.DomainRoundTrip and ValueFormatter.DomainEscapes: stated only for characters below 256. A wider character's escape has more than two hexadecimal digits and does not read back with fixed-width parsing.
- RangeTable.RangeStep: its own contract states only the skip of a non-matching entry. For a matching entry, `StepFails` states when and with which error the step fails, and `StepAdvances` and `StepMatched` state the state a successful step gives.
