# JSON tools and container healthcheck, modelled in Dafny

This project models the two pieces of behaviour at the core of the
tooltility application:

- the JSON tools of `app/src/tools/json_tools.py`: `deserialize_json`,
  which turns a decode error into a `ValueError` naming its line and column;
  `format_json`, which writes the value again with `json.dumps` (compact or
  indented by `n` spaces, keys optionally sorted at every depth, non-ASCII
  kept literal); `convert_json_to_yaml`, which writes the value with
  PyYAML's block emitter without sorting and strips the `...` end marker;
  and `convert_json_to_csv`, which turns a list of records into a CSV table
  through pandas and reduces every pandas failure to one fixed message;
- the container healthcheck of `app/src/healthcheck.py`: the argument
  check, the choice between `status` and `getcode()`, the 2xx range test
  and the stream, message and exit code for each outcome.

The library calls are modelled by what they produce. `json.loads` is an
input (`JsonTools.ParseOutcome`: the decoded value, the decoder's
message, line and column, or any other exception it raised). `json.dumps`, `yaml.dump` and
`DataFrame.to_csv` are written out as functions on a JSON value datatype
(`JsonValue.Json`, sections 3 to 7 of RFC 8259: ordered members with unique
keys, exact integers, and every other number carried as the text `repr`
gives its float). Each writer has a reader as its partner, and the main
lemmas are round trips: reading the output gives back the value
(`JsonDecode.ReadDumps`, `YamlEmit.ReadToYaml`, `CsvEmit.CsvRoundTrip`). The
healthcheck request is an input too (`Healthcheck.Probe`), and the command's
effect is an `Exit` value holding the exit code and the text of the two
streams.

Modules, one per file: `Results` (Option and Result), `Strings`
(concatenation, split and join), `Decimal` (`str(int)` and its reader),
`JsonValue`, `JsonString` (string escapes), `KeyOrder` (`sort_keys`),
`JsonEncode` (`json.dumps`), `JsonLayout` (the layout line by line, indented and
compact), `JsonDecode` (a reader for the encoder's output), `YamlEmit`,
`CsvEmit`, `JsonTools` (the four tools), `ToolExamples` (the unit tests'
cases), `Healthcheck`.

## Model

| member | source | states |
|---|---|---|
| JsonTools.Deserialize | app/src/tools/json_tools.py:20-28 | A decoded value is returned as it is. A decode error becomes a `ValueError`, and line, column and decoder message can be read back from its text. Any other exception of `json.loads` is passed on as it was raised. |
| JsonTools.RaisedPassesThrough | app/src/tools/json_tools.py:20-28 | An exception of `json.loads` other than a decode error leaves all three tools unchanged; the CSV tool does not replace it with its own message, since decoding happens before its `try`. |
| JsonTools.DecodeErrorMessage | app/src/tools/json_tools.py:26 | The text of the decode error. It has no contract of its own; `JsonTools.DecodeErrorMessageRoundTrip` states that line, column and message read back from it. |
| JsonTools.DecodeErrorMessageRoundTrip | app/src/tools/json_tools.py:26 | The text `Invalid JSON at line L, column C: msg` determines L, C and msg. |
| JsonTools.FormatJson | app/src/tools/json_tools.py:46-49 | Fails exactly when decoding failed, with the same error. Otherwise the text reads back as the input value, or as the value with its keys sorted at every depth when `sort_keys` is set. |
| JsonTools.FormatIdempotent | app/src/tools/json_tools.py:46-49 | Formatting the output again with the same options gives the same text. |
| JsonTools.CanonicalUnchanged | app/tests/unit_tests/tools/test_json_tools.py:67-84 | A text that is already the sorted two-space layout of its value is returned unchanged by `indent_spaces=2, sort_keys=True`. |
| JsonTools.ConvertJsonToYaml | app/src/tools/json_tools.py:63-64 | Fails exactly when decoding failed, with the same error. Otherwise the YAML reads back as the value with floats in YAML's spelling, and as the value itself, key order included, when it holds no float. |
| JsonTools.ConvertJsonToCsv | app/src/tools/json_tools.py:81-89 | Every decoding failure, decode error or other exception, passes through unchanged. A list of flat records gives a CSV text that reads back as the header and one row per record. A shape pandas refuses gives exactly `Invalid JSON for CSV conversion`. |
| JsonTools.CsvErrorIsNotDecodeError | app/src/tools/json_tools.py:86-88 | The CSV refusal text never reads as a decode-error message. |
| JsonEncode.LayoutOf | app/src/tools/json_tools.py:47-49 | No indent means the compact layout. A non-negative indent `n` means the layout indented by `n`. A negative indent lays out like 0, as Python's `' ' * indent` gives no spaces. |
| JsonEncode.Dumps | app/src/tools/json_tools.py:47-49 | The `json.dumps` call: the value, deep-sorted when `sort_keys` is set, encoded in the layout of the indent. It has no contract of its own; `JsonDecode.ReadDumps`, `JsonEncode.CompactIsOneLine`, `JsonEncode.SortKeysOnlyReorders`, `JsonLayout.IndentedOutputLines` and `JsonLayout.CompactDumpsFlat` state what it writes. |
| JsonEncode.CompactIsOneLine | app/src/tools/json_tools.py:47-49 | Without an indent the output holds no line break. |
| JsonEncode.AtomicIgnoresOptions | app/tests/unit_tests/tools/test_json_tools.py:67-84 | Scalars, `[]` and `{}` are written the same under every indent and `sort_keys` setting. |
| JsonEncode.SortKeysOnlyReorders | app/src/tools/json_tools.py:47-49 | With `sort_keys`, the output is the unsorted output of a value that differs from the input only in key order and is sorted at every depth. |
| JsonDecode.ReadDumps | app/src/tools/json_tools.py:47-49 | Reading `json.dumps` output gives back the value: array order and key order are kept, or keys are sorted when `sort_keys` is set. |
| JsonDecode.ReadEncoded | app/src/tools/json_tools.py:47-49 | In either layout, at any depth, the encoded value reads back, whatever non-number text follows it. |
| JsonDecode.EscapeCharRead | app/src/tools/json_tools.py:48 | Every escape the encoder writes reads back as the character it stands for. |
| JsonString.EscapeChar | app/src/tools/json_tools.py:48 | Only `"`, `\` and control characters are escaped; every other character, non-ASCII included, is written as itself. No control character is ever written. |
| JsonString.Escape | app/src/tools/json_tools.py:48 | A string without characters that must be escaped is written literally. The output never holds a control character. |
| JsonLayout.IndentedOutputLines | app/tests/unit_tests/tools/test_json_tools.py:36-59 | With indent `n`, output line `i` is `n * depth` spaces followed by line `i` of the layout: one line per scalar, element or member, commas at line ends, closing brackets at the parent's depth. |
| JsonLayout.CompactIsFlatLines | app/src/tools/json_tools.py:47-49 | Without an indent, the encoder writes the same layout lines as the indented one, run together on one line: a space after every line-ending comma, so `", "` between elements and members, `": "` after each key, and nothing after an opening or before a closing bracket. |
| JsonLayout.CompactDumpsFlat | app/tests/unit_tests/tools/test_json_tools.py:24-35 | `json.dumps` with no indent writes the layout lines of the value, key-sorted when `sort_keys` is set, run together that way. |
| KeyOrder.SortMembers | app/src/tools/json_tools.py:47-49 | Sorting members is a permutation. |
| KeyOrder.SortDeep | app/src/tools/json_tools.py:47-49 | What `sort_keys=True` does to the value: it keeps scalars scalar and containers containers. `KeyOrder.SortDeepValid`, `KeyOrder.SortDeepOnlyReorders` and `KeyOrder.SortDeepIdempotent` state the rest. |
| KeyOrder.SortMembersAscending | app/src/tools/json_tools.py:47-49 | Sorted members with unique keys are in strictly ascending code-point order. |
| KeyOrder.SortMembersOfAscending | app/src/tools/json_tools.py:47-49 | Members already in ascending order are left as they are. |
| KeyOrder.LexLessTotal | app/src/tools/json_tools.py:47-49 | Any two different keys are ordered one way or the other. |
| KeyOrder.SortDeepValid | app/src/tools/json_tools.py:47-49 | Sorting at every depth keeps the value valid and leaves every object sorted. |
| KeyOrder.SortDeepOnlyReorders | app/src/tools/json_tools.py:47-49 | Sorting at every depth changes only the order of keys: each object keeps the same number of members, and each member is found under its key with a matching value. |
| KeyOrder.SortDeepIdempotent | app/tests/unit_tests/tools/test_json_tools.py:67-84 | Sorting an already sorted value changes nothing. |
| KeyOrder.SortDeepOfSorted | app/tests/unit_tests/tools/test_json_tools.py:67-84 | A value sorted at every depth is its own sorted form. |
| YamlEmit.ReadToYaml | app/src/tools/json_tools.py:64 | Reading the YAML text gives back the value, with floats in the spelling PyYAML gives them. |
| YamlEmit.ToYamlKeepsOrder | app/src/tools/json_tools.py:64 | Without floats, reading the YAML text gives back the value itself, so key order is kept and nothing is sorted. |
| YamlEmit.NormalOfFloatFree | app/src/tools/json_tools.py:64 | Only floats are respelt in YAML. |
| YamlEmit.Dump | app/src/tools/json_tools.py:64 | `yaml.dump(data, sort_keys=False)`, including the `...` line after a scalar root. It has no contract of its own; `YamlEmit.ReadToYaml` states what it writes. |
| YamlEmit.ToYaml | app/src/tools/json_tools.py:64 | `yaml.dump(...)` with the `"...\n"` suffix removed. It has no contract of its own; `YamlEmit.ReadToYaml`, `YamlEmit.ToYamlKeepsOrder` and `ToolExamples.YamlAtomic` state what it writes. |
| CsvEmit.Dedup | app/src/tools/json_tools.py:84 | The column list has no repeats and holds exactly the keys met. |
| CsvEmit.DedupOrder | app/src/tools/json_tools.py:84 | Columns come in the order their keys are first met. |
| CsvEmit.ColumnsAreKeys | app/src/tools/json_tools.py:84 | A column is exactly a key of some record. |
| CsvEmit.Columns | app/src/tools/json_tools.py:84 | The DataFrame's columns have no repeats and are exactly the keys of the records. |
| CsvEmit.Lookup | app/src/tools/json_tools.py:84-85 | Looking up a column gives nothing exactly when the record lacks the key. Otherwise it gives a value stored under that key. |
| CsvEmit.Cell | app/src/tools/json_tools.py:85 | A cell is empty exactly for null (pandas' None/NaN) and for an empty text. |
| CsvEmit.Field | app/src/tools/json_tools.py:84-85 | A field is empty exactly when the record lacks the column's key or holds null or an empty text under it. |
| CsvEmit.Table | app/src/tools/json_tools.py:84-85 | The table is the header of columns followed by one row per record, each row as wide as the header. |
| CsvEmit.ToCsv | app/src/tools/json_tools.py:85 | The text of `to_csv(index=False)` ends with a line break. `CsvEmit.CsvRoundTrip` states that it reads back as the table. |
| CsvEmit.RecordRoundTrip | app/src/tools/json_tools.py:85 | A CSV line reads back as its fields and holds no line break. |
| CsvEmit.CsvRoundTrip | app/src/tools/json_tools.py:85 | The CSV text reads back as the header row and one row of fields per record. |
| CsvEmit.DataFrameCsv | app/src/tools/json_tools.py:84-85 | pandas produces a text exactly for a list of flat records, and that text reads back as the table. |
| Strings.SplitJoin | app/src/tools/json_tools.py:85 | Splitting joined fields on the separator they avoid gives the fields back. |
| Decimal.IntToString | app/src/tools/json_tools.py:47-49 | `str(int)`, as `json.dumps`, `yaml.dump`, `to_csv` and the healthcheck's f-strings write ints: a minus sign exactly for negative numbers, then digits only. |
| Decimal.ReadIntOfIntToString | app/src/healthcheck.py:33 | The decimal spelling of an integer reads back as that integer. |
| ToolExamples.FormatCompactExample | app/tests/unit_tests/tools/test_json_tools.py:24-29 | The test object is formatted compactly as `{"a": 1, "c": 3, "b": 2, "d": [4, 5]}`. |
| ToolExamples.YamlSampleExample | app/tests/unit_tests/tools/test_json_tools.py:100 | The same object converts to `a: 1`, `c: 3`, `b: 2`, `d:`, `- 4`, `- 5`, one per line, in the input's key order. |
| ToolExamples.YamlAtomic | app/src/tools/json_tools.py:64 | A scalar, `[]` or `{}` at the root converts to its text and one newline, with the `...` line removed. |
| ToolExamples.YamlScalarExample | app/tests/unit_tests/tools/test_json_tools.py:90-97 | `0`, `"a"`, `true`, `false` and `null` convert to `0`, `a`, `true`, `false` and `null`, each with a newline. |
| ToolExamples.YamlEmptyExample | app/tests/unit_tests/tools/test_json_tools.py:95-96 | `[]` and `{}` convert to `[]` and `{}` with a newline. |
| ToolExamples.CsvExample | app/tests/unit_tests/tools/test_json_tools.py:108-113 | The two car records convert to the header `Model,Year` and the lines `Corolla,2024` and `Camry,2025`. |
| ToolExamples.CsvRejectExample | app/tests/unit_tests/tools/test_json_tools.py:116-118 | A single flat object is refused with `Invalid JSON for CSV conversion`. |
| Healthcheck.Classify | app/src/healthcheck.py:20-45 | No URL means failure with the fixed reason. The status is `status` when it is present and non-zero, else `getcode()`. A 2xx status is healthy and any other is unhealthy. An HTTP error is unhealthy with its code. A URL error fails with its reason, and a bad URL with its message. |
| Healthcheck.EffectiveStatus | app/src/healthcheck.py:31 | `status or getcode()`. It has no contract of its own; `Healthcheck.Classify` states that a present non-zero `status` is used and `getcode()` otherwise. |
| Healthcheck.Report | app/src/healthcheck.py:32-45 | The exit code is 0 or 1, never 2. It is 0 exactly for a healthy verdict, which writes only to stdout; everything else writes only to stderr. |
| Healthcheck.Healthcheck | app/src/healthcheck.py:20-45 | The exit code is 0 or 1. It is 0 exactly when a URL was given and the response's status is in 200..299. Stdout is written exactly on exit 0 and stderr exactly on exit 1. A missing URL prints the fixed error. The verdict reads back from the output. |
| Healthcheck.ReadReportOf | app/src/healthcheck.py:33-44 | Every verdict can be read back from the exit code and the printed line. |
| Healthcheck.ReportInjective | app/src/healthcheck.py:33-44 | Different verdicts never give the same exit code and output. |
| Healthcheck.NoArgumentExample | app/tests/unit_tests/test_healthcheck.py:31-38 | Without a URL argument, exit 1 with `Healthcheck error: No healthcheck URL provided as argument.` on stderr, whatever the network would answer. |
| Healthcheck.StatusAttributeExample | app/tests/unit_tests/test_healthcheck.py:41-54 | `status` 200 gives `Healthy: 200` on stdout and exit 0. |
| Healthcheck.GetcodeExample | app/tests/unit_tests/test_healthcheck.py:57-70 | With no `status`, `getcode()` 204 gives `Healthy: 204` and exit 0. |
| Healthcheck.ServerErrorExample | app/tests/unit_tests/test_healthcheck.py:73-86 | `status` 503 gives `Unhealthy: 503` on stderr and exit 1. |
| Healthcheck.HttpErrorExample | app/tests/unit_tests/test_healthcheck.py:89-102 | An HTTP error 404 gives `Unhealthy: 404` on stderr and exit 1. |
| Healthcheck.ErrorTextExample | app/tests/unit_tests/test_healthcheck.py:105-134 | A URL error and a bad URL print `Healthcheck error: ` and their text on stderr and exit 1. |

## Left out

- The JSON lexer and parser of `json.loads` and its diagnostic texts: its outcome is an input. `JsonDecode.Read` is a reader for the encoder's own output, not a model of `json.loads`.
- Floats: a non-integer number is the text `repr` gives it, taken as given. Float rounding, `NaN`, `Infinity` and the way pandas turns int columns into float64 are not modelled.
- Lone surrogate code points in strings: Dafny's `char` is a Unicode scalar value.
- JsonTools.ConvertJsonToYaml: covers only values whose strings PyYAML writes plain: a letter first, then letters, digits and `_`, not a YAML 1.1 boolean or null word, shorter than 128 characters. Quoting, escaping, multi-line scalars and flow styles are not modelled.
- JsonTools.ConvertJsonToCsv: the result is stated only for non-empty lists of flat records with at least one key, without fields that need quoting and without int columns that pandas would store as floats, and for the two shapes pandas refuses (a bare scalar other than null, and a non-empty object of scalars). Other shapes pandas accepts, such as `null`, `[]`, a list of empty objects like `[{}]`, a list of scalars, a dict of lists or nested values, are outside the model and are not claimed to fail.
- CsvEmit.ToCsv: ends every line with `"\n"`, as the application's own CSV test expects (`app/tests/unit_tests/tools/test_json_tools.py` line 109). `to_csv` actually ends lines with `os.linesep`, so the `"\r\n"` written on Windows is not modelled.
- CsvEmit.DataFrameCsv: same domain as `JsonTools.ConvertJsonToCsv`, for the same reason.
- Healthcheck.Healthcheck: requires that a response gives some status. When `status` is missing or zero and `getcode()` returns `None`, the comparison with 200 raises a `TypeError` that the command does not catch, and that case is not modelled.
- The HTTP request, `sys.argv` as process state, `print` and `sys.exit`: the request outcome and the argument list are inputs, and the exit code and stream contents are an output value. The URL text itself is not inspected by the model; an invalid URL appears as the `ValueError` outcome.
- The formatting tests with sorted keys and with indents 0 and 2 (`test_json_tools.py` lines 30-59) and the ten unchanged-input cases (lines 67-84) have no literal example here. They follow from `JsonEncode.SortKeysOnlyReorders`, `JsonLayout.IndentedOutputLines`, `JsonTools.CanonicalUnchanged` and `JsonEncode.AtomicIgnoresOptions`.
- The YAML test cases for `1.0` and for the objects `{"a": 1}` and `{"a": 1, "b": 2}` likewise have no literal example; `ToolExamples.YamlAtomic` and `YamlEmit.ToYamlKeepsOrder` state them in general.
- The Streamlit pages, session state and download buttons are user interface and are not part of this model.
