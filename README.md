# jaspQmlR data bridge — a Dafny model

jaspQmlR lets R code drive JASP's QML analysis forms. This project models its three pieces of sequential logic:

- **Data-frame import** (`DataFrameImporter.cpp`). Each column of an R data frame of a type the importer reads becomes a sequence of display strings, one per element. An NA element of any of these types shows as the empty string; a real element can also show as NaN, ∞ or -∞. A column of any other type is replaced by as many empty strings as the longest column before it. `loadDataSet` then:
  - names unnamed columns `column_<i>`;
  - keeps a running maximum of the column lengths;
  - grows the dataset's row count and never shrinks it;
  - hands each column to the dataset store.
- **Dataset provider** (`DataSetProvider.cpp`). A singleton owns the session's dataset. It shows the dataset to QML as a transposed table: one table row per dataset column. It answers typed `VariableInfo` queries about a column, with defaults when the column is missing, and writes values back into a column. A list write (`DataSetValues`) never writes at or past the dataset's row count. A single-value write (`DataSetValue`) is not checked against the row count and writes any row the column holds.
- **R entry points** (`qmlR.cpp`):
  - the run-once `init`;
  - `addError`, which gathers messages under the JSON `"error"` key;
  - the error flow of `checkOptions`;
  - the step-by-step log of `runQml`, including its `.qml` suffix rule.

Modules:

- `Options` (options.dfy): the optional value that lookups and parses return.
- `Decimal` (decimal.dfy): the decimal text that `std::to_string(int)` and `QString::number(int)` produce, and a parser that inverts it.
- `DataSetModel` (dataset.dfy): the `DataSet`/`Column` store, reduced to what the bridge uses. That is an ordered sequence of columns, each with a name, type, levels, row strings, numbers and a numeric count, plus the dataset row count. The store's own classification policy is a function parameter (`Classifier`).
- `DataFrameImporter` (data_frame_importer.dfy): the R element types, the formatters, `readCharacterVector` and `loadDataSet`.
- `DataSetProvider` (dataset_provider.dfy): the provider class, the `_singleton` slot, the info queries and `absorbInfo`.
- `QmlR` (qml_r.dfy): the file-level statics as a `QmlSession` class, plus `addError`, `checkOptions` and `runQml`.

Modelling choices:

- R integers and logicals are 32-bit values (`Int32`) with `NA_INTEGER` = `NA_LOGICAL` = INT_MIN. The NA test is the source's `==` comparison.
- A character element is `NAString` or `Chars(s)`.
- A real element is one of the tags NA, NaN, +Inf, −Inf or `Finite(x)`. `ColumnUtils::doubleToString` is a function parameter.
- These operations come from code that is not part of this model, so each is a function parameter:
  - `QVariant::toString`;
  - file existence;
  - QML component creation, which yields an item or none plus a list of `QQmlError`s;
  - the item's `parseOptions`;
  - the item's `info` property.
- The environment variables `init` reads are a parameter too.
- Text written to the R console or to the `output` vector is returned as a sequence of lines.

`loadDataSet` itself never pads short columns to the final row count; only the dataset's row count grows. `LoadDataSet` states this.

The provider's `Data` and the session's `RunQml` follow the code as written, including the two defects listed under "## Findings". The intended behaviour is defined beside them (`DataCorrected`, `NormaliseQmlName`) and proved to agree with the code wherever the defect does not show.

## Model

| member | source | states |
|---|---|---|
| `Decimal.IntToDecimal` | src/DataFrameImporter.cpp:26 | The text of an integer is never empty and starts with '-' exactly when the integer is negative |
| `Decimal.IntToDecimalParses` | src/DataFrameImporter.cpp:26 | The decimal text of any integer parses back to that integer |
| `Decimal.IntToDecimalInjective` | src/DataFrameImporter.cpp:78 | Different integers never get the same decimal text |
| `Decimal.NatToDecimalDigits` | src/DataFrameImporter.cpp:26 | The text of a natural number is all digits, and only 0 starts with '0' |
| `Decimal.DigitsValueOfNat` | src/DataFrameImporter.cpp:26 | Reading back the digits of n gives n |
| `DataSetModel.Display` | src/DataSetProvider.cpp:81-112 | `getDisplay(r)` (line 81) and `getValue(row)` (line 112): for a row the column holds, its stored text; for any other row, empty |
| `DataSetModel.ColumnFromStrings` | src/DataFrameImporter.cpp:100 | The column `initColumnWithStrings` builds has exactly the given name and row strings |
| `DataSetModel.IndexOfName` | src/DataSetProvider.cpp:101 | Name lookup finds the first column with that name, or reports that no column has it |
| `DataSetModel.DataSet.constructor` | src/DataSetProvider.cpp:20 | A new dataset has no columns and 0 rows |
| `DataSetModel.DataSet.ColumnAt` | src/DataSetProvider.cpp:92 | Lookup by index yields a column exactly when the index is in range, and it is the column at that index |
| `DataSetModel.DataSet.ColumnIndex` | src/DataSetProvider.cpp:138 | Lookup by name yields a position holding that name, or none when no column has it |
| `DataSetModel.DataSet.SetColumnCount` | src/DataFrameImporter.cpp:68 | The dataset afterwards has exactly n columns; existing columns and the row count are kept |
| `DataSetModel.DataSet.SetRowCount` | src/DataFrameImporter.cpp:98 | The row count becomes n and no column changes |
| `DataSetModel.DataSet.InitColumnWithStrings` | src/DataFrameImporter.cpp:100 | Only column colNr is replaced, by the column built from the strings; the row count is kept |
| `DataSetModel.DataSet.SetStringValue` | src/DataSetProvider.cpp:145 | Only the addressed row of the addressed column changes, and only when the column holds that row; reports whether the text changed |
| `DataFrameImporter.UnknownTypeMessage` | src/DataFrameImporter.cpp:91 | The message for an unread column is "Unknown type of variable ", then the column's name, then "!" |
| `DataFrameImporter.FormatInteger` | src/DataFrameImporter.cpp:24-27 | An integer is "" exactly when it is NA_INTEGER; otherwise its text parses back to the integer |
| `DataFrameImporter.IntegerRoundTrip` | src/DataFrameImporter.cpp:24-27 | Integer formatting loses nothing: parsing the text gives back the element, NA included |
| `DataFrameImporter.FormatLogical` | src/DataFrameImporter.cpp:29-32 | A logical is "" exactly when NA, "1" exactly when it is another non-zero value, and "0" exactly when it is 0; nothing else is produced |
| `DataFrameImporter.FormatString` | src/DataFrameImporter.cpp:34-37 | NA_STRING shows as "" and any other string shows verbatim |
| `DataFrameImporter.MissingAndEmptyTextLookAlike` | src/DataFrameImporter.cpp:36 | A missing text element and an empty one show the same |
| `DataFrameImporter.FormatReal` | src/DataFrameImporter.cpp:39-47 | Each real tag gets its marker (NA "", NaN "NaN", +Inf "∞", −Inf "-∞"); a finite value gets doubleToString |
| `DataFrameImporter.RealBlankOnlyWhenMissing` | src/DataFrameImporter.cpp:39-47 | If doubleToString never yields "" or a marker, a real shows "" exactly when it is NA, and a finite value never looks like a marker |
| `DataFrameImporter.EntryToString` | src/DataFrameImporter.cpp:22-47 | The template dispatch: an unread type gives "". An integer row is "" exactly when NA, and otherwise its text parses back to the integer. A logical row is "" exactly when NA, "1" exactly when non-zero and not NA, and "0" exactly when zero. A text row is "" exactly when NA or empty, and any other text is kept verbatim. A real row gives "" for NA, "NaN" for NaN, "∞" for +Inf, "-∞" for −Inf and doubleToString of the value for a finite one |
| `DataFrameImporter.FormatColumn` | src/DataFrameImporter.cpp:49-57 | A column formats to one string per element, where string i is element i formatted by its type |
| `DataFrameImporter.ReadCharacterVector` | src/DataFrameImporter.cpp:49-57 | The loop yields exactly size(obj) strings, where string i is row i formatted |
| `DataFrameImporter.ColumnName` | src/DataFrameImporter.cpp:74-78 | A resolved name is never empty. A non-empty name is kept unchanged. An empty name becomes "column_" followed by text that parses back to the column's position |
| `DataFrameImporter.SynthesisedNamesDistinct` | src/DataFrameImporter.cpp:77-78 | Two different unnamed columns get different `column_<i>` names |
| `DataFrameImporter.ColumnStrings` | src/DataFrameImporter.cpp:84-93 | A column of a type the importer reads yields one string per element, string i being row i formatted by its element type. A column of any other type yields maxRows empty strings |
| `DataFrameImporter.UnsupportedColumnIsBlank` | src/DataFrameImporter.cpp:89-96 | An unsupported column becomes maxRows blanks and leaves maxRows unchanged |
| `DataFrameImporter.MaxRowsAfter` | src/DataFrameImporter.cpp:70-96 | maxRows never decreases from one column to the next |
| `DataFrameImporter.MaxRowsIsMaximum` | src/DataFrameImporter.cpp:95-96 | After k columns, maxRows is the largest length among them, and 0 when there are none |
| `DataFrameImporter.MaxRowsIgnoresUnsupported` | src/DataFrameImporter.cpp:89-96 | maxRows is the largest size among the supported columns seen so far |
| `DataFrameImporter.ImportedColumn` | src/DataFrameImporter.cpp:100 | Stored column k carries the resolved name. Its strings are row i of frame column k formatted, for a type the importer reads, or maxRows blanks for any other type. It is handed to the store with type unknown and the caller's threshold and orderLabelsByValue, so its type, levels, numbers and numeric count are what the store's classification gives for those strings |
| `DataFrameImporter.UnknownTypeMessages` | src/DataFrameImporter.cpp:91 | There is at most one console line per column, and each starts with "Unknown type of variable " |
| `DataFrameImporter.UnknownTypeMessagesCount` | src/DataFrameImporter.cpp:89-93 | The console holds exactly as many lines as there are columns of a type the importer does not read |
| `DataFrameImporter.UnknownTypeMessagesSound` | src/DataFrameImporter.cpp:91 | Every console line is "Unknown type of variable <name>!" for some column of an unread type |
| `DataFrameImporter.UnknownTypeMessagesComplete` | src/DataFrameImporter.cpp:91 | Every column of an unread type has its "Unknown type of variable <name>!" line on the console |
| `DataFrameImporter.UnknownTypeMessagesExact` | src/DataFrameImporter.cpp:89-93 | Exactly one "Unknown type of variable <name>!" line per column of an unread type and no other line; the console is empty exactly when every column is read |
| `DataFrameImporter.ImportColumn` | src/DataFrameImporter.cpp:72-101 | One loop pass replaces only column colNr and advances maxRows to its running maximum; the row count becomes max(old row count, maxRows) and one console line is written per unsupported column |
| `DataFrameImporter.LoadDataSet` | src/DataFrameImporter.cpp:59-103 | The dataset ends with one column per frame column, in order, each built from that column's strings. The row count is max(old row count, longest column), so it never shrinks; loadDataSet itself pads no column. The console lines are the unknown-type warnings in column order |
| `DataSetProvider.ProviderRegistry.constructor` | src/DataSetProvider.cpp:5 | The provider singleton starts out null |
| `DataSetProvider.ToList` | src/DataSetProvider.cpp:149 | `QVariant::toList` keeps a list and turns a string list into string variants; any other value yields no items |
| `DataSetProvider.Texts` | src/DataSetProvider.cpp:151 | The list of texts has one text per item, in order |
| `DataSetProvider.DisplayList` | src/DataSetProvider.cpp:72-84 | A missing column gives an empty list; otherwise exactly rowCount entries, where entry r is row r's display text |
| `DataSetProvider.DoubleList` | src/DataSetProvider.cpp:58-70 | A missing column gives an empty list; otherwise the column's numbers in order |
| `DataSetProvider.NamesOf` | src/DataSetProvider.cpp:86-94 | There is one name per column, in dataset order |
| `DataSetProvider.Absorbed` | src/DataSetProvider.cpp:146-153 | Item i lands on row row+i only when that row is below rowCount; every other row keeps its text |
| `DataSetProvider.AbsorbedWritesOnlyBelowRowCount` | src/DataSetProvider.cpp:150-151 | No row at or past rowCount, or outside the written range, changes |
| `DataSetProvider.AbsorbedStep` | src/DataSetProvider.cpp:148-151 | Each iteration of the write loop changes at most row row+i |
| `DataSetProvider.DataAsWritten` | src/DataSetProvider.cpp:47-54 | data() as written: only the display role gives a value, and only for an existing table row that does not exceed the dataset's row count; the value is that column's name |
| `DataSetProvider.DataAsWrittenHidesWideColumns` | src/DataSetProvider.cpp:49 | With 3 columns and 1 row, `data` as written shows nothing for table row 2, while the corrected check shows its name |
| `DataSetProvider.DataCorrected` | src/DataSetProvider.cpp:47-54 | Only the display role of an existing table row gives a value, and that value is the name of the column the row stands for |
| `DataSetProvider.DataAgreesWithinRowCount` | src/DataSetProvider.cpp:49 | For indices up to the dataset's row count, the code as written and the corrected check agree |
| `DataSetProvider.DataSetProvider.constructor` | src/DataSetProvider.cpp:17-24 | A new provider owns a fresh, empty dataset |
| `DataSetProvider.DataSetProvider.ResetDataSet` | src/DataSetProvider.cpp:26-35 | The provider's dataset is replaced by a fresh, empty one |
| `DataSetProvider.DataSetProvider.RowCount` | src/DataSetProvider.cpp:37-40 | The table has one row per dataset column |
| `DataSetProvider.DataSetProvider.ColumnCount` | src/DataSetProvider.cpp:42-45 | The table has one column per dataset row |
| `DataSetProvider.DataSetProvider.Data` | src/DataSetProvider.cpp:47-54 | Roles other than DisplayRole give an empty value. A table row past the table's column count (the dataset's row count) or past the table's rows gives an empty value. Otherwise the display role of table row i gives column i's name. Up to the dataset's row count it agrees with the corrected data() |
| `DataSetProvider.DataSetProvider.ColumnNamed` | src/DataSetProvider.cpp:101 | The column found carries the requested name, or no column has that name |
| `DataSetProvider.DataSetProvider.ProvideInfo` | src/DataSetProvider.cpp:97-132 | A missing column gets the defaults (type unknown, 0 numerics, 0 levels, no labels, "" value, empty lists). An existing column gets its own type, counts, labels and display texts. DataAvailable is true iff there is a column; MaxWidth is 100, SignalsBlocked false, and unlisted kinds "" |
| `DataSetProvider.DataSetProvider.GetDoubleList` | src/DataSetProvider.cpp:58-70 | The loop yields the column's numbers in order, and nothing for a missing column |
| `DataSetProvider.DataSetProvider.GetStringList` | src/DataSetProvider.cpp:72-84 | The loop yields exactly rowCount display texts, where entry r is row r's, and nothing for a missing column |
| `DataSetProvider.DataSetProvider.GetColumnNames` | src/DataSetProvider.cpp:86-94 | The loop yields the column names in dataset order |
| `DataSetProvider.DataSetProvider.AbsorbInfo` | src/DataSetProvider.cpp:134-162 | A missing column or another info kind returns false and changes nothing. DataSetValue writes one row. DataSetValues returns true and writes item i to row row+i only below rowCount; all other rows, columns and the row count are unchanged |
| `DataSetProvider.DataSetProvider.AbsorbList` | src/DataSetProvider.cpp:146-152 | The list write changes only the named column: value k lands in row `row`+k while that is below the dataset's row count, later values are dropped, and the row count is unchanged |
| `DataSetProvider.ProviderRegistry.GetProvider` | src/DataSetProvider.cpp:7-15 | The provider is created only when none exists; otherwise the same one is returned, and its dataset is replaced by an empty one only when reset is set |
| `QmlR.JoinLinesSnoc` | src/qmlR.cpp:141-142 | One more message extends the joined text by "\n" and that message |
| `QmlR.SplitLines` | src/qmlR.cpp:141 | Splitting a text at its line breaks yields at least one line |
| `QmlR.SplitJoinLines` | src/qmlR.cpp:137-145 | The joined "error" text splits back into its messages when none holds a line break |
| `QmlR.AddError` | src/qmlR.cpp:137-145 | "error" becomes msg when absent and old + "\n" + msg when present; no other key changes |
| `QmlR.AddErrorAppends` | src/qmlR.cpp:137-145 | An object recording messages m1..mk under "error" records m1..mk, msg after one more addError |
| `QmlR.AddRecordedError` | src/qmlR.cpp:137-145 | `addError` on an object recording msgs leaves it recording msgs followed by msg |
| `QmlR.ComponentErrorMessage` | src/qmlR.cpp:178-236 | A component error message, in `checkOptions` (line 178) and in `runQml`'s output (line 236), starts with "Error when creating component at " and ends with the error's description |
| `QmlR.ComponentMessagesEach` | src/qmlR.cpp:235-236 | Component message i is the message of error i, for every i |
| `QmlR.ComponentMessages` | src/qmlR.cpp:177-178 | There is one message per component error |
| `QmlR.ComponentMessagesSnoc` | src/qmlR.cpp:177-178 | Each further error adds its message at the end |
| `QmlR.ComponentMessagesAt` | src/qmlR.cpp:178 | Message i reads "Error when creating component at <line>,<column>: <description>" for error i |
| `QmlR.ComponentMessagesOneLine` | src/qmlR.cpp:177-178 | Every component message is one line when every description is |
| `QmlR.ComponentErrorMessageOneLine` | src/qmlR.cpp:178 | A component error message is one line when its description is |
| `QmlR.DecimalOneLine` | src/qmlR.cpp:178 | The decimal text of a line or column number holds no line break |
| `QmlR.CheckOptionsErrorOrder` | src/qmlR.cpp:166-181 | checkOptions records "File NOT found" first (if the file is missing), then the component errors in order, then "Item not created" last (if there is no item), and nothing else |
| `QmlR.FixedMessagesOneLine` | src/qmlR.cpp:167 | "File NOT found" and "Item not created" are single lines |
| `QmlR.CheckOptionsErrorsOneLine` | src/qmlR.cpp:166-181 | No checkOptions message holds a line break when no description does |
| `QmlR.CheckOptionsErrorsRecoverable` | src/qmlR.cpp:137-181 | The "error" text of checkOptions splits back into its messages, in order |
| `QmlR.CheckOptionsErrors` | src/qmlR.cpp:166-181 | The error lines of `checkOptions`: one for a missing file, one per component error, one for a missing item. The list is empty exactly when the file exists, the component reports no error and the item is created |
| `QmlR.Lookup` | src/qmlR.cpp:162-163 | Indexing a JSON object gives the member's value for a present key and null for a missing one |
| `QmlR.ToStr` | src/qmlR.cpp:141-165 | `toString` of a JSON value (the earlier error at line 141, the `qmlFile` member at line 165) is the string itself for a JSON string, and empty for any other value |
| `QmlR.ToObject` | src/qmlR.cpp:162 | `toObject` of a JSON object is its members; of any other value it is the empty object |
| `QmlR.Utf8` | src/qmlR.cpp:212 | The bytes of a string: between one and four per character, and for ASCII text exactly the character codes |
| `QmlR.Utf8EndsWithAscii` | src/qmlR.cpp:216 | The UTF-8 bytes of a name end with the bytes of an ASCII suffix exactly when the name ends with that suffix, so comparing the last 4 bytes with ".qml" is comparing the last 4 characters |
| `QmlR.QmlNameAsWritten` | src/qmlR.cpp:216-217 | The suffix check as written fails exactly for names of fewer than 4 UTF-8 bytes. Otherwise the result ends in ".qml": a name already ending so is kept, and any other name gains ".qml" |
| `QmlR.ShortNameRejected` | src/qmlR.cpp:216 | "ui" is rejected by the code as written, while the corrected rule gives "ui.qml" |
| `QmlR.WideShortNameAccepted` | src/qmlR.cpp:216-217 | "日本" (2 characters, 6 bytes) passes the check as written and becomes "日本.qml" |
| `QmlR.NormaliseQmlName` | src/qmlR.cpp:216-217 | The result always ends with ".qml"; a name that already does is unchanged; any other name gains ".qml" |
| `QmlR.NormaliseQmlNameIdempotent` | src/qmlR.cpp:216-217 | Normalising twice is normalising once |
| `QmlR.QmlNameAsWrittenAgrees` | src/qmlR.cpp:216-217 | For names of 4 bytes or more, the code as written matches the corrected rule |
| `QmlR.ResolvedDir` | src/qmlR.cpp:70-80 | A non-empty environment value is used. Otherwise the built-in directory is used when there is one. The result is empty only when both are empty or absent |
| `QmlR.InitLines` | src/qmlR.cpp:75-85 | init writes three lines, ending with the resolved Qt directory, the resolved plugin directory and R_HOME, in that order |
| `QmlR.ParsedOptions` | src/qmlR.cpp:184-197 | Without a created item, the "options" result is an empty object; with one, it is what the item's parseOptions returns |
| `QmlR.QmlSession.constructor` | src/qmlR.cpp:23-28 | The statics start uninitialised, without application or engine, and without error |
| `QmlR.QmlSession.Init` | src/qmlR.cpp:65-135 | The first call resolves the two directories, creates application and engine, and writes three lines. Every later call changes no state and writes nothing |
| `QmlR.QmlSession.CheckOptions` | src/qmlR.cpp:149-202 | hasError ends false. The result records exactly the messages in the required order under "error", and always carries "options" from parseOptions, even after an error |
| `QmlR.CollectErrors` | src/qmlR.cpp:165-181 | Gathering errors from an empty result records exactly the checkOptions messages, in order |
| `QmlR.AddComponentErrors` | src/qmlR.cpp:177-178 | The loop records one message per component error, after the earlier ones, in order |
| `QmlR.QmlSession.RunQml` | src/qmlR.cpp:205-261 | init runs first in every case. A name of fewer than 4 bytes then throws, and no output reaches R. Otherwise the output is the init lines (first call only) followed by the log for the name with ".qml" ensured. A missing file gives exactly ["File: name", "File NOT found"] after the init lines |
| `QmlR.RunLog` | src/qmlR.cpp:219-257 | Line 0 names the file. A missing file gives exactly 2 lines, the second "File NOT found". Otherwise line 1 is "Found file" and the creation report follows. The log ends with "Item not created" exactly when the file exists and no item was created |
| `QmlR.CreationLog` | src/qmlR.cpp:233-257 | Line i is the message of component error i. Then comes "Item not created" when there is no item, or "Item created!!!" and the info line when there is one |
| `QmlR.LoadForm` | src/qmlR.cpp:219-257 | The step-by-step log: line 0 names the file, and a missing file stops it after "File NOT found". Otherwise "Found file" comes next, then one line per component error in order. Then it ends with "Item created!!!" and the info line when there is an item, or with "Item not created" exactly when there is none |
| `QmlR.ReportCreation` | src/qmlR.cpp:233-257 | The component errors come first, then either "Item not created" or the item-created line and the `info` line |
| `QmlR.AppendComponentErrors` | src/qmlR.cpp:235-236 | The loop appends one line per component error, in order |

## Left out

- `DataSet`/`Column` internals are not part of this model:
  - classification by threshold and level ordering are the `Classifier` parameter;
  - `getDisplay`/`getValue` are read as the stored string, or "" for a row the column does not hold;
  - `setStringValue` is modelled as a write to a row the column holds; a write to any other row is ignored (see `DataSetModel.DataSet.SetStringValue` below);
  - `dbDelete`, `DatabaseInterface` and the `_db` field are left out.
- `DataSetModel.DataSet.SetRowCount`: the store is assumed to leave every column's stored strings as they are when the row count changes. Its header is not part of this model, so whether the store itself pads or truncates columns is not captured.
- `DataSetModel.DataSet.SetColumnCount`: new columns are blank placeholders. The store's real allocation is not part of this model.
- `DataSetModel.DataSet.SetStringValue`: its result is "the text changed", which is an assumption about the store's return value. A write to a row the column does not hold (a negative row, or one at or past a short column's end) is ignored and returns false; what the store does there is not part of this model. `DataSetValues` reaches such a write with a negative `row` (src/DataSetProvider.cpp:150-151), and `DataSetValue` with any row (src/DataSetProvider.cpp:145).
- `DataSetModel.DataSet.ColumnAt`: an index outside the dataset's columns gives no column (None), standing for the store's null result; what the store does there is not part of this model. `DataSetProvider.DataSetProvider.Data` as written relies on it for a table row in [number of columns, row count], which the guard at src/DataSetProvider.cpp:49 lets through.
- `DataSetModel.IndexOfName`: name lookup is assumed to return the first column with the name.
- `DataFrameImporter.FormatReal`: `ColumnUtils::doubleToString` and the IEEE NaN/Inf tests are floating point. They are kept as tags and a function parameter, so nothing is proved about the text of a finite value.
- The R type tests (`Rcpp::is<…>`) are represented by the `RVector` variant chosen for a column. Numeric is tested before integer, as in the source.
- `DataFrameImporter.LoadDataSet`: the frame's names are taken as one plain string per column. When `names()` is NULL, the source indexes an empty `CharacterVector` at src/DataFrameImporter.cpp:74, past its end; that case is not modelled. An NA name converts to the text "NA", which the model sees as a column named "NA".
- `DataSetProvider.DataSetProvider.ProvideInfo`: `DataSetPointer` yields the dataset object itself. The `DoubleValues` list for an existing column is stated by its length only; `DataSetProvider.DataSetProvider.GetDoubleList` states its elements.
- Raw-pointer lifetimes are not modelled: the singleton, `delete _dataset`, `new VariableInfo(this)` registration, and the rethrowing `try`/`catch` wrappers.
- Qt/QML machinery is represented only by the `QtCalls` and `Environment` parameters:
  - application and engine bootstrap (argv construction);
  - `QQmlComponent` creation;
  - `processEvents`;
  - `invokeMethod("parseOptions")`;
  - `clearComponentCache`;
  - JSON (de)serialisation;
  - the `printFolder` walk;
  - `getEnv`.
- `QmlR.QmlSession.CheckOptions`: parsing of the input JSON text is not modelled; the input is an already-parsed object. Without an item, `parseOptions` fails and yields an empty object.
- `QmlR.QmlSession.RunQml`: the `options` and `data` arguments are accepted and unused, as in the source, where their use is commented out. Names are taken to reach the suffix check as UTF-8 bytes. The thrown `std::out_of_range` is modelled as the `threw` result with empty output; the R error text it turns into is not modelled.

## Findings

| source | as written | input that shows it | evidently intended | confidence | as-written member | corrected member |
|---|---|---|---|---|---|---|
| src/qmlR.cpp:216 | `substr(length() - 4, 4)` throws `std::out_of_range` when the name has fewer than 4 bytes | `runQml("ui", …)` | append ".qml" to any name that does not already end with it | high, not executed | `QmlR.QmlNameAsWritten` | `QmlR.NormaliseQmlName` |
| src/DataSetProvider.cpp:49 | the table index is compared with `columnCount()`, which is the dataset's ROW count | a dataset with 3 columns and 1 row; `data` at table row 2 with DisplayRole | compare with `rowCount()`, the number of dataset columns | medium, not executed | `DataSetProvider.DataAsWrittenHidesWideColumns` | `DataSetProvider.DataCorrected` |
