# Shipping-tariff extraction core, modelled in Dafny

This project models the extraction path of the exaqube shipping-tariff pipeline.

- **Extractor.** The `Extractor` service renders a tariff PDF into page images. It runs a region detector on each page, OCRs the confident regions and keeps the output directory clean.
- **Reply cleaning.** `extract_from_table` sends one table image to a vision model and parses its JSON reply, after stripping the code fences.
- **Store.** `TariffDB` keeps the parsed tariffs in one SQLite table keyed on `doc_id`.
- **Value types.** `ShippingTariff`, `Table`, `TariffEntry` and `Config` are the record and configuration types around them.

YOLO, EasyOCR, pdf2image, PIL, the OpenAI client, PNG/base64 encoding, `json.loads` and the prompt file read are all oracles. Each is a function-typed parameter whose `None` result stands for "the call raised". What is modelled is the decision logic between those calls:

- which detections are cropped;
- how a box becomes a crop box;
- how OCR texts are joined and under which key they are stored;
- how page images are named;
- how `run` fills and empties the output directory;
- the order of the stages and the `None` funnel of `extract_from_table`;
- the fence cleaning of the reply;
- INSERT OR REPLACE on a map;
- the constructors and dict conversions of the value types.

Modules, one per source file, plus two shared ones:

| module | file | models |
|---|---|---|
| `Common` | common.dfy | `Option`, keyword arguments, the scalar values stored in SQLite, `dict.get` |
| `Strings` | strings.dfy | Python's `str.replace`, `str.strip`, `"\n".join`, `split("\n")`, `str(n)` |
| `Extractor` | extractor.dfy | src/services/extractor.py |
| `Llm` | llm.dfy | src/services/llm.py |
| `TariffStore` | sqlite.dfy | src/services/sqlite.py |
| `TariffModels` | models_extractor.dfy | src/models/extractor.py |
| `ScrapperModels` | models_scrapper.dfy | src/models/scrapper.py |
| `ConfigModel` | models_config.dfy | src/models/config.py |

Two facts about the code shape the model:

- **Store key.** The store's primary key is `doc_id` alone (src/services/sqlite.py:59), so a second insert under the same `doc_id` replaces the first whatever its other columns.
- **Cleanup.** `run` does not clean up on every exit path. A save that fails part-way leaves the pages already saved, and a page whose prediction returns `None` leaves the unprocessed page images. A missing PDF and an `extract_boxes` that raises both go through the exception handler, which wipes the directory (src/services/extractor.py:256-259, 268-270, 285-295). `Extractor.Run` states what is left behind in each of these cases.

## Model

| member | source | states |
|---|---|---|
| Common.Lookup | src/models/scrapper.py:16-21 | `dict.get(key, default)`: the mapped value when the key is present, the default otherwise |
| Strings.ReplaceAll | src/services/llm.py:112 | `str.replace` with a non-empty pattern, replacing leftmost non-overlapping occurrences; replacing by the empty string never lengthens the text |
| Strings.ReplaceAbsent | src/services/llm.py:112 | replacing a pattern that does not occur leaves the text unchanged |
| Strings.ReplaceAfterClearPrefix | src/services/llm.py:112 | if no occurrence starts inside a prefix, replacement keeps that prefix and works on the rest only |
| Strings.OccursInSlice | src/services/llm.py:112 | an occurrence inside a slice is an occurrence in the whole text, at the shifted index |
| Strings.SpaceRunFrom | src/services/llm.py:112 | the leading whitespace run from an index: all whitespace, within the text, and followed by a non-whitespace character or the end |
| Strings.SpaceRunBefore | src/services/llm.py:112 | the trailing whitespace run before an index: all whitespace, and preceded by a non-whitespace character or the start |
| Strings.SpaceRunFromIs | src/services/llm.py:112 | a whitespace run followed by a non-whitespace character or the end is the leading run |
| Strings.SpaceRunBeforeIs | src/services/llm.py:112 | a whitespace run preceded by a non-whitespace character or the start is the trailing run |
| Strings.Strip | src/services/llm.py:112 | `strip()` returns the slice starting after the leading whitespace run; everything before and after the slice is whitespace, and the slice has no edge whitespace |
| Strings.StripTrimmed | src/services/llm.py:112 | stripping a text with no edge whitespace is the identity |
| Strings.StripPadded | src/services/llm.py:112 | stripping whitespace padding around a trimmed body gives back exactly the body |
| Strings.AllSpaceConcat | src/services/llm.py:112 | two whitespace-only texts join into a whitespace-only text |
| Strings.LeadingRunOfPadded | src/services/llm.py:112 | whitespace in front of a text that does not start with whitespace is exactly the leading run |
| Strings.TrailingRunOfPadded | src/services/llm.py:112 | whitespace after a text that does not end in whitespace is exactly the trailing run |
| Strings.JoinLines | src/services/extractor.py:222 | `"\n".join` of one text is that text, and of none is the empty string |
| Strings.SplitLines | src/services/extractor.py:222 | `split("\n")` returns one piece more than there are newlines, so never none |
| Strings.SplitLinesPiece | src/services/extractor.py:222 | a newline-free piece followed by a newline splits off as exactly one piece |
| Strings.SplitJoinLines | src/services/extractor.py:222 | splitting the newline join of newline-free texts returns those texts: the join loses nothing |
| Strings.Decimal | src/services/extractor.py:101 | `str(n)` is a non-empty digit string without a leading zero |
| Strings.DecimalRoundTrip | src/services/extractor.py:101 | reading the decimal text of `n` back gives `n` |
| Extractor.Trunc | src/services/extractor.py:212 | `int()` on a float truncates toward zero: within one of the value, on the side of zero |
| Extractor.CropOf | src/services/extractor.py:212 | `map(int, xyxy)`: each of the four crop coordinates is its box coordinate truncated toward zero |
| Extractor.Texts | src/services/extractor.py:222 | the OCR texts, one per OCR item, in OCR order |
| Extractor.ExtractBoxes | src/services/extractor.py:189-231 | `None` exactly when a kept (conf not below `conf_thrs`) detection's crop or OCR raises; otherwise the keys are exactly the original indices of the kept detections whose OCR returned items, each mapped to the newline join of its OCR texts |
| Extractor.SelectionIgnoresLabel | src/services/extractor.py:204-215 | two detection lists that agree on boxes and confidences give the same result, whatever their class labels |
| Extractor.EntrySplitsIntoTexts | src/services/extractor.py:218-222 | each stored entry splits back into its OCR texts when those have no newline |
| Extractor.PageName | src/services/extractor.py:101 | `f"page_{i+1}.png"` for page number `k = i+1`: the text "page_", then the decimal digits of `k`, then ".png" |
| Extractor.PageNumberOfName | src/services/extractor.py:101 | the page name `page_{k}.png` carries the page number `k` back |
| Extractor.PageNamesDistinct | src/services/extractor.py:99-103 | page `i` (0-based) is saved as `page_{i+1}.png`, one name per page, pairwise distinct |
| Extractor.ConvertPdf2Img | src/services/extractor.py:85-110 | returns true exactly when rendering and saving succeed; the directory afterwards holds its old files plus exactly the page names `1..saved` |
| Extractor.Run | src/services/extractor.py:233-295 | result present iff the PDF exists, conversion succeeds and every page's prediction and OCR succeed; it then maps each page file to its `extract_boxes` result and leaves the directory empty; a missing PDF wipes the directory; a failed conversion leaves exactly the pages saved before it failed (none when rendering fails); when every prediction succeeds but some `extract_boxes` raises, the directory is wiped; when a prediction returns `None`, a non-empty set of page images is left that includes a page whose prediction failed, every page already removed was processed successfully, and this is what happens whenever some prediction fails and no `extract_boxes` raises |
| Llm.TicksAtLeast | src/services/llm.py:112 | a text has at least `k` leading backticks iff its first `k` characters are backticks |
| Llm.FenceNeedsThreeTicks | src/services/llm.py:112 | a text starts with "```" iff it has at least three leading backticks |
| Llm.TicksAfterFence | src/services/llm.py:112 | a leading fence accounts for exactly three of the leading backticks |
| Llm.TicksOfCons | src/services/llm.py:112 | a leading backtick adds one to the leading run; any other character ends it |
| Llm.DroppedFence | src/services/llm.py:112 | a fence at the front is removed by `replace('```', '')` |
| Llm.KeptChar | src/services/llm.py:112 | a first character that does not start a fence is kept by `replace('```', '')` |
| Llm.FenceRemovalTicks | src/services/llm.py:112 | after removing every fence, fewer than three backticks lead; a run already shorter than three is kept as it is |
| Llm.FenceRemovalLeavesNone | src/services/llm.py:112 | after `replace('```', '')` no "```" is left anywhere in the text |
| Llm.Clean | src/services/llm.py:112 | the cleaned reply contains no "```", has no edge whitespace and is no longer than the reply |
| Llm.StripKeepsNoFence | src/services/llm.py:112 | `strip()` cannot create a fence |
| Llm.JsonFenceHasFence | src/services/llm.py:112 | a text without "```" has no "```json" either |
| Llm.CleanKeepsBareBody | src/services/llm.py:112 | a fence-free text without edge whitespace is left unchanged by cleaning |
| Llm.CleanIdempotent | src/services/llm.py:112 | cleaning twice is cleaning once |
| Llm.FenceInFrameIsInBody | src/services/llm.py:112 | a fence starting inside `"\n" + body + "\n"` lies inside the body |
| Llm.JsonFenceGoes | src/services/llm.py:112 | in `"```json\n" + body + "\n```"` with a fence-free body only the opening "```json" is removed |
| Llm.ClosingFenceGoes | src/services/llm.py:112 | after that, removing "```" drops only the closing fence |
| Llm.CleanUnwrapsFence | src/services/llm.py:112 | cleaning `"```json\n" + body + "\n```"` gives back a fence-free, trimmed body: wrap then clean is the identity |
| Llm.ExtractFromTable | src/services/llm.py:28-124 | the request is issued iff the image opens, the `OPENAI` key is non-empty, encoding succeeds and the prompt is read; every failure yields `None`; a value is returned only after a request, and it is the JSON parse of the cleaned content of the first choice |
| Llm.NoRequestWithoutImageOrKey | src/services/llm.py:49-67 | with an image that cannot be opened or no API key, no request is issued and the result is `None` |
| Llm.FencedReplyIsParsed | src/services/llm.py:103-116 | a first choice wrapped in "```json" … "```" is parsed as its body |
| TariffStore.RowFromBindings | src/services/sqlite.py:124-137 | the insert statement binds its eleven parameters to the columns Country, Type, …, Bucket 3, doc_id, so the stored row read in that order is the parameter tuple |
| TariffStore.CreateDb | src/services/sqlite.py:50-85 | CREATE TABLE IF NOT EXISTS always succeeds, creates an empty table when there is none and leaves an existing table untouched |
| TariffStore.CreateDbIdempotent | src/services/sqlite.py:57-79 | creating the table twice is creating it once |
| TariffStore.InsertRecord | src/services/sqlite.py:113-152 | succeeds iff the table exists and the tuple has eleven values, each int within the signed 64-bit range sqlite3 can bind; then the row under `data[10]` is exactly `data`, the key set gains `data[10]`, and every other row is unchanged; a failure changes nothing; key/`doc_id` agreement is preserved |
| TariffStore.InsertIdempotent | src/services/sqlite.py:124-137 | inserting the same tuple twice leaves the same table as inserting it once |
| TariffStore.InsertStepKeys | src/services/sqlite.py:124-146 | the first insert of a batch adds the first tuple's `doc_id` exactly when the tuple is well formed: eleven values, every int within 64 bits |
| TariffStore.KeysOfSplit | src/services/sqlite.py:124-146 | the `doc_id`s of a batch are those of its head and those of its tail |
| TariffStore.InsertAllKeys | src/services/sqlite.py:59 | after a batch of inserts the keys are the old keys plus the `doc_id`s of the well-formed tuples (eleven values, every int within 64 bits) |
| TariffStore.InsertAllCount | src/services/sqlite.py:59 | after a batch of inserts the row count is the number of distinct `doc_id`s among the old keys and the well-formed tuples (eleven values, every int within 64 bits) |
| TariffStore.FetchRecords | src/services/sqlite.py:87-111 | `None` exactly without a table; otherwise every stored row is returned, and in a valid table every returned row is the row stored under its `doc_id` |
| TariffStore.RowOfColumns | src/services/sqlite.py:58-70 | reading an eleven-column `SELECT *` tuple column by column gives the row whose tuple it is |
| TariffStore.FetchAll | src/services/sqlite.py:94-105 | in a valid table the number of fetched records equals the number of rows |
| TariffStore.FetchedCount | src/services/sqlite.py:94-105 | rows under distinct keys are distinct, so as many rows are fetched as keys |
| TariffStore.QueryByCountry | src/services/sqlite.py:154-182 | `None` exactly without a table; a row is returned iff it is among the fetched rows and its Country equals the argument |
| TariffStore.CountryColumn | src/services/sqlite.py:58-70 | the third column of a `SELECT *` tuple is Country, and the tuple reads back as its row |
| TariffStore.ValuesNeverInsert | src/models/extractor.py:17-29 | inserting `values()` directly always fails and leaves the table unchanged |
| TariffStore.InsertTariff | src/services/sqlite.py:113-146 | inserting a tariff's values followed by its `doc_id` succeeds iff the table exists and `Free_days`, the buckets and an integer `doc_id` fit in 64 bits, and the stored row reads back as the tariff |
| TariffModels.Values | src/models/extractor.py:17-29 | `values()` has exactly ten components: the fields in declaration order |
| TariffModels.ValuesRoundTrip | src/models/extractor.py:17-29 | the tariff can be read back from `values()` |
| TariffModels.ValuesInjective | src/models/extractor.py:5-29 | two tariffs are equal iff their `values()` are |
| TariffModels.NewShippingTariff | src/models/extractor.py:5-15 | construction succeeds iff Country, Type, Equipment_Type, Currency and Free_days are given; those five are stored as given, each given optional field as given, and each omitted one as `None` |
| TariffModels.NewShippingTariffFromFields | src/models/extractor.py:5-15 | passing every field of a tariff rebuilds it |
| TariffModels.NewShippingTariffDefaults | src/models/extractor.py:8-15 | leaving out Liner_Name, Port and Bucket_1..3 sets each of them to `None` |
| TariffModels.NewTable | src/models/extractor.py:31-35 | `Table` construction succeeds iff img, pdf_file and page_no are given; `tariff` defaults to `None` |
| ScrapperModels.FromDict | src/models/scrapper.py:13-22 | total; each of the six fields is the dict's value for its key, or `''` when the key is missing |
| ScrapperModels.AsDict | src/models/scrapper.py:4-11 | `dataclasses.asdict`: the dict of an entry has exactly the six field names as keys, each mapped to its field |
| ScrapperModels.FieldsDetermineEntry | src/models/scrapper.py:4-11 | an entry is determined by its six fields |
| ScrapperModels.FromDictAsDict | src/models/scrapper.py:4-22 | building a dict from an entry's six fields and calling `from_dict` reproduces the entry |
| ScrapperModels.FromDictIgnoresExtraKeys | src/models/scrapper.py:14-22 | keys outside the six never change the result |
| ScrapperModels.FromEmptyDict | src/models/scrapper.py:16-21 | the empty dict gives the all-empty entry |
| ConfigModel.FromData | src/models/config.py:17-19 | construction succeeds iff the document is a mapping whose `scrapper` entry is a mapping with exactly the keys url, download_link and output_dir, and the fields are those entries |
| ConfigModel.ToDict | src/models/config.py:21-28 | `to_dict()` has the single key `scrapper`, mapped to exactly url, download_link and output_dir |
| ConfigModel.ConfigRoundTrip | src/models/config.py:19-28 | constructing a `Config` from `to_dict()` gives back the same `Config` |
| ConfigModel.OtherTopLevelKeysIgnored | src/models/config.py:19 | top-level keys other than `scrapper` do not change the result |
| ConfigModel.WrongKeysRefused | src/models/config.py:5-9 | a `scrapper` section with a missing or extra key is refused |

## Left out

- Logging, the module-level `Config.from_yaml` calls, `load_dotenv`, `sys.path` set-up, and `src/logger.py`: they have no effect on the modelled behaviour.
- `Extractor.__init__`, `load_model`, `setup_ocr`, torch device selection: model loading happens before the modelled code runs. `prediction`, cropping and `readtext` are the oracles of `Extractor.Vision`.
- The thresholds and paths come from `cfg.extractor.*` and `config.sqlite.name`, which `Config` does not define, so they are parameters (`Extractor.Settings`, the directory contents).
- Extractor.Run: the output directory is the set of its regular file names. Subdirectories, path joining, a failing `os.remove` and the logging of partial state are not modelled, because they are file-system behaviour. The existence of the PDF and the outcome of rendering and saving are parameters.
- Extractor.Run: when a prediction returns `None` part-way, the model does not say which of the unprocessed pages remain, because the listing order is arbitrary.
- Detector confidences and box coordinates are `real`s that are only compared and truncated. Floating-point rounding and NaN are not modelled.
- Llm.ExtractFromTable: the OpenAI client, PNG/base64 encoding, the prompt file read, `json.loads` and opening the image are oracles. The environment is a map, and `isinstance` checks become the shape of the image argument. Creating the client is assumed not to raise.
- TariffStore.InsertRecord: requires a non-null `doc_id`. SQLite allows NULL in a non-integer primary key, and such rows never collide, which the map model cannot express.
- SQLite type affinity (for example a text Bucket column storing an integer) is not modelled: values are stored as given. Connections, commits and closing are not modelled either.
- TariffStore.FetchRecords: returns a set of rows rather than a list of tuples. Each row stands for its `SELECT *` tuple (`SelectColumns`), and the order is left out because `SELECT *` without `ORDER BY` has none.
- Pydantic lax coercion (for example `"150"` to `150`) is not modelled; construction is typed.
- ScrapperModels.FromDict: the dict's values are strings. A non-string value would be stored as given by the dataclass, which this model does not represent.
- ConfigModel.FromData: YAML parsing is not modelled; the input is the already loaded document. A `scrapper` mapping with non-string keys is not representable.
- `src/services/scrapper.py` (HTTP downloads) and `main.py` (FastAPI glue) are not part of this model. The glue calls names the modelled code does not define.

## Findings

| source | as written | input that shows it | evidently intended | confidence | as-written member | corrected member |
|---|---|---|---|---|---|---|
| src/models/extractor.py:17-29 | `values()` returns ten components, and `main.py:44` passes them straight to `insert_record`, whose statement has eleven placeholders. The insert raises, is reported as `False`, and nothing is stored. | any `ShippingTariff`, for example Country "IN", Type "IB", Equipment_Type "20DC", Currency "USD", Free_days 5 | the ten values followed by a `doc_id`, stored under that `doc_id` | high (not executed) | TariffStore.ValuesNeverInsert | TariffStore.InsertTariff |
