# ProductImporter core, modelled in Dafny

ProductImporter loads product rows from CSV files into a catalogue. Products are matched by
SKU without regard to case. The system starts deliveries of lifecycle events
(`ProductCreated`, `ProductUpdated`, `ProductDeleted`, `ImportStarted`, `ImportCompleted`) to
registered webhook subscribers over HTTP, and a delivery retries a failed POST with
exponential backoff. The API's deliveries run in the server's event loop. The worker's
`ImportCompleted` deliveries are started on a loop that is closed straight afterwards, so
they never complete a POST (see "## Left out"). This project models these parts:

- The import worker, `process_csv_import` (`tasks.dfy`, module `Tasks`):
  - the header is cleaned and checked for the required `sku` and `name` columns;
  - each row becomes a record keyed by cleaned column name, and is then normalised (trimmed
    values, the price rule);
  - the record is upserted into the catalogue by lower-cased SKU;
  - the worker keeps the created, updated and skipped counters;
  - `processed_records` is committed at every 50th processed row and once more at the end;
  - the job moves through its statuses: pending, parsing, validating, importing, then completed
    or failed.
- The pre-import de-duplicator, `preprocess_dedupe_csv` (`preprocesscsv.dfy`, module
  `Preprocess`):
  - the SKU column is chosen by candidate priority;
  - short rows are padded and rows with an empty SKU are dropped;
  - the sqlite `INSERT OR REPLACE` table is a class holding a map, filled in batches of 2000;
  - the output is the header, then the last row for each key, in ascending key order.
- Webhook fan-out and delivery (`webhook_service.dfy`, module `WebhookService`):
  - `trigger_webhook` starts one delivery task per enabled subscription that admits the event;
  - `send_webhook` is a function from the network's answers to the trace of attempts it makes,
    with the backoff after each attempt.
- The request layer:
  - the pydantic validators and field rules (`schemas.dfy`);
  - the product endpoints, including filtering and pagination (`products_api.dfy`);
  - the import endpoints: upload guards, job creation, dispatch failure, status and list
    (`imports_api.dfy`);
  - the webhook endpoints: create, update, delete, and the guards and single POST of the test
    endpoint (`webhooks_api.dfy`).
- Shared parts:
  - `models.dfy` holds the entities, and the tables that stand for the database;
  - `text.dfy` holds the Python string operations the code relies on (`strip`, `lower`,
    `replace`, `isalnum`, slicing), and the byte-wise string order of `ORDER BY`;
  - `base.dfy` holds `Option`, `Result` and the HTTP error.

## How the model stands in for the environment

- Tables. The catalogue (`Models.Catalogue`), the webhook subscriptions
  (`Models.WebhookStore`) and the import jobs (`Models.JobTable`) are classes whose methods
  change them in place.
  - An import job (`Models.ImportJob`) is a class, because the worker and the upload handler
    assign its fields one at a time.
  - It keeps two ghost logs: every committed status, and every committed `processed_records`
    value. These logs are what a client polling the job can observe.
  - A third ghost field, `completionAnnounced`, holds the status history as it stood when
    `ImportCompleted` was fired. It is how the contracts say that the event follows the
    completed commit.
- Identifiers and clocks. Record ids come from counters instead of `uuid4`. `created_at`
  also comes from a counter, so "newest first" means "highest counter first". The times
  written to `started_at` and `completed_at` are parameters.
- CSV. The file arrives already split: a header and rows of cells. An empty header means
  no encoding yielded one.
- Price parsing. Python's `float` is a parameter `Floats`: the price texts it accepts, and
  the value each one denotes. Every other text raises `ValueError`.
- Event delivery.
  - The event loop is a `WebhookService.Dispatcher`. It records the delivery tasks that
    `asyncio.create_task` would start.
  - `selectFails` says whether the subscription query raises. `trigger_webhook` swallows
    that error and then starts nothing.
  - The network's replies to a delivery are the parameter `answer`, indexed by `retry_count`.
- Task hand-off. The Celery queue is the `ImportsApi.TaskQueue` of dispatched job ids.
  `dispatchError` is the exception `delay` raises, if it raises one.
- Validation. Pydantic's 422 rejections are modelled as the set of field names that fail.
  Query parameters outside their bounds are rejected the same way.

### Delivery attempts

A delivery makes up to four POSTs: the first, then up to `max_retries` = 3 retries.
`retry_count` runs from 0 to 3, and another attempt is scheduled while
`retry_count < max_retries` (server/app/webhook_service.py:63-83). The retry warnings run
from `attempt 1/3` to `attempt 3/3`, and the last failure is logged as failed after 3
retries. The model follows this (`WebhookService.AlwaysFailing`).

### Replies checked against the response model

FastAPI checks what a handler returns against its `response_model`. `ProductResponse`
re-runs the `ProductBase` rules, the SKU validator included (server/app/schemas.py:10-40),
and `WebhookResponse` re-runs the URL rules (server/app/schemas.py:64-90). A row that fails
them turns the reply into a 500, after the handler has already committed and fired its
event. Two paths store such rows. The import worker keeps any non-empty trimmed SKU
(server/app/tasks.py:168-203), and `WebhookUpdate` does not check the URL scheme
(server/app/schemas.py:80-83). The model keeps both paths and gives the 500
(`Tasks.ImportAdmitsAnySku`, `ProductsApi.ImportedSkuUnlistable`,
`WebhooksApi.FtpUpdateRefusedReply`).

## Model

| member | source | states |
|---|---|---|
| Tasks.CleanFieldName | server/app/tasks.py:97 | defines the cleaning of one header name: strip whitespace, then `"`, then `'`, then the byte-order mark, then lower-case |
| Tasks.CleanFieldNames | server/app/tasks.py:97 | one cleaned name per header name, in the same position |
| Tasks.CleanPadded | server/app/tasks.py:97 | a name padded with whitespace cleans to its lower-cased core |
| Tasks.CleanByteOrderMark | server/app/tasks.py:97 | a leading byte-order mark is removed as well |
| Tasks.CheckHeader | server/app/tasks.py:95-102 | the job goes on iff the header is non-empty and its cleaned names include `sku` and `name`; the error text is the no-encoding message for an empty header, otherwise the missing-columns message |
| Tasks.FieldNameMap | server/app/tasks.py:107 | every header name maps to its cleaned name |
| Tasks.ReaderRowDistinct | server/app/tasks.py:109-116 | with distinct header names, the reader's row is the header zipped with the cells, and a missing cell is `None` |
| Tasks.RecordDistinct | server/app/tasks.py:109-116 | with distinct cleaned names, each cleaned name reads its own column's cell |
| Tasks.ReadRow | server/app/tasks.py:110-115 | the normalising loop over `row.items()` builds the record `Normalize` specifies |
| Tasks.Records | server/app/tasks.py:59-116 | defines the records read: one per row that has a cell, in file order, each keyed by cleaned column name |
| Tasks.ReadRecords | server/app/tasks.py:109-116 | the reading loop yields one record per non-blank row, in file order |
| Tasks.Trim | server/app/tasks.py:168-170 | defines the cell trimming `.strip().strip('"').strip("'")` |
| Tasks.TrimQuoted | server/app/tasks.py:168-170 | a value padded with whitespace and wrapped in double quotes trims to its contents |
| Tasks.PriceText | server/app/tasks.py:175 | the text given to the parser contains no `$` and no `,` |
| Tasks.PriceOf | server/app/tasks.py:172-181 | the price is never negative; it is 0 for an empty cell, an empty cleaned text or an unparseable one; a parsed non-negative value is kept; a non-zero price is the parsed value |
| Tasks.DescriptionOf | server/app/tasks.py:165-170 | the description is absent iff both `description` and `desc` are empty or missing |
| Tasks.NormalizeRow | server/app/tasks.py:161-186 | a record is skipped iff its trimmed SKU or name is empty; otherwise it carries the trimmed SKU and name, the description and the price rule's value |
| Tasks.ImportAdmitsAnySku | server/app/tasks.py:168-186 | a SKU with a space in it is not skipped: the worker imports it as it stands |
| Tasks.Outcomes | server/app/tasks.py:161-186 | each record is normalised on its own, in order |
| Tasks.Lookup | server/app/tasks.py:189 | the product found matches the SKU case-insensitively; none is found iff no product does |
| Tasks.LookupUnique | server/app/tasks.py:189 | under unique lower-cased SKUs, the lookup finds the one matching product |
| Tasks.UpsertStore | server/app/tasks.py:189-203 | defines one upsert: a case-insensitive hit rewrites name, description and price; a miss adds an active product under the next id |
| Tasks.UpsertOk | server/app/tasks.py:189-205 | one upsert keeps one product per lower-cased SKU, with every id below the counter |
| Tasks.ImportAll | server/app/tasks.py:154-222 | defines a whole import: each row outcome applied in file order, skipping or upserting and counting |
| Tasks.ImportAllOk | server/app/tasks.py:161-222 | a whole import keeps one product per lower-cased SKU |
| Tasks.ImportAllKeys | server/app/tasks.py:161-222 | afterwards the lower-cased SKUs are those held before plus those of the rows not skipped |
| Tasks.ImportAllSize | server/app/tasks.py:191-205 | each created row adds one product; no product is ever removed |
| Tasks.ImportAllCounts | server/app/tasks.py:183-222 | every row is counted exactly once, as created, updated or skipped; the skipped rows are exactly those without a SKU or name |
| Tasks.UpsertTouches | server/app/tasks.py:191-205 | an upsert leaves every product's SKU and `is_active` in place, and leaves products of other SKUs unchanged |
| Tasks.UpsertWrites | server/app/tasks.py:191-205 | after an upsert, the SKU's product has the row's name, description and price; a new one has the row's SKU and is active |
| Tasks.ImportAllKeepsLookup | server/app/tasks.py:189-205 | a SKU that no row names keeps its product unchanged |
| Tasks.ImportAllLastRowWins | server/app/tasks.py:191-195 | a SKU repeated in the file ends with the last row's name, description and price |
| Tasks.ImportAllFirstRowSpells | server/app/tasks.py:191-203 | a SKU already stored keeps its stored casing and `is_active`; a new SKU is stored as its first row spells it, and active |
| Tasks.ImportAllCreated | server/app/tasks.py:196-205 | `created` counts the distinct lower-cased SKUs that were in neither the catalogue nor an earlier row |
| Tasks.Checkpoints | server/app/tasks.py:209-211 | defines the `processed_records` values committed while the processed count climbs: each multiple of 50 |
| Tasks.CheckpointsAre | server/app/tasks.py:209-212 | the values committed mid-import are exactly 50, 100, ... up to the processed count |
| Tasks.ProgressMonotone | server/app/tasks.py:209-232 | the checkpoints strictly increase; the final count is the last and largest value committed, and repeats the last checkpoint when it is a multiple of 50 |
| Tasks.UpsertRow | server/app/tasks.py:189-205 | the in-place upsert does what the upsert specification does; it creates iff the SKU was absent |
| Tasks.ImportRow | server/app/tasks.py:161-222 | one record: the counters track the specification, and a commit happens when processed reaches a multiple of 50 |
| Tasks.ImportBatch | server/app/tasks.py:161-225 | a batch imports its records in order, with the same tracking |
| Tasks.ImportRecords | server/app/tasks.py:154-229 | all batches give the import of all records; `processed = created + updated` and `processed + skipped` is the record count; the progress log is the checkpoints |
| Tasks.FinishImport | server/app/tasks.py:232-236 | the final commit sets processed, completed and the completion time |
| Tasks.AnnounceCompleted | server/app/tasks.py:248-264 | the `ImportCompleted` fan-out of the payload, recording the status history committed when it fires |
| Tasks.CompleteImport | server/app/tasks.py:154-264 | the import of all records with its counters, then the completed commit, then the `ImportCompleted` fan-out with the final counters; the history recorded at the fan-out already ends in `Completed` |
| Tasks.ImportFile | server/app/tasks.py:130-264 | records counted into `total_records`; validating, importing, completed; the catalogue and counters are the import of the normalised records; the fan-out follows the completed commit |
| Tasks.FailImport | server/app/tasks.py:266-273 | the job becomes failed, with the error message and a completion time |
| Tasks.RunImport | server/app/tasks.py:50-273 | a bad header fails the job before any row (totals kept, catalogue and events untouched); otherwise the whole successful path, with the catalogue, counters, status history, progress log and events, the fan-out following the completed commit |
| Tasks.ProcessCsvImport | server/app/tasks.py:36-273 | an unknown job id changes nothing; a known job is run with every outcome `RunImport` states: a bad header fails it with catalogue and events untouched, any other file imports all records, completes the job and then fires `ImportCompleted` |
| Tasks.ImportHistory | server/app/tasks.py:52-143 | both paths from pending only move forward through the statuses |
| Preprocess.NormalizeHeader | server/app/preprocesscsv.py:63 | each header name is stripped and lower-cased, in place |
| Preprocess.IndexOf | server/app/preprocesscsv.py:67 | `list.index`: the first position holding the name; none iff absent |
| Preprocess.FirstPresent | server/app/preprocesscsv.py:65-68 | the first candidate, in candidate order, that the header contains; none iff no candidate is there |
| Preprocess.FirstPresentAt | server/app/preprocesscsv.py:65-68 | a candidate present with no earlier one present is the one chosen |
| Preprocess.SkuColumn | server/app/preprocesscsv.py:62-74 | the column chosen lies within the header |
| Preprocess.FindSkuColumn | server/app/preprocesscsv.py:62-74 | the scan loop finds the column `SkuColumn` chooses, or raises the error that lists the header |
| Preprocess.DefaultColumn | server/app/preprocesscsv.py:17-74 | with the default candidates (`sku`, `product_sku`, `id`, `code`), a column is found iff one of them is in the normalised header, and it is the highest-priority one present |
| Preprocess.EmptyHeaderFails | server/app/preprocesscsv.py:57-74 | an empty header never yields a SKU column |
| Preprocess.Pad | server/app/preprocesscsv.py:88-89 | a short row is extended with empty strings to the header's width; its cells are kept |
| Preprocess.Entries | server/app/preprocesscsv.py:86-98 | the rows that reach the table, at most one per input row: every entry kept has a non-empty key, equal to the lower-cased, trimmed SKU cell of its row padded to at least the header width |
| Preprocess.Upserts | server/app/preprocesscsv.py:83-106 | defines `INSERT OR REPLACE` of each entry in turn: the later entry with a key replaces the earlier one |
| Preprocess.UpsertsAppend | server/app/preprocesscsv.py:83-107 | inserting two runs of entries is inserting the first, then the second |
| Preprocess.UpsertsLastWins | server/app/preprocesscsv.py:83-107 | a key is in the table iff some entry has it, and it holds the row of the last such entry |
| Preprocess.UpsertsKeyed | server/app/preprocesscsv.py:83-107 | every stored row is stored under its own key |
| Preprocess.DedupeTable.InsertOrReplace | server/app/preprocesscsv.py:101 | `executemany` of a batch upserts each entry in turn |
| Preprocess.FillTable | server/app/preprocesscsv.py:84-107 | the reading loop, with its batches and final flush, leaves the table holding every kept entry upserted in file order |
| Preprocess.BatchingInvisible | server/app/preprocesscsv.py:84-107 | flushing in batches gives the same table as inserting row by row |
| Preprocess.LeastExists | server/app/preprocesscsv.py:115 | a non-empty key set has a least key |
| Preprocess.SortedKeys | server/app/preprocesscsv.py:115 | defines `ORDER BY sku_norm` of the table keys: one entry per key, least first |
| Preprocess.SortedKeysAscending | server/app/preprocesscsv.py:115 | `ORDER BY sku_norm` lists every key once, in strictly ascending order |
| Preprocess.AscendingUnique | server/app/preprocesscsv.py:115 | two strictly ascending lists with the same keys are equal |
| Preprocess.SortedKeysUnique | server/app/preprocesscsv.py:115 | any strictly ascending list of exactly the table's keys is the sorted key list |
| Preprocess.Ordered | server/app/preprocesscsv.py:115-120 | one row per key, in key order |
| Preprocess.WriteRows | server/app/preprocesscsv.py:110-120 | the output loop writes the table's rows in key order |
| Preprocess.OrderedKeys | server/app/preprocesscsv.py:115-120 | the rows written carry the sorted keys in their SKU column |
| Preprocess.Deduped | server/app/preprocesscsv.py:83-121 | defines the rows written after the header: the table filled from the entries, in key order |
| Preprocess.PreprocessDedupeCsv | server/app/preprocesscsv.py:8-129 | fails iff no SKU column is found, with the header in the message; otherwise the output is the header, then the deduplicated rows |
| Preprocess.DedupedRows | server/app/preprocesscsv.py:110-120 | output rows have strictly ascending keys, hence one per key; each is the last row read with its key; every kept row's key appears |
| WebhookService.Enabled | server/app/webhook_service.py:18-20 | exactly the enabled subscriptions |
| WebhookService.Admitting | server/app/webhook_service.py:22-25 | exactly those whose event list is empty or names the event |
| WebhookService.Fanout | server/app/webhook_service.py:18-29 | defines the delivery tasks of one event: one per enabled subscription whose event list is empty or names the event, in table order |
| WebhookService.FanoutExactlyOnce | server/app/webhook_service.py:22-29 | each subscription gets one delivery task if it is enabled and admits the event, otherwise none |
| WebhookService.FanoutTasksMatch | server/app/webhook_service.py:22-29 | every task started is for a subscribed webhook, to its URL, with the caller's event type and data |
| WebhookService.Triggered | server/app/webhook_service.py:13-32 | defines the tasks one `trigger_webhook` call starts: the fan-out, or none when the subscription query raises |
| WebhookService.TriggerWebhook | server/app/webhook_service.py:13-34 | the dispatching loop starts exactly the fan-out tasks, or none when the query fails; it never raises |
| WebhookService.SendWebhook | server/app/webhook_service.py:37-83 | at least one attempt, and at most four from `retry_count` 0 |
| WebhookService.AttemptAt | server/app/webhook_service.py:42-83 | attempt `i` has retry count `retryCount + i`, posts the envelope to the URL, gets `answer(retryCount + i)`, and waits `1·2^k` unless it is the last |
| WebhookService.LastAttempt | server/app/webhook_service.py:57-83 | the last attempt succeeded, or was made at the retry limit |
| WebhookService.SendWebhookTrace | server/app/webhook_service.py:37-83 | the whole trace, attempt by attempt; every attempt before the last failed |
| WebhookService.DeliveredIff | server/app/webhook_service.py:57-71 | delivery succeeds iff some attempt from `retryCount` up to 3 gets a 2xx |
| WebhookService.DelaysDouble | server/app/webhook_service.py:62-69 | each wait is `1·2^k`, so each doubles the one before |
| WebhookService.AlwaysFailing | server/app/webhook_service.py:62-83 | an endpoint that never answers 2xx gets exactly four attempts, with waits 1, 2 and 4 |
| WebhookService.SameSchedule | server/app/webhook_service.py:62-83 | a non-2xx response and an exception lead to the same schedule |
| Schemas.SkuAlphanumericIff | server/app/schemas.py:17-21 | a SKU passes iff every character is a letter, digit, `-` or `_`, and at least one is a letter or digit |
| Schemas.SeparatorsOnlyRejected | server/app/schemas.py:17-21 | a SKU of dashes and underscores only (`--`, or empty) is rejected |
| Schemas.ValidateProductCreate | server/app/schemas.py:10-21 | accepted iff SKU and name are present and valid (1..255, SKU charset) and the price is absent or at least 0; the defaults are price 0 and active; a rejection names exactly the fields that fail, among `sku`, `name` and `price` |
| Schemas.ValidateWebhookCreate | server/app/schemas.py:64-73 | accepted iff the URL is present, 1..500 long and starts with `http://` or `https://`; the defaults are an empty event list and enabled |
| Schemas.ProductUpdateValid | server/app/schemas.py:28-32 | defines the `ProductUpdate` field rules: a set name is 1..255 characters, a set price is at least 0 |
| Schemas.ProductSetFields | server/app/api/products.py:103 | defines `dict(exclude_unset=True)` of a product update: the fields set, in declaration order |
| Schemas.WebhookUpdateValid | server/app/schemas.py:80-83 | defines the `WebhookUpdate` rule: a set URL is 1..500 characters, with no scheme check |
| Schemas.UpdateSkipsSchemeCheck | server/app/schemas.py:64-83 | an update can carry a URL that creation refuses, because only `WebhookBase` checks the scheme |
| ProductsApi.ProductReplyValid | server/app/schemas.py:10-21 | defines what `ProductResponse` re-checks of a returned product: the `ProductBase` SKU, name and price rules |
| ProductsApi.CreatedReplyValid | server/app/schemas.py:24-25 | a product built from a validated `ProductCreate` passes the response model |
| ProductsApi.CreateProduct | server/app/api/products.py:15-39 | 400 iff the lower-cased SKU is already stored, with nothing changed; otherwise exactly one product under a fresh id, uniqueness kept, then one `ProductCreated` |
| ProductsApi.ApplyUpdate | server/app/api/products.py:103-105 | defines what an update means: each field the request sets takes its value, every other field and the SKU stay |
| ProductsApi.SetFieldsIsUpdate | server/app/api/products.py:103-105 | setting each set field in turn is the field-wise update |
| ProductsApi.UpdateIdempotent | server/app/api/products.py:103-105 | applying the same update twice equals applying it once |
| ProductsApi.UpdateKeepsFieldRules | server/app/schemas.py:28-32 | an update that passed the `ProductUpdate` rules leaves the name 1..255 characters long and the price at least 0 |
| ProductsApi.SetAttrs | server/app/api/products.py:103-105 | the `setattr` loop yields the update: set fields take their values, all others and the SKU stay |
| ProductsApi.UpdateProduct | server/app/api/products.py:92-118 | 404 iff the id is unknown, with nothing changed; otherwise only that product is updated and one `ProductUpdated` fires, and the reply is the updated product, or a 500 exactly when it fails the response model |
| ProductsApi.DeleteProduct | server/app/api/products.py:121-142 | 404 iff the id is unknown; otherwise exactly that product is removed, then one `ProductDeleted` with its old SKU and name |
| ProductsApi.DeleteAllProducts | server/app/api/products.py:145-152 | the catalogue is emptied; the message reports the count taken beforehand; no event |
| ProductsApi.MaxId | server/app/api/products.py:70 | the newest id of a non-empty set |
| ProductsApi.NewestFirst | server/app/api/products.py:70 | every id, once each, newest first |
| ProductsApi.Matches | server/app/api/products.py:55-63 | defines the filters: case-insensitive substring on SKU, name and description (a NULL description fails), equality on `is_active` |
| ProductsApi.Filtered | server/app/api/products.py:56-63 | exactly the products that pass every given filter |
| ProductsApi.FilteredOrder | server/app/api/products.py:56-70 | filtering keeps newest-first order |
| ProductsApi.MatchingIds | server/app/api/products.py:53-70 | exactly the matching products, newest first |
| ProductsApi.Offset | server/app/api/products.py:69 | defines `offset = (page - 1) * page_size` |
| ProductsApi.TotalPages | server/app/api/products.py:72 | defines `total_pages = (total + page_size - 1) // page_size` |
| ProductsApi.TotalPagesIsCeiling | server/app/api/products.py:72 | `total_pages` is the ceiling of total over page size: the pages cover all rows, the last page is not empty, and it is 0 iff total is 0 |
| ProductsApi.Window | server/app/api/products.py:69-70 | `OFFSET`/`LIMIT`: at most `limit` items, element `i` being item `offset + i`; empty past the end |
| ProductsApi.PageItems | server/app/api/products.py:70 | each id paired with its product, in order |
| ProductsApi.RejectedParams | server/app/api/products.py:44-45 | defines the query parameters refused: `page` below 1, `page_size` outside 1..100 |
| ProductsApi.PageRows | server/app/api/products.py:69-70 | defines the rows the page query returns: the window at the offset, with their products |
| ProductsApi.ListProducts | server/app/api/products.py:42-80 | 422 iff `page < 1` or the page size is outside 1..100, naming the bad parameters; otherwise a 500 iff `(page - 1) * page_size` is beyond the `bigint` range or a product on the page fails the response model; otherwise the page rows, the total and the page count |
| ProductsApi.AcceptedPage | server/app/api/products.py:42-80 | a page with accepted parameters and a `bigint` offset is given exactly when every product on it passes the response model |
| ProductsApi.ValidCatalogueListable | server/app/api/products.py:42-80 | a catalogue whose every product passes the response model lists every accepted page |
| ProductsApi.ImportedSkuUnlistable | server/app/schemas.py:17-21 | a catalogue holding the imported SKU `A B`, which the SKU validator refuses, answers page 1 with a 500 |
| ProductsApi.WindowAt | server/app/api/products.py:69-70 | item `j` is at position `j % size` of page `j / size + 1` |
| ProductsApi.PagesCover | server/app/api/products.py:66-72 | every matching product is among the rows of the page its position names |
| ProductsApi.PastLastPageEmpty | server/app/api/products.py:69-72 | a page past `total_pages` is accepted and empty while its offset is a `bigint`, and a 500 beyond |
| ImportsApi.UploadGuard | server/app/api/imports.py:25-36 | a non-`.csv` name fails first, then a size over 500 MiB, then an empty file, each with its 400 message; passes iff none applies |
| ImportsApi.FailDispatch | server/app/api/imports.py:62-68 | the job turns failed with the error message `Failed to start import task: ` plus the cause |
| ImportsApi.UploadCsv | server/app/api/imports.py:21-70 | a refused upload changes nothing; an accepted one appends one pending job with zero counters, fires `ImportStarted` (even if the dispatch then fails), then queues the job, or fails it and answers 500 with no completion time |
| ImportsApi.GetImportStatus | server/app/api/imports.py:73-79 | the job with that id, or 404 iff there is none |
| ImportsApi.Limited | server/app/api/imports.py:90 | `LIMIT` of a non-negative limit: the smaller of the row count and the limit |
| ImportsApi.ListImports | server/app/api/imports.py:82-91 | a 500 exactly when the limit is negative or beyond the `bigint` range (PostgreSQL refuses such a `LIMIT` and nothing catches the error); otherwise the most recent jobs, newest first, as many as the limit allows, and every job left out is older than every one listed |
| WebhooksApi.CreateWebhook | server/app/api/webhooks.py:16-23 | one new subscription under a fresh id, appended |
| WebhooksApi.ApplyWebhookUpdate | server/app/api/webhooks.py:53-55 | defines what a subscription update means: each field the request sets takes its value, every other field and the id stay |
| WebhooksApi.SetWebhookFieldsIsUpdate | server/app/api/webhooks.py:53-55 | setting each set field in turn is the field-wise update |
| WebhooksApi.UpdateKeepsUrlLength | server/app/schemas.py:80-83 | an update that passed the `WebhookUpdate` rule leaves the URL 1..500 characters long |
| WebhooksApi.SetWebhookAttrs | server/app/api/webhooks.py:53-55 | the `setattr` loop yields the update; the id stays |
| WebhooksApi.WebhookReplyValid | server/app/schemas.py:64-73 | defines what `WebhookResponse` re-checks of a returned row: the URL length and scheme rules |
| WebhooksApi.UpdateWebhook | server/app/api/webhooks.py:42-59 | 404 iff the id is unknown, with nothing changed; otherwise only that row changes, to the update, and the reply is the row, or a 500 exactly when it fails the response model |
| WebhooksApi.FtpUpdateRefusedReply | server/app/schemas.py:80-83 | an update to an `ftp://` URL passes `WebhookUpdate`, so it is committed, and its reply fails the response model |
| WebhooksApi.CreatedWebhookReplyValid | server/app/schemas.py:64-77 | a row created from a validated `WebhookCreate` passes the response model |
| WebhooksApi.DeleteWebhook | server/app/api/webhooks.py:62-71 | 404 iff the id is unknown; otherwise exactly that row goes, and the id is no longer present |
| WebhooksApi.ShownBody | server/app/api/webhooks.py:107 | none iff the body is empty; otherwise the first up to 500 characters |
| WebhooksApi.TestReply | server/app/api/webhooks.py:103-110 | `success` with the code and the shown body for any completed POST, whatever its code; 500 only when the POST raised |
| WebhooksApi.TestWebhook | server/app/api/webhooks.py:74-110 | 404 for an unknown id before 400 for a disabled one, neither posting; otherwise exactly one POST of `TestEvent` to its URL |
| WebhooksApi.TestIsFinalAttempt | server/app/api/webhooks.py:85-101 | the test's one POST is a delivery that starts at the retry limit: one attempt, no wait |
| Models.Catalogue.FindBySku | server/app/api/products.py:19-21 | the product found matches the SKU case-insensitively; none iff no product does |
| Models.Catalogue.Insert | server/app/api/products.py:26-28 | a new product under a fresh id; uniqueness kept |
| Models.Catalogue.Replace | server/app/api/products.py:103-107 | a product rewritten in place, its SKU kept |
| Models.Catalogue.Remove | server/app/api/products.py:131-132 | exactly that product removed |
| Models.Catalogue.Clear | server/app/api/products.py:148-150 | the catalogue emptied; the count taken beforehand |
| Models.WebhookStore.IndexOf | server/app/api/webhooks.py:49-51 | the position of the row with that id; none iff absent |
| Models.WebhookStore.Add | server/app/api/webhooks.py:19-22 | a row appended under a fresh id |
| Models.WebhookStore.Put | server/app/api/webhooks.py:53-57 | a row replaced in place, its id kept |
| Models.WebhookStore.RemoveAt | server/app/api/webhooks.py:69-70 | exactly one row removed, the others kept in order |
| Models.JobTable.Find | server/app/tasks.py:45-48 | the job with that id; none iff absent |
| Models.JobTable.Add | server/app/api/imports.py:39-45 | a new pending job with zero counters, a fresh id and the newest `created_at` |
| Text.Strip | server/app/tasks.py:97 | defines Python's `str.strip`: the strippable characters taken off both ends; the result neither starts nor ends with one |
| Text.StripPadding | server/app/tasks.py:97 | `strip` removes exactly the padding around a core that does not start or end with a stripped character |
| Text.StripInfix | server/app/tasks.py:97 | `strip` yields a slice of its input |
| Text.StripKeepsOut | server/app/tasks.py:175 | `strip` adds no character |
| Text.Lower | server/app/tasks.py:97 | `lower` is applied character by character |
| Text.LowerIdempotent | server/app/tasks.py:189 | lower-casing twice is lower-casing once |
| Text.RemoveChar | server/app/schemas.py:19 | `replace(c, '')` removes every `c` and keeps every other character |
| Text.RemoveCharAppend | server/app/tasks.py:175 | `replace(c, '')` works piece by piece, so the characters kept stay in their order |
| Text.Take | server/app/api/webhooks.py:107 | a slice `[:n]` is a prefix of length `min(n, len)` |
| Text.Less | server/app/preprocesscsv.py:115 | defines the order `ORDER BY` gives a text key: lexicographic by code point, a proper prefix first |
| Text.LessIrreflexive | server/app/preprocesscsv.py:115 | the key order is irreflexive |
| Text.LessTransitive | server/app/preprocesscsv.py:115 | the key order is transitive |
| Text.LessTotal | server/app/preprocesscsv.py:115 | any two different keys are ordered |

## Left out

- CSV reading: the file is given as one decoded header and its rows, already split.
  `csv.Sniffer`, the single-field header fallback and `csv.DictReader`/`csv.writer` quoting
  are library behaviour and are left out. A blank line is a row without cells, which
  `DictReader` skips. Extra cells beyond the header are dropped.
- Tasks.RunImport: the encoding loop of `process_csv_import` (server/app/tasks.py:64-125) is
  left out, and with it two behaviours of its own. `UnicodeDecodeError` is a `ValueError`, so
  `except ValueError: raise` (lines 120-122) fails the job at the first undecodable byte under
  `utf-8-sig`; `utf-8` and `latin-1` are never tried then. Any other exception, such as
  `csv.Error`, moves on to the next encoding without clearing `records` (lines 59, 123-125),
  so rows read before the error are imported a second time.
- `row_to_text`: writing a row to text and reading it back is treated as the identity.
- The `.get(orig_key, ...)` fallback key in the reading loop is never taken: every key of a
  `DictReader` row is a header name or `None`.
- Tasks.CleanFieldNames: a repeated original header name collapses into one dict key in
  `DictReader`. That ordering quirk is not modelled beyond "the later column wins".
- Floating point: `float(price_str)` is the `Floats` table. NaN, infinities and the rounding
  of the `Numeric` column are not modelled. The progress percentage and `response_time_ms`
  are only logged or reported, and are left out.
- Timestamps are counters or parameters. `datetime.utcnow()` is not modelled. Listing orders
  by the counter id, a total order, and ties between two `created_at` values are not
  modelled. In the program they are the rule for imported products: `created_at` is
  `server_default=func.now()` (server/app/models.py:88), the start time of the transaction,
  so every product the worker creates between two commits (server/app/tasks.py:209-211, 225)
  shares one `created_at`. Under `ORDER BY created_at DESC ... OFFSET`
  (server/app/api/products.py:70) the order among such products is not fixed, and pages may
  repeat or skip them. ProductsApi.PagesCover holds only under the model's total order.
- Concurrency and network: event loops, `asyncio.sleep`, `httpx` and the 5-second timeout.
  The waits are returned as values. The delivery tasks `create_task` starts are recorded, and never
  run or awaited.
- Tasks.CompleteImport and Tasks.AnnounceCompleted record the `ImportCompleted` deliveries
  only as started. In the worker, `run_until_complete` (server/app/tasks.py:259) returns as
  soon as `trigger_webhook` has created the tasks, and the loop is closed at line 262. The
  tasks are then still waiting on their first network step, so not one of them completes a
  POST. Delivery itself, `WebhookService.SendWebhook`, is modelled on its own.
- Persistence: SQLAlchemy sessions, commits, refreshes and autoflush are left out; so are
  sqlite PRAGMAs, temporary files and `os.unlink`. A product added earlier in an import is
  visible to later lookups. `app/database.py` is not part of this model.
- Store failures: a failing commit, and a row-level exception other than an empty SKU or
  name, are not modelled. Tasks.ImportAllCounts and Tasks.ImportRecords therefore state
  `processed + skipped = total` only for imports without store failures.
- Tasks.ProcessCsvImport: the worker does not check that the job is still pending, and
  re-running a job is not excluded. Celery's at-least-once dispatch is not modelled.
- Strings: `lower()` and `isalnum()` are modelled on ASCII only. Whitespace is the set of
  characters Python's `str.isspace` accepts. There is no Unicode case folding.
- Error texts: Python's `repr` of the header list assumes names without quotes or
  backslashes. The required-columns set is printed in one fixed order, while Python's set
  order may differ.
- Row order of unordered queries: `query(Webhook)...all()` (server/app/webhook_service.py:18-20)
  has no `ORDER BY`, so the database may return the subscriptions in any order. The model
  fixes it to the order of `Models.WebhookStore.rows`, and `WebhookService.Fanout` starts its
  tasks in that order.
- List filters: SQL `LIKE` wildcards (`%`, `_`) in a filter value are treated as literal
  characters.
- `get_product`, `get_webhook` and `list_webhooks` are single lookups or full reads. They
  are covered by `Models.Catalogue`, `Models.WebhookStore.IndexOf` and the `rows` field, and
  are not modelled on their own. Like the modelled handlers, they answer a 500 for a row that
  fails its response model (`ProductsApi.ProductReplyValid`, `WebhooksApi.WebhookReplyValid`).
- ImportsApi.UploadCsv: the event is modelled as firing before the dispatch result is known.
  The proved point is that `ImportStarted` fires even when dispatch fails. A missing file
  name and the temporary file are not modelled.
- Explicit JSON `null` in an update body is not modelled. A field left out is `None`.
- ProductsApi.ListProducts: the query defaults `page = 1` and `page_size = 20`
  (server/app/api/products.py:44-45) are FastAPI's filling-in of absent parameters; the model
  takes both parameters explicitly.
- ImportsApi.ListImports: the query default `limit = 50` (server/app/api/imports.py:84) is
  likewise left to the caller.
- Pydantic's 422 details are modelled only as the set of rejected field names.
