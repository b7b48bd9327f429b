# Velomagg bike-share puller, modelled in Dafny

The system pulls the Montpellier bike-share GBFS feeds. It stores timestamped snapshots of every station's status and information in two tables. Once a day it archives the previous day's rows as two CSV files in a GitHub repository. This project models the two services that do that work.

- **Ingestion** (`module Fetcher`):
  - `FindFeed` looks up a named sub-feed in the GBFS manifest.
  - The store methods turn a payload into a batch of entities. Each station entry is copied and stamped with the payload's `last_updated`.
  - The batch is saved into a table keyed by `(updated_time, station_id)`.
  - One `fetchData` cycle stores nothing unless the manifest named both sub-feed URLs.
- **Daily export** (`module DailyExport`):
  - Computes yesterday's inclusive window of seconds.
  - Runs the `Between` query ordered by `(updated_time, station_id)` on each table.
  - Lays the rows out as CSV: header, then one record per row.
  - Streams the CSV through `streamToBase64`, a loop that buffers chunks and encodes once at `end`.
  - Uploads to `dataset/<dir>/<DD-MM-YYYY>.csv` with the message `chore: add <path>`.
  - Runs the information step and then the statuses step, with no error handling between them.

Supporting modules:

- `Outcomes`: `Option` and `Result`.
- `Bytes`: the byte type.
- `Text`: JavaScript `String(n)` for integers, `padStart`, and code-point string order.
- `Entities`: the two entity records and their composite key.
- `Store`: the repository table as a class over a `map`.
  - `save` is an upsert.
  - `find` with a window filter and key order.
- `Calendar`: day numbers to civil dates, and `DD-MM-YYYY`.
- `Csv`: the layout and quoting of the CSV writer, with a reader that inverts it.
- `ExportCsv`: how each entity becomes a CSV record.
- `Utf8`: the bytes the stringifier's stream emits for each text chunk.
- `Base64`: section 4 of RFC 4648.

In these points the code behaves in ways a reader might not expect, and the model follows the code:

- **`save` is an upsert.** TypeORM's `save` updates the stored row when a key already exists, and inserts it otherwise. It runs in one transaction, so a failing save changes nothing. A save the database rejects is modelled only through the save's `failure` input (see `Store.Table.Save` under "## Left out"). This covers a batch that repeats a key not yet stored: its second INSERT breaks the primary key.
- **The sub-feeds are not isolated.** In `forkJoin`, a sub-feed response that arrives first is stored even if the other request later fails. A failure that arrives first cancels the other request, and that payload is not stored. The order is a parameter of the model (`Settlement`).
- **An empty day produces an empty file.** The CSV writer, given objects and no explicit columns, takes its columns from the first record. With zero rows it writes nothing, not even a header.
- **The export has no per-step isolation.** The first failure ends the export. A failed information step means no statuses request is made.

Time is modelled with a fixed UTC offset in minutes and instants in milliseconds. `unix()` rounds down, and `endOf('day')` is the day's last millisecond.

## Model

| member | source | states |
|---|---|---|
| Fetcher.FindFeed | src/fetcher.service.ts:54-59 | the result carries the requested name; it is the first manifest entry with that name; nothing is returned iff no entry has that name |
| Fetcher.StatusEntities | src/fetcher.service.ts:121-126 | one entity per station entry, in payload order; each has `updated_time == last_updated` and every other field equal to its entry's |
| Fetcher.InformationEntities | src/fetcher.service.ts:137-142 | one entity per station entry, in payload order; each has `updated_time == last_updated` and every other field equal to its entry's (lat/lon carried as is) |
| Fetcher.StatusBatchKeys | src/fetcher.service.ts:121-126 | the i-th status entity is keyed by `(last_updated, station_id of entry i)` |
| Fetcher.InformationBatchKeys | src/fetcher.service.ts:137-142 | the i-th information entity is keyed by `(last_updated, station_id of entry i)` |
| Fetcher.StatusBatchDeterministic | src/fetcher.service.ts:121-126 | two payloads with the same `last_updated` and stations give the same batch; no clock is involved |
| Fetcher.InformationBatchDeterministic | src/fetcher.service.ts:137-142 | two payloads with the same `last_updated` and stations give the same information batch; no clock is involved |
| Fetcher.OverlappingStatusCyclesCollapse | src/fetcher.service.ts:128 | saving the same status batch twice leaves the table as saving it once |
| Fetcher.OverlappingInformationCyclesCollapse | src/fetcher.service.ts:144 | saving the same information batch twice leaves the table as saving it once |
| Fetcher.Join | src/fetcher.service.ts:96-109 | `forkJoin` completes iff both requests succeed, and then delivers both payloads; a delivered payload is the one its request fetched; a successful response is delivered iff the other request succeeds too or this one settles first; a failed join reports the error that settles first |
| Fetcher.Cycle | src/fetcher.service.ts:91-109 | a payload is delivered only when the manifest names both sub-feed URLs; a failed manifest request, or a manifest missing either feed, delivers nothing and reports that error |
| Fetcher.NothingStoredUnlessBothUrlsResolved | src/fetcher.service.ts:91-117 | when the manifest fails or lacks either sub-feed, neither payload is stored and the cycle reports an error |
| Fetcher.CycleStoresFetchedPayloads | src/fetcher.service.ts:96-112 | a stored payload is exactly what was fetched from the URL the manifest names for it; the cycle completes iff both payloads are stored; when the manifest names both URLs and both GETs succeed, the cycle completes |
| Fetcher.InformationFailureCancelsStatuses | src/fetcher.service.ts:96-109 | an information request failing first cancels the statuses request, so no statuses are stored even when they would have been fetched |
| Fetcher.FetcherService.constructor | src/fetcher.service.ts:76-82 | the service holds the two given repositories, keyed by their entity keys |
| Fetcher.FetcherService.StoreStationsStatuses | src/fetcher.service.ts:120-134 | the status table becomes the upsert of the payload's batch, or stays unchanged when the save rejects; the error is caught and the logged outcome is the batch size or the error |
| Fetcher.FetcherService.StoreStationsInformation | src/fetcher.service.ts:136-150 | the information table becomes the upsert of the payload's batch, or stays unchanged when the save rejects; the error is caught and the logged outcome is the batch size or the error |
| Fetcher.FetcherService.FetchData | src/fetcher.service.ts:84-118 | each table becomes the upsert of the payload the cycle delivers to it, and is unchanged otherwise; the returned report is the cycle's `complete` or `error` |
| Entities.KeyLess | src/daily-export.service.ts:55-58 | the definition of `ORDER BY updated_time ASC, station_id ASC`: earlier `updated_time` first, then `station_id`; the lemmas below state that it is a strict total order |
| Entities.KeyLessIrreflexive | src/daily-export.service.ts:55-58 | no key sorts before itself |
| Entities.KeyLessTransitive | src/daily-export.service.ts:55-58 | the `(updated_time, station_id)` order is transitive |
| Entities.KeyLessTotal | src/daily-export.service.ts:55-58 | any two distinct keys are ordered one way or the other |
| Entities.KeyLessAsymmetric | src/daily-export.service.ts:55-58 | two keys never sort before each other |
| Text.StrLessTotal | src/daily-export.service.ts:57 | `station_id` order: any two distinct strings are ordered |
| Text.StrLessTransitive | src/daily-export.service.ts:57 | `station_id` order is transitive |
| Store.LastWithKey | src/fetcher.service.ts:128 | the result has the given key and is a batch entity with no later entity of that key, i.e. the last one; nothing is returned iff no entity has that key |
| Store.Upsert | src/fetcher.service.ts:128 | the saved table's keys are the old keys together with the keys of the batch |
| Store.UpsertAt | src/fetcher.service.ts:128 | after a save, a key holds the batch's last entity with that key, or its old row when the batch has none |
| Store.UpsertFrame | src/fetcher.service.ts:128 | keys that no entity of the batch carries are untouched |
| Store.UpsertStoresBatch | src/fetcher.service.ts:128 | every key of the batch is present after the save |
| Store.UpsertIdempotent | src/fetcher.service.ts:128 | saving a batch twice equals saving it once |
| Store.UpsertConsistent | src/entities/station-status.entity.ts:5-9 | one row per key, stored under its own key, is kept by every save |
| Store.LeastExists | src/daily-export.service.ts:55-58 | every non-empty set of keys has a least key |
| Store.SortedKeys | src/daily-export.service.ts:55-58 | a strictly ascending sequence holding exactly the keys of a set, each once |
| Store.IncreasingUnique | src/daily-export.service.ts:55-58 | the ascending order of a key set is unique |
| Store.InWindow | src/daily-export.service.ts:53 | the definition of `Between(lo, hi)` on `updated_time`, both bounds included; `Store.WindowQueryMeaning` and `Store.Table.Find` state the query in its terms |
| Store.WindowQuery | src/daily-export.service.ts:51-59 | the ordered query yields one row per stored key in the window |
| Store.WindowQueryMeaning | src/daily-export.service.ts:51-59 | the query yields only stored rows whose `updated_time` lies in `[lo, hi]`, both bounds included; it yields every such row; the rows come in strictly ascending key order |
| Store.Table.constructor | src/entities/station-status.entity.ts:1-9 | a fresh table is empty and keyed by the given key function |
| Store.Table.Save | src/fetcher.service.ts:128 | on success the rows become the upsert of the batch and the result is the batch size; on a rejection the rows are unchanged |
| Store.Table.Find | src/daily-export.service.ts:51-59 | the loop returns the window's rows in ascending key order, i.e. exactly the window query |
| Text.IntToDecimal | src/daily-export.service.ts:81-84 | `String(n)` is non-empty; it starts with `-` iff `n` is negative; a leading `0` only appears in `"0"` |
| Text.IntToDecimalRoundTrip | src/daily-export.service.ts:81-84 | `String(n)` of an integer parses back to `n` |
| Text.PadStart | src/daily-export.service.ts:87-89 | the padded field has the requested width and ends with the unpadded text |
| Text.PaddedDecimalInjective | src/daily-export.service.ts:87-89 | two non-negative numbers with equal padded decimal text are equal |
| Calendar.CivilFromDays | src/daily-export.service.ts:87-89 | the date of a day number is a valid calendar date whose day number is that day |
| Calendar.CivilFromDaysInjective | src/daily-export.service.ts:87-89 | distinct days have distinct dates |
| Calendar.FormatDDMMYYYY | src/daily-export.service.ts:87-89 | for a valid date, `DD-MM-YYYY` is the two-digit day, `-`, the two-digit month, `-`, and the year padded to at least four digits, at those positions |
| Calendar.FormatDDMMYYYYInjective | src/daily-export.service.ts:87-89 | distinct valid dates format differently |
| Csv.QuoteField | src/daily-export.service.ts:81-84 | a field without `,`, `"` or a newline is written as is; one with any of them is written between double quotes |
| Csv.FieldRoundTrip | src/daily-export.service.ts:81-84 | a written field (quoted iff it holds `,`, `"` or a newline, quotes doubled) reads back to itself |
| Csv.RecordRoundTrip | src/daily-export.service.ts:81-84 | a record joined with `,` and ended by a newline reads back to its fields |
| Csv.RecordsRoundTrip | src/daily-export.service.ts:81-84 | a sequence of written records reads back to the same records |
| ExportCsv.StatusFields | src/entities/station-status.entity.ts:1-32 | a status entity becomes one field per column, in declaration order, and the record reads back to the entity |
| ExportCsv.InformationFields | src/entities/station-information.entity.ts:1-23 | an information entity becomes one field per column, in declaration order, and the record reads back to the entity |
| ExportCsv.StatusRowsRoundTrip | src/daily-export.service.ts:81-84 | one CSV record per status entity, in order: reading the rows back gives the entities |
| ExportCsv.InformationRowsRoundTrip | src/daily-export.service.ts:81-84 | one CSV record per information entity, in order: reading the rows back gives the entities |
| ExportCsv.Layout | src/daily-export.service.ts:81-84 | no rows give no records; N > 0 rows give N + 1 records: the header and then the rows in order |
| ExportCsv.Stringify | src/daily-export.service.ts:81-84 | the text reads back as the layout's records, and it is empty iff there are no rows |
| ExportCsv.StatusesCsvRoundTrip | src/daily-export.service.ts:81-84 | the statuses file reads back to exactly the exported status rows |
| ExportCsv.InformationCsvRoundTrip | src/daily-export.service.ts:81-84 | the information file reads back to exactly the exported information rows |
| Utf8.Encode | src/daily-export.service.ts:103 | the stream's UTF-8 bytes for a text chunk: between one and four per character |
| Utf8.EncodeConcat | src/daily-export.service.ts:103 | the bytes of two concatenated strings are the concatenation of their bytes |
| Utf8.DecodeEncode | src/daily-export.service.ts:103 | UTF-8 decoding inverts the encoding of a text chunk |
| Base64.Encode | src/daily-export.service.ts:105 | the base64 text has 4 characters per started group of 3 bytes |
| Base64.DecodeEncode | src/daily-export.service.ts:105 | decoding the base64 text gives back the bytes |
| Base64.EncodeConcatAligned | src/daily-export.service.ts:105 | base64 of a concatenation splits at a boundary that is a multiple of 3 bytes |
| Base64.PerChunkEncodingDiffers | src/daily-export.service.ts:105 | some chunkings (two one-byte chunks, for instance) encode differently from the concatenation, so the single final encode matters; chunks aligned to 3 bytes do not (`Base64.EncodeConcatAligned`) |
| DailyExport.ExportWindow | src/daily-export.service.ts:46-49 | the window spans exactly one day of seconds, both ends included |
| DailyExport.ExportWindowBounds | src/daily-export.service.ts:46-49 | `upper == lower + 86399`; `lower <= upper < now`; `lower + 86400 <= now < lower + 2 * 86400` (all in seconds) |
| DailyExport.ExportWindowIsYesterday | src/daily-export.service.ts:46-49 | a second lies in the window iff it falls on the local day before the invocation's day |
| DailyExport.PathOf | src/daily-export.service.ts:87-89 | the path is `dataset/<dirname>/`, then the name, then `.csv`: its length, prefix, suffix, and the name as the text between them |
| DailyExport.ArchivePath | src/daily-export.service.ts:87-89 | the path starts with `dataset/<dirname>/` and ends with `.csv`, and the text between them is the day's `DD-MM-YYYY`, at least ten characters |
| DailyExport.CommitMessage | src/daily-export.service.ts:95 | the message is `chore: add ` followed by the path |
| DailyExport.PathOfInjective | src/daily-export.service.ts:87-89 | the path determines the file name within a directory |
| DailyExport.ArchivePathInjective | src/daily-export.service.ts:87-89 | distinct days are archived under distinct paths |
| DailyExport.PathsOfTablesDiffer | src/daily-export.service.ts:60-71 | a `stations_information` path never equals a `stations_statuses` path |
| DailyExport.ArchivePathsOfTablesDiffer | src/daily-export.service.ts:60-71 | the two files of any days never share a path |
| DailyExport.StreamToBase64 | src/daily-export.service.ts:100-107 | the loop settles exactly as the stream specification does: first `error` rejects; first `end` resolves with base64 of all chunks so far |
| DailyExport.SettleData | src/daily-export.service.ts:103 | consuming data chunks appends them, in arrival order, to the buffer |
| DailyExport.Settle | src/daily-export.service.ts:101-106 | the promise stays pending iff every event is a data chunk; a rejection carries the error of an `error` event |
| DailyExport.StreamSettles | src/daily-export.service.ts:101-106 | chunks then `end` resolve with base64 of their concatenation; chunks then `error` reject with that error, whatever follows |
| DailyExport.ConcatFront | src/daily-export.service.ts:105 | `Buffer.concat` of chunks is the first chunk followed by the rest's concatenation |
| DailyExport.RecordChunksConcat | src/daily-export.service.ts:81-85 | the stringifier's per-record chunks concatenate to the UTF-8 of the whole CSV text |
| DailyExport.UploadRequest | src/daily-export.service.ts:85-97 | the request's path is the day's archive path, its message is the commit message for that path, and its content decodes (base64) to the UTF-8 of the CSV text |
| DailyExport.UploadedContentDecodes | src/daily-export.service.ts:85-96 | the uploaded content decodes (base64, then UTF-8) to the CSV text |
| DailyExport.StatusUploadReadsBack | src/daily-export.service.ts:62-71 | the uploaded statuses file decodes and reads back to exactly the queried rows |
| DailyExport.InformationUploadReadsBack | src/daily-export.service.ts:51-60 | the uploaded information file decodes and reads back to exactly the queried rows |
| DailyExport.ExportOutcome | src/daily-export.service.ts:44-74 | the export succeeds iff no step fails; otherwise it fails with the error of the first failing step, in the order information query, information upload, statuses query, statuses upload |
| DailyExport.DailyExport.constructor | src/daily-export.service.ts:16-22 | the service holds the two given repositories, keyed by their entity keys |
| DailyExport.DailyExport.PushToGithub | src/daily-export.service.ts:76-98 | the request's path is the archive path for the day, its message is `chore: add <path>`, and its content is base64 of the UTF-8 CSV drained from the stream; the result is the upload's outcome |
| DailyExport.DailyExport.ExportData | src/daily-export.service.ts:44-74 | both tables are queried with one window, yesterday's; information is uploaded first, then statuses; a failing information step means no statuses request; the outcome is the first failure |

## Left out

- HTTP, rxjs and cron. The GET responses, the `forkJoin` settlement order, and whether each `save` rejects are all inputs to the model. Cron scheduling and overlapping cycles running concurrently are not modelled. The idempotence lemmas cover two cycles that save the same payload one after the other.
- The Octokit client. The `PUT .../contents` call is represented by the request it carries (`path`, `message`, `content`) and by the upload's outcome, given as an input. The fixed `owner` and `repo` values and the return value are not modelled.
- Logging. The store methods return what their log line would report; nothing else about logging is modelled.
- dayjs time zones. The local zone is a fixed UTC offset in minutes. DST changes, and a `subtract(1, 'day')` across one, are not modelled.
- Store.Table.Save: the database's own rejections are not derived from the batch. A batch that repeats a key not yet stored makes TypeORM insert twice; the primary key rejects the second insert and the transaction rolls back. Integer columns reject values of 2^31 and above, such as an `updated_time` after January 2038. The model's upsert lets these saves succeed; they are covered only when the `failure` input says the save rejects.
- Lone UTF-16 surrogates. Strings are modelled as sequences of Unicode scalar values. A lone surrogate in a `station_id` or `name`, which Node's encoder replaces with U+FFFD, is not modelled.
- Postgres collation. `station_id` is ordered by code point, not by the database's collation.
- DailyExport.DailyExport.PushToGithub: chunk boundaries are modelled as one chunk per written record, in the output encoding. The stringifier's own buffering of chunks is not modelled; only the concatenation matters to the result.
- DailyExport.DailyExport.PushToGithub: the stringifier's stream never emits `error` in this model, so that upload never rejects through `streamToBase64`. The error path of `streamToBase64` itself is modelled and proved in `StreamSettles`.
- csv-stringify beyond its defaults as called, and JavaScript number formatting.
  - Quoting follows the writer's default rule: a field holding `,`, `"` or a newline is quoted, with quotes doubled.
  - Numbers are integers written as `String(n)`. Exponent notation for magnitudes of 1e21 and above is not modelled.
- Coordinates. `lat`/`lon` are carried as opaque decimal text and are not parsed.
- Malformed JSON in the feeds. Payloads are modelled as already decoded and well typed.
- `src/app.module.ts` is not part of this model: it only wires the dependencies.
