# frivenmeld reconciliation pipeline, modelled in Dafny

The pipeline pairs users supplied by Friendly Vendor with Doximity's own
users and writes one match row per pair into a MySQL table. It has these
parts:

- Two producers fill queues.
  - `FrivenLoader` walks the pages of the Friendly Vendor `/users` API. It
    tags every user with the page the API reported and the user's 1-based
    row on that page.
  - `MysqlLoader` pages through the join of `user` and `user_practice`. It
    uses keyset pagination on the cursor (lastname, id).
- `Melder` merges the two lastname-ordered streams. Every lastname present
  on both sides becomes one group, in ascending lastname order; lastnames
  seen on one side only are dropped.
- `CombiningEngine` pairs the users of one group.
  - It indexes the MySQL users by `firstname::lastname` and refuses
    duplicate keys.
  - It probes the index with each Friendly Vendor user.
  - For each hit it builds a match record with three normalised
    string-equality flags and two "active within 30 days" flags.
  - It offers the record to the `MetricsCollector` as a sample, counts it,
    and hands it to the `MysqlWriter`.
- `MysqlWriter` buffers records up to a batch size. It sends them as one
  multi-row `INSERT` when the buffer overflows or `run_inserts` is called.
  In dry run nothing reaches the database.
- `MetricsCollector` counts matches, keeps the first ten records as
  samples, and splits the elapsed time into minutes and seconds.

Queues are finite sequences, and a queue that times out is a sequence that
has run out. The HTTP exchange is a function from request to response. The
MySQL join is the sequence of its rows in `order by lastname, id` order. The
database the writer talks to is the sequence of `(statement, params)` calls
that reach it. Clock readings are parameters.

Every stateful object of the source is a Dafny `class`, and every loop the
model covers is a method with a `while` loop; comprehensions, such as the
placeholder list of `run_inserts`, are functions. Each method is proved against a
function of its inputs and old state, and the properties are proved as
lemmas about those functions:

| module | file | models |
|---|---|---|
| `Text` | text.dfy | `lower`, `strip`, `replace`, `str(int)`, string `<` |
| `Dates` | dates.dfy | `datetime.date`: validity, day numbers, `str(date)` and `strptime("%Y-%m-%d")` on canonical text |
| `Records` | records.dfy | the user records and the dictionaries the writer stores |
| `FriendlyVendorApi` | friendly_vendor_api.dfy | `get_user_url`, `get_user_page`, `get_user_page_count` |
| `FrivenLoading` | friven_loader.dfy | `FrivenLoader` |
| `MysqlLoading` | mysql_loader.dfy | `MysqlLoader` |
| `Melding` | melder.dfy | `Melder` |
| `Combining` | combining.dfy | `CombiningEngine` |
| `MysqlWriting` | mysql_writer.dfy | `MysqlWriter` |
| `Metrics` | metrics.dfy | `MetricsCollector` |

`Melding.MergeJoin` is the reference merge-join; `Melder.Meld` is proved to
hand the engine exactly its groups. The loader orders and filters on the raw
`user.lastname`, while the melder compares `lastname.lower().strip()`. The
two orders agree when every MySQL lastname is already in that key form
(`Melding.KeyedLastnames`). Under that hypothesis, `Melding.LoadedMeld`
composes the two halves. The loader is started as `meld` starts it and run
until its loop ends. By `MysqlLoading.LoaderDeliversAll` it then yields a
stream on which `Melding.JoinFindsEveryMatch` and `Melding.JoinAscending`
hold.

## Model

| member | source | states |
|---|---|---|
| `Text.StripIdempotent` | app/frivenmeld/melder.py:83 | `strip()` applied twice is `strip()` once |
| `Text.KeyIdempotent` | app/frivenmeld/melder.py:104 | the comparison key `lower().strip()` is idempotent, so keys of keys are keys |
| `Text.LessTotal` | app/frivenmeld/melder.py:118-134 | two different lastnames are ordered one way or the other by `<` |
| `Text.LessTransitive` | app/frivenmeld/melder.py:118-134 | string `<` is transitive |
| `Text.LessAsymmetric` | app/frivenmeld/melder.py:118-134 | string `<` is asymmetric |
| `Text.NatToStringRoundTrip` | app/frivenmeld/friendly_vendor/friendly_vendor_api.py:47 | the decimal text `str(n)` reads back as `n` |
| `Dates.NextDayOrdinal` | app/frivenmeld/combining_engine.py:154 | the next calendar day is one day number later |
| `Dates.AddDaysOrdinal` | app/frivenmeld/combining_engine.py:154 | adding `n` days moves the day number by exactly `n`, so date subtraction counts days |
| `Dates.FormatThenParse` | app/frivenmeld/combining_engine.py:139-140 | `strptime(str(d), "%Y-%m-%d")` gives back `d` |
| `Dates.ParseThenFormat` | app/frivenmeld/combining_engine.py:122-123 | a date text that parses is exactly `str()` of its parsed date |
| `FriendlyVendorApi.UserUrlEndsWithPage` | app/frivenmeld/friendly_vendor/friendly_vendor_api.py:41-47 | the URL is the slash-stripped base, `/users?page=`, then the decimal page number |
| `FriendlyVendorApi.UserUrlDeterminesPage` | app/frivenmeld/friendly_vendor/friendly_vendor_api.py:41-47 | different page numbers give different URLs |
| `FriendlyVendorApi.UserUrlNormalisesBase` | app/frivenmeld/friendly_vendor/friendly_vendor_api.py:46 | leading and trailing slashes of the base never reach the URL |
| `FriendlyVendorApi.UserUrlExample` | app/frivenmeld/friendly_vendor/friendly_vendor_api.py:41-47 | the base `https://cute.sm/vi/` and page 3 give `https://cute.sm/vi/users?page=3` |
| `FriendlyVendorApi.Decode` | app/frivenmeld/friendly_vendor/friendly_vendor_api.py:71-104 | success iff status 200 with a JSON body holding all three members, giving (current_page, total_pages, users); a non-200 status yields the status-and-text error; a refused connection becomes a connection error |
| `FriendlyVendorApi.NotFoundExample` | app/frivenmeld/friendly_vendor/friendly_vendor_api.py:79-104 | a 404 with body "who cares" surfaces as "Unexpected Exception: Error hitting Friendly Vendor API (status_code 404): who cares" |
| `FriendlyVendorApi.GetUserPageCount` | app/frivenmeld/friendly_vendor/friendly_vendor_api.py:49-59 | the result is page 100000's `total_pages`, or that request's error |
| `FrivenLoading.TagPage` | app/frivenmeld/friendly_vendor/friven_loader.py:157-160 | one record per user, each tagged with the reported page and its 1-based row |
| `FrivenLoading.PushPage` | app/frivenmeld/friendly_vendor/friven_loader.py:157-160 | the page's tagged users are appended after those already queued |
| `FrivenLoading.PushedProvenance` | app/frivenmeld/friendly_vendor/friven_loader.py:140-160 | every pushed user is a user of one of the fetched pages, tagged with that page's reported number and its row |
| `FrivenLoading.ProduceStep` | app/frivenmeld/friendly_vendor/friven_loader.py:157-162 | one more non-empty page appends its tagged users and extends the run of non-empty pages |
| `FrivenLoading.Produce` | app/frivenmeld/friendly_vendor/friven_loader.py:132-168 | pushed = the tagged users of pages first, first+1, ... in order, all non-empty; it ends on an empty page, a failed fetch, the end page, or a stop request at the top of an iteration; from a start at most the end page, no page above the end page is fetched, whether it ends up pushed or ends the loop |
| `FrivenLoading.StopEndsEndlessRun` | app/frivenmeld/friendly_vendor/friven_loader.py:132-137 | on any API whose every page has a user, with no end page, a stop request seen at the top of iteration n ends the run after exactly n pages, having pushed the tagged users of pages first to first + n - 1 (`Pushed`) |
| `FrivenLoading.FrivenLoader.constructor` | app/frivenmeld/friendly_vendor/friven_loader.py:22-29 | no queue, start page 1, no end page |
| `FrivenLoading.FrivenLoader.InitQueue` | app/frivenmeld/friendly_vendor/friven_loader.py:78-85 | the queue exists with the given maxsize; the page range is unchanged |
| `FrivenLoading.FrivenLoader.SetPageRange` | app/frivenmeld/friendly_vendor/friven_loader.py:52-66 | the start is always set; a truthy last page must be at least the first and becomes the end; `None` or 0 leaves no end |
| `FrivenLoading.FrivenLoader.Run` | app/frivenmeld/friendly_vendor/friven_loader.py:113-168 | fails iff there is no queue; otherwise the fetch loop from the configured start and truthy end, fetching no page above a truthy end that is at least the start |
| `MysqlLoading.PrecedesTransitive` | app/frivenmeld/doximity/mysql_loader.py:225 | the (lastname, id) order is transitive |
| `MysqlLoading.PrecedesAsymmetric` | app/frivenmeld/doximity/mysql_loader.py:225 | the (lastname, id) order is asymmetric |
| `MysqlLoading.SelectedMember` | app/frivenmeld/doximity/mysql_loader.py:223-224 | a row is selected iff it is in the table and strictly after the cursor |
| `MysqlLoading.QueryMeaning` | app/frivenmeld/doximity/mysql_loader.py:212-229 | a batch holds at most `batchsize` rows; it is the leading part of the selection, and all of the selection when short |
| `MysqlLoading.SelectedOrdered` | app/frivenmeld/doximity/mysql_loader.py:225 | from an ordered table the selection is in (lastname, id) order |
| `MysqlLoading.CursorAdvances` | app/frivenmeld/doximity/mysql_loader.py:256-268 | a batch that keeps the loop going moves the cursor strictly forward and leaves strictly fewer rows to select |
| `MysqlLoading.LoopEnds` | app/frivenmeld/doximity/mysql_loader.py:244-268 | on any table the loop has ended after one more round than there are selected rows |
| `MysqlLoading.BatchStep` | app/frivenmeld/doximity/mysql_loader.py:244-268 | with unique ids and a fresh cursor, the loop goes on iff the batch is non-empty; the batch and the rows after the new cursor make up the selection |
| `MysqlLoading.LoaderDeliversAll` | app/frivenmeld/doximity/mysql_loader.py:231-268 | with unique positive ids, when the loop from (initial_lastname, 0) ends it has pushed every row after that cursor, in (lastname, id) order, each once, and nothing else |
| `MysqlLoading.SharedIdStopsEarly` | app/frivenmeld/doximity/mysql_loader.py:263-266 | when two lastnames share an id, a batch ending on the second looks empty and the loop ends with rows still ahead |
| `MysqlLoading.PushBatch` | app/frivenmeld/doximity/mysql_loader.py:256-261 | the rows are queued in order, and the last one's lastname and id become the next cursor |
| `MysqlLoading.Paginate` | app/frivenmeld/doximity/mysql_loader.py:231-268 | pushed is what the query rounds push; it ends on a stop request iff still running, or after the round that left the id unchanged |
| `MysqlLoading.MysqlLoader.constructor` | app/frivenmeld/doximity/mysql_loader.py:29-52 | the initial lastname is "" and there is no queue |
| `MysqlLoading.MysqlLoader.SetInitialLastname` | app/frivenmeld/doximity/mysql_loader.py:54-68 | the start lastname is replaced |
| `MysqlLoading.MysqlLoader.InitQueue` | app/frivenmeld/doximity/mysql_loader.py:134-148 | succeeds iff queue size and batch size are both positive, and changes nothing otherwise |
| `MysqlLoading.MysqlLoader.Run` | app/frivenmeld/doximity/mysql_loader.py:195-268 | fails iff the queue or batch size is unset; otherwise the query rounds from (initial_lastname, 0) |
| `Melding.RunLengthUnique` | app/frivenmeld/melder.py:171-190 | the run pulled by a drain loop is the only prefix of the working key that cannot be extended |
| `Melding.JoinSkipsMysql` | app/frivenmeld/melder.py:118-123 | a MySQL user whose key sorts first is skipped |
| `Melding.JoinSkipsFriven` | app/frivenmeld/melder.py:128-134 | a Friendly Vendor user whose key sorts first is skipped |
| `Melding.JoinTakesGroup` | app/frivenmeld/melder.py:148-201 | on equal keys the whole run of that key on each side is the next group |
| `Melding.JoinGroupsMatched` | app/frivenmeld/melder.py:148-201 | every group has users on both sides, all from the inputs, all with the group's key |
| `Melding.JoinFindsEveryMatch` | app/frivenmeld/melder.py:108-206 | on sorted inputs a Friendly Vendor user and a MySQL user with the same key are in one group |
| `Melding.JoinAscending` | app/frivenmeld/melder.py:108-206 | on sorted inputs the group keys strictly ascend, so each lastname is sent once |
| `Melding.DocumentedExample` | app/frivenmeld/melder.py:17-33 | the documented streams give the Allen group and the Asbury group; Arkin is dropped |
| `Melding.OneSidedSkipped` | app/tests/test_melder.py:105-211 | Opom, Redlin, Zoc, Queen and Yarrow form no group |
| `Melding.TestStreamsOneGroup` | app/tests/test_melder.py:78-211 | the test streams give exactly the Nistler group: Anthony, Judy and Kyle with Rona and Kyle |
| `Melding.SkipMysqls` | app/frivenmeld/melder.py:118-123 | MySQL users are pulled until one sorts at or after the Friendly Vendor user, or the stream runs out; the groups still to come are unchanged |
| `Melding.SkipFrivens` | app/frivenmeld/melder.py:128-134 | the mirror image for the Friendly Vendor stream |
| `Melding.PullRun` | app/frivenmeld/melder.py:171-190 | the pulled users are the maximal run of the working key from the current one |
| `Melding.NextGroup` | app/frivenmeld/melder.py:114-201 | one pass pulls at least one user and yields the next group of the merge-join, if any |
| `Melding.TakeRuns` | app/frivenmeld/melder.py:148-201 | the two pulled runs of the common key are the next group of the merge-join |
| `Melding.CombineEachCons` | app/frivenmeld/melder.py:200-206 | the first group is combined, and the rest only when it raised nothing |
| `Melding.LoaderOrderSorted` | app/frivenmeld/doximity/mysql_loader.py:225 | when every lastname is in key form, a table in `order by lastname, id` order is sorted by the melder's `lower().strip()` key |
| `Melding.LoadedMeld` | app/frivenmeld/melder.py:83-206 | the loader started at the first Friendly Vendor key and run to its end, over an ordered table with unique positive ids and lastnames in key form, feeds the merge-join a stream on which any Friendly Vendor user and table row with the same key end up in one group, and the groups ascend |
| `Melding.MeldedGroupsMatched` | app/frivenmeld/melder.py:148-201 | every group `meld` forms has users on both sides, so `combine` never meets an empty Friendly Vendor list |
| `Melding.Melder.constructor` | app/frivenmeld/melder.py:49-60 | the melder holds the given engine |
| `Melding.Melder.Meld` | app/frivenmeld/melder.py:62-206 | returns at once, without any group, iff the first Friendly Vendor get or the first MySQL get times out; the MySQL stream is the loader's output from the first Friendly Vendor key; the engine then sees exactly the merge-join's groups, in order, until a `combine` raises |
| `Melding.Melder.SendGroup` | app/frivenmeld/melder.py:208-219 | one `combine` of the group; when it raises nothing, the rest of the groups still follow |
| `Melding.Melder.SendGroups` | app/frivenmeld/melder.py:108-206 | the engine's new state and error are those from combining every merge-join group in order, stopping at the first error |
| `Combining.MatchKeyOfKeys` | app/frivenmeld/combining_engine.py:187-193 | the match key ignores case and surrounding whitespace of both names |
| `Combining.MatchKeyShape` | app/frivenmeld/combining_engine.py:193 | the key is the keyed firstname, `::`, and the keyed lastname |
| `Combining.StringsAreEqualSymmetric` | app/frivenmeld/combining_engine.py:157-164 | the flag is 0 or 1 and symmetric |
| `Combining.StringsAreEqualIgnoresCase` | app/frivenmeld/combining_engine.py:162 | a text and its lowered form compare equal |
| `Combining.StringsAreEqualMeaning` | app/frivenmeld/combining_engine.py:162-164 | 1 iff the normalised texts agree character by character, 0 otherwise |
| `Combining.UnderscoreMatchesSpace` | app/frivenmeld/combining_engine.py:162 | "a_b" matches "A b" |
| `Combining.LeadingUnderscoreKept` | app/frivenmeld/combining_engine.py:162 | stripping comes before replacing, so "_a" does not match "a" although " a" does, and normalising is not idempotent |
| `Combining.ActiveWithinThirtyDays` | app/frivenmeld/combining_engine.py:149-155 | a user last active `n` days before the report date is active iff `n` is at most 30 |
| `Combining.ThirtyDaysIsActive` | app/frivenmeld/combining_engine.py:155 | a 30-day gap is active and a 31-day gap is not |
| `Combining.FutureDateIsActive` | app/frivenmeld/combining_engine.py:154-155 | a last-active date on or after the report date is active |
| `Combining.CreateMatchRecord` | app/frivenmeld/combining_engine.py:116-146 | fails iff the Friendly Vendor date does not parse, with that text |
| `Combining.MatchRecordContents` | app/frivenmeld/combining_engine.py:129-145 | the two ids, page and row, the three flags over the paired columns, the two activity flags and the three dates as text |
| `Combining.MatchRecordComplete` | app/frivenmeld/combining_engine.py:129-145 | a stamped match record has every column the writer inserts |
| `Combining.IndexFinds` | app/frivenmeld/combining_engine.py:177-185 | with distinct keys every MySQL user is found under its own key |
| `Combining.DistinctSnoc` | app/frivenmeld/combining_engine.py:181-184 | one more user keeps the keys distinct iff its key is not yet in the index |
| `Combining.BuildIndex` | app/frivenmeld/combining_engine.py:177-185 | succeeds iff the keys are distinct, with the index of all users |
| `Combining.BuildMysqlDict` | app/frivenmeld/combining_engine.py:166-185 | `BuildIndex` under the match key |
| `Combining.ProbeMeaning` | app/frivenmeld/combining_engine.py:86-91 | a user yields a pair iff its key is in the index, paired with the user found there; users without a partner yield nothing |
| `Combining.TwoKylesBothMatch` | app/tests/test_combining_engine.py:30-111 | two Friendly Vendor Kyles both match the one MySQL Kyle, and Rona matches nobody |
| `Combining.AttemptsBuilt` | app/frivenmeld/combining_engine.py:122-123 | every record of a group is built iff every paired Friendly Vendor date parses |
| `Combining.FeedMeaning` | app/frivenmeld/combining_engine.py:109-113 | each record is sampled, counted and written, in order, once each |
| `Combining.FeedStops` | app/frivenmeld/combining_engine.py:86-91 | after an exception, later records change nothing |
| `Combining.MatchAllSnoc` | app/frivenmeld/combining_engine.py:86-91 | one more Friendly Vendor user is one more match step when its key is in the index |
| `Combining.MatchAllStops` | app/frivenmeld/combining_engine.py:86-91 | once the loop has raised, later users change nothing |
| `Combining.CombineRejects` | app/frivenmeld/combining_engine.py:81-84 | an empty Friendly Vendor list or a duplicate MySQL key raises before anything changes |
| `Combining.CombineLosesNothing` | app/frivenmeld/combining_engine.py:86-113 | outside dry run, with dates that parse, no error is raised, the match count grows by the number of pairs, and every record either went out in an insert, in order, or is still buffered |
| `Combining.CombiningEngine.constructor` | app/frivenmeld/combining_engine.py:16-23 | the engine holds its collector, writer and report date |
| `Combining.CombiningEngine.ProcessMatch` | app/frivenmeld/combining_engine.py:101-113 | the step of `MatchStep`: sample, count, write, or the date error |
| `Combining.CombiningEngine.Deliver` | app/frivenmeld/combining_engine.py:111-113 | `add_sample_row`, `increment_matches`, `add_record` on the same record, in that order |
| `Combining.CombiningEngine.Visit` | app/frivenmeld/combining_engine.py:86-91 | a match step iff the user's key is in the index |
| `Combining.CombiningEngine.Combine` | app/frivenmeld/combining_engine.py:25-98 | the new collector and writer state and the error are those of `Combined` |
| `MysqlWriting.InsertParamsLayout` | app/frivenmeld/doximity/mysql_writer.py:193-197 | thirteen parameters per record; position `13i+k` holds field `k` of stamped record `i` |
| `MysqlWriting.WorkerIdInEveryRow` | app/frivenmeld/doximity/mysql_writer.py:188 | every parameter row carries the writer's worker id in `_worker_id` |
| `MysqlWriting.PlaceholdersText` | app/frivenmeld/doximity/mysql_writer.py:169-175 | the placeholder group is `(` thirteen `%s` joined by `, ` `)` |
| `MysqlWriting.RunInsertsDrains` | app/frivenmeld/doximity/mysql_writer.py:183-216 | succeeds iff every record is complete; then the buffer is empty and, unless it was empty or in dry run, one insert of all records in buffer order was sent |
| `MysqlWriting.RunInsertsKeyError` | app/frivenmeld/doximity/mysql_writer.py:193-201 | a record lacking a field raises `KeyError` naming a missing field other than `_worker_id`; it and the records before it have left the buffer, and nothing is sent |
| `MysqlWriting.RunInsertsResult` | app/frivenmeld/doximity/mysql_writer.py:207-216 | a complete buffer ends empty, and an empty buffer sends nothing |
| `MysqlWriting.AddRecordBounded` | app/frivenmeld/doximity/mysql_writer.py:146-159 | the buffer never holds more than the queue's maxsize |
| `MysqlWriting.FirstAddsOnlyBuffer` | app/frivenmeld/doximity/mysql_writer.py:153-154 | up to capacity, records are only buffered |
| `MysqlWriting.OverflowFlushes` | app/frivenmeld/doximity/mysql_writer.py:153-159 | the (N+1)-th record sends the N buffered ones in one insert and is then buffered itself |
| `MysqlWriting.AddRecordStep` | app/frivenmeld/doximity/mysql_writer.py:146-159 | a record is either buffered, or the full buffer goes out and the record starts the next batch |
| `MysqlWriting.AddRecordConserves` | app/frivenmeld/doximity/mysql_writer.py:146-159 | one `add_record` loses no record |
| `MysqlWriting.AddRecordsConserve` | app/frivenmeld/doximity/mysql_writer.py:146-159 | outside dry run any number of `add_record` calls lose no record: what left the buffer was sent, in order |
| `MysqlWriting.DeleteScope` | app/frivenmeld/doximity/mysql_writer.py:132-144 | worker 0 deletes by date with one parameter; any other worker appends ` and _worker_id = %s` and its id |
| `MysqlWriting.DrainQueue` | app/frivenmeld/doximity/mysql_writer.py:183-205 | drains every record, stamped, with one placeholder group each and their values in field order; or stops at the first incomplete record with its `KeyError` |
| `MysqlWriting.FieldArgs` | app/frivenmeld/doximity/mysql_writer.py:195 | the values in field order, or the first missing field |
| `MysqlWriting.MysqlWriter.constructor` | app/frivenmeld/doximity/mysql_writer.py:26-61 | no queue, worker 0, the default table, not dry run, nothing sent |
| `MysqlWriting.MysqlWriter.SetWorkerId` | app/frivenmeld/doximity/mysql_writer.py:64-75 | only the worker id changes |
| `MysqlWriting.MysqlWriter.SetTable` | app/frivenmeld/doximity/mysql_writer.py:77-81 | only the table changes |
| `MysqlWriting.MysqlWriter.SetDryRun` | app/frivenmeld/doximity/mysql_writer.py:83-87 | only the dry-run flag changes |
| `MysqlWriting.MysqlWriter.InitQueue` | app/frivenmeld/doximity/mysql_writer.py:110-119 | succeeds iff the batch size is positive, with a new empty queue; nothing changes otherwise |
| `MysqlWriting.MysqlWriter.ExecuteCall` | app/frivenmeld/doximity/mysql_writer.py:218-234 | the call is recorded, unless in dry run |
| `MysqlWriting.MysqlWriter.RemoveRecordsForDate` | app/frivenmeld/doximity/mysql_writer.py:121-144 | sends the delete of `DeleteCall` |
| `MysqlWriting.MysqlWriter.RunInserts` | app/frivenmeld/doximity/mysql_writer.py:161-216 | the new state and error are those of `AfterRunInserts` |
| `MysqlWriting.MysqlWriter.AddRecord` | app/frivenmeld/doximity/mysql_writer.py:146-159 | the new state and error are those of `AfterAddRecord` |
| `Metrics.TruncDiv` | app/frivenmeld/metrics_collector.py:61 | Python's `int(a / b)`: the quotient truncated toward zero |
| `Metrics.DurationOf` | app/frivenmeld/metrics_collector.py:57-62 | seconds in 0..59; for a non-negative total, minutes*60 + seconds is the total |
| `Metrics.SampleStep` | app/frivenmeld/metrics_collector.py:42-44 | a row is kept iff fewer than ten are held |
| `Metrics.SamplesArePrefix` | app/frivenmeld/metrics_collector.py:37-44 | the samples are the first ten rows ever offered |
| `Metrics.SamplesSnoc` | app/frivenmeld/metrics_collector.py:37-44 | offering one more row is one more `SampleStep` |
| `Metrics.TwentyOffersKeepTen` | app/tests/test_metrics_collector.py:14-15 | twenty offers of one row keep ten |
| `Metrics.MetricsCollector.constructor` | app/frivenmeld/metrics_collector.py:15-22 | no end time, no matches, no samples |
| `Metrics.MetricsCollector.IncrementMatches` | app/frivenmeld/metrics_collector.py:24-28 | the count grows by exactly one and nothing else changes |
| `Metrics.MetricsCollector.MarkEndTime` | app/frivenmeld/metrics_collector.py:30-35 | only the end time is set |
| `Metrics.MetricsCollector.AddSampleRow` | app/frivenmeld/metrics_collector.py:37-44 | `SampleStep` on the samples, keeping `num_samples == len(sample_rows) <= 10` |
| `Metrics.MetricsCollector.GetDuration` | app/frivenmeld/metrics_collector.py:46-68 | fails iff the end time is unset; otherwise `DurationOf` the whole elapsed seconds |

## Left out

- Threads, blocking queue operations and timeouts. A queue is the sequence of what was put on it, and a timed-out `get` is the end of that sequence. The `stop()` drain loops of both loaders are left out. A stop request is the loop iteration at which it is seen.
- `Melding.Melder.Meld`: the MySQL stream is a parameter `mysqlFrom`, a function of the start lastname. The melder does not see the join, so `meld` only reaches the rows the loader produced.
- `Melding.Melder.Meld`: the `stop()` calls are not modelled. They are reflected only in the `RanOut` ending versus the two endings that return before any `stop()`.
- MySQL collation and Unicode case folding. `lower` and `strip` are modelled on ASCII, with Python's `str.strip()` whitespace set. Key comparison is plain ordering on character codes, in the melder and in the loader's `where` and `order by`.
- `strptime` leniency. Only canonical `YYYY-MM-DD` text parses. The report date given to the engine's constructor is already parsed.
- `CombiningEngine`: the `friven_matched_users` lists are left out, because they are only logged. The same dictionary object being both the metrics sample and the writer's record (it is stamped with `_worker_id` in place) is not modelled: samples are values.
- `MysqlWriting.InsertParams`: the function skips an incomplete record. Every use is guarded by `AllComplete`, matching `run_inserts`, which raises `KeyError` before such a record could be sent.
- The SQL text is recorded as a `Statement` value. `Sql` gives its text. `RemoveRecordsForDate` builds the same text and `DeleteScope` states it.
- pymysql, connections, `commit`, `_query_dictionary`, `get_connection`, and `MysqlWriterException` on a database error. The writer's database is the sequence of recorded calls.
- `MysqlLoader._get_user_count`, `_get_percentage_count` and `init_queue_data_percent`, and `FrivenLoader._get_percentage_count` and `init_queue_data_percent`. They size queues with floating-point percentages and database or API counts.
- The HTTP request itself and JSON decoding. A response is its status, text and the three members read, or a raised exception.
- `FriendlyVendorApi.Decode`: for a missing member, the exception message carries the member's name, not Python's `TypeError` text.
- The loader's table is the join's rows already listed in `order by lastname, id` order. `Query` filters that listing by the `where` clause and takes `batchsize` rows. The completeness lemmas ask for an ordered table with unique positive ids. Uniqueness comes from the keys: `user.id` is the key of `user`, and the join on `user.practice_id = user_practice.id` (mysql_loader.py:220-222) gives each user at most one row when `user_practice.id` is a key as well. Positivity is assumed, as `AUTO_INCREMENT` ids are. The loop starts from id 0, so a batch ending on a row with id 0 stops it early (mysql_loader.py:263-266). `SharedIdStopsEarly` shows the same early stop for a shared id.
- `print_summary`, JSON dumping, `datetime.now()` (clock readings are parameters), all logging, `loggingsetup.py`, `setup.py`, `driver.py` and the validation scripts.
- `FrivenLoading.Produce` and `FrivenLoading.FrivenLoader.Run`: they require a ghost page `horizon` at which production must end: an empty or failing page, a page past the end page, or one the stop request comes before. Dafny needs it to prove termination. The model does not cover the one run left over: an API that never runs dry, no end page and no stop request. The source's loop would then go on fetching forever.
- `FrivenLoading.Produce` and `FrivenLoading.FrivenLoader.Run`: the bound on fetched pages holds only from a start at most the end page. `set_page_range` assigns the start before its `first <= last` assertion (friven_loader.py:56-59). A failed call therefore leaves the start above the end, and a later `run` still fetches and pushes the start page once before it stops at the end.
- `Melding.LoadedMeld` and `Melding.LoaderOrderSorted`: they assume lastnames in key form. The model compares raw lastnames by character code in the loader's `where` and `order by`. A loader started at the key "nistler" therefore skips a row whose raw lastname is "Nistler", and an ordered table need not be sorted by key. MySQL's case-insensitive collation is not modelled.
- `Metrics.DurationOf`: a negative elapsed time (a clock going backwards) is only described: Python's floor `%` then makes the parts recombine to the total plus 60.
