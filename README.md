# skrapa: the pipeline engine, column store and exporter in Dafny

Skrapa is a declarative scraper. A TOML script names a start URL and an ordered pipeline
of rules. Each rule has a CSS selector, an action (`follow` or `collect`), an attribute
(`attr`, where `"text"` means the element's trimmed text), a column and a `visit_once`
flag. This project models the data path from a matched HTML element to an exported row:

- registering the pipeline's callbacks with colly, in declaration order;
- the `collect` action, which appends one value to one column of a
  `map[string][]string` column store;
- the `follow` action and its single-hop visit-once guard;
- persisting the store to bbolt: one gob-encoded `[]string` per column in the `ENTRIES`
  bucket nested in `DB`, with the script under `SCRIPT` in `DB`;
- reading the store back (`getData`) and transposing it into JSON records or CSV rows
  (`collateJSON`, `collateCSV`);
- the older `main.go`, which keeps the same store in a global and writes JSON or CSV
  straight away.

Modules, leaf first:

- `Outcome`: `Option`, `Result` and the fatal errors.
- `Text`: `strings.TrimSpace` with Go's `unicode.IsSpace`.
- `Scripts`: the script, config and pipeline-item records.
- `Html`: the element a callback receives.
- `Gob`: a stand-in codec with a proved round trip.
- `Colly`: collector options and callback registration.
- `Pipeline`: the column store and the two actions.
- `Bolt`: the store as a map of buckets.
- `Crawl`: internal/collector.go.
- `Export`: internal/exporter.go.
- `Standalone`: main.go.

Stateful source objects are classes. `Crawl.Collector` has `data`, `handlers` and
`visits`. `Bolt.Database` has `buckets`. `Standalone.Program` holds main.go's globals.
Their methods state the new state in terms of pure specification functions, and the
lemmas are proved about those functions.

Go map iteration order is an explicit argument of the collate methods (`keys`) and of
bbolt's `ForEach` (`order`), and their requires says that it lists the map's keys once
each. `Crawl.Collector.Save`, `Export.Exporter.ExportJSON`, `Export.Exporter.ExportCSV`
and `Standalone.Program.Save` choose the order themselves, arbitrarily, as a
`for k := range m` loop does: Save picks each next key with `:|`, and the others take
theirs from `Export.IterationOrder`, which picks keys the same way. Their contracts hold
whichever order is picked.

Behaviour of the code worth knowing, which the model keeps:

- A `collect` rule with an empty column is not rejected when the script is loaded. Its
  values go under the column `""`. `save` then fails, because bbolt refuses an empty key
  (`ErrKeyRequired`). Any columns written before that stay written.
- `getData` does not return an error when the entries bucket is missing. It dereferences
  a nil bucket, which panics (`Fatal(NilBucket(...))` here).
- `getData` discards the decode error. A value that does not decode ends the scan, and
  the columns read so far come back with no error.
- Columns of unequal length are neither padded nor rejected. The row count is the length
  of whichever column comes first in map order. A shorter column makes the collate
  functions panic on an index out of range (`Fatal(IndexOutOfRange)` here). Values past
  that count in longer columns are dropped.
- `ExportCSV` and `saveCSV` create the output file before collating. A "No data
  collected" failure therefore leaves an empty file behind.

## Model

| member | source | states |
|---|---|---|
| Text.TrimSpace | internal/collector.go:191 | the result neither starts nor ends with a space, and the input is the result with only spaces before and after it |
| Text.TrimSpacePadded | internal/collector.go:191 | trimming any space-padded trimmed string gives back exactly that string, so the trim is uniquely determined |
| Text.TrimSpaceIdempotent | main.go:187 | trimming twice is trimming once |
| Gob.Encode | internal/gob.go:8-16 | `gobEncode` of a `[]string`: the encoding is never empty, with at least the count and one cell per string |
| Gob.Decode | internal/gob.go:18-30 | `gobDecodeStringSlice`: a blob that decodes is non-empty and yields exactly as many strings as its leading count |
| Gob.DecodeIgnoresTrailing | internal/gob.go:24 | `decoder.Decode` reads one value: an encoded `[]string` followed by any further cells still decodes to that slice |
| Gob.DecodeEncode | internal/gob.go:8-30 | decoding an encoded `[]string` gives back the same sequence |
| Gob.EncodeInjective | internal/gob.go:8-16 | two different sequences never share an encoding |
| Gob.EncodeScript | internal/collector.go:37 | the script blob written under SCRIPT decodes back to the script's fields in declaration order, the domains preceded by their count |
| Gob.EncodeScriptInjective | internal/collector.go:37 | two different scripts never share a SCRIPT blob |
| Colly.UserAgentOr | internal/collector.go:103-106 | the user agent is the script's when non-empty, otherwise "Skrapa"; it is never empty |
| Colly.HandlerFor | internal/collector.go:66-78 | "follow" registers a follow callback and "collect" a collect callback on the item's selector with the item itself; any other action registers nothing |
| Colly.Handlers | internal/collector.go:65-79 | the registered callbacks: at most one per item, each running an item of the pipeline on that item's selector |
| Colly.HandlersConcat | internal/collector.go:65-79 | the callbacks of a pipeline `p + q` are those of `p` followed by those of `q`: registration keeps declaration order |
| Colly.HandlersSingle | internal/collector.go:65-79 | a one-item pipeline registers exactly that item's callback, if any |
| Colly.HandlersFromItems | internal/collector.go:65-79 | a callback is registered exactly when some pipeline item maps to it |
| Pipeline.Append | internal/collector.go:196 | the column gets exactly one value at its end and keeps its earlier values in order; an absent column (`""` included) becomes a one-element column; every other column is unchanged |
| Pipeline.CollectValue | internal/collector.go:189-194 | attribute "text" gives the trimmed element text; any other name gives that attribute's value, or "" when the element lacks it |
| Pipeline.FollowTarget | internal/collector.go:169-179 | the follow is skipped exactly when visit-once is set and the resolved link equals the request URL; otherwise the target is the resolved link |
| Pipeline.FollowGuard | internal/collector.go:174-181 | with visit-once a follow never targets the current page; without it every follow visits the resolved link |
| Pipeline.CollectAllColumn | internal/collector.go:196 | after any sequence of collect events, each column is its old values followed by the values sent to it, in event order |
| Pipeline.CollectAllKeys | internal/collector.go:196 | collect events never remove a column; the columns afterwards are the old ones plus every column an event named |
| Bolt.Put | internal/collector.go:151 | a put succeeds exactly for a non-empty key that is not a nested bucket; then that key holds the value and nothing else changes |
| Bolt.EntriesOf | internal/exporter.go:78 | `tx.Bucket(DB).Bucket(Entries)`: present exactly when DB exists and has a nested ENTRIES bucket |
| Bolt.WithEntries | internal/collector.go:141-151 | writing columns changes only the ENTRIES bucket: DB's own pairs, its other nested buckets and all other buckets stay as they were |
| Bolt.PutEntry | internal/collector.go:140-157 | one save transaction fails on a missing DB bucket (nil dereference), a missing ENTRIES bucket or an empty key; otherwise exactly that key is written in ENTRIES |
| Bolt.PutScript | internal/collector.go:43-52 | the script is written under SCRIPT in the DB bucket and nothing else in DB changes, ENTRIES and every other bucket included; a missing DB bucket or a nested bucket named SCRIPT is fatal |
| Bolt.ScriptSurvivesEntries | internal/collector.go:44 | writing any columns, even one named SCRIPT, leaves the stored script in place |
| Crawl.InitColly | internal/collector.go:102-120 | the collector is synchronous, has the defaulted user agent and the script's allowed domains, and has one delay rule exactly when the delay is nonzero |
| Crawl.EncodeColumns | internal/collector.go:146-151 | there is one entry per column, and each entry decodes back to that column's values |
| Crawl.Collector.constructor | internal/collector.go:57-62 | a new collector keeps its script, options and database and starts with an empty store, no callbacks and no visits |
| Crawl.Collector.RegisterPipeline | internal/collector.go:65-79 | the callbacks grow by one `OnHTML` callback per follow or collect item of the script's pipeline, in declaration order; other actions add none |
| Crawl.Collector.Follow | internal/collector.go:168-185 | the requested URLs grow by the follow target, or by nothing when the visit-once guard skips |
| Crawl.Collector.Collect | internal/collector.go:188-198 | the store becomes `Append` of the item's column and the extracted value |
| Crawl.Collector.Dispatch | internal/collector.go:67-78 | a follow callback only requests its target; a collect callback only appends its value |
| Crawl.Collector.Save | internal/collector.go:138-163 | success exactly when the store is empty, or when ENTRIES exists and no column is named ""; on success every column is ENTRIES-encoded over the old entries; on failure the first error is reported and only some non-empty-named columns were written |
| Crawl.NewCollector | internal/collector.go:32-82 | on success the database has the script written, and the collector has an empty store and one callback per follow or collect item in order; on failure the database is unchanged |
| Export.IterationOrder | internal/exporter.go:104-106 | the keys come out once each, in some order |
| Export.FirstFailure | internal/exporter.go:80-83 | this is the first position whose value does not decode; every value before it decodes |
| Export.ScanUpToFirstFailure | internal/exporter.go:79-87 | the scan yields exactly the keys before the first undecodable value, each with its decoded sequence, and it stops exactly when such a value exists |
| Export.ReadEntries | internal/exporter.go:74-95 | `getData`, running the `ForEach` callback `Export.Scan` over `order`: succeeds exactly when ENTRIES exists, otherwise a nil-bucket panic on whichever of DB or ENTRIES is missing; every column returned is a stored key whose value decodes to it |
| Export.ScanStays | internal/exporter.go:79-84 | once the scan has stopped, later keys are never read |
| Export.ScanDecodable | internal/exporter.go:79-87 | a bucket whose values all decode reads back whole, whatever the key order |
| Export.LoadAfterSave | internal/exporter.go:74-95 | after `save` over entries that all decode, `getData` returns the old columns overridden by the saved ones |
| Export.GetDataAfterFirstSave | internal/exporter.go:74-95 | the first save of a run into an empty ENTRIES bucket reads back as exactly the collector's store |
| Export.Exporter.constructor | internal/exporter.go:14-18 | `NewExporter` keeps the database it is given |
| Export.Exporter.GetData | internal/exporter.go:74-95 | panics on a missing DB or ENTRIES bucket; otherwise returns the scan's columns with no error, even after a decode failure |
| Export.Exporter.ExportJSON | internal/exporter.go:26-44 | a read error is passed on; otherwise "No data collected" exactly on an empty store, an index panic only on a non-empty one, success on equal-length columns, and the records are a JSON collation for some key order |
| Export.Exporter.ExportCSV | internal/exporter.go:47-71 | a read error is passed on; otherwise "No data collected" exactly on an empty store, an index panic only on a non-empty one, success on equal-length columns, and the header is a key order with the rows collated against it |
| Export.CollateJSON | internal/exporter.go:100-121 | fails with "No data collected" on no keys; fails with an index panic exactly when some column is shorter than the first key's column; otherwise gives `n` records, where `n` is the length of the first key's column, and record `i` maps each column to its `i`-th value and has no other keys |
| Export.RecordAt | internal/exporter.go:113-116 | record `i` has every column as a key with its `i`-th value, and it is missing exactly when some column has no `i`-th value |
| Export.CollateCSV | internal/exporter.go:124-148 | fails as collateJSON does; otherwise the first row is `keys`, there are `n+1` rows each of length `len(keys)`, and cell `(i+1, j)` is the `i`-th value of column `keys[j]` |
| Export.CsvRowIsJsonRecord | internal/exporter.go:140-142 | zipping the CSV header with row `i+1` gives JSON record `i` for the same keys |
| Export.JsonIndependentOfKeyOrder | internal/exporter.go:104-118 | when the columns have equal length, the records do not depend on the key order |
| Export.FirstKeyDecides | internal/exporter.go:112 | with unequal lengths the first key decides the outcome: for `{"a":["1"],"b":["1","2"]}`, "a" first collates into the one record `{"a":"1","b":"1"}` and "b" first has no collation (it panics) |
| Export.TwoColumnExample | internal/exporter.go:112-118 | `{"title":["a","b"],"price":["1","2"]}` gives the two aligned records in either key order |
| Export.SinglePageExport | internal/exporter.go:100-121 | one "text" collect into "title" exports as the single record holding the trimmed text |
| Standalone.ConfigOptions | main.go:58-81 | the user agent defaults to "Skrapa"; a delay rule and then a random-delay rule are added, each exactly when its value is nonzero |
| Standalone.Program.constructor | main.go:33-34 | the program starts with an empty `saved` store and no collector |
| Standalone.Program.InitCollector | main.go:58-81 | the global collector is rebuilt with `ConfigOptions` and has no callbacks |
| Standalone.Program.InitPipeline | main.go:97-113 | called once the global collector exists, the registered callbacks grow by those of the config's pipeline, in order, and unknown actions are ignored |
| Standalone.Program.Follow | main.go:164-181 | skips exactly when visit-once is set and the resolved link is the current URL; otherwise requests the resolved link |
| Standalone.Program.Collect | main.go:184-194 | appends to the global store with the same text-or-attribute rule as the collector |
| Standalone.Program.Save | main.go:116-159 | format "json" gives JSON records for some key order; "csv" gives CSV rows with the header first; any other format writes nothing; both exports fail with "No data collected" on an empty store and only with an index panic on a non-empty one |
| Standalone.CollateJSON | main.go:199-220 | the same contract as the exporter's collateJSON |
| Standalone.CollateCSV | main.go:223-247 | the same contract as the exporter's collateCSV |

## Left out

- colly's network side is not modelled: fetching, `Visit` and `Wait`, the request, error
  and response logging callbacks, and what limit rules do. `Visit` is synchronous
  (`Async(false)`), so a followed page is processed inside the follow callback. The model
  does not replay that recursion. It records each requested URL in `visits` and says
  nothing about the order in which later pages fill the store.
- `Run`, `main` and the fatal exit on a `Visit` error are left out, including colly
  refusing an already-visited URL or a disallowed domain. They are colly behaviour plus
  process exit.
- HTML parsing and selector matching are left out. A callback receives an element that
  already matched. `Request.AbsoluteURL` is an uninterpreted function field of the
  request.
- The gob wire format is replaced by a stand-in: a count of strings, then each string as
  its length and its code points, in integer cells. Like gob, the stand-in never yields an
  empty blob, fails on an empty or truncated one, and reads one value and ignores any cells
  after it. The core relies only on decode inverting encode. The stand-in's other failures
  (a negative count or length, a cell that is no code point) stand for gob's decoding
  errors in general; gob's own type descriptors and error cases are not modelled. The
  script is encoded as the list of its fields and is only ever written.
- bbolt is modelled as a map from bucket name to pairs plus one level of nested buckets.
  Transactions are atomic and a failed one changes nothing. `ForEach`'s key order, which
  bbolt sorts by bytes, is an explicit argument.
- These bbolt details are not modelled: key size (32768 bytes) and value size limits,
  closed or read-only transactions, and the creation of the DB and ENTRIES buckets. The
  code that creates those buckets is not part of this model.
- Go strings are byte strings. The model uses code points, so invalid UTF-8 and byte
  lengths are not represented.
- TOML parsing (internal/script_parser.go, `init`'s decode) and command-line flags are
  left out. So are logging, `json.Marshal`, `encoding/csv` quoting, and creating and
  writing files. An export yields the records or rows it would write.
- `time.Duration(delay) * time.Second` can overflow `int64` for huge delays. Limit rules
  keep the delay in seconds as an unbounded integer.
- Crawl.Collector.Save: when a column named "" makes bbolt fail, Go's random map order
  decides which other columns were written before it. The contract only says that some
  set of columns with non-empty names was written.
