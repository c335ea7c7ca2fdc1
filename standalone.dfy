/** main.go: the older single-file program. Its state is global (the `saved` column store,
    the colly collector `c`, the decoded `config`), modelled as the fields of one object;
    it collates and writes the columns itself instead of persisting them. */
module Standalone {
  import opened Outcome
  import opened Scripts
  import opened Html
  import opened Colly
  import opened Pipeline
  import Export
  import Crawl

  /** `initCollector`'s options: the user agent defaults to "Skrapa"; a delay rule and a
      random-delay rule are added, in that order, each only when its value is nonzero.
      Colly's own default is a synchronous collector. */
  function ConfigOptions(config: Config): (o: CollyOptions)
    ensures !o.async && o.userAgent != ""
    ensures o.userAgent == (if config.main.userAgent == "" then DefaultUA else config.main.userAgent)
    ensures o.allowedDomains == config.main.allowedDomains
    ensures |o.limits| == (if config.main.delay == 0 then 0 else 1) + (if config.main.randomDelay == 0 then 0 else 1)
    ensures config.main.delay != 0 <==> LimitRule(".*", config.main.delay, 0) in o.limits
    ensures config.main.randomDelay != 0 <==> LimitRule(".*", 0, config.main.randomDelay) in o.limits
    ensures config.main.delay != 0 ==> o.limits[0] == LimitRule(".*", config.main.delay, 0)
  {
    var delay := if config.main.delay != 0 then [LimitRule(".*", config.main.delay, 0)] else [];
    var random := if config.main.randomDelay != 0 then [LimitRule(".*", 0, config.main.randomDelay)] else [];
    CollyOptions(false, UserAgentOr(config.main.userAgent), config.main.allowedDomains, delay + random)
  }

  /** What `save` leaves on disk, the file itself not modelled. */
  datatype Output =
    | JsonFile(path: string, records: seq<Export.Record>)
    | CsvFile(path: string, rows: seq<seq<string>>)
    | NoFile

  class Program {
    const config: Config
    /** The global `saved` column store. */
    var saved: ColumnStore
    /** The global collector `c`: None until `initCollector` builds it. */
    var options: Option<CollyOptions>
    /** The callbacks registered on `c`, in order. */
    var handlers: seq<Handler>
    /** The URLs handed to `c.Visit` by follow callbacks, in order. */
    var visits: seq<string>

    /** `init`, after the TOML decode: an empty column store. */
    constructor (config: Config)
      ensures this.config == config && saved == map[]
      ensures options == None && handlers == [] && visits == []
    {
      this.config := config;
      saved := map[];
      options := None;
      handlers := [];
      visits := [];
    }

    /** `initCollector`: a fresh collector, with no callbacks yet. */
    method InitCollector()
      modifies this`options, this`handlers
      ensures options == Some(ConfigOptions(config)) && handlers == []
    {
      options := Some(ConfigOptions(config));
      handlers := [];
    }

    /** `initPipeline`: one callback per follow or collect item, in pipeline order. It
        registers on the global collector, so `initCollector` must have run. */
    method InitPipeline()
      requires options.Some?
      modifies this`handlers
      ensures handlers == old(handlers) + Handlers(config.pipeline)
    {
      var i := 0;
      while i < |config.pipeline|
        invariant 0 <= i <= |config.pipeline|
        invariant handlers == old(handlers) + Handlers(config.pipeline[..i])
      {
        var p := config.pipeline[i];
        RegisterNext(old(handlers), config.pipeline, i);
        match HandlerFor(p) {
          case Some(h) => handlers := handlers + [h];
          case None =>
        }
        i := i + 1;
      }
      assert config.pipeline[..i] == config.pipeline;
    }

    /** `follow`: visit the resolved link, unless visit-once is set and it is this page. */
    method Follow(e: Element, p: PipelineItem)
      modifies this`visits
      ensures visits == old(visits) + Crawl.Requested(p, e)
    {
      var link := Attr(e, p.attribute);
      var u := e.request.absoluteURL(link);
      if p.visitOnce {
        if u == e.request.url {
          return;
        }
      }
      visits := visits + [u];
    }

    /** `collect`: append the extracted value to the item's column in `saved`. */
    method Collect(e: Element, p: PipelineItem)
      modifies this`saved
      ensures saved == Append(old(saved), p.column, CollectValue(p, e))
    {
      var value: string;
      if p.attribute == "text" {
        value := Text.TrimSpace(e.text);
      } else {
        value := Attr(e, p.attribute);
      }
      saved := saved[p.column := Column(saved, p.column) + [value]];
    }

    /** `save`: JSON records for format "json", CSV rows (header first) for "csv", and
        nothing for any other format; either export is fatal on an empty store. */
    method Save() returns (r: Result<Output>)
      ensures config.main.format != "json" && config.main.format != "csv" ==> r == Ok(NoFile)
      ensures config.main.format == "json" && r.Ok? ==>
        r.value.JsonFile? && r.value.path == config.main.file &&
        exists keys :: Export.Enumerates(keys, saved.Keys) && Export.IsJsonCollation(saved, keys, r.value.records)
      ensures config.main.format == "csv" && r.Ok? ==>
        r.value.CsvFile? && r.value.path == config.main.file && |r.value.rows| > 0 &&
        Export.Enumerates(r.value.rows[0], saved.Keys) && Export.IsCsvCollation(saved, r.value.rows[0], r.value.rows)
      ensures (config.main.format == "json" || config.main.format == "csv") && saved == map[] ==> r == Fatal(NoDataCollected)
      ensures (config.main.format == "json" || config.main.format == "csv") && saved != map[] && Export.EqualLengths(saved) ==> r.Ok?
      ensures r.Fatal? ==> r.error == NoDataCollected || r.error == IndexOutOfRange
      ensures saved != map[] && r.Fatal? ==> r.error == IndexOutOfRange
    {
      match config.main.format {
        case "json" =>
          var keys := Export.IterationOrder(saved);
          var recs := CollateJSON(saved, keys);
          if recs.Fatal? {
            return Fatal(recs.error);
          }
          return Ok(JsonFile(config.main.file, recs.value));
        case "csv" =>
          var keys := Export.IterationOrder(saved);
          var rows := CollateCSV(saved, keys);
          if rows.Fatal? {
            return Fatal(rows.error);
          }
          return Ok(CsvFile(config.main.file, rows.value));
        case _ =>
          return Ok(NoFile);
      }
    }
  }

  /** main.go's `collateJSON`, the same loop as the exporter's (its guard reads `< 1`). */
  method CollateJSON(data: ColumnStore, keys: seq<string>) returns (r: Result<seq<Export.Record>>)
    requires Export.Enumerates(keys, data.Keys)
    ensures keys == [] ==> r == Fatal(NoDataCollected)
    ensures keys != [] ==> (r.Fatal? <==> Export.ShortColumn(data, |data[keys[0]]|))
    ensures keys != [] && r.Fatal? ==> r.error == IndexOutOfRange
    ensures r.Ok? ==> Export.IsJsonCollation(data, keys, r.value)
  {
    r := Export.CollateJSON(data, keys);
  }

  /** main.go's `collateCSV`, the same loop as the exporter's (its guard reads `< 1`). */
  method CollateCSV(data: ColumnStore, keys: seq<string>) returns (r: Result<seq<seq<string>>>)
    requires Export.Enumerates(keys, data.Keys)
    ensures keys == [] ==> r == Fatal(NoDataCollected)
    ensures keys != [] ==> (r.Fatal? <==> Export.ShortColumn(data, |data[keys[0]]|))
    ensures keys != [] && r.Fatal? ==> r.error == IndexOutOfRange
    ensures r.Ok? ==> Export.IsCsvCollation(data, keys, r.value)
  {
    r := Export.CollateCSV(data, keys);
  }
}
