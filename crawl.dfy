/** internal/collector.go: the collector that owns one run's column store, registers the
    pipeline's callbacks with colly, and persists the columns to bbolt. */
module Crawl {
  import opened Outcome
  import opened Scripts
  import opened Html
  import opened Gob
  import opened Colly
  import opened Pipeline
  import opened Bolt

  /** `initColly`: a synchronous collector with the script's user agent (or "Skrapa") and
      allowed domains, and one limit rule exactly when the script sets a nonzero delay. */
  function InitColly(script: Script): (o: CollyOptions)
    ensures !o.async && o.userAgent != ""
    ensures o.userAgent == (if script.main.userAgent == "" then DefaultUA else script.main.userAgent)
    ensures o.allowedDomains == script.main.allowedDomains
    ensures |o.limits| == (if script.main.delay == 0 then 0 else 1)
    ensures forall r :: r in o.limits ==> r == LimitRule(".*", script.main.delay, 0)
  {
    CollyOptions(
      false,
      UserAgentOr(script.main.userAgent),
      script.main.allowedDomains,
      if script.main.delay != 0 then [LimitRule(".*", script.main.delay, 0)] else [])
  }

  /** The ENTRIES pairs `save` writes: one encoded value sequence per column. */
  function EncodeColumns(data: ColumnStore): (kv: KV)
    ensures kv.Keys == data.Keys
    ensures forall k :: k in data ==> Decode(kv[k]) == Some(data[k])
  {
    DecodeEncodeAll(data);
    map k | k in data :: Encode(data[k])
  }

  lemma DecodeEncodeAll(data: ColumnStore)
    ensures forall k :: k in data ==> Decode(Encode(data[k])) == Some(data[k])
  {
    forall k | k in data ensures Decode(Encode(data[k])) == Some(data[k]) {
      DecodeEncode(data[k]);
    }
  }

  /** The store after a successful `save` of `data`. */
  function AfterSave(buckets: Buckets, data: ColumnStore): Buckets
    requires EntriesOf(buckets).Some?
  {
    WithEntries(buckets, EncodeColumns(data))
  }

  /** The ENTRIES pairs of the columns of `data` named in `keys`. */
  function EncodedPart(data: ColumnStore, keys: set<string>): KV {
    map k | k in data && k in keys :: Encode(data[k])
  }

  /** The URL a follow requests, as a list of at most one. */
  function Requested(item: PipelineItem, e: Element): seq<string> {
    match FollowTarget(item, e)
    case None => []
    case Some(u) => [u]
  }

  class Collector {
    const db: Database
    const script: Script
    const options: CollyOptions
    /** The column store of the run. */
    var data: ColumnStore
    /** The `OnHTML` callbacks registered with colly, in order. */
    var handlers: seq<Handler>
    /** The URLs handed to `Visit` by follow callbacks, in order. */
    var visits: seq<string>

    constructor (script: Script, options: CollyOptions, db: Database)
      ensures this.script == script && this.options == options && this.db == db
      ensures data == map[] && handlers == [] && visits == []
    {
      this.script := script;
      this.options := options;
      this.db := db;
      data := map[];
      handlers := [];
      visits := [];
    }

    /** The registration loop of `NewCollector`: one `OnHTML` callback per follow or
        collect item, in declaration order; other actions register nothing. */
    method RegisterPipeline()
      modifies this`handlers
      ensures handlers == old(handlers) + Handlers(script.pipeline)
    {
      var i := 0;
      while i < |script.pipeline|
        invariant 0 <= i <= |script.pipeline|
        invariant handlers == old(handlers) + Handlers(script.pipeline[..i])
      {
        var p := script.pipeline[i];
        RegisterNext(old(handlers), script.pipeline, i);
        match HandlerFor(p) {
          case Some(h) => handlers := handlers + [h];
          case None =>
        }
        i := i + 1;
      }
      assert script.pipeline[..i] == script.pipeline;
    }

    /** `follow`: visit the resolved link, unless visit-once is set and it is this page. */
    method Follow(e: Element, p: PipelineItem)
      modifies this`visits
      ensures visits == old(visits) + Requested(p, e)
    {
      var link := Attr(e, p.attribute);
      var u := e.request.absoluteURL(link);
      if p.visitOnce {
        if u == e.request.url {
          return;
        }
      }
      visits := visits + [u];
    }

    /** `collect`: append the extracted value to the item's column, whatever its name. */
    method Collect(e: Element, p: PipelineItem)
      modifies this`data
      ensures data == Append(old(data), p.column, CollectValue(p, e))
    {
      var value: string;
      if p.attribute == "text" {
        value := Text.TrimSpace(e.text);
      } else {
        value := Attr(e, p.attribute);
      }
      data := data[p.column := Column(data, p.column) + [value]];
    }

    /** One registered callback firing on a matched element. */
    method Dispatch(h: Handler, e: Element)
      modifies this`data, this`visits
      ensures h.action == OnFollow ==> data == old(data) && visits == old(visits) + Requested(h.item, e)
      ensures h.action == OnCollect ==> visits == old(visits) && data == Append(old(data), h.item.column, CollectValue(h.item, e))
    {
      match h.action
      case OnFollow => Follow(e, h.item);
      case OnCollect => Collect(e, h.item);
    }

    /** `save`: one transaction per column, in map order, each putting the column's encoding
        under its name in ENTRIES; the first failure is fatal and keeps the columns already
        written. Nothing outside ENTRIES changes. */
    method Save() returns (r: Result<()>)
      modifies db
      ensures r.Ok? <==> data == map[] || (EntriesOf(old(db.buckets)).Some? && "" !in data)
      ensures data == map[] ==> db.buckets == old(db.buckets)
      ensures r.Ok? && data != map[] ==> db.buckets == WithEntries(old(db.buckets), EncodeColumns(data))
      ensures r.Fatal? ==> r.error == SaveError(old(db.buckets))
      ensures r.Fatal? && EntriesOf(old(db.buckets)).None? ==> db.buckets == old(db.buckets)
      ensures r.Fatal? && EntriesOf(old(db.buckets)).Some? ==>
        exists w :: w <= data.Keys && "" !in w && db.buckets == WithEntries(old(db.buckets), EncodedPart(data, w))
    {
      var rest := data.Keys;
      ghost var written: set<string> := {};
      while rest != {}
        invariant written <= data.Keys && rest == data.Keys - written && "" !in written
        invariant written == {} ==> db.buckets == old(db.buckets)
        invariant written != {} ==> EntriesOf(old(db.buckets)).Some?
        invariant written != {} ==> db.buckets == WithEntries(old(db.buckets), EncodedPart(data, written))
        decreases rest
      {
        var k :| k in rest;
        var step := PutEntry(db.buckets, k, Encode(data[k]));
        if step.Fatal? {
          SaveFails(old(db.buckets), db.buckets, data, written, k);
          return Fatal(step.error);
        }
        ghost var before := db.buckets;
        db.buckets := step.value;
        SaveStep(old(db.buckets), before, data, written, k);
        rest := rest - {k};
        written := written + {k};
      }
      assert written == data.Keys;
      EncodedWhole(data);
      return Ok(());
    }
  }

  /** A failing write inside `save`: the first error is the store's, and the columns
      written before it are a set of non-empty names. */
  lemma SaveFails(start: Buckets, current: Buckets, data: ColumnStore, written: set<string>, k: string)
    requires k in data && k !in written && written <= data.Keys && "" !in written
    requires written == {} ==> current == start
    requires written != {} ==> EntriesOf(start).Some?
    requires written != {} ==> current == WithEntries(start, EncodedPart(data, written))
    requires PutEntry(current, k, Encode(data[k])).Fatal?
    ensures !(EntriesOf(start).Some? && "" !in data)
    ensures PutEntry(current, k, Encode(data[k])).error == SaveError(start)
    ensures EntriesOf(start).None? ==> current == start
    ensures EntriesOf(start).Some? ==>
      exists w :: w <= data.Keys && "" !in w && current == WithEntries(start, EncodedPart(data, w))
  {
    if written == {} {
      if EntriesOf(start).Some? {
        assert EncodedPart(data, {}) == map[];
        WithNoEntries(start);
      }
    } else {
      assert EntriesOf(current).Some?;
      assert DB in start && ENTRIES in start[DB].nested;
      assert k == "";
    }
  }

  lemma SaveStep(start: Buckets, before: Buckets, data: ColumnStore, written: set<string>, k: string)
    requires k in data && EntriesOf(before).Some? && EntriesOf(start).Some?
    requires written == {} ==> before == start
    requires written != {} ==> before == WithEntries(start, EncodedPart(data, written))
    ensures WithEntries(before, map[k := Encode(data[k])]) == WithEntries(start, EncodedPart(data, written + {k}))
  {
    var once := EncodedPart(data, written);
    EncodeColumnsGrow(data, written, k);
    if written == {} {
      assert once == map[];
      assert map[] + map[k := Encode(data[k])] == map[k := Encode(data[k])];
    } else {
      WithEntriesTwice(start, once, map[k := Encode(data[k])]);
    }
  }

  lemma EncodedWhole(data: ColumnStore)
    ensures EncodedPart(data, data.Keys) == EncodeColumns(data)
  {
    assert EncodedPart(data, data.Keys).Keys == data.Keys;
  }

  lemma EncodeColumnsGrow(data: ColumnStore, written: set<string>, k: string)
    requires k in data
    ensures EncodedPart(data, written) + map[k := Encode(data[k])] == EncodedPart(data, written + {k})
  {
    var a := EncodedPart(data, written) + map[k := Encode(data[k])];
    var b := EncodedPart(data, written + {k});
    assert a.Keys == b.Keys;
  }

  /** `NewCollector`: store the encoded script under SCRIPT in the DB bucket (a failure
      there panics), then register one callback per follow or collect item, in order. */
  method NewCollector(script: Script, db: Database) returns (r: Result<Collector>)
    modifies db
    ensures r.Ok? <==> PutScript(old(db.buckets), EncodeScript(script)).Ok?
    ensures r.Fatal? ==> db.buckets == old(db.buckets) && r.error == PutScript(old(db.buckets), EncodeScript(script)).error
    ensures r.Ok? ==> db.buckets == PutScript(old(db.buckets), EncodeScript(script)).value
    ensures r.Ok? ==> fresh(r.value) && r.value.db == db && r.value.script == script
    ensures r.Ok? ==> r.value.options == InitColly(script)
    ensures r.Ok? ==> r.value.data == map[] && r.value.visits == [] && r.value.handlers == Handlers(script.pipeline)
  {
    var options := InitColly(script);
    var write := PutScript(db.buckets, EncodeScript(script));
    if write.Fatal? {
      return Fatal(write.error);
    }
    db.buckets := write.value;
    var collector := new Collector(script, options, db);
    collector.RegisterPipeline();
    return Ok(collector);
  }
}
