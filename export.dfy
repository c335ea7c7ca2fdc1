/** internal/exporter.go: reading the ENTRIES bucket back into a column store, and turning
    the columns into JSON records or CSV rows. */
module Export {
  import opened Outcome
  import opened Gob
  import opened Pipeline
  import opened Bolt
  import Crawl
  import Html
  import Scripts
  import Text

  /** A JSON record: column name to the value of one row. */
  type Record = map<string, string>

  function Elems(s: seq<string>): set<string> {
    set k | k in s
  }

  /** `keys` lists the set `s` once each, in some order: what a `for k := range m` loop over
      a Go map, or a bbolt `ForEach`, produces. */
  predicate Enumerates(keys: seq<string>, s: set<string>) {
    Distinct(keys) && Elems(keys) == s
  }

  /** No key appears twice. */
  predicate Distinct(keys: seq<string>) {
    forall i, j :: 0 <= i < j < |keys| ==> keys[i] != keys[j]
  }

  /** The `for k := range data { keys = append(keys, k) }` loop: Go leaves the order open,
      and so does this method. */
  method IterationOrder<V>(m: map<string, V>) returns (keys: seq<string>)
    ensures Enumerates(keys, m.Keys)
  {
    var rest := m.Keys;
    keys := [];
    while rest != {}
      invariant rest <= m.Keys && Enumerates(keys, m.Keys - rest)
      decreases rest
    {
      var k :| k in rest;
      assert Elems(keys + [k]) == Elems(keys) + {k};
      keys := keys + [k];
      rest := rest - {k};
    }
  }

  // ---------------------------------------------------------------------------------------
  // getData

  /** How far the `ForEach` of `getData` got: the columns decoded so far, and whether a
      decode failure stopped it. */
  datatype ScanState = ScanState(read: ColumnStore, stopped: bool)

  predicate InBucket(kv: KV, order: seq<string>) {
    forall i :: 0 <= i < |order| ==> order[i] in kv
  }

  /** The `ForEach` callback run over `order`: each value is decoded and stored under its
      key; the first value that does not decode returns an error, which ends the scan. */
  function Scan(kv: KV, order: seq<string>): ScanState
    requires InBucket(kv, order)
    decreases |order|
  {
    if order == [] then ScanState(map[], false)
    else
      var prev := Scan(kv, order[..|order| - 1]);
      var k := order[|order| - 1];
      if prev.stopped then prev
      else match Decode(kv[k])
        case None => ScanState(prev.read, true)
        case Some(vs) => ScanState(prev.read[k := vs], false)
  }

  /** The index of the first key in `order` whose value does not decode, |order| if none. */
  function FirstFailure(kv: KV, order: seq<string>): (j: nat)
    requires InBucket(kv, order)
    ensures j <= |order|
    ensures forall i :: 0 <= i < j ==> Decode(kv[order[i]]).Some?
    ensures j < |order| ==> Decode(kv[order[j]]).None?
    decreases |order|
  {
    if order == [] then 0
    else
      var init := order[..|order| - 1];
      assert forall i :: 0 <= i < |init| ==> init[i] == order[i];
      var j' := FirstFailure(kv, init);
      if j' < |init| then j'
      else if Decode(kv[order[|order| - 1]]).None? then |init|
      else |order|
  }

  /** The decoded values of the keys `keys`, where they decode. */
  function DecodeOn(kv: KV, keys: set<string>): ColumnStore {
    map k | k in keys && k in kv && Decode(kv[k]).Some? :: Decode(kv[k]).value
  }

  /** The whole bucket decoded. */
  function DecodeAll(kv: KV): ColumnStore {
    DecodeOn(kv, kv.Keys)
  }

  /** `getData`'s scan yields exactly the keys before the first undecodable value, each
      with its decoded sequence, and stops exactly when there is such a value. */
  lemma {:induction false} ScanUpToFirstFailure(kv: KV, order: seq<string>)
    requires InBucket(kv, order)
    ensures var j := FirstFailure(kv, order);
      Scan(kv, order) == ScanState(DecodeOn(kv, Elems(order[..j])), j < |order|)
    decreases |order|
  {
    if order == [] {
      assert DecodeOn(kv, Elems(order[..0])) == map[];
    } else {
      var init := order[..|order| - 1];
      ScanUpToFirstFailure(kv, init);
      var j' := FirstFailure(kv, init);
      if j' < |init| {
        assert init[..j'] == order[..j'];
      } else {
        assert init[..j'] == init;
        if Decode(kv[order[|order| - 1]]).Some? {
          ScanExtends(kv, order);
        }
      }
    }
  }

  /** One more decodable key extends the decoded prefix by that key. */
  lemma ScanExtendsStore(kv: KV, order: seq<string>)
    requires |order| > 0 && InBucket(kv, order)
    requires Decode(kv[order[|order| - 1]]).Some?
    ensures DecodeOn(kv, Elems(order))
      == DecodeOn(kv, Elems(order[..|order| - 1]))[order[|order| - 1] := Decode(kv[order[|order| - 1]]).value]
  {
    var init := order[..|order| - 1];
    assert Elems(order) == Elems(init) + {order[|order| - 1]} by {
      assert order == init + [order[|order| - 1]];
    }
  }

  lemma ScanExtends(kv: KV, order: seq<string>)
    requires |order| > 0 && InBucket(kv, order)
    requires FirstFailure(kv, order[..|order| - 1]) == |order| - 1
    requires Decode(kv[order[|order| - 1]]).Some?
    ensures DecodeOn(kv, Elems(order[..FirstFailure(kv, order)]))
      == DecodeOn(kv, Elems(order[..|order| - 1]))[order[|order| - 1] := Decode(kv[order[|order| - 1]]).value]
  {
    assert order[..|order|] == order;
    ScanExtendsStore(kv, order);
  }

  /** `getData` over a store: a nil-bucket panic when DB or ENTRIES is missing, else the
      scan's columns. The callback's error is dropped, so a decode failure still succeeds. */
  function ReadEntries(buckets: Buckets, order: seq<string>): (r: Result<ColumnStore>)
    requires EntriesOf(buckets).Some? ==> InBucket(EntriesOf(buckets).value, order)
    ensures r.Ok? <==> EntriesOf(buckets).Some?
    ensures r.Fatal? ==> r.error == NilBucket(if DB in buckets then ENTRIES else DB)
    ensures r.Ok? ==> forall k :: k in r.value ==>
      k in EntriesOf(buckets).value && Decode(EntriesOf(buckets).value[k]) == Some(r.value[k])
  {
    if DB !in buckets then Fatal(NilBucket(DB))
    else if ENTRIES !in buckets[DB].nested then Fatal(NilBucket(ENTRIES))
    else
      var kv := buckets[DB].nested[ENTRIES];
      ScanUpToFirstFailure(kv, order);
      Ok(Scan(kv, order).read)
  }

  /** A bucket whose every value decodes reads back whole, in any key order. */
  lemma ScanDecodable(kv: KV, order: seq<string>)
    requires Enumerates(order, kv.Keys)
    requires forall k :: k in kv ==> Decode(kv[k]).Some?
    ensures Scan(kv, order) == ScanState(DecodeAll(kv), false)
  {
    ScanUpToFirstFailure(kv, order);
    var j := FirstFailure(kv, order);
    assert forall i :: 0 <= i < |order| ==> order[i] in Elems(order);
    assert j == |order|;
    assert order[..j] == order;
  }

  /** Round trip: after `save` wrote the columns over an ENTRIES bucket whose values all
      decode, `getData` returns the old columns overridden by the saved ones. */
  lemma LoadAfterSave(buckets: Buckets, data: ColumnStore, order: seq<string>)
    requires EntriesOf(buckets).Some?
    requires forall k :: k in EntriesOf(buckets).value ==> Decode(EntriesOf(buckets).value[k]).Some?
    requires Enumerates(order, EntriesOf(buckets).value.Keys + data.Keys)
    ensures EntriesOf(Crawl.AfterSave(buckets, data)).Some?
    ensures ReadEntries(Crawl.AfterSave(buckets, data), order) == Ok(DecodeAll(EntriesOf(buckets).value) + data)
  {
    var old' := EntriesOf(buckets).value;
    var kv := old' + Crawl.EncodeColumns(data);
    assert EntriesOf(Crawl.AfterSave(buckets, data)) == Some(kv);
    assert kv.Keys == old'.Keys + data.Keys;
    assert forall k :: k in kv ==> Decode(kv[k]).Some?;
    ScanDecodable(kv, order);
    DecodeOverride(old', data);
  }

  /** Decoding an old bucket overridden by freshly encoded columns. */
  lemma DecodeOverride(old': KV, data: ColumnStore)
    ensures DecodeAll(old' + Crawl.EncodeColumns(data)) == DecodeAll(old') + data
  {
    var got := DecodeAll(old' + Crawl.EncodeColumns(data));
    var want := DecodeAll(old') + data;
    DecodeOverrideNew(old', data);
    DecodeOverrideOld(old', data);
    assert got.Keys == want.Keys;
  }

  /** The freshly saved columns decode to their values. */
  lemma DecodeOverrideNew(old': KV, data: ColumnStore)
    ensures forall k :: k in data ==>
      k in DecodeAll(old' + Crawl.EncodeColumns(data)) && DecodeAll(old' + Crawl.EncodeColumns(data))[k] == data[k]
  {
    var enc := Crawl.EncodeColumns(data);
    var kv := old' + enc;
    forall k | k in data ensures k in DecodeAll(kv) && DecodeAll(kv)[k] == data[k] {
      assert kv[k] == enc[k];
    }
  }

  /** The other columns read as they did before the save. */
  lemma DecodeOverrideOld(old': KV, data: ColumnStore)
    ensures forall k :: k !in data ==>
      (k in DecodeAll(old' + Crawl.EncodeColumns(data)) <==> k in DecodeAll(old'))
    ensures forall k :: k !in data && k in DecodeAll(old') ==>
      DecodeAll(old' + Crawl.EncodeColumns(data))[k] == DecodeAll(old')[k]
  {
    var kv := old' + Crawl.EncodeColumns(data);
    forall k | k !in data && k in old' ensures kv[k] == old'[k] {
    }
  }

  /** The first save of a run into an empty ENTRIES bucket reads back as exactly the
      collector's column store. */
  lemma GetDataAfterFirstSave(buckets: Buckets, data: ColumnStore, order: seq<string>)
    requires EntriesOf(buckets) == Some(map[])
    requires Enumerates(order, data.Keys)
    ensures ReadEntries(Crawl.AfterSave(buckets, data), order) == Ok(data)
  {
    assert EntriesOf(buckets).value.Keys + data.Keys == data.Keys;
    LoadAfterSave(buckets, data, order);
    EmptyOverride(data);
  }

  lemma EmptyOverride(data: ColumnStore)
    ensures DecodeAll(map[]) + data == data
  {
    assert DecodeAll(map[]) == map[];
  }

  class Exporter {
    const db: Database

    constructor (db: Database)
      ensures this.db == db
    {
      this.db := db;
    }

    /** `getData`, with bbolt's key order `order` made explicit. */
    method GetData(order: seq<string>) returns (r: Result<ColumnStore>)
      requires EntriesOf(db.buckets).Some? ==> Enumerates(order, EntriesOf(db.buckets).value.Keys)
      ensures r == ReadEntries(db.buckets, order)
    {
      if DB !in db.buckets {
        return Fatal(NilBucket(DB));
      }
      if ENTRIES !in db.buckets[DB].nested {
        return Fatal(NilBucket(ENTRIES));
      }
      var b := db.buckets[DB].nested[ENTRIES];
      var data: ColumnStore := map[];
      var stopped := false;
      var i := 0;
      while i < |order| && !stopped
        invariant 0 <= i <= |order|
        invariant Scan(b, order[..i]) == ScanState(data, stopped)
      {
        assert order[..i + 1][..i] == order[..i];
        var k := order[i];
        match Decode(b[k]) {
          case None => stopped := true;
          case Some(s) => data := data[k := s];
        }
        i := i + 1;
      }
      ScanStays(b, order, i);
      return Ok(data);
    }

    /** `ExportJSON` without the file: read the entries back and collate them. */
    method ExportJSON(order: seq<string>) returns (r: Result<seq<Record>>)
      requires EntriesOf(db.buckets).Some? ==> Enumerates(order, EntriesOf(db.buckets).value.Keys)
      ensures ReadEntries(db.buckets, order).Fatal? ==> r == Fatal(ReadEntries(db.buckets, order).error)
      ensures ReadEntries(db.buckets, order).Ok? ==> JsonExported(ReadEntries(db.buckets, order).value, r)
    {
      var data := GetData(order);
      if data.Fatal? {
        return Fatal(data.error);
      }
      var keys := IterationOrder(data.value);
      r := CollateJSON(data.value, keys);
    }

    /** `ExportCSV` without the file: read the entries back and collate them into rows. */
    method ExportCSV(order: seq<string>) returns (r: Result<seq<seq<string>>>)
      requires EntriesOf(db.buckets).Some? ==> Enumerates(order, EntriesOf(db.buckets).value.Keys)
      ensures ReadEntries(db.buckets, order).Fatal? ==> r == Fatal(ReadEntries(db.buckets, order).error)
      ensures ReadEntries(db.buckets, order).Ok? ==> CsvExported(ReadEntries(db.buckets, order).value, r)
    {
      var data := GetData(order);
      if data.Fatal? {
        return Fatal(data.error);
      }
      var keys := IterationOrder(data.value);
      r := CollateCSV(data.value, keys);
    }
  }

  /** A stopped scan stays stopped: later keys are never read. */
  lemma {:induction false} ScanStays(kv: KV, order: seq<string>, i: nat)
    requires InBucket(kv, order) && i <= |order|
    requires i < |order| ==> Scan(kv, order[..i]).stopped
    ensures Scan(kv, order) == Scan(kv, order[..i])
    decreases |order| - i
  {
    if i == |order| {
      assert order[..i] == order;
    } else {
      assert order[..i + 1][..i] == order[..i];
      ScanStays(kv, order, i + 1);
    }
  }

  // ---------------------------------------------------------------------------------------
  // collateJSON and collateCSV

  /** Some column holds fewer than `n` values. */
  ghost predicate ShortColumn(data: ColumnStore, n: nat) {
    exists k :: k in data && |data[k]| < n
  }

  ghost predicate EqualLengths(data: ColumnStore) {
    forall a, b :: a in data && b in data ==> |data[a]| == |data[b]|
  }

  /** `recs` is what `collateJSON` yields for `keys`: as many records as the first key's
      column has values, and record `i` maps every column to its `i`-th value. */
  ghost predicate IsJsonCollation(data: ColumnStore, keys: seq<string>, recs: seq<Record>) {
    && keys != [] && keys[0] in data
    && |recs| == |data[keys[0]]|
    && (forall k :: k in data ==> |recs| <= |data[k]|)
    && (forall i :: 0 <= i < |recs| ==> recs[i].Keys == data.Keys)
    && (forall i, k :: 0 <= i < |recs| && k in data ==> recs[i][k] == data[k][i])
  }

  /** `rows` is what `collateCSV` yields for `keys`: the header `keys`, then one row per value
      of the first key's column, whose `j`-th cell is column `keys[j]`'s value for that row. */
  ghost predicate IsCsvCollation(data: ColumnStore, keys: seq<string>, rows: seq<seq<string>>) {
    && keys != [] && (forall j :: 0 <= j < |keys| ==> keys[j] in data)
    && |rows| == |data[keys[0]]| + 1
    && rows[0] == keys
    && (forall k :: k in data ==> |rows| - 1 <= |data[k]|)
    && (forall i :: 0 < i < |rows| ==> |rows[i]| == |keys|)
    && (forall i, j :: 0 < i < |rows| && 0 <= j < |keys| ==> rows[i][j] == data[keys[j]][i - 1])
  }

  /** `collateJSON`, with the map's iteration order `keys` made explicit. */
  method CollateJSON(data: ColumnStore, keys: seq<string>) returns (r: Result<seq<Record>>)
    requires Enumerates(keys, data.Keys)
    ensures keys == [] ==> r == Fatal(NoDataCollected)
    ensures keys != [] ==> (r.Fatal? <==> ShortColumn(data, |data[keys[0]]|))
    ensures keys != [] && r.Fatal? ==> r.error == IndexOutOfRange
    ensures r.Ok? ==> IsJsonCollation(data, keys, r.value)
  {
    if |keys| <= 0 {
      return Fatal(NoDataCollected);
    }
    assert keys[0] in Elems(keys);
    var n := |data[keys[0]]|;
    var collated: seq<Record> := [];
    var i := 0;
    while i < n
      invariant 0 <= i <= n && |collated| == i
      invariant forall k :: k in data ==> i <= |data[k]|
      invariant forall t :: 0 <= t < i ==> collated[t].Keys == data.Keys
      invariant forall t, k :: 0 <= t < i && k in data ==> collated[t][k] == data[k][t]
    {
      var c := RecordAt(data, keys, i);
      if c.None? {
        return Fatal(IndexOutOfRange);
      }
      collated := collated + [c.value];
      i := i + 1;
    }
    return Ok(collated);
  }

  /** The inner loop of `collateJSON`: record `i`, or None where some column has no `i`-th
      value (the index panic). */
  method RecordAt(data: ColumnStore, keys: seq<string>, i: nat) returns (c: Option<Record>)
    requires Enumerates(keys, data.Keys)
    ensures c.None? <==> ShortColumn(data, i + 1)
    ensures c.Some? ==> c.value.Keys == data.Keys && forall k :: k in data ==> c.value[k] == data[k][i]
  {
    var rec: Record := map[];
    var j := 0;
    while j < |keys|
      invariant 0 <= j <= |keys|
      invariant rec.Keys <= data.Keys
      invariant forall t :: 0 <= t < j ==> i < |data[keys[t]]| && keys[t] in rec && rec[keys[t]] == data[keys[t]][i]
    {
      var k := keys[j];
      assert k in Elems(keys);
      if |data[k]| <= i {
        assert k in data && |data[k]| < i + 1;
        return None;
      }
      rec := rec[k := data[k][i]];
      j := j + 1;
    }
    forall k | k in data ensures k in rec && i < |data[k]| && rec[k] == data[k][i] {
      assert k in Elems(keys);
      var t :| 0 <= t < |keys| && keys[t] == k;
    }
    assert rec.Keys == data.Keys;
    return Some(rec);
  }

  /** `collateCSV`, with the map's iteration order `keys` made explicit. */
  method CollateCSV(data: ColumnStore, keys: seq<string>) returns (r: Result<seq<seq<string>>>)
    requires Enumerates(keys, data.Keys)
    ensures keys == [] ==> r == Fatal(NoDataCollected)
    ensures keys != [] ==> (r.Fatal? <==> ShortColumn(data, |data[keys[0]]|))
    ensures keys != [] && r.Fatal? ==> r.error == IndexOutOfRange
    ensures r.Ok? ==> IsCsvCollation(data, keys, r.value)
  {
    if |keys| <= 0 {
      return Fatal(NoDataCollected);
    }
    assert forall j :: 0 <= j < |keys| ==> keys[j] in Elems(keys);
    var n := |data[keys[0]]|;
    var collated: seq<seq<string>> := [keys];
    var i := 0;
    while i < n
      invariant 0 <= i <= n && |collated| == i + 1 && collated[0] == keys
      invariant forall k :: k in data ==> i <= |data[k]|
      invariant forall t :: 0 < t <= i ==> |collated[t]| == |keys|
      invariant forall t, j :: 0 < t <= i && 0 <= j < |keys| ==> collated[t][j] == data[keys[j]][t - 1]
    {
      var c: seq<string> := [];
      var j := 0;
      while j < |keys|
        invariant 0 <= j <= |keys| && |c| == j
        invariant forall t :: 0 <= t < j ==> i < |data[keys[t]]| && c[t] == data[keys[t]][i]
      {
        var k := keys[j];
        if |data[k]| <= i {
          return Fatal(IndexOutOfRange);
        }
        c := c + [data[k][i]];
        j := j + 1;
      }
      forall k | k in data ensures i < |data[k]| {
        assert k in Elems(keys);
        var t :| 0 <= t < |keys| && keys[t] == k;
      }
      collated := collated + [c];
      i := i + 1;
    }
    return Ok(collated);
  }

  /** A CSV row read against the header, as a record. */
  function Zip(header: seq<string>, row: seq<string>): Record
    requires |header| == |row|
    decreases |header|
  {
    if header == [] then map[] else Zip(header[1..], row[1..])[header[0] := row[0]]
  }

  /** The zipped record has exactly the header's names as keys. */
  lemma {:induction false} ZipKeys(header: seq<string>, row: seq<string>)
    requires |header| == |row|
    ensures Zip(header, row).Keys == Elems(header)
    decreases |header|
  {
    if header != [] {
      ZipKeys(header[1..], row[1..]);
      assert Elems(header) == {header[0]} + Elems(header[1..]) by {
        assert header == [header[0]] + header[1..];
      }
    }
  }

  /** With distinct names, each name maps to the value in its own position. */
  lemma {:induction false} ZipAt(header: seq<string>, row: seq<string>)
    requires |header| == |row|
    requires Distinct(header)
    ensures forall j :: 0 <= j < |header| ==> header[j] in Zip(header, row) && Zip(header, row)[header[j]] == row[j]
    decreases |header|
  {
    ZipKeys(header, row);
    if header != [] {
      var h', r' := header[1..], row[1..];
      assert Distinct(h') by {
        forall i, j | 0 <= i < j < |h'| ensures h'[i] != h'[j] {
          assert h'[i] == header[i + 1] && h'[j] == header[j + 1];
        }
      }
      ZipAt(h', r');
      ZipKeys(h', r');
      var z' := Zip(h', r');
      forall j | 0 < j < |header| ensures header[j] in Zip(header, row) && Zip(header, row)[header[j]] == row[j] {
        assert header[j] == h'[j - 1] && header[j] != header[0];
        assert z'[h'[j - 1]] == r'[j - 1];
      }
    }
  }

  /** The two exports agree: zipping the CSV header with row `i+1` gives JSON record `i`. */
  lemma CsvRowIsJsonRecord(data: ColumnStore, keys: seq<string>, recs: seq<Record>, rows: seq<seq<string>>, i: nat)
    requires Enumerates(keys, data.Keys)
    requires IsJsonCollation(data, keys, recs) && IsCsvCollation(data, keys, rows)
    requires i < |recs|
    ensures |rows| == |recs| + 1
    ensures Zip(rows[0], rows[i + 1]) == recs[i]
  {
    ZipKeys(keys, rows[i + 1]);
    ZipAt(keys, rows[i + 1]);
    var z := Zip(rows[0], rows[i + 1]);
    forall k | k in data ensures z[k] == recs[i][k] {
      assert k in Elems(keys);
      var j :| 0 <= j < |keys| && keys[j] == k;
      assert z[keys[j]] == rows[i + 1][j];
    }
  }

  /** With columns of equal length the records do not depend on the key order. */
  lemma JsonIndependentOfKeyOrder(data: ColumnStore, keys1: seq<string>, keys2: seq<string>, r1: seq<Record>, r2: seq<Record>)
    requires EqualLengths(data)
    requires IsJsonCollation(data, keys1, r1) && IsJsonCollation(data, keys2, r2)
    ensures r1 == r2
  {
    assert |r1| == |r2|;
    forall i | 0 <= i < |r1| ensures r1[i] == r2[i] {
      assert r1[i].Keys == r2[i].Keys;
    }
  }

  /** Which first key is picked decides the outcome when columns differ in length: with
      "a" first there is one record, with "b" first the second row reads past "a", so no
      collation exists and collateJSON panics. */
  lemma FirstKeyDecides()
    ensures var data := map["a" := ["1"], "b" := ["1", "2"]];
      && !ShortColumn(data, |data["a"]|) && ShortColumn(data, |data["b"]|)
      && IsJsonCollation(data, ["a", "b"], [map["a" := "1", "b" := "1"]])
      && forall recs :: !IsJsonCollation(data, ["b", "a"], recs)
  {
    var data := map["a" := ["1"], "b" := ["1", "2"]];
    assert "a" in data && |data["a"]| < 2;
    var rec := map["a" := "1", "b" := "1"];
    assert rec.Keys == data.Keys;
    forall k | k in data ensures rec[k] == data[k][0] {
      assert k == "a" || k == "b";
    }
    assert |data["a"]| == 1 && |data["b"]| == 2;
  }

  /** Two equal-length columns give the two aligned records, in either key order. */
  lemma TwoColumnExample(keys: seq<string>, recs: seq<Record>)
    requires IsJsonCollation(map["title" := ["a", "b"], "price" := ["1", "2"]], keys, recs)
    ensures recs == [map["title" := "a", "price" := "1"], map["title" := "b", "price" := "2"]]
  {
    var data := map["title" := ["a", "b"], "price" := ["1", "2"]];
    assert |data[keys[0]]| == 2;
    assert recs[0] == map["title" := "a", "price" := "1"] by {
      assert recs[0]["title"] == "a" && recs[0]["price"] == "1";
    }
    assert recs[1] == map["title" := "b", "price" := "2"] by {
      assert recs[1]["title"] == "b" && recs[1]["price"] == "2";
    }
  }

  /** One page whose only collect item takes the h1's text into "title": the JSON export
      is the single record holding that text, trimmed. */
  lemma SinglePageExport(h1: Html.Element, item: Scripts.PipelineItem, recs: seq<Record>)
    requires item.attribute == "text" && item.column == "title"
    requires IsJsonCollation(Append(map[], "title", CollectValue(item, h1)), ["title"], recs)
    ensures recs == [map["title" := Text.TrimSpace(h1.text)]]
  {
    var v := CollectValue(item, h1);
    var empty: ColumnStore := map[];
    assert Column(empty, "title") == [];
    assert Column(empty, "title") + [v] == [v];
    assert Append(empty, "title", v) == map["title" := [v]];
    OneValueCollation("title", v, recs);
  }

  /** A store holding a single one-value column collates into one single-key record. */
  lemma OneValueCollation(column: string, v: string, recs: seq<Record>)
    requires IsJsonCollation(map[column := [v]], [column], recs)
    ensures recs == [map[column := v]]
  {
    var data := map[column := [v]];
    assert |recs| == 1;
    assert recs[0].Keys == {column} && recs[0][column] == data[column][0];
    assert recs[0] == map[column := v];
  }

  /** What a JSON export may end in, given the store read back and an arbitrary key order. */
  ghost predicate JsonExported(data: ColumnStore, r: Result<seq<Record>>) {
    && (data == map[] ==> r == Fatal(NoDataCollected))
    && (data != map[] && EqualLengths(data) ==> r.Ok?)
    && (r.Fatal? ==> r.error == NoDataCollected || r.error == IndexOutOfRange)
    && (data != map[] && r.Fatal? ==> r.error == IndexOutOfRange)
    && (r.Ok? ==> exists keys :: Enumerates(keys, data.Keys) && IsJsonCollation(data, keys, r.value))
  }

  /** What a CSV export may end in: on success the header is some key order of the store. */
  ghost predicate CsvExported(data: ColumnStore, r: Result<seq<seq<string>>>) {
    && (data == map[] ==> r == Fatal(NoDataCollected))
    && (data != map[] && EqualLengths(data) ==> r.Ok?)
    && (r.Fatal? ==> r.error == NoDataCollected || r.error == IndexOutOfRange)
    && (data != map[] && r.Fatal? ==> r.error == IndexOutOfRange)
    && (r.Ok? ==> |r.value| > 0 && Enumerates(r.value[0], data.Keys) && IsCsvCollation(data, r.value[0], r.value))
  }
}
