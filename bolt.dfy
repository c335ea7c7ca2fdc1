/** The bbolt file as the core uses it: named top-level buckets, each holding key/value
    pairs and nested buckets one level down. Transactions, pages and the file are left out;
    a transaction that fails changes nothing. */
module Bolt {
  import opened Outcome
  import opened Gob

  type KV = map<string, Blob>

  datatype Bucket = Bucket(pairs: KV, nested: map<string, KV>)

  type Buckets = map<string, Bucket>

  /** The root bucket, the column bucket nested in it, and the script's key in the root. */
  const DB := "DB"
  const ENTRIES := "ENTRIES"
  const SCRIPT := "SCRIPT"

  /** An open `*bolt.DB`. */
  class Database {
    var buckets: Buckets

    constructor (buckets: Buckets)
      ensures this.buckets == buckets
    {
      this.buckets := buckets;
    }
  }

  /** `Bucket.Put`: an empty key is refused (ErrKeyRequired), so is a key that names a
      nested bucket (ErrIncompatibleValue); otherwise the key now holds the value. */
  function Put(b: Bucket, key: string, value: Blob): (r: Result<Bucket>)
    ensures r.Ok? <==> key != "" && key !in b.nested
    ensures r.Fatal? ==> r.error == (if key == "" then KeyRequired else IncompatibleValue)
    ensures r.Ok? ==> r.value.pairs.Keys == b.pairs.Keys + {key} && r.value.pairs[key] == value
    ensures r.Ok? ==> r.value.nested == b.nested && forall k :: k in b.pairs && k != key ==> r.value.pairs[k] == b.pairs[k]
  {
    if key == "" then Fatal(KeyRequired)
    else if key in b.nested then Fatal(IncompatibleValue)
    else Ok(b.(pairs := b.pairs[key := value]))
  }

  /** `tx.Bucket(DB).Bucket(ENTRIES)`, None where either is missing. */
  function EntriesOf(buckets: Buckets): (r: Option<KV>)
    ensures r.Some? <==> DB in buckets && ENTRIES in buckets[DB].nested
    ensures r.Some? ==> r.value == buckets[DB].nested[ENTRIES]
  {
    if DB in buckets && ENTRIES in buckets[DB].nested then Some(buckets[DB].nested[ENTRIES]) else None
  }

  /** The store with `m` written over the ENTRIES bucket. */
  function WithEntries(buckets: Buckets, m: KV): (r: Buckets)
    requires EntriesOf(buckets).Some?
    ensures EntriesOf(r) == Some(EntriesOf(buckets).value + m)
    ensures r.Keys == buckets.Keys && r[DB].pairs == buckets[DB].pairs
    ensures r[DB].nested.Keys == buckets[DB].nested.Keys
    ensures forall n :: n in buckets[DB].nested && n != ENTRIES ==> r[DB].nested[n] == buckets[DB].nested[n]
    ensures forall n :: n in buckets && n != DB ==> r[n] == buckets[n]
  {
    var root := buckets[DB];
    buckets[DB := root.(nested := root.nested[ENTRIES := root.nested[ENTRIES] + m])]
  }

  /** Writing nothing leaves the store as it was. */
  lemma WithNoEntries(buckets: Buckets)
    requires EntriesOf(buckets).Some?
    ensures WithEntries(buckets, map[]) == buckets
  {
    var root := buckets[DB];
    assert root.nested[ENTRIES] + map[] == root.nested[ENTRIES];
    assert root.nested[ENTRIES := root.nested[ENTRIES]] == root.nested;
  }

  /** Two writes over ENTRIES are one write of their union, the later one winning. */
  lemma WithEntriesTwice(buckets: Buckets, m1: KV, m2: KV)
    requires EntriesOf(buckets).Some?
    ensures WithEntries(WithEntries(buckets, m1), m2) == WithEntries(buckets, m1 + m2)
  {
    var root := buckets[DB];
    var e := root.nested[ENTRIES];
    var once := WithEntries(buckets, m1);
    assert once[DB] == root.(nested := root.nested[ENTRIES := e + m1]);
    MergeAssoc(e, m1, m2);
    assert root.nested[ENTRIES := e + m1][ENTRIES := e + m1 + m2] == root.nested[ENTRIES := e + (m1 + m2)];
  }

  /** Associativity of `+`, stated apart only because the solver is slow to find it inside
      a larger proof. */
  lemma MergeAssoc(a: KV, b: KV, c: KV)
    ensures a + b + c == a + (b + c)
  {
  }

  /** The error the first entry write of `save` hits when it fails. */
  function SaveError(buckets: Buckets): Error {
    if DB !in buckets then NilBucket(DB)
    else if ENTRIES !in buckets[DB].nested then EntriesBucketNotFound
    else KeyRequired
  }

  /** One `db.Update` of `save`: look up the ENTRIES bucket inside DB, then put `key`.
      A missing DB bucket is a nil dereference, a missing ENTRIES bucket the error
      "entries bucket not found", an empty key ErrKeyRequired. */
  function PutEntry(buckets: Buckets, key: string, value: Blob): (r: Result<Buckets>)
    ensures r.Ok? <==> EntriesOf(buckets).Some? && key != ""
    ensures r.Ok? ==> r.value == WithEntries(buckets, map[key := value])
    ensures r.Fatal? ==> r.error == SaveError(buckets)
  {
    if DB !in buckets then Fatal(NilBucket(DB))
    else if ENTRIES !in buckets[DB].nested then Fatal(EntriesBucketNotFound)
    else if key == "" then Fatal(KeyRequired)
    else Ok(WithEntries(buckets, map[key := value]))
  }

  /** The `db.Update` of `NewCollector`: put the encoded script under SCRIPT in the DB
      bucket. DB's other pairs, the column bucket, and every other bucket are left as
      they were. */
  function PutScript(buckets: Buckets, blob: Blob): (r: Result<Buckets>)
    ensures r.Ok? <==> DB in buckets && SCRIPT !in buckets[DB].nested
    ensures r.Fatal? ==> r.error == (if DB !in buckets then NilBucket(DB) else IncompatibleValue)
    ensures r.Ok? ==> r.value.Keys == buckets.Keys && r.value[DB].pairs == buckets[DB].pairs[SCRIPT := blob]
    ensures r.Ok? ==> r.value[DB].nested == buckets[DB].nested && EntriesOf(r.value) == EntriesOf(buckets)
    ensures r.Ok? ==> forall n :: n in buckets && n != DB ==> r.value[n] == buckets[n]
  {
    if DB !in buckets then Fatal(NilBucket(DB))
    else match Put(buckets[DB], SCRIPT, blob)
      case Fatal(e) => Fatal(e)
      case Ok(root) => Ok(buckets[DB := root])
  }

  /** The script and the columns live in different buckets: writing any column, even one
      named SCRIPT, leaves the stored script in place. */
  lemma ScriptSurvivesEntries(buckets: Buckets, m: KV)
    requires EntriesOf(buckets).Some? && SCRIPT in buckets[DB].pairs
    ensures SCRIPT in WithEntries(buckets, m)[DB].pairs
    ensures WithEntries(buckets, m)[DB].pairs[SCRIPT] == buckets[DB].pairs[SCRIPT]
  {
  }
}
