/** The column store and the two pipeline actions, shared by internal/collector.go and
    main.go, whose `collect` and `follow` bodies are the same. */
module Pipeline {
  import opened Outcome
  import opened Text
  import opened Html
  import opened Scripts

  /** `map[string][]string`: column name to the values collected under it, in order. */
  type ColumnStore = map<string, seq<string>>

  /** Go's `data[k]`: a missing column reads as the nil slice. */
  function Column(data: ColumnStore, k: string): seq<string> {
    if k in data then data[k] else []
  }

  /** `data[column] = append(data[column], value)`. */
  function Append(data: ColumnStore, column: string, value: string): (r: ColumnStore)
    ensures r.Keys == data.Keys + {column}
    ensures r[column] == Column(data, column) + [value]
    ensures forall k :: k in data && k != column ==> r[k] == data[k]
  {
    data[column := Column(data, column) + [value]]
  }

  /** The value `collect` extracts: the trimmed text for the attribute name "text",
      otherwise the attribute's value, "" when the element lacks it. */
  function CollectValue(item: PipelineItem, e: Element): (v: string)
    ensures item.attribute == "text" ==> v == TrimSpace(e.text) && Trimmed(v)
    ensures item.attribute != "text" && item.attribute in e.attributes ==> v == e.attributes[item.attribute]
    ensures item.attribute != "text" && item.attribute !in e.attributes ==> v == ""
  {
    if item.attribute == "text" then TrimSpace(e.text) else Attr(e, item.attribute)
  }

  /** The link `follow` resolves: the item's attribute, made absolute against the request. */
  function Resolved(item: PipelineItem, e: Element): string {
    e.request.absoluteURL(Attr(e, item.attribute))
  }

  /** What `follow` visits: nothing exactly when visit-once is set and the link resolves to the
      page's own URL, otherwise the resolved link. */
  function FollowTarget(item: PipelineItem, e: Element): (u: Option<string>)
    ensures u.None? <==> item.visitOnce && Resolved(item, e) == e.request.url
    ensures u.Some? ==> u.value == Resolved(item, e)
  {
    var link := Resolved(item, e);
    if item.visitOnce && link == e.request.url then None else Some(link)
  }

  /** The visit-once guard is single-hop: it never lets a page follow itself, and without
      the flag every follow visits. */
  lemma FollowGuard(item: PipelineItem, e: Element)
    ensures item.visitOnce && FollowTarget(item, e).Some? ==> FollowTarget(item, e).value != e.request.url
    ensures !item.visitOnce ==> FollowTarget(item, e) == Some(Resolved(item, e))
  {
  }

  /** One firing of a collect handler. */
  datatype CollectEvent = CollectEvent(item: PipelineItem, element: Element)

  /** The column store after a sequence of collect events, applied in order. */
  function CollectAll(data: ColumnStore, events: seq<CollectEvent>): ColumnStore
    decreases |events|
  {
    if events == [] then data
    else
      var e := events[0];
      CollectAll(Append(data, e.item.column, CollectValue(e.item, e.element)), events[1..])
  }

  /** The values the events send to `column`, in event order. */
  function ValuesFor(column: string, events: seq<CollectEvent>): seq<string>
    decreases |events|
  {
    if events == [] then []
    else
      var e := events[0];
      (if e.item.column == column then [CollectValue(e.item, e.element)] else [])
        + ValuesFor(column, events[1..])
  }

  /** Append order: every column ends as what it held, followed by the values collected for
      it, in the order the events happened. */
  lemma {:induction false} CollectAllColumn(data: ColumnStore, events: seq<CollectEvent>, column: string)
    ensures Column(CollectAll(data, events), column) == Column(data, column) + ValuesFor(column, events)
    decreases |events|
  {
    if events != [] {
      var e := events[0];
      var v := CollectValue(e.item, e.element);
      var d := Append(data, e.item.column, v);
      var here: seq<string> := if e.item.column == column then [v] else [];
      AppendColumn(data, e.item.column, v, column);
      var rest := ValuesFor(column, events[1..]);
      assert ValuesFor(column, events) == here + rest;
      assert CollectAll(data, events) == CollectAll(d, events[1..]);
      CollectAllColumn(d, events[1..], column);
      ConcatAssoc(Column(data, column), here, rest);
    }
  }

  /** Associativity of `+`, stated apart only because the solver is slow to find it inside
      a larger proof. */
  lemma ConcatAssoc(a: seq<string>, b: seq<string>, c: seq<string>)
    ensures a + b + c == a + (b + c)
  {
  }

  /** One append reaches only its own column. */
  lemma AppendColumn(data: ColumnStore, c: string, v: string, column: string)
    ensures Column(Append(data, c, v), column) == Column(data, column) + (if c == column then [v] else [])
  {
    if c != column {
      assert Column(data, column) + [] == Column(data, column);
    }
  }

  /** The columns the events name, the empty name included. */
  function ColumnsOf(events: seq<CollectEvent>): set<string>
    decreases |events|
  {
    if events == [] then {} else {events[0].item.column} + ColumnsOf(events[1..])
  }

  /** The columns after the events are the old ones plus every column an event named:
      no column is ever removed, and an absent one appears at its first value. */
  lemma {:induction false} CollectAllKeys(data: ColumnStore, events: seq<CollectEvent>)
    ensures CollectAll(data, events).Keys == data.Keys + ColumnsOf(events)
    decreases |events|
  {
    if events != [] {
      var e := events[0];
      var d := Append(data, e.item.column, CollectValue(e.item, e.element));
      CollectAllKeys(d, events[1..]);
    }
  }
}
