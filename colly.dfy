/** What the core hands to colly: the collector options and the `OnHTML` callbacks that
    the pipeline registers. */
module Colly {
  import opened Outcome
  import opened Scripts

  /** `defaultUA`, declared in both internal/collector.go and main.go. */
  const DefaultUA := "Skrapa"

  /** The user agent both programs pass to colly: the script's own, unless it is empty. */
  function UserAgentOr(configured: string): (ua: string)
    ensures ua != ""
    ensures configured != "" ==> ua == configured
    ensures configured == "" ==> ua == DefaultUA
  {
    if configured != "" then configured else DefaultUA
  }

  /** A `colly.LimitRule`; delays are in seconds. */
  datatype LimitRule = LimitRule(domainGlob: string, delay: int, randomDelay: int)

  /** The options a collector is built with, and the limit rules added to it, in order. */
  datatype CollyOptions = CollyOptions(
    async: bool,
    userAgent: string,
    allowedDomains: seq<string>,
    limits: seq<LimitRule>)

  datatype Action = OnFollow | OnCollect

  /** An `OnHTML(selector, callback)` registration; the callback runs `action` with `item`. */
  datatype Handler = Handler(selector: string, action: Action, item: PipelineItem)

  /** The `switch p.Action` of one pipeline item: "follow" and "collect" register a
      callback on the item's selector, any other action registers nothing. */
  function HandlerFor(p: PipelineItem): (h: Option<Handler>)
    ensures h.Some? <==> p.action == "follow" || p.action == "collect"
    ensures h.Some? ==> h.value.selector == p.selector && h.value.item == p
    ensures h.Some? ==> (h.value.action == OnFollow <==> p.action == "follow")
  {
    match p.action
    case "follow" => Some(Handler(p.selector, OnFollow, p))
    case "collect" => Some(Handler(p.selector, OnCollect, p))
    case _ => None
  }

  function Registered(h: Option<Handler>): seq<Handler> {
    if h.Some? then [h.value] else []
  }

  /** The callbacks a whole pipeline registers, in declaration order: at most one per
      item, each running an item of the pipeline on that item's selector. */
  function Handlers(pipeline: seq<PipelineItem>): (hs: seq<Handler>)
    ensures |hs| <= |pipeline|
    ensures forall j :: 0 <= j < |hs| ==> hs[j].item in pipeline && hs[j].selector == hs[j].item.selector
  {
    if pipeline == [] then []
    else
      var init := pipeline[..|pipeline| - 1];
      assert forall x :: x in init ==> x in pipeline;
      Handlers(init) + Registered(HandlerFor(pipeline[|pipeline| - 1]))
  }

  /** Registration is compositional: the callbacks of `p + q` are those of `p`, then those of `q`. */
  lemma {:induction false} HandlersConcat(p: seq<PipelineItem>, q: seq<PipelineItem>)
    ensures Handlers(p + q) == Handlers(p) + Handlers(q)
  {
    if q == [] {
      assert p + q == p;
    } else {
      var q' := q[..|q| - 1];
      assert (p + q)[..|p + q| - 1] == p + q';
      assert (p + q)[|p + q| - 1] == q[|q| - 1];
      HandlersConcat(p, q');
    }
  }

  /** A one-item pipeline registers exactly that item's handler, if any. */
  lemma HandlersSingle(p: PipelineItem)
    ensures Handlers([p]) == Registered(HandlerFor(p))
  {
    assert [p][..0] == [];
  }

  /** Every registered callback comes from an item of the pipeline whose action it runs,
      and each such item contributes one. */
  lemma {:induction false} HandlersFromItems(pipeline: seq<PipelineItem>, h: Handler)
    ensures h in Handlers(pipeline) <==> exists i :: 0 <= i < |pipeline| && HandlerFor(pipeline[i]) == Some(h)
  {
    if pipeline != [] {
      var init := pipeline[..|pipeline| - 1];
      HandlersFromItems(init, h);
      if h in Handlers(init) {
        var i :| 0 <= i < |init| && HandlerFor(init[i]) == Some(h);
        assert pipeline[i] == init[i];
      }
      if exists i :: 0 <= i < |pipeline| && HandlerFor(pipeline[i]) == Some(h) {
        var i :| 0 <= i < |pipeline| && HandlerFor(pipeline[i]) == Some(h);
        if i < |init| { assert init[i] == pipeline[i]; }
      }
    }
  }

  /** One more pipeline item registers its own callback after the earlier ones. */
  lemma RegisterNext(before: seq<Handler>, pipeline: seq<PipelineItem>, i: nat)
    requires i < |pipeline|
    ensures before + Handlers(pipeline[..i + 1]) == before + Handlers(pipeline[..i]) + Registered(HandlerFor(pipeline[i]))
  {
    assert pipeline[..i + 1][..i] == pipeline[..i];
    var hs, r := Handlers(pipeline[..i]), Registered(HandlerFor(pipeline[i]));
    assert before + (hs + r) == before + hs + r;
  }
}
