/** What the tools of one request leave for the answer: three source lists, one trace, and other fields. */
module RagContext {
  import opened Common
  import opened Sources

  const KB_TOOLS := {"search_knowledge_base", "search_knowledge_by_image"}

  datatype Trace = Trace(tool: string, text: string)

  datatype Context = Context(
    kb: Option<seq<Item>>, web: Option<seq<Item>>, images: Option<seq<Item>>, trace: Option<Trace>, rest: map<string, string>)

  const EMPTY := Context(None, None, None, None, map[])

  datatype Channel = Kb | Web | Images

  function ListOf(c: Context, ch: Channel): Option<seq<Item>> {
    match ch
    case Kb => c.kb
    case Web => c.web
    case Images => c.images
  }

  predicate IsKbContext(c: Context) {
    (c.trace.Some? && c.trace.value.tool in KB_TOOLS) || c.kb.Some? || c.images.Some?
  }

  ghost function MergedList(existing: Option<seq<Item>>, incoming: Option<seq<Item>>): Option<seq<Item>> {
    if incoming.None? then existing else Some(Merged(OrEmpty(existing), incoming.value))
  }

  function OrEmpty(list: Option<seq<Item>>): seq<Item> {
    if list.Some? then list.value else []
  }

  /** A knowledge-base trace replaces what is there; any other only fills an empty place. */
  function MergedTrace(existing: Option<Trace>, incoming: Context): Option<Trace> {
    if incoming.trace.Some? && (IsKbContext(incoming) || existing.None?) then incoming.trace else existing
  }

  ghost function MergedContext(existing: Context, incoming: Context): Context {
    Context(MergedList(existing.kb, incoming.kb), MergedList(existing.web, incoming.web), MergedList(existing.images, incoming.images),
            MergedTrace(existing.trace, incoming), existing.rest + incoming.rest)
  }

  method MergeList(existing: Option<seq<Item>>, incoming: Option<seq<Item>>) returns (r: Option<seq<Item>>)
    ensures r == MergedList(existing, incoming)
  {
    if incoming.None? {
      return existing;
    }
    var list := MergeSourceList(OrEmpty(existing), incoming.value);
    return Some(list);
  }

  /** State of one request; its methods run under the request's lock. */
  class RequestState {
    var last: Option<Context>

    constructor ()
      ensures last == None
    {
      last := None;
    }

    method SetLastRagContext(incoming: Context)
      modifies this
      ensures last == Some(MergedContext(if old(last).Some? then old(last).value else EMPTY, incoming))
    {
      var merged := if last.Some? then last.value else EMPTY;
      var kb := MergeList(merged.kb, incoming.kb);
      var web := MergeList(merged.web, incoming.web);
      var images := MergeList(merged.images, incoming.images);
      last := Some(Context(kb, web, images, MergedTrace(merged.trace, incoming), merged.rest + incoming.rest));
    }

    method GetLastRagContext(clear: bool) returns (context: Option<Context>)
      modifies this
      ensures context == old(last)
      ensures last == if clear then None else old(last)
    {
      context := last;
      if clear {
        last := None;
      }
    }
  }

  // ---------------------------------------------------------------- any number of tools, in lock order

  ghost function Collected(cs: seq<Context>): Context {
    if cs == [] then EMPTY else MergedContext(Collected(cs[..|cs| - 1]), cs[|cs| - 1])
  }

  /** The lists reported on one channel, in order. */
  function Reported(cs: seq<Context>, ch: Channel): seq<seq<Item>> {
    if cs == [] then []
    else
      var list := ListOf(cs[|cs| - 1], ch);
      Reported(cs[..|cs| - 1], ch) + if list.Some? then [list.value] else []
  }

  lemma {:induction false} CollectedLists(cs: seq<Context>, ch: Channel)
    ensures OrEmpty(ListOf(Collected(cs), ch)) == MergedAll(Reported(cs, ch))
  {
    if cs != [] {
      var init, last := cs[..|cs| - 1], cs[|cs| - 1];
      CollectedLists(init, ch);
      ListOfMerged(Collected(init), last, ch);
      var before, list := Reported(init, ch), ListOf(last, ch);
      if list.Some? {
        assert Reported(cs, ch) == before + [list.value];
        assert (before + [list.value])[..|before + [list.value]| - 1] == before;
      } else {
        assert Reported(cs, ch) == before;
      }
    }
  }

  lemma ListOfMerged(c: Context, incoming: Context, ch: Channel)
    ensures ListOf(MergedContext(c, incoming), ch) == MergedList(ListOf(c, ch), ListOf(incoming, ch))
  {
  }

  /** Every source reported by some tool is there once, whichever order the tools finished in. */
  lemma CollectedSources(cs: seq<Context>, ch: Channel, id: Identity)
    ensures var list := OrEmpty(ListOf(Collected(cs), ch));
      Distinct(list) && (id in Ids(list) <==> InSome(Reported(cs, ch), id))
  {
    CollectedLists(cs, ch);
    MergedAllIds(Reported(cs, ch), id);
    MergedAllDistinct(Reported(cs, ch));
  }

  predicate LeavesTrace(c: Context) {
    c.trace.Some?
  }

  predicate LeavesKbTrace(c: Context) {
    c.trace.Some? && IsKbContext(c)
  }

  /**
   * If any knowledge-base tool left a trace, the final trace is that of the last of them; otherwise it is the
   * first trace left by any tool.
   */
  ghost predicate IsFinalTrace(cs: seq<Context>, k: nat) {
    && k < |cs| && LeavesTrace(cs[k])
    && (forall j :: k < j < |cs| ==> !LeavesKbTrace(cs[j]))
    && (!LeavesKbTrace(cs[k]) ==> forall j :: 0 <= j < k ==> !LeavesTrace(cs[j]))
  }

  lemma {:induction false} CollectedTrace(cs: seq<Context>)
    ensures Collected(cs).trace.None? ==> forall j :: 0 <= j < |cs| ==> !LeavesTrace(cs[j])
    ensures Collected(cs).trace.Some? ==> exists k: nat :: IsFinalTrace(cs, k) && cs[k].trace == Collected(cs).trace
  {
    if cs != [] {
      var init, last := cs[..|cs| - 1], cs[|cs| - 1];
      CollectedTrace(init);
      if last.trace.Some? && (IsKbContext(last) || Collected(init).trace.None?) {
        assert IsFinalTrace(cs, |cs| - 1);
      } else if Collected(init).trace.Some? {
        var k: nat :| IsFinalTrace(init, k) && init[k].trace == Collected(init).trace;
        FinalTraceStays(cs, k);
      }
    }
  }

  lemma FinalTraceStays(cs: seq<Context>, k: nat)
    requires cs != [] && IsFinalTrace(cs[..|cs| - 1], k) && !LeavesKbTrace(cs[|cs| - 1])
    ensures IsFinalTrace(cs, k)
  {
    var init := cs[..|cs| - 1];
    assert forall j :: 0 <= j < |init| ==> init[j] == cs[j];
  }

  /** One request: its tools report in lock order, then the answer takes what they left, once. */
  method CollectForAnswer(state: RequestState, cs: seq<Context>) returns (context: Option<Context>)
    requires state.last == None
    modifies state
    ensures context == if cs == [] then None else Some(Collected(cs))
    ensures state.last == None
  {
    for i := 0 to |cs|
      invariant state.last == if i == 0 then None else Some(Collected(cs[..i]))
    {
      TakeOneMore(cs, i);
      state.SetLastRagContext(cs[i]);
    }
    assert cs[..|cs|] == cs;
    context := state.GetLastRagContext(true);
  }
}
