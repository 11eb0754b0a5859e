/**
 * Clearing old tool results before a model call: stale results of re-runnable tools become a
 * placeholder, oversized recent ones are clipped, and everything else is left as it is.
 */
module MicroCompact {
  import opened Common
  import opened Text
  import opened Turns
  import opened Budget

  const PLACEHOLDER := "[旧工具结果已清理 / Old tool result content cleared：如需该内容请重新调用本工具]"
  const SEPARATOR := "\n…（中段已省略）…\n"

  const COMPACTABLE_TOOLS := {
    "search_knowledge_base", "search_knowledge_by_image", "web_search", "fetch_url", "web_image_search",
    "read_session_attachment", "search_session_attachment", "list_session_attachments_brief",
    "read_user_memory", "read_session_history" }

  /** Names of the tools whose results can be fetched again; a missing name is never among them. */
  type Tools = s: set<string> | "" !in s witness COMPACTABLE_TOOLS

  datatype Policy = Policy(tools: Tools, keepRecent: int, maxResultTokens: int)

  /** How results are recognised: the allowed tools and the tool behind each call id. */
  datatype Context = Context(tools: Tools, names: map<string, string>)

  // ---------------------------------------------------------------- tool names

  function NamesOfCalls(calls: seq<ToolCall>, names: map<string, string>): map<string, string> {
    if calls == [] then names
    else
      var c, before := calls[|calls| - 1], NamesOfCalls(calls[..|calls| - 1], names);
      if Strip(c.id) != "" then before[Strip(c.id) := c.name] else before
  }

  /** Call id to tool name; a later call overrides an earlier one with the same id. */
  function CallNames(msgs: seq<Message>): map<string, string> {
    if msgs == [] then map[]
    else
      var m, before := msgs[|msgs| - 1], CallNames(msgs[..|msgs| - 1]);
      if m.Ai? then NamesOfCalls(m.calls, before) else before
  }

  function ContextOf(msgs: seq<Message>, p: Policy): Context {
    Context(p.tools, CallNames(msgs))
  }

  function ResolveToolName(m: Message, names: map<string, string>): string
    requires m.Tool?
  {
    if Strip(m.name) != "" then Strip(m.name)
    else if m.callId in names then names[m.callId] else ""
  }

  predicate IsClearable(m: Message, c: Context) {
    m.Tool? && Strip(ResolveToolName(m, c.names)) in c.tools
  }

  // ---------------------------------------------------------------- clipping

  function ClipKeepEnds(s: string, maxChars: nat): string {
    if |s| <= maxChars then s
    else if maxChars <= 40 then s[..maxChars] + "…"
    else
      var head := maxChars / 4;
      var tail := maxChars - head - 24;
      s[..head] + SEPARATOR + s[|s| - tail..]
  }

  /** A long text is cut to 13 characters below the limit, so clipping twice is clipping once. */
  lemma ClipIsIdempotent(s: string, maxChars: nat)
    requires maxChars > 40
    ensures |ClipKeepEnds(s, maxChars)| == if |s| <= maxChars then |s| else maxChars - 13
    ensures ClipKeepEnds(ClipKeepEnds(s, maxChars), maxChars) == ClipKeepEnds(s, maxChars)
  {
    assert |SEPARATOR| == 11;
  }

  // ---------------------------------------------------------------- what happens to each message

  function Keep(p: Policy): nat {
    Max(1, p.keepRecent)
  }

  function MaxChars(p: Policy): nat {
    Max(200, p.maxResultTokens * 4)
  }

  function Flags(msgs: seq<Message>, c: Context): (r: seq<bool>)
    ensures |r| == |msgs| && forall i :: 0 <= i < |r| ==> r[i] == IsClearable(msgs[i], c)
  {
    seq(|msgs|, i requires 0 <= i < |msgs| => IsClearable(msgs[i], c))
  }

  /** How many clearable results come at position `i` or later. */
  function ClearableFrom(flags: seq<bool>, i: nat): nat
    decreases |flags| - i
  {
    if i >= |flags| then 0 else (if flags[i] then 1 else 0) + ClearableFrom(flags, i + 1)
  }

  /** A stale result becomes the placeholder; a recent one is kept if it is small enough, else clipped. */
  function Rewritten(m: Message, stale: bool, c: Context, p: Policy, tokens: string -> nat): Message
    requires m.Tool?
  {
    var body := ClipKeepEnds(m.text, MaxChars(p));
    if stale then Tool(PLACEHOLDER, m.callId, ResolveToolName(m, c.names))
    else if tokens(m.text) <= p.maxResultTokens || body == m.text then m
    else Tool(body, m.callId, ResolveToolName(m, c.names))
  }

  /** A clearable result is stale once `Keep` clearable ones follow it. */
  function NewMessage(m: Message, later: nat, c: Context, p: Policy, tokens: string -> nat): Message {
    if IsClearable(m, c) then Rewritten(m, later >= Keep(p), c, p, tokens) else m
  }

  function ClearedWith(msgs: seq<Message>, flags: seq<bool>, c: Context, p: Policy, tokens: string -> nat): (r: seq<Message>)
    ensures |r| == |msgs|
    ensures forall i :: 0 <= i < |msgs| ==> r[i] == NewMessage(msgs[i], ClearableFrom(flags, i + 1), c, p, tokens)
  {
    seq(|msgs|, i requires 0 <= i < |msgs| => NewMessage(msgs[i], ClearableFrom(flags, i + 1), c, p, tokens))
  }

  function Cleared(msgs: seq<Message>, p: Policy, tokens: string -> nat): (r: seq<Message>)
    ensures |r| == |msgs|
  {
    var c := ContextOf(msgs, p);
    ClearedWith(msgs, Flags(msgs, c), c, p, tokens)
  }

  // ---------------------------------------------------------------- the loops

  method ToolCallNames(msgs: seq<Message>) returns (names: map<string, string>)
    ensures names == CallNames(msgs)
  {
    names := map[];
    for i := 0 to |msgs|
      invariant names == CallNames(msgs[..i])
    {
      assert msgs[..i + 1][..i] == msgs[..i];
      if msgs[i].Ai? {
        var calls := msgs[i].calls;
        ghost var before := names;
        for k := 0 to |calls|
          invariant names == NamesOfCalls(calls[..k], before)
        {
          assert calls[..k + 1][..k] == calls[..k];
          if Strip(calls[k].id) != "" {
            names := names[Strip(calls[k].id) := calls[k].name];
          }
        }
        assert calls[..|calls|] == calls;
      }
    }
    assert msgs[..|msgs|] == msgs;
  }

  /** Positions of the clearable results below `n`, in order. */
  function IndicesBelow(flags: seq<bool>, n: nat): (idx: seq<nat>)
    requires n <= |flags|
    ensures forall r :: 0 <= r < |idx| ==> idx[r] < n
  {
    if n == 0 then []
    else IndicesBelow(flags, n - 1) + if flags[n - 1] then [n - 1] else []
  }

  method ClearableIndices(msgs: seq<Message>, c: Context) returns (idx: seq<nat>)
    ensures idx == IndicesBelow(Flags(msgs, c), |msgs|)
  {
    idx := [];
    ghost var flags := Flags(msgs, c);
    for i := 0 to |msgs|
      invariant idx == IndicesBelow(flags, i)
    {
      assert flags[i] == IsClearable(msgs[i], c);
      if IsClearable(msgs[i], c) {
        idx := idx + [i];
      }
    }
  }

  lemma {:induction false} IndicesGrow(flags: seq<bool>, i: nat, n: nat)
    requires i <= n <= |flags|
    ensures IndicesBelow(flags, i) <= IndicesBelow(flags, n)
    ensures |IndicesBelow(flags, n)| + ClearableFrom(flags, n) == |IndicesBelow(flags, i)| + ClearableFrom(flags, i)
    decreases n
  {
    if i < n { IndicesGrow(flags, i, n - 1); }
  }

  /** The listed positions without the last `keep` of them are those that `keep` or more others follow. */
  lemma StaleIndices(flags: seq<bool>, keep: nat, i: nat)
    requires i < |flags| && flags[i]
    ensures var idx := IndicesBelow(flags, |flags|);
      i in (if |idx| > keep then idx[..|idx| - keep] else []) <==> ClearableFrom(flags, i + 1) >= keep
  {
    var idx, at := IndicesBelow(flags, |flags|), |IndicesBelow(flags, i)|;
    IndicesGrow(flags, i, |flags|);
    IndicesGrow(flags, i + 1, |flags|);
    assert idx[at] == IndicesBelow(flags, i + 1)[at] == i;
    assert forall r :: 0 <= r < at ==> idx[r] == IndicesBelow(flags, i)[r] < i;
    if ClearableFrom(flags, i + 1) >= keep {
      assert idx[..|idx| - keep][at] == i;
    }
  }

  lemma {:induction false} NoneBelow(flags: seq<bool>, n: nat)
    requires n <= |flags| && IndicesBelow(flags, n) == []
    ensures forall i :: 0 <= i < n ==> !flags[i]
  {
    if n > 0 { NoneBelow(flags, n - 1); }
  }

  lemma NothingCleared(msgs: seq<Message>, p: Policy, tokens: string -> nat)
    requires forall i :: 0 <= i < |msgs| ==> !Flags(msgs, ContextOf(msgs, p))[i]
    ensures Cleared(msgs, p, tokens) == msgs
  {
    var c := ContextOf(msgs, p);
    forall i | 0 <= i < |msgs| ensures Cleared(msgs, p, tokens)[i] == msgs[i] {
      assert Flags(msgs, c)[i] == IsClearable(msgs[i], c);
    }
  }

  method RewriteResult(m: Message, stale: bool, c: Context, p: Policy, tokens: string -> nat)
    returns (m': Message, cleared: bool, clipped: bool)
    requires m.Tool?
    ensures m' == Rewritten(m, stale, c, p, tokens)
    ensures !cleared && !clipped ==> m' == m
  {
    var name := ResolveToolName(m, c.names);
    if stale {
      return Tool(PLACEHOLDER, m.callId, name), true, false;
    }
    if tokens(m.text) <= p.maxResultTokens {
      return m, false, false;
    }
    var body := ClipKeepEnds(m.text, MaxChars(p));
    if body == m.text {
      return m, false, false;
    }
    return Tool(body, m.callId, name), false, true;
  }

  /** One message of the pass; `toClear` lists the stale positions. */
  method RewriteAt(msgs: seq<Message>, i: nat, toClear: seq<nat>, c: Context, p: Policy, tokens: string -> nat)
    returns (m': Message, cleared: bool, clipped: bool)
    requires i < |msgs| && c == ContextOf(msgs, p)
    requires var idx := IndicesBelow(Flags(msgs, c), |msgs|);
      toClear == if |idx| > Keep(p) then idx[..|idx| - Keep(p)] else []
    ensures m' == Cleared(msgs, p, tokens)[i]
    ensures !cleared && !clipped ==> m' == msgs[i]
  {
    var m := msgs[i];
    ghost var flags := Flags(msgs, c);
    assert flags[i] == IsClearable(m, c);
    if !IsClearable(m, c) {
      return m, false, false;
    }
    StaleIndices(flags, Keep(p), i);
    m', cleared, clipped := RewriteResult(m, i in toClear, c, p, tokens);
  }

  method RewriteAll(msgs: seq<Message>, toClear: seq<nat>, c: Context, p: Policy, tokens: string -> nat)
    returns (out: seq<Message>, cleared: nat, clipped: nat)
    requires c == ContextOf(msgs, p)
    requires var idx := IndicesBelow(Flags(msgs, c), |msgs|);
      toClear == if |idx| > Keep(p) then idx[..|idx| - Keep(p)] else []
    ensures out == Cleared(msgs, p, tokens)
    ensures cleared == 0 && clipped == 0 ==> out == msgs
  {
    ghost var result := Cleared(msgs, p, tokens);
    out, cleared, clipped := [], 0, 0;
    for i := 0 to |msgs|
      invariant out == result[..i]
      invariant cleared == 0 && clipped == 0 ==> out == msgs[..i]
    {
      TakeOneMore(msgs, i);
      TakeOneMore(result, i);
      var m', one, other := RewriteAt(msgs, i, toClear, c, p, tokens);
      cleared := cleared + (if one then 1 else 0);
      clipped := clipped + (if other then 1 else 0);
      out := out + [m'];
    }
    assert msgs[..|msgs|] == msgs && result[..|msgs|] == result;
  }

  method ClearOldToolResults(msgs: seq<Message>, p: Policy, tokens: string -> nat)
    returns (out: seq<Message>, cleared: nat, clipped: nat)
    ensures out == Cleared(msgs, p, tokens)
    ensures cleared == 0 && clipped == 0 ==> out == msgs
  {
    var names := ToolCallNames(msgs);
    var c := Context(p.tools, names);
    var idx := ClearableIndices(msgs, c);
    if idx == [] {
      NoneBelow(Flags(msgs, c), |msgs|);
      NothingCleared(msgs, p, tokens);
      return msgs, 0, 0;
    }
    var toClear := if |idx| > Keep(p) then idx[..|idx| - Keep(p)] else [];
    out, cleared, clipped := RewriteAll(msgs, toClear, c, p, tokens);
  }

  // ---------------------------------------------------------------- the gate

  datatype Gate = Gate(enabled: bool, ratio: real, budget: ContextBudget)

  function TriggerOf(g: Gate): int {
    var ratio := if g.ratio < 0.05 then 0.05 else if g.ratio > 0.98 then 0.98 else g.ratio;
    Max(1024, (Effective(g.budget) as real * ratio).Floor)
  }

  function Projected(msgs: seq<Message>, g: Gate, p: Policy, cost: Message -> nat, tokens: string -> nat): (r: seq<Message>)
    ensures |r| == |msgs|
  {
    if !g.enabled || Estimate(msgs, cost, 1.0) < TriggerOf(g) then msgs else Cleared(msgs, p, tokens)
  }

  method ProjectMicroCompact(msgs: seq<Message>, g: Gate, p: Policy, cost: Message -> nat, tokens: string -> nat)
    returns (out: seq<Message>, cleared: nat, clipped: nat)
    ensures out == Projected(msgs, g, p, cost, tokens)
    ensures cleared == 0 && clipped == 0 ==> out == msgs
  {
    if !g.enabled || msgs == [] {
      return msgs, 0, 0;
    }
    var estimated := EstimateMessagesTokens(msgs, cost, 1.0);
    if estimated < TriggerOf(g) {
      return msgs, 0, 0;
    }
    out, cleared, clipped := ClearOldToolResults(msgs, p, tokens);
  }

  // ---------------------------------------------------------------- what is kept

  /** Same class and call id at every position; all that is not a tool result is untouched. */
  ghost predicate SameSkeleton(a: seq<Message>, b: seq<Message>) {
    && |a| == |b|
    && forall i :: 0 <= i < |a| ==> if a[i].Tool? then b[i].Tool? && b[i].callId == a[i].callId else b[i] == a[i]
  }

  lemma ClearedKeepsSkeleton(msgs: seq<Message>, p: Policy, tokens: string -> nat)
    ensures SameSkeleton(msgs, Cleared(msgs, p, tokens))
  {
  }

  lemma ProjectionKeepsSkeleton(msgs: seq<Message>, g: Gate, p: Policy, cost: Message -> nat, tokens: string -> nat)
    ensures SameSkeleton(msgs, Projected(msgs, g, p, cost, tokens))
  {
    ClearedKeepsSkeleton(msgs, p, tokens);
  }

  lemma ChangedMessage(m: Message, later: nat, c: Context, p: Policy, tokens: string -> nat)
    requires NewMessage(m, later, c, p, tokens) != m
    ensures IsClearable(m, c)
    ensures later < Keep(p) ==>
      |m.text| > MaxChars(p) && NewMessage(m, later, c, p, tokens).text == ClipKeepEnds(m.text, MaxChars(p))
  {
  }

  /** Only results of re-runnable tools change; stale ones are cleared, and the last `Keep` are at most clipped. */
  lemma OnlyStaleResultsCleared(msgs: seq<Message>, p: Policy, tokens: string -> nat, i: nat)
    requires i < |msgs|
    ensures var c := ContextOf(msgs, p);
      var before, after, later := msgs[i], Cleared(msgs, p, tokens)[i], ClearableFrom(Flags(msgs, c), i + 1);
      && (!IsClearable(before, c) ==> after == before)
      && (IsClearable(before, c) && later >= Keep(p) ==> after.text == PLACEHOLDER)
      && (IsClearable(before, c) && later < Keep(p) && after != before ==>
            |before.text| > MaxChars(p) && after.text == ClipKeepEnds(before.text, MaxChars(p)))
  {
    var c := ContextOf(msgs, p);
    var later := ClearableFrom(Flags(msgs, c), i + 1);
    if NewMessage(msgs[i], later, c, p, tokens) != msgs[i] {
      ChangedMessage(msgs[i], later, c, p, tokens);
    }
  }

  /** A set of calls names the same tools after the pass, since only tool results change. */
  lemma {:induction false} SkeletonKeepsCallNames(a: seq<Message>, b: seq<Message>)
    requires SameSkeleton(a, b)
    ensures CallNames(a) == CallNames(b)
    decreases |a|
  {
    if a != [] {
      SkeletonKeepsCallNames(a[..|a| - 1], b[..|b| - 1]);
    }
  }

  /** The name written on a rewritten result resolves to a clearable tool again. */
  lemma RewrittenStaysClearable(m: Message, text: string, c: Context)
    requires IsClearable(m, c)
    ensures IsClearable(Tool(text, m.callId, ResolveToolName(m, c.names)), c)
  {
    StripIdempotent(ResolveToolName(m, c.names));
    StripIdempotent(m.name);
  }

  lemma SecondPassAt(m: Message, later: nat, c: Context, p: Policy, tokens: string -> nat)
    ensures var once := NewMessage(m, later, c, p, tokens);
      && IsClearable(once, c) == IsClearable(m, c)
      && NewMessage(once, later, c, p, tokens).text == once.text
  {
    var once := NewMessage(m, later, c, p, tokens);
    if IsClearable(m, c) {
      RewrittenStaysClearable(m, once.text, c);
      ClipIsIdempotent(m.text, MaxChars(p));
    }
  }

  /** A second pass finds nothing more to take away: all contents stay as the first pass left them. */
  lemma SecondPassKeepsContents(msgs: seq<Message>, p: Policy, tokens: string -> nat)
    ensures forall i :: 0 <= i < |msgs| ==>
      Cleared(Cleared(msgs, p, tokens), p, tokens)[i].text == Cleared(msgs, p, tokens)[i].text
  {
    var once, c := Cleared(msgs, p, tokens), ContextOf(msgs, p);
    var flags := Flags(msgs, c);
    ClearedKeepsSkeleton(msgs, p, tokens);
    SkeletonKeepsCallNames(msgs, once);
    forall i | 0 <= i < |msgs| ensures Flags(once, c)[i] == flags[i] {
      SecondPassAt(msgs[i], ClearableFrom(flags, i + 1), c, p, tokens);
    }
    assert Flags(once, c) == flags;
    forall i | 0 <= i < |msgs| ensures Cleared(once, p, tokens)[i].text == once[i].text {
      SecondPassAt(msgs[i], ClearableFrom(flags, i + 1), c, p, tokens);
    }
  }

  // ---------------------------------------------------------------- turns survive

  lemma {:induction false} SkeletonKeepsReplyRun(a: seq<Message>, b: seq<Message>)
    requires SameSkeleton(a, b)
    ensures ReplyRun(a) == ReplyRun(b)
    decreases |a|
  {
    if a != [] && !a[0].Human? { SkeletonKeepsReplyRun(a[1..], b[1..]); }
  }

  lemma {:induction false} SkeletonKeepsSystemRun(a: seq<Message>, b: seq<Message>)
    requires SameSkeleton(a, b)
    ensures SystemRun(a) == SystemRun(b)
    decreases |a|
  {
    if a != [] && a[0].System? { SkeletonKeepsSystemRun(a[1..], b[1..]); }
  }

  lemma SkeletonParts(a: seq<Message>, b: seq<Message>, n: nat)
    requires SameSkeleton(a, b) && n <= |a|
    ensures SameSkeleton(a[..n], b[..n]) && SameSkeleton(a[n..], b[n..])
  {
  }

  ghost predicate SameTurnSkeletons(a: seq<seq<Message>>, b: seq<seq<Message>>) {
    |a| == |b| && forall t :: 0 <= t < |a| ==> SameSkeleton(a[t], b[t])
  }

  lemma ConsSkeletons(x: seq<Message>, y: seq<Message>, a: seq<seq<Message>>, b: seq<seq<Message>>)
    requires SameSkeleton(x, y) && SameTurnSkeletons(a, b)
    ensures SameTurnSkeletons([x] + a, [y] + b)
  {
  }

  lemma {:induction false} SkeletonKeepsTurns(a: seq<Message>, b: seq<Message>)
    requires SameSkeleton(a, b)
    ensures SameTurnSkeletons(TurnsOf(a), TurnsOf(b))
    decreases |a|
  {
    if a != [] {
      SkeletonParts(a, b, 1);
      if a[0].Human? {
        var n := 1 + ReplyRun(a[1..]);
        SkeletonKeepsReplyRun(a[1..], b[1..]);
        SkeletonParts(a, b, n);
        SkeletonKeepsTurns(a[n..], b[n..]);
        ConsSkeletons(a[..n], b[..n], TurnsOf(a[n..]), TurnsOf(b[n..]));
      } else {
        SkeletonKeepsTurns(a[1..], b[1..]);
      }
    }
  }

  lemma {:induction false} SkeletonKeepsUserIds(a: seq<Pair>, b: seq<Pair>)
    requires |a| == |b| && forall i :: 0 <= i < |a| ==> a[i].0 == b[i].0 && (a[i].1.Human? <==> b[i].1.Human?)
    ensures UserIds(a) == UserIds(b)
    decreases |a|
  {
    if a != [] { SkeletonKeepsUserIds(a[..|a| - 1], b[..|b| - 1]); }
  }

  lemma SkeletonKeepsKeys(a: seq<Message>, b: seq<Message>, ids: seq<Id>)
    requires SameSkeleton(a, b)
    ensures TurnKeys(a, ids) == TurnKeys(b, ids)
  {
    if |ids| == |a| {
      var x, y := Zip(ids, a), Zip(ids, b);
      forall i | 0 <= i < |x| ensures x[i].0 == y[i].0 && (x[i].1.Human? <==> y[i].1.Human?) {
        assert x[i] == (ids[i], a[i]) && y[i] == (ids[i], b[i]);
      }
      SkeletonKeepsUserIds(x, y);
    }
  }

  lemma SkeletonKeepsPrefix(a: seq<Message>, b: seq<Message>)
    requires SameSkeleton(a, b)
    ensures SystemRun(a) == SystemRun(b) && a[..SystemRun(a)] == b[..SystemRun(b)]
  {
    SkeletonKeepsSystemRun(a, b);
    forall i | 0 <= i < SystemRun(a) ensures a[i] == b[i] {
      assert a[i].System?;
    }
  }

  /**
   * After the pass there are as many turns, with the same keys, and each turn still pairs up message by
   * message with the original; a window start computed before the pass means the same turns after it.
   */
  lemma ProjectionKeepsTurns(msgs: seq<Message>, ids: seq<Id>, g: Gate, p: Policy, cost: Message -> nat, tokens: string -> nat)
    ensures var out := Projected(msgs, g, p, cost, tokens);
      var n := SystemRun(msgs);
      && SystemRun(out) == n && out[..n] == msgs[..n]
      && TurnKeys(out, ids) == TurnKeys(msgs, ids)
      && SameTurnSkeletons(TurnsOf(msgs[n..]), TurnsOf(out[n..]))
  {
    var out := Projected(msgs, g, p, cost, tokens);
    ProjectionKeepsSkeleton(msgs, g, p, cost, tokens);
    SkeletonKeepsPrefix(msgs, out);
    SkeletonKeepsKeys(msgs, out, ids);
    SkeletonParts(msgs, out, SystemRun(msgs));
    SkeletonKeepsTurns(msgs[SystemRun(msgs)..], out[SystemRun(msgs)..]);
  }
}
