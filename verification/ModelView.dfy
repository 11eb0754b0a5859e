/**
 * The message list sent to the model: system prefix, at most one summary, then the turns that are kept
 * word for word. Nothing between the summary and the first kept turn is missing unless flagged.
 */
module ModelView {
  import opened Common
  import opened Text
  import opened Turns
  import opened Segments
  import opened SegmentTable
  import opened Persistence
  import opened Budget
  import opened MicroCompact
  import opened Compaction

  datatype Out = Original(message: Message) | SummaryBlock(summary: Summary)

  function AsOut(msgs: seq<Message>): (r: seq<Out>)
    ensures |r| == |msgs| && forall i :: 0 <= i < |r| ==> r[i] == Original(msgs[i])
  {
    seq(|msgs|, i requires 0 <= i < |msgs| => Original(msgs[i]))
  }

  function View(prefix: seq<Message>, summary: Summary, kept: seq<seq<Message>>): seq<Out> {
    AsOut(prefix) + (if summary.NoSummary? then [] else [SummaryBlock(summary)]) + AsOut(Flatten(kept))
  }

  datatype Info = Info(keepFrom: nat, chain: seq<Segment>, summary: Summary, compacted: bool, degraded: bool)

  /** Settings and environment of one call. */
  datatype Setup = Setup(
    budget: ContextBudget, gate: Gate, policy: Policy, overhead: nat, allowSync: bool, factor: real,
    cost: Message -> nat, tokens: string -> nat, blockTokens: Summary -> nat)

  /** The older single summary, if there is one, is not blank. */
  predicate LegacyOk(legacy: string, covered: nat) {
    (legacy == "" && covered == 0) || Strip(legacy) != ""
  }

  function RequestOf(u: Setup): Request {
    Request(u.budget.keepTokens, u.factor, true, "")
  }

  function EstimatePrompt(u: Setup, summary: Summary, verbatim: seq<Message>): nat {
    ApplyFactor(u.overhead + u.blockTokens(summary) + RawTokens(verbatim, u.cost), u.factor)
  }

  // ---------------------------------------------------------------- turns and keys

  lemma {:induction false} PrefixHasNoTurns(msgs: seq<Message>, n: nat)
    requires n <= |msgs| && forall i :: 0 <= i < n ==> !msgs[i].Human?
    ensures TurnsOf(msgs) == TurnsOf(msgs[n..])
    decreases n
  {
    if n > 0 {
      PrefixHasNoTurns(msgs[1..], n - 1);
      assert msgs[1..][n - 1..] == msgs[n..];
    } else {
      assert msgs[0..] == msgs;
    }
  }

  lemma OneKeyPerTurn(msgs: seq<Message>, ids: seq<Id>)
    requires |ids| == |msgs|
    ensures |TurnKeys(msgs, ids)| == |TurnsOf(msgs[SystemRun(msgs)..])|
  {
    GroupingsAgree(Zip(ids, msgs));
    PairTurnsShape(Zip(ids, msgs));
    PrefixHasNoTurns(msgs, SystemRun(msgs));
  }

  lemma {:induction false} UserIdsIncrease(pairs: seq<Pair>)
    requires forall i, j :: 0 <= i < j < |pairs| ==> pairs[i].0 < pairs[j].0
    ensures Increasing(UserIds(pairs))
    ensures forall x :: x in UserIds(pairs) ==> exists i :: 0 <= i < |pairs| && pairs[i].0 == x
  {
    if pairs != [] {
      var init, last := pairs[..|pairs| - 1], pairs[|pairs| - 1];
      UserIdsIncrease(init);
      var ids := UserIds(init);
      forall k | 0 <= k < |ids| ensures ids[k] < last.0 && exists i :: 0 <= i < |pairs| && pairs[i].0 == ids[k] {
        assert ids[k] in ids;
        var i :| 0 <= i < |init| && init[i].0 == ids[k];
        assert pairs[i].0 == ids[k];
      }
      assert pairs[|pairs| - 1].0 == last.0;
    }
  }

  lemma TurnKeysIncrease(msgs: seq<Message>, ids: seq<Id>)
    requires Increasing(ids)
    ensures Increasing(TurnKeys(msgs, ids))
  {
    if |ids| == |msgs| { UserIdsIncrease(Zip(ids, msgs)); }
  }

  // ---------------------------------------------------------------- the chain before and after

  lemma StateChain(t: Table, keys: seq<Id>)
    requires TableOk(t)
    ensures var chain := Reload(t, keys);
      && Tiles(chain, keys, 0) && NoneBlank(chain) && 0 <= Covered(chain) <= |keys|
      && (Covered(chain) == 0 <==> chain == [])
  {
    ReloadedAreStored(t, keys);
    var chain := Reload(t, keys);
    assert chain != [] ==> IsValidForPath(chain[|chain| - 1], keys);
  }

  /** A successful compaction leaves a chain that covers exactly the turns that were cut. */
  lemma CompactedChain(t: Table, keys: seq<Id>, legacy: string, cs: CompactSettings,
                       keepFrom: nat, newKeep: nat, summary: string, tokens: nat)
    requires TableOk(t) && Strip(summary) != "" && keepFrom < newKeep <= |keys|
    requires var c := Covered(Reload(t, keys)); c == keepFrom || (c == 0 && Strip(legacy) != "")
    ensures var chain := Reload(t, keys);
      var merge := MergesInto(chain, legacy, cs);
      var s := NewSegment(chain, keys, keepFrom, newKeep, summary, tokens, merge);
      && (merge || keepFrom == Covered(chain))
      && Tiles(Returned(t, chain, s, merge), keys, 0) && NoneBlank(Returned(t, chain, s, merge))
      && Covered(Returned(t, chain, s, merge)) == newKeep
  {
    var chain := Reload(t, keys);
    var merge := MergesInto(chain, legacy, cs);
    StateChain(t, keys);
    NewSegmentFits(chain, keys, keepFrom, newKeep, summary, tokens, merge);
    ReturnedTiles(t, keys, chain, NewSegment(chain, keys, keepFrom, newKeep, summary, tokens, merge), merge);
  }

  /** A segment that starts where the chain ends is appended; a merged one, or the first, stands alone. */
  lemma ReturnedTiles(t: Table, keys: seq<Id>, chain: seq<Segment>, s: Segment, merge: bool)
    requires Tiles(chain, keys, 0) && NoneBlank(chain) && IsValidForPath(s, keys) && Strip(s.summary) != ""
    requires s.fromIndex == (if merge then 0 else Covered(chain)) && s.mergedFrom == if merge then SegIds(chain) else []
    ensures Tiles(Returned(t, chain, s, merge), keys, 0) && NoneBlank(Returned(t, chain, s, merge))
    ensures Covered(Returned(t, chain, s, merge)) == s.toIndex
  {
    var inMemory := s.(rowId := StoredAs(t, s).rowId);
    OneMoreSegment(chain, keys, inMemory);
    assert Returned(t, chain, s, merge) == if merge && chain != [] then [inMemory] else chain + [inMemory];
  }

  lemma OneMoreSegment(chain: seq<Segment>, keys: seq<Id>, s: Segment)
    requires Tiles(chain, keys, 0) && NoneBlank(chain) && IsValidForPath(s, keys) && Strip(s.summary) != ""
    ensures s.fromIndex == Covered(chain) ==> Tiles(chain + [s], keys, 0)
    ensures s.fromIndex == 0 ==> Tiles([s], keys, 0)
    ensures NoneBlank(chain + [s]) && Covered(chain + [s]) == s.toIndex
  {
    if s.fromIndex == Covered(chain) { TilesSnoc(chain, s, keys, 0); }
    if s.fromIndex == 0 {
      TilesSnoc([], s, keys, 0);
      assert [] + [s] == [s];
    }
  }

  // ---------------------------------------------------------------- building the view

  method Assemble(prefix: seq<Message>, summary: Summary, turns: seq<seq<Message>>, keepFrom: nat) returns (out: seq<Out>)
    requires keepFrom <= |turns|
    ensures out == View(prefix, summary, turns[keepFrom..])
  {
    out := AsOut(prefix);
    if !summary.NoSummary? {
      out := out + [SummaryBlock(summary)];
    }
    ghost var head := out;
    var kept := turns[keepFrom..];
    for t := 0 to |kept|
      invariant out == head + AsOut(Flatten(kept[..t]))
    {
      TakeOneMore(kept, t);
      FlattenAppend(kept[..t], kept[t]);
      out := out + AsOut(kept[t]);
    }
    assert kept[..|kept|] == kept;
  }

  lemma {:induction false} FlattenAppend(turns: seq<seq<Message>>, last: seq<Message>)
    ensures Flatten(turns + [last]) == Flatten(turns) + last
  {
    if turns == [] {
      assert [last][1..] == [];
    } else {
      FlattenAppend(turns[1..], last);
      assert (turns + [last])[1..] == turns[1..] + [last];
    }
  }

  /** Compacts if the estimate says so. */
  method CompactIfNeeded(s: Session, turns: seq<seq<Message>>, keys: seq<Id>, prefix: seq<Message>, st: State, u: Setup, o: Outside)
    returns (attempt: Option<Attempt>)
    requires TableOk(s.table) && (keys != [] ==> |keys| == |turns|) && st.keepFrom <= |turns|
    modifies s
    ensures TableOk(s.table)
    ensures attempt.Some? ==>
      && s.stored && keys != [] && st.keepFrom < |turns| - 1
      && Cut(attempt.value, turns, st.keepFrom, RequestOf(u), u.cost)
      && Effect(attempt.value, old(s.table), s.table, keys, st.chain, st.legacy, st.keepFrom, s.cs, u.tokens, o)
    ensures attempt.Some? ==>
      && Admitted(attempt.value.reason, RequestOf(u), old(s.failures), s.cs, o)
      && s.failures == if o.metadataFails then old(s.failures) else CountAfter(old(s.failures), attempt.value.reason)
    ensures attempt.None? ==> s.table == old(s.table) && s.failures == old(s.failures)
  {
    var verbatim := Flatten(turns[st.keepFrom..]);
    var estimated := EstimatePrompt(u, Render(st.chain, st.legacy), prefix + verbatim);
    var need := estimated >= Trigger(u.budget) && st.keepFrom < |turns| - 1;
    if need && u.allowSync && keys != [] && s.stored {
      var res := s.AttemptCompaction(turns, keys, st.chain, st.legacy, st.keepFrom, RequestOf(u), u.cost, u.tokens, s.failures, o);
      return Some(res);
    }
    return None;
  }

  /** What the caller goes on with: results of the attempt where there are any, else the resolved state. */
  function InfoOf(st: State, attempt: Option<Attempt>, tripped: bool): Info {
    var summary := Render(st.chain, st.legacy);
    if attempt.None? then Info(st.keepFrom, st.chain, summary, false, tripped)
    else
      var res := attempt.value;
      Info(if res.keepFrom != 0 then res.keepFrom else st.keepFrom,
           if res.chain != [] then res.chain else st.chain,
           if res.summary != NoSummary then res.summary else summary,
           res.reason == Compacted, res.degraded)
  }

  ghost function StateOf(t: Table, stored: bool, keys: seq<Id>, turnCount: nat, legacy: string, legacyCovered: nat): State {
    var chain := if stored && keys != [] then Reload(t, keys) else [];
    if Covered(chain) > 0 then State(chain, "", Min(Covered(chain), turnCount))
    else State([], legacy, Min(legacyCovered, turnCount))
  }

  /**
   * What a call may do to the window: it never moves back; the last turn is kept exactly if the window
   * started at or before it; it moves only by a compaction or with the result flagged.
   */
  ghost predicate WindowOk(info: Info, st: State, turnCount: nat) {
    && st.keepFrom <= info.keepFrom <= turnCount
    && (info.keepFrom < turnCount <==> st.keepFrom < turnCount)
    && (info.keepFrom != st.keepFrom ==> info.compacted || info.degraded)
  }

  /** The stored chain is what counts: there is one, or there is no older summary to stand in for it. */
  predicate ChainCounts(st: State, legacyCovered: nat) {
    st.chain != [] || (st.legacy == "" && legacyCovered == 0)
  }

  /** There is a stored chain, or no older summary, or one that is not blank: what a compaction writes starts at turn 0. */
  predicate Anchors(st: State, legacyCovered: nat) {
    st.chain != [] || LegacyOk(st.legacy, legacyCovered)
  }

  /** Then summary and kept turns meet exactly, unless the result is flagged; and the gap is what was cut. */
  ghost predicate NoGap(info: Info, st: State, legacyCovered: nat) {
    ChainCounts(st, legacyCovered) ==>
      && CoversExactly(info.summary, Covered(info.chain))
      && Covered(info.chain) <= info.keepFrom
      && (Covered(info.chain) < info.keepFrom ==> info.degraded)
  }

  /** After a compaction the summary covers exactly what was cut, and the next load starts with the same chain. */
  ghost predicate CompactedOk(info: Info, t': Table, keys: seq<Id>) {
    info.compacted ==>
      && CoversExactly(info.summary, info.keepFrom)
      && (Increasing(keys) ==> BeginsWith(Reload(t', keys), info.chain))
  }

  lemma AttemptNeverEmpty(st: State, res: Attempt, turns: seq<seq<Message>>, t: Table, t': Table, keys: seq<Id>, u: Setup,
                          cs: CompactSettings, tripped: bool, o: Outside)
    requires Cut(res, turns, st.keepFrom, RequestOf(u), u.cost)
    requires Effect(res, t, t', keys, st.chain, st.legacy, st.keepFrom, cs, u.tokens, o)
    ensures var info := InfoOf(st, Some(res), tripped);
      && info.compacted == (res.reason == Compacted)
      && info.keepFrom == res.keepFrom && info.chain == res.chain && info.degraded == res.degraded
      && (res.reason != Compacted ==> info.summary == res.summary == Render(st.chain, st.legacy))
      && (res.reason == Compacted && CoversExactly(res.summary, res.keepFrom) ==> info.summary == res.summary)
  {
  }

  /** What the call promises, given the state it started from and the turns it saw after the cheap pass. */
  ghost predicate InfoOk(info: Info, st: State, t: Table, t': Table, keys: seq<Id>, turnCount: nat, legacyCovered: nat) {
    && WindowOk(info, st, turnCount)
    && NoGap(info, st, legacyCovered)
    && (Anchors(st, legacyCovered) ==> CompactedOk(info, t', keys))
    && (!info.compacted ==> t' == t)
  }

  lemma StateCovers(t: Table, stored: bool, keys: seq<Id>, turnCount: nat, legacy: string, legacyCovered: nat)
    requires TableOk(t) && (keys != [] ==> |keys| == turnCount)
    ensures var st := StateOf(t, stored, keys, turnCount, legacy, legacyCovered);
      && st.keepFrom <= turnCount
      && (ChainCounts(st, legacyCovered) ==> CoversExactly(Render(st.chain, st.legacy), Covered(st.chain)) && Covered(st.chain) == st.keepFrom)
      && (keys != [] && stored ==> st.chain == Reload(t, keys))
  {
    StateChain(t, keys);
    RenderCovers(Reload(t, keys), keys);
    RenderCovers([], keys);
  }

  lemma NoAttempt(t: Table, stored: bool, keys: seq<Id>, turnCount: nat, legacy: string, legacyCovered: nat, tripped: bool)
    requires TableOk(t) && (keys != [] ==> |keys| == turnCount)
    ensures var st := StateOf(t, stored, keys, turnCount, legacy, legacyCovered);
      InfoOk(InfoOf(st, None, tripped), st, t, t, keys, turnCount, legacyCovered)
  {
    StateCovers(t, stored, keys, turnCount, legacy, legacyCovered);
  }

  lemma FailedAttempt(st: State, t: Table, keys: seq<Id>, turns: seq<seq<Message>>, legacyCovered: nat,
                      res: Attempt, tripped: bool, u: Setup, cs: CompactSettings, o: Outside)
    requires res.reason != Compacted && st.keepFrom < |turns| - 1
    requires ChainCounts(st, legacyCovered) ==>
      CoversExactly(Render(st.chain, st.legacy), Covered(st.chain)) && Covered(st.chain) == st.keepFrom
    requires Cut(res, turns, st.keepFrom, RequestOf(u), u.cost)
    requires Effect(res, t, t, keys, st.chain, st.legacy, st.keepFrom, cs, u.tokens, o)
    ensures InfoOk(InfoOf(st, Some(res), tripped), st, t, t, keys, |turns|, legacyCovered)
  {
    AttemptNeverEmpty(st, res, turns, t, t, keys, u, cs, tripped, o);
  }

  /** The new segment starts where the chain ends, or at turn 0 because an older summary is merged into it. */
  ghost predicate StartsWell(st: State, t: Table, keys: seq<Id>) {
    && st.chain == Reload(t, keys)
    && var c := Covered(st.chain);
       c == st.keepFrom || (c == 0 && Strip(st.legacy) != "")
  }

  lemma AnchoredStartsWell(st: State, t: Table, keys: seq<Id>, legacyCovered: nat)
    requires TableOk(t) && Anchors(st, legacyCovered)
    requires st.chain == Reload(t, keys) && (ChainCounts(st, legacyCovered) ==> Covered(st.chain) == st.keepFrom)
    ensures StartsWell(st, t, keys)
  {
    StateChain(t, keys);
  }

  lemma SuccessCovers(st: State, t: Table, keys: seq<Id>, newKeep: nat, cs: CompactSettings, text: string, tokens: nat)
    requires TableOk(t) && Strip(text) != "" && st.keepFrom < newKeep <= |keys| && StartsWell(st, t, keys)
    ensures var merge := MergesInto(st.chain, st.legacy, cs);
      var chain := Returned(t, st.chain, NewSegment(st.chain, keys, st.keepFrom, newKeep, text, tokens, merge), merge);
      CoversExactly(Render(chain, ""), newKeep) && Covered(chain) == newKeep
  {
    var merge := MergesInto(st.chain, st.legacy, cs);
    var chain := Returned(t, st.chain, NewSegment(st.chain, keys, st.keepFrom, newKeep, text, tokens, merge), merge);
    CompactedChain(t, keys, st.legacy, cs, st.keepFrom, newKeep, text, tokens);
    RenderCovers(chain, keys);
  }

  lemma SuccessReloads(st: State, t: Table, keys: seq<Id>, newKeep: nat, cs: CompactSettings, text: string, tokens: nat, deleteFails: bool)
    requires TableOk(t) && Strip(text) != "" && st.keepFrom < newKeep <= |keys| && StartsWell(st, t, keys) && Increasing(keys)
    ensures var merge := MergesInto(st.chain, st.legacy, cs);
      var s := NewSegment(st.chain, keys, st.keepFrom, newKeep, text, tokens, merge);
      BeginsWith(Reload(Stored(t, s, merge, deleteFails), keys), Returned(t, st.chain, s, merge))
  {
    StateChain(t, keys);
    PersistThenReload(t, keys, st.keepFrom, newKeep, text, tokens, MergesInto(st.chain, st.legacy, cs), deleteFails);
  }

  lemma SuccessfulAttempt(st: State, t: Table, t': Table, keys: seq<Id>, turns: seq<seq<Message>>, legacyCovered: nat,
                          res: Attempt, tripped: bool, u: Setup, cs: CompactSettings, o: Outside)
    requires res.reason == Compacted && st.keepFrom < |turns| - 1
    requires Cut(res, turns, st.keepFrom, RequestOf(u), u.cost)
    requires Effect(res, t, t', keys, st.chain, st.legacy, st.keepFrom, cs, u.tokens, o)
    requires TableOk(t) && |keys| == |turns| && (Anchors(st, legacyCovered) ==> StartsWell(st, t, keys))
    ensures InfoOk(InfoOf(st, Some(res), tripped), st, t, t', keys, |turns|, legacyCovered)
  {
    var text := o.summary.value;
    if Anchors(st, legacyCovered) {
      SuccessCovers(st, t, keys, res.keepFrom, cs, text, u.tokens(text));
      if Increasing(keys) { SuccessReloads(st, t, keys, res.keepFrom, cs, text, u.tokens(text), o.deleteFails); }
    }
    AttemptNeverEmpty(st, res, turns, t, t', keys, u, cs, tripped, o);
  }

  // ---------------------------------------------------------------- the whole call

  lemma CallOk(t: Table, t': Table, stored: bool, keys: seq<Id>, turns: seq<seq<Message>>, legacy: string, legacyCovered: nat,
               attempt: Option<Attempt>, tripped: bool, u: Setup, cs: CompactSettings, o: Outside)
    requires TableOk(t) && (keys != [] ==> |keys| == |turns|)
    requires attempt.None? ==> t' == t
    requires var st := StateOf(t, stored, keys, |turns|, legacy, legacyCovered);
      attempt.Some? ==>
      && stored && keys != [] && st.keepFrom < |turns| - 1
      && Cut(attempt.value, turns, st.keepFrom, RequestOf(u), u.cost)
      && Effect(attempt.value, t, t', keys, st.chain, st.legacy, st.keepFrom, cs, u.tokens, o)
    ensures var st := StateOf(t, stored, keys, |turns|, legacy, legacyCovered);
      InfoOk(InfoOf(st, attempt, tripped), st, t, t', keys, |turns|, legacyCovered)
  {
    var st := StateOf(t, stored, keys, |turns|, legacy, legacyCovered);
    StateCovers(t, stored, keys, |turns|, legacy, legacyCovered);
    if attempt.None? {
      NoAttempt(t, stored, keys, |turns|, legacy, legacyCovered, tripped);
    } else if attempt.value.reason != Compacted {
      FailedAttempt(st, t, keys, turns, legacyCovered, attempt.value, tripped, u, cs, o);
    } else {
      if Anchors(st, legacyCovered) {
        AnchoredStartsWell(st, t, keys, legacyCovered);
      }
      SuccessfulAttempt(st, t, t', keys, turns, legacyCovered, attempt.value, tripped, u, cs, o);
    }
  }

  /** The cheap pass comes first; the turns are regrouped only if it changed something. */
  method ProjectTurns(msgs: seq<Message>, prefix: seq<Message>, turns: seq<seq<Message>>, u: Setup)
    returns (prefix': seq<Message>, turns': seq<seq<Message>>)
    requires var n := SystemRun(msgs); prefix == msgs[..n] && turns == TurnsOf(msgs[n..])
    ensures var n := SystemRun(msgs);
      prefix' == msgs[..n] && turns' == TurnsOf(Projected(msgs, u.gate, u.policy, u.cost, u.tokens)[n..])
    ensures |turns'| == |turns|
  {
    var projected, cleared, clipped := ProjectMicroCompact(msgs, u.gate, u.policy, u.cost, u.tokens);
    ProjectionKeepsTurns(msgs, [], u.gate, u.policy, u.cost, u.tokens);
    prefix', turns' := prefix, turns;
    if cleared > 0 || clipped > 0 {
      var body: seq<Message>;
      prefix', body := SplitSystemPrefix(projected);
      turns' := GroupTurns(body);
    }
  }

  method DecideView(s: Session, keys: seq<Id>, prefix: seq<Message>, turns: seq<seq<Message>>, st: State,
                    ghost legacy: string, ghost legacyCovered: nat, tripped: bool, u: Setup, o: Outside)
    returns (info: Info)
    requires TableOk(s.table) && (keys != [] ==> |keys| == |turns|)
    requires st == StateOf(s.table, s.stored, keys, |turns|, legacy, legacyCovered)
    modifies s
    ensures TableOk(s.table)
    ensures InfoOk(info, st, old(s.table), s.table, keys, |turns|, legacyCovered)
  {
    ghost var t := s.table;
    StateChain(t, keys);
    var attempt := CompactIfNeeded(s, turns, keys, prefix, st, u, o);
    info := InfoOf(st, attempt, tripped);
    CallOk(t, s.table, s.stored, keys, turns, legacy, legacyCovered, attempt, tripped, u, s.cs, o);
  }

  method BuildModelMessages(s: Session, msgs: seq<Message>, ids: seq<Id>, legacy: string, legacyCovered: nat, u: Setup, o: Outside)
    returns (out: seq<Out>, info: Info)
    requires TableOk(s.table)
    modifies s
    ensures TableOk(s.table)
    ensures var n, keys := SystemRun(msgs), TurnKeys(msgs, ids);
      var turns := TurnsOf(Projected(msgs, u.gate, u.policy, u.cost, u.tokens)[n..]);
      if turns == [] then out == AsOut(msgs) && s.table == old(s.table)
      else
        var st := StateOf(old(s.table), s.stored, keys, |turns|, legacy, legacyCovered);
        && InfoOk(info, st, old(s.table), s.table, keys, |turns|, legacyCovered)
        && out == View(msgs[..n], info.summary, turns[info.keepFrom..])
        && (Anchors(st, legacyCovered) && info.compacted && Increasing(ids) ==> BeginsWith(Reload(s.table, keys), info.chain))
  {
    var prefix, body := SplitSystemPrefix(msgs);
    var turns := GroupTurns(body);
    if Increasing(ids) { TurnKeysIncrease(msgs, ids); }
    if turns == [] {
      ProjectionKeepsTurns(msgs, ids, u.gate, u.policy, u.cost, u.tokens);
      return AsOut(msgs), Info(0, [], NoSummary, false, false);
    }
    var keys := TurnKeysOf(msgs, ids);
    if |ids| == |msgs| { OneKeyPerTurn(msgs, ids); }
    var tripped := BreakerTripped(s.failures, s.cs);
    var st := ResolveState(s.table.rows, s.stored, keys, |turns|, legacy, legacyCovered);
    prefix, turns := ProjectTurns(msgs, prefix, turns, u);
    info := DecideView(s, keys, prefix, turns, st, legacy, legacyCovered, tripped, u, o);
    out := Assemble(prefix, info.summary, turns, info.keepFrom);
  }

  /** Summarised turns and kept turns together are the whole conversation after the system prefix, once and in order. */
  lemma KeptAndCutPartition(body: seq<Message>, k: nat)
    requires k <= |TurnsOf(body)|
    ensures Flatten(TurnsOf(body)[..k]) + Flatten(TurnsOf(body)[k..]) == body[ReplyRun(body)..]
  {
    TurnsPartition(body);
    FlattenSplit(TurnsOf(body), k);
  }

  lemma {:induction false} FlattenSplit(turns: seq<seq<Message>>, k: nat)
    requires k <= |turns|
    ensures Flatten(turns) == Flatten(turns[..k]) + Flatten(turns[k..])
    decreases k
  {
    if k > 0 {
      FlattenSplit(turns, k - 1);
      TakeOneMore(turns, k - 1);
      FlattenAppend(turns[..k - 1], turns[k - 1]);
      assert turns[k - 1..][1..] == turns[k..];
    } else {
      assert turns[0..] == turns;
    }
  }

  /** A stored segment can end with the very turn that is being answered again: then no turn is kept word for word. */
  lemma LastTurnCanBeCovered(key: Id, summary: string, tokens: nat)
    requires Strip(summary) == summary != ""
    ensures var t := Table([Segment(1, key, key, 0, 1, 0, [], summary, tokens)], 2);
      TableOk(t) && StateOf(t, true, [key], 1, "", 0).keepFrom == 1
  {
    var s := Segment(1, key, key, 0, 1, 0, [], summary, tokens);
    assert Loaded([s]) == [s];
    assert [s][..0] == [] && Pick([s], [key], 0) == Some(s);
    assert ChainFrom([s], [key], 0) == [s];
  }
}
