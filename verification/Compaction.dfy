/**
 * Compaction of one session's history: where to cut, whether to merge, what is stored, and the message
 * list sent to the model. The session object holds the segment table and the consecutive-failure count.
 */
module Compaction {
  import opened Common
  import opened Text
  import opened Turns
  import opened Segments
  import opened SegmentTable
  import opened Persistence
  import opened Budget
  import MicroCompact

  datatype CompactSettings = CompactSettings(maxFailures: int, maxSegments: int, segmentsTokenBudget: int)

  // ---------------------------------------------------------------- the summary block

  datatype Part = Part(fromTurn: int, lastTurn: int, text: string)

  datatype Summary = NoSummary | Plain(text: string) | Blocks(parts: seq<Part>)

  function Texts(chain: seq<Segment>): seq<string> {
    if chain == [] then []
    else
      var text := Strip(chain[|chain| - 1].summary);
      Texts(chain[..|chain| - 1]) + if text != "" then [text] else []
  }

  function Labelled(chain: seq<Segment>, texts: seq<string>): (r: seq<Part>) {
    if chain == [] || texts == [] then []
    else
      [Part(chain[0].fromIndex, Max(0, chain[0].toIndex - 1), texts[0])] + Labelled(chain[1..], texts[1..])
  }

  /** Blank summaries are dropped before the labels are paired up with the rest. */
  function Render(chain: seq<Segment>, legacy: string): Summary {
    var own := Texts(chain);
    var texts := if own == [] && legacy != "" then [Strip(legacy)] else own;
    if texts == [] then NoSummary
    else if |texts| == 1 && chain == [] then if texts[0] == "" then NoSummary else Plain(texts[0])
    else Blocks(Labelled(chain, texts))
  }

  ghost predicate NoneBlank(chain: seq<Segment>) {
    forall i :: 0 <= i < |chain| ==> Strip(chain[i].summary) != ""
  }

  lemma {:induction false} TextsOfNonBlank(chain: seq<Segment>)
    requires NoneBlank(chain)
    ensures |Texts(chain)| == |chain|
    ensures forall i :: 0 <= i < |chain| ==> Texts(chain)[i] == Strip(chain[i].summary)
  {
    if chain != [] {
      var init, last := chain[..|chain| - 1], chain[|chain| - 1];
      TextsOfNonBlank(init);
      assert Strip(last.summary) != "" && Texts(chain) == Texts(init) + [Strip(last.summary)];
    }
  }

  lemma {:induction false} LabelsInOrder(chain: seq<Segment>, texts: seq<string>)
    requires |chain| == |texts|
    ensures |Labelled(chain, texts)| == |chain|
    ensures forall i :: 0 <= i < |chain| ==>
      Labelled(chain, texts)[i] == Part(chain[i].fromIndex, Max(0, chain[i].toIndex - 1), texts[i])
    decreases |chain|
  {
    if chain != [] { LabelsInOrder(chain[1..], texts[1..]); }
  }

  ghost predicate NextPart(parts: seq<Part>, i: nat)
    requires 0 < i < |parts|
  {
    parts[i].fromTurn == parts[i - 1].lastTurn + 1
  }

  /** The block names turns 0 up to `upTo`, each exactly once and in order. */
  ghost predicate CoversExactly(s: Summary, upTo: int) {
    if s.Blocks? then
      && s.parts != []
      && s.parts[0].fromTurn == 0
      && (forall i :: 0 <= i < |s.parts| ==> s.parts[i].fromTurn <= s.parts[i].lastTurn && s.parts[i].text != "")
      && (forall i {:trigger NextPart(s.parts, i)} :: 0 < i < |s.parts| ==> NextPart(s.parts, i))
      && s.parts[|s.parts| - 1].lastTurn == upTo - 1
    else s.NoSummary? && upTo == 0
  }

  lemma PartsCover(chain: seq<Segment>, keys: seq<Id>, parts: seq<Part>)
    requires chain != [] && Tiles(chain, keys, 0) && |parts| == |chain|
    requires forall i :: 0 <= i < |chain| ==> parts[i].fromTurn == chain[i].fromIndex
    requires forall i :: 0 <= i < |chain| ==> parts[i].lastTurn == Max(0, chain[i].toIndex - 1) && parts[i].text != ""
    ensures CoversExactly(Blocks(parts), Covered(chain))
  {
    forall i | 0 <= i < |parts|
      ensures parts[i].fromTurn == chain[i].fromIndex && parts[i].lastTurn == chain[i].toIndex - 1 >= chain[i].fromIndex {
      assert IsValidForPath(chain[i], keys);
    }
    forall i | 0 < i < |parts| ensures NextPart(parts, i) {
      assert StartsWhereLastEnds(chain, i);
    }
  }

  lemma RenderCovers(chain: seq<Segment>, keys: seq<Id>)
    requires Tiles(chain, keys, 0) && NoneBlank(chain)
    ensures CoversExactly(Render(chain, ""), Covered(chain))
  {
    TextsOfNonBlank(chain);
    LabelsInOrder(chain, Texts(chain));
    if chain != [] {
      PartsCover(chain, keys, Labelled(chain, Texts(chain)));
    }
  }

  // ---------------------------------------------------------------- deciding

  predicate BreakerTripped(failures: nat, cs: CompactSettings) {
    failures >= Max(1, cs.maxFailures)
  }

  function ShouldMerge(chain: seq<Segment>, cs: CompactSettings): bool {
    chain != [] && (|chain| + 1 > Max(2, cs.maxSegments) || ChainTokens(chain) > Max(512, cs.segmentsTokenBudget))
  }

  method ShouldMergeChain(chain: seq<Segment>, cs: CompactSettings) returns (merge: bool)
    ensures merge == ShouldMerge(chain, cs)
  {
    if chain == [] {
      return false;
    }
    if |chain| + 1 > Max(2, cs.maxSegments) {
      return true;
    }
    var tokens := CountTokens(chain);
    return tokens > Max(512, cs.segmentsTokenBudget);
  }

  /**
   * Merging when asked to keeps every chain short: a stored chain never outgrows the limit, nor the texts their
   * budget by more than one summary.
   */
  lemma ChainStaysShort(t: Table, chain: seq<Segment>, s: Segment, legacy: string, cs: CompactSettings)
    requires s.mergedFrom == if MergesInto(chain, legacy, cs) then SegIds(chain) else []
    ensures var r := Returned(t, chain, s, MergesInto(chain, legacy, cs));
      && |r| <= Max(2, cs.maxSegments)
      && ChainTokens(r) <= Max(512, cs.segmentsTokenBudget) + s.tokens
      && (|r| <= |chain| ==> |r| == 1)
  {
    var merge := MergesInto(chain, legacy, cs);
    var r := Returned(t, chain, s, merge);
    var inMemory := s.(rowId := StoredAs(t, s).rowId);
    if merge && chain != [] {
      assert r == [inMemory] && r[..0] == [];
      assert ChainTokens(r) == s.tokens;
    } else {
      assert r == chain + [inMemory] && r[..|chain|] == chain;
    }
  }

  datatype State = State(chain: seq<Segment>, legacy: string, keepFrom: nat)

  /** The chain stored for the path if it covers anything, else the older single summary. */
  method ResolveState(rows: seq<Segment>, stored: bool, keys: seq<Id>, turnCount: nat, legacy: string, legacyCovered: nat)
    returns (st: State)
    ensures var chain := if stored && keys != [] then ChainFrom(Loaded(rows), keys, 0) else [];
      st == if Covered(chain) > 0 then State(chain, "", Min(Covered(chain), turnCount))
            else State([], legacy, Min(legacyCovered, turnCount))
  {
    if stored && keys != [] {
      var chain := ChainForPath(Loaded(rows), keys);
      var covered := Covered(chain);
      if covered > 0 {
        return State(chain, "", Min(covered, turnCount));
      }
    }
    return State([], legacy, Min(legacyCovered, turnCount));
  }

  datatype Reason = NoTurnsToDrop | NoApiKey | Tripped | SummarizerFailed | PersistFailed | Compacted

  datatype Attempt = Attempt(reason: Reason, keepFrom: nat, chain: seq<Segment>, summary: Summary, degraded: bool)

  /** What is not under our control: the model call and whether each write goes through. */
  datatype Outside = Outside(hasKey: bool, summary: Option<string>, writeFails: bool, deleteFails: bool, metadataFails: bool)

  predicate Summarized(o: Outside) {
    o.summary.Some? && o.summary.value != ""
  }

  predicate MergesInto(chain: seq<Segment>, legacy: string, cs: CompactSettings) {
    ShouldMerge(chain, cs) || (chain == [] && Strip(legacy) != "")
  }

  method DecideMerge(chain: seq<Segment>, legacy: string, cs: CompactSettings) returns (merge: bool)
    ensures merge == MergesInto(chain, legacy, cs)
  {
    merge := ShouldMergeChain(chain, cs);
    merge := merge || (chain == [] && Strip(legacy) != "");
  }

  /** Parameters of one request. */
  datatype Request = Request(keepTokens: int, factor: real, auto: bool, instructions: string)

  /** Failure count after a request: failures add up, success clears, nothing else counts. */
  function CountAfter(before: nat, reason: Reason): nat {
    match reason
    case SummarizerFailed => before + 1
    case Compacted => 0
    case _ => before
  }

  /** Either nothing can be cut, or the kept window starts where the budget says. */
  ghost predicate Cut(res: Attempt, turns: seq<seq<Message>>, keepFrom: nat, r: Request, cost: Message -> nat) {
    if res.reason == NoTurnsToDrop then
      res.keepFrom == keepFrom && exists k: nat :: k <= keepFrom && IsWindowStart(turns, Max(256, r.keepTokens), cost, r.factor, k)
    else
      keepFrom < res.keepFrom && IsWindowStart(turns, Max(256, r.keepTokens), cost, r.factor, res.keepFrom)
  }

  /** Which outcome each guard leads to. The model is called only past all of them. */
  ghost predicate Admitted(reason: Reason, r: Request, seen: nat, cs: CompactSettings, o: Outside) {
    var blocked := r.auto && BreakerTripped(seen, cs) && r.instructions == "";
    match reason
    case NoTurnsToDrop => true
    case NoApiKey => !o.hasKey
    case Tripped => o.hasKey && blocked
    case SummarizerFailed => o.hasKey && !blocked && !Summarized(o)
    case _ => o.hasKey && !blocked && Summarized(o)
  }

  /** A success stores one segment and hands back the chain that holds it; anything else changes nothing. */
  ghost predicate Effect(res: Attempt, t: Table, t': Table, keys: seq<Id>, chain: seq<Segment>, legacy: string,
                         keepFrom: nat, cs: CompactSettings, tokens: string -> nat, o: Outside) {
    && res.degraded == (res.reason !in {NoTurnsToDrop, Compacted})
    && if res.reason == Compacted then
      && Summarized(o) && Strip(o.summary.value) != "" && keepFrom < res.keepFrom <= |keys|
      && Persisted(t, t', chain, res.chain, keys, keepFrom, res.keepFrom, o.summary.value, tokens(o.summary.value),
                   MergesInto(chain, legacy, cs), o.deleteFails)
      && res.summary == Render(res.chain, "")
    else
      t' == t && res.chain == chain && res.summary == Render(chain, legacy)
  }

  class Session {
    const cs: CompactSettings
    const stored: bool
    var table: Table
    var failures: nat

    constructor (cs: CompactSettings, stored: bool)
      ensures this.cs == cs && this.stored == stored && failures == 0
      ensures TableOk(table) && table.rows == []
    {
      this.cs, this.stored := cs, stored;
      table, failures := Table([], 1), 0;
    }

    method UpsertSegment(s: Segment, fails: bool) returns (ok: bool)
      requires TableOk(table)
      modifies this`table
      ensures TableOk(table)
      ensures ok <==> Strip(s.summary) != "" && s.fromIndex < s.toIndex && !fails
      ensures table == if ok then Upsert(old(table), s.(summary := Strip(s.summary))) else old(table)
    {
      var text := Strip(s.summary);
      if text == "" || s.toIndex <= s.fromIndex || fails {
        return false;
      }
      StripIdempotent(s.summary);
      UpsertSpec(table, s.(summary := text));
      table := Upsert(table, s.(summary := text));
      return true;
    }

    method DeleteSegments(ids: seq<SegId>, fails: bool)
      requires TableOk(table)
      modifies this`table
      ensures TableOk(table)
      ensures table == if fails then old(table) else old(table).(rows := Without(old(table).rows, ids))
    {
      if ids == [] || fails {
        WithoutNothing(table.rows);
        return;
      }
      WithoutKeeps(table.rows, ids, table.nextId);
      table := table.(rows := Without(table.rows, ids));
    }

    /** Writes the new segment and, after a merge, removes those it replaces. */
    method PersistSegment(chain: seq<Segment>, keys: seq<Id>, keepFrom: nat, newKeep: nat, summary: string,
                          tokens: nat, merge: bool, writeFails: bool, deleteFails: bool)
      returns (chain': seq<Segment>, ok: bool)
      requires TableOk(table) && 0 < newKeep <= |keys|
      modifies this`table
      ensures TableOk(table)
      ensures ok <==> stored && (merge || keepFrom < newKeep) && Strip(summary) != "" && !writeFails
      ensures !ok ==> chain' == chain && table == old(table)
      ensures ok ==> Persisted(old(table), table, chain, chain', keys, keepFrom, newKeep, summary, tokens, merge, deleteFails)
    {
      if !stored || (!merge && newKeep <= keepFrom) {
        return chain, false;
      }
      var s := NewSegment(chain, keys, keepFrom, newKeep, summary, tokens, merge);
      var inMemory := s.(rowId := StoredAs(table, s).rowId);
      var written := UpsertSegment(s, writeFails);
      if !written {
        return chain, false;
      }
      if merge && s.mergedFrom != [] {
        DeleteSegments(s.mergedFrom, deleteFails);
        return [inMemory], true;
      }
      return chain + [inMemory], true;
    }

    /** The part of a request after the guards: call the model, store the result, count the outcome. */
    method SummariseAndStore(keys: seq<Id>, chain: seq<Segment>, legacy: string, keepFrom: nat, newKeep: nat,
                             tokens: string -> nat, o: Outside)
      returns (res: Attempt)
      requires TableOk(table) && keepFrom < newKeep <= |keys|
      modifies this
      ensures TableOk(table)
      ensures res.reason in {SummarizerFailed, PersistFailed, Compacted} && res.keepFrom == newKeep
      ensures res.degraded == (res.reason != Compacted)
      ensures res.reason == SummarizerFailed <==> !Summarized(o)
      ensures failures == if o.metadataFails then old(failures) else CountAfter(old(failures), res.reason)
      ensures Effect(res, old(table), table, keys, chain, legacy, keepFrom, cs, tokens, o)
    {
      var merge := DecideMerge(chain, legacy, cs);
      if !Summarized(o) {
        if !o.metadataFails {
          failures := failures + 1;
        }
        return Attempt(SummarizerFailed, newKeep, chain, Render(chain, legacy), true);
      }
      var text := o.summary.value;
      var newChain, ok := PersistSegment(chain, keys, keepFrom, newKeep, text, tokens(text), merge, o.writeFails, o.deleteFails);
      if !ok {
        return Attempt(PersistFailed, newKeep, chain, Render(chain, legacy), true);
      }
      if !o.metadataFails {
        failures := 0;
      }
      return Attempt(Compacted, newKeep, newChain, Render(newChain, ""), false);
    }

    /** Cut, summarise, store; a request that cannot do all of it cuts anyway and says so. */
    method AttemptCompaction(turns: seq<seq<Message>>, keys: seq<Id>, chain: seq<Segment>, legacy: string, keepFrom: nat,
                             r: Request, cost: Message -> nat, tokens: string -> nat, seen: nat, o: Outside)
      returns (res: Attempt)
      requires TableOk(table) && |keys| == |turns| && keepFrom <= |turns|
      modifies this
      ensures TableOk(table)
      ensures Cut(res, turns, keepFrom, r, cost)
      ensures Admitted(res.reason, r, seen, cs, o)
      ensures failures == if o.metadataFails then old(failures) else CountAfter(old(failures), res.reason)
      ensures Effect(res, old(table), table, keys, chain, legacy, keepFrom, cs, tokens, o)
    {
      var newKeep := ChooseKeepFrom(turns, r.keepTokens, cost, r.factor);
      res := Attempt(NoTurnsToDrop, keepFrom, chain, Render(chain, legacy), false);
      if newKeep <= keepFrom {
        return;
      }
      if !o.hasKey {
        return res.(keepFrom := newKeep, degraded := true, reason := NoApiKey);
      }
      if r.auto && BreakerTripped(seen, cs) && r.instructions == "" {
        return res.(keepFrom := newKeep, degraded := true, reason := Tripped);
      }
      res := SummariseAndStore(keys, chain, legacy, keepFrom, newKeep, tokens, o);
    }
  }

  lemma {:induction false} WithoutNothing(rows: seq<Segment>)
    ensures Without(rows, []) == rows
  {
    if rows != [] { WithoutNothing(rows[..|rows| - 1]); }
  }

  // ---------------------------------------------------------------- bounded failing calls

  /** One automatic request: count before, outcome, whether the outcome was recorded, count after. */
  datatype Round = Round(before: nat, reason: Reason, recorded: bool, after: nat)

  predicate Calls(reason: Reason) {
    reason in {SummarizerFailed, PersistFailed, Compacted}
  }

  predicate IsAutoRound(r: Round, cs: CompactSettings) {
    && r.after == (if r.recorded then CountAfter(r.before, r.reason) else r.before)
    && (Calls(r.reason) ==> !BreakerTripped(r.before, cs))
  }

  ghost predicate SeesLastCount(rounds: seq<Round>, i: nat)
    requires 0 < i < |rounds|
  {
    rounds[i].before == rounds[i - 1].after
  }

  /** No other request writes the count in between. */
  ghost predicate IsSerial(rounds: seq<Round>, cs: CompactSettings) {
    && (forall i :: 0 <= i < |rounds| ==> IsAutoRound(rounds[i], cs))
    && (forall i {:trigger SeesLastCount(rounds, i)} :: 0 < i < |rounds| ==> SeesLastCount(rounds, i))
  }

  function FailedCalls(rounds: seq<Round>): nat {
    if rounds == [] then 0
    else FailedCalls(rounds[..|rounds| - 1]) + if rounds[|rounds| - 1].reason == SummarizerFailed then 1 else 0
  }

  /** Failed calls whose count could not be written; the code goes on without it. */
  function UnrecordedFailures(rounds: seq<Round>): nat {
    if rounds == [] then 0
    else
      var last := rounds[|rounds| - 1];
      UnrecordedFailures(rounds[..|rounds| - 1]) + if last.reason == SummarizerFailed && !last.recorded then 1 else 0
  }

  ghost predicate NoSuccess(rounds: seq<Round>) {
    forall i :: 0 <= i < |rounds| ==> rounds[i].reason != Compacted
  }

  lemma DropLastRound(rounds: seq<Round>, cs: CompactSettings)
    requires IsSerial(rounds, cs) && |rounds| > 1
    ensures IsSerial(rounds[..|rounds| - 1], cs) && rounds[|rounds| - 1].before == rounds[|rounds| - 2].after
  {
    var init := rounds[..|rounds| - 1];
    assert SeesLastCount(rounds, |rounds| - 1);
    forall i | 0 < i < |init| ensures SeesLastCount(init, i) {
      assert SeesLastCount(rounds, i);
    }
  }

  lemma AddRound(rounds: seq<Round>, r: Round, cs: CompactSettings)
    requires IsSerial(rounds, cs) && IsAutoRound(r, cs) && (rounds != [] ==> r.before == rounds[|rounds| - 1].after)
    ensures IsSerial(rounds + [r], cs)
  {
    var more := rounds + [r];
    forall i | 0 < i < |more| ensures SeesLastCount(more, i) {
      if i < |rounds| { assert SeesLastCount(rounds, i); }
    }
  }

  /** Without a success the count is the number of recorded failures, and none of those takes it past the limit. */
  lemma {:induction false} FailuresCounted(rounds: seq<Round>, cs: CompactSettings)
    requires IsSerial(rounds, cs) && rounds != [] && NoSuccess(rounds)
    ensures UnrecordedFailures(rounds) <= FailedCalls(rounds)
    ensures rounds[|rounds| - 1].after == rounds[0].before + FailedCalls(rounds) - UnrecordedFailures(rounds)
    ensures FailedCalls(rounds) > UnrecordedFailures(rounds) ==> rounds[|rounds| - 1].after <= Max(1, cs.maxFailures)
  {
    if |rounds| > 1 {
      DropLastRound(rounds, cs);
      FailuresCounted(rounds[..|rounds| - 1], cs);
    }
  }

  /** Until the next success, failing calls are at most the limit plus those that could not be recorded. */
  lemma FailuresBounded(rounds: seq<Round>, cs: CompactSettings)
    requires IsSerial(rounds, cs) && NoSuccess(rounds)
    ensures FailedCalls(rounds) <= Max(1, cs.maxFailures) + UnrecordedFailures(rounds)
    ensures (forall i :: 0 <= i < |rounds| ==> rounds[i].recorded) ==> FailedCalls(rounds) <= Max(1, cs.maxFailures)
  {
    if rounds != [] { FailuresCounted(rounds, cs); }
    if forall i :: 0 <= i < |rounds| ==> rounds[i].recorded { AllRecorded(rounds); }
  }

  lemma {:induction false} AllRecorded(rounds: seq<Round>)
    requires forall i :: 0 <= i < |rounds| ==> rounds[i].recorded
    ensures UnrecordedFailures(rounds) == 0
  {
    if rounds != [] { AllRecorded(rounds[..|rounds| - 1]); }
  }

  /** If no write of the count goes through, any number of failing calls is possible. */
  lemma {:induction false} UnrecordedFailuresUnbounded(n: nat, cs: CompactSettings) returns (rounds: seq<Round>)
    ensures IsSerial(rounds, cs) && NoSuccess(rounds) && |rounds| == n
    ensures FailedCalls(rounds) == n
    ensures forall i :: 0 <= i < n ==> rounds[i] == Round(0, SummarizerFailed, false, 0)
    decreases n
  {
    rounds := [];
    if n > 0 {
      var init := UnrecordedFailuresUnbounded(n - 1, cs);
      rounds := init + [Round(0, SummarizerFailed, false, 0)];
      AddRound(init, Round(0, SummarizerFailed, false, 0), cs);
      assert rounds[..n - 1] == init;
    }
  }

  /** What an automatic request guarantees is one such round. */
  lemma AttemptIsRound(r: Request, before: nat, reason: Reason, after: nat, cs: CompactSettings, o: Outside)
    requires r.auto && r.instructions == "" && Admitted(reason, r, before, cs, o)
    requires after == if o.metadataFails then before else CountAfter(before, reason)
    ensures IsAutoRound(Round(before, reason, !o.metadataFails, after), cs)
  {
  }

  /** Arguments of one automatic request; the caller resolves chain and window anew each time. */
  datatype AutoRequest = AutoRequest(
    turns: seq<seq<Message>>, keys: seq<Id>, chain: seq<Segment>, legacy: string, keepFrom: nat,
    keepTokens: int, factor: real, o: Outside)

  method ServeOne(s: Session, q: AutoRequest, cost: Message -> nat, tokens: string -> nat) returns (round: Round)
    requires TableOk(s.table) && |q.keys| == |q.turns| && q.keepFrom <= |q.turns|
    modifies s
    ensures TableOk(s.table) && IsAutoRound(round, s.cs)
    ensures round.before == old(s.failures) && round.after == s.failures && round.recorded == !q.o.metadataFails
  {
    var seen := s.failures;
    var r := Request(q.keepTokens, q.factor, true, "");
    var res := s.AttemptCompaction(q.turns, q.keys, q.chain, q.legacy, q.keepFrom, r, cost, tokens, seen, q.o);
    AttemptIsRound(r, seen, res.reason, s.failures, s.cs, q.o);
    return Round(seen, res.reason, !q.o.metadataFails, s.failures);
  }

  /** Automatic requests served one after another by one session, each reading the count the one before left. */
  method ServeInTurn(s: Session, requests: seq<AutoRequest>, cost: Message -> nat, tokens: string -> nat)
    returns (rounds: seq<Round>)
    requires TableOk(s.table)
    requires forall i :: 0 <= i < |requests| ==>
      |requests[i].keys| == |requests[i].turns| && requests[i].keepFrom <= |requests[i].turns|
    modifies s
    ensures TableOk(s.table) && |rounds| == |requests| && IsSerial(rounds, s.cs)
    ensures rounds != [] ==> rounds[0].before == old(s.failures) && rounds[|rounds| - 1].after == s.failures
    ensures forall i :: 0 <= i < |rounds| ==> rounds[i].recorded == !requests[i].o.metadataFails
    ensures NoSuccess(rounds) ==> FailedCalls(rounds) <= Max(1, s.cs.maxFailures) + UnrecordedFailures(rounds)
  {
    rounds := [];
    for i := 0 to |requests|
      invariant TableOk(s.table) && |rounds| == i && IsSerial(rounds, s.cs)
      invariant if rounds == [] then s.failures == old(s.failures)
                else rounds[0].before == old(s.failures) && rounds[|rounds| - 1].after == s.failures
      invariant forall j :: 0 <= j < |rounds| ==> rounds[j].recorded == !requests[j].o.metadataFails
    {
      var round := ServeOne(s, requests[i], cost, tokens);
      AddRound(rounds, round, s.cs);
      rounds := rounds + [round];
    }
    if NoSuccess(rounds) { FailuresBounded(rounds, s.cs); }
  }
}
