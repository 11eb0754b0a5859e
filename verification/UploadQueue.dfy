/** The upload queue: a depth counter kept beside the broker, with any number of producers and workers. */
module UploadQueue {
  import opened Common
  import opened Redis

  const DEPTH_KEY := "kb_upload_job:kafka_depth"

  // ---------------------------------------------------------------- the two operations, run alone

  /** Reserve a place, then write; give the place back if the write fails. */
  method EnqueueKafka(cache: Server, queueMax: int, produced: bool) returns (ok: bool)
    modifies cache`counters
    ensures var before, after := CounterOf(old(cache.counters), DEPTH_KEY), CounterOf(cache.counters, DEPTH_KEY);
      before >= 0 ==>
      && (ok <==> produced && (queueMax <= 0 || before < queueMax))
      && after == if ok then before + 1 else before
  {
    var reserved := cache.IncrementIfBelow(DEPTH_KEY, queueMax);
    if reserved == 0 {
      return false;
    }
    if produced {
      return true;
    }
    var n := cache.DecrementFloor(DEPTH_KEY);
    return false;
  }

  /** The counter goes down only after the offset has been committed. */
  method AckTask(cache: Server, committed: bool)
    modifies cache`counters
    ensures CounterOf(cache.counters, DEPTH_KEY) ==
      if committed then DecrFloor(CounterOf(old(cache.counters), DEPTH_KEY)) else CounterOf(old(cache.counters), DEPTH_KEY)
  {
    if committed {
      var n := cache.DecrementFloor(DEPTH_KEY);
    }
  }

  // ---------------------------------------------------------------- interleaved, with crashes

  datatype Process =
    | Arriving
    | Reserved
    | Refunding
    | Working(message: nat)
    | Committed
    | Returned

  /** `lost` counts places whose holder crashed, or could not reach the counter, before giving them back. */
  datatype State = State(depth: int, uncommitted: set<nat>, next: nat, processes: map<nat, Process>, lost: nat)

  const INITIAL := State(0, {}, 0, map[], 0)

  datatype Choice = Choice(succeeds: bool, reachable: bool)

  /** Between its change of the queue and its change of the counter, a process owes the counter one step. */
  predicate Owes(p: Process) {
    p.Reserved? || p.Refunding? || p.Committed?
  }

  ghost function Owing(ps: map<nat, Process>): set<nat> {
    set t | t in ps && Owes(ps[t])
  }

  function GiveBack(s: State, t: nat, c: Choice): State {
    var ps := s.processes[t := Returned];
    if c.reachable then s.(depth := DecrFloor(s.depth), processes := ps) else s.(lost := s.lost + 1, processes := ps)
  }

  /** A failed write is assumed to have written nothing, and a message to be committed at most once. */
  function Advance(s: State, t: nat, queueMax: int, c: Choice): State
    requires t in s.processes
  {
    match s.processes[t]
    case Arriving =>
      var r := IncrIfBelow(s.depth, queueMax);
      if !c.reachable || r.1 == 0 then s.(processes := s.processes[t := Returned])
      else s.(depth := r.0, processes := s.processes[t := Reserved])
    case Reserved =>
      if c.succeeds then s.(uncommitted := s.uncommitted + {s.next}, next := s.next + 1, processes := s.processes[t := Returned])
      else s.(processes := s.processes[t := Refunding])
    case Refunding => GiveBack(s, t, c)
    case Working(m) =>
      if c.succeeds && m in s.uncommitted then s.(uncommitted := s.uncommitted - {m}, processes := s.processes[t := Committed])
      else s.(processes := s.processes[t := Returned])
    case Committed => GiveBack(s, t, c)
    case Returned => s
  }

  predicate IsEntry(s: State, p: Process) {
    p.Arriving? || (p.Working? && p.message in s.uncommitted)
  }

  function Crash(s: State, t: nat): State {
    s.(processes := s.processes - {t}, lost := s.lost + if t in s.processes && Owes(s.processes[t]) then 1 else 0)
  }

  ghost predicate Step(s: State, queueMax: int, s': State) {
    || (exists t: nat, p :: t !in s.processes && IsEntry(s, p) && s' == s.(processes := s.processes[t := p]))
    || (exists t, c :: t in s.processes && s' == Advance(s, t, queueMax, c))
    || (exists t: nat :: s' == Crash(s, t))
  }

  ghost predicate StepAt(ss: seq<State>, queueMax: int, n: nat)
    requires 0 < n < |ss|
  {
    Step(ss[n - 1], queueMax, ss[n])
  }

  ghost predicate IsRun(ss: seq<State>, queueMax: int) {
    && ss != [] && ss[0] == INITIAL
    && forall n {:trigger StepAt(ss, queueMax, n)} :: 0 < n < |ss| ==> StepAt(ss, queueMax, n)
  }

  /** The counter is exactly the messages, plus the steps still owed, plus the places lost for good. */
  ghost predicate Inv(s: State, queueMax: int) {
    && s.depth == |s.uncommitted| + |Owing(s.processes)| + s.lost
    && (queueMax > 0 ==> s.depth <= queueMax)
    && forall m :: m in s.uncommitted ==> m < s.next
  }

  lemma OwingRemoved(ps: map<nat, Process>, t: nat)
    ensures |Owing(ps - {t})| == |Owing(ps)| - if t in ps && Owes(ps[t]) then 1 else 0
    ensures t !in Owing(ps - {t})
  {
    assert Owing(ps - {t}) == Owing(ps) - {t};
    assert t in Owing(ps) <==> t in ps && Owes(ps[t]);
  }

  lemma OwingChange(ps: map<nat, Process>, t: nat, p: Process)
    ensures var before := if t in ps && Owes(ps[t]) then 1 else 0;
      |Owing(ps[t := p])| == |Owing(ps)| - before + if Owes(p) then 1 else 0
  {
    var rest := Owing(ps - {t});
    OwingRemoved(ps, t);
    if Owes(p) {
      assert Owing(ps[t := p]) == rest + {t};
    } else {
      assert Owing(ps[t := p]) == rest;
    }
  }

  lemma ArrivingKeeps(s: State, t: nat, queueMax: int, c: Choice)
    requires Inv(s, queueMax) && t in s.processes && s.processes[t].Arriving?
    ensures Inv(Advance(s, t, queueMax, c), queueMax)
  {
    OwingChange(s.processes, t, Advance(s, t, queueMax, c).processes[t]);
  }

  lemma WriteKeeps(s: State, t: nat, queueMax: int, c: Choice)
    requires Inv(s, queueMax) && t in s.processes && s.processes[t].Reserved?
    ensures Inv(Advance(s, t, queueMax, c), queueMax)
  {
    OwingChange(s.processes, t, Advance(s, t, queueMax, c).processes[t]);
    assert s.next !in s.uncommitted;
  }

  lemma CommitKeeps(s: State, t: nat, queueMax: int, c: Choice)
    requires Inv(s, queueMax) && t in s.processes && s.processes[t].Working?
    ensures Inv(Advance(s, t, queueMax, c), queueMax)
  {
    OwingChange(s.processes, t, Advance(s, t, queueMax, c).processes[t]);
  }

  lemma GiveBackKeeps(s: State, t: nat, queueMax: int, c: Choice)
    requires Inv(s, queueMax) && t in s.processes && Owes(s.processes[t])
    ensures Inv(GiveBack(s, t, c), queueMax)
  {
    OwingNotEmpty(s.processes, t);
    OwingChange(s.processes, t, Returned);
  }

  lemma AdvanceKeeps(s: State, t: nat, queueMax: int, c: Choice)
    requires Inv(s, queueMax) && t in s.processes
    ensures Inv(Advance(s, t, queueMax, c), queueMax)
  {
    match s.processes[t] {
      case Arriving => ArrivingKeeps(s, t, queueMax, c);
      case Reserved => WriteKeeps(s, t, queueMax, c);
      case Refunding => GiveBackKeeps(s, t, queueMax, c);
      case Working(_) => CommitKeeps(s, t, queueMax, c);
      case Committed => GiveBackKeeps(s, t, queueMax, c);
      case Returned =>
    }
  }

  lemma OwingNotEmpty(ps: map<nat, Process>, t: nat)
    requires t in ps && Owes(ps[t])
    ensures |Owing(ps)| > 0
  {
    assert t in Owing(ps);
  }

  lemma StepKeeps(s: State, queueMax: int, s': State)
    requires Inv(s, queueMax) && Step(s, queueMax, s')
    ensures Inv(s', queueMax)
  {
    if t, c :| t in s.processes && s' == Advance(s, t, queueMax, c) {
      AdvanceKeeps(s, t, queueMax, c);
    } else if t: nat :| s' == Crash(s, t) {
      OwingRemoved(s.processes, t);
    } else {
      var t: nat, p :| t !in s.processes && IsEntry(s, p) && s' == s.(processes := s.processes[t := p]);
      OwingChange(s.processes, t, p);
    }
  }

  lemma {:induction false} RunKeeps(ss: seq<State>, queueMax: int, n: nat)
    requires IsRun(ss, queueMax) && n < |ss|
    ensures Inv(ss[n], queueMax)
  {
    if n > 0 {
      RunKeeps(ss, queueMax, n - 1);
      assert StepAt(ss, queueMax, n);
      StepKeeps(ss[n - 1], queueMax, ss[n]);
    } else {
      assert Owing(INITIAL.processes) == {};
    }
  }

  /**
   * In every reachable state the messages not yet committed are at most the counter, and the counter is at
   * most the limit. A process about to decrement finds it positive, so the floor is never reached.
   */
  lemma DepthIsSafe(ss: seq<State>, queueMax: int, n: nat)
    requires IsRun(ss, queueMax) && n < |ss|
    ensures |ss[n].uncommitted| <= ss[n].depth
    ensures queueMax > 0 ==> ss[n].depth <= queueMax
    ensures forall t :: t in ss[n].processes && (ss[n].processes[t].Refunding? || ss[n].processes[t].Committed?) ==>
      ss[n].depth > 0 && DecrFloor(ss[n].depth) == ss[n].depth - 1
  {
    RunKeeps(ss, queueMax, n);
    forall t | t in ss[n].processes && (ss[n].processes[t].Refunding? || ss[n].processes[t].Committed?) ensures ss[n].depth > 0 {
      OwingNotEmpty(ss[n].processes, t);
    }
  }

  /** The counter is exact between operations iff no place was lost; each loss shrinks the queue by one for good. */
  lemma CounterExactIff(ss: seq<State>, queueMax: int, n: nat)
    requires IsRun(ss, queueMax) && n < |ss|
    requires forall t :: t in ss[n].processes ==> !Owes(ss[n].processes[t])
    ensures ss[n].depth == |ss[n].uncommitted| <==> ss[n].lost == 0
  {
    RunKeeps(ss, queueMax, n);
    assert Owing(ss[n].processes) == {};
  }
}
