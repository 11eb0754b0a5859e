/** When a reader of job events is certain to deliver all of them. */
module ChatJobReaders {
  import opened Common
  import opened Redis
  import opened ChatJob
  import opened ChatJobLimits

  // ---------------------------------------------------------------- jobs that can still emit

  /** A coroutine that writes events of `job`, or is about to start doing so. */
  predicate Writes(th: Thread, job: string) {
    (th.Run? && th.job == job) || (th.CreateLocked? && th.job == job)
  }

  /** The id was never handed out, or there is a coroutine that still writes. */
  ghost predicate MayEmit(s: State, job: string) {
    job !in s.keys.used || exists t :: t in s.threads && Writes(s.threads[t], job)
  }

  lemma SealedAdvance(k: Keys, th: Thread, c: Choice, job: string)
    requires job in k.used && !Writes(th, job)
    ensures var r := Advance(k, th, c);
      job in r.0.used && !Writes(r.1, job) && ListOf(r.0.logs, job) == ListOf(k.logs, job)
  {
  }

  lemma SealedStep(s: State, s': State, job: string)
    requires Step(s, s') && !MayEmit(s, job)
    ensures !MayEmit(s', job) && ListOf(s'.keys.logs, job) == ListOf(s.keys.logs, job)
  {
    if t, c :| Moves(s, t, c, s') {
      SealedAdvance(s.keys, s.threads[t], c, job);
    }
  }

  /** When no coroutine writes any more, the event list of a job never changes again. */
  lemma {:induction false} SealedForever(ss: seq<State>, keep: set<nat>, n: nat, job: string)
    requires IsTrace(ss, keep) && n < |ss| && !MayEmit(ss[0], job)
    ensures !MayEmit(ss[n], job) && ListOf(ss[n].keys.logs, job) == ListOf(ss[0].keys.logs, job)
  {
    if n > 0 {
      SealedForever(ss, keep, n - 1, job);
      assert StepAt(ss, n);
      SealedStep(ss[n - 1], ss[n], job);
    }
  }

  // ---------------------------------------------------------------- readers of such jobs

  /** The reader of `job` from `from` on; once past its list reads it has reached index `len`. */
  ghost predicate CaughtUp(th: Thread, job: string, from: nat, len: nat) {
    && IsRead(th) && th.job == job && th.from == from
    && (th.ReadEvents? || th.next >= len)
  }

  lemma CaughtUpStep(s: State, s': State, t: nat, job: string, from: nat, len: nat)
    requires Step(s, s') && t in s.threads && t in s'.threads
    requires CaughtUp(s.threads[t], job, from, len) && |ListOf(s.keys.logs, job)| == len
    ensures CaughtUp(s'.threads[t], job, from, len)
  {
  }

  lemma {:induction false} StaysCaughtUp(ss: seq<State>, t: nat, n: nat, job: string, from: nat)
    requires IsTrace(ss, {t}) && n < |ss| && !MayEmit(ss[0], job) && t in ss[0].threads && t in ss[n].threads
    requires ss[0].threads[t].ReadEvents? && ss[0].threads[t].job == job && ss[0].threads[t].from == from
    ensures CaughtUp(ss[n].threads[t], job, from, |ListOf(ss[0].keys.logs, job)|)
  {
    if n > 0 {
      StaysCaughtUp(ss, t, n - 1, job, from);
      SealedForever(ss, {t}, n - 1, job);
      assert StepAt(ss, n);
      CaughtUpStep(ss[n - 1], ss[n], t, job, from, |ListOf(ss[0].keys.logs, job)|);
    }
  }

  /** All events of the job from where the reader started. */
  ghost predicate Delivered(s: State, th: Thread)
    requires IsRead(th)
  {
    var log := ListOf(s.keys.logs, th.job);
    th.seen == log[Min(th.from, |log|)..]
  }

  lemma DeliveredIffReachedEnd(s: State, th: Thread)
    requires IsRead(th) && SliceOk(ListOf(s.keys.logs, th.job), th.from, th.next, th.seen)
    ensures Delivered(s, th) <==> th.next >= |ListOf(s.keys.logs, th.job)|
  {
    var log := ListOf(s.keys.logs, th.job);
    assert |log[Min(th.from, |log|)..]| == |log| - Min(th.from, |log|);
    if th.seen != [] { assert |th.seen| == th.next - th.from; }
  }

  lemma EndedDelivered(s: State, t: nat)
    requires Inv(s) && t in s.threads && s.threads[t].Ended?
    ensures var th := s.threads[t]; Delivered(s, th) <==> th.next >= |ListOf(s.keys.logs, th.job)|
  {
    assert ThreadOk(s.keys, s.threads[t]);
    DeliveredIffReachedEnd(s, s.threads[t]);
  }

  /** In every continuation in which this reader is not cut off and ends, it has delivered everything. */
  ghost predicate AlwaysDelivers(s: State, t: nat) {
    forall s' :: Leads(s, s', {t}) && t in s'.threads && s'.threads[t].Ended? ==> Delivered(s', s'.threads[t])
  }

  lemma SealedDelivers(s: State, t: nat, s': State)
    requires Inv(s) && t in s.threads && s.threads[t].ReadEvents? && !MayEmit(s, s.threads[t].job)
    requires Leads(s, s', {t}) && t in s'.threads && s'.threads[t].Ended?
    ensures Delivered(s', s'.threads[t])
  {
    var th := s.threads[t];
    var ss :| IsTrace(ss, {t}) && ss[0] == s && ss[|ss| - 1] == s';
    StaysCaughtUp(ss, t, |ss| - 1, th.job, th.from);
    SealedForever(ss, {t}, |ss| - 1, th.job);
    LeadsKeeps(s, s', {t});
    EndedDelivered(s', t);
  }

  // ---------------------------------------------------------------- how a reader misses events

  /** Left to itself, a reader comes to its next look at the status. */
  lemma {:induction false} ReachStatus(o: State, s: State, t: nat) returns (s': State)
    requires Leads(o, s, {t}) && t in s.threads && s.threads[t].ReadEvents?
    ensures Leads(o, s', {t}) && s'.keys == s.keys && s'.threads.Keys == s.threads.Keys && t in s'.threads
    ensures forall u :: u in s.threads && u != t ==> s'.threads[u] == s.threads[u]
    ensures s'.threads[t].ReadStatus? && s'.threads[t].job == s.threads[t].job
    decreases |ListOf(s.keys.logs, s.threads[t].job)| - s.threads[t].next
  {
    var s1 := ReachMove(o, {t}, s, t, Interrupt);
    if s1.threads[t].ReadStatus? {
      s' := s1;
    } else {
      s' := ReachStatus(o, s1, t);
    }
  }

  lemma FreshThread(used: set<nat>) returns (t: nat)
    ensures t !in used
  {
    var m := LargestOf(used);
    t := m + 1;
  }

  lemma LargestOf(s: set<nat>) returns (m: nat)
    ensures forall x :: x in s ==> x <= m
    decreases |s|
  {
    m := 0;
    if s != {} {
      var x :| x in s;
      var rest := LargestOf(s - {x});
      m := Max(x, rest);
      forall y | y in s ensures y <= m {
        if y != x { assert y in s - {x}; }
      }
    }
  }

  lemma FreshSession(used: set<string>) returns (session: string)
    ensures session !in used
  {
    var n := LongestOf(used);
    session := seq(n + 1, _ => 'a');
    assert |session| == n + 1;
  }

  lemma LongestOf(s: set<string>) returns (n: nat)
    ensures forall x :: x in s ==> |x| <= n
    decreases |s|
  {
    n := 0;
    if s != {} {
      var x :| x in s;
      var rest := LongestOf(s - {x});
      n := Max(|x|, rest);
      forall y | y in s ensures |y| <= n {
        if y != x { assert y in s - {x}; }
      }
    }
  }

  /** A job that may emit gets a running coroutine. */
  lemma ReachWriter(o: State, s: State, t: nat, job: string) returns (s': State, u: nat)
    requires Leads(o, s, {t}) && t in s.threads && !Writes(s.threads[t], job) && MayEmit(s, job)
    ensures Leads(o, s', {t}) && t in s'.threads && s'.threads[t] == s.threads[t]
    ensures u in s'.threads && u != t && s'.threads[u].Run? && s'.threads[u].job == job
  {
    if job !in s.keys.used {
      u := FreshThread(s.threads.Keys);
      var session := FreshSession(s.keys.active.Keys);
      s' := ReachNewJob(o, {t}, s, u, session, job);
    } else {
      u :| u in s.threads && Writes(s.threads[u], job);
      if s.threads[u].Run? {
        s' := s;
      } else {
        s' := ReachMove(o, {t}, s, u, Interrupt);
      }
    }
  }

  lemma {:induction false} ReachEmits(o: State, s: State, t: nat, u: nat, job: string, len: nat) returns (s': State)
    requires Leads(o, s, {t}) && t in s.threads && u in s.threads && u != t && s.threads[u].Run? && s.threads[u].job == job
    ensures Leads(o, s', {t}) && t in s'.threads && s'.threads[t] == s.threads[t]
    ensures u in s'.threads && s'.threads[u].Run? && s'.threads[u].job == job
    ensures |ListOf(s'.keys.logs, job)| >= len
    decreases len - |ListOf(s.keys.logs, job)|
  {
    if |ListOf(s.keys.logs, job)| >= len {
      s' := s;
    } else {
      var s1 := ReachEmit(o, {t}, s, u, job, s.threads[u].session, s.threads[u].num, "");
      s' := ReachEmits(o, s1, t, u, job, len);
    }
  }

  /** While a job may still emit, a reader can read the list, miss what is written then, and end. */
  lemma ReachMiss(s: State, t: nat) returns (s': State)
    requires Inv(s) && t in s.threads && s.threads[t].ReadEvents? && MayEmit(s, s.threads[t].job)
    ensures Leads(s, s', {t}) && t in s'.threads && s'.threads[t].Ended? && !Delivered(s', s'.threads[t])
  {
    var job := s.threads[t].job;
    LeadsNowhere(s, {t});
    var s1 := ReachStatus(s, s, t);
    var th := s1.threads[t];
    assert MayEmit(s1, job) by {
      if u :| u in s.threads && Writes(s.threads[u], job) { assert Writes(s1.threads[u], job); }
    }
    var s2, u := ReachWriter(s, s1, t, job);
    var s3 := ReachEmits(s, s2, t, u, job, th.next + 1);
    var s4 := ReachOutcome(s, {t}, s3, u, job, s3.threads[u].session, s3.threads[u].num);
    s' := ReachEnd(s, {t}, s4, t, job, th.from, th.next, th.seen);
    LeadsKeeps(s, s', {t});
    EndedDelivered(s', t);
  }

  /**
   * A reader about to read the list delivers every event, whatever happens next, exactly when no coroutine
   * of the job writes any more: it has left its work loop, or is gone, or the job never gets one.
   */
  lemma ReaderCompleteIff(s: State, t: nat)
    requires Inv(s) && t in s.threads && s.threads[t].ReadEvents?
    ensures AlwaysDelivers(s, t) <==> !MayEmit(s, s.threads[t].job)
  {
    if MayEmit(s, s.threads[t].job) {
      var s' := ReachMiss(s, t);
    } else {
      forall s' | Leads(s, s', {t}) && t in s'.threads && s'.threads[t].Ended? ensures Delivered(s', s'.threads[t]) {
        SealedDelivers(s, t, s');
      }
    }
  }
}
