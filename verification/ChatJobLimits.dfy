/** Where the job protocol falls short: torn-down coroutines and readers that stop early, with exact conditions. */
module ChatJobLimits {
  import opened Common
  import opened Redis
  import opened ChatJob

  // ---------------------------------------------------------------- building runs

  /** Consecutive states in which the coroutines of `keep` are there all the time. */
  ghost predicate IsTrace(ss: seq<State>, keep: set<nat>) {
    && ss != []
    && (forall n {:trigger StepAt(ss, n)} :: 0 < n < |ss| ==> StepAt(ss, n))
    && (forall n :: 0 <= n < |ss| ==> keep <= ss[n].threads.Keys)
  }

  ghost predicate Leads(s: State, s': State, keep: set<nat>) {
    exists ss :: IsTrace(ss, keep) && ss[0] == s && ss[|ss| - 1] == s'
  }

  /** Some run ends in `s`. */
  ghost predicate Reachable(s: State) {
    Leads(INITIAL, s, {})
  }

  lemma LeadsNowhere(s: State, keep: set<nat>)
    requires keep <= s.threads.Keys
    ensures Leads(s, s, keep)
  {
    assert IsTrace([s], keep);
  }

  lemma LeadsStep(o: State, s: State, s': State, keep: set<nat>)
    requires Leads(o, s, keep) && Step(s, s') && (keep == {} || s.threads.Keys <= s'.threads.Keys)
    ensures Leads(o, s', keep)
  {
    var ss :| IsTrace(ss, keep) && ss[0] == o && ss[|ss| - 1] == s;
    var longer := ss + [s'];
    forall n | 0 < n < |longer| ensures StepAt(longer, n) {
      if n < |ss| { assert StepAt(ss, n); }
    }
    assert IsTrace(longer, keep);
  }

  lemma {:induction false} TraceKeeps(ss: seq<State>, keep: set<nat>, n: nat)
    requires IsTrace(ss, keep) && Inv(ss[0]) && n < |ss|
    ensures Inv(ss[n])
  {
    if n > 0 {
      TraceKeeps(ss, keep, n - 1);
      assert StepAt(ss, n);
      StepKeeps(ss[n - 1], ss[n]);
    }
  }

  lemma LeadsKeeps(s: State, s': State, keep: set<nat>)
    requires Leads(s, s', keep) && Inv(s)
    ensures Inv(s') && keep <= s'.threads.Keys
  {
    var ss :| IsTrace(ss, keep) && ss[0] == s && ss[|ss| - 1] == s';
    TraceKeeps(ss, keep, |ss| - 1);
  }

  lemma ReachMove(o: State, keep: set<nat>, s: State, t: nat, c: Choice) returns (s': State)
    requires Leads(o, s, keep) && t in s.threads
    ensures Leads(o, s', keep) && Moves(s, t, c, s')
  {
    var r := Advance(s.keys, s.threads[t], c);
    s' := State(r.0, s.threads[t := r.1]);
    assert Moves(s, t, c, s');
    LeadsStep(o, s, s', keep);
  }

  lemma ReachArrival(o: State, keep: set<nat>, s: State, t: nat, th: Thread) returns (s': State)
    requires Leads(o, s, keep) && t !in s.threads && IsEntry(th)
    ensures Leads(o, s', keep) && s' == s.(threads := s.threads[t := th])
  {
    s' := s.(threads := s.threads[t := th]);
    assert Arrives(s, s');
    LeadsStep(o, s, s', keep);
  }

  /** A request on a session whose key is free starts a new job. */
  lemma ReachNewJob(o: State, keep: set<nat>, s: State, t: nat, session: string, id: string) returns (s': State)
    requires Leads(o, s, keep) && t !in s.threads && session !in s.keys.active && id !in s.keys.used
    ensures Leads(o, s', keep)
    ensures s'.keys == SetMeta(Lock(s.keys, session, id), id, Meta(session, Running))
    ensures s'.threads == s.threads[t := Run(id, session, 0)]
  {
    var s1 := ReachArrival(o, keep, s, t, CreateStart(session));
    var s2 := ReachMove(o, keep, s1, t, NewId(id));
    var s3 := ReachMove(o, keep, s2, t, NewId(id));
    s' := ReachMove(o, keep, s3, t, NewId(id));
    assert s'.threads == s.threads[t := Run(id, session, 0)];
  }

  lemma ReachTearDown(o: State, keep: set<nat>, s: State, t: nat, job: string, session: string) returns (s': State)
    requires Leads(o, s, keep) && t in s.threads && s.threads[t].Run? && s.threads[t].job == job && s.threads[t].session == session
    ensures Leads(o, s', keep)
    ensures s'.keys == Release(GiveUp(s.keys, job), session, job) && s'.threads == s.threads[t := Returned]
  {
    var s1 := ReachMove(o, keep, s, t, Interrupt);
    s' := ReachMove(o, keep, s1, t, Interrupt);
    assert s'.threads == s.threads[t := Returned];
  }

  lemma ReachEmit(o: State, keep: set<nat>, s: State, t: nat, job: string, session: string, num: nat, data: string) returns (s': State)
    requires Leads(o, s, keep) && t in s.threads && s.threads[t] == Run(job, session, num)
    ensures Leads(o, s', keep)
    ensures s'.keys == Append(s.keys, job, Event(num, data)) && s'.threads == s.threads[t := Run(job, session, num + 1)]
  {
    s' := ReachMove(o, keep, s, t, Emit(data));
  }

  lemma ReachWriting(o: State, keep: set<nat>, s: State, t: nat, job: string, session: string, num: nat) returns (s': State)
    requires Leads(o, s, keep) && t in s.threads && s.threads[t] == Run(job, session, num)
    ensures Leads(o, s', keep)
    ensures s'.keys == s.keys && s'.threads == s.threads[t := RunWriting(job, session, OutcomeOf(s.keys, job, Completed))]
  {
    var s1 := ReachMove(o, keep, s, t, Finish(Completed));
    assert s1.keys == s.keys && s1.threads[t] == RunFinishing(job, session, Completed);
    s' := ReachMove(o, keep, s1, t, Finish(Completed));
    assert s'.threads == s.threads[t := RunWriting(job, session, OutcomeOf(s.keys, job, Completed))];
  }

  lemma ReachOutcome(o: State, keep: set<nat>, s: State, t: nat, job: string, session: string, num: nat) returns (s': State)
    requires Leads(o, s, keep) && t in s.threads && s.threads[t] == Run(job, session, num)
    ensures Leads(o, s', keep)
    ensures s'.keys == SetMeta(s.keys, job, OutcomeOf(s.keys, job, Completed)) && s'.threads == s.threads[t := RunUnmarking(job, session)]
  {
    var s1 := ReachWriting(o, keep, s, t, job, session, num);
    s' := ReachMove(o, keep, s1, t, Finish(Completed));
    assert s'.threads == s.threads[t := RunUnmarking(job, session)];
  }

  lemma ReachReader(o: State, keep: set<nat>, s: State, t: nat, job: string) returns (s': State)
    requires Leads(o, s, keep) && t !in s.threads && ListOf(s.keys.logs, job) == []
    ensures Leads(o, s', keep) && s'.keys == s.keys && s'.threads == s.threads[t := ReadStatus(job, 0, 0, [])]
  {
    var s1 := ReachArrival(o, keep, s, t, ReadEvents(job, 0, 0, []));
    s' := ReachMove(o, keep, s1, t, Interrupt);
    assert s'.threads == s.threads[t := ReadStatus(job, 0, 0, [])];
  }

  lemma ReachEnd(o: State, keep: set<nat>, s: State, t: nat, job: string, from: nat, next: nat, seen: seq<Event>) returns (s': State)
    requires Leads(o, s, keep) && t in s.threads && s.threads[t] == ReadStatus(job, from, next, seen) && IsFinal(s.keys, job)
    ensures Leads(o, s', keep) && s'.keys == s.keys && t in s'.threads && s'.threads[t] == Ended(job, from, next, seen)
  {
    s' := ReachMove(o, keep, s, t, Interrupt);
  }

  // ---------------------------------------------------------------- a torn-down coroutine

  /** A coroutine torn down by the event loop frees the key of a job that still reads as running. */
  lemma TornDownJobLosesKey() returns (s: State)
    ensures Reachable(s) && IsLive(s.keys, "a") && IsLive(s.keys, "b")
    ensures s.keys.metas["a"].session == s.keys.metas["b"].session
    ensures s.keys.abandoned == {"a"}
  {
    LeadsNowhere(INITIAL, {});
    var s1 := ReachNewJob(INITIAL, {}, INITIAL, 0, "chat", "a");
    var s2 := ReachTearDown(INITIAL, {}, s1, 0, "a", "chat");
    assert "chat" !in s2.keys.active;
    s := ReachNewJob(INITIAL, {}, s2, 1, "chat", "b");
  }

  // ---------------------------------------------------------------- a reader that stops early

  /** A reader that has just found the list of a new job empty. */
  lemma ReaderAtStatus() returns (s: State)
    ensures Leads(INITIAL, s, {}) && 0 in s.threads && s.threads[0] == Run("a", "chat", 0)
    ensures 1 in s.threads && s.threads[1] == ReadStatus("a", 0, 0, [])
    ensures ListOf(s.keys.logs, "a") == []
  {
    LeadsNowhere(INITIAL, {});
    var s1 := ReachNewJob(INITIAL, {}, INITIAL, 0, "chat", "a");
    s := ReachReader(INITIAL, {}, s1, 1, "a");
  }

  /** Status and list are read separately, so a final event written in between is not delivered. */
  lemma ReaderMissesFinalEvent() returns (s: State)
    ensures Reachable(s) && 1 in s.threads && s.threads[1] == Ended("a", 0, 0, [])
    ensures ListOf(s.keys.logs, "a") == [Event(0, "done")]
  {
    var s2 := ReaderAtStatus();
    var s3 := ReachEmit(INITIAL, {}, s2, 0, "a", "chat", 0, "done");
    assert ListOf(s3.keys.logs, "a") == [] + [Event(0, "done")];
    var s4 := ReachOutcome(INITIAL, {}, s3, 0, "a", "chat", 1);
    s := ReachEnd(INITIAL, {}, s4, 1, "a", 0, 0, []);
  }

  // ---------------------------------------------------------------- a session blocked by a crash

  /** A coroutine that holds `job`, or that may still free a key that names it. */
  predicate Frees(th: Thread, job: string) {
    || Owner(th) == Some(job)
    || (th.CreateSawRunning? && th.other == job)
    || (th.CreateReleasing? && th.other == job)
    || (th.CancelFinishing? && th.job == job)
    || (th.CancelReleasing? && th.job == job)
  }

  /** The key names a job that is not running: it has an outcome, or never got a record. */
  ghost predicate NamesIdle(k: Keys, session: string, job: string) {
    Names(k, session, job) && job in k.used && (job in k.metas ==> k.metas[job].status != Running)
  }

  ghost predicate Stuck(s: State, session: string, job: string) {
    NamesIdle(s.keys, session, job) && forall t :: t in s.threads ==> !Frees(s.threads[t], job)
  }

  lemma StuckCreate(k: Keys, th: Thread, c: Choice, session: string, job: string)
    requires NamesIdle(k, session, job) && !Frees(th, job) && IsCreate(th)
    ensures var r := AdvanceCreate(k, th, c); NamesIdle(r.0, session, job) && !Frees(r.1, job)
  {
  }

  lemma StuckCancel(k: Keys, th: Thread, session: string, job: string)
    requires NamesIdle(k, session, job) && !Frees(th, job) && IsCancel(th)
    ensures var r := AdvanceCancel(k, th); NamesIdle(r.0, session, job) && !Frees(r.1, job)
  {
  }

  lemma StuckRun(k: Keys, th: Thread, c: Choice, session: string, job: string)
    requires NamesIdle(k, session, job) && !Frees(th, job) && !IsCreate(th) && !IsCancel(th) && !IsRead(th)
    ensures var r := AdvanceRun(k, th, c); NamesIdle(r.0, session, job) && !Frees(r.1, job)
  {
  }

  lemma StuckAdvance(k: Keys, th: Thread, c: Choice, session: string, job: string)
    requires NamesIdle(k, session, job) && !Frees(th, job)
    ensures var r := Advance(k, th, c); NamesIdle(r.0, session, job) && !Frees(r.1, job)
  {
    if IsCreate(th) {
      StuckCreate(k, th, c, session, job);
    } else if IsCancel(th) {
      StuckCancel(k, th, session, job);
    } else if !IsRead(th) {
      StuckRun(k, th, c, session, job);
    }
  }

  lemma StuckStep(s: State, s': State, session: string, job: string)
    requires Step(s, s') && Stuck(s, session, job)
    ensures Stuck(s', session, job)
  {
    if t, c :| Moves(s, t, c, s') {
      StuckAdvance(s.keys, s.threads[t], c, session, job);
    }
  }

  lemma {:induction false} StuckAlong(ss: seq<State>, n: nat, session: string, job: string)
    requires IsTrace(ss, {}) && n < |ss| && Stuck(ss[0], session, job)
    ensures Stuck(ss[n], session, job)
  {
    if n > 0 {
      StuckAlong(ss, n - 1, session, job);
      assert StepAt(ss, n);
      StuckStep(ss[n - 1], ss[n], session, job);
    }
  }

  /**
   * A key that names an idle job nobody is about to free stays for good: whatever happens next, a create
   * request for the session starts nothing.
   */
  lemma StuckForever(s: State, s': State, session: string, job: string, id: string)
    requires Leads(s, s', {}) && Stuck(s, session, job) && id !in s'.keys.used
    ensures Names(s'.keys, session, job) && Alone(s'.keys, CreateStart(session), NewId(id), 6).1 == Returned
  {
    var ss :| IsTrace(ss, {}) && ss[0] == s && ss[|ss| - 1] == s';
    StuckAlong(ss, |ss| - 1, session, job);
    CreateStartsIff(s'.keys, session, id);
  }

  /** A crash between taking the key and writing the record leaves a session in that condition. */
  lemma CrashBlocksSession() returns (s: State)
    ensures Reachable(s) && Stuck(s, "chat", "a")
  {
    LeadsNowhere(INITIAL, {});
    var s1 := ReachArrival(INITIAL, {}, INITIAL, 0, CreateStart("chat"));
    var s2 := ReachMove(INITIAL, {}, s1, 0, NewId("a"));
    var s3 := ReachMove(INITIAL, {}, s2, 0, NewId("a"));
    assert s3.threads == map[0 := CreateLocked("chat", "a")];
    s := s3.(threads := s3.threads - {0});
    assert Crashes(s3, s);
    LeadsStep(INITIAL, s3, s, {});
    assert s.threads == map[];
  }
}
