/**
 * Chat jobs: creating, cancelling, running and reading them, with every Redis command one atomic step
 * and any interleaving, crash or interruption in between.
 */
module ChatJob {
  import opened Common
  import opened Redis

  datatype Status = Running | Completed | Failed | Cancelled

  datatype Meta = Meta(session: string, status: Status)

  datatype Event = Event(num: nat, data: string)

  /** A coroutine, at the command it will issue next. */
  datatype Thread =
    | CreateStart(session: string)
    | CreateSawActive(session: string, other: string)
    | CreateSawRunning(session: string, other: string)
    | CreateReleasing(session: string, other: string)
    | CreateLocking(session: string)
    | CreateLocked(session: string, job: string)
    | CancelStart(job: string)
    | CancelMarked(job: string)
    | CancelFinishing(job: string, meta: Meta)
    | CancelReleasing(job: string, session: string)
    | Run(job: string, session: string, num: nat)
    | RunFinishing(job: string, session: string, status: Status)
    | RunWriting(job: string, session: string, meta: Meta)
    | RunUnmarking(job: string, session: string)
    | RunReleasing(job: string, session: string)
    | ReadEvents(job: string, from: nat, next: nat, seen: seq<Event>)
    | ReadStatus(job: string, from: nat, next: nat, seen: seq<Event>)
    | Ended(job: string, from: nat, next: nat, seen: seq<Event>)
    | Returned

  /**
   * The Redis keys. `used` are the job ids generated so far; `abandoned` are the jobs whose coroutine was
   * torn down and gave up the session key without recording an outcome.
   */
  datatype Keys = Keys(
    active: map<string, string>, metas: map<string, Meta>, marks: set<string>, logs: map<string, seq<Event>>,
    used: set<string>, abandoned: set<string>)

  datatype State = State(keys: Keys, threads: map<nat, Thread>)

  const INITIAL := State(Keys(map[], map[], {}, map[], {}, {}), map[])

  /** What is not determined by the state: a fresh id, and what the generation does next. */
  datatype Choice = NewId(id: string) | Emit(data: string) | Finish(outcome: Status) | Interrupt

  ghost predicate IsFinal(k: Keys, job: string) {
    job in k.metas && k.metas[job].status != Running
  }

  ghost predicate IsLive(k: Keys, job: string) {
    job in k.metas && k.metas[job].status == Running && job !in k.marks
  }

  ghost predicate Names(k: Keys, session: string, job: string) {
    session in k.active && k.active[session] == job
  }

  // ---------------------------------------------------------------- one command

  function Release(k: Keys, session: string, job: string): Keys {
    k.(active := DeleteIfMatches(k.active, session, job))
  }

  function Lock(k: Keys, session: string, id: string): Keys {
    k.(active := SetNx(k.active, session, id).0, used := k.used + {id})
  }

  function SetMeta(k: Keys, job: string, meta: Meta): Keys {
    k.(metas := k.metas[job := meta])
  }

  function Append(k: Keys, job: string, e: Event): Keys {
    k.(logs := k.logs[job := ListOf(k.logs, job) + [e]])
  }

  function AdvanceCreate(k: Keys, th: Thread, c: Choice): (Keys, Thread) {
    match th
    case CreateStart(session) =>
      (k, if session in k.active then CreateSawActive(session, k.active[session]) else CreateLocking(session))
    case CreateSawActive(session, other) =>
      (k, if other in k.metas && k.metas[other].status == Running then CreateSawRunning(session, other) else CreateLocking(session))
    case CreateSawRunning(session, other) => (k, if other in k.marks then CreateReleasing(session, other) else Returned)
    case CreateReleasing(session, other) => (Release(k, session, other), CreateLocking(session))
    case CreateLocking(session) =>
      if !c.NewId? || c.id in k.used then (k, th)
      else (Lock(k, session, c.id), if session in k.active then Returned else CreateLocked(session, c.id))
    case CreateLocked(session, job) => (SetMeta(k, job, Meta(session, Running)), Run(job, session, 0))
    case _ => (k, th)
  }

  function AdvanceCancel(k: Keys, th: Thread): (Keys, Thread) {
    match th
    case CancelStart(job) => (k.(marks := k.marks + {job}), CancelMarked(job))
    case CancelMarked(job) =>
      (k, if job in k.metas && k.metas[job].status == Running then CancelFinishing(job, k.metas[job]) else Returned)
    case CancelFinishing(job, meta) => (SetMeta(k, job, meta.(status := Cancelled)), CancelReleasing(job, meta.session))
    case CancelReleasing(job, session) => (Release(k, session, job), Returned)
    case _ => (k, th)
  }

  /** Reading the record before writing the outcome back. */
  function OutcomeOf(k: Keys, job: string, status: Status): Meta {
    (if job in k.metas then k.metas[job] else Meta("", Running)).(status := status)
  }

  /** The coroutine of a job. An interruption skips what is left of the work but not the final release. */
  function AdvanceRun(k: Keys, th: Thread, c: Choice): (Keys, Thread) {
    match th
    case Run(job, session, num) => (
      match c
      case Emit(data) => (Append(k, job, Event(num, data)), Run(job, session, num + 1))
      case Finish(outcome) => (k, if outcome == Running then th else RunFinishing(job, session, outcome))
      case Interrupt => (k, RunReleasing(job, session))
      case NewId(_) => (k, th))
    case RunFinishing(job, session, status) =>
      (k, if c.Interrupt? then RunReleasing(job, session) else RunWriting(job, session, OutcomeOf(k, job, status)))
    case RunWriting(job, session, meta) =>
      if c.Interrupt? then (k, RunReleasing(job, session)) else (SetMeta(k, job, meta), RunUnmarking(job, session))
    case RunUnmarking(job, session) =>
      (if c.Interrupt? then k else k.(marks := k.marks - {job}), RunReleasing(job, session))
    case RunReleasing(job, session) => (Release(GiveUp(k, job), session, job), Returned)
    case _ => (k, th)
  }

  function GiveUp(k: Keys, job: string): Keys {
    if job in k.metas && k.metas[job].status == Running then k.(abandoned := k.abandoned + {job}) else k
  }

  /** A reader takes up to 64 events at a time and looks at the status only after finding none. */
  function AdvanceRead(k: Keys, th: Thread): Thread {
    match th
    case ReadEvents(job, from, next, seen) =>
      var chunk := Range(ListOf(k.logs, job), next, next + 63);
      if chunk != [] then ReadEvents(job, from, next + |chunk|, seen + chunk) else ReadStatus(job, from, next, seen)
    case ReadStatus(job, from, next, seen) =>
      if job in k.metas && k.metas[job].status == Running then ReadEvents(job, from, next, seen) else Ended(job, from, next, seen)
    case _ => th
  }

  predicate IsCreate(th: Thread) {
    th.CreateStart? || th.CreateSawActive? || th.CreateSawRunning? || th.CreateReleasing? || th.CreateLocking? || th.CreateLocked?
  }

  predicate IsCancel(th: Thread) {
    th.CancelStart? || th.CancelMarked? || th.CancelFinishing? || th.CancelReleasing?
  }

  predicate IsRead(th: Thread) {
    th.ReadEvents? || th.ReadStatus? || th.Ended?
  }

  function Advance(k: Keys, th: Thread, c: Choice): (Keys, Thread) {
    if IsCreate(th) then AdvanceCreate(k, th, c)
    else if IsCancel(th) then AdvanceCancel(k, th)
    else if IsRead(th) then (k, AdvanceRead(k, th))
    else AdvanceRun(k, th, c)
  }

  predicate IsEntry(th: Thread) {
    || th.CreateStart? || th.CancelStart?
    || (th.ReadEvents? && th.next == th.from && th.seen == [])
  }

  ghost predicate Arrives(s: State, s': State) {
    exists t: nat, th :: t !in s.threads && IsEntry(th) && s' == s.(threads := s.threads[t := th])
  }

  ghost predicate Moves(s: State, t: nat, c: Choice, s': State) {
    t in s.threads && s' == State(Advance(s.keys, s.threads[t], c).0, s.threads[t := Advance(s.keys, s.threads[t], c).1])
  }

  ghost predicate Crashes(s: State, s': State) {
    exists t: nat :: s' == s.(threads := s.threads - {t})
  }

  /** A request arrives, a coroutine issues its next command, or one disappears in a crash. */
  ghost predicate Step(s: State, s': State) {
    Arrives(s, s') || (exists t, c :: Moves(s, t, c, s')) || Crashes(s, s')
  }

  ghost predicate StepAt(ss: seq<State>, n: nat)
    requires 0 < n < |ss|
  {
    Step(ss[n - 1], ss[n])
  }

  ghost predicate IsRun(ss: seq<State>) {
    && ss != [] && ss[0] == INITIAL
    && forall n {:trigger StepAt(ss, n)} :: 0 < n < |ss| ==> StepAt(ss, n)
  }

  // ---------------------------------------------------------------- the invariant

  /** The job a coroutine has claimed for itself. */
  function Owner(th: Thread): Option<string> {
    match th
    case CreateLocked(_, job) => Some(job)
    case Run(job, _, _) => Some(job)
    case RunFinishing(job, _, _) => Some(job)
    case RunWriting(job, _, _) => Some(job)
    case RunUnmarking(job, _) => Some(job)
    case RunReleasing(job, _) => Some(job)
    case _ => None
  }

  ghost predicate OwnersUnique(s: State) {
    forall t, u :: t in s.threads && u in s.threads && t != u && Owner(s.threads[t]).Some? ==>
      Owner(s.threads[t]) != Owner(s.threads[u])
  }

  ghost predicate SliceOk(log: seq<Event>, from: nat, next: nat, seen: seq<Event>) {
    if seen == [] then next == from else from <= next <= |log| && seen == log[from..next]
  }

  /** What each coroutine may rely on between two of its commands. */
  ghost predicate ThreadOk(k: Keys, th: Thread) {
    && (Owner(th).Some? ==> Owner(th).value in k.used)
    && match th
       case CreateReleasing(_, other) => other in k.metas && (other in k.marks || IsFinal(k, other))
       case CreateSawRunning(_, other) => other in k.metas
       case CreateLocked(session, job) => job !in k.metas && Names(k, session, job)
       case CancelFinishing(job, meta) => job in k.metas && meta.session == k.metas[job].session
       case CancelReleasing(job, _) => IsFinal(k, job)
       case Run(job, session, num) => job in k.metas && k.metas[job].session == session && |ListOf(k.logs, job)| == num
       case RunFinishing(job, session, status) => job in k.metas && k.metas[job].session == session && status != Running
       case RunWriting(job, session, meta) =>
         job in k.metas && k.metas[job].session == session == meta.session && meta.status != Running
       case RunUnmarking(job, session) => IsFinal(k, job) && k.metas[job].session == session
       case RunReleasing(job, session) => job in k.metas && k.metas[job].session == session
       case ReadEvents(job, from, next, seen) => SliceOk(ListOf(k.logs, job), from, next, seen)
       case ReadStatus(job, from, next, seen) => SliceOk(ListOf(k.logs, job), from, next, seen)
       case Ended(job, from, next, seen) => SliceOk(ListOf(k.logs, job), from, next, seen)
       case _ => true
  }

  ghost predicate ThreadsOk(s: State) {
    forall t :: t in s.threads ==> ThreadOk(s.keys, s.threads[t])
  }

  /** A running job without a cancel mark holds its session's key, unless its coroutine was torn down. */
  ghost predicate LiveHoldKey(k: Keys) {
    forall job :: IsLive(k, job) ==> (Names(k, k.metas[job].session, job) <==> job !in k.abandoned)
  }

  ghost predicate IdsOk(k: Keys) {
    && (forall session :: session in k.active ==> k.active[session] in k.used)
    && (forall job :: job in k.metas ==> job in k.used)
    && (forall job :: job in k.abandoned ==> job in k.metas)
  }

  /** Position and number of every event agree, and only started jobs have events. */
  ghost predicate LogsOk(k: Keys) {
    forall job :: job in k.logs ==>
      job in k.metas && forall i :: 0 <= i < |k.logs[job]| ==> k.logs[job][i].num == i
  }

  ghost predicate KeysOk(k: Keys) {
    LiveHoldKey(k) && IdsOk(k) && LogsOk(k)
  }

  ghost predicate Inv(s: State) {
    KeysOk(s.keys) && ThreadsOk(s) && OwnersUnique(s)
  }

  // ---------------------------------------------------------------- what a command by the owner of `mine` leaves alone

  ghost predicate MetasGrow(k: Keys, k': Keys) {
    forall job :: job in k.metas ==>
      job in k'.metas && k'.metas[job].session == k.metas[job].session && (IsFinal(k, job) ==> IsFinal(k', job))
  }

  ghost predicate Grows(k: Keys, k': Keys, mine: Option<string>) {
    && MetasGrow(k, k')
    && (forall job :: job in k.marks ==> job in k'.marks || IsFinal(k', job))
    && (forall job :: Some(job) != mine ==> (job in k'.metas ==> job in k.metas) && ListOf(k'.logs, job) == ListOf(k.logs, job))
    && (forall job :: ListOf(k.logs, job) <= ListOf(k'.logs, job))
    && (forall session, job :: job !in k.metas && Names(k, session, job) ==> Names(k', session, job))
    && k.used <= k'.used
  }

  lemma SliceStays(log: seq<Event>, log': seq<Event>, from: nat, next: nat, seen: seq<Event>)
    requires SliceOk(log, from, next, seen) && log <= log'
    ensures SliceOk(log', from, next, seen)
  {
    if seen != [] { assert log'[from..next] == log[from..next]; }
  }

  lemma ThreadStays(k: Keys, k': Keys, mine: Option<string>, th: Thread)
    requires ThreadOk(k, th) && Grows(k, k', mine) && (Owner(th).Some? ==> Owner(th) != mine)
    ensures ThreadOk(k', th)
  {
    if IsRead(th) {
      SliceStays(ListOf(k.logs, th.job), ListOf(k'.logs, th.job), th.from, th.next, th.seen);
    }
  }

  // ---------------------------------------------------------------- the shared commands, one by one

  ghost predicate Good(k: Keys, k': Keys, mine: Option<string>) {
    KeysOk(k') && Grows(k, k', mine)
  }

  lemma SameIsGood(k: Keys, mine: Option<string>)
    requires KeysOk(k)
    ensures Good(k, k, mine)
  {
  }

  lemma ReleaseIsGood(k: Keys, session: string, job: string, mine: Option<string>)
    requires KeysOk(k) && job in k.metas && !IsLive(k, job)
    ensures Good(k, Release(k, session, job), mine)
  {
  }

  lemma GiveUpKeepsKeys(k: Keys, job: string)
    requires KeysOk(k) && job in k.metas && k.metas[job].status == Running
    ensures KeysOk(Release(k.(abandoned := k.abandoned + {job}), k.metas[job].session, job))
  {
  }

  lemma GiveUpGrows(k: Keys, job: string, mine: Option<string>)
    requires job in k.metas
    ensures Grows(k, Release(k.(abandoned := k.abandoned + {job}), k.metas[job].session, job), mine)
  {
  }

  /** Giving up while still running is the one way a running job loses its key. */
  lemma GiveUpIsGood(k: Keys, job: string, mine: Option<string>)
    requires KeysOk(k) && job in k.metas
    ensures Good(k, Release(GiveUp(k, job), k.metas[job].session, job), mine)
  {
    if k.metas[job].status == Running {
      GiveUpKeepsKeys(k, job);
      GiveUpGrows(k, job, mine);
    } else {
      ReleaseIsGood(k, k.metas[job].session, job, mine);
    }
  }

  lemma LockIsGood(k: Keys, session: string, id: string, mine: Option<string>)
    requires KeysOk(k) && id !in k.used
    ensures Good(k, Lock(k, session, id), mine)
  {
  }

  lemma StartIsGood(k: Keys, session: string, job: string)
    requires KeysOk(k) && job in k.used && job !in k.metas && Names(k, session, job)
    ensures Good(k, SetMeta(k, job, Meta(session, Running)), Some(job))
  {
  }

  lemma FinishIsGood(k: Keys, job: string, meta: Meta, mine: Option<string>)
    requires KeysOk(k) && job in k.metas && meta.session == k.metas[job].session && meta.status != Running
    ensures Good(k, SetMeta(k, job, meta), mine)
  {
  }

  lemma MarkIsGood(k: Keys, job: string, mine: Option<string>)
    requires KeysOk(k)
    ensures Good(k, k.(marks := k.marks + {job}), mine)
  {
  }

  lemma UnmarkIsGood(k: Keys, job: string, mine: Option<string>)
    requires KeysOk(k) && IsFinal(k, job)
    ensures Good(k, k.(marks := k.marks - {job}), mine)
  {
  }

  lemma AppendIsGood(k: Keys, job: string, e: Event)
    requires KeysOk(k) && job in k.metas && e.num == |ListOf(k.logs, job)|
    ensures Good(k, Append(k, job, e), Some(job))
  {
  }

  // ---------------------------------------------------------------- every command keeps the invariant

  /** After its command a coroutine still owns what it owned, or nothing, or a job with a new id. */
  ghost predicate Advanced(k: Keys, th: Thread, k': Keys, th': Thread) {
    && Good(k, k', Owner(th))
    && ThreadOk(k', th')
    && (Owner(th').Some? ==> Owner(th') == Owner(th) || Owner(th').value !in k.used)
  }

  lemma CreateIsGood(k: Keys, th: Thread, c: Choice)
    requires KeysOk(k) && ThreadOk(k, th) && IsCreate(th)
    ensures Good(k, AdvanceCreate(k, th, c).0, Owner(th))
  {
    var k' := AdvanceCreate(k, th, c).0;
    if th.CreateReleasing? {
      ReleaseIsGood(k, th.session, th.other, None);
    } else if th.CreateLocking? && c.NewId? && c.id !in k.used {
      LockIsGood(k, th.session, c.id, None);
    } else if th.CreateLocked? {
      StartIsGood(k, th.session, th.job);
    } else {
      assert k' == k;
      SameIsGood(k, Owner(th));
    }
  }

  lemma CreateAdvances(k: Keys, th: Thread, c: Choice)
    requires KeysOk(k) && ThreadOk(k, th) && IsCreate(th)
    ensures var r := AdvanceCreate(k, th, c);
      ThreadOk(r.0, r.1) && (Owner(r.1).Some? ==> Owner(r.1) == Owner(th) || Owner(r.1).value !in k.used)
  {
  }

  lemma CancelIsGood(k: Keys, th: Thread)
    requires KeysOk(k) && ThreadOk(k, th) && IsCancel(th)
    ensures Good(k, AdvanceCancel(k, th).0, Owner(th))
  {
    match th {
      case CancelStart(job) => MarkIsGood(k, job, None);
      case CancelMarked(job) => SameIsGood(k, None);
      case CancelFinishing(job, meta) => FinishIsGood(k, job, meta.(status := Cancelled), None);
      case CancelReleasing(job, session) => ReleaseIsGood(k, session, job, None);
    }
  }

  lemma CancelAdvances(k: Keys, th: Thread)
    requires KeysOk(k) && ThreadOk(k, th) && IsCancel(th)
    ensures var r := AdvanceCancel(k, th); ThreadOk(r.0, r.1) && Owner(r.1).None?
  {
  }

  lemma RunIsGood(k: Keys, th: Thread, c: Choice)
    requires KeysOk(k) && ThreadOk(k, th) && !IsCreate(th) && !IsCancel(th) && !IsRead(th)
    ensures Good(k, AdvanceRun(k, th, c).0, Owner(th))
  {
    if th.Run? && c.Emit? {
      AppendIsGood(k, th.job, Event(th.num, c.data));
    } else if th.RunWriting? && !c.Interrupt? {
      FinishIsGood(k, th.job, th.meta, Some(th.job));
    } else if th.RunUnmarking? && !c.Interrupt? {
      UnmarkIsGood(k, th.job, Some(th.job));
    } else if th.RunReleasing? {
      GiveUpIsGood(k, th.job, Some(th.job));
    } else {
      assert AdvanceRun(k, th, c).0 == k;
      SameIsGood(k, Owner(th));
    }
  }

  lemma RunAdvances(k: Keys, th: Thread, c: Choice)
    requires KeysOk(k) && ThreadOk(k, th) && !IsCreate(th) && !IsCancel(th) && !IsRead(th)
    ensures var r := AdvanceRun(k, th, c); ThreadOk(r.0, r.1) && (Owner(r.1).Some? ==> Owner(r.1) == Owner(th))
  {
  }

  lemma ReadAdvances(k: Keys, th: Thread)
    requires KeysOk(k) && ThreadOk(k, th) && IsRead(th)
    ensures ThreadOk(k, AdvanceRead(k, th)) && Owner(AdvanceRead(k, th)).None?
  {
    if th.ReadEvents? {
      var log := ListOf(k.logs, th.job);
      var chunk := Range(log, th.next, th.next + 63);
      if chunk != [] && th.seen != [] {
        assert log[th.from..th.next] + log[th.next..th.next + |chunk|] == log[th.from..th.next + |chunk|];
      }
    }
  }

  lemma CommandAdvances(k: Keys, th: Thread, c: Choice)
    requires KeysOk(k) && ThreadOk(k, th)
    ensures var r := Advance(k, th, c); Advanced(k, th, r.0, r.1)
  {
    if IsCreate(th) {
      CreateIsGood(k, th, c);
      CreateAdvances(k, th, c);
    } else if IsCancel(th) {
      CancelIsGood(k, th);
      CancelAdvances(k, th);
    } else if IsRead(th) {
      ReadAdvances(k, th);
      SameIsGood(k, Owner(th));
    } else {
      RunIsGood(k, th, c);
      RunAdvances(k, th, c);
    }
  }

  lemma MoveKeeps(s: State, t: nat, c: Choice, s': State)
    requires Inv(s) && Moves(s, t, c, s')
    ensures Inv(s')
  {
    var th, th' := s.threads[t], s'.threads[t];
    CommandAdvances(s.keys, th, c);
    forall u | u in s'.threads ensures ThreadOk(s'.keys, s'.threads[u]) {
      if u != t { ThreadStays(s.keys, s'.keys, Owner(th), s.threads[u]); }
    }
    forall u, v | u in s'.threads && v in s'.threads && u != v && Owner(s'.threads[u]).Some?
      ensures Owner(s'.threads[u]) != Owner(s'.threads[v]) {
      assert ThreadOk(s.keys, s.threads[u]) && ThreadOk(s.keys, s.threads[v]);
    }
  }

  lemma StepKeeps(s: State, s': State)
    requires Inv(s) && Step(s, s')
    ensures Inv(s')
  {
    if t, c :| Moves(s, t, c, s') {
      MoveKeeps(s, t, c, s');
    }
  }

  lemma {:induction false} RunKeeps(ss: seq<State>, n: nat)
    requires IsRun(ss) && n < |ss|
    ensures Inv(ss[n])
  {
    if n > 0 {
      RunKeeps(ss, n - 1);
      assert StepAt(ss, n);
      StepKeeps(ss[n - 1], ss[n]);
    }
  }

  // ---------------------------------------------------------------- the results

  /** In every reachable state, a running unmarked job holds its session's key iff it was not torn down. */
  lemma LiveJobHoldsKey(ss: seq<State>, n: nat, job: string)
    requires IsRun(ss) && n < |ss| && IsLive(ss[n].keys, job)
    ensures Names(ss[n].keys, ss[n].keys.metas[job].session, job) <==> job !in ss[n].keys.abandoned
  {
    RunKeeps(ss, n);
  }

  /** So a session never has two of them. */
  lemma OneLiveJobPerSession(ss: seq<State>, n: nat, a: string, b: string)
    requires IsRun(ss) && n < |ss| && IsLive(ss[n].keys, a) && IsLive(ss[n].keys, b)
    requires ss[n].keys.metas[a].session == ss[n].keys.metas[b].session
    requires a !in ss[n].keys.abandoned && b !in ss[n].keys.abandoned
    ensures a == b
  {
    RunKeeps(ss, n);
  }

  /** The key of a session passes from a job only by a release in that job's own name. */
  lemma KeyLostOnlyByOwnRelease(s: State, t: nat, c: Choice, s': State, session: string, job: string)
    requires Moves(s, t, c, s') && Names(s.keys, session, job) && !Names(s'.keys, session, job)
    ensures var th := s.threads[t];
      || th == CreateReleasing(session, job)
      || th == CancelReleasing(job, session)
      || th == RunReleasing(job, session)
    ensures session !in s'.keys.active
  {
  }

  /** What `job` has reached is still there: its outcome and its events. */
  ghost predicate StillThere(k: Keys, k': Keys, job: string) {
    (IsFinal(k, job) ==> IsFinal(k', job)) && ListOf(k.logs, job) <= ListOf(k'.logs, job)
  }

  lemma StillThereTransitive(a: Keys, b: Keys, c: Keys, job: string)
    requires StillThere(a, b, job) && StillThere(b, c, job)
    ensures StillThere(a, c, job)
  {
  }

  lemma StepLosesNothing(s: State, s': State, job: string)
    requires Inv(s) && Step(s, s')
    ensures StillThere(s.keys, s'.keys, job)
  {
    if t, c :| Moves(s, t, c, s') {
      CommandAdvances(s.keys, s.threads[t], c);
    }
  }

  /** Once a job has an outcome it is never running again, and its events are never taken back. */
  lemma {:induction false} FinalForever(ss: seq<State>, i: nat, j: nat, job: string)
    requires IsRun(ss) && i <= j < |ss|
    ensures StillThere(ss[i].keys, ss[j].keys, job)
    decreases j
  {
    if i < j {
      FinalForever(ss, i, j - 1, job);
      OneStepLater(ss, j, job);
      StillThereTransitive(ss[i].keys, ss[j - 1].keys, ss[j].keys, job);
    }
  }

  lemma OneStepLater(ss: seq<State>, n: nat, job: string)
    requires IsRun(ss) && 0 < n < |ss|
    ensures StillThere(ss[n - 1].keys, ss[n].keys, job)
  {
    RunKeeps(ss, n - 1);
    assert StepAt(ss, n);
    StepLosesNothing(ss[n - 1], ss[n], job);
  }

  /** Event `i` of a job carries number `i`. */
  lemma EventsAreNumbered(ss: seq<State>, n: nat, job: string, i: nat)
    requires IsRun(ss) && n < |ss| && i < |ListOf(ss[n].keys.logs, job)|
    ensures ListOf(ss[n].keys.logs, job)[i].num == i
  {
    RunKeeps(ss, n);
  }

  /** A reader started at `from` has emitted exactly the events from there to its next index. */
  lemma ReaderEmitsSlice(ss: seq<State>, n: nat, t: nat)
    requires IsRun(ss) && n < |ss| && t in ss[n].threads && IsRead(ss[n].threads[t])
    ensures var th := ss[n].threads[t]; SliceOk(ListOf(ss[n].keys.logs, th.job), th.from, th.next, th.seen)
  {
    RunKeeps(ss, n);
    assert ThreadOk(ss[n].keys, ss[n].threads[t]);
  }

  /** Resuming at the next index of an earlier reader concatenates without gap or repeat. */
  lemma ResumeConcatenates(ss: seq<State>, i: nat, t: nat, j: nat, u: nat)
    requires IsRun(ss) && i <= j < |ss| && t in ss[i].threads && u in ss[j].threads
    requires IsRead(ss[i].threads[t]) && IsRead(ss[j].threads[u])
    requires ss[i].threads[t].job == ss[j].threads[u].job && ss[i].threads[t].next == ss[j].threads[u].from
    ensures var a, b := ss[i].threads[t], ss[j].threads[u];
      SliceOk(ListOf(ss[j].keys.logs, a.job), a.from, b.next, a.seen + b.seen)
  {
    var a, b := ss[i].threads[t], ss[j].threads[u];
    ReaderEmitsSlice(ss, i, t);
    ReaderEmitsSlice(ss, j, u);
    FinalForever(ss, i, j, a.job);
    var log, log' := ListOf(ss[i].keys.logs, a.job), ListOf(ss[j].keys.logs, a.job);
    if a.seen != [] {
      assert log'[a.from..a.next] == log[a.from..a.next];
      if b.seen != [] { assert log'[a.from..a.next] + log'[b.from..b.next] == log'[a.from..b.next]; }
    }
  }

  // ---------------------------------------------------------------- requests that run alone

  /** `n` commands of one coroutine in a row, always with the same choice. */
  function Alone(k: Keys, th: Thread, c: Choice, n: nat): (Keys, Thread)
    decreases n
  {
    if n == 0 then (k, th) else var r := Advance(k, th, c); Alone(r.0, r.1, c, n - 1)
  }

  lemma AloneStep(k: Keys, th: Thread, c: Choice, n: nat)
    requires n > 0
    ensures var r := Advance(k, th, c); Alone(k, th, c, n) == Alone(r.0, r.1, c, n - 1)
  {
  }

  /** A cancel request that runs alone ends a running job at once and frees the session for the next one. */
  lemma CancelFreesSession(k: Keys, job: string, c: Choice)
    requires IsLive(k, job) && Names(k, k.metas[job].session, job)
    ensures var r := Alone(k, CancelStart(job), c, 4);
      && r.1 == Returned
      && r.0.metas == k.metas[job := Meta(k.metas[job].session, Cancelled)]
      && r.0.active == k.active - {k.metas[job].session}
  {
    var k1 := k.(marks := k.marks + {job});
    AloneStep(k, CancelStart(job), c, 4);
    AloneStep(k1, CancelMarked(job), c, 3);
    AloneStep(k1, CancelFinishing(job, k.metas[job]), c, 2);
    var k2 := SetMeta(k1, job, Meta(k.metas[job].session, Cancelled));
    AloneStep(k2, CancelReleasing(job, k.metas[job].session), c, 1);
  }

  /** A create request that runs alone finds the live job of its session and starts nothing. */
  lemma CreateFindsLiveJob(k: Keys, session: string, job: string, id: string)
    requires IsLive(k, job) && Names(k, session, job)
    ensures Alone(k, CreateStart(session), NewId(id), 3) == (k, Returned)
  {
    AloneStep(k, CreateStart(session), NewId(id), 3);
    AloneStep(k, CreateSawActive(session, job), NewId(id), 2);
    AloneStep(k, CreateSawRunning(session, job), NewId(id), 1);
  }

  /** With a free key, or one that names a job marked for cancelling, it starts a new job that holds the key. */
  lemma CreateStartsJob(k: Keys, session: string, id: string)
    requires id !in k.used
    requires session in k.active ==> var other := k.active[session];
      other in k.metas && k.metas[other].status == Running && other in k.marks
    ensures var r := Alone(k, CreateStart(session), NewId(id), if session in k.active then 6 else 3);
      && r.1 == Run(id, session, 0)
      && Names(r.0, session, id) && r.0.metas == k.metas[id := Meta(session, Running)]
  {
    var c := NewId(id);
    if session in k.active {
      var other := k.active[session];
      AloneStep(k, CreateStart(session), c, 6);
      AloneStep(k, CreateSawActive(session, other), c, 5);
      AloneStep(k, CreateSawRunning(session, other), c, 4);
      AloneStep(k, CreateReleasing(session, other), c, 3);
      LockingStartsJob(Release(k, session, other), session, id);
    } else {
      AloneStep(k, CreateStart(session), c, 3);
      LockingStartsJob(k, session, id);
    }
  }

  lemma LockingStartsJob(k: Keys, session: string, id: string)
    requires id !in k.used && session !in k.active
    ensures Alone(k, CreateLocking(session), NewId(id), 2) ==
      (SetMeta(Lock(k, session, id), id, Meta(session, Running)), Run(id, session, 0))
  {
    AloneStep(k, CreateLocking(session), NewId(id), 2);
    AloneStep(Lock(k, session, id), CreateLocked(session, id), NewId(id), 1);
  }

  /** The key is free, or names a running job that is marked for cancelling. */
  predicate CanStart(k: Keys, session: string) {
    session in k.active ==>
      var other := k.active[session];
      other in k.metas && k.metas[other].status == Running && other in k.marks
  }

  lemma {:induction false} AloneLonger(k: Keys, th: Thread, c: Choice, n: nat, m: nat)
    ensures var r := Alone(k, th, c, n); Alone(k, th, c, n + m) == Alone(r.0, r.1, c, m)
    decreases n
  {
    if n > 0 {
      var r := Advance(k, th, c);
      AloneLonger(r.0, r.1, c, n - 1, m);
    }
  }

  lemma {:induction false} AloneStays(k: Keys, th: Thread, c: Choice, n: nat)
    requires Advance(k, th, c) == (k, th)
    ensures Alone(k, th, c, n) == (k, th)
  {
    if n > 0 { AloneStays(k, th, c, n - 1); }
  }

  /** If the key names a job that is not running, finished or without a record, a create request takes nothing. */
  lemma CreateFindsIdleKey(k: Keys, session: string, id: string)
    requires id !in k.used && session in k.active
    requires var other := k.active[session]; other in k.metas ==> k.metas[other].status != Running
    ensures Alone(k, CreateStart(session), NewId(id), 3) == (k.(used := k.used + {id}), Returned)
  {
    AloneStep(k, CreateStart(session), NewId(id), 3);
    AloneStep(k, CreateSawActive(session, k.active[session]), NewId(id), 2);
    AloneStep(k, CreateLocking(session), NewId(id), 1);
  }

  /**
   * A create request that runs alone starts a job exactly when the key is free or names a running job marked
   * for cancelling; otherwise keys and records stay as they are.
   */
  lemma CreateStartsIff(k: Keys, session: string, id: string)
    requires id !in k.used
    ensures var r := Alone(k, CreateStart(session), NewId(id), 6);
      && (r.1 == Run(id, session, 0) <==> CanStart(k, session))
      && (CanStart(k, session) ==> Names(r.0, session, id) && r.0.metas == k.metas[id := Meta(session, Running)])
      && (!CanStart(k, session) ==> r.1 == Returned && r.0.active == k.active && r.0.metas == k.metas)
  {
    var start, c := CreateStart(session), NewId(id);
    if CanStart(k, session) {
      CreateStartsJob(k, session, id);
    } else if k.active[session] in k.metas && k.metas[k.active[session]].status == Running {
      CreateFindsLiveJob(k, session, k.active[session], id);
    } else {
      CreateFindsIdleKey(k, session, id);
    }
    var r := Alone(k, start, c, 3);
    if session !in k.active || !CanStart(k, session) {
      AloneLonger(k, start, c, 3, 3);
      AloneStays(r.0, r.1, c, 3);
    }
  }
}
