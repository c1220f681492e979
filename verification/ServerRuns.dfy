/** What holds throughout every run of the server. */
module ServerRuns {
  import opened Basics
  import opened ServerState
  import opened ServerProtocol
  import Cancels = ServerCancels
  import Expiry = ServerExpiry
  import Shutdown = ServerShutdown
  import Tenancies = ServerTenancy
  import Answers = ServerAnswers

  predicate IsRun(run: seq<System>, actions: seq<Action>) {
    && |run| == |actions| + 1
    && Initial(run[0])
    && forall i | 0 <= i < |actions| :: Next(run[i], actions[i]) == To(run[i + 1])
  }

  ghost predicate Invariant(s: System) {
    && Accounting(s) && Backend(s) && Cancels.Cancels(s) && Expiry.Expiry(s) && Shutdown.Shutdown(s)
    && Tenancies.Tenanted(s) && Answers.Answered(s)
  }

  lemma InitialInvariant(s: System)
    requires Initial(s)
    ensures Invariant(s)
  {
    hide InFlight, Contending, Using;
    CountsAreZero(s.threads);
  }

  lemma StepKeepsInvariant(s: System, a: Action)
    requires Invariant(s) && Next(s, a).To?
    ensures Invariant(Next(s, a).next)
  {
    hide Next, Accounting, Backend, Cancels.Cancels, Expiry.Expiry, Shutdown.Shutdown;
    hide Tenancies.Tenanted, Answers.Answered;
    StepKeepsAccounting(s, a);
    StepKeepsBackend(s, a);
    Cancels.StepKeepsCancels(s, a);
    Expiry.StepKeepsExpiry(s, a);
    Shutdown.StepKeepsShutdown(s, a);
    Tenancies.StepStaysTenanted(s, a);
    Answers.StepStaysAnswered(s, a);
  }

  /** In every reachable state of every interleaving the counters are exact, the backend has
      one holder and the running fields name it, pending and cancelled keys are those of
      the operations in flight, idle deadlines and the shutdown deadline are armed exactly
      when they should be, shutdown commitments hold, and callers were told the truth. */
  lemma {:induction false} RunKeepsInvariant(run: seq<System>, actions: seq<Action>, i: nat)
    requires IsRun(run, actions) && i < |run|
    ensures Invariant(run[i])
  {
    hide Invariant, Next;
    if i == 0 {
      InitialInvariant(run[0]);
    } else {
      RunKeepsInvariant(run, actions, i - 1);
      assert Next(run[i - 1], actions[i - 1]) == To(run[i - 1 + 1]);
      StepKeepsInvariant(run[i - 1], actions[i - 1]);
    }
  }

  // --------------------------------------------------------- what is lasting

  predicate Clearing(pc: Pc) {
    pc.Closing? || pc.Cleaning?
  }

  // What only grows.
  predicate Grown(h: History, k: History) {
    && h.tids <= k.tids && h.used <= k.used && h.bodies <= k.bodies && h.doomed <= k.doomed
    && h.slices <= k.slices
  }

  // A lease once detached is never open again.
  ghost predicate GoneStays(s: System, n: System) {
    forall id | id in s.history.used && id !in s.server.leases :: id !in n.server.leases
  }

  // No lease is opened, no request starts: only cleanups begin.
  ghost predicate NothingStarts(s: System, n: System) {
    && n.server.leases.Keys <= s.server.leases.Keys
    && (forall t | t in n.threads :: t in s.threads || Clearing(n.threads[t]))
    && (forall t | t in n.threads && t in s.threads && Clearing(s.threads[t]) :: Clearing(n.threads[t]))
  }

  // What holds between an earlier and a later state of a run.
  ghost predicate Later(s: System, n: System) {
    && n.config == s.config && Grown(s.history, n.history) && Shutdown.Flags(s, n) && GoneStays(s, n)
    && (ShuttingDown(s) ==> NothingStarts(s, n))
    && (s.history.accepted ==> n.history.bodies == s.history.bodies)
  }

  lemma LaterTrans(s: System, m: System, n: System)
    requires Later(s, m) && Later(m, n)
    ensures Later(s, n)
  {
  }

  lemma GlobalLater(s: System, a: GlobalMove)
    requires Invariant(s) && GlobalStep(s, a).To?
    ensures Later(s, GlobalStep(s, a).next)
  {
    Shutdown.GlobalShutdown(s, a);
    hide Invariant;
    GlobalGrows(s, a);
    if ShuttingDown(s) { GlobalStarts(s, a); }
    hide GlobalStep, Shutdown.Armed, Grown, GoneStays, Shutdown.Flags, NothingStarts, ShuttingDown;
  }

  lemma GlobalStarts(s: System, a: GlobalMove)
    requires Identities(s) && ShuttingDown(s) && GlobalStep(s, a).To?
    ensures NothingStarts(s, GlobalStep(s, a).next)
  {
    BegunThreads(s, a);
    Shutdown.BegunWhileEnding(s, a);
    BegunAre(s, a);
    hide GlobalStep, Begun, ShuttingDown;
  }

  lemma BegunAre(s: System, a: GlobalMove)
    requires GlobalStep(s, a).To?
    ensures forall t | t in Begun(s, a) ::
        t in GlobalStep(s, a).next.threads && GlobalStep(s, a).next.threads[t] == Begun(s, a)[t]
  {
    hide Detach, ShutdownPending, IdleDrains, OpenLease, ArmGrace, Scan;
  }

  lemma GlobalGrows(s: System, a: GlobalMove)
    requires GlobalStep(s, a).To?
    ensures var n := GlobalStep(s, a).next;
            && n.config == s.config && Grown(s.history, n.history) && n.history.bodies == s.history.bodies
            && GoneStays(s, n)
  {
    LeaseKeys(s.server);
    hide Detach, ShutdownPending, IdleDrains, OpenLease, ArmGrace, Scan;
  }

  lemma RequestLater(s: System, t: Tid, a: RequestMove)
    requires Invariant(s) && t in s.threads && RequestStep(s, t, s.threads[t], a).To?
    ensures Later(s, RequestStep(s, t, s.threads[t], a).next)
  {
    hide Invariant;
    Shutdown.RequestShutdownStep(s, t, s.threads[t], a);
    RequestGrows(s, t, s.threads[t], a);
    assert s.history.accepted ==> RequestStep(s, t, s.threads[t], a).next.history.bodies == s.history.bodies;
    hide RequestStep, Clearing, Shutdown.Accepts, Shutdown.Ending, Counted;
    NothingStarted(s, RequestStep(s, t, s.threads[t], a).next, t);
  }

  lemma RequestGrows(s: System, t: Tid, pc: Pc, a: RequestMove)
    requires t in s.threads && RequestStep(s, t, pc, a).To?
    ensures var n := RequestStep(s, t, pc, a).next;
            && n.config == s.config && Grown(s.history, n.history) && n.history.bodies == s.history.bodies
            && (t in n.threads && Clearing(pc) ==> Clearing(n.threads[t]))
  {
    hide FinishRequest, Cancel, RequestShutdown, BeginShutdown, Reached;
  }

  lemma OpLater(s: System, t: Tid, a: OpMove)
    requires Invariant(s) && t in s.threads && OpStep(s, t, s.threads[t], a).To?
    ensures Later(s, OpStep(s, t, s.threads[t], a).next)
  {
    var n := OpStep(s, t, s.threads[t], a).next;
    Shutdown.OpShutdown(s, t, s.threads[t], a);
    OpGrows(s, t, s.threads[t], a);
    NoOpAfterAccept(s, t);
    hide OpStep, Invariant, Shutdown.Ending, Counted, IsRequest;
    NothingStarted(s, n, t);
  }

  lemma NothingStarted(s: System, n: System, t: Tid)
    requires t in s.threads && OthersSame(s, n, {t}) && n.server.leases.Keys == s.server.leases.Keys
    requires t in n.threads && Clearing(s.threads[t]) ==> Clearing(n.threads[t])
    ensures NothingStarts(s, n) && GoneStays(s, n)
  {
    hide Clearing;
  }

  lemma NoOpAfterAccept(s: System, t: Tid)
    requires Invariant(s) && t in s.threads && IsRequest(s.threads[t]) && !s.threads[t].ShutdownReply?
    ensures !s.history.accepted
  {
    assert Shutdown.Committed(s);
  }

  lemma OpGrows(s: System, t: Tid, pc: Pc, a: OpMove)
    requires OpStep(s, t, pc, a).To?
    ensures var n := OpStep(s, t, pc, a).next;
            && n.config == s.config && Grown(s.history, n.history) && IsRequest(pc) && !pc.ShutdownReply?
            && !Clearing(pc)
  {
    hide Announce, StartRunning, StopRunning, Discard, Unannounce;
  }

  lemma StepIsLater(s: System, a: Action)
    requires Invariant(s) && Next(s, a).To?
    ensures Later(s, Next(s, a).next)
  {
    match a
    case Global(m) =>
      hide GlobalStep, Invariant, Later;
      GlobalLater(s, m);
    case OfRequest(t, m) =>
      hide RequestStep, Invariant, Later;
      RequestLater(s, t, m);
    case OfOp(t, m) =>
      hide OpStep, Invariant, Later;
      OpLater(s, t, m);
    case OfBackground(m) =>
      BackgroundLeaves(s, m);
      BackgroundGrows(s, m);
      hide BackgroundStep, Invariant;
  }

  lemma BackgroundGrows(s: System, a: BackgroundMove)
    requires BackgroundStep(s, a).To?
    ensures s.history.slices <= BackgroundStep(s, a).next.history.slices
  {
  }

  lemma {:induction false} RunOnlyGoesOn(run: seq<System>, actions: seq<Action>, i: nat, j: nat)
    requires IsRun(run, actions) && i <= j < |run|
    ensures Later(run[i], run[j])
    decreases j - i
  {
    hide Invariant, Next;
    if i < j {
      RunOnlyGoesOn(run, actions, i, j - 1);
      RunKeepsInvariant(run, actions, j - 1);
      assert Next(run[j - 1], actions[j - 1]) == To(run[j - 1 + 1]);
      StepIsLater(run[j - 1], actions[j - 1]);
      LaterTrans(run[i], run[j - 1], run[j]);
    }
  }

  // ------------------------------------------------------------ main results

  /** The counters are exact: requests in flight with unfinished cleanups, leases, contending
      operations, and each lease's requests. So the guards against going below zero never
      hide a lost count. */
  lemma CountersAreExact(run: seq<System>, actions: seq<Action>, i: nat)
    requires IsRun(run, actions) && i < |run|
    ensures var s := run[i];
            && s.server.activeLeases == |s.server.leases|
            && s.server.activeRequests == |set t | t in s.threads && Counted(s.threads[t])|
            && s.server.foregroundWaiters == |set t | t in s.threads && Contends(s.threads[t])|
            && (forall id | id in s.server.leases ::
                  s.server.leases[id].activeRequests == |set t | t in s.threads && Serves(s.threads[t], id)|)
            && (forall t | t in s.threads && Counted(s.threads[t]) :: s.server.activeRequests > 0)
  {
    var s := run[i];
    RunKeepsInvariant(run, actions, i);
    assert Accounting(s);
    hide Invariant, IsRun;
    forall t | t in s.threads && Counted(s.threads[t]) ensures s.server.activeRequests > 0 { CountedIsPositive(s, t); }
    assert Where(s.threads, Active) == set t | t in s.threads && Counted(s.threads[t]);
    assert Where(s.threads, Contender) == set t | t in s.threads && Contends(s.threads[t]);
    forall id | id in s.server.leases
      ensures s.server.leases[id].activeRequests == |set t | t in s.threads && Serves(s.threads[t], id)|
    {
      assert Where(s.threads, Of(id)) == set t | t in s.threads && Serves(s.threads[t], id);
    }
  }

  /** Pending keys are exactly those of the operations in flight, which are distinct, and
      cancelled keys are pending. */
  lemma KeysAreExact(run: seq<System>, actions: seq<Action>, i: nat)
    requires IsRun(run, actions) && i < |run|
    ensures var s := run[i];
            && (forall key :: key in s.server.pending <==> exists t ::
                t in s.threads && OpKey(s.threads[t]) == Some(key))
            && (forall t, u | t in s.threads && u in s.threads && OpKey(s.threads[t]) == OpKey(s.threads[u]) != None ::
                t == u)
            && s.server.cancelled <= s.server.pending
  {
    var s := run[i];
    RunKeepsInvariant(run, actions, i);
    assert Cancels.Cancels(s);
    hide Invariant, IsRun, Cancels.BeforeBody;
    forall key
      ensures key in s.server.pending <==> exists t :: t in s.threads && OpKey(s.threads[t]) == Some(key)
    {
      if key in s.server.pending {
        var t :| t in s.threads && key in Cancels.KeySet(s.threads[t]);
        assert OpKey(s.threads[t]) == Some(key);
      }
      if t :| t in s.threads && OpKey(s.threads[t]) == Some(key) {
        assert Cancels.ThreadKept(s, t, s.threads[t]);
      }
    }
    forall t, u | t in s.threads && u in s.threads && OpKey(s.threads[t]) == OpKey(s.threads[u]) != None
      ensures t == u
    {
      assert OpKey(s.threads[t]).value in Cancels.KeySet(s.threads[t]);
      assert OpKey(s.threads[u]).value in Cancels.KeySet(s.threads[u]);
    }
  }

  /** A lease with a request in flight has no deadline and is not expiring; an idle one with
      a timeout is due that long after its last request finished. */
  lemma DeadlinesAreRight(run: seq<System>, actions: seq<Action>, i: nat, id: LeaseId)
    requires IsRun(run, actions) && i < |run| && id in run[i].server.leases
    ensures var s, l := run[i], run[i].server.leases[id];
            && id in s.history.idleSince
            && ((exists t :: t in s.threads && Serves(s.threads[t], id)) ==> l.idleDeadline.None? && !l.expiring)
            && ((forall t | t in s.threads :: !Serves(s.threads[t], id)) ==>
                  if l.idleTimeout.Some? then l.idleDeadline == Some(s.history.idleSince[id] + l.idleTimeout.value)
                  else l.idleDeadline.None? && !l.expiring)
  {
    RunKeepsInvariant(run, actions, i);
    assert Accounting(run[i]) && Expiry.Expiry(run[i]);
    hide IsRun, InFlight, Contending, Using;
    CountsAreZero(run[i].threads);
  }

  /** At most one operation body or analysis slice at a time, and the running fields name
      the thread whose body it is. */
  lemma AtMostOneBody(run: seq<System>, actions: seq<Action>, i: nat)
    requires IsRun(run, actions) && i < |run|
    ensures var s := run[i];
            && (forall t, u | t in s.threads && u in s.threads && InBody(s.threads[t]) && InBody(s.threads[u]) ::
                t == u)
            && (forall t | t in s.threads && InBody(s.threads[t]) ::
                  !s.background.Slicing? && s.server.runningLease == s.threads[t].lease
                      && s.server.runningOp == s.threads[t].op)
            && (s.server.runningLease.Some? || s.server.runningOp.Some? ==> exists t ::
                t in s.threads && InBody(s.threads[t]))
  {
    RunKeepsInvariant(run, actions, i);
    assert Backend(run[i]);
    hide Invariant, IsRun;
  }

  // At a step that finds an operation contending for the backend, the background does not
  // get the backend, and enters a slice only if it already held it for that.
  lemma ContenderHoldsOff(s: System, a: Action, t: Tid)
    requires Accounting(s) && t in s.threads && Contends(s.threads[t]) && Next(s, a).To?
    ensures var n := Next(s, a).next;
            && (HasBackend(n.background) ==> HasBackend(s.background))
            && (n.background.Acquired? ==> s.background.Acquired?)
            && s.history.slices <= n.history.slices
            && n.history.slices + One(n.background.Acquired?) <= s.history.slices + One(s.background.Acquired?)
  {
    CountsAreZero(s.threads);
    hide InFlight, Contending, Using;
    match a
    case Global(m) =>
      GlobalBackend(s, m);
      hide GlobalStep;
    case OfRequest(u, m) =>
      RequestBackend(s, u, s.threads[u], m);
      hide RequestStep;
    case OfOp(u, m) =>
      SlicesKept(s, u, s.threads[u], m);
      hide OpStep;
    case OfBackground(m) =>
  }

  lemma SlicesKept(s: System, t: Tid, pc: Pc, a: OpMove)
    requires OpStep(s, t, pc, a).To?
    ensures var n := OpStep(s, t, pc, a).next; n.history.slices == s.history.slices && n.background == s.background
  {
    hide Announce, StartRunning, StopRunning, Discard, Unannounce;
  }

  /** From the step in which an operation announces itself until it has the backend: if the
      background analysis does not hold the backend it does not get it, and no slice
      begins. If it does, at most one slice begins, and only if the background was yet to
      enter the slice that it took the backend for. */
  lemma {:induction false} NoSliceOvertakes(run: seq<System>, actions: seq<Action>, i: nat, j: nat, t: Tid)
    requires IsRun(run, actions) && i <= j < |run|
    requires forall k | i <= k < j :: t in run[k].threads && Contends(run[k].threads[t])
    ensures HasBackend(run[j].background) ==> HasBackend(run[i].background)
    ensures run[j].background.Acquired? ==> run[i].background.Acquired?
    ensures run[i].history.slices <= run[j].history.slices
    ensures run[j].history.slices + One(run[j].background.Acquired?)
         <= run[i].history.slices + One(run[i].background.Acquired?)
    decreases j - i
  {
    hide Next, Accounting, HasBackend, One;
    if i < j {
      NoSliceOvertakes(run, actions, i, j - 1, t);
      RunKeepsInvariant(run, actions, j - 1);
      assert Next(run[j - 1], actions[j - 1]) == To(run[j - 1 + 1]);
      ContenderHoldsOff(run[j - 1], actions[j - 1], t);
    }
  }

  /** That one slice does occur: the background has taken the backend, an operation announces
      itself, and only then does the slice begin. */
  lemma SliceCanFollowAnnouncement(config: Config) returns (run: seq<System>, actions: seq<Action>)
    ensures IsRun(run, actions) && |run| == 5
    ensures run[3].threads == map[0 := Waiting(None, None)] && run[3].background.Acquired? && run[3].history.slices == 0
    ensures run[4].threads == map[0 := Waiting(None, None)] && run[4].background.Slicing? && run[4].history.slices == 1
  {
    actions := [OfBackground(BgAcquire), Global(Start(0, None)), OfOp(0, Announced(None)),
        OfBackground(BgCheck(false))];
    var unused := History({}, {}, map[], {}, {}, 0, false, false, false, Tenancy(map[], None));
    var a := System(config, FRESH, Free, map[], Polling, false, 0.0, unused);
    var b := a.(background := Acquired, lock := Analysis);
    var c := Spawn(b.(server := FRESH.(activeRequests := 1)), 0, InRequest(None));
    var d := Move(c.(server := c.server.(foregroundWaiters := 1)), 0, Waiting(None, None));
    var e := d.(background := Slicing, history := d.history.(slices := 1));
    assert Initial(a) && Next(a, actions[0]) == To(b);
    assert Next(b, actions[1]) == To(c);
    assert Next(c, actions[2]) == To(d) by { assert 0 in c.threads && c.threads[0] == InRequest(None); }
    assert Next(d, actions[3]) == To(e);
    hide Next;
    run := [a, b, c, d, e];
    assert d.threads == map[0 := Waiting(None, None)];
  }

  /** Once a lease is detached no body of an operation of it begins. */
  lemma DetachedLeaseRunsNothing(run: seq<System>, actions: seq<Action>, i: nat, j: nat, id: LeaseId, t: Tid)
    requires IsRun(run, actions) && i <= j < |actions|
    requires id in run[i].history.used && id !in run[i].server.leases
    requires t in run[j + 1].history.bodies - run[j].history.bodies
    ensures t in run[j].threads && run[j].threads[t].Checking? && run[j].threads[t].lease != Some(id)
  {
    RunOnlyGoesOn(run, actions, i, j);
    RunKeepsInvariant(run, actions, j);
    assert Next(run[j], actions[j]) == To(run[j + 1]);
    hide Next;
    Cancels.BodyBegins(run[j], actions[j], t);
  }

  /** An acknowledged cancellation of an operation whose body has not begun means that it
      never does. */
  lemma CancelledNeverRuns(run: seq<System>, actions: seq<Action>, i: nat, j: nat, t: Tid, op: OpId, u: Tid)
    requires IsRun(run, actions) && i < j < |run|
    requires actions[i] == OfRequest(t, CancelOf(op)) && t in run[i].threads && run[i].threads[t].InRequest?
        && run[i].threads[t].lease.Some?
    requires u in run[i].threads && OpKey(run[i].threads[u]) == Some(Key(run[i].threads[t].lease, op))
    requires u !in run[i].history.bodies
    ensures u !in run[j].history.bodies && (u in run[j].threads ==> !InBody(run[j].threads[u]))
  {
    hide Invariant, Later;
    RunKeepsInvariant(run, actions, i);
    assert Next(run[i], actions[i]) == To(run[i + 1]);
    CancelDooms(run[i], t, op, u);
    hide Next;
    RunOnlyGoesOn(run, actions, i + 1, j);
    RunKeepsInvariant(run, actions, j);
    DoomedNeverRuns(run[i + 1], run[j], u);
  }

  lemma CancelDooms(s: System, t: Tid, op: OpId, u: Tid)
    requires Invariant(s) && t in s.threads && s.threads[t].InRequest? && s.threads[t].lease.Some?
    requires u in s.threads && OpKey(s.threads[u]) == Some(Key(s.threads[t].lease, op)) && u !in s.history.bodies
    ensures RequestStep(s, t, s.threads[t], CancelOf(op)).To?
    ensures u in RequestStep(s, t, s.threads[t], CancelOf(op)).next.history.doomed
  {
    var key := Key(s.threads[t].lease, op);
    assert Cancels.ThreadKept(s, u, s.threads[u]);
    assert u in Reached(s, key);
    hide Invariant, Reached;
  }

  lemma DoomedNeverRuns(s: System, n: System, u: Tid)
    requires Later(s, n) && u in s.history.doomed && Invariant(n)
    ensures u !in n.history.bodies && (u in n.threads ==> !InBody(n.threads[u]))
  {
    assert Cancels.Recorded(n);
    if u in n.threads { assert Cancels.ThreadKept(n, u, n.threads[u]); }
  }

  /** The backend's running operation is told to stop exactly when the operation named by
      the cancellation is the one in its body; it then holds the backend itself. */
  lemma CancellationIsExact(run: seq<System>, actions: seq<Action>, i: nat, key: Key)
    requires IsRun(run, actions) && i < |run|
    ensures var s := run[i];
            && (CancelsActive(s.server, key) <==>
                exists t :: t in s.threads && InBody(s.threads[t]) && OpKey(s.threads[t]) == Some(key))
            && (CancelsActive(s.server, key) ==>
                  s.lock.Foreground? && s.lock.holder in s.threads && OpKey(s.threads[s.lock.holder]) == Some(key))
  {
    RunKeepsInvariant(run, actions, i);
    assert Backend(run[i]) && Cancels.Cancels(run[i]);
    Cancels.CancelHitsItsTarget(run[i], key);
  }

  /** A drain by the watchdog finds no lease, request or cleanup outstanding, and none ever
      enters afterwards. */
  lemma IdleDrainIsFinal(run: seq<System>, actions: seq<Action>, i: nat, j: nat)
    requires IsRun(run, actions) && i <= j < |run| && run[i].history.idleDrained
    ensures run[j].server.draining && run[j].server.leases == map[]
    ensures forall t | t in run[j].threads :: run[j].threads[t].AfterShutdown?
    ensures forall t | t in run[j].threads :: t in run[i].threads
  {
    RunOnlyGoesOn(run, actions, i, j);
    RunKeepsInvariant(run, actions, i);
    RunKeepsInvariant(run, actions, j);
    assert Shutdown.Committed(run[i]) && Shutdown.Committed(run[j]);
    hide IsRun, Invariant;
  }

  lemma {:induction false} ExpiredStaysRetired(run: seq<System>, actions: seq<Action>, i: nat, j: nat, id: LeaseId)
    requires IsRun(run, actions) && i <= j < |run|
    requires id in run[i].server.leases && run[i].server.leases[id].expiring
    ensures Expiry.Retired(run[j], id)
    ensures id in run[j].server.leases ==> run[j].server.leases[id] == run[i].server.leases[id]
    decreases j - i
  {
    hide Next, Expiry.Retired, Expiry.Expiry, Accounting;
    if i < j {
      ExpiredStaysRetired(run, actions, i, j - 1, id);
      RunKeepsInvariant(run, actions, j - 1);
      assert Next(run[j - 1], actions[j - 1]) == To(run[j - 1 + 1]);
      Expiry.RetiredStays(run[j - 1], actions[j - 1], id);
    } else {
      RunKeepsInvariant(run, actions, i);
      Expiry.ExpiringIsIdle(run[i], id);
    }
  }

  /** A lease marked expiring has had its idle timeout since its last request finished; no
      request of it is in flight then or ever again, and its deadline is not re-armed. */
  lemma ExpiryIsFinal(run: seq<System>, actions: seq<Action>, i: nat, j: nat, id: LeaseId)
    requires IsRun(run, actions) && i <= j < |run|
    requires id in run[i].server.leases && run[i].server.leases[id].expiring
    ensures run[i].server.leases[id].idleTimeout.Some? && id in run[i].history.idleSince
    ensures run[i].history.idleSince[id] + run[i].server.leases[id].idleTimeout.value <= run[i].now
    ensures forall t | t in run[j].threads :: !Serves(run[j].threads[t], id)
    ensures id in run[j].server.leases ==> run[j].server.leases[id] == run[i].server.leases[id]
  {
    ExpiredStaysRetired(run, actions, i, j, id);
    RunKeepsInvariant(run, actions, i);
    Expiry.ExpiringIsIdle(run[i], id);
  }

  /** A reply that shutdown is pending is never retracted: no lease is open and no request
      starts again. */
  lemma PromiseIsKept(run: seq<System>, actions: seq<Action>, i: nat, j: nat)
    requires IsRun(run, actions) && i <= j < |run| && run[i].history.promised
    ensures run[j].server.shutdownRequested && run[j].server.leases == map[] && run[j].server.shutdownAt.Some?
    ensures forall t | t in run[j].threads :: t in run[i].threads || Clearing(run[j].threads[t])
  {
    RunOnlyGoesOn(run, actions, i, j);
    RunKeepsInvariant(run, actions, i);
    RunKeepsInvariant(run, actions, j);
    assert Shutdown.Shutdown(run[i]) && Shutdown.Shutdown(run[j]);
    hide IsRun, Invariant;
  }

  /** After publication the shutdown deadline is armed exactly when there are no leases. */
  lemma ArmedWhenUnused(run: seq<System>, actions: seq<Action>, i: nat)
    requires IsRun(run, actions) && i < |run| && run[i].published
    ensures run[i].server.shutdownAt.Some? <==> run[i].server.leases == map[]
  {
    RunKeepsInvariant(run, actions, i);
    assert Shutdown.Armed(run[i]);
  }

  /** An accepted shutdown request means that its caller held the only lease and had the only
      request in flight; no body of an operation begins or runs from then on. */
  lemma AcceptedShutdownIsQuiet(run: seq<System>, actions: seq<Action>, i: nat, j: nat, t: Tid, save: bool)
    requires IsRun(run, actions) && i < j < |run|
    requires actions[i] == OfRequest(t, AskShutdown(save)) && t in run[i + 1].threads
        && run[i + 1].threads[t].ShutdownReply?
    ensures t in run[i].threads && run[i].threads[t].InRequest?
    ensures run[i].threads[t].lease.Some? && run[i].server.leases.Keys == {run[i].threads[t].lease.value}
    ensures forall u | u in run[i].threads && u != t :: !Counted(run[i].threads[u])
    ensures run[j].history.bodies == run[i].history.bodies
    ensures forall u | u in run[j].threads :: !IsOp(run[j].threads[u])
  {
    hide Invariant, Later;
    RunKeepsInvariant(run, actions, i);
    assert Next(run[i], actions[i]) == To(run[i + 1]);
    AskAccepted(run[i], t, save);
    hide Next;
    RunOnlyGoesOn(run, actions, i + 1, j);
    RunKeepsInvariant(run, actions, j);
    QuietAfterAccept(run[i + 1], run[j]);
  }

  lemma QuietAfterAccept(s: System, n: System)
    requires Later(s, n) && s.history.accepted && Invariant(n)
    ensures n.history.bodies == s.history.bodies && forall u | u in n.threads :: !IsOp(n.threads[u])
  {
    assert Shutdown.Committed(n);
    hide GoneStays, NothingStarts, Accounting, Backend, Cancels.Cancels, Expiry.Expiry;
  }

  lemma AskAccepted(s: System, t: Tid, save: bool)
    requires Invariant(s) && t in s.threads && RequestStep(s, t, s.threads[t], AskShutdown(save)).To?
    requires var n := RequestStep(s, t, s.threads[t], AskShutdown(save)).next;
        t in n.threads && n.threads[t].ShutdownReply?
    ensures s.threads[t].InRequest? && s.threads[t].lease.Some? && s.server.leases.Keys == {s.threads[t].lease.value}
    ensures forall u | u in s.threads && u != t :: !Counted(s.threads[u])
    ensures RequestStep(s, t, s.threads[t], AskShutdown(save)).next.history == s.history.(accepted := true)
  {
    assert Totals(s);
    hide Invariant, Totals;
    Shutdown.OnlyTheCaller(s, t);
  }
}
