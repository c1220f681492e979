/** Operation keys and cancellations, over every interleaving. */
module ServerCancels {
  import opened Basics
  import opened ServerState
  import opened ServerProtocol

  function KeySet(pc: Pc): set<Key> {
    if OpKey(pc).Some? then {OpKey(pc).value} else {}
  }

  predicate BeforeBody(pc: Pc) {
    pc.InRequest? || pc.Waiting? || pc.Aborted? || pc.GotLock? || pc.Checking?
  }

  // An operation whose cancellation was acknowledged before its body began has its key
  // among the cancelled ones until it gives it up, and its body never begins.
  ghost predicate ThreadKept(s: System, t: Tid, pc: Pc) {
    && KeySet(pc) <= s.server.pending
    && (BeforeBody(pc) ==> t !in s.history.bodies)
    && (InBody(pc) ==> t in s.history.bodies)
    && (t in s.history.doomed ==> pc.Replying? || (KeySet(pc) != {} && KeySet(pc) <= s.server.cancelled))
  }

  ghost predicate Distinct(s: System) {
    forall t, u | t in s.threads && u in s.threads && t != u :: KeySet(s.threads[t]) !! KeySet(s.threads[u])
  }

  ghost predicate Owned(s: System) {
    forall key | key in s.server.pending :: exists t :: t in s.threads && key in KeySet(s.threads[t])
  }

  ghost predicate Recorded(s: System) {
    && s.history.bodies <= s.history.tids && s.history.doomed <= s.history.tids
    && s.history.bodies !! s.history.doomed
    && s.server.cancelled <= s.server.pending
  }

  /** The pending keys are exactly those of the operations in flight, no two of which share
      one; cancelled keys are pending; and no acknowledged cancellation is outrun. */
  ghost predicate Cancels(s: System) {
    && Recorded(s) && Distinct(s) && Owned(s)
    && (forall t | t in s.threads :: ThreadKept(s, t, s.threads[t]))
  }

  // ------------------------------------------------------------------- steps

  // An operation's step takes its key, keeps it, or gives it up.
  lemma OpKeys(s: System, t: Tid, pc: Pc, a: OpMove)
    requires t in s.threads && OpStep(s, t, pc, a).To? && KeySet(pc) <= s.server.pending
    ensures var n := OpStep(s, t, pc, a).next;
            && t in n.threads && n.threads == s.threads[t := n.threads[t]]
            && KeySet(n.threads[t]) - KeySet(pc) !! s.server.pending
            && n.server.pending == s.server.pending - KeySet(pc) + KeySet(n.threads[t])
  {
    hide StartRunning, StopRunning, Unannounce;
    var n := OpStep(s, t, pc, a).next;
    if a.Announced? {
    } else if a.DiscardKey? {
      assert KeySet(n.threads[t]) == {};
    } else {
      assert KeySet(n.threads[t]) == KeySet(pc);
      hide KeySet;
      RunningOnly(s.server);
    }
  }

  lemma OpForgets(s: System, t: Tid, pc: Pc, a: OpMove)
    requires t in s.threads && OpStep(s, t, pc, a).To? && KeySet(pc) <= s.server.pending
    ensures var n := OpStep(s, t, pc, a).next;
            && t in n.threads
            && n.server.cancelled == s.server.cancelled - (KeySet(pc) - KeySet(n.threads[t]))
            && n.history.doomed == s.history.doomed && n.history.tids == s.history.tids
  {
    hide StartRunning, StopRunning, Unannounce;
    var n := OpStep(s, t, pc, a).next;
    if a.Announced? {
      assert KeySet(pc) == {};
    } else if a.DiscardKey? {
      assert KeySet(n.threads[t]) == {};
    } else {
      assert KeySet(n.threads[t]) == KeySet(pc);
      hide KeySet;
      RunningOnly(s.server);
    }
  }

  // Waiting and running leave the keys alone.
  lemma RunningOnly(s: Server)
    ensures Unannounce(s).pending == s.pending && Unannounce(s).cancelled == s.cancelled
    ensures forall lease, op :: var n := StopRunning(s, lease, op); n.pending == s.pending && n.cancelled == s.cancelled
    ensures forall lease, op :: var n := StartRunning(s, lease, op);
                                n.Done? ==> n.server.pending == s.pending && n.server.cancelled == s.cancelled
  {
  }

  // A body begins only once, from `Checking`, and never for a cancelled key.
  lemma OpBodies(s: System, t: Tid, pc: Pc, a: OpMove)
    requires t in s.threads && OpStep(s, t, pc, a).To? && ThreadKept(s, t, pc)
    ensures var n := OpStep(s, t, pc, a).next;
            && (n.history.bodies == s.history.bodies
                || (n.history.bodies == s.history.bodies + {t} && t !in s.history.doomed))
            && t in n.threads && ThreadKept(n, t, n.threads[t])
  {
    OpKeys(s, t, pc, a);
    OpForgets(s, t, pc, a);
    var n := OpStep(s, t, pc, a).next;
    hide Announce, Discard, StopRunning, Unannounce;
    assert (BeforeBody(n.threads[t]) ==> BeforeBody(pc) && t !in n.history.bodies)
        && (InBody(n.threads[t]) ==> t in n.history.bodies);
    assert n.threads[t].Replying? || KeySet(pc) <= KeySet(n.threads[t]);
    if a.Check? && t in s.history.doomed { assert Key(pc.lease, pc.op.value) in KeySet(pc); }
  }

  lemma OpKeepsCancels(s: System, t: Tid, a: OpMove)
    requires Cancels(s) && Identities(s) && t in s.threads && OpStep(s, t, s.threads[t], a).To?
    ensures Cancels(OpStep(s, t, s.threads[t], a).next)
  {
    var n := OpStep(s, t, s.threads[t], a).next;
    OpKeys(s, t, s.threads[t], a);
    OpForgets(s, t, s.threads[t], a);
    OpBodies(s, t, s.threads[t], a);
    hide OpStep, KeySet;
    KeysMoved(s, n, t);
    hide Distinct, Owned;
    assert Recorded(n);
    forall u | u in n.threads && u != t
      ensures ThreadKept(n, u, n.threads[u])
    {
      assert ThreadKept(s, u, s.threads[u]);
      KeysApart(s, t, u);
    }
  }

  lemma KeysApart(s: System, t: Tid, u: Tid)
    requires Distinct(s) && t in s.threads && u in s.threads && t != u
    ensures KeySet(s.threads[t]) !! KeySet(s.threads[u])
  {
  }

  // Moving one thread, with the pending keys following it, keeps keys distinct and owned.
  lemma KeysMoved(s: System, n: System, t: Tid)
    requires t in s.threads && t in n.threads && n.threads == s.threads[t := n.threads[t]]
    requires KeySet(n.threads[t]) - KeySet(s.threads[t]) !! s.server.pending
    requires n.server.pending == s.server.pending - KeySet(s.threads[t]) + KeySet(n.threads[t])
    requires Distinct(s) && Owned(s) && forall u | u in s.threads :: KeySet(s.threads[u]) <= s.server.pending
    ensures Distinct(n) && Owned(n)
  {
    hide KeySet;
    forall u | u in n.threads && u != t
      ensures KeySet(n.threads[t]) !! KeySet(n.threads[u])
    {
      assert KeySet(s.threads[u]) !! KeySet(s.threads[t]) && KeySet(s.threads[u]) <= s.server.pending;
    }
    forall key | key in n.server.pending
      ensures exists u :: u in n.threads && key in KeySet(n.threads[u])
    {
      if key in KeySet(n.threads[t]) {
        assert t in n.threads;
      } else {
        var u :| u in s.threads && key in KeySet(s.threads[u]);
        assert u in n.threads && n.threads[u] == s.threads[u];
      }
    }
  }

  // No step outside operations touches a key; a cancellation reaches the operation named.
  lemma RequestKeys(s: System, t: Tid, pc: Pc, a: RequestMove)
    requires t in s.threads && RequestStep(s, t, pc, a).To?
    ensures var n := RequestStep(s, t, pc, a).next;
            && KeySet(pc) == {}
            && (n.threads == s.threads - {t}
                || (t in n.threads && n.threads == s.threads[t := n.threads[t]] && KeySet(n.threads[t]) == {}
                    && !BeforeBody(n.threads[t]) && !InBody(n.threads[t]) && !pc.Replying?))
  {
    hide FinishRequest, BeginShutdown, Reached, RequestShutdown, Cancel;
  }

  // Between `s` and `n` at most one operation was cancelled.
  ghost predicate Cancelling(s: System, n: System) {
    && n.server.pending == s.server.pending
    && n.history.bodies == s.history.bodies && n.history.tids == s.history.tids
    && ((n.server.cancelled == s.server.cancelled && n.history.doomed == s.history.doomed)
        || exists key :: key in s.server.pending && n.server.cancelled == s.server.cancelled + {key}
                         && n.history.doomed == s.history.doomed + Reached(s, key))
  }

  lemma RequestCancels(s: System, t: Tid, pc: Pc, a: RequestMove)
    requires t in s.threads && RequestStep(s, t, pc, a).To?
    ensures Cancelling(s, RequestStep(s, t, pc, a).next)
  {
    if a.CancelOf? && pc.lease.Some? && Key(pc.lease, a.op) in s.server.pending {
      hide RequestShutdown, Reached, FinishRequest, BeginShutdown;
      var key := Key(pc.lease, a.op);
      assert RequestStep(s, t, pc, a).next.server.cancelled == s.server.cancelled + {key};
    } else {
      hide Reached;
    }
  }

  lemma OtherKept(s: System, n: System, t: Tid)
    requires Cancelling(s, n) && t in s.threads && ThreadKept(s, t, s.threads[t])
    ensures ThreadKept(n, t, s.threads[t])
    ensures KeySet(s.threads[t]) == {} ==> (t in n.history.doomed <==> t in s.history.doomed)
  {
    DoomedReached(s);
    hide KeySet, Reached, BeforeBody, InBody;
  }

  lemma RequestKeepsCancels(s: System, t: Tid, a: RequestMove)
    requires Cancels(s) && Identities(s) && t in s.threads && RequestStep(s, t, s.threads[t], a).To?
    ensures Cancels(RequestStep(s, t, s.threads[t], a).next)
  {
    var n := RequestStep(s, t, s.threads[t], a).next;
    RequestKeys(s, t, s.threads[t], a);
    RequestCancels(s, t, s.threads[t], a);
    hide RequestStep;
    forall u | u in s.threads ensures ThreadKept(n, u, s.threads[u]) { OtherKept(s, n, u); }
    OtherKept(s, n, t);
    DoomedReached(s);
    hide Reached, Distinct, Owned, BeforeBody, InBody;
    assert Recorded(n);
    if t in n.threads { assert ThreadKept(n, t, n.threads[t]); }
    assert forall u | u in n.threads :: ThreadKept(n, u, n.threads[u]);
    KeysLeft(s, n, {t});
  }

  lemma DoomedReached(s: System)
    ensures forall key: Key, t | t in Reached(s, key) ::
        t in s.threads && KeySet(s.threads[t]) == {key} && t !in s.history.bodies
  {
  }

  lemma KeysLeft(s: System, n: System, moved: set<Tid>)
    requires OthersSame(s, n, moved) && n.server.pending == s.server.pending
    requires forall t | t in moved && t in s.threads :: KeySet(s.threads[t]) == {}
    requires forall t | t in moved && t in n.threads :: KeySet(n.threads[t]) == {}
    requires Distinct(s) && Owned(s)
    ensures Distinct(n) && Owned(n)
  {
    hide KeySet;
    forall key | key in n.server.pending
      ensures exists u :: u in n.threads && key in KeySet(n.threads[u])
    {
      var u :| u in s.threads && key in KeySet(s.threads[u]);
      assert u !in moved && u in n.threads && n.threads[u] == s.threads[u];
    }
  }

  lemma GlobalCancels(s: System, a: GlobalMove)
    requires GlobalStep(s, a).To?
    ensures var n := GlobalStep(s, a).next;
            && n.server.pending == s.server.pending && n.server.cancelled == s.server.cancelled
            && n.history.bodies == s.history.bodies && n.history.doomed == s.history.doomed
  {
    LeasesOnly(s.server);
    hide IdleDrains, ShutdownPending, Detach, OpenLease, StartRequest, ArmGrace, Scan;
  }

  // What is recorded of a thread only depends on keys and history.
  lemma SameRecords(s: System, n: System)
    requires n.server.pending == s.server.pending && n.server.cancelled == s.server.cancelled
    requires n.history.bodies == s.history.bodies && n.history.doomed == s.history.doomed
    ensures forall t, pc :: ThreadKept(n, t, pc) <==> ThreadKept(s, t, pc)
  {
    hide KeySet, BeforeBody, InBody;
  }

  lemma FreshKept(s: System, t: Tid, pc: Pc)
    requires Recorded(s) && t !in s.history.tids && (pc.InRequest? || pc.Closing?)
    ensures ThreadKept(s, t, pc) && KeySet(pc) == {}
  {
  }

  lemma GlobalKeepsCancels(s: System, a: GlobalMove)
    requires Cancels(s) && Identities(s) && GlobalStep(s, a).To?
    ensures Cancels(GlobalStep(s, a).next)
  {
    var n := GlobalStep(s, a).next;
    GlobalCancels(s, a);
    BegunThreads(s, a);
    hide GlobalStep, Begun;
    SameRecords(s, n);
    forall t | t in Begun(s, a) ensures ThreadKept(s, t, Begun(s, a)[t]) && KeySet(n.threads[t]) == {} {
      FreshKept(s, t, Begun(s, a)[t]);
    }
    assert Recorded(n);
    hide KeySet, ThreadKept, Recorded, Distinct, Owned;
    KeysLeft(s, n, Begun(s, a).Keys);
  }

  lemma BackgroundKeepsCancels(s: System, a: BackgroundMove)
    requires Cancels(s) && BackgroundStep(s, a).To?
    ensures Cancels(BackgroundStep(s, a).next)
  {
    BackgroundLeaves(s, a);
    SameRecords(s, BackgroundStep(s, a).next);
    hide BackgroundStep, KeySet, ThreadKept;
  }

  lemma StepKeepsCancels(s: System, a: Action)
    requires Cancels(s) && Accounting(s) && Next(s, a).To?
    ensures Cancels(Next(s, a).next)
  {
    hide Cancels, Totals, PerLease;
    match a
    case Global(m) =>
      hide GlobalStep;
      GlobalKeepsCancels(s, m);
    case OfRequest(t, m) =>
      hide RequestStep;
      RequestKeepsCancels(s, t, m);
    case OfOp(t, m) =>
      hide OpStep;
      OpKeepsCancels(s, t, m);
    case OfBackground(m) =>
      hide BackgroundStep;
      BackgroundKeepsCancels(s, m);
  }

  // ----------------------------------------------------------- what follows

  /** A cancellation stops the backend's running operation exactly when the operation it
      names is the one in its body; that operation then holds the backend, so no successor
      can be hit. */
  lemma CancelHitsItsTarget(s: System, key: Key)
    requires Backend(s) && Cancels(s)
    ensures CancelsActive(s.server, key) <==> exists t ::
        t in s.threads && InBody(s.threads[t]) && OpKey(s.threads[t]) == Some(key)
    ensures forall t | CancelsActive(s.server, key) && s.lock == Foreground(t) ::
        t in s.threads && OpKey(s.threads[t]) == Some(key)
    ensures CancelsActive(s.server, key) ==> s.lock.Foreground?
  {
    hide Distinct, Owned, Recorded;
    if CancelsActive(s.server, key) {
      var t :| t in s.threads && InBody(s.threads[t]);
      assert OpKey(s.threads[t]) == Some(key) && s.lock == Foreground(t);
    }
    forall t | t in s.threads && InBody(s.threads[t]) && OpKey(s.threads[t]) == Some(key)
      ensures CancelsActive(s.server, key)
    {
      assert ThreadKept(s, t, s.threads[t]);
    }
  }

  /** A body begins only for an operation whose key is not cancelled and whose lease, if it
      has one, is open; its thread holds the backend, and is the one named. */
  lemma BodyBegins(s: System, a: Action, t: Tid)
    requires Backend(s) && Next(s, a).To? && t in Next(s, a).next.history.bodies - s.history.bodies
    ensures var n := Next(s, a).next;
            && a == OfOp(t, Check) && t in s.threads && s.threads[t].Checking? && s.lock == Foreground(t)
            && n.threads == s.threads[t := Running(s.threads[t].lease, s.threads[t].op)]
            && (s.threads[t].lease.Some? ==> s.threads[t].lease.value in s.server.leases)
            && KeySet(s.threads[t]) !! s.server.cancelled
            && n.server.runningLease == s.threads[t].lease && n.server.runningOp == s.threads[t].op
  {
    match a
    case Global(m) => GlobalCancels(s, m);
    case OfRequest(u, m) => RequestCancels(s, u, s.threads[u], m);
    case OfOp(u, m) =>
      hide Announce, Discard, StopRunning, Unannounce;
      assert m.Check?;
    case OfBackground(m) => BackgroundLeaves(s, m);
  }
}
