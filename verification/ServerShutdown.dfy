/** The shutdown deadline, drains and shutdown requests, over every interleaving. */
module ServerShutdown {
  import opened Basics
  import opened ServerState
  import opened ServerProtocol

  /** The shutdown deadline is armed exactly when there are no leases, from publication on. */
  predicate Armed(s: System) {
    && (s.server.leases != map[] ==> s.server.shutdownAt.None?)
    && ((s.published || s.server.shutdownRequested) && s.server.leases == map[] ==> s.server.shutdownAt.Some?)
  }

  predicate Ending(pc: Pc) {
    pc.ShutdownReply? || pc.AfterShutdown? || pc.Closing? || pc.Cleaning?
  }

  ghost predicate AllEnding(threads: map<Tid, Pc>) {
    forall t | t in threads :: Ending(threads[t])
  }

  ghost predicate NoneCounted(threads: map<Tid, Pc>) {
    forall t | t in threads :: !Counted(threads[t])
  }

  // What the ways of shutting down have committed the server to.
  ghost predicate Committed(s: System) {
    && (s.history.promised ==> s.server.shutdownRequested && s.server.leases == map[])
    && (s.history.accepted ==> s.server.shutdownRequested && AllEnding(s.threads))
    && (s.history.idleDrained ==>
          s.server.draining && s.server.leases == map[] && NoneCounted(s.threads))
    && (s.server.draining ==> s.history.idleDrained || s.server.shutdownRequested)
  }

  ghost predicate Shutdown(s: System) {
    Armed(s) && Committed(s)
  }

  // ------------------------------------------------------------------- steps

  // What a step has to leave be for nothing that was committed to be undone.
  predicate Flags(s: System, n: System) {
    && (s.server.draining ==> n.server.draining)
    && (s.server.shutdownRequested ==> n.server.shutdownRequested)
    && (s.history.promised ==> n.history.promised)
    && (s.history.accepted ==> n.history.accepted)
    && (s.history.idleDrained ==> n.history.idleDrained)
  }

  lemma OpShutdown(s: System, t: Tid, pc: Pc, a: OpMove)
    requires t in s.threads && OpStep(s, t, pc, a).To?
    ensures var n := OpStep(s, t, pc, a).next;
            && n.server.leases == s.server.leases && n.server.shutdownAt == s.server.shutdownAt
            && n.server.draining == s.server.draining && n.server.shutdownRequested == s.server.shutdownRequested
            && !Ending(pc) && Counted(pc) && OthersSame(s, n, {t})
            && n.published == s.published && n.history.promised == s.history.promised
            && n.history.accepted == s.history.accepted && n.history.idleDrained == s.history.idleDrained
  {
    OpsOnly(s.server);
    hide KeyOf, OpKey, Announce, Unannounce, StartRunning, StopRunning, Discard;
  }

  lemma OpKeepsShutdown(s: System, t: Tid, a: OpMove)
    requires Shutdown(s) && t in s.threads && OpStep(s, t, s.threads[t], a).To?
    ensures Shutdown(OpStep(s, t, s.threads[t], a).next)
  {
    OpShutdown(s, t, s.threads[t], a);
    hide OpStep;
  }

  // A request leaves, moves on, or is an accepted shutdown request: the only lease and the
  // only request are then the caller's.
  lemma RequestShutdownStep(s: System, t: Tid, pc: Pc, a: RequestMove)
    requires t in s.threads && RequestStep(s, t, pc, a).To?
    ensures var n := RequestStep(s, t, pc, a).next;
            && Flags(s, n) && OthersSame(s, n, {t})
            && n.server.leases.Keys == s.server.leases.Keys && n.server.shutdownAt == s.server.shutdownAt
            && n.published == s.published
            && n.history.promised == s.history.promised && n.history.idleDrained == s.history.idleDrained
            && (n.server.draining ==> s.server.draining || s.server.shutdownRequested)
            && (t in n.threads ==> (Ending(pc) ==> Ending(n.threads[t])) && (!Counted(pc) ==> !Counted(n.threads[t])))
            && (n.server.shutdownRequested != s.server.shutdownRequested || n.history.accepted != s.history.accepted ==>
                  Accepts(s, n, t, pc))
  {
    RequestsOnly(s.server);
    if a.AskShutdown? {
      hide FinishRequest, Cancel, Reached, BeginShutdown;
    } else {
      hide RequestShutdown, FinishRequest, Reached, Cancel, BeginShutdown;
    }
  }

  // The state in which, and the state after, a shutdown request is accepted.
  predicate Accepts(s: System, n: System, t: Tid, pc: Pc) {
    && s.config.managed && !s.config.gui
    && pc.InRequest? && pc.lease.Some? && s.server.leases.Keys == {pc.lease.value}
    && s.server.activeRequests == 1 && s.server.runningOp.None? && s.server.pending == {}
    && n.server.shutdownRequested && n.history.accepted
    && t in n.threads && n.threads[t] == ShutdownReply(pc.lease)
  }

  lemma OnlyTheCaller(s: System, t: Tid)
    requires Totals(s) && s.server.activeRequests == 1 && t in s.threads && Counted(s.threads[t])
    ensures forall u | u in s.threads && u != t :: s.threads[u].AfterShutdown?
  {
    forall u | u in s.threads && u != t
      ensures s.threads[u].AfterShutdown?
    {
      if Counted(s.threads[u]) { CountOne(s.threads, Active, t, u); }
    }
  }

  lemma RequestThreads(s: System, t: Tid, a: RequestMove)
    requires Totals(s) && t in s.threads && RequestStep(s, t, s.threads[t], a).To?
    ensures var n := RequestStep(s, t, s.threads[t], a).next;
            && (AllEnding(s.threads) ==> AllEnding(n.threads))
            && (NoneCounted(s.threads) ==> NoneCounted(n.threads))
            && (n.history.accepted && !s.history.accepted ==> n.server.shutdownRequested && AllEnding(n.threads))
  {
    var pc, n := s.threads[t], RequestStep(s, t, s.threads[t], a).next;
    RequestShutdownStep(s, t, pc, a);
    hide RequestStep;
    if Accepts(s, n, t, pc) { OnlyTheCaller(s, t); }
    hide Totals;
  }

  lemma RequestKeepsShutdown(s: System, t: Tid, a: RequestMove)
    requires Shutdown(s) && Accounting(s) && t in s.threads && RequestStep(s, t, s.threads[t], a).To?
    ensures Shutdown(RequestStep(s, t, s.threads[t], a).next)
  {
    var n := RequestStep(s, t, s.threads[t], a).next;
    RequestThreads(s, t, a);
    RequestShutdownStep(s, t, s.threads[t], a);
    hide RequestStep, Accounting, AllEnding, NoneCounted;
    assert n.server.leases == map[] <==> n.server.leases.Keys == {};
    assert s.server.leases == map[] <==> s.server.leases.Keys == {};
  }

  // While shutting down only cleanups of leases still open begin.
  lemma BegunWhileEnding(s: System, a: GlobalMove)
    requires GlobalStep(s, a).To? && ShuttingDown(s)
    ensures forall t | t in Begun(s, a) :: Begun(s, a)[t].Closing?
    ensures GlobalStep(s, a).next.server.leases.Keys <= s.server.leases.Keys
    ensures s.server.leases == map[] ==> Begun(s, a) == map[]
  {
    LeaseKeys(s.server);
    hide ShutdownPending, IdleDrains, Detach, OpenLease, ArmGrace, Scan;
  }

  lemma LastDetached(s: Server, managed: bool, id: LeaseId, now: real)
    requires s.activeLeases == |s.leases|
    ensures var n := Detach(s, managed, id, now);
            && n.draining == s.draining && (s.shutdownRequested ==> n.shutdownRequested)
            && (id in s.leases && n.leases == map[] ==> n.shutdownAt.Some?)
            && (n.leases != map[] || id !in s.leases ==>
                n.shutdownAt == s.shutdownAt && n.shutdownRequested == s.shutdownRequested)
            && (ShutdownPending(s, managed, id) ==> n.shutdownRequested && n.leases == map[])
            && (n.leases != map[] ==> s.leases != map[])
  {
    var leases := s.leases - {id};
    assert |leases| == 0 <==> leases == map[];
    assert |s.leases| == 0 <==> s.leases == map[];
  }

  lemma DetachShutdown(s: System, t: Tid, id: LeaseId)
    requires Armed(s) && s.server.activeLeases == |s.server.leases|
    ensures var n := StepDetach(s, t, id);
            && Flags(s, n) && Armed(n)
            && n.history.accepted == s.history.accepted && n.history.idleDrained == s.history.idleDrained
            && n.server.draining == s.server.draining
            && (n.history.promised && !s.history.promised ==> n.server.shutdownRequested && n.server.leases == map[])
  {
    LastDetached(s.server, s.config.managed, id, s.now);
    hide Detach, ShutdownPending;
  }

  // A drain by the watchdog finds no lease and no request or cleanup in flight.
  lemma IdleMeansIdle(s: System)
    requires Totals(s) && IdleDrains(s.server, s.now)
    ensures s.server.leases == map[] && NoneCounted(s.threads)
  {
    hide InFlight, Contending;
    CountsAreZero(s.threads);
    assert |s.server.leases| == 0 <==> s.server.leases == map[];
  }

  lemma GlobalShutdown(s: System, a: GlobalMove)
    requires Armed(s) && Totals(s) && GlobalStep(s, a).To?
    ensures var n := GlobalStep(s, a).next;
            && Flags(s, n) && Armed(n)
            && n.history.accepted == s.history.accepted
            && (n.history.promised && !s.history.promised ==> n.server.shutdownRequested && n.server.leases == map[])
            && (n.server.draining && !s.server.draining ==> n.history.idleDrained)
            && (n.history.idleDrained && !s.history.idleDrained ==>
                  n.server.draining && n.server.leases == map[] && s.server.leases == map[]
                  && n.threads == s.threads && NoneCounted(s.threads))
  {
    hide ExpireIdle;
    assert |s.server.leases| == 0 <==> s.server.leases == map[];
    if a.DetachLease? {
      DetachShutdown(s, a.t, a.id);
      hide StepDetach, InFlight, Contending;
    } else if a.WatchPass? {
      if IdleDrains(s.server, s.now) { IdleMeansIdle(s); }
      hide IdleDrains, InFlight, Contending;
      assert GlobalStep(s, a).next.server.leases.Keys == s.server.leases.Keys by { ScanKeys(s.server, s.now); }
    } else {
      hide InFlight, Contending;
    }
  }

  lemma ScanKeys(s: Server, now: real)
    ensures Scan(s, now).leases.Keys == s.leases.Keys
  {
  }

  lemma GlobalThreads(s: System, a: GlobalMove)
    requires GlobalStep(s, a).To? && ShuttingDown(s)
    ensures var n := GlobalStep(s, a).next;
            && n.server.leases.Keys <= s.server.leases.Keys
            && (AllEnding(s.threads) ==> AllEnding(n.threads))
            && (s.server.leases == map[] && NoneCounted(s.threads) ==> NoneCounted(n.threads))
  {
    BegunThreads(s, a);
    BegunWhileEnding(s, a);
    hide GlobalStep, StartRequest;
  }

  lemma GlobalKeepsShutdown(s: System, a: GlobalMove)
    requires Shutdown(s) && Accounting(s) && GlobalStep(s, a).To?
    ensures Shutdown(GlobalStep(s, a).next)
  {
    var n := GlobalStep(s, a).next;
    GlobalShutdown(s, a);
    if ShuttingDown(s) { GlobalThreads(s, a); }
    hide GlobalStep, Accounting, Armed, AllEnding, NoneCounted;
    assert s.server.leases == map[] && n.server.leases.Keys <= s.server.leases.Keys ==> n.server.leases == map[];
  }

  lemma StepKeepsShutdown(s: System, a: Action)
    requires Shutdown(s) && Accounting(s) && Next(s, a).To?
    ensures Shutdown(Next(s, a).next)
  {
    match a
    case Global(m) =>
      hide GlobalStep, Shutdown, Accounting;
      GlobalKeepsShutdown(s, m);
    case OfRequest(t, m) =>
      hide RequestStep, Shutdown, Accounting;
      RequestKeepsShutdown(s, t, m);
    case OfOp(t, m) =>
      hide OpStep, Shutdown, Accounting;
      OpKeepsShutdown(s, t, m);
    case OfBackground(m) =>
      BackgroundLeaves(s, m);
      hide BackgroundStep, Accounting;
  }
}
