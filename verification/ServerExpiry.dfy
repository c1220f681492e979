/** Idle expiry of leases, over every interleaving. */
module ServerExpiry {
  import opened Basics
  import opened ServerState
  import opened ServerProtocol

  // What holds of an open lease that last became idle at `since`.
  predicate IdleClock(l: Lease, since: real, now: real) {
    && l.activeRequests >= 0 && since <= now
    && l.stop == l.expiring
    && (l.activeRequests > 0 ==> l.idleDeadline.None? && !l.expiring)
    && (l.activeRequests == 0 && l.idleTimeout.Some? ==> l.idleDeadline == Some(since + l.idleTimeout.value))
    && (l.idleTimeout.None? ==> l.idleDeadline.None? && !l.expiring)
    && (l.expiring ==> since + l.idleTimeout.value <= now)
  }

  /** A lease with requests in flight has no deadline; an idle one is due its timeout after
      its last request finished, and is expiring only from then on. */
  ghost predicate Expiry(s: System) {
    forall id | id in s.server.leases ::
      && id in s.history.idleSince
      && IdleClock(s.server.leases[id], s.history.idleSince[id], s.now)
  }

  // ------------------------------------------------------------------- steps

  // A step outside operations leaves every lease alone, or ends one request of one lease.
  lemma RequestLeases(s: System, t: Tid, pc: Pc, a: RequestMove)
    requires t in s.threads && RequestStep(s, t, pc, a).To?
    ensures var n := RequestStep(s, t, pc, a).next;
            && n.now == s.now
            && ((n.server.leases == s.server.leases && n.history.idleSince == s.history.idleSince)
                || exists id: LeaseId ::
                     && Serves(pc, id) && n.history.idleSince == s.history.idleSince[id := s.now]
                     && n.server.leases == if id in s.server.leases
                         then s.server.leases[id := RequestLeft(s.server.leases[id], s.now)]
                                           else s.server.leases)
  {
    hide RequestLeft, Reached;
    if a.Finish? && pc.lease.Some? {
      assert Serves(pc, pc.lease.value);
    }
  }

  lemma RequestKeepsExpiry(s: System, t: Tid, a: RequestMove)
    requires Expiry(s) && Accounting(s) && t in s.threads && RequestStep(s, t, s.threads[t], a).To?
    ensures Expiry(RequestStep(s, t, s.threads[t], a).next)
  {
    if Counted(s.threads[t]) { CountedIsPositive(s, t); }
    RequestLeases(s, t, s.threads[t], a);
    hide RequestStep, Accounting;
  }

  // How a step outside threads changes the leases.
  predicate LeasesMove(s: System, n: System, a: GlobalMove) {
    match a
    case Open(id, keepalive, idle) =>
      n == s || (n.now == s.now && n.history.idleSince == s.history.idleSince[id := s.now]
                 && n.server.leases ==
                     s.server.leases[id := Lease(keepalive, idle, false, 0, ArmedDeadline(idle, s.now), false)])
    case Start(_, lease) =>
      && n.now == s.now && n.history.idleSince == s.history.idleSince
      && (n.server.leases == s.server.leases
          || (lease.Some? && lease.value in s.server.leases && !s.server.leases[lease.value].expiring
              && n.server.leases == s.server.leases[lease.value :=
                   s.server.leases[lease.value].(activeRequests := s.server.leases[lease.value].activeRequests + 1,
                       idleDeadline := None)]))
    case WatchPass =>
      n.now == s.now && n.history.idleSince == s.history.idleSince
          && n.server.leases == ExpireIdle(s.server.leases, s.now)
    case _ =>
      && n.now >= s.now && n.history.idleSince == s.history.idleSince && n.server.leases.Keys <= s.server.leases.Keys
      && forall id | id in n.server.leases :: n.server.leases[id] == s.server.leases[id]
  }

  lemma GlobalLeases(s: System, a: GlobalMove)
    requires GlobalStep(s, a).To?
    ensures LeasesMove(s, GlobalStep(s, a).next, a)
  {
    if a.DetachLease? {
      DetachedLeases(s.server, s.config.managed, a.id, s.now);
      hide Detach, ShutdownPending;
    } else if a.WatchPass? {
      hide ExpireIdle, IdleDrains;
    } else if a.Start? {
      hide Spawn;
    } else {
      hide ArmedDeadline;
    }
  }

  lemma DetachedLeases(s: Server, managed: bool, id: LeaseId, now: real)
    ensures Detach(s, managed, id, now).leases == if id in s.leases then s.leases - {id} else s.leases
  {
  }

  lemma GlobalKeepsExpiry(s: System, a: GlobalMove)
    requires Expiry(s) && GlobalStep(s, a).To?
    ensures Expiry(GlobalStep(s, a).next)
  {
    GlobalLeases(s, a);
    hide GlobalStep;
  }

  lemma StepKeepsExpiry(s: System, a: Action)
    requires Expiry(s) && Accounting(s) && Next(s, a).To?
    ensures Expiry(Next(s, a).next)
  {
    match a
    case Global(m) =>
      hide GlobalStep, Expiry, Accounting;
      GlobalKeepsExpiry(s, m);
    case OfRequest(t, m) =>
      hide RequestStep, Expiry, Accounting;
      RequestKeepsExpiry(s, t, m);
    case OfOp(t, m) =>
      OpCounts(s, t, s.threads[t], m);
      OpTimes(s, t, s.threads[t], m);
      hide OpStep, Accounting;
    case OfBackground(m) =>
      BackgroundLeaves(s, m);
      hide BackgroundStep, Accounting;
  }

  lemma OpTimes(s: System, t: Tid, pc: Pc, a: OpMove)
    requires OpStep(s, t, pc, a).To?
    ensures OpStep(s, t, pc, a).next.history.idleSince == s.history.idleSince && OpStep(s, t, pc, a).next.now == s.now
  {
    hide Announce, StartRunning, Discard;
  }

  // ----------------------------------------------------------- what follows

  // Nothing is going on, or will, for a lease that once was open.
  ghost predicate Retired(s: System, id: LeaseId) {
    && id in s.history.used
    && (id in s.server.leases ==> s.server.leases[id].expiring)
    && (forall t | t in s.threads :: !Serves(s.threads[t], id))
  }

  /** A lease is only marked expiring while no request of it is in flight, and not sooner
      than its idle timeout after the last one finished. */
  lemma ExpiringIsIdle(s: System, id: LeaseId)
    requires Expiry(s) && Accounting(s) && id in s.server.leases && s.server.leases[id].expiring
    ensures Retired(s, id)
    ensures var l := s.server.leases[id];
            && id in s.history.idleSince && l.idleTimeout.Some?
            && s.history.idleSince[id] + l.idleTimeout.value <= s.now
            && l.idleDeadline.Some?
  {
    hide Using, InFlight, Contending;
    CountsAreZero(s.threads);
  }

  // A lease that is expiring or gone gets no request; a used lease id is not opened again.
  lemma BegunServes(s: System, a: GlobalMove, id: LeaseId)
    requires GlobalStep(s, a).To? && (id in s.server.leases ==> s.server.leases[id].expiring)
    ensures forall t | t in Begun(s, a) ::
        t in GlobalStep(s, a).next.threads && !Serves(GlobalStep(s, a).next.threads[t], id)
    ensures s.history.used <= GlobalStep(s, a).next.history.used
    ensures a.Open? && id in s.history.used ==> a.id != id
  {
    hide ExpireIdle, IdleDrains, Detach, ShutdownPending, OpenLease, ArmGrace, Scan;
  }

  lemma RequestThreads(s: System, t: Tid, pc: Pc, a: RequestMove)
    requires t in s.threads && RequestStep(s, t, pc, a).To?
    ensures var n := RequestStep(s, t, pc, a).next;
            && OthersSame(s, n, {t}) && n.history.used == s.history.used
            && (t in n.threads && IsRequest(n.threads[t]) ==> IsRequest(pc) && n.threads[t].lease == pc.lease)
  {
    hide Cancel, RequestShutdown, Reached, FinishRequest, BeginShutdown;
  }

  /** From then on no request of that lease starts, and its deadline is not re-armed. */
  lemma RetiredStays(s: System, a: Action, id: LeaseId)
    requires Retired(s, id) && Accounting(s) && Next(s, a).To?
    ensures var n := Next(s, a).next;
            && Retired(n, id)
            && (id in n.server.leases ==> id in s.server.leases && n.server.leases[id] == s.server.leases[id])
  {
    var n := Next(s, a).next;
    match a
    case Global(m) =>
      GlobalLeases(s, m);
      BegunThreads(s, m);
      BegunServes(s, m, id);
      hide GlobalStep, Totals, PerLease, Begun;
    case OfRequest(t, m) =>
      RequestLeases(s, t, s.threads[t], m);
      RequestThreads(s, t, s.threads[t], m);
      hide RequestStep, Totals, PerLease;
    case OfOp(t, m) =>
      OpCounts(s, t, s.threads[t], m);
      hide OpStep, Totals, PerLease;
    case OfBackground(m) =>
      BackgroundLeaves(s, m);
      hide BackgroundStep, Totals, PerLease;
  }
}
