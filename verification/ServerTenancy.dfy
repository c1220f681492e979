/** For whom, and until when, the server is kept running, over every interleaving. */
module ServerTenancy {
  import opened Basics
  import opened ServerState
  import opened ServerProtocol

  function Deadline(left: Option<Left>): Option<real> {
    if left.Some? then Some(left.value.since + left.value.allowance) else None
  }

  predicate OnTerms(l: Lease, t: Terms) {
    l.keepalive == t.keepalive && l.idleTimeout == t.idleTimeout
  }

  // Every open lease has the terms it was opened with.
  ghost predicate TermsKept(s: System) {
    forall id | id in s.server.leases ::
      id in s.history.tenancy.terms && OnTerms(s.server.leases[id], s.history.tenancy.terms[id])
  }

  /** Without a lease the shutdown deadline is the time the server was left plus what was
      allowed then, from publication on. */
  ghost predicate Tenanted(s: System) {
    && TermsKept(s)
    && (s.server.leases == map[] ==>
          && s.server.shutdownAt == Deadline(s.history.tenancy.left)
          && (s.published || s.server.shutdownRequested ==> s.history.tenancy.left.Some?))
    && s.server.activeLeases == |s.server.leases|
  }

  // ------------------------------------------------------------------- steps

  // A step that neither opens, detaches nor publishes leaves all of that alone.
  predicate SameTenancy(s: System, n: System) {
    && n.server.leases.Keys == s.server.leases.Keys && n.server.shutdownAt == s.server.shutdownAt
    && n.server.activeLeases == s.server.activeLeases
    && n.published == s.published && n.history.tenancy == s.history.tenancy
    && (n.server.shutdownRequested && !s.server.shutdownRequested ==> s.server.leases != map[])
    && forall id | id in s.server.leases ::
         && n.server.leases[id].keepalive == s.server.leases[id].keepalive
         && n.server.leases[id].idleTimeout == s.server.leases[id].idleTimeout
  }

  lemma SameStaysTenanted(s: System, n: System)
    requires Tenanted(s) && SameTenancy(s, n)
    ensures Tenanted(n)
  {
    assert n.server.leases == map[] <==> n.server.leases.Keys == {};
    assert s.server.leases == map[] <==> s.server.leases.Keys == {};
    assert |n.server.leases| == |n.server.leases.Keys| == |s.server.leases.Keys| == |s.server.leases|;
  }

  lemma RequestTenancy(s: System, t: Tid, pc: Pc, a: RequestMove)
    requires t in s.threads && RequestStep(s, t, pc, a).To?
    ensures SameTenancy(s, RequestStep(s, t, pc, a).next)
  {
    if a.Finish? || a.EndClose? {
      var lease := if a.Finish? then pc.lease else None;
      RequestsOnly(s.server);
      FinishKeepsTerms(s.server, lease, s.now);
      hide FinishRequest;
    } else {
      OtherTenancy(s, t, pc, a);
      hide RequestStep;
    }
  }

  lemma FinishKeepsTerms(s: Server, lease: Option<LeaseId>, now: real)
    ensures var n := FinishRequest(s, lease, now);
            && n.leases.Keys == s.leases.Keys
            && forall id | id in s.leases ::
                 n.leases[id].keepalive == s.leases[id].keepalive
                     && n.leases[id].idleTimeout == s.leases[id].idleTimeout
  {
  }

  lemma OtherTenancy(s: System, t: Tid, pc: Pc, a: RequestMove)
    requires t in s.threads && RequestStep(s, t, pc, a).To? && !a.Finish? && !a.EndClose?
    ensures SameTenancy(s, RequestStep(s, t, pc, a).next)
  {
    RequestsOnly(s.server);
    hide Cancel, BeginShutdown, Reached, FinishRequest;
    if !a.AskShutdown? { hide RequestShutdown; }
  }

  lemma OpTenancy(s: System, t: Tid, pc: Pc, a: OpMove)
    requires t in s.threads && OpStep(s, t, pc, a).To?
    ensures SameTenancy(s, OpStep(s, t, pc, a).next)
  {
    OpsOnly(s.server);
    hide Announce, Unannounce, StartRunning, StopRunning, Discard, KeyOf, OpKey;
  }

  lemma OpenStaysTenanted(s: System, a: GlobalMove)
    requires Tenanted(s) && a.Open? && GlobalStep(s, a).To?
    ensures Tenanted(GlobalStep(s, a).next)
  {
  }

  lemma PublishStaysTenanted(s: System, a: GlobalMove)
    requires Tenanted(s) && a.Publish? && GlobalStep(s, a).To?
    ensures Tenanted(GlobalStep(s, a).next)
  {
    assert |s.server.leases| == 0 <==> s.server.leases == map[];
  }

  lemma DetachedServer(s: Server, managed: bool, id: LeaseId, now: real)
    requires id in s.leases
    ensures var n := Detach(s, managed, id, now);
            && n.leases == s.leases - {id} && n.activeLeases == |n.leases|
            && (n.leases == map[] <==> s.leases.Keys == {id})
            && (n.leases == map[] ==> n.shutdownAt == Some(now + s.leases[id].keepalive))
  {
    var leases := s.leases - {id};
    assert |leases| == 0 <==> leases == map[];
    assert leases.Keys == s.leases.Keys - {id};
    assert leases == map[] <==> leases.Keys == {};
  }

  lemma DetachStaysTenanted(s: System, a: GlobalMove)
    requires Tenanted(s) && a.DetachLease? && GlobalStep(s, a).To?
    ensures Tenanted(GlobalStep(s, a).next)
  {
    hide Tenanted;
    if a.id in s.server.leases {
      OpenLeaseDetached(s, a);
    } else {
      NothingDetached(s, a);
      SameStaysTenanted(s, GlobalStep(s, a).next);
    }
  }

  lemma OpenLeaseDetached(s: System, a: GlobalMove)
    requires Tenanted(s) && a.DetachLease? && a.id in s.server.leases && GlobalStep(s, a).To?
    ensures Tenanted(GlobalStep(s, a).next)
  {
    var n := GlobalStep(s, a).next;
    DetachedServer(s.server, s.config.managed, a.id, s.now);
    hide Detach, ShutdownPending;
    assert n.server == Detach(s.server, s.config.managed, a.id, s.now) && n.history.tenancy == LeftBy(s, a.id);
    hide GlobalStep;
    assert TermsKept(n);
  }

  lemma NothingDetached(s: System, a: GlobalMove)
    requires a.DetachLease? && a.id !in s.server.leases && GlobalStep(s, a).To?
    ensures SameTenancy(s, GlobalStep(s, a).next)
  {
    NothingToDetach(s.server, s.config.managed, a.id, s.now);
    hide Detach, ShutdownPending;
    assert s.server.leases.Keys != {a.id};
  }

  lemma NothingToDetach(s: Server, managed: bool, id: LeaseId, now: real)
    requires id !in s.leases
    ensures Detach(s, managed, id, now) == s
  {
  }

  lemma OtherGlobalTenancy(s: System, a: GlobalMove)
    requires (a.Tick? || a.Start? || a.WatchPass?) && GlobalStep(s, a).To?
    ensures SameTenancy(s, GlobalStep(s, a).next)
  {
    hide IdleDrains;
  }

  lemma StepStaysTenanted(s: System, a: Action)
    requires Tenanted(s) && Next(s, a).To?
    ensures Tenanted(Next(s, a).next)
  {
    hide Tenanted, SameTenancy;
    match a
    case Global(m) =>
      hide GlobalStep;
      match m {
        case Open(_, _, _) => OpenStaysTenanted(s, m);
        case Publish => PublishStaysTenanted(s, m);
        case DetachLease(_, _) => DetachStaysTenanted(s, m);
        case _ =>
          OtherGlobalTenancy(s, m);
          SameStaysTenanted(s, Next(s, a).next);
      }
    case OfRequest(t, m) =>
      RequestTenancy(s, t, s.threads[t], m);
      hide RequestStep;
      SameStaysTenanted(s, Next(s, a).next);
    case OfOp(t, m) =>
      OpTenancy(s, t, s.threads[t], m);
      hide OpStep;
      SameStaysTenanted(s, Next(s, a).next);
    case OfBackground(m) =>
      BackgroundTenancy(s, m);
      hide BackgroundStep;
      SameStaysTenanted(s, Next(s, a).next);
  }

  lemma BackgroundTenancy(s: System, a: BackgroundMove)
    requires BackgroundStep(s, a).To?
    ensures SameTenancy(s, BackgroundStep(s, a).next)
  {
    BackgroundLeaves(s, a);
    hide BackgroundStep;
  }
}
