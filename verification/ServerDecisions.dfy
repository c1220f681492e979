/** When exactly the server lets something happen, in every reachable state: each result says
    what a step does in terms of what went before, both ways. */
module ServerDecisions {
  import opened Basics
  import opened ServerState
  import opened ServerProtocol
  import opened ServerRuns
  import Answers = ServerAnswers
  import Cancels = ServerCancels
  import Expiry = ServerExpiry
  import Shutdown = ServerShutdown
  import Tenancies = ServerTenancy

  lemma StepAt(run: seq<System>, actions: seq<Action>, i: nat)
    requires IsRun(run, actions) && i < |actions|
    ensures |run| == |actions| + 1
    ensures Invariant(run[i]) && Next(run[i], actions[i]) == To(run[i + 1])
  {
    hide Invariant, Next;
    RunKeepsInvariant(run, actions, i);
  }

  // The parts of the invariant.
  lemma Parts(s: System)
    requires Invariant(s)
    ensures Accounting(s) && Backend(s) && Cancels.Cancels(s) && Expiry.Expiry(s) && Shutdown.Shutdown(s)
    ensures Tenancies.Tenanted(s) && Answers.Answered(s)
  {
    hide Accounting, Backend, Cancels.Cancels, Expiry.Expiry, Shutdown.Shutdown, Tenancies.Tenanted, Answers.Answered;
  }

  // ------------------------------------------------------- leases and requests

  /** A lease is opened exactly when the server is not shutting down, and then with what was
      asked for. */
  lemma OpensExactly(
    run: seq<System>, actions: seq<Action>, i: nat, id: LeaseId, keepalive: real, idleTimeout: Option<real>)
    requires IsRun(run, actions) && i < |actions| && actions[i] == Global(Open(id, keepalive, idleTimeout))
    ensures id in run[i + 1].server.leases <==> !run[i].server.draining && !run[i].server.shutdownRequested
    ensures id in run[i + 1].server.leases ==>
              && run[i + 1].server.leases[id].keepalive == keepalive
              && run[i + 1].server.leases[id].idleTimeout == idleTimeout
              && run[i + 1].history.tenancy.terms[id := Terms(keepalive, idleTimeout)] ==
                  run[i + 1].history.tenancy.terms
  {
    hide Invariant, IsRun, Accounting;
    StepAt(run, actions, i);
    FreshIsClosed(run[i]);
  }

  /** A request starts exactly when the server is not shutting down and its lease, if it
      names one, is open and not expiring. */
  lemma StartsExactly(run: seq<System>, actions: seq<Action>, i: nat, t: Tid, lease: Option<LeaseId>)
    requires IsRun(run, actions) && i < |actions| && actions[i] == Global(Start(t, lease))
    ensures var s, n := run[i], run[i + 1];
            var open := lease.Some? ==> lease.value in s.server.leases && !s.server.leases[lease.value].expiring;
            && (t in n.threads <==> !s.server.draining && !s.server.shutdownRequested && open)
            && (t in n.threads ==> n.threads == s.threads[t := InRequest(lease)])
            && (ShuttingDown(s) ==> StartRequest(s.server, lease) == Refused(InstanceDraining))
            && (!ShuttingDown(s) && !open ==> StartRequest(s.server, lease) == Refused(LeaseReleased))
  {
    hide Invariant, IsRun, Accounting;
    StepAt(run, actions, i);
    FreshIsClosed(run[i]);
  }

  lemma FreshIsClosed(s: System)
    requires Invariant(s)
    ensures s.server.leases.Keys <= s.history.used && s.threads.Keys <= s.history.tids
  {
    assert Identities(s);
  }

  /** A pass of the watchdog marks a lease expiring exactly when no request of it is in flight
      and its idle timeout has passed since its last one. */
  lemma ExpiresExactly(run: seq<System>, actions: seq<Action>, i: nat, id: LeaseId)
    requires IsRun(run, actions) && i < |actions| && actions[i] == Global(WatchPass) && id in run[i].server.leases
    ensures var s, n := run[i], run[i + 1];
            && id in n.server.leases && id in s.history.idleSince && id in s.history.tenancy.terms
            && var timeout := s.history.tenancy.terms[id].idleTimeout;
            && (n.server.leases[id].expiring <==>
                  || s.server.leases[id].expiring
                  || ((forall t | t in s.threads :: !Serves(s.threads[t], id))
                      && timeout.Some? && s.history.idleSince[id] + timeout.value <= s.now))
            && n.server.leases[id].stop == n.server.leases[id].expiring
  {
    hide Invariant, IsRun, IdleDrains, Due;
    StepAt(run, actions, i);
    DueMeans(run[i], id);
  }

  lemma DueMeans(s: System, id: LeaseId)
    requires Invariant(s) && id in s.server.leases
    ensures id in s.history.idleSince && id in s.history.tenancy.terms
    ensures s.server.leases[id].stop == s.server.leases[id].expiring
    ensures var timeout := s.history.tenancy.terms[id].idleTimeout;
            s.server.leases[id].expiring || Due(s.server.leases[id], s.now) <==>
                || s.server.leases[id].expiring
                || ((forall t | t in s.threads :: !Serves(s.threads[t], id))
                    && timeout.Some? && s.history.idleSince[id] + timeout.value <= s.now)
  {
    hide Invariant, Backend, Cancels.Cancels, Shutdown.Shutdown, Answers.Answered;
    Parts(s);
    hide InFlight, Contending, Using;
    CountsAreZero(s.threads);
  }

  // -------------------------------------------------------------- operations

  /** An operation is announced unless one with its key is in flight. */
  lemma AnnouncesExactly(run: seq<System>, actions: seq<Action>, i: nat, t: Tid, op: Option<OpId>)
    requires IsRun(run, actions) && i < |actions| && actions[i] == OfOp(t, Announced(op))
    ensures var s, n := run[i], run[i + 1];
            && t in s.threads && s.threads[t].InRequest? && t in n.threads
            && var key := KeyOf(s.threads[t].lease, op);
            && var taken := key.Some? && exists u :: u in s.threads && OpKey(s.threads[u]) == key;
            && n.threads ==
                s.threads[t := if taken then Replying(s.threads[t].lease) else Waiting(s.threads[t].lease, op)]
            && (taken ==> Announce(s.server, key) == Refused(DuplicateOperation))
  {
    hide Invariant, IsRun;
    StepAt(run, actions, i);
    KeysAreExact(run, actions, i);
  }

  /** An operation that has the backend runs its body exactly when its lease, if it has one, is
      open and no cancellation of it was acknowledged. */
  lemma ChecksExactly(run: seq<System>, actions: seq<Action>, i: nat, t: Tid)
    requires IsRun(run, actions) && i < |actions| && actions[i] == OfOp(t, Check)
    ensures var s, n := run[i], run[i + 1];
            && t in s.threads && s.threads[t].Checking?
            && var pc := s.threads[t];
            && var open := pc.lease.Some? ==> pc.lease.value in s.server.leases;
            && n.threads == s.threads[t := if open && t !in s.history.doomed then Running(pc.lease, pc.op)
                                           else Unwinding(pc.lease, pc.op)]
            && (t in n.history.bodies <==> open && t !in s.history.doomed)
            && (!open ==> StartRunning(s.server, pc.lease, pc.op) == Refused(LeaseReleased))
            && (open && t in s.history.doomed ==>
                StartRunning(s.server, pc.lease, pc.op) == Refused(OperationCancelled))
  {
    hide Invariant, IsRun;
    StepAt(run, actions, i);
    CancelledIsDoomed(run[i], t);
  }

  lemma CancelledIsDoomed(s: System, t: Tid)
    requires Invariant(s) && t in s.threads && s.threads[t].Checking?
    ensures t !in s.history.bodies
    ensures t in s.history.doomed <==> OpKey(s.threads[t]).Some? && OpKey(s.threads[t]).value in s.server.cancelled
  {
    assert Cancels.ThreadKept(s, t, s.threads[t]) && Answers.Met(s, t, s.threads[t]);
    hide Invariant;
  }

  /** And a cancellation was acknowledged only if somebody asked for it, with the operation in
      flight and its body not begun. */
  lemma {:induction false} DoomedWasCancelled(run: seq<System>, actions: seq<Action>, j: nat, t: Tid) returns (i: nat)
    requires IsRun(run, actions) && j < |run| && t in run[j].history.doomed
    ensures i < j && actions[i].OfRequest? && actions[i].request.CancelOf? && actions[i].t in run[i].threads
    ensures var asker := run[i].threads[actions[i].t];
            && asker.InRequest? && asker.lease.Some? && t in run[i].threads && t !in run[i].history.bodies
            && OpKey(run[i].threads[t]) == Some(Key(asker.lease, actions[i].request.op))
  {
    assert j > 0;
    i := j - 1;
    assert Next(run[i], actions[i]) == To(run[i + 1]);
    if t in run[i].history.doomed {
      hide Next;
      i := DoomedWasCancelled(run, actions, i, t);
    } else {
      DoomedByRequest(run[i], actions[i], t);
      hide Next;
    }
  }

  lemma DoomedByRequest(s: System, a: Action, t: Tid)
    requires Next(s, a).To? && t in Next(s, a).next.history.doomed && t !in s.history.doomed
    ensures a.OfRequest? && a.request.CancelOf? && a.t in s.threads
    ensures var asker := s.threads[a.t];
            && asker.InRequest? && asker.lease.Some? && t in s.threads && t !in s.history.bodies
            && OpKey(s.threads[t]) == Some(Key(asker.lease, a.request.op))
  {
    match a
    case Global(m) =>
      Cancels.GlobalCancels(s, m);
      hide GlobalStep;
    case OfRequest(u, m) =>
      hide FinishRequest, RequestShutdown, BeginShutdown;
    case OfOp(u, m) =>
      DoomedLeft(s, u, s.threads[u], m);
      hide OpStep;
    case OfBackground(m) =>
      BackgroundLeaves(s, m);
      hide BackgroundStep;
  }

  lemma DoomedLeft(s: System, t: Tid, pc: Pc, a: OpMove)
    requires OpStep(s, t, pc, a).To?
    ensures OpStep(s, t, pc, a).next.history.doomed == s.history.doomed
  {
    hide Announce, StartRunning, StopRunning, Discard, Unannounce;
  }

  // ---------------------------------------------------------------- shutdown

  /** From publication on, while there is no lease, the shutdown deadline is the time at which
      the server was left plus what was allowed then. */
  lemma DeadlineIsAllowance(run: seq<System>, actions: seq<Action>, i: nat)
    requires IsRun(run, actions) && i < |run| && run[i].published && run[i].server.leases == map[]
    ensures var left := run[i].history.tenancy.left;
            left.Some? && run[i].server.shutdownAt == Some(left.value.since + left.value.allowance)
  {
    RunKeepsInvariant(run, actions, i);
    assert Tenancies.Tenanted(run[i]);
  }

  /** The allowance is the keepalive that the last lease was opened with, from its detach. */
  lemma LastLeaseLeaves(run: seq<System>, actions: seq<Action>, i: nat, t: Tid, id: LeaseId)
    requires IsRun(run, actions) && i < |actions| && actions[i] == Global(DetachLease(t, id))
    requires run[i].server.leases.Keys == {id}
    ensures var s, n := run[i], run[i + 1];
            && id in s.history.tenancy.terms && n.server.leases == map[]
            && n.server.shutdownAt == Some(s.now + s.history.tenancy.terms[id].keepalive)
            && n.history.tenancy.left == Some(Left(s.now, s.history.tenancy.terms[id].keepalive))
  {
    hide Invariant, IsRun, Next, Tenancies.Tenanted;
    StepAt(run, actions, i);
    Parts(run[i]);
    LastDetach(run[i], t, id);
  }

  lemma LastDetach(s: System, t: Tid, id: LeaseId)
    requires Tenancies.Tenanted(s) && s.server.leases.Keys == {id} && Next(s, Global(DetachLease(t, id))).To?
    ensures var n := Next(s, Global(DetachLease(t, id))).next;
            && id in s.history.tenancy.terms && n.server.leases == map[]
            && n.server.shutdownAt == Some(s.now + s.history.tenancy.terms[id].keepalive)
            && n.history.tenancy.left == Some(Left(s.now, s.history.tenancy.terms[id].keepalive))
  {
    DetachLeads(s, t, id);
    hide Next;
    assert id in s.server.leases;
    LeftByLast(s, id);
    Tenancies.DetachedServer(s.server, s.config.managed, id, s.now);
    hide Detach, LeftBy;
  }

  lemma DetachLeads(s: System, t: Tid, id: LeaseId)
    requires Next(s, Global(DetachLease(t, id))).To?
    ensures var n := Next(s, Global(DetachLease(t, id))).next;
            n.server == Detach(s.server, s.config.managed, id, s.now) && n.history.tenancy == LeftBy(s, id)
  {
    hide Detach, ShutdownPending, LeftBy;
  }

  lemma LeftByLast(s: System, id: LeaseId)
    requires s.server.leases.Keys == {id} && id in s.history.tenancy.terms
    ensures LeftBy(s, id).left == Some(Left(s.now, s.history.tenancy.terms[id].keepalive))
  {
  }

  // Who the server was left by only changes when a last lease is detached, or at publication.
  lemma LeftStays(run: seq<System>, actions: seq<Action>, i: nat)
    requires IsRun(run, actions) && i < |actions| && run[i].server.leases == map[] && run[i].published
    requires run[i + 1].server.leases == map[]
    ensures run[i + 1].history.tenancy.left == run[i].history.tenancy.left
    ensures run[i + 1].server.shutdownAt == run[i].server.shutdownAt
  {
    StepAt(run, actions, i);
    RunKeepsInvariant(run, actions, i + 1);
    assert Tenancies.Tenanted(run[i]) && Tenancies.Tenanted(run[i + 1]);
    hide Invariant, IsRun;
    LeftKept(run[i], actions[i]);
    hide Next;
  }

  lemma LeftKept(s: System, a: Action)
    requires Next(s, a).To? && s.server.leases == map[] && s.published
    ensures Next(s, a).next.history.tenancy.left == s.history.tenancy.left && Next(s, a).next.published
  {
    match a
    case Global(m) =>
      hide Detach, ShutdownPending, OpenLease, StartRequest, Scan, IdleDrains, ArmGrace;
    case OfRequest(t, m) =>
      Tenancies.RequestTenancy(s, t, s.threads[t], m);
      hide RequestStep;
    case OfOp(t, m) =>
      Tenancies.OpTenancy(s, t, s.threads[t], m);
      hide OpStep;
    case OfBackground(m) =>
      BackgroundLeaves(s, m);
      hide BackgroundStep;
  }

  /** A server left by its last lease is due for shutdown that lease's keepalive after the
      detach, for as long as no other lease is opened. */
  lemma {:induction false} KeptForItsKeepalive(
    run: seq<System>, actions: seq<Action>, i: nat, j: nat, t: Tid, id: LeaseId)
    requires IsRun(run, actions) && i < |actions| && actions[i] == Global(DetachLease(t, id))
    requires run[i].published && run[i].server.leases.Keys == {id} && i < j < |run|
    requires forall k | i < k <= j :: run[k].server.leases == map[]
    ensures id in run[i].history.tenancy.terms && run[j].published
    ensures run[j].server.shutdownAt == Some(run[i].now + run[i].history.tenancy.terms[id].keepalive)
    decreases j
  {
    hide Next, Invariant;
    LastLeaseLeaves(run, actions, i, t, id);
    if j == i + 1 {
      assert Next(run[i], actions[i]) == To(run[j]);
      StaysPublished(run[i], actions[i]);
    } else {
      KeptForItsKeepalive(run, actions, i, j - 1, t, id);
      LeftStays(run, actions, j - 1);
      assert Next(run[j - 1], actions[j - 1]) == To(run[j - 1 + 1]);
      StaysPublished(run[j - 1], actions[j - 1]);
    }
  }

  lemma StaysPublished(s: System, a: Action)
    requires Next(s, a).To? && s.published
    ensures Next(s, a).next.published
  {
    match a
    case Global(m) =>
      hide Detach, ShutdownPending, OpenLease, StartRequest, Scan, IdleDrains, ArmGrace;
    case OfRequest(t, m) =>
      Tenancies.RequestTenancy(s, t, s.threads[t], m);
      hide RequestStep;
    case OfOp(t, m) =>
      Tenancies.OpTenancy(s, t, s.threads[t], m);
      hide OpStep;
    case OfBackground(m) =>
      BackgroundLeaves(s, m);
      hide BackgroundStep;
  }

  /** A pass of the watchdog drains exactly when there is no lease, nothing is in flight, and
      the time allowed since the server was left has passed. */
  lemma DrainsExactly(run: seq<System>, actions: seq<Action>, i: nat)
    requires IsRun(run, actions) && i < |actions| && actions[i] == Global(WatchPass)
    ensures var s, n := run[i], run[i + 1];
            && !s.server.draining && n.server.leases.Keys == s.server.leases.Keys
            && (n.server.draining <==>
                  && s.server.leases == map[] && (forall t | t in s.threads :: !Counted(s.threads[t]))
                  && s.history.tenancy.left.Some?
                  && s.history.tenancy.left.value.since + s.history.tenancy.left.value.allowance <= s.now)
            && n.history.idleDrained == (s.history.idleDrained || n.server.draining)
  {
    hide Invariant, IsRun, IdleDrains, ExpireIdle;
    StepAt(run, actions, i);
    assert run[i].published && !run[i].server.draining;
    DrainMeans(run[i]);
    Shutdown.ScanKeys(run[i].server, run[i].now);
  }

  lemma DrainMeans(s: System)
    requires Invariant(s) && s.published
    ensures IdleDrains(s.server, s.now) <==>
              && s.server.leases == map[] && (forall t | t in s.threads :: !Counted(s.threads[t]))
              && s.history.tenancy.left.Some?
              && s.history.tenancy.left.value.since + s.history.tenancy.left.value.allowance <= s.now
  {
    hide Invariant, Backend, Cancels.Cancels, Expiry.Expiry, Shutdown.Shutdown, Answers.Answered;
    Parts(s);
    hide InFlight, Contending, Using;
    CountsAreZero(s.threads);
    assert |s.server.leases| == 0 <==> s.server.leases == map[];
  }

  /** The caller of a detach is told that shutdown is committed exactly when it is the last of
      a managed server and was opened without a keepalive, or comes after such a commitment. */
  lemma PromisesExactly(run: seq<System>, actions: seq<Action>, i: nat, t: Tid, id: LeaseId)
    requires IsRun(run, actions) && i < |actions| && actions[i] == Global(DetachLease(t, id))
    ensures var s, n := run[i], run[i + 1];
            && var last := s.server.leases.Keys == {id} && id in s.history.tenancy.terms
            && s.history.tenancy.terms[id].keepalive == 0.0;
            && (ShutdownPending(s.server, s.config.managed, id) <==>
                  s.config.managed && (last || (s.server.leases == map[] && s.server.shutdownRequested)))
            && (n.server.shutdownRequested <==> s.server.shutdownRequested || (s.config.managed && last))
            && n.server.leases == s.server.leases - {id}
  {
    hide Invariant, IsRun, Detach, ShutdownPending, LeftBy, Next;
    StepAt(run, actions, i);
    Parts(run[i]);
    DetachLeads(run[i], t, id);
    DetachPromises(run[i].server, run[i].config.managed, id, run[i].now);
  }

  lemma DetachPromises(s: Server, managed: bool, id: LeaseId, now: real)
    requires s.activeLeases == |s.leases|
    ensures var n := Detach(s, managed, id, now);
            var last := s.leases.Keys == {id} && id in s.leases && s.leases[id].keepalive == 0.0;
            && (ShutdownPending(s, managed, id) <==> managed && (last || (s.leases == map[] && s.shutdownRequested)))
            && (n.shutdownRequested <==> s.shutdownRequested || (managed && last))
            && n.leases == s.leases - {id}
  {
    var leases := s.leases - {id};
    assert |leases| == 0 <==> leases == map[];
    assert |s.leases| == 0 <==> s.leases == map[];
    assert id in s.leases ==> (leases == map[] <==> s.leases.Keys == {id});
    assert id !in s.leases ==> leases == s.leases && s.leases.Keys != {id};
  }

  /** A shutdown request is accepted exactly when the server is managed and without a GUI, the
      caller's lease is the only one, and nothing but the caller is in flight. */
  lemma AcceptsExactly(run: seq<System>, actions: seq<Action>, i: nat, t: Tid, save: bool)
    requires IsRun(run, actions) && i < |actions| && actions[i] == OfRequest(t, AskShutdown(save))
    requires t in run[i].threads && IsRequest(run[i].threads[t]) && run[i].threads[t].lease.Some?
    ensures var s, n := run[i], run[i + 1];
            var lease := s.threads[t].lease;
            var alone := forall u | u in s.threads && u != t :: !Counted(s.threads[u]);
            var offered := s.config.managed && !s.config.gui;
            var only := s.server.leases.Keys == {lease.value};
            var answer := RequestShutdown(s.server, s.config.managed, s.config.gui, lease.value, save);
            && n.threads == s.threads[t := if offered && only && alone then ShutdownReply(lease) else Replying(lease)]
            && (offered && only && alone ==> n.server.shutdownRequested && n.server.saveOnShutdown == save)
            && (!offered ==> answer == Refused(ShutdownNotSupported))
            && (offered && !only ==> answer == Refused(InstanceShared))
            && (offered && only && !alone ==> answer == Refused(InstanceBusy))
  {
    hide Invariant, IsRun, RequestShutdown;
    StepAt(run, actions, i);
    assert run[i].threads[t].InRequest?;
    hide Next;
    AloneMeansOne(run[i], t);
    AskAnswers(run[i], t, save);
  }

  lemma AskAnswers(s: System, t: Tid, save: bool)
    requires t in s.threads && IsRequest(s.threads[t]) && s.threads[t].lease.Some?
    requires Next(s, OfRequest(t, AskShutdown(save))).To?
    requires s.threads[t].InRequest? && s.server.activeRequests == 1 ==>
        s.server.pending == {} && s.server.runningOp.None?
    ensures var n := Next(s, OfRequest(t, AskShutdown(save))).next;
            var lease, alone := s.threads[t].lease, s.server.activeRequests == 1;
            var offered := s.config.managed && !s.config.gui;
            var only := s.server.leases.Keys == {lease.value};
            var answer := RequestShutdown(s.server, s.config.managed, s.config.gui, lease.value, save);
            && s.threads[t].InRequest?
            && n.threads == s.threads[t := if offered && only && alone then ShutdownReply(lease) else Replying(lease)]
            && (offered && only && alone ==> n.server.shutdownRequested && n.server.saveOnShutdown == save)
            && (!offered ==> answer == Refused(ShutdownNotSupported))
            && (offered && !only ==> answer == Refused(InstanceShared))
            && (offered && only && !alone ==> answer == Refused(InstanceBusy))
  {
  }

  // A request in flight is alone exactly when it is the only one counted; then no operation
  // is announced or runs.
  lemma AloneMeansOne(s: System, t: Tid)
    requires Invariant(s) && t in s.threads && s.threads[t].InRequest?
    ensures s.server.activeRequests == 1 <==> forall u | u in s.threads && u != t :: !Counted(s.threads[u])
    ensures s.server.activeRequests == 1 ==> s.server.pending == {} && s.server.runningOp.None?
  {
    assert Accounting(s);
    if s.server.activeRequests == 1 {
      Shutdown.OnlyTheCaller(s, t);
      NoOperations(s, t);
    }
    if forall u | u in s.threads && u != t :: !Counted(s.threads[u]) {
      assert Where(s.threads, Active) == {t};
    }
  }

  lemma NoOperations(s: System, t: Tid)
    requires Invariant(s) && t in s.threads && s.threads[t].InRequest?
    requires forall u | u in s.threads && u != t :: s.threads[u].AfterShutdown?
    ensures s.server.pending == {} && s.server.runningOp.None?
  {
    Parts(s);
    hide Invariant, Accounting, Expiry.Expiry, Shutdown.Shutdown, Tenancies.Tenanted, Answers.Answered;
    assert Cancels.Owned(s) && Named(s);
    hide Cancels.Cancels, Backend;
    assert forall u | u in s.threads :: Cancels.KeySet(s.threads[u]) == {} && !InBody(s.threads[u]);
    assert forall key :: key !in s.server.pending;
  }

  /** Once the reply to an accepted shutdown request was sent, the server drains. */
  lemma AcceptedRequestDrains(run: seq<System>, actions: seq<Action>, i: nat, t: Tid)
    requires IsRun(run, actions) && i < |actions| && actions[i] == OfRequest(t, ActOnShutdown)
    ensures run[i + 1].server.draining
  {
    hide Invariant, IsRun;
    StepAt(run, actions, i);
    assert run[i].threads[t].AfterShutdown?;
    hide Next;
    RequestedAfterReply(run[i], t);
    ActDrains(run[i], t);
  }

  lemma RequestedAfterReply(s: System, t: Tid)
    requires t in s.threads && s.threads[t].AfterShutdown? && Invariant(s)
    ensures s.server.shutdownRequested
  {
    Parts(s);
    hide Invariant, Accounting, Backend, Cancels.Cancels, Expiry.Expiry, Tenancies.Tenanted;
    assert Answers.Told(s) && Shutdown.Committed(s);
    hide Shutdown.Shutdown, Answers.Answered;
  }

  lemma ActDrains(s: System, t: Tid)
    requires t in s.threads && s.threads[t].AfterShutdown? && s.server.shutdownRequested
    ensures Next(s, OfRequest(t, ActOnShutdown)).To? && Next(s, OfRequest(t, ActOnShutdown)).next.server.draining
  {
  }

  /** What an accepted request said of saving stands. */
  lemma {:induction false} SavesAsAsked(run: seq<System>, actions: seq<Action>, i: nat, j: nat, t: Tid, save: bool)
    requires IsRun(run, actions) && i < j < |run|
    requires actions[i] == OfRequest(t, AskShutdown(save)) && t in run[i + 1].threads
    requires run[i + 1].threads[t].ShutdownReply?
    ensures run[j].history.accepted && run[j].server.saveOnShutdown == save
    decreases j
  {
    hide Invariant;
    if j == i + 1 {
      StepAt(run, actions, i);
      AcceptedSaves(run[i], t, save);
    } else {
      hide Next;
      SavesAsAsked(run, actions, i, j - 1, t, save);
      StepAt(run, actions, j - 1);
      assert run[j - 1 + 1] == run[j];
      StillSaves(run[j - 1], actions[j - 1]);
    }
  }

  lemma AcceptedSaves(s: System, t: Tid, save: bool)
    requires t in s.threads && RequestStep(s, t, s.threads[t], AskShutdown(save)).To?
    requires var n := RequestStep(s, t, s.threads[t], AskShutdown(save)).next;
        t in n.threads && n.threads[t].ShutdownReply?
    ensures Next(s, OfRequest(t, AskShutdown(save))) == RequestStep(s, t, s.threads[t], AskShutdown(save))
    ensures var n := RequestStep(s, t, s.threads[t], AskShutdown(save)).next;
            n.history.accepted && n.server.saveOnShutdown == save
  {
  }

  lemma StillSaves(s: System, a: Action)
    requires Invariant(s) && s.history.accepted && Next(s, a).To?
    ensures Next(s, a).next.history.accepted && Next(s, a).next.server.saveOnShutdown == s.server.saveOnShutdown
  {
    StepIsLater(s, a);
    assert Shutdown.AllEnding(s.threads);
    hide Invariant, Later;
    match a
    case Global(m) =>
      GlobalSaves(s, m);
      hide GlobalStep;
    case OfRequest(t, m) =>
      RequestSaves(s, t, s.threads[t], m);
      hide RequestStep;
    case OfOp(t, m) =>
      OpSaves(s, t, s.threads[t], m);
      hide OpStep;
    case OfBackground(m) =>
      BackgroundLeaves(s, m);
      hide BackgroundStep;
  }

  lemma GlobalSaves(s: System, a: GlobalMove)
    requires GlobalStep(s, a).To?
    ensures GlobalStep(s, a).next.server.saveOnShutdown == s.server.saveOnShutdown
  {
    LeasesSave(s.server);
    hide ShutdownPending, IdleDrains, Detach, OpenLease, StartRequest, ArmGrace, Scan;
  }

  lemma LeasesSave(s: Server)
    ensures forall managed, id, now :: Detach(s, managed, id, now).saveOnShutdown == s.saveOnShutdown
    ensures forall id, keepalive, idle, now :: OpenLease(s, id, keepalive, idle, now).saveOnShutdown == s.saveOnShutdown
    ensures forall lease ::
        StartRequest(s, lease).Done? ==> StartRequest(s, lease).server.saveOnShutdown == s.saveOnShutdown
    ensures forall grace, now :: ArmGrace(s, grace, now).saveOnShutdown == s.saveOnShutdown
    ensures forall now :: Scan(s, now).saveOnShutdown == s.saveOnShutdown
  {
    hide ExpireIdle, IdleDrains;
  }

  lemma RequestSaves(s: System, t: Tid, pc: Pc, a: RequestMove)
    requires t in s.threads && RequestStep(s, t, pc, a).To? && !pc.InRequest?
    ensures RequestStep(s, t, pc, a).next.server.saveOnShutdown == s.server.saveOnShutdown
  {
    hide RequestShutdown, Cancel, Reached, RequestLeft;
  }

  lemma OpSaves(s: System, t: Tid, pc: Pc, a: OpMove)
    requires OpStep(s, t, pc, a).To?
    ensures OpStep(s, t, pc, a).next.server.saveOnShutdown == s.server.saveOnShutdown
  {
  }
}
