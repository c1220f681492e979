/** The Nexus server's bookkeeping: leases, requests, operations and shutdown. Each
    function is one critical section on the activity condition; the class carries them
    out on its fields. */
module ServerState {
  import opened Basics

  type LeaseId = nat
  type OpId = nat

  // A named operation of a lease, or of no lease.
  datatype Key = Key(lease: Option<LeaseId>, op: OpId)

  datatype Lease = Lease(
    keepalive: real,
    idleTimeout: Option<real>,
    stop: bool,
    activeRequests: int,
    idleDeadline: Option<real>,
    expiring: bool)

  datatype Server = Server(
    draining: bool,
    shutdownRequested: bool,
    saveOnShutdown: bool,
    leases: map<LeaseId, Lease>,
    activeLeases: int,
    activeRequests: int,
    shutdownAt: Option<real>,
    foregroundWaiters: int,
    runningLease: Option<LeaseId>,
    runningOp: Option<OpId>,
    pending: set<Key>,
    cancelled: set<Key>)

  datatype Refusal =
    | InstanceDraining
    | LeaseReleased
    | DuplicateOperation
    | OperationCancelled
    | ShutdownNotSupported
    | InstanceShared
    | InstanceBusy

  datatype Outcome = Done(server: Server) | Refused(why: Refusal)

  const FRESH: Server :=
    Server(false, false, true, map[], 0, 0, None, 0, None, None, {}, {})

  // ------------------------------------------------------------------ leases

  function ArmedDeadline(idleTimeout: Option<real>, now: real): Option<real> {
    if idleTimeout.Some? then Some(now + idleTimeout.value) else None
  }

  predicate MayOpen(s: Server, id: LeaseId) {
    !s.draining && !s.shutdownRequested && id !in s.leases
  }

  function OpenLease(s: Server, id: LeaseId, keepalive: real, idleTimeout: Option<real>, now: real): Server {
    if !MayOpen(s, id) then s else
    var leases := s.leases[id := Lease(keepalive, idleTimeout, false, 0, ArmedDeadline(idleTimeout, now), false)];
    s.(leases := leases, activeLeases := |leases|, shutdownAt := None)
  }

  function Detach(s: Server, managed: bool, id: LeaseId, now: real): Server {
    if id !in s.leases then s else
    var leases := s.leases - {id};
    var t := s.(leases := leases, activeLeases := |leases|, activeRequests := s.activeRequests + 1);
    if |leases| != 0 then t else
    t.(shutdownAt := Some(now + s.leases[id].keepalive),
       shutdownRequested := s.shutdownRequested || (managed && s.leases[id].keepalive == 0.0))
  }

  // Whether the caller of a detach is told that shutdown is committed.
  predicate ShutdownPending(s: Server, managed: bool, id: LeaseId) {
    if id !in s.leases then managed && s.shutdownRequested && s.activeLeases == 0
    else |s.leases - {id}| == 0 && managed && s.leases[id].keepalive == 0.0
  }

  predicate Due(l: Lease, now: real) {
    !l.expiring && l.idleDeadline.Some? && l.activeRequests == 0 && l.idleDeadline.value <= now
  }

  function Expired(l: Lease): Lease {
    l.(expiring := true, stop := true)
  }

  // Whether the lease is to be looked at again by `until`.
  predicate Ends(l: Lease, until: real) {
    !l.expiring && l.idleDeadline.Some? && l.idleDeadline.value <= until
  }

  function ExpireIdle(leases: map<LeaseId, Lease>, now: real): map<LeaseId, Lease> {
    map id | id in leases :: if Due(leases[id], now) then Expired(leases[id]) else leases[id]
  }

  predicate IdleDrains(s: Server, now: real) {
    s.activeLeases == 0 && s.activeRequests == 0 && s.shutdownAt.Some? && s.shutdownAt.value <= now
  }

  // One pass of the watchdog.
  function Scan(s: Server, now: real): Server {
    s.(leases := ExpireIdle(s.leases, now), draining := s.draining || IdleDrains(s, now))
  }

  // The startup deadline, armed once the instance is published.
  function ArmGrace(s: Server, grace: real, now: real): Server {
    if s.shutdownAt.None? && s.activeLeases == 0 && !s.shutdownRequested then s.(shutdownAt := Some(now + grace)) else s
  }

  // ---------------------------------------------------------------- requests

  function StartRequest(s: Server, lease: Option<LeaseId>): Outcome {
    if s.draining || s.shutdownRequested then Refused(InstanceDraining)
    else if lease.Some? && (lease.value !in s.leases || s.leases[lease.value].expiring) then Refused(LeaseReleased)
    else
      var leases :=
        if lease.None? then s.leases else
        var l := s.leases[lease.value];
        s.leases[lease.value := l.(activeRequests := l.activeRequests + 1, idleDeadline := None)];
      Done(s.(leases := leases, activeRequests := s.activeRequests + 1))
  }

  function RequestLeft(l: Lease, now: real): Lease {
    if l.activeRequests <= 0 then l else
    var m := l.(activeRequests := l.activeRequests - 1);
    if m.activeRequests == 0 && !l.expiring && l.idleTimeout.Some?
    then m.(idleDeadline := ArmedDeadline(l.idleTimeout, now)) else m
  }

  function FinishRequest(s: Server, lease: Option<LeaseId>, now: real): Server {
    var t := if s.activeRequests > 0 then s.(activeRequests := s.activeRequests - 1) else s;
    if lease.Some? && lease.value in s.leases
    then t.(leases := s.leases[lease.value := RequestLeft(s.leases[lease.value], now)]) else t
  }

  // -------------------------------------------------------------- operations

  function KeyOf(lease: Option<LeaseId>, op: Option<OpId>): Option<Key> {
    if op.Some? then Some(Key(lease, op.value)) else None
  }

  function Announce(s: Server, key: Option<Key>): Outcome {
    if key.Some? && key.value in s.pending then Refused(DuplicateOperation)
    else Done(s.(pending := if key.Some? then s.pending + {key.value} else s.pending,
                 foregroundWaiters := s.foregroundWaiters + 1))
  }

  function Unannounce(s: Server): Server {
    s.(foregroundWaiters := s.foregroundWaiters - 1)
  }

  function StartRunning(s: Server, lease: Option<LeaseId>, op: Option<OpId>): Outcome {
    if lease.Some? && lease.value !in s.leases then Refused(LeaseReleased)
    else if op.Some? && Key(lease, op.value) in s.cancelled then Refused(OperationCancelled)
    else Done(s.(runningLease := lease, runningOp := op))
  }

  function StopRunning(s: Server, lease: Option<LeaseId>, op: Option<OpId>): Server {
    if s.runningLease == lease && s.runningOp == op then s.(runningLease := None, runningOp := None) else s
  }

  function Discard(s: Server, key: Option<Key>): Server {
    if key.None? then s else s.(pending := s.pending - {key.value}, cancelled := s.cancelled - {key.value})
  }

  // The reply is whether the operation was pending.
  function Cancel(s: Server, key: Key): Server {
    if key in s.pending then s.(cancelled := s.cancelled + {key}) else s
  }

  // Whether the backend's running operation is told to stop.
  predicate CancelsActive(s: Server, key: Key) {
    key in s.pending && s.runningLease == key.lease && s.runningOp == Some(key.op)
  }

  // ---------------------------------------------------------------- shutdown

  function RequestShutdown(s: Server, managed: bool, gui: bool, lease: LeaseId, save: bool): Outcome {
    if !managed || gui then Refused(ShutdownNotSupported)
    else if s.leases.Keys != {lease} then Refused(InstanceShared)
    else if s.activeRequests != 1 || s.runningOp.Some? || s.pending != {} then Refused(InstanceBusy)
    else Done(s.(shutdownRequested := true, saveOnShutdown := save))
  }

  function BeginShutdown(s: Server): Server {
    if s.shutdownRequested && !s.draining then s.(draining := true) else s
  }

  // ------------------------------------------------------------- the object

  class NexusHTTPServer {
    const managed: bool
    const gui: bool
    const leaseGrace: real
    var draining: bool
    var shutdownRequested: bool
    var saveOnShutdown: bool
    var leases: map<LeaseId, Lease>
    var activeLeases: int
    var activeRequests: int
    var shutdownAt: Option<real>
    var foregroundWaiters: int
    var runningLease: Option<LeaseId>
    var runningOp: Option<OpId>
    var pending: set<Key>
    var cancelled: set<Key>

    function View(): Server
      reads this
    {
      Server(draining, shutdownRequested, saveOnShutdown, leases, activeLeases, activeRequests, shutdownAt,
             foregroundWaiters, runningLease, runningOp, pending, cancelled)
    }

    constructor (managed: bool, gui: bool, leaseGrace: real)
      ensures View() == FRESH && this.managed == managed && this.gui == gui && this.leaseGrace == leaseGrace
    {
      this.managed, this.gui, this.leaseGrace := managed, gui, leaseGrace;
      draining, shutdownRequested, saveOnShutdown := false, false, true;
      leases, activeLeases, activeRequests, shutdownAt := map[], 0, 0, None;
      foregroundWaiters, runningLease, runningOp, pending, cancelled := 0, None, None, {}, {};
    }

    method Published(now: real)
      modifies this`shutdownAt
      ensures View() == ArmGrace(old(View()), leaseGrace, now)
    {
      if shutdownAt.None? && activeLeases == 0 && !shutdownRequested {
        shutdownAt := Some(now + leaseGrace);
      }
    }

    method LeaseOpened(id: LeaseId, keepalive: real, idleTimeout: Option<real>, now: real) returns (accepted: bool)
      modifies this
      ensures View() == OpenLease(old(View()), id, keepalive, idleTimeout, now)
      ensures accepted == MayOpen(old(View()), id)
    {
      if draining || shutdownRequested || id in leases { return false; }
      var lease := Lease(keepalive, idleTimeout, false, 0, None, false);
      if idleTimeout.Some? { lease := lease.(idleDeadline := Some(now + idleTimeout.value)); }
      leases := leases[id := lease];
      activeLeases := |leases|;
      shutdownAt := None;
      accepted := true;
    }

    method DetachLease(id: LeaseId, now: real) returns (released: bool, shutdownPending: bool)
      modifies this
      ensures View() == Detach(old(View()), managed, id, now)
      ensures released == (id in old(leases))
      ensures shutdownPending == ShutdownPending(old(View()), managed, id)
    {
      if id !in leases {
        return false, managed && shutdownRequested && activeLeases == 0;
      }
      var lease := leases[id];
      leases := leases - {id};
      activeLeases := |leases|;
      activeRequests := activeRequests + 1;
      shutdownPending := false;
      if activeLeases == 0 {
        shutdownAt := Some(now + lease.keepalive);
        if managed && lease.keepalive == 0.0 {
          shutdownRequested := true;
          shutdownPending := true;
        }
      }
      assert leases == old(leases) - {id};
      released := true;
    }

    /** One pass of the watchdog over the leases: it expires the idle ones, may drain, and
        otherwise says how long to sleep: a second, or less if a deadline comes sooner, but
        never past one still to come. */
    method WatchLeases(now: real) returns (drained: bool, sleep: real)
      requires !draining
      modifies this`leases, this`draining
      ensures View() == Scan(old(View()), now)
      ensures drained == IdleDrains(old(View()), now)
      ensures 0.0 <= sleep <= 1.0
      ensures !drained ==> forall id | id in leases && !leases[id].expiring && leases[id].idleDeadline.Some? ::
                             now + sleep <= now || now + sleep <= leases[id].idleDeadline.value
      ensures !drained && activeLeases == 0 && activeRequests == 0 && shutdownAt.Some? ==>
          now + sleep <= shutdownAt.value
      ensures !drained && sleep < 1.0 ==>
                || (activeLeases == 0 && activeRequests == 0 && shutdownAt == Some(now + sleep))
                || exists id :: id in leases && Ends(leases[id], now + sleep)
    {
      var wakeup: Option<real> := None;
      var todo := leases.Keys;
      while todo != {}
        invariant todo <= leases.Keys == old(leases).Keys
        invariant forall id | id in leases ::
                    leases[id] == if id !in todo && Due(old(leases)[id], now)
                        then Expired(old(leases)[id]) else old(leases)[id]
        invariant forall id | id in leases && id !in todo && !leases[id].expiring && leases[id].idleDeadline.Some? ::
                    wakeup.Some? && wakeup.value <= leases[id].idleDeadline.value
        invariant wakeup.Some? ==> exists id :: id in leases && id !in todo && Ends(leases[id], wakeup.value)
        invariant !draining
        decreases todo
      {
        var id :| id in todo;
        todo := todo - {id};
        var lease := leases[id];
        if lease.expiring || lease.idleDeadline.None? { continue; }
        if lease.activeRequests == 0 && lease.idleDeadline.value <= now {
          leases := leases[id := lease.(expiring := true, stop := true)];
          continue;
        }
        if wakeup.None? || lease.idleDeadline.value < wakeup.value { wakeup := lease.idleDeadline; }
      }
      assert leases == ExpireIdle(old(leases), now);
      drained, sleep := false, 0.0;
      if activeLeases == 0 && activeRequests == 0 && shutdownAt.Some? {
        if shutdownAt.value - now <= 0.0 {
          draining := true;
          return true, 0.0;
        }
        if wakeup.None? || shutdownAt.value < wakeup.value { wakeup := shutdownAt; }
      }
      sleep := 1.0;
      if wakeup.Some? {
        var until := if wakeup.value - now < 0.0 then 0.0 else wakeup.value - now;
        if until < sleep { sleep := until; }
      }
    }

    method RequestStarted(lease: Option<LeaseId>) returns (refusal: Option<Refusal>)
      modifies this`leases, this`activeRequests
      ensures match StartRequest(old(View()), lease)
              case Done(s) => View() == s && refusal == None
              case Refused(why) => View() == old(View()) && refusal == Some(why)
    {
      if draining || shutdownRequested { return Some(InstanceDraining); }
      if lease.Some? && (lease.value !in leases || leases[lease.value].expiring) { return Some(LeaseReleased); }
      if lease.Some? {
        var l := leases[lease.value];
        l := l.(activeRequests := l.activeRequests + 1);
        l := l.(idleDeadline := None);
        leases := leases[lease.value := l];
      }
      activeRequests := activeRequests + 1;
      refusal := None;
    }

    method RequestFinished(lease: Option<LeaseId>, now: real)
      modifies this`leases, this`activeRequests
      ensures View() == FinishRequest(old(View()), lease, now)
    {
      if activeRequests > 0 { activeRequests := activeRequests - 1; }
      if lease.Some? && lease.value in leases && leases[lease.value].activeRequests > 0 {
        var l := leases[lease.value];
        l := l.(activeRequests := l.activeRequests - 1);
        if l.activeRequests == 0 && !l.expiring && l.idleTimeout.Some? {
          l := l.(idleDeadline := Some(now + l.idleTimeout.value));
        }
        leases := leases[lease.value := l];
      }
    }

    method AnnounceOperation(lease: Option<LeaseId>, op: Option<OpId>) returns (refusal: Option<Refusal>)
      modifies this`pending, this`foregroundWaiters
      ensures match Announce(old(View()), KeyOf(lease, op))
              case Done(s) => View() == s && refusal == None
              case Refused(why) => View() == old(View()) && refusal == Some(why)
    {
      if op.Some? {
        var key := Key(lease, op.value);
        if key in pending { return Some(DuplicateOperation); }
        pending := pending + {key};
      }
      foregroundWaiters := foregroundWaiters + 1;
      refusal := None;
    }

    method DoneWaiting()
      modifies this`foregroundWaiters
      ensures View() == Unannounce(old(View()))
    {
      foregroundWaiters := foregroundWaiters - 1;
    }

    method CheckAndRun(lease: Option<LeaseId>, op: Option<OpId>) returns (refusal: Option<Refusal>)
      modifies this`runningLease, this`runningOp
      ensures match StartRunning(old(View()), lease, op)
              case Done(s) => View() == s && refusal == None
              case Refused(why) => View() == old(View()) && refusal == Some(why)
    {
      if lease.Some? && lease.value !in leases { return Some(LeaseReleased); }
      if op.Some? && Key(lease, op.value) in cancelled { return Some(OperationCancelled); }
      runningLease := lease;
      runningOp := op;
      refusal := None;
    }

    method DoneRunning(lease: Option<LeaseId>, op: Option<OpId>)
      modifies this`runningLease, this`runningOp
      ensures View() == StopRunning(old(View()), lease, op)
    {
      if runningLease == lease && runningOp == op {
        runningLease := None;
        runningOp := None;
      }
    }

    method DiscardOperation(lease: Option<LeaseId>, op: Option<OpId>)
      modifies this`pending, this`cancelled
      ensures View() == Discard(old(View()), KeyOf(lease, op))
    {
      if op.Some? {
        pending := pending - {Key(lease, op.value)};
        cancelled := cancelled - {Key(lease, op.value)};
      }
    }

    method CancelOperation(lease: LeaseId, op: OpId) returns (found: bool, cancelActive: bool)
      modifies this`cancelled
      ensures View() == Cancel(old(View()), Key(Some(lease), op))
      ensures found == (Key(Some(lease), op) in pending)
      ensures cancelActive == CancelsActive(old(View()), Key(Some(lease), op))
    {
      var key := Key(Some(lease), op);
      if key !in pending { return false, false; }
      cancelled := cancelled + {key};
      return true, runningLease == Some(lease) && runningOp == Some(op);
    }

    method RequestShutdownOf(lease: LeaseId, save: bool) returns (refusal: Option<Refusal>)
      modifies this`shutdownRequested, this`saveOnShutdown
      ensures match RequestShutdown(old(View()), managed, gui, lease, save)
              case Done(s) => View() == s && refusal == None
              case Refused(why) => View() == old(View()) && refusal == Some(why)
    {
      if !managed || gui { return Some(ShutdownNotSupported); }
      if leases.Keys != {lease} { return Some(InstanceShared); }
      if activeRequests != 1 || runningOp.Some? || pending != {} { return Some(InstanceBusy); }
      shutdownRequested := true;
      saveOnShutdown := save;
      refusal := None;
    }

    method BeginRequestedShutdown()
      modifies this`draining
      ensures View() == BeginShutdown(old(View()))
    {
      if !shutdownRequested || draining { return; }
      draining := true;
    }
  }
}
