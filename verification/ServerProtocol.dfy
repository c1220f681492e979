/** Every interleaving of the server's critical sections: request threads, lease cleanup,
    the watchdog, requested shutdown and the background analysis. */
module ServerProtocol {
  import opened Basics
  import opened ServerState

  type Tid = nat

  // Where a handler thread is between two critical sections.
  datatype Pc =
    | InRequest(lease: Option<LeaseId>)
    | Waiting(lease: Option<LeaseId>, op: Option<OpId>)     // announced, contending for the backend
    | Aborted(lease: Option<LeaseId>, op: Option<OpId>)     // saw its cancellation while contending
    | GotLock(lease: Option<LeaseId>, op: Option<OpId>)
    | Checking(lease: Option<LeaseId>, op: Option<OpId>)    // no longer a waiter
    | Running(lease: Option<LeaseId>, op: Option<OpId>)     // the operation's body
    | BodyOver(lease: Option<LeaseId>, op: Option<OpId>)
    | Unwinding(lease: Option<LeaseId>, op: Option<OpId>)   // about to release the backend
    | Released(lease: Option<LeaseId>, op: Option<OpId>)    // about to discard its key
    | Replying(lease: Option<LeaseId>)
    | ShutdownReply(lease: Option<LeaseId>)                 // its shutdown request was accepted
    | AfterShutdown                                         // request over, reply sent
    | Closing(detached: LeaseId)
    | Cleaning(detached: LeaseId)

  datatype Background = Polling | Acquired | Slicing | Finishing | Stopped

  datatype Lock = Free | Foreground(holder: Tid) | Analysis

  // What each lease was opened with.
  datatype Terms = Terms(keepalive: real, idleTimeout: Option<real>)

  // When the server was last left without a lease, or published without one, and how long
  // it is then to be kept: the last lease's keepalive, or the startup grace.
  datatype Left = Left(since: real, allowance: real)

  datatype Tenancy = Tenancy(terms: map<LeaseId, Terms>, left: Option<Left>)

  // What has happened, kept only to state properties: identifiers used, when each lease last
  // became idle, operations begun and operations acknowledged as cancelled before they
  // began, slices entered by the background analysis, which ways of shutting down have been
  // taken, and who the server was kept for.
  datatype History = History(
    tids: set<Tid>,
    used: set<LeaseId>,
    idleSince: map<LeaseId, real>,
    bodies: set<Tid>,
    doomed: set<Tid>,
    slices: nat,
    promised: bool,
    accepted: bool,
    idleDrained: bool,
    tenancy: Tenancy)

  datatype Config = Config(managed: bool, gui: bool, grace: real)

  // The server, who holds the backend lock, and every thread.
  datatype System = System(
    config: Config,
    server: Server,
    lock: Lock,
    threads: map<Tid, Pc>,
    background: Background,
    published: bool,
    now: real,
    history: History)

  predicate Counted(pc: Pc) {
    !pc.AfterShutdown?
  }

  predicate IsRequest(pc: Pc) {
    !pc.AfterShutdown? && !pc.Closing? && !pc.Cleaning?
  }

  predicate Serves(pc: Pc, id: LeaseId) {
    IsRequest(pc) && pc.lease == Some(id)
  }

  predicate IsOp(pc: Pc) {
    pc.Waiting? || pc.Aborted? || pc.GotLock? || pc.Checking? || pc.Running? || pc.BodyOver? || pc.Unwinding?
        || pc.Released?
  }

  predicate Contends(pc: Pc) {
    pc.Waiting? || pc.Aborted? || pc.GotLock?
  }

  predicate Holds(pc: Pc) {
    pc.GotLock? || pc.Checking? || pc.Running? || pc.BodyOver? || pc.Unwinding?
  }

  predicate InBody(pc: Pc) {
    pc.Running? || pc.BodyOver?
  }

  function OpKey(pc: Pc): Option<Key> {
    if IsOp(pc) then KeyOf(pc.lease, pc.op) else None
  }

  predicate Initial(s: System) {
    && s.server == FRESH && s.lock == Free && s.threads == map[] && s.background == Polling && !s.published
    && s.history == History({}, {}, map[], {}, {}, 0, false, false, false, Tenancy(map[], None))
  }

  // ------------------------------------------------------------------- steps

  datatype GlobalMove =
    | Tick(delta: real)
    | Publish
    | Open(id: LeaseId, keepalive: real, idleTimeout: Option<real>)
    | DetachLease(t: Tid, id: LeaseId)
    | Start(t: Tid, lease: Option<LeaseId>)
    | WatchPass

  datatype RequestMove =
    | ReadOwner
    | EndClose
    | Finish
    | CancelOf(op: OpId)
    | AskShutdown(save: bool)
    | ActOnShutdown

  datatype OpMove =
    | Announced(named: Option<OpId>)
    | AcquireLock
    | SeeCancelled
    | DoneWaiting
    | Check
    | EndBody
    | ClearRunning
    | ReleaseLock
    | DiscardKey

  datatype BackgroundMove = BgAcquire | BgCheck(settled: bool) | BgEndSlice | BgRelease(more: bool)

  datatype Action =
    | Global(global: GlobalMove)
    | OfRequest(t: Tid, request: RequestMove)
    | OfOp(t: Tid, move: OpMove)
    | OfBackground(background: BackgroundMove)

  function Move(s: System, t: Tid, pc: Pc): System {
    s.(threads := s.threads[t := pc])
  }

  function Spawn(s: System, t: Tid, pc: Pc): System {
    s.(threads := s.threads[t := pc], history := s.history.(tids := s.history.tids + {t}))
  }

  function Drop(s: System, t: Tid): System {
    s.(threads := s.threads - {t})
  }

  // The tenancy after `id` is detached.
  function LeftBy(s: System, id: LeaseId): Tenancy {
    var terms := s.history.tenancy.terms;
    if s.server.leases.Keys == {id} && id in terms
    then s.history.tenancy.(left := Some(Left(s.now, terms[id].keepalive))) else s.history.tenancy
  }

  function Opened(tenancy: Tenancy, id: LeaseId, terms: Terms): Tenancy {
    tenancy.(terms := tenancy.terms[id := terms])
  }

  // The tenancy after publication.
  function GraceFrom(s: System): Tenancy {
    if s.server.leases == map[] && s.history.tenancy.left.None?
    then s.history.tenancy.(left := Some(Left(s.now, s.config.grace))) else s.history.tenancy
  }

  function StepDetach(s: System, t: Tid, id: LeaseId): System {
    var told := s.(server := Detach(s.server, s.config.managed, id, s.now),
                   history := s.history.(
                     promised := s.history.promised || ShutdownPending(s.server, s.config.managed, id),
                     tenancy := LeftBy(s, id)));
    if id in s.server.leases then Spawn(told, t, Closing(id)) else told
  }

  function StepFinish(s: System, lease: Option<LeaseId>): System {
    s.(server := FinishRequest(s.server, lease, s.now),
       history := if lease.Some? then s.history.(idleSince := s.history.idleSince[lease.value := s.now]) else s.history)
  }

  // The operations a cancellation of `key` reaches before their bodies begin.
  function Reached(s: System, key: Key): set<Tid> {
    set t | t in s.threads && OpKey(s.threads[t]) == Some(key) && t !in s.history.bodies
  }

  function StepCancel(s: System, t: Tid, key: Key): System {
    Move(s, t, Replying(key.lease)).(
      server := Cancel(s.server, key),
      history := if key in s.server.pending
          then s.history.(doomed := s.history.doomed + Reached(s, key)) else s.history)
  }

  predicate ShuttingDown(s: System) {
    s.server.draining || s.server.shutdownRequested
  }

  // Where a step leads; `Stuck` if it is not possible.
  datatype Stepped = Stuck | To(next: System)

  // The thread that a step sets off, if any.
  function Begun(s: System, a: GlobalMove): map<Tid, Pc> {
    if a.Start? && a.t !in s.history.tids && StartRequest(s.server, a.lease).Done? then map[a.t := InRequest(a.lease)]
    else if a.DetachLease? && a.t !in s.history.tids && a.id in s.server.leases then map[a.t := Closing(a.id)]
    else map[]
  }

  /** Steps that are not of a thread under way. Lease ids are never reused. */
  function GlobalStep(s: System, a: GlobalMove): Stepped {
    match a
    case Tick(delta) => if delta <= 0.0 then Stuck else To(s.(now := s.now + delta))
    case Publish =>
      if s.published then Stuck
      else To(s.(published := true, server := ArmGrace(s.server, s.config.grace, s.now),
                 history := s.history.(tenancy := GraceFrom(s))))
    case Open(id, keepalive, idleTimeout) =>
      if id in s.history.used || keepalive < 0.0 || (idleTimeout.Some? && idleTimeout.value <= 0.0) then Stuck
      else if !MayOpen(s.server, id) then To(s)
      else To(s.(server := OpenLease(s.server, id, keepalive, idleTimeout, s.now),
                   history := s.history.(
                     used := s.history.used + {id},
                     idleSince := s.history.idleSince[id := s.now],
                     tenancy := Opened(s.history.tenancy, id, Terms(keepalive, idleTimeout)))))
    case DetachLease(t, id) => if t in s.history.tids then Stuck else To(StepDetach(s, t, id))
    case Start(t, lease) =>
      if t in s.history.tids then Stuck else
      (match StartRequest(s.server, lease)
       case Refused(_) => To(s)
       case Done(server) => To(Spawn(s.(server := server), t, InRequest(lease))))
    case WatchPass =>
      if !s.published || !s.config.managed || s.server.draining then Stuck
      else To(s.(server := Scan(s.server, s.now), 
                   history := s.history.(idleDrained := s.history.idleDrained || IdleDrains(s.server, s.now))))
  }

  /** A step of the thread `t`, at `pc`, outside operations. */
  function RequestStep(s: System, t: Tid, pc: Pc, a: RequestMove): Stepped {
    match a
    case ReadOwner => if pc.Closing? then To(Move(s, t, Cleaning(pc.detached))) else Stuck
    case EndClose =>
      if pc.Cleaning? then To(Drop(s.(server := FinishRequest(s.server, None, s.now)), t)) else Stuck
    case Finish =>
      if pc.InRequest? || pc.Replying? then To(Drop(StepFinish(s, pc.lease), t))
      else if pc.ShutdownReply? then To(Move(StepFinish(s, pc.lease), t, AfterShutdown))
      else Stuck
    case CancelOf(op) =>
      if !pc.InRequest? then Stuck
      else if pc.lease.None? then To(Move(s, t, Replying(pc.lease)))
      else To(StepCancel(s, t, Key(pc.lease, op)))
    case AskShutdown(save) =>
      if !pc.InRequest? then Stuck
      else if pc.lease.None? then To(Move(s, t, Replying(pc.lease)))
      else
        (match RequestShutdown(s.server, s.config.managed, s.config.gui, pc.lease.value, save)
         case Refused(_) => To(Move(s, t, Replying(pc.lease)))
         case Done(server) => To(Move(s.(server := server, history := s.history.(accepted := true)), t,
             ShutdownReply(pc.lease))))
    case ActOnShutdown =>
      if pc.AfterShutdown? then To(Drop(s.(server := BeginShutdown(s.server)), t)) else Stuck
  }

  /** A step of the operation of thread `t`, at `pc`. */
  function OpStep(s: System, t: Tid, pc: Pc, a: OpMove): Stepped {
    match a
    case Announced(op) =>
      if !pc.InRequest? then Stuck else
      (match Announce(s.server, KeyOf(pc.lease, op))
       case Refused(_) => To(Move(s, t, Replying(pc.lease)))
       case Done(server) =>
         To(Move(s.(server := server), t, Waiting(pc.lease, op))))
    case AcquireLock =>
      if pc.Waiting? && s.lock.Free? then To(Move(s.(lock := Foreground(t)), t, GotLock(pc.lease, pc.op))) else Stuck
    case SeeCancelled =>
      if pc.Waiting? && pc.op.Some? && Key(pc.lease, pc.op.value) in s.server.cancelled
      then To(Move(s, t, Aborted(pc.lease, pc.op))) else Stuck
    case DoneWaiting =>
      if pc.GotLock? then To(Move(s.(server := Unannounce(s.server)), t, Checking(pc.lease, pc.op)))
      else if pc.Aborted? then To(Move(s.(server := Unannounce(s.server)), t, Released(pc.lease, pc.op)))
      else Stuck
    case Check =>
      if !pc.Checking? then Stuck else
      (match StartRunning(s.server, pc.lease, pc.op)
       case Refused(_) => To(Move(s, t, Unwinding(pc.lease, pc.op)))
       case Done(server) =>
         To(Move(s.(server := server, history := s.history.(bodies := s.history.bodies + {t})), t,
             Running(pc.lease, pc.op))))
    case EndBody => if pc.Running? then To(Move(s, t, BodyOver(pc.lease, pc.op))) else Stuck
    case ClearRunning =>
      if pc.BodyOver?
      then To(Move(s.(server := StopRunning(s.server, pc.lease, pc.op)), t, Unwinding(pc.lease, pc.op))) else Stuck
    case ReleaseLock =>
      if pc.Unwinding? then To(Move(s.(lock := Free), t, Released(pc.lease, pc.op))) else Stuck
    case DiscardKey =>
      if pc.Released?
      then To(Move(s.(server := Discard(s.server, OpKey(pc))), t, Replying(pc.lease))) else Stuck
  }

  /** A step of the background analysis. */
  function BackgroundStep(s: System, a: BackgroundMove): Stepped {
    match a
    case BgAcquire =>
      if !s.background.Polling? then Stuck
      else if ShuttingDown(s) then To(s.(background := Stopped))
      else if s.server.foregroundWaiters != 0 || !s.lock.Free? then To(s)
      else To(s.(background := Acquired, lock := Analysis))
    case BgCheck(settled) =>
      if !s.background.Acquired? then Stuck
      else if ShuttingDown(s) || settled then To(s.(background := Finishing))
      else To(s.(background := Slicing, history := s.history.(slices := s.history.slices + 1)))
    case BgEndSlice => if !s.background.Slicing? then Stuck else To(s.(background := Finishing))
    case BgRelease(more) =>
      if !s.background.Finishing? then Stuck
      else To(s.(background := if more then Polling else Stopped, lock := Free))
  }

  /** One step of the system; `Stuck` where the action is not possible. */
  function Next(s: System, a: Action): Stepped {
    match a
    case Global(m) => GlobalStep(s, m)
    case OfRequest(t, m) => if t in s.threads then RequestStep(s, t, s.threads[t], m) else Stuck
    case OfOp(t, m) => if t in s.threads then OpStep(s, t, s.threads[t], m) else Stuck
    case OfBackground(m) => BackgroundStep(s, m)
  }

  // ---------------------------------------------------------------- counting

  // What is counted: requests in flight with unfinished cleanups, operations contending for
  // the backend, requests of one lease.
  datatype Kind = Active | Contender | Of(lease: LeaseId)

  predicate Fits(k: Kind, pc: Pc) {
    match k
    case Active => Counted(pc)
    case Contender => Contends(pc)
    case Of(id) => Serves(pc, id)
  }

  function Where(threads: map<Tid, Pc>, k: Kind): set<Tid> {
    set t | t in threads && Fits(k, threads[t])
  }

  function Count(threads: map<Tid, Pc>, k: Kind): nat {
    |Where(threads, k)|
  }

  function One(b: bool): nat { if b then 1 else 0 }

  lemma SizeWithout(a: set<Tid>, t: Tid)
    ensures |a - {t}| + One(t in a) == |a|
  {
    if t !in a { assert a - {t} == a; }
  }

  lemma CountMoved(threads: map<Tid, Pc>, t: Tid, pc: Pc, k: Kind)
    ensures Count(threads[t := pc], k) + One(t in threads && Fits(k, threads[t])) ==
        Count(threads, k) + One(Fits(k, pc))
  {
    var a, b := Where(threads, k), Where(threads[t := pc], k);
    hide One, Fits;
    assert (t in a <==> t in threads && Fits(k, threads[t])) && (t in b <==> Fits(k, pc));
    assert forall u | u != t :: u in a <==> u in b;
    hide Where;
    assert a - {t} == b - {t};
    SizeWithout(a, t);
    SizeWithout(b, t);
  }

  lemma CountDropped(threads: map<Tid, Pc>, t: Tid, k: Kind)
    requires t in threads
    ensures Count(threads - {t}, k) + One(Fits(k, threads[t])) == Count(threads, k)
  {
    var a, b := Where(threads, k), Where(threads - {t}, k);
    assert (t in a <==> Fits(k, threads[t])) && a - {t} == b;
    hide Where, One, Fits;
    SizeWithout(a, t);
  }

  lemma CountZero(threads: map<Tid, Pc>, k: Kind)
    ensures Count(threads, k) == 0 <==> forall t | t in threads :: !Fits(k, threads[t])
  {
    hide Fits;
    forall t | t in threads && Fits(k, threads[t])
      ensures Count(threads, k) != 0
    {
      assert t in Where(threads, k);
    }
    if forall t | t in threads :: !Fits(k, threads[t]) { assert Where(threads, k) == {}; }
  }

  lemma CountOne(threads: map<Tid, Pc>, k: Kind, t: Tid, u: Tid)
    requires Count(threads, k) == 1 && t in threads && Fits(k, threads[t]) && u in threads && Fits(k, threads[u])
    ensures u == t
  {
    hide Fits;
    var a := Where(threads, k);
    assert |a - {t}| == 0;
    assert u !in a - {t};
  }

  // Requests in flight and unfinished lease cleanups.
  function InFlight(threads: map<Tid, Pc>): nat {
    Count(threads, Active)
  }

  // Operations announced that have not yet got, or given up on, the backend.
  function Contending(threads: map<Tid, Pc>): nat {
    Count(threads, Contender)
  }

  // Requests of one lease in flight.
  function Using(threads: map<Tid, Pc>, id: LeaseId): nat {
    Count(threads, Of(id))
  }

  // --------------------------------------------------------------- accounting

  ghost predicate Identities(s: System) {
    && s.threads.Keys <= s.history.tids
    && s.server.leases.Keys <= s.history.used
    && (forall t, id | t in s.threads && Serves(s.threads[t], id) :: id in s.history.used)
  }

  ghost predicate Totals(s: System) {
    && s.server.activeLeases == |s.server.leases|
    && s.server.activeRequests == InFlight(s.threads)
    && s.server.foregroundWaiters == Contending(s.threads)
  }

  ghost predicate PerLease(s: System) {
    forall id | id in s.server.leases :: s.server.leases[id].activeRequests == Using(s.threads, id)
  }

  /** The server's counters count what they say: requests in flight and unfinished lease
      cleanups, leases, contending operations, and the requests of each lease. */
  ghost predicate Accounting(s: System) {
    Identities(s) && Totals(s) && PerLease(s)
  }

  lemma MovedCounts(threads: map<Tid, Pc>, t: Tid, pc: Pc)
    ensures InFlight(threads[t := pc]) + One(t in threads && Counted(threads[t])) ==
        InFlight(threads) + One(Counted(pc))
    ensures Contending(threads[t := pc]) + One(t in threads && Contends(threads[t])) ==
        Contending(threads) + One(Contends(pc))
    ensures forall id ::
        Using(threads[t := pc], id) + One(t in threads && Serves(threads[t], id)) ==
        Using(threads, id) + One(Serves(pc, id))
  {
    CountMoved(threads, t, pc, Active);
    CountMoved(threads, t, pc, Contender);
    forall id
      ensures Using(threads[t := pc], id) + One(t in threads && Serves(threads[t], id)) ==
          Using(threads, id) + One(Serves(pc, id))
    {
      CountMoved(threads, t, pc, Of(id));
    }
  }

  lemma DroppedCounts(threads: map<Tid, Pc>, t: Tid)
    requires t in threads
    ensures InFlight(threads - {t}) + One(Counted(threads[t])) == InFlight(threads)
    ensures Contending(threads - {t}) + One(Contends(threads[t])) == Contending(threads)
    ensures forall id :: Using(threads - {t}, id) + One(Serves(threads[t], id)) == Using(threads, id)
  {
    CountDropped(threads, t, Active);
    CountDropped(threads, t, Contender);
    forall id
      ensures Using(threads - {t}, id) + One(Serves(threads[t], id)) == Using(threads, id)
    {
      CountDropped(threads, t, Of(id));
    }
  }

  lemma CountsAreZero(threads: map<Tid, Pc>)
    ensures InFlight(threads) == 0 <==> forall t | t in threads :: !Counted(threads[t])
    ensures Contending(threads) == 0 <==> forall t | t in threads :: !Contends(threads[t])
    ensures forall id :: Using(threads, id) == 0 <==> forall t | t in threads :: !Serves(threads[t], id)
  {
    CountZero(threads, Active);
    CountZero(threads, Contender);
    forall id
      ensures Using(threads, id) == 0 <==> forall t | t in threads :: !Serves(threads[t], id)
    {
      CountZero(threads, Of(id));
    }
  }

  // A thread that counts makes the counters positive.
  lemma CountedIsPositive(s: System, t: Tid)
    requires Accounting(s) && t in s.threads && Counted(s.threads[t])
    ensures s.server.activeRequests > 0
    ensures forall id | id in s.server.leases && Serves(s.threads[t], id) :: s.server.leases[id].activeRequests > 0
  {
    hide InFlight, Contending, Using;
    CountsAreZero(s.threads);
  }

  lemma LeaseKeys(s: Server)
    ensures forall managed, id, now :: Detach(s, managed, id, now).leases.Keys == s.leases.Keys - {id}
    ensures forall id, keepalive, idle, now ::
        OpenLease(s, id, keepalive, idle, now).leases.Keys <= s.leases.Keys + {id}
    ensures forall grace, now :: ArmGrace(s, grace, now).leases == s.leases
    ensures forall now :: Scan(s, now).leases.Keys == s.leases.Keys
  {
    hide IdleDrains;
  }

  // Lease and request bookkeeping leaves the operations alone.
  lemma LeasesOnly(s: Server)
    ensures forall managed, id, now :: SameOps(s, Detach(s, managed, id, now))
    ensures forall id, keepalive, idle, now :: SameOps(s, OpenLease(s, id, keepalive, idle, now))
    ensures forall lease :: StartRequest(s, lease).Done? ==> SameOps(s, StartRequest(s, lease).server)
    ensures forall grace, now :: SameOps(s, ArmGrace(s, grace, now))
    ensures forall now :: SameOps(s, Scan(s, now))
  {
    hide ExpireIdle, IdleDrains;
  }

  predicate SameOps(s: Server, n: Server) {
    && n.pending == s.pending && n.cancelled == s.cancelled
    && n.runningLease == s.runningLease && n.runningOp == s.runningOp && n.foregroundWaiters == s.foregroundWaiters
  }

  predicate SameRest(s: Server, n: Server) {
    && n.leases == s.leases && n.activeLeases == s.activeLeases && n.activeRequests == s.activeRequests
    && n.draining == s.draining && n.shutdownRequested == s.shutdownRequested && n.shutdownAt == s.shutdownAt
  }

  predicate SameCounts(s: Server, n: Server) {
    SameRest(s, n) && n.foregroundWaiters == s.foregroundWaiters
  }

  // Operations leave leases, requests and shutdown alone.
  lemma OpsOnly(s: Server)
    ensures SameRest(s, Unannounce(s))
    ensures forall key :: Announce(s, key).Done? ==> SameRest(s, Announce(s, key).server)
    ensures forall lease, op :: StartRunning(s, lease, op).Done? ==> SameCounts(s, StartRunning(s, lease, op).server)
    ensures forall lease, op :: SameCounts(s, StopRunning(s, lease, op))
    ensures forall key :: SameCounts(s, Discard(s, key))
  {
  }

  // So do cancelling and shutting down, and requests that end leave operations alone.
  lemma RequestsOnly(s: Server)
    ensures forall lease, now ::
        SameOps(s, FinishRequest(s, lease, now)) && FinishRequest(s, lease, now).leases.Keys == s.leases.Keys
                                 && SameFlags(s, FinishRequest(s, lease, now))
                                 && FinishRequest(s, lease, now).activeLeases == s.activeLeases
    ensures forall key :: SameRest(s, Cancel(s, key)) && SameOps(s, Cancel(s, key).(cancelled := s.cancelled))
    ensures SameOps(s, BeginShutdown(s))
        && SameRest(s.(draining := s.draining || s.shutdownRequested), BeginShutdown(s))
    ensures forall managed, gui, lease, save :: var r := RequestShutdown(s, managed, gui, lease, save);
              r.Done? ==> SameOps(s, r.server) && SameRest(s.(shutdownRequested := true), r.server)
  {
    hide RequestLeft;
  }

  predicate SameFlags(s: Server, n: Server) {
    n.draining == s.draining && n.shutdownRequested == s.shutdownRequested && n.shutdownAt == s.shutdownAt
  }

  // What accounting needs to know of an operation's step.
  lemma OpCounts(s: System, t: Tid, pc: Pc, a: OpMove)
    requires OpStep(s, t, pc, a).To?
    ensures var n := OpStep(s, t, pc, a).next;
            && t in n.threads && n.threads == s.threads[t := n.threads[t]]
            && IsRequest(pc) && IsRequest(n.threads[t]) && n.threads[t].lease == pc.lease
            && n.server.leases == s.server.leases && n.server.activeLeases == s.server.activeLeases
            && n.server.activeRequests == s.server.activeRequests
            && n.server.foregroundWaiters + One(Contends(pc)) ==
                s.server.foregroundWaiters + One(Contends(n.threads[t]))
            && n.history.tids == s.history.tids && n.history.used == s.history.used
  {
    OpsOnly(s.server);
    hide StartRunning, StopRunning, Discard, KeyOf, OpKey;
    if a.Announced? {
      hide Unannounce;
    } else {
      hide Announce;
    }
  }

  // The same of a step outside operations, the counters being positive where they should.
  lemma RequestCounts(s: System, t: Tid, pc: Pc, a: RequestMove)
    requires t in s.threads && RequestStep(s, t, pc, a).To?
    requires Counted(pc) ==> s.server.activeRequests > 0
    ensures var n := RequestStep(s, t, pc, a).next;
            && (n.threads == s.threads - {t}
                || (t in n.threads && n.threads == s.threads[t := n.threads[t]] && !Contends(n.threads[t])))
            && !Contends(pc) && n.server.foregroundWaiters == s.server.foregroundWaiters
            && n.server.activeLeases == s.server.activeLeases
            && n.server.activeRequests + One(Counted(pc)) ==
                s.server.activeRequests + One(t in n.threads && Counted(n.threads[t]))
            && n.history.tids == s.history.tids && n.history.used == s.history.used
  {
  }

  lemma FinishUses(s: Server, lease: Option<LeaseId>, now: real)
    requires lease.Some? && lease.value in s.leases ==> s.leases[lease.value].activeRequests > 0
    ensures var n := FinishRequest(s, lease, now);
            && n.leases.Keys == s.leases.Keys && |n.leases| == |s.leases|
            && forall id | id in s.leases ::
                n.leases[id].activeRequests + One(lease == Some(id)) == s.leases[id].activeRequests
  {
    var n := FinishRequest(s, lease, now);
    assert |n.leases| == |n.leases.Keys| && |s.leases| == |s.leases.Keys|;
  }

  // Only the end of a request, or of a cleanup, changes what leases count.
  predicate Uses(s: System, n: System, t: Tid, pc: Pc) {
    && n.server.leases.Keys == s.server.leases.Keys && |n.server.leases| == |s.server.leases|
    && (t in n.threads && IsRequest(n.threads[t]) ==> IsRequest(pc) && n.threads[t].lease == pc.lease)
    && (forall id: LeaseId | id in s.server.leases ::
          n.server.leases[id].activeRequests + One(Serves(pc, id))
          == s.server.leases[id].activeRequests + One(t in n.threads && Serves(n.threads[t], id)))
  }

  lemma RequestUses(s: System, t: Tid, pc: Pc, a: RequestMove)
    requires t in s.threads && RequestStep(s, t, pc, a).To?
    requires forall id | id in s.server.leases && Serves(pc, id) :: s.server.leases[id].activeRequests > 0
    ensures Uses(s, RequestStep(s, t, pc, a).next, t, pc)
  {
    hide Uses;
    if a.Finish? || a.EndClose? { EndUses(s, t, pc, a); } else { OtherUses(s, t, pc, a); }
  }

  lemma EndUses(s: System, t: Tid, pc: Pc, a: RequestMove)
    requires t in s.threads && (a.Finish? || a.EndClose?) && RequestStep(s, t, pc, a).To?
    requires forall id | id in s.server.leases && Serves(pc, id) :: s.server.leases[id].activeRequests > 0
    ensures Uses(s, RequestStep(s, t, pc, a).next, t, pc)
  {
    FinishUses(s.server, if a.Finish? then pc.lease else None, s.now);
    hide FinishRequest;
  }

  lemma OtherUses(s: System, t: Tid, pc: Pc, a: RequestMove)
    requires t in s.threads && !a.Finish? && !a.EndClose? && RequestStep(s, t, pc, a).To?
    ensures Uses(s, RequestStep(s, t, pc, a).next, t, pc)
  {
    RequestsOnly(s.server);
    hide Cancel, BeginShutdown, RequestShutdown, Reached, FinishRequest, SameOps, SameFlags;
    var n := RequestStep(s, t, pc, a).next;
    assert n.server.leases == s.server.leases;
    assert forall id :: Serves(pc, id) <==> t in n.threads && Serves(n.threads[t], id);
  }

  // The counts after one thread, at `pc`, moved or went.
  lemma OneThreadCounts(s: System, n: System, t: Tid)
    requires t in s.threads
    requires n.threads == s.threads - {t} || (t in n.threads && n.threads == s.threads[t := n.threads[t]])
    ensures InFlight(n.threads) + One(Counted(s.threads[t])) ==
        InFlight(s.threads) + One(t in n.threads && Counted(n.threads[t]))
    ensures Contending(n.threads) + One(Contends(s.threads[t])) ==
        Contending(s.threads) + One(t in n.threads && Contends(n.threads[t]))
    ensures forall id ::
        Using(n.threads, id) + One(Serves(s.threads[t], id)) ==
        Using(s.threads, id) + One(t in n.threads && Serves(n.threads[t], id))
  {
    hide InFlight, Contending, Using;
    if t in n.threads { MovedCounts(s.threads, t, n.threads[t]); } else { DroppedCounts(s.threads, t); }
  }

  // Each lease's count follows the thread that used it, and the totals do.
  lemma PerLeaseKept(s: System, n: System, t: Tid)
    requires PerLease(s) && t in s.threads && Uses(s, n, t, s.threads[t])
    requires forall id ::
        Using(n.threads, id) + One(Serves(s.threads[t], id)) ==
        Using(s.threads, id) + One(t in n.threads && Serves(n.threads[t], id))
    ensures PerLease(n)
  {
    hide Using;
  }

  lemma IdentitiesKept(s: System, n: System, t: Tid)
    requires Identities(s) && t in s.threads && Uses(s, n, t, s.threads[t])
    requires n.threads == s.threads - {t} || (t in n.threads && n.threads == s.threads[t := n.threads[t]])
    requires n.history.tids == s.history.tids && n.history.used == s.history.used
    ensures Identities(n)
  {
    hide One;
  }

  lemma RequestKeepsAccounting(s: System, t: Tid, a: RequestMove)
    requires Accounting(s) && t in s.threads && RequestStep(s, t, s.threads[t], a).To?
    ensures Accounting(RequestStep(s, t, s.threads[t], a).next)
  {
    var pc, n := s.threads[t], RequestStep(s, t, s.threads[t], a).next;
    hide InFlight, Contending, Using, Uses, Identities, PerLease;
    if Counted(pc) { CountedIsPositive(s, t); }
    RequestCounts(s, t, pc, a);
    RequestUses(s, t, pc, a);
    hide RequestStep, Serves, Counted, Contends;
    OneThreadCounts(s, n, t);
    IdentitiesKept(s, n, t);
    PerLeaseKept(s, n, t);
    assert |n.server.leases| == |s.server.leases| by { SameSize(s, n, t); }
  }

  lemma SameSize(s: System, n: System, t: Tid)
    requires t in s.threads && Uses(s, n, t, s.threads[t])
    ensures |n.server.leases| == |s.server.leases|
  {
  }

  lemma OpKeepsAccounting(s: System, t: Tid, a: OpMove)
    requires Accounting(s) && t in s.threads && OpStep(s, t, s.threads[t], a).To?
    ensures Accounting(OpStep(s, t, s.threads[t], a).next)
  {
    var n := OpStep(s, t, s.threads[t], a).next;
    OpCounts(s, t, s.threads[t], a);
    hide OpStep, InFlight, Contending, Using;
    MovedCounts(s.threads, t, n.threads[t]);
  }

  lemma OpenKeepsAccounting(s: System, a: GlobalMove)
    requires Accounting(s) && a.Open? && GlobalStep(s, a).To?
    ensures Accounting(GlobalStep(s, a).next)
  {
    hide InFlight, Contending, Using;
    CountsAreZero(s.threads);
  }

  // A detach removes one lease and leaves behind a cleanup that counts as a request.
  lemma DetachCounts(s: System, t: Tid, id: LeaseId)
    requires id in s.server.leases
    ensures var n := StepDetach(s, t, id);
            && n.threads == s.threads[t := Closing(id)] && n.server.leases == s.server.leases - {id}
            && n.server.activeLeases == |n.server.leases| && n.server.activeRequests == s.server.activeRequests + 1
            && n.server.foregroundWaiters == s.server.foregroundWaiters
            && n.history.tids == s.history.tids + {t} && n.history.used == s.history.used
  {
  }

  lemma DetachKeepsAccounting(s: System, a: GlobalMove)
    requires Accounting(s) && a.DetachLease? && GlobalStep(s, a).To?
    ensures Accounting(GlobalStep(s, a).next)
  {
    hide InFlight, Contending, Using;
    if a.id in s.server.leases {
      var n := StepDetach(s, a.t, a.id);
      DetachCounts(s, a.t, a.id);
      hide StepDetach;
      assert GlobalStep(s, a).next == n;
      hide GlobalStep, Counted, Contends;
      MovedCounts(s.threads, a.t, Closing(a.id));
      assert Identities(n);
      hide Identities, Serves;
      assert Totals(n) by { hide PerLease; }
    }
  }

  lemma StartKeepsAccounting(s: System, a: GlobalMove)
    requires Accounting(s) && a.Start? && GlobalStep(s, a).To?
    ensures Accounting(GlobalStep(s, a).next)
  {
    hide InFlight, Contending, Using;
    MovedCounts(s.threads, a.t, InRequest(a.lease));
  }

  lemma WatchKeepsAccounting(s: System, a: GlobalMove)
    requires Accounting(s) && (a.WatchPass? || a.Tick? || a.Publish?) && GlobalStep(s, a).To?
    ensures Accounting(GlobalStep(s, a).next)
  {
    hide InFlight, Contending, Using, IdleDrains;
    var n := GlobalStep(s, a).next;
    assert n.server.leases.Keys == s.server.leases.Keys;
    assert |n.server.leases| == |n.server.leases.Keys| == |s.server.leases.Keys| == |s.server.leases|;
  }

  // A background step changes neither the server nor the threads.
  lemma BackgroundLeaves(s: System, a: BackgroundMove)
    requires BackgroundStep(s, a).To?
    ensures var n := BackgroundStep(s, a).next;
            && n.server == s.server && n.threads == s.threads && n.now == s.now && n.published == s.published
            && n.config == s.config
            && n.history == s.history.(slices := n.history.slices)
  {
  }

  lemma StepKeepsAccounting(s: System, a: Action)
    requires Accounting(s) && Next(s, a).To?
    ensures Accounting(Next(s, a).next)
  {
    match a
    case Global(m) =>
      hide Accounting, GlobalStep;
      match m {
        case Open(_, _, _) => OpenKeepsAccounting(s, m);
        case DetachLease(_, _) => DetachKeepsAccounting(s, m);
        case Start(_, _) => StartKeepsAccounting(s, m);
        case _ => WatchKeepsAccounting(s, m);
      }
    case OfRequest(t, m) =>
      hide Accounting, RequestStep;
      RequestKeepsAccounting(s, t, m);
    case OfOp(t, m) =>
      hide Accounting, OpStep;
      OpKeepsAccounting(s, t, m);
    case OfBackground(m) =>
      BackgroundLeaves(s, m);
      hide BackgroundStep, InFlight, Contending, Using;
  }

  // ------------------------------------------------------------- the backend

  predicate HasBackend(b: Background) {
    b.Acquired? || b.Slicing? || b.Finishing?
  }

  /** One holder of the backend lock at a time: so at most one operation body or analysis
      slice. */
  ghost predicate Exclusive(s: System) {
    && (forall t | t in s.threads :: Holds(s.threads[t]) <==> s.lock == Foreground(t))
    && (s.lock.Foreground? ==> s.lock.holder in s.threads)
    && (s.lock.Analysis? <==> HasBackend(s.background))
  }

  // The running fields name the thread in an operation's body, and nobody when there is none.
  ghost predicate Named(s: System) {
    && (forall t | t in s.threads && InBody(s.threads[t]) ::
          s.server.runningLease == s.threads[t].lease && s.server.runningOp == s.threads[t].op)
    && ((forall t | t in s.threads :: !InBody(s.threads[t])) ==>
        s.server.runningLease.None? && s.server.runningOp.None?)
  }

  ghost predicate Backend(s: System) {
    Exclusive(s) && Named(s)
  }

  predicate NamedBy(s: Server, pc: Pc) {
    if InBody(pc) then s.runningLease == pc.lease && s.runningOp == pc.op else s.runningLease.None? && s.runningOp.None?
  }

  // How an operation's step moves the lock and the running fields.
  lemma OpBackend(s: System, t: Tid, pc: Pc, a: OpMove)
    requires t in s.threads && OpStep(s, t, pc, a).To?
    requires Holds(pc) <==> s.lock == Foreground(t)
    requires Holds(pc) ==> NamedBy(s.server, pc)
    ensures var n := OpStep(s, t, pc, a).next;
            && t in n.threads && n.threads == s.threads[t := n.threads[t]]
            && n.background == s.background && n.history.slices == s.history.slices
            && (Holds(n.threads[t]) <==> n.lock == Foreground(t))
            && (if Holds(pc) == Holds(n.threads[t]) then n.lock == s.lock
                else if Holds(pc) then n.lock == Free else s.lock == Free)
            && (Holds(pc) ==> NamedBy(n.server, n.threads[t]))
            && (!Holds(pc) ==>
                !InBody(n.threads[t]) && n.server.runningLease == s.server.runningLease
                && n.server.runningOp == s.server.runningOp)
  {
  }

  // Whoever holds the lock is named, since nobody else is in a body.
  lemma HolderIsNamed(s: System, t: Tid)
    requires Exclusive(s) && Named(s) && t in s.threads && Holds(s.threads[t])
    ensures NamedBy(s.server, s.threads[t])
  {
    assert forall u | u in s.threads && InBody(s.threads[u]) :: Holds(s.threads[u]) && u == t;
  }

  lemma OpKeepsBackend(s: System, t: Tid, a: OpMove)
    requires Backend(s) && t in s.threads && OpStep(s, t, s.threads[t], a).To?
    ensures Backend(OpStep(s, t, s.threads[t], a).next)
  {
    var pc, n := s.threads[t], OpStep(s, t, s.threads[t], a).next;
    if Holds(pc) { HolderIsNamed(s, t); }
    OpBackend(s, t, pc, a);
    hide OpStep;
    assert Exclusive(n);
    if Holds(pc) {
      assert forall u | u in n.threads && u != t :: !InBody(n.threads[u]);
    } else {
      assert forall u | u in n.threads && u != t :: n.threads[u] == s.threads[u];
      if forall u | u in n.threads :: !InBody(n.threads[u]) {
        assert forall u | u in s.threads :: u != t ==> !InBody(n.threads[u]);
      }
    }
  }

  // A step outside operations leaves the backend alone.
  lemma RequestBackend(s: System, t: Tid, pc: Pc, a: RequestMove)
    requires t in s.threads && RequestStep(s, t, pc, a).To?
    ensures var n := RequestStep(s, t, pc, a).next;
            && (n.threads == s.threads - {t}
                || (t in n.threads && n.threads == s.threads[t := n.threads[t]] && !IsOp(n.threads[t])))
            && !IsOp(pc) && n.lock == s.lock && n.background == s.background
            && n.server.runningLease == s.server.runningLease && n.server.runningOp == s.server.runningOp
            && n.history.slices == s.history.slices
  {
  }

  ghost predicate OthersSame(s: System, n: System, moved: set<Tid>) {
    forall t | t !in moved :: (t in n.threads <==> t in s.threads) && (t in s.threads ==> n.threads[t] == s.threads[t])
  }

  // The threads that begin are new to the history.
  lemma BegunThreads(s: System, a: GlobalMove)
    requires GlobalStep(s, a).To?
    ensures var n := GlobalStep(s, a).next;
            && OthersSame(s, n, Begun(s, a).Keys)
            && n.history.tids == s.history.tids + Begun(s, a).Keys
            && forall t | t in Begun(s, a) ::
                 t !in s.history.tids && t in n.threads && (n.threads[t].InRequest? || n.threads[t].Closing?)
  {
    hide ExpireIdle, IdleDrains, Detach, ShutdownPending, OpenLease, ArmGrace, Scan;
  }

  lemma GlobalBackend(s: System, a: GlobalMove)
    requires GlobalStep(s, a).To?
    ensures var n := GlobalStep(s, a).next;
            && n.lock == s.lock && n.background == s.background
            && SameOps(s.server, n.server)
            && n.history.slices == s.history.slices
  {
    LeasesOnly(s.server);
    hide IdleDrains, ShutdownPending, Detach, OpenLease, StartRequest, ArmGrace, Scan;
  }

  // Whatever leaves lock, running fields and other threads alone keeps the invariant.
  lemma UntouchedBackend(s: System, n: System, moved: set<Tid>)
    requires Backend(s) && OthersSame(s, n, moved)
    requires n.lock == s.lock && n.background == s.background
    requires n.server.runningLease == s.server.runningLease && n.server.runningOp == s.server.runningOp
    requires forall t | t in moved && t in s.threads :: !IsOp(s.threads[t])
    requires forall t | t in moved && t in n.threads :: !IsOp(n.threads[t])
    ensures Backend(n)
  {
  }

  lemma BackgroundKeepsBackend(s: System, a: BackgroundMove)
    requires Backend(s) && Totals(s) && BackgroundStep(s, a).To?
    ensures Backend(BackgroundStep(s, a).next)
  {
    hide InFlight, Contending, Using;
    CountsAreZero(s.threads);
    BackgroundLeaves(s, a);
    BackgroundLocks(s, a);
    hide BackgroundStep;
  }

  lemma BackgroundLocks(s: System, a: BackgroundMove)
    requires BackgroundStep(s, a).To? && (s.lock.Analysis? <==> HasBackend(s.background))
    ensures var n := BackgroundStep(s, a).next;
            && (n.lock.Analysis? <==> HasBackend(n.background))
            && (n.lock != s.lock ==> !n.lock.Foreground? && !s.lock.Foreground?)
            && (HasBackend(n.background) && !HasBackend(s.background) ==> s.server.foregroundWaiters == 0)
            && n.history.slices == s.history.slices + One(n.background.Slicing? && !s.background.Slicing?)
            && (n.background.Slicing? && !s.background.Slicing? ==> s.background.Acquired?)
            && (n.background.Acquired? && !s.background.Acquired? ==> !HasBackend(s.background))
  {
  }

  lemma GlobalKeepsBackend(s: System, a: GlobalMove)
    requires Backend(s) && Identities(s) && GlobalStep(s, a).To?
    ensures Backend(GlobalStep(s, a).next)
  {
    var n := GlobalStep(s, a).next;
    GlobalBackend(s, a);
    BegunThreads(s, a);
    hide GlobalStep, Begun, Backend;
    UntouchedBackend(s, n, Begun(s, a).Keys);
  }

  lemma RequestKeepsBackend(s: System, t: Tid, a: RequestMove)
    requires Backend(s) && t in s.threads && RequestStep(s, t, s.threads[t], a).To?
    ensures Backend(RequestStep(s, t, s.threads[t], a).next)
  {
    RequestBackend(s, t, s.threads[t], a);
    hide RequestStep, Backend;
    UntouchedBackend(s, RequestStep(s, t, s.threads[t], a).next, {t});
  }

  lemma StepKeepsBackend(s: System, a: Action)
    requires Backend(s) && Accounting(s) && Next(s, a).To?
    ensures Backend(Next(s, a).next)
  {
    hide Backend, Identities, Totals, PerLease;
    match a
    case Global(m) =>
      hide GlobalStep;
      GlobalKeepsBackend(s, m);
    case OfRequest(t, m) =>
      hide RequestStep;
      RequestKeepsBackend(s, t, m);
    case OfOp(t, m) =>
      hide OpStep;
      OpKeepsBackend(s, t, m);
    case OfBackground(m) =>
      hide BackgroundStep;
      BackgroundKeepsBackend(s, m);
  }
}
