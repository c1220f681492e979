/** The barrier that initial analysis settles, with the callbacks waiting on it. */
module AnalysisBarrier {

  type Callback = nat

  datatype Status = Running | Disabled | Complete

  datatype Barrier = Barrier(status: Status, complete: bool, callbacks: seq<Callback>)

  const UNSETTLED: Barrier := Barrier(Running, false, [])

  // Settling is refused for `Running`; it hands out the callbacks to run.
  function Mark(b: Barrier, status: Status): (Barrier, seq<Callback>) {
    if status.Running? then (b, [])
    else if b.complete then (if b.status.Disabled? && status.Complete? then b.(status := status) else b, [])
    else (Barrier(status, true, []), b.callbacks)
  }

  function Add(b: Barrier, callback: Callback): (Barrier, seq<Callback>) {
    if b.complete then (b, [callback]) else (b.(callbacks := b.callbacks + [callback]), [])
  }

  class AnalysisState {
    var status: Status
    var complete: bool
    var callbacks: seq<Callback>

    function View(): Barrier
      reads this
    {
      Barrier(status, complete, callbacks)
    }

    constructor ()
      ensures View() == UNSETTLED
    {
      status, complete, callbacks := Running, false, [];
    }

    method MarkComplete(outcome: Status) returns (valid: bool, toRun: seq<Callback>)
      modifies this
      ensures valid == !outcome.Running?
      ensures (View(), toRun) == Mark(old(View()), outcome)
    {
      valid, toRun := true, [];
      if outcome.Running? { return false, []; }
      if complete {
        if status.Disabled? && outcome.Complete? { status := outcome; }
        return;
      }
      status := outcome;
      complete := true;
      toRun := callbacks;
      callbacks := [];
    }

    method AddCompletionCallback(callback: Callback) returns (toRun: seq<Callback>)
      modifies this`callbacks
      ensures (View(), toRun) == Add(old(View()), callback)
    {
      if complete { return [callback]; }
      callbacks := callbacks + [callback];
      toRun := [];
    }
  }

  datatype Event = Marked(status: Status) | Added(callback: Callback)

  // The barrier after some events, and the callbacks run so far.
  function After(events: seq<Event>): (Barrier, seq<Callback>) {
    if events == [] then (UNSETTLED, []) else
    var (b, ran) := After(events[..|events| - 1]);
    var (c, more) :=
        match events[|events| - 1] case Marked(status) => Mark(b, status) case Added(callback) => Add(b, callback);
    (c, ran + more)
  }

  function Registered(events: seq<Event>): multiset<Callback> {
    if events == [] then multiset{} else
    Registered(events[..|events| - 1])
    + RegisteredBy(events[|events| - 1])
  }

  function RegisteredBy(e: Event): multiset<Callback> {
    match e case Marked(_) => multiset{} case Added(callback) => multiset{callback}
  }

  predicate Settles(e: Event) {
    e.Marked? && !e.status.Running?
  }

  function Rank(s: Status): nat {
    match s case Running => 0 case Disabled => 1 case Complete => 2
  }

  lemma SettledBy(events: seq<Event>)
    requires events != []
    ensures var last := |events| - 1;
            (exists i :: 0 <= i < |events| && Settles(events[i]))
            <==> (exists i :: 0 <= i < last && Settles(events[..last][i])) || Settles(events[last])
  {
    var last := |events| - 1;
    if i :| 0 <= i < |events| && Settles(events[i]) && i != last { assert Settles(events[..last][i]); }
  }

  lemma StepKeepsCallbacks(b: Barrier, ran: seq<Callback>, e: Event)
    requires if b.complete then b.callbacks == [] else ran == []
    requires b.complete <==> !b.status.Running?
    ensures var (c, more) := match e case Marked(status) => Mark(b, status) case Added(callback) => Add(b, callback);
            && (c.complete <==> b.complete || Settles(e))
            && multiset(ran + more) + multiset(c.callbacks)
               == multiset(ran) + multiset(b.callbacks) + RegisteredBy(e)
            && (if c.complete then c.callbacks == [] else ran + more == [])
            && (c.complete <==> !c.status.Running?)
  {
  }

  /** Each callback registered runs exactly once if the barrier was settled, before or after
      it was registered, and otherwise not at all. The barrier is settled from the first
      settling event on. */
  lemma {:induction false} CallbacksRunOnce(events: seq<Event>)
    ensures var (b, ran) := After(events);
            && (b.complete <==> exists i :: 0 <= i < |events| && Settles(events[i]))
            && multiset(ran) + multiset(b.callbacks) == Registered(events)
            && (if b.complete then b.callbacks == [] else ran == [])
            && (b.complete <==> !b.status.Running?)
  {
    if events != [] {
      var last := |events| - 1;
      var (b, ran) := After(events[..last]);
      CallbacksRunOnce(events[..last]);
      SettledBy(events);
      StepKeepsCallbacks(b, ran, events[last]);
      hide Mark, Add, Settles;
    }
  }

  ghost predicate MarkedAs(events: seq<Event>, status: Status) {
    exists i :: 0 <= i < |events| && events[i] == Marked(status)
  }

  lemma MarkedLast(events: seq<Event>, status: Status)
    requires events != []
    ensures MarkedAs(events, status) <==>
        MarkedAs(events[..|events| - 1], status) || events[|events| - 1] == Marked(status)
  {
    var last := |events| - 1;
    if i :| 0 <= i < last && events[..last][i] == Marked(status) { assert events[i] == Marked(status); }
    if i :| 0 <= i < |events| && events[i] == Marked(status) && i != last { assert events[..last][i] == events[i]; }
  }

  lemma CompleteIsSettled(events: seq<Event>)
    ensures After(events).0.complete <==> !After(events).0.status.Running?
  {
    CallbacksRunOnce(events);
  }

  /** Over every sequence of calls: the status is complete exactly if the barrier was ever
      marked so, disabled exactly if it was only marked that, and running if neither. */
  lemma {:induction false} StatusIsWhatWasMarked(events: seq<Event>)
    ensures After(events).0.status == if MarkedAs(events, Complete) then Complete
                                      else if MarkedAs(events, Disabled) then Disabled else Running
  {
    if events != [] {
      var front := events[..|events| - 1];
      StatusIsWhatWasMarked(front);
      CompleteIsSettled(front);
      MarkedLast(events, Complete);
      MarkedLast(events, Disabled);
      hide MarkedAs;
    }
  }

  /** The status only moves from running to disabled or complete, and from disabled to
      complete. */
  lemma {:induction false} StatusOnlyAdvances(events: seq<Event>, more: seq<Event>)
    ensures Rank(After(events).0.status) <= Rank(After(events + more).0.status)
    ensures After(events).0.complete ==> After(events + more).0.complete
    decreases |more|
  {
    if more == [] {
      assert events + more == events;
    } else {
      var last := |more| - 1;
      StatusOnlyAdvances(events, more[..last]);
      assert (events + more)[..|events + more| - 1] == events + more[..last];
      CallbacksRunOnce(events + more[..last]);
    }
  }
}

/** Installing and removing the database change hook, under its own lock, as subscribers
    come and go, analysis completes and the server starts shutting down. */
module EventHook {
  import opened Basics

  // The flags the hook depends on, the subscriber count, and whether it is installed.
  datatype Hook = Hook(shuttingDown: bool, complete: bool, subscribers: int, enabled: bool)

  predicate Wanted(h: Hook) {
    h.complete && h.subscribers > 0 && !h.shuttingDown
  }

  function Enable(h: Hook, wanted: bool, fails: bool): Hook {
    if wanted && !h.enabled && !fails then h.(enabled := true) else h
  }

  function Disable(h: Hook, idle: bool, fails: bool): Hook {
    if idle && h.enabled && !fails then h.(enabled := false) else h
  }

  // Whether the backend was called and failed.
  predicate EnableFails(h: Hook, wanted: bool, fails: bool) {
    wanted && !h.enabled && fails
  }

  predicate DisableFails(h: Hook, idle: bool, fails: bool) {
    idle && h.enabled && fails
  }

  class NexusHooks {
    var shuttingDown: bool
    var complete: bool
    var subscribers: int
    var enabled: bool

    function View(): Hook
      reads this
    {
      Hook(shuttingDown, complete, subscribers, enabled)
    }

    method CountSubscriber() returns (accepted: bool)
      modifies this`subscribers
      ensures accepted == !shuttingDown
      ensures View() == if accepted then old(View()).(subscribers := old(subscribers) + 1) else old(View())
    {
      if shuttingDown { return false; }
      subscribers := subscribers + 1;
      accepted := true;
    }

    /** The decision and the installation are two critical sections of the caller; whatever
        happens between them, the hook ends up installed only if it already was or the
        decision said so and the backend did not fail. */
    method EnableDecided(wanted: bool, fails: bool) returns (failed: bool)
      modifies this`enabled
      ensures View() == Enable(old(View()), wanted, fails)
      ensures failed == EnableFails(old(View()), wanted, fails)
    {
      if wanted && !enabled {
        if fails { return true; }
        enabled := true;
      }
      failed := false;
    }

    method UncountSubscriber() returns (idle: bool)
      modifies this`subscribers
      ensures View() == old(View()).(subscribers := old(subscribers) - 1) && idle == (subscribers == 0)
    {
      subscribers := subscribers - 1;
      idle := subscribers == 0;
    }

    method DisableDecided(idle: bool, fails: bool) returns (failed: bool)
      modifies this`enabled
      ensures View() == Disable(old(View()), idle, fails)
      ensures failed == DisableFails(old(View()), idle, fails)
    {
      if idle && enabled {
        if fails { return true; }
        enabled := false;
      }
      failed := false;
    }
  }

  // ------------------------------------------------------------ interleaving

  type Tid = nat

  // Where a call is. `holds` says whether its thread is a counted subscriber; the
  // completion callback enables the hook without being one.
  datatype Pc =
    | Subscribing                           // counted, about to look at the barrier
    | Enabling(holds: bool)                 // about to take the hook lock
    | EnableLocked(holds: bool)
    | EnableRead(holds: bool, wanted: bool)
    | Subscribed                            // no call under way
    | Withdrawing                           // enabling failed; about to unsubscribe
    | Disabling
    | DisableLocked
    | DisableRead(idle: bool)

  // `failed` records that a call of the backend failed.
  datatype System = System(hook: Hook, lock: Option<Tid>, threads: map<Tid, Pc>, failed: bool)

  predicate Holds(pc: Pc) {
    pc.Subscribing? || pc.Subscribed? || pc.Withdrawing?
    || ((pc.Enabling? || pc.EnableLocked? || pc.EnableRead?) && pc.holds)
  }

  predicate InLock(pc: Pc) {
    pc.EnableLocked? || pc.EnableRead? || pc.DisableLocked? || pc.DisableRead?
  }

  // On its way to installing the hook if it is wanted, or to removing it if it is idle.
  predicate WillEnable(pc: Pc) {
    pc.Subscribing? || pc.Enabling? || pc.EnableLocked? || (pc.EnableRead? && pc.wanted)
  }

  predicate WillDisable(pc: Pc) {
    pc.Disabling? || pc.DisableLocked? || (pc.DisableRead? && pc.idle)
  }

  datatype Action =
    | BeginShutdown
    | Complete(t: Tid)              // analysis settles; its callback runs on `t`
    | Subscribe(t: Tid)
    | CheckBarrier(t: Tid)
    | Reenable(t: Tid)              // the stream enables again before its first event
    | TakeLock(t: Tid)
    | Read(t: Tid)
    | Act(t: Tid, fails: bool)
    | Unsubscribe(t: Tid)

  datatype Stepped = Stuck | To(next: System)

  function Put(s: System, t: Tid, pc: Pc): System {
    s.(threads := s.threads[t := pc])
  }

  function Drop(s: System, t: Tid): System {
    s.(threads := s.threads - {t})
  }

  // After enabling: back to its caller, if it was a subscriber.
  function Enabled(s: System, t: Tid, pc: Pc, fails: bool): System
    requires pc.EnableRead?
  {
    var n := s.(hook := Enable(s.hook, pc.wanted, fails), lock := None,
                failed := s.failed || EnableFails(s.hook, pc.wanted, fails));
    if !pc.holds then Drop(n, t)
    else Put(n, t, if EnableFails(s.hook, pc.wanted, fails) then Withdrawing else Subscribed)
  }

  function Disabled(s: System, t: Tid, pc: Pc, fails: bool): System
    requires pc.DisableRead?
  {
    Drop(s.(hook := Disable(s.hook, pc.idle, fails), lock := None,
            failed := s.failed || DisableFails(s.hook, pc.idle, fails)), t)
  }

  function ThreadStep(s: System, t: Tid, pc: Pc, a: Action): Stepped {
    match a
    case CheckBarrier(_) =>
      if pc.Subscribing? then To(Put(s, t, if s.hook.complete then Enabling(true) else Subscribed)) else Stuck
    case Reenable(_) => if pc.Subscribed? && s.hook.complete then To(Put(s, t, Enabling(true))) else Stuck
    case TakeLock(_) =>
      if s.lock.Some? then Stuck
      else if pc.Enabling? then To(Put(s, t, EnableLocked(pc.holds)).(lock := Some(t)))
      else if pc.Disabling? then To(Put(s, t, DisableLocked).(lock := Some(t)))
      else Stuck
    case Read(_) =>
      if pc.EnableLocked? then To(Put(s, t, EnableRead(pc.holds, Wanted(s.hook))))
      else if pc.DisableLocked? then To(Put(s, t, DisableRead(s.hook.subscribers == 0)))
      else Stuck
    case Act(_, fails) =>
      if pc.EnableRead? then To(Enabled(s, t, pc, fails))
      else if pc.DisableRead? then To(Disabled(s, t, pc, fails))
      else Stuck
    case Unsubscribe(_) =>
      if !pc.Subscribed? && !pc.Withdrawing? then Stuck
      else
        var n := s.(hook := s.hook.(subscribers := s.hook.subscribers - 1));
        To(if n.hook.subscribers == 0 then Put(n, t, Disabling) else Drop(n, t))
    case _ => Stuck
  }

  function Next(s: System, a: Action): Stepped {
    match a
    case BeginShutdown => To(s.(hook := s.hook.(shuttingDown := true)))
    case Complete(t) =>
      if s.hook.complete then To(s) else if t in s.threads then Stuck
      else To(Put(s.(hook := s.hook.(complete := true)), t, Enabling(false)))
    case Subscribe(t) =>
      if t in s.threads then Stuck else if s.hook.shuttingDown then To(s)
      else To(Put(s.(hook := s.hook.(subscribers := s.hook.subscribers + 1)), t, Subscribing))
    case _ => if a.t in s.threads then ThreadStep(s, a.t, s.threads[a.t], a) else Stuck
  }

  // --------------------------------------------------------------- invariant

  function Holders(threads: map<Tid, Pc>): set<Tid> {
    set t | t in threads && Holds(threads[t])
  }

  ghost predicate Locking(s: System) {
    && (forall t | t in s.threads :: InLock(s.threads[t]) <==> s.lock == Some(t))
    && (s.lock.Some? ==> s.lock.value in s.threads)
  }

  // A thread about to remove the hook counts as having removed it, and a thread about to
  // install it as having installed it.
  ghost predicate OffSoon(s: System) {
    !s.hook.enabled || exists t :: t in s.threads && s.threads[t] == DisableRead(true)
  }

  ghost predicate OnSoon(s: System) {
    s.hook.enabled || exists t :: t in s.threads && s.threads[t].EnableRead? && s.threads[t].wanted
  }

  /** The count is the number of subscribers; the hook is on only after analysis; and unless
      the backend failed, somebody is on the way to setting right what is not right. */
  ghost predicate Invariant(s: System) {
    && Locking(s)
    && s.hook.subscribers == |Holders(s.threads)|
    && (OnSoon(s) ==> s.hook.complete)
    && OnFollows(s) && OffFollows(s)
  }

  ghost predicate OnFollows(s: System) {
    !s.failed && Wanted(s.hook) && OffSoon(s) ==> exists t :: t in s.threads && WillEnable(s.threads[t])
  }

  ghost predicate OffFollows(s: System) {
    !s.failed && s.hook.subscribers == 0 && OnSoon(s) ==> exists t :: t in s.threads && WillDisable(s.threads[t])
  }

  predicate Initial(s: System) {
    s.hook == Hook(false, false, 0, false) && s.lock.None? && s.threads == map[] && !s.failed
  }

  lemma SizeWithout(a: set<Tid>, t: Tid)
    ensures |a - {t}| == if t in a then |a| - 1 else |a|
  {
    if t !in a { assert a - {t} == a; }
  }

  lemma HoldersMoved(s: System, n: System, t: Tid)
    requires forall u | u != t ::
        (u in n.threads <==> u in s.threads) && (u in s.threads ==> n.threads[u] == s.threads[u])
    ensures |Holders(n.threads)| - (if t in n.threads && Holds(n.threads[t]) then 1 else 0)
            == |Holders(s.threads)| - (if t in s.threads && Holds(s.threads[t]) then 1 else 0)
  {
    var a, b := Holders(s.threads), Holders(n.threads);
    hide Holds;
    assert (t in a <==> t in s.threads && Holds(s.threads[t])) && (t in b <==> t in n.threads && Holds(n.threads[t]));
    assert forall u | u != t :: u in a <==> u in b;
    hide Holders;
    assert a - {t} == b - {t};
    SizeWithout(a, t);
    SizeWithout(b, t);
  }

  lemma ThreadKeepsLocking(s: System, t: Tid, a: Action)
    requires Invariant(s) && t in s.threads && ThreadStep(s, t, s.threads[t], a).To?
    ensures var n := ThreadStep(s, t, s.threads[t], a).next;
            Locking(n) && n.hook.subscribers == |Holders(n.threads)| && (OnSoon(n) ==> n.hook.complete)
  {
    HoldersMoved(s, ThreadStep(s, t, s.threads[t], a).next, t);
    hide Holders, OnFollows, OffFollows;
  }

  lemma ThreadKeepsOn(s: System, t: Tid, a: Action)
    requires Locking(s) && OnFollows(s) && t in s.threads && ThreadStep(s, t, s.threads[t], a).To?
    ensures OnFollows(ThreadStep(s, t, s.threads[t], a).next)
  {
    var n := ThreadStep(s, t, s.threads[t], a).next;
    if u :| u in s.threads && WillEnable(s.threads[u]) && u != t { assert u in n.threads && WillEnable(n.threads[u]); }
    if t in n.threads && WillEnable(n.threads[t]) { assert exists u :: u in n.threads && WillEnable(n.threads[u]); }
  }

  lemma ThreadKeepsOff(s: System, t: Tid, a: Action)
    requires Locking(s) && OffFollows(s) && t in s.threads && ThreadStep(s, t, s.threads[t], a).To?
    ensures OffFollows(ThreadStep(s, t, s.threads[t], a).next)
  {
    var n := ThreadStep(s, t, s.threads[t], a).next;
    if u :| u in s.threads && WillDisable(s.threads[u]) && u != t {
      assert u in n.threads && WillDisable(n.threads[u]);
    }
    if t in n.threads && WillDisable(n.threads[t]) { assert exists u :: u in n.threads && WillDisable(n.threads[u]); }
  }

  lemma ThreadKeepsInvariant(s: System, t: Tid, a: Action)
    requires Invariant(s) && t in s.threads && ThreadStep(s, t, s.threads[t], a).To?
    ensures Invariant(ThreadStep(s, t, s.threads[t], a).next)
  {
    ThreadKeepsLocking(s, t, a);
    ThreadKeepsOn(s, t, a);
    ThreadKeepsOff(s, t, a);
    hide ThreadStep, Locking, OnFollows, OffFollows;
  }

  // A thread that begins is itself on its way to enabling.
  lemma BegunKeepsInvariant(s: System, a: Action)
    requires Invariant(s) && (a.Complete? || a.Subscribe?) && Next(s, a).To?
    ensures Invariant(Next(s, a).next)
  {
    var n := Next(s, a).next;
    if n != s {
      HoldersMoved(s, n, a.t);
      hide Holders;
      assert a.t in n.threads && WillEnable(n.threads[a.t]);
      assert forall u | u in s.threads :: u in n.threads && n.threads[u] == s.threads[u];
      assert OnSoon(n) ==> OnSoon(s);
    }
  }

  lemma StepKeepsInvariant(s: System, a: Action)
    requires Invariant(s) && Next(s, a).To?
    ensures Invariant(Next(s, a).next)
  {
    if a.BeginShutdown? {
    } else if a.Complete? || a.Subscribe? {
      BegunKeepsInvariant(s, a);
    } else {
      ThreadKeepsInvariant(s, a.t, a);
      hide Invariant;
    }
  }

  // -------------------------------------------------------------------- runs

  predicate IsRun(run: seq<System>, actions: seq<Action>) {
    && |run| == |actions| + 1 && Initial(run[0])
    && forall i | 0 <= i < |actions| :: Next(run[i], actions[i]) == To(run[i + 1])
  }

  lemma {:induction false} RunKeepsInvariant(run: seq<System>, actions: seq<Action>, i: nat)
    requires IsRun(run, actions) && i < |run|
    ensures Invariant(run[i])
  {
    if i > 0 {
      RunKeepsInvariant(run, actions, i - 1);
      assert Next(run[i - 1], actions[i - 1]) == To(run[i - 1 + 1]);
      hide Next, Invariant;
      StepKeepsInvariant(run[i - 1], actions[i - 1]);
    }
  }

  predicate Settled(s: System) {
    !s.failed && forall t | t in s.threads :: s.threads[t].Subscribed?
  }

  /** Once no call is under way and no call of the backend failed: the hook is installed
      only if analysis is complete and a subscriber remains, and it is installed whenever
      both hold and the server is not shutting down. */
  lemma SettledHook(run: seq<System>, actions: seq<Action>, i: nat)
    requires IsRun(run, actions) && i < |run| && Settled(run[i])
    ensures var s := run[i];
            && s.hook.subscribers == |s.threads|
            && (s.hook.enabled ==> s.hook.complete && s.threads != map[])
            && (s.hook.complete && s.threads != map[] && !s.hook.shuttingDown ==> s.hook.enabled)
  {
    RunKeepsInvariant(run, actions, i);
    hide IsRun;
    var s := run[i];
    assert Holders(s.threads) == s.threads.Keys;
    assert |s.threads| == |s.threads.Keys|;
    assert |s.threads| == 0 <==> s.threads == map[];
  }

  /** Whatever is under way, an installed hook means that analysis is complete. */
  lemma HookAfterAnalysis(run: seq<System>, actions: seq<Action>, i: nat)
    requires IsRun(run, actions) && i < |run|
    ensures run[i].hook.enabled ==> run[i].hook.complete
  {
    RunKeepsInvariant(run, actions, i);
  }
}
