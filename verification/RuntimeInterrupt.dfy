/** Interruption of the one operation a runtime executes at a time: each operation is a
    generation, and timeouts and cancels carry the generation they are aimed at. */
module RuntimeState {
  import opened Basics

  // `wait_autoanalysis` runs as Analysis; everything else is Work.
  datatype Kind = Analysis | Work(name: string)

  // The fields that `_active_lock` guards, and IDA's native cancel flag. The cancel event
  // is present while an operation is active and holds whether it is set.
  datatype Runtime = Runtime(
    generation: nat,
    kind: Option<Kind>,
    cancelEvent: Option<bool>,
    threadId: Option<nat>,
    error: Option<nat>,
    native: bool)

  // An interrupt under way: whom it is aimed at and the error object it carries.
  datatype Attempt = Attempt(generation: nat, kind: Kind, error: nat)

  function Begin(r: Runtime, kind: Kind): Runtime {
    r.(generation := r.generation + 1, kind := Some(kind), cancelEvent := Some(false), threadId := None, error := None)
  }

  function Leave(r: Runtime, generation: nat): Runtime {
    if r.generation == generation then r.(threadId := None) else r
  }

  function Finish(r: Runtime, generation: nat): Runtime {
    if r.generation == generation then r.(kind := None, cancelEvent := None, threadId := None, error := None) else r
  }

  predicate Accepts(r: Runtime, a: Attempt) {
    r.generation == a.generation && r.kind == Some(a.kind) && r.cancelEvent.Some? && r.error.None?
  }

  // The exception is injected into the registered thread, except into an analysis.
  predicate Injects(r: Runtime, a: Attempt) {
    Accepts(r, a) && r.threadId.Some? && a.kind != Analysis
  }

  function Interrupt(r: Runtime, gui: bool, a: Attempt): Runtime {
    if Accepts(r, a) then r.(error := Some(a.error), cancelEvent := Some(true), native := r.native || !gui) else r
  }

  // What a GUI runs later on its own thread.
  function CancelNative(r: Runtime, a: Attempt): Runtime {
    if r.generation == a.generation && r.kind == Some(a.kind) && r.error == Some(a.error) && r.threadId.Some?
    then r.(native := true) else r
  }

  /** The runtime object. Each method is one critical section or one native call. */
  class IDARuntime {
    const gui: bool
    var generation: nat
    var kind: Option<Kind>
    var cancelEvent: Option<bool>
    var threadId: Option<nat>
    var error: Option<nat>
    var native: bool

    function View(): Runtime
      reads this
    {
      Runtime(generation, kind, cancelEvent, threadId, error, native)
    }

    constructor (gui: bool)
      ensures this.gui == gui && View() == Runtime(0, None, None, None, None, false)
    {
      this.gui := gui;
      generation, kind, cancelEvent, threadId, error, native := 0, None, None, None, None, false;
    }

    method BeginOperation(kind: Kind) returns (g: nat)
      modifies this
      ensures View() == Begin(old(View()), kind) && g == generation
    {
      generation := generation + 1;
      g := generation;
      this.kind := Some(kind);
      cancelEvent := Some(false);
      threadId := None;
      error := None;
    }

    method EnterCall(thread: nat) returns (pending: Option<nat>)
      modifies this`threadId
      ensures View() == old(View()).(threadId := Some(thread)) && pending == error
    {
      threadId := Some(thread);
      pending := error;
    }

    method LeaveCall(g: nat)
      modifies this`threadId
      ensures View() == Leave(old(View()), g)
    {
      if generation == g { threadId := None; }
    }

    method FinishOperation(g: nat)
      modifies this
      ensures View() == Finish(old(View()), g)
    {
      if generation == g {
        kind := None;
        cancelEvent := None;
        threadId := None;
        error := None;
      }
    }

    method ClearCancelled()
      modifies this`native
      ensures View() == old(View()).(native := false)
    {
      native := false;
    }

    method InterruptActive(g: nat, kind: Kind, e: nat) returns (accepted: bool, injected: bool)
      modifies this
      ensures View() == Interrupt(old(View()), gui, Attempt(g, kind, e))
      ensures accepted == Accepts(old(View()), Attempt(g, kind, e))
      ensures injected == Injects(old(View()), Attempt(g, kind, e))
    {
      if generation != g || this.kind != Some(kind) || cancelEvent.None? || error.Some? {
        return false, false;
      }
      error := Some(e);
      cancelEvent := Some(true);
      if !gui { native := true; }
      return true, threadId.Some? && kind != Analysis;
    }

    method DispatchNative(g: nat, kind: Kind, e: nat)
      modifies this`native
      ensures View() == CancelNative(old(View()), Attempt(g, kind, e))
    {
      if generation == g && this.kind == Some(kind) && error == Some(e) && threadId.Some? {
        native := true;
      }
    }

    // What `cancel_active` aims at, if anything.
    method Target() returns (g: nat, k: Option<Kind>)
      ensures g == generation && k == kind
    {
      g, k := generation, kind;
    }
  }
}

module RuntimeInterrupt {
  import opened Basics
  import opened RuntimeState

  // Where the thread that holds `_operation_lock` is. `Entered` carries the error it found.
  datatype Pc =
    | Idle
    | Begun
    | Invoked
    | Entered(pending: Option<nat>)
    | InBody
    | BodyDone
    | Left
    | Cleaned
    | Cleared
    | Finished

  // When an operation accepted an interrupt: before its thread was registered, while it
  // was, or after the body had ended.
  datatype Phase = Before | During | After

  datatype Acceptance = Acceptance(error: nat, phase: Phase)

  // `attempts` are interrupts some thread is about to deliver, `queued` those a GUI has yet
  // to dispatch. The rest is history: each generation's kind, the interrupt it accepted,
  // the generations injected into, those whose body began, and those whose body is over or
  // will not begin.
  datatype System = System(
    gui: bool,
    runtime: Runtime,
    pc: Pc,
    attempts: set<Attempt>,
    queued: set<Attempt>,
    errors: nat,
    kinds: map<nat, Kind>,
    accepted: map<nat, Acceptance>,
    injected: set<nat>,
    bodies: set<nat>,
    ended: set<nat>)

  datatype Action =
    | DoBegin(kind: Kind)         // take the lock and become the active operation
    | DoClearFirst                // on IDA's thread: clear the native flag
    | DoArmTimeout                // a timeout may fire from now on
    | DoSkip                      // IDA never ran the request
    | DoFail                      // what precedes the call raised
    | DoEnter(thread: nat)        // register the thread
    | DoRaisePending
    | DoStartBody
    | DoEndBody
    | DoLeave
    | DoCleanup
    | DoClearSecond
    | DoFinish
    | DoRelease                   // clear the native flag once more and drop the lock
    | DoCapture                   // `cancel_active` reads its target
    | DoInterrupt(attempt: Attempt)
    | DoDispatch(attempt: Attempt)

  function PhaseOf(pc: Pc): Phase {
    match pc
    case Idle => Before
    case Begun => Before
    case Invoked => Before
    case Entered(_) => During
    case InBody => During
    case BodyDone => During
    case _ => After
  }

  function Aim(s: System, kind: Kind): System {
    s.(attempts := s.attempts + {Attempt(s.runtime.generation, kind, s.errors)}, errors := s.errors + 1)
  }

  function AfterInterrupt(s: System, a: Attempt): System {
    var r, g := s.runtime, a.generation;
    s.(runtime := Interrupt(r, s.gui, a),
       attempts := s.attempts - {a},
       queued := if s.gui && Accepts(r, a) then s.queued + {a} else s.queued,
       accepted := if Accepts(r, a) then s.accepted[g := Acceptance(a.error, PhaseOf(s.pc))] else s.accepted,
       injected := if Injects(r, a) then s.injected + {g} else s.injected)
  }

  /** One step of the system; `None` where the action is not possible. */
  function Next(s: System, a: Action): Option<System> {
    var r, g := s.runtime, s.runtime.generation;
    match a
    case DoBegin(kind) =>
      if !s.pc.Idle? then None
      else Some(s.(pc := Begun, runtime := Begin(r, kind), kinds := s.kinds[g + 1 := kind]))
    case DoClearFirst =>
      if !s.pc.Begun? then None else Some(s.(pc := Invoked, runtime := r.(native := false)))
    case DoArmTimeout =>
      if !s.pc.Invoked? || r.kind.None? then None else Some(Aim(s, r.kind.value))
    case DoSkip =>
      if !s.pc.Begun? then None else Some(s.(pc := Cleared, ended := s.ended + {g}))
    case DoFail =>
      if !s.pc.Invoked? then None else Some(s.(pc := Left, ended := s.ended + {g}))
    case DoEnter(thread) =>
      if !s.pc.Invoked? then None else Some(s.(pc := Entered(r.error), runtime := r.(threadId := Some(thread))))
    case DoRaisePending =>
      if !s.pc.Entered? || s.pc.pending.None? then None else Some(s.(pc := BodyDone, ended := s.ended + {g}))
    case DoStartBody =>
      if !s.pc.Entered? || s.pc.pending.Some? then None else Some(s.(pc := InBody, bodies := s.bodies + {g}))
    case DoEndBody =>
      if !s.pc.InBody? then None else Some(s.(pc := BodyDone, ended := s.ended + {g}))
    case DoLeave =>
      if !s.pc.BodyDone? then None else Some(s.(pc := Left, runtime := Leave(r, g)))
    case DoCleanup =>
      if !s.pc.Left? then None else Some(s.(pc := Cleaned, runtime := Leave(r, g)))
    case DoClearSecond =>
      if !s.pc.Cleaned? then None else Some(s.(pc := Cleared, runtime := r.(native := false)))
    case DoFinish =>
      if !s.pc.Cleared? then None else Some(s.(pc := Finished, runtime := Finish(r, g)))
    case DoRelease =>
      if !s.pc.Finished? then None else Some(s.(pc := Idle, runtime := r.(native := false)))
    case DoCapture =>
      if r.kind.None? then Some(s) else Some(Aim(s, r.kind.value))
    case DoInterrupt(attempt) =>
      if attempt !in s.attempts then None else Some(AfterInterrupt(s, attempt))
    case DoDispatch(attempt) =>
      if attempt !in s.queued then None
      else Some(s.(runtime := CancelNative(r, attempt), queued := s.queued - {attempt}))
  }

  predicate Initial(s: System) {
    && s.runtime == Runtime(0, None, None, None, None, false) && s.pc == Idle
    && s.attempts == {} && s.queued == {} && s.kinds == map[] && s.accepted == map[]
    && s.injected == {} && s.bodies == {} && s.ended == {}
  }

  ghost predicate Leads(s: System, t: System) {
    exists a :: Next(s, a) == Some(t)
  }

  ghost predicate IsRun(run: seq<System>) {
    && run != [] && Initial(run[0])
    && forall i | 0 <= i < |run| - 1 :: Leads(run[i], run[i + 1])
  }

  // ------------------------------------------------------------- invariant

  predicate Active(pc: Pc) { !pc.Idle? && !pc.Finished? }

  // The guarded fields agree with where the operation is.
  ghost predicate FieldsAgree(s: System) {
    var r := s.runtime;
    && (s.pc.Idle? ==> !r.native)
    && (!Active(s.pc) ==> r.kind.None? && r.cancelEvent.None? && r.threadId.None? && r.error.None?)
    && (Active(s.pc) ==>
          && r.kind.Some? && r.cancelEvent == Some(r.error.Some?)
          && r.generation in s.kinds && s.kinds[r.generation] == r.kind.value
          && (r.threadId.Some? <==> PhaseOf(s.pc) == During)
          && (r.native ==> r.error.Some?))
  }

  // The history agrees with the current operation.
  ghost predicate HistoryAgrees(s: System) {
    var r, g := s.runtime, s.runtime.generation;
    && (Active(s.pc) ==> (r.error.Some? <==> g in s.accepted))
    && (Active(s.pc) && g in s.accepted ==> r.error == Some(s.accepted[g].error))
    && (Active(s.pc) && PhaseOf(s.pc) == Before && g in s.accepted ==> s.accepted[g].phase == Before)
    && (s.pc.Entered? ==> s.pc.pending.Some? == (g in s.accepted && s.accepted[g].phase == Before))
    && ((s.pc.Begun? || s.pc.Invoked? || s.pc.Entered?) ==> g !in s.bodies)
    && (s.pc.InBody? ==> !(g in s.accepted && s.accepted[g].phase == Before))
    && (s.pc.BodyDone? || PhaseOf(s.pc) == After ==> g in s.ended)
    && (r.native ==> g in s.accepted)
    && SoFar(s)
  }

  ghost predicate SoFar(s: System) {
    var g := s.runtime.generation;
    && (forall k | k in s.accepted || k in s.injected || k in s.bodies || k in s.kinds :: k <= g)
  }

  /** What became of each accepted interrupt: its operation's body never began; or it was
      injected, unless the operation is an analysis; or the body had already ended. */
  ghost predicate Settled(s: System) {
    && (forall g | g in s.accepted ::
          && g in s.kinds
          && match s.accepted[g].phase
             case Before => g !in s.bodies && g !in s.injected
             case During => g in s.injected <==> s.kinds[g] != Analysis
             case After => g in s.ended && g !in s.injected)
    && (forall g | g in s.injected :: g in s.accepted)
  }

  // Every interrupt under way is aimed at an operation that there was, of its kind.
  ghost predicate Aimed(s: System) {
    forall a | a in s.attempts || a in s.queued :: a.generation in s.kinds && s.kinds[a.generation] == a.kind
  }

  ghost predicate Invariant(s: System) {
    FieldsAgree(s) && HistoryAgrees(s) && Settled(s) && Aimed(s)
  }

  lemma StepKeepsAimed(s: System, a: Action)
    requires FieldsAgree(s) && SoFar(s) && Aimed(s) && Next(s, a).Some?
    ensures Aimed(Next(s, a).value)
  {
    hide Interrupt, CancelNative, Leave, Finish, Accepts, Injects;
  }

  lemma StepKeepsFields(s: System, a: Action)
    requires FieldsAgree(s) && HistoryAgrees(s) && Next(s, a).Some?
    ensures FieldsAgree(Next(s, a).value)
  {
    hide SoFar;
    if !a.DoInterrupt? { hide AfterInterrupt; }
  }

  lemma StepKeepsHistory(s: System, a: Action)
    requires FieldsAgree(s) && HistoryAgrees(s) && Next(s, a).Some?
    ensures HistoryAgrees(Next(s, a).value)
  {
    StepKeepsSoFar(s, a);
    hide SoFar;
    if a.DoCapture? || a.DoDispatch? || a.DoArmTimeout? {
      hide AfterInterrupt;
    } else if !a.DoInterrupt? {
      hide AfterInterrupt, CancelNative, Aim;
    }
  }

  lemma StepKeepsSoFar(s: System, a: Action)
    requires FieldsAgree(s) && SoFar(s) && Next(s, a).Some?
    ensures SoFar(Next(s, a).value)
  {
  }

  lemma InterruptSettles(s: System, a: Attempt)
    requires Invariant(s) && a in s.attempts
    ensures Settled(AfterInterrupt(s, a))
  {
    var t, r := AfterInterrupt(s, a), s.runtime;
    if Accepts(r, a) {
      assert Active(s.pc) && r.generation !in s.accepted && r.generation !in s.injected;
      assert s.kinds[r.generation] == a.kind;
      assert PhaseOf(s.pc) == During <==> r.threadId.Some?;
      assert PhaseOf(s.pc) == Before ==> r.generation !in s.bodies;
    }
  }

  lemma StepKeepsSettled(s: System, a: Action)
    requires Invariant(s) && Next(s, a).Some?
    ensures Settled(Next(s, a).value)
  {
    if a.DoInterrupt? {
      InterruptSettles(s, a.attempt);
    } else if a.DoBegin? {
      var t := Next(s, a).value;
      assert s.runtime.generation + 1 !in s.accepted;
      assert forall g | g in s.accepted :: t.kinds[g] == s.kinds[g];
    } else if a.DoStartBody? {
      var g := s.runtime.generation;
      assert !(g in s.accepted && s.accepted[g].phase == Before);
    }
  }

  // Nothing a generation accepted is ever taken back or replaced.
  ghost predicate Keeps(s: System, t: System) {
    && s.runtime.generation <= t.runtime.generation
    && (forall g | g in s.accepted :: g in t.accepted && t.accepted[g] == s.accepted[g])
    && (forall g | g in s.kinds :: g in t.kinds && t.kinds[g] == s.kinds[g])
    && s.injected <= t.injected && s.bodies <= t.bodies && s.ended <= t.ended
  }

  lemma StepKeeps(s: System, a: Action)
    requires Invariant(s) && Next(s, a).Some?
    ensures Keeps(s, Next(s, a).value)
  {
  }

  lemma KeepsOn(s: System, t: System, u: System)
    requires Keeps(s, t) && Keeps(t, u)
    ensures Keeps(s, u)
  {
  }

  lemma InitialInvariant(s: System)
    requires Initial(s)
    ensures Invariant(s)
  {
  }

  lemma {:induction false} RunKeepsInvariant(run: seq<System>, i: nat)
    requires IsRun(run) && i < |run|
    ensures Invariant(run[i])
  {
    hide Invariant, Next, Initial;
    if i == 0 {
      InitialInvariant(run[0]);
    } else {
      RunKeepsInvariant(run, i - 1);
      var a := StepTaken(run, i - 1);
      StepKeepsInvariant(run[i - 1], a);
    }
  }

  lemma StepTaken(run: seq<System>, i: nat) returns (a: Action)
    requires IsRun(run) && i < |run| - 1
    ensures Next(run[i], a) == Some(run[i + 1])
  {
    hide Next, Initial;
    assert Leads(run[i], run[i + 1]);
    a :| Next(run[i], a) == Some(run[i + 1]);
  }

  lemma {:induction false} RunKeeps(run: seq<System>, i: nat, j: nat)
    requires IsRun(run) && i <= j < |run|
    ensures Keeps(run[i], run[j])
    decreases j
  {
    hide Invariant, Next, Initial, Keeps;
    if i == j {
      KeepsSelf(run[i]);
    } else {
      RunKeeps(run, i, j - 1);
      RunKeepsInvariant(run, j - 1);
      var a := StepTaken(run, j - 1);
      StepKeeps(run[j - 1], a);
      KeepsOn(run[i], run[j - 1], run[j]);
    }
  }

  lemma KeepsSelf(s: System)
    ensures Keeps(s, s)
  {
  }

  lemma StepKeepsInvariant(s: System, a: Action)
    requires Invariant(s) && Next(s, a).Some?
    ensures Invariant(Next(s, a).value)
  {
    hide FieldsAgree, Settled, Aimed, Next;
    assert SoFar(s);
    hide HistoryAgrees, SoFar;
    StepKeepsAimed(s, a);
    StepKeepsFields(s, a);
    StepKeepsHistory(s, a);
    StepKeepsSettled(s, a);
  }

  // ---------------------------------------------------------- main results

  /** In every reachable state each accepted interrupt has one of three fates, and while the
      operation lock is free the native cancel flag is clear. */
  lemma InterruptsSettle(run: seq<System>, i: nat, g: nat)
    requires IsRun(run) && i < |run|
    ensures run[i].pc.Idle? ==> !run[i].runtime.native
    ensures g in run[i].accepted ==>
              && g in run[i].kinds
              && match run[i].accepted[g].phase
                 case Before => g !in run[i].bodies && g !in run[i].injected
                 case During => g in run[i].injected <==> run[i].kinds[g] != Analysis
                 case After => g in run[i].ended && g !in run[i].injected
    ensures g in run[i].injected ==> g in run[i].accepted && run[i].kinds[g] != Analysis
  {
    RunKeepsInvariant(run, i);
    hide IsRun;
  }

  /** If the native flag is set, the generation last begun accepted an interrupt: so no
      operation runs under its predecessor's cancel. With no operation active the flag can
      only be set between the reset of the fields and the last clearing of the flag. */
  lemma NativeFlagIsOwn(run: seq<System>, i: nat)
    requires IsRun(run) && i < |run| && run[i].runtime.native
    ensures run[i].runtime.generation in run[i].accepted
    ensures Active(run[i].pc) || run[i].pc.Finished?
    ensures Active(run[i].pc) ==> run[i].runtime.error == Some(run[i].accepted[run[i].runtime.generation].error)
  {
    RunKeepsInvariant(run, i);
    hide IsRun;
  }

  // An operation that IDA never ran, about to reset its fields.
  lemma SkippedOperation() returns (run: seq<System>)
    ensures IsRun(run)
    ensures var s := run[|run| - 1];
            !s.gui && s.pc.Cleared? && s.runtime == Runtime(1, Some(Analysis), Some(false), None, None, false)
  {
    var s0 := System(false, Runtime(0, None, None, None, None, false), Idle, {}, {}, 0, map[], map[], {}, {}, {});
    var s1 := s0.(pc := Begun, runtime := Begin(s0.runtime, Analysis), kinds := map[1 := Analysis]);
    var s2 := s1.(pc := Cleared, ended := s1.ended + {1});
    OneStep(s0, DoBegin(Analysis), s1);
    OneStep(s1, DoSkip, s2);
    run := [s0];
    run := Extended(run, s1);
    run := Extended(run, s2);
  }

  /** In that window it does occur: an interrupt that arrives just before the fields are
      reset leaves the flag set when no operation is active. */
  lemma NativeFlagOutlivesFields() returns (run: seq<System>)
    ensures IsRun(run)
    ensures var s := run[|run| - 1]; s.pc.Finished? && !Active(s.pc) && s.runtime.kind.None? && s.runtime.native
  {
    run := SkippedOperation();
    var s := run[|run| - 1];
    var a := Attempt(1, Analysis, s.errors);
    var s3 := Aim(s, Analysis);
    var s4 := AfterInterrupt(s3, a);
    var s5 := s4.(pc := Finished, runtime := Finish(s4.runtime, 1));
    assert s4.runtime.native;
    OneStep(s, DoCapture, s3);
    OneStep(s3, DoInterrupt(a), s4);
    OneStep(s4, DoFinish, s5);
    hide IsRun, Next, Leads, AfterInterrupt;
    run := Extended(run, s3);
    run := Extended(run, s4);
    run := Extended(run, s5);
  }

  lemma Extended(run: seq<System>, s: System) returns (longer: seq<System>)
    requires IsRun(run) && Leads(run[|run| - 1], s)
    ensures IsRun(longer) && longer[|longer| - 1] == s
  {
    longer := run + [s];
  }

  lemma OneStep(s: System, a: Action, t: System)
    requires Next(s, a) == Some(t)
    ensures Leads(s, t)
  {
  }

  /** A generation accepts at most one interrupt: once it has, the same one stays. */
  lemma AcceptsAtMostOne(run: seq<System>, i: nat, j: nat, g: nat)
    requires IsRun(run) && i <= j < |run| && g in run[i].accepted
    ensures g in run[j].accepted && run[j].accepted[g] == run[i].accepted[g]
  {
    RunKeeps(run, i, j);
  }

  /** An interrupt aimed at a generation touches no other: unless that one is active and
      takes it, nothing changes but that the attempt is spent. */
  lemma AimIsExact(run: seq<System>, i: nat, a: Attempt)
    requires IsRun(run) && i < |run| && a in run[i].attempts
    ensures Next(run[i], DoInterrupt(a)).Some?
    ensures var s, t := run[i], Next(run[i], DoInterrupt(a)).value;
            && (forall g | g != a.generation ::
                (g in t.accepted <==> g in s.accepted) && (g in t.injected <==> g in s.injected))
            && (forall g | g in s.accepted :: t.accepted[g] == s.accepted[g])
            && (t.runtime != s.runtime ==>
                s.runtime.generation == a.generation && Active(s.pc) && a.generation !in s.accepted)
            && (a.generation != s.runtime.generation ==> t == s.(attempts := s.attempts - {a}))
  {
    RunKeepsInvariant(run, i);
    hide IsRun;
  }

  /** An interrupt aimed at the active operation, if it is the first, is taken whatever the
      operation's kind: it is recorded in the phase that it met, the cancel event is set, it
      is injected exactly if the call is under way and is no analysis, and the native flag is
      set at once, or left to the GUI. Any other only spends its attempt. */
  lemma InterruptIsTaken(run: seq<System>, i: nat, a: Attempt)
    requires IsRun(run) && i < |run| && a in run[i].attempts
    ensures Next(run[i], DoInterrupt(a)).Some?
    ensures var s, t := run[i], Next(run[i], DoInterrupt(a)).value;
            var g := a.generation;
            && g in s.kinds && s.kinds[g] == a.kind
            && if g == s.runtime.generation && Active(s.pc) && g !in s.accepted then
                 && t.accepted == s.accepted[g := Acceptance(a.error, PhaseOf(s.pc))]
                 && t.runtime.error == Some(a.error) && t.runtime.cancelEvent == Some(true)
                 && (g in t.injected <==> PhaseOf(s.pc) == During && s.kinds[g] != Analysis)
                 && t.runtime.native == (!s.gui || s.runtime.native)
                 && t.queued == (if s.gui then s.queued + {a} else s.queued)
               else t == s.(attempts := s.attempts - {a})
  {
    RunKeepsInvariant(run, i);
    hide IsRun;
  }

  /** A cancel aims at the operation that is active, and at nothing if none is. */
  lemma CancelAims(run: seq<System>, i: nat)
    requires IsRun(run) && i < |run|
    ensures Next(run[i], DoCapture).Some?
    ensures var s, t := run[i], Next(run[i], DoCapture).value;
            if Active(s.pc) then
              && s.runtime.generation in s.kinds
              && t.attempts == s.attempts + {Attempt(s.runtime.generation, s.kinds[s.runtime.generation], s.errors)}
            else t == s
  {
    RunKeepsInvariant(run, i);
    hide IsRun;
  }

  /** Nor does the native cancel that a GUI runs later: it sets the flag only while the
      thread of the operation it was aimed at is registered, and only if that operation
      accepted this very interrupt. */
  lemma DispatchIsExact(run: seq<System>, i: nat, a: Attempt)
    requires IsRun(run) && i < |run| && a in run[i].queued
    ensures Next(run[i], DoDispatch(a)).Some?
    ensures var s, t := run[i], Next(run[i], DoDispatch(a)).value;
            && t == s.(runtime := s.runtime.(native := t.runtime.native), queued := s.queued - {a})
            && (t.runtime.native <==>
                  || s.runtime.native
                  || (s.runtime.generation == a.generation && PhaseOf(s.pc) == During
                      && a.generation in s.kinds && s.kinds[a.generation] == a.kind
                      && a.generation in s.accepted && s.accepted[a.generation].error == a.error))
  {
    RunKeepsInvariant(run, i);
    hide IsRun;
  }
}
