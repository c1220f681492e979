/** When a rewritten program does end in the interrupt that it was dealt: what can still
    replace it, and a condition on the program text that rules that out. */
module InterruptOutcome {
  import opened Basics
  import opened OperationInterrupt

  // ------------------------------------------------------- what can replace it

  const FIRST: Oracle := (clock: nat) => clock == 0

  const SECOND: Oracle := (clock: nat) => clock == 1

  /** `try: step finally: return 0` loses an interrupt delivered in its body. */
  lemma FinallyCanReplace(step: Store -> Eval<()>, store: Store)
    ensures var main := Try(Compute(step), NoHandlers, Skip, Return((st: Store) => Value(st, 0)));
            Exec(0, map[], FIRST, None, Protect(main), Start(store)) == Done(Config(store, 2, 1, 0, 1), Returning(0))
  {
  }

  /** `with manager: step` loses one if its context manager suppresses exceptions. */
  lemma WithCanSuppress(step: Store -> Eval<()>, store: Store)
    ensures var main :=
        With((st: Store) => Value(st, ()), Compute(step), (st: Store, exc: Option<Exc>) => Value(st, true));
            Exec(0, map[], SECOND, None, Protect(main), Start(store)) == Done(Config(store, 3, 1, 0, 1), Normal)
  {
  }

  // The run of the finalizer that an interrupted first step leads to.
  function Finalized(fuel: nat, procs: Procedures, o: Oracle, finalizer: Stmt, store: Store): Run {
    Exec(fuel, ProtectAll(procs), o, Some(Interrupt), Protect(finalizer), Config(store, 1, 1, 0, 0))
  }

  /** Whatever the finalizer: a `try` whose body is interrupted ends in the interrupt if and
      only if its finalizer ends normally, or is itself interrupted. */
  lemma FinalizerDecides(fuel: nat, procs: Procedures, o: Oracle, step: Store -> Eval<()>, finalizer: Stmt,
      store: Store)
    requires o(0)
    ensures var f := Finalized(fuel, procs, o, finalizer, store);
            var r := Exec(fuel, ProtectAll(procs), o, None,
                          Protect(Try(Compute(step), NoHandlers, Skip, finalizer)), Start(store));
            && r.Done? == f.Done?
            && (r.Done? ==> (r.out == Raising(Interrupt) <==> f.out.Normal? || f.out == Raising(Interrupt)))
  {
  }

  /** Whatever the context manager: a `with` whose body is interrupted ends in the interrupt
      if and only if its exit does not fail and does not suppress, or is itself interrupted. */
  lemma ExitDecides(
    procs: Procedures, o: Oracle, step: Store -> Eval<()>, exit: (Store, Option<Exc>) -> Eval<bool>, store: Store)
    requires !o(0) && o(1)
    ensures var r := Exec(0, ProtectAll(procs), o, None,
                          Protect(With((st: Store) => Value(st, ()), Compute(step), exit)), Start(store));
            var left := exit(store, Some(Interrupt));
            r.Done? && (r.out == Raising(Interrupt) <==> o(2) || (left.Value? && !left.value))
  {
  }

  // ---------------------------------------------------- programs that keep it

  // Primitive computations that always yield a value, and exits that never suppress.
  ghost predicate Total<T(!new)>(f: Store -> Eval<T>) {
    forall st :: f(st).Value?
  }

  ghost predicate Transparent(exit: (Store, Option<Exc>) -> Eval<bool>) {
    forall st, exc :: exit(st, exc).Value? && !exit(st, exc).value
  }

  /** Statements that complete normally unless they are interrupted. */
  ghost predicate Quiet(s: Stmt) {
    match s
    case Skip => true
    case Compute(effect) => Total(effect)
    case Sequence(a, b) => Quiet(a) && Quiet(b)
    case If(test, a, b) => Total(test) && Quiet(a) && Quiet(b)
    case While(test, body, orelse) => Total(test) && Quiet(body) && Quiet(orelse)
    case Try(body, _, orelse, finalizer) => Quiet(body) && Quiet(orelse) && Quiet(finalizer)
    case With(enter, body, exit) => Total(enter) && Quiet(body) && Transparent(exit)
    case _ => false
  }

  /** Statements in which every `finally` is quiet and no context manager fails to exit or
      suppresses. */
  ghost predicate Kept(s: Stmt) {
    match s
    case Sequence(a, b) => Kept(a) && Kept(b)
    case If(_, a, b) => Kept(a) && Kept(b)
    case While(_, body, orelse) => Kept(body) && Kept(orelse)
    case Try(body, handlers, orelse, finalizer) => Kept(body) && KeptClauses(handlers) && Kept(orelse)
        && Quiet(finalizer)
    case With(_, body, exit) => Kept(body) && Transparent(exit)
    case _ => true
  }

  ghost predicate KeptClauses(h: Handlers) {
    match h
    case NoHandlers => true
    case Handler(_, _, _, _, body, rest) => Kept(body) && KeptClauses(rest)
  }

  ghost predicate AllKept(procs: Procedures) {
    forall name | name in procs :: Kept(procs[name])
  }

  ghost predicate Completes(c: Config, r: Run) {
    r.Done? ==> r.cfg.lost == c.lost && (r.out.Normal? || r.out == Raising(Interrupt))
  }

  ghost predicate LosesNone(c: Config, r: Run) {
    r.Done? ==> r.cfg.lost == c.lost
  }

  lemma {:induction false} QuietCompletes(fuel: nat, ps: Procedures, o: Oracle, cur: Option<Exc>, s: Stmt, c: Config)
    requires Quiet(s)
    ensures Completes(c, Exec(fuel, ps, o, cur, Protect(s), c))
    decreases fuel, s, 1
  {
    match s
    case Sequence(a, b) =>
      QuietCompletes(fuel, ps, o, cur, a, c);
      var r := Exec(fuel, ps, o, cur, Protect(a), c);
      if r.Done? { QuietCompletes(fuel, ps, o, cur, b, r.cfg); }
    case If(t, a, b) =>
      var x := Step(o, c, t);
      if x.Got? { QuietCompletes(fuel, ps, o, cur, if x.value then a else b, x.cfg); }
    case While(_, _, _) => QuietLoopCompletes(fuel, ps, o, cur, s, c);
    case Try(_, _, _, _) => QuietTryCompletes(fuel, ps, o, cur, s, c);
    case With(enter, body, exit) =>
      var x := Step(o, c, enter);
      if x.Got? { QuietCompletes(fuel, ps, o, cur, body, x.cfg); }
    case _ =>
  }

  lemma {:induction false} QuietLoopCompletes(fuel: nat, ps: Procedures, o: Oracle, cur: Option<Exc>, s: Stmt,
      c: Config)
    requires s.While? && Quiet(s)
    ensures Completes(c, Exec(fuel, ps, o, cur, Protect(s), c))
    decreases fuel, s, 0
  {
    var x := Step(o, c, s.test);
    if x.Got? {
      QuietCompletes(fuel, ps, o, cur, if x.value then s.body else s.orelse, x.cfg);
      var r := Exec(fuel, ps, o, cur, Protect(s.body), x.cfg);
      if x.value && r.Done? && fuel > 0 { QuietCompletes(fuel - 1, ps, o, cur, s, r.cfg); }
    }
  }

  lemma {:induction false} QuietTryCompletes(fuel: nat, ps: Procedures, o: Oracle, cur: Option<Exc>, s: Stmt, c: Config)
    requires s.Try? && Quiet(s)
    ensures Completes(c, Exec(fuel, ps, o, cur, Protect(s), c))
    decreases fuel, s, 0
  {
    var p := Protect(s);
    QuietCompletes(fuel, ps, o, cur, s.body, c);
    var r := Exec(fuel, ps, o, cur, p.body, c);
    if r.Done? {
      var mid := r;
      if r.out.Raising? {
        mid := Handle(fuel, ps, o, p.handlers, r.out.exc, r.cfg);
        if s.handlers.Handler? { ReraiserStep(fuel, ps, o, ProtectClauses(s.handlers), r.out.exc, r.cfg); }
      } else {
        QuietCompletes(fuel, ps, o, cur, s.orelse, r.cfg);
        mid := Exec(fuel, ps, o, cur, p.orelse, r.cfg);
      }
      if mid.Done? {
        QuietCompletes(fuel, ps, o, if mid.out.Raising? then Some(mid.out.exc) else cur, s.finalizer, mid.cfg);
      }
    }
  }

  lemma {:induction false} KeptLosesNone(
    fuel: nat, procs: Procedures, o: Oracle, cur: Option<Exc>, s: Stmt, c: Config)
    requires Kept(s) && AllKept(procs)
    ensures LosesNone(c, Exec(fuel, ProtectAll(procs), o, cur, Protect(s), c))
    decreases fuel, s, 1
  {
    var ps := ProtectAll(procs);
    match s
    case Sequence(a, b) =>
      KeptLosesNone(fuel, procs, o, cur, a, c);
      var r := Exec(fuel, ps, o, cur, Protect(a), c);
      if r.Done? { KeptLosesNone(fuel, procs, o, cur, b, r.cfg); }
    case If(t, a, b) =>
      var x := Step(o, c, t);
      if x.Got? { KeptLosesNone(fuel, procs, o, cur, if x.value then a else b, x.cfg); }
    case While(t, body, orelse) =>
      var x := Step(o, c, t);
      if x.Got? {
        KeptLosesNone(fuel, procs, o, cur, if x.value then body else orelse, x.cfg);
        var r := Exec(fuel, ps, o, cur, Protect(body), x.cfg);
        if x.value && r.Done? && fuel > 0 { KeptLosesNone(fuel - 1, procs, o, cur, s, r.cfg); }
      }
    case Try(_, _, _, _) => TryLosesNone(fuel, procs, o, cur, s, c);
    case With(enter, body, exit) =>
      var x := Step(o, c, enter);
      if x.Got? { KeptLosesNone(fuel, procs, o, cur, body, x.cfg); }
    case Call(callee, _) =>
      var c1 := c.(clock := c.clock + 1);
      if callee in procs && fuel > 0 { KeptLosesNone(fuel - 1, procs, o, cur, procs[callee], c1); }
    case _ =>
  }

  lemma {:induction false} TryLosesNone(
    fuel: nat, procs: Procedures, o: Oracle, cur: Option<Exc>, s: Stmt, c: Config)
    requires s.Try? && Kept(s) && AllKept(procs)
    ensures LosesNone(c, Exec(fuel, ProtectAll(procs), o, cur, Protect(s), c))
    decreases fuel, s, 0
  {
    var ps, p := ProtectAll(procs), Protect(s);
    KeptLosesNone(fuel, procs, o, cur, s.body, c);
    var r := Exec(fuel, ps, o, cur, p.body, c);
    if r.Done? {
      var mid := r;
      if r.out.Raising? {
        mid := Handle(fuel, ps, o, p.handlers, r.out.exc, r.cfg);
        if s.handlers.Handler? {
          ReraiserStep(fuel, ps, o, ProtectClauses(s.handlers), r.out.exc, r.cfg);
          if !o(r.cfg.clock) && r.out.exc != Interrupt {
            ClausesLoseNone(fuel, procs, o, s.handlers, r.out.exc, r.cfg.(clock := r.cfg.clock + 1));
          }
        }
      } else if r.out.Normal? {
        KeptLosesNone(fuel, procs, o, cur, s.orelse, r.cfg);
        mid := Exec(fuel, ps, o, cur, p.orelse, r.cfg);
      }
      if mid.Done? {
        QuietCompletes(fuel, ps, o, if mid.out.Raising? then Some(mid.out.exc) else cur, s.finalizer, mid.cfg);
      }
    }
  }

  lemma {:induction false} ClausesLoseNone(
    fuel: nat, procs: Procedures, o: Oracle, h: Handlers, exc: Exc, c: Config)
    requires exc != Interrupt && KeptClauses(h) && AllKept(procs)
    ensures LosesNone(c, Handle(fuel, ProtectAll(procs), o, ProtectClauses(h), exc, c))
    decreases fuel, h
  {
    match h
    case NoHandlers =>
    case Handler(_, filter, bind, _, body, rest) =>
      var x := Step(o, c, filter);
      if x.Got? {
        if x.value(exc) {
          KeptLosesNone(fuel, procs, o, Some(exc), body, Enter(x.cfg, Submitted, exc, bind));
        } else {
          ClausesLoseNone(fuel, procs, o, rest, exc, x.cfg);
        }
      }
  }

  /** If every `finally` of a program and of what it calls is quiet and no context manager
      suppresses or fails, then, wherever interrupts are delivered, the rewritten program
      ends in the interrupt if and only if one was delivered. */
  lemma KeptProgramEndsInItsInterrupt(fuel: nat, procs: Procedures, o: Oracle, main: Stmt, store: Store)
    requires Kept(main) && AllKept(procs)
    ensures var r := Exec(fuel, ProtectAll(procs), o, None, Protect(main), Start(store));
            r.Done? ==> r.cfg.caught == 0 && (r.cfg.injected > 0 <==> r.out == Raising(Interrupt))
  {
    KeptLosesNone(fuel, procs, o, None, main, Start(store));
    RewrittenProgramIsNotIntercepted(fuel, procs, o, main, store);
  }
}
