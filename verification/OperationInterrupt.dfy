/** Submitted programs, what one run of them does when Nexus may interrupt it at
    any primitive step, and the rewrite that keeps `except` clauses from consuming
    the interrupt. */
module OperationInterrupt {
  import opened Basics

  // ---------------------------------------------------------------- programs

  type Store = map<string, int>
  type UserExc = int

  // `Interrupt` is Nexus's private sentinel; submitted code raises only `User`.
  datatype Exc = Interrupt | User(id: UserExc)

  datatype Outcome =
    | Normal
    | Breaking
    | Continuing
    | Returning(value: int)
    | Raising(exc: Exc)

  // What a primitive computation yields: a value, or a user exception.
  datatype Eval<+T> = Value(store: Store, value: T) | Failed(store: Store, error: UserExc)

  // Who wrote an `except` clause. Execution only counts with it.
  datatype Owner = Submitted | Nexus

  datatype Stmt =
    | Skip
    | Compute(effect: Store -> Eval<()>)
    | Break
    | Continue
    | Return(result: Store -> Eval<int>)
    | Throw(error: Store -> Eval<UserExc>)
    | Reraise
    | Sequence(first: Stmt, second: Stmt)
    | If(test: Store -> Eval<bool>, thn: Stmt, els: Stmt)
    | While(test: Store -> Eval<bool>, body: Stmt, orelse: Stmt)
    | Try(body: Stmt, handlers: Handlers, orelse: Stmt, finalizer: Stmt)
    | With(enter: Store -> Eval<()>, body: Stmt, exit: (Store, Option<Exc>) -> Eval<bool>)
    | Call(callee: string, bind: (Store, int) -> Store)

  // The `except` clauses of one `try`, in order. `filter` evaluates the clause's
  // type expression to the set of exceptions it matches; `bind` and `unbind` are
  // the effect of `as name` on entry and on exit.
  datatype Handlers =
    | NoHandlers
    | Handler(
        owner: Owner,
        filter: Store -> Eval<Exc -> bool>,
        bind: (Store, Exc) -> Store,
        unbind: Store -> Store,
        body: Stmt,
        rest: Handlers)

  type Procedures = map<string, Stmt>

  const NAME_ERROR: UserExc := 1
  const RUNTIME_ERROR: UserExc := 2

  // --------------------------------------------------------------- execution

  // `clock` counts primitive steps. `injected` counts interrupts delivered,
  // `caught` the submitted `except` bodies entered with an interrupt, and `lost`
  // the interrupts replaced, while in flight, by something that is not one.
  datatype Config = Config(store: Store, clock: nat, injected: nat, caught: nat, lost: nat)

  // The oracle says before which primitive steps an interrupt is delivered.
  type Oracle = nat -> bool

  const NEVER: Oracle := (clock: nat) => false

  datatype Stepped<+T> = Got(cfg: Config, value: T) | Threw(cfg: Config, exc: Exc)

  datatype Run = OutOfFuel | Done(cfg: Config, out: Outcome)

  function Step<T>(o: Oracle, c: Config, f: Store -> Eval<T>): Stepped<T> {
    if o(c.clock) then
      Threw(c.(clock := c.clock + 1, injected := c.injected + 1), Interrupt)
    else
      match f(c.store)
      case Value(store, value) => Got(c.(store := store, clock := c.clock + 1), value)
      case Failed(store, error) => Threw(c.(store := store, clock := c.clock + 1), User(error))
  }

  // `pending` was on its way out when `next` took its place.
  function Replace(c: Config, pending: Outcome, next: Outcome): Run {
    Done(if pending == Raising(Interrupt) && next != Raising(Interrupt) then c.(lost := c.lost + 1) else c, next)
  }

  function Enter(c: Config, owner: Owner, exc: Exc, bind: (Store, Exc) -> Store): Config {
    c.(store := bind(c.store, exc),
       caught := if owner == Submitted && exc == Interrupt then c.caught + 1 else c.caught)
  }

  /** Runs `s`. Fuel is spent only by a further loop iteration and by a call. `cur` is
      the exception being handled, which a bare `raise` raises again. */
  function Exec(fuel: nat, procs: Procedures, o: Oracle, cur: Option<Exc>, s: Stmt, c: Config): Run
    decreases fuel, s, 0
  {
    match s
    case Skip => Done(c, Normal)
    case Compute(effect) =>
      (match Step(o, c, effect)
       case Got(c1, _) => Done(c1, Normal)
       case Threw(c1, e) => Done(c1, Raising(e)))
    case Break => Done(c, Breaking)
    case Continue => Done(c, Continuing)
    case Return(result) =>
      (match Step(o, c, result)
       case Got(c1, v) => Done(c1, Returning(v))
       case Threw(c1, e) => Done(c1, Raising(e)))
    case Throw(error) =>
      (match Step(o, c, error)
       case Got(c1, u) => Done(c1, Raising(User(u)))
       case Threw(c1, e) => Done(c1, Raising(e)))
    case Reraise =>
      (match Step(o, c, (st: Store) => Value(st, ()))
       case Got(c1, _) => Done(c1, Raising(if cur.Some? then cur.value else User(RUNTIME_ERROR)))
       case Threw(c1, e) => Done(c1, Raising(e)))
    case Sequence(first, second) =>
      var r := Exec(fuel, procs, o, cur, first, c);
      if r.Done? && r.out.Normal? then Exec(fuel, procs, o, cur, second, r.cfg) else r
    case If(test, thn, els) =>
      (match Step(o, c, test)
       case Got(c1, b) => Exec(fuel, procs, o, cur, if b then thn else els, c1)
       case Threw(c1, e) => Done(c1, Raising(e)))
    case While(test, body, orelse) =>
      (match Step(o, c, test)
       case Threw(c1, e) => Done(c1, Raising(e))
       case Got(c1, b) =>
         if !b then Exec(fuel, procs, o, cur, orelse, c1) else
         var r := Exec(fuel, procs, o, cur, body, c1);
         if r.OutOfFuel? then r
         else if r.out.Breaking? then Done(r.cfg, Normal)
         else if r.out.Returning? || r.out.Raising? then r
         else if fuel == 0 then OutOfFuel
         else Exec(fuel - 1, procs, o, cur, s, r.cfg))
    case Try(body, handlers, orelse, finalizer) =>
      var r := Exec(fuel, procs, o, cur, body, c);
      if r.OutOfFuel? then r else
      var mid :=
        if r.out.Raising? then Handle(fuel, procs, o, handlers, r.out.exc, r.cfg)
        else if r.out.Normal? then Exec(fuel, procs, o, cur, orelse, r.cfg)
        else r;
      Finally(fuel, procs, o, cur, finalizer, mid)
    case With(enter, body, exit) =>
      (match Step(o, c, enter)
       case Threw(c1, e) => Done(c1, Raising(e))
       case Got(c1, _) =>
         Leave(o, exit, Exec(fuel, procs, o, cur, body, c1)))
    case Call(callee, bind) =>
      (match Step(o, c, (st: Store) => if callee in procs then Value(st, ()) else Failed(st, NAME_ERROR))
       case Threw(c1, e) => Done(c1, Raising(e))
       case Got(c1, _) =>
         if callee !in procs then Done(c1, Normal)
         else if fuel == 0 then OutOfFuel else
         var r := Exec(fuel - 1, procs, o, cur, procs[callee], c1);
         if r.OutOfFuel? || r.out.Raising? then r else
         var v := if r.out.Returning? then r.out.value else 0;
         Done(r.cfg.(store := bind(r.cfg.store, v)), Normal))
  }

  /** The body of a `with` ended as `r`; the context manager may suppress or replace its exception. */
  function Leave(o: Oracle, exit: (Store, Option<Exc>) -> Eval<bool>, r: Run): Run {
    if r.OutOfFuel? then r else
    var exc := if r.out.Raising? then Some(r.out.exc) else None;
    match Step(o, r.cfg, (st: Store) => exit(st, exc))
    case Threw(c, e) => Replace(c, r.out, Raising(e))
    case Got(c, suppress) => if suppress && exc.Some? then Replace(c, r.out, Normal) else Done(c, r.out)
  }

  /** The rest of a `try` ended as `mid`; a `finally` that completes abruptly takes over. */
  function Finally(fuel: nat, procs: Procedures, o: Oracle, cur: Option<Exc>, finalizer: Stmt, mid: Run): Run
    decreases fuel, finalizer, 1
  {
    if mid.OutOfFuel? then mid else
    var context := if mid.out.Raising? then Some(mid.out.exc) else cur;
    var f := Exec(fuel, procs, o, context, finalizer, mid.cfg);
    if f.OutOfFuel? then f
    else if f.out.Normal? then Done(f.cfg, mid.out)
    else Replace(f.cfg, mid.out, f.out)
  }

  /** Offers `exc` to the clauses in order. */
  function Handle(fuel: nat, procs: Procedures, o: Oracle, h: Handlers, exc: Exc, c: Config): Run
    decreases fuel, h
  {
    match h
    case NoHandlers => Done(c, Raising(exc))
    case Handler(owner, filter, bind, unbind, body, rest) =>
      match Step(o, c, filter)
      case Threw(c1, e) => Replace(c1, Raising(exc), Raising(e))
      case Got(c1, matches) =>
        if !matches(exc) then Handle(fuel, procs, o, rest, exc, c1) else
        var r := Exec(fuel, procs, o, Some(exc), body, Enter(c1, owner, exc, bind));
        if r.OutOfFuel? then r else Done(r.cfg.(store := unbind(r.cfg.store)), r.out)
  }

  // ----------------------------------------------------------------- rewrite

  /** `except <interrupt>: body`, naming nothing. */
  function InterruptClause(body: Stmt, rest: Handlers): Handlers {
    Handler(Nexus,
            (st: Store) => Value(st, (e: Exc) => e == Interrupt),
            (st: Store, e: Exc) => st,
            (st: Store) => st,
            body,
            rest)
  }

  /** The clause Nexus puts first: `except <interrupt>: raise`. */
  function Reraiser(rest: Handlers): Handlers {
    InterruptClause(Reraise, rest)
  }

  function Protect(s: Stmt): Stmt {
    match s
    case Sequence(a, b) => Sequence(Protect(a), Protect(b))
    case If(t, a, b) => If(t, Protect(a), Protect(b))
    case While(t, b, e) => While(t, Protect(b), Protect(e))
    case Try(b, h, e, f) =>
      Try(Protect(b), if h.NoHandlers? then h else Reraiser(ProtectClauses(h)), Protect(e), Protect(f))
    case With(enter, b, exit) => With(enter, Protect(b), exit)
    case _ => s
  }

  function ProtectClauses(h: Handlers): Handlers {
    match h
    case NoHandlers => h
    case Handler(owner, filter, bind, unbind, body, rest) =>
      Handler(Submitted, filter, bind, unbind, Protect(body), ProtectClauses(rest))
  }

  function ProtectAll(procs: Procedures): Procedures {
    map name | name in procs :: Protect(procs[name])
  }

  // ------------------------------------------- meaning without an interrupt

  ghost predicate Calm(cur: Option<Exc>) {
    cur != Some(Interrupt)
  }

  ghost predicate SameButClock(a: Config, b: Config) {
    a.(clock := 0) == b.(clock := 0)
  }

  // Both stop short, or both end alike; an interrupt comes from nowhere.
  ghost predicate Agree(a: Run, b: Run) {
    || (a.OutOfFuel? && b.OutOfFuel?)
    || (a.Done? && b.Done? && a.out == b.out && a.out != Raising(Interrupt) && SameButClock(a.cfg, b.cfg))
  }

  lemma {:induction false} PreservesStmt(
    fuel: nat, procs: Procedures, cur: Option<Exc>, s: Stmt, c: Config, d: Config)
    requires SameButClock(c, d)
    requires Calm(cur)
    ensures Agree(Exec(fuel, procs, NEVER, cur, s, c), Exec(fuel, ProtectAll(procs), NEVER, cur, Protect(s), d))
    decreases fuel, s, 1
  {
    var ps := ProtectAll(procs);
    match s
    case Skip =>
    case Compute(_) =>
    case Break =>
    case Continue =>
    case Return(_) =>
    case Throw(_) =>
    case Reraise =>
    case Sequence(a, b) =>
      PreservesStmt(fuel, procs, cur, a, c, d);
      var r, r' := Exec(fuel, procs, NEVER, cur, a, c), Exec(fuel, ps, NEVER, cur, Protect(a), d);
      if r.Done? { PreservesStmt(fuel, procs, cur, b, r.cfg, r'.cfg); }
    case If(t, a, b) =>
      var x, x' := Step(NEVER, c, t), Step(NEVER, d, t);
      if x.Got? { PreservesStmt(fuel, procs, cur, if x.value then a else b, x.cfg, x'.cfg); }
    case While(_, _, _) => PreservesWhile(fuel, procs, cur, s, c, d);
    case Try(_, _, _, _) => PreservesTry(fuel, procs, cur, s, c, d);
    case With(_, _, _) => PreservesWith(fuel, procs, cur, s, c, d);
    case Call(_, _) => PreservesCall(fuel, procs, cur, s, c, d);
  }

  lemma {:induction false} PreservesWhile(
    fuel: nat, procs: Procedures, cur: Option<Exc>, s: Stmt, c: Config, d: Config)
    requires s.While?
    requires SameButClock(c, d)
    requires Calm(cur)
    ensures Agree(Exec(fuel, procs, NEVER, cur, s, c), Exec(fuel, ProtectAll(procs), NEVER, cur, Protect(s), d))
    decreases fuel, s, 0
  {
    var ps := ProtectAll(procs);
    var x, x' := Step(NEVER, c, s.test), Step(NEVER, d, s.test);
    if x.Got? {
      if x.value {
        PreservesStmt(fuel, procs, cur, s.body, x.cfg, x'.cfg);
        var r := Exec(fuel, procs, NEVER, cur, s.body, x.cfg);
        var r' := Exec(fuel, ps, NEVER, cur, Protect(s.body), x'.cfg);
        if r.Done? && fuel > 0 { PreservesStmt(fuel - 1, procs, cur, s, r.cfg, r'.cfg); }
      } else {
        PreservesStmt(fuel, procs, cur, s.orelse, x.cfg, x'.cfg);
      }
    }
  }

  lemma {:induction false} PreservesWith(
    fuel: nat, procs: Procedures, cur: Option<Exc>, s: Stmt, c: Config, d: Config)
    requires s.With?
    requires SameButClock(c, d)
    requires Calm(cur)
    ensures Agree(Exec(fuel, procs, NEVER, cur, s, c), Exec(fuel, ProtectAll(procs), NEVER, cur, Protect(s), d))
    decreases fuel, s, 0
  {
    var x, x' := Step(NEVER, c, s.enter), Step(NEVER, d, s.enter);
    if x.Got? {
      PreservesStmt(fuel, procs, cur, s.body, x.cfg, x'.cfg);
      var r := Exec(fuel, procs, NEVER, cur, s.body, x.cfg);
      var r' := Exec(fuel, ProtectAll(procs), NEVER, cur, Protect(s.body), x'.cfg);
      PreservesLeave(s.exit, r, r');
    }
  }

  lemma PreservesLeave(exit: (Store, Option<Exc>) -> Eval<bool>, r: Run, r': Run)
    requires Agree(r, r')
    ensures Agree(Leave(NEVER, exit, r), Leave(NEVER, exit, r'))
  {
    if r.Done? {
      var exc := if r.out.Raising? then Some(r.out.exc) else None;
      var leave := (st: Store) => exit(st, exc);
      var x, x' := Step(NEVER, r.cfg, leave), Step(NEVER, r'.cfg, leave);
    }
  }

  lemma {:induction false} PreservesCall(
    fuel: nat, procs: Procedures, cur: Option<Exc>, s: Stmt, c: Config, d: Config)
    requires s.Call?
    requires SameButClock(c, d)
    requires Calm(cur)
    ensures Agree(Exec(fuel, procs, NEVER, cur, s, c), Exec(fuel, ProtectAll(procs), NEVER, cur, Protect(s), d))
    decreases fuel, s, 0
  {
    if s.callee in procs && fuel > 0 {
      var c1, d1 := c.(clock := c.clock + 1), d.(clock := d.clock + 1);
      PreservesStmt(fuel - 1, procs, cur, procs[s.callee], c1, d1);
    }
  }

  lemma {:induction false} PreservesTry(
    fuel: nat, procs: Procedures, cur: Option<Exc>, s: Stmt, c: Config, d: Config)
    requires s.Try?
    requires SameButClock(c, d)
    requires Calm(cur)
    ensures Agree(Exec(fuel, procs, NEVER, cur, s, c), Exec(fuel, ProtectAll(procs), NEVER, cur, Protect(s), d))
    decreases fuel, s, 0
  {
    var ps := ProtectAll(procs);
    PreservesStmt(fuel, procs, cur, s.body, c, d);
    var r, r' := Exec(fuel, procs, NEVER, cur, s.body, c), Exec(fuel, ps, NEVER, cur, Protect(s.body), d);
    if r.Done? {
      var mid, mid' := r, r';
      if r.out.Raising? {
        mid := Handle(fuel, procs, NEVER, s.handlers, r.out.exc, r.cfg);
        mid' := Handle(fuel, ps, NEVER, Protect(s).handlers, r.out.exc, r'.cfg);
        if s.handlers.Handler? {
          var skipped := r'.cfg.(clock := r'.cfg.clock + 1);
          ReraiserStep(fuel, ps, NEVER, ProtectClauses(s.handlers), r.out.exc, r'.cfg);
          PreservesClauses(fuel, procs, s.handlers, r.out.exc, r.cfg, skipped);
        }
      } else if r.out.Normal? {
        PreservesStmt(fuel, procs, cur, s.orelse, r.cfg, r'.cfg);
        mid := Exec(fuel, procs, NEVER, cur, s.orelse, r.cfg);
        mid' := Exec(fuel, ps, NEVER, cur, Protect(s.orelse), r'.cfg);
      }
      PreservesFinally(fuel, procs, cur, s.finalizer, mid, mid');
    }
  }

  lemma {:induction false} PreservesFinally(
    fuel: nat, procs: Procedures, cur: Option<Exc>, finalizer: Stmt, mid: Run, mid': Run)
    requires Agree(mid, mid')
    requires Calm(cur)
    ensures Agree(Finally(fuel, procs, NEVER, cur, finalizer, mid),
                  Finally(fuel, ProtectAll(procs), NEVER, cur, Protect(finalizer), mid'))
    decreases fuel, finalizer, 2
  {
    if mid.Done? {
      var context := if mid.out.Raising? then Some(mid.out.exc) else cur;
      PreservesStmt(fuel, procs, context, finalizer, mid.cfg, mid'.cfg);
    }
  }

  lemma {:induction false} PreservesClauses(
    fuel: nat, procs: Procedures, h: Handlers, exc: Exc, c: Config, d: Config)
    requires SameButClock(c, d)
    requires exc != Interrupt
    ensures Agree(Handle(fuel, procs, NEVER, h, exc, c),
                  Handle(fuel, ProtectAll(procs), NEVER, ProtectClauses(h), exc, d))
    decreases fuel, h
  {
    match h
    case NoHandlers =>
    case Handler(owner, filter, bind, unbind, body, rest) =>
      var x, x' := Step(NEVER, c, filter), Step(NEVER, d, filter);
      if x.Got? {
        if x.value(exc) {
          PreservesStmt(fuel, procs, Some(exc), body, Enter(x.cfg, owner, exc, bind),
              Enter(x'.cfg, Submitted, exc, bind));
        } else {
          PreservesClauses(fuel, procs, rest, exc, x.cfg, x'.cfg);
        }
      }
  }

  function Start(store: Store): Config { Config(store, 0, 0, 0, 0) }

  /** Every program whose run meets no interrupt ends, after the rewrite, with the same
      store and the same outcome, and stops for lack of fuel exactly when it did before. */
  lemma RewritePreservesMeaning(fuel: nat, procs: Procedures, main: Stmt, store: Store)
    ensures var r := Exec(fuel, procs, NEVER, None, main, Start(store));
            var p := Exec(fuel, ProtectAll(procs), NEVER, None, Protect(main), Start(store));
            && r.Done? == p.Done?
            && (r.Done? ==> p.out == r.out && p.cfg.store == r.cfg.store)
  {
    PreservesStmt(fuel, procs, None, main, Start(store), Start(store));
  }

  // --------------------------------------------------- no clause intercepts

  // From `c` on: counts only grow, no submitted clause received an interrupt, and an
  // interrupt delivered on the way is the outcome unless one was lost on the way.
  ghost predicate Escapes(c: Config, cur: Option<Exc>, r: Run) {
    r.Done? ==>
      && r.cfg.caught == c.caught
      && r.cfg.lost >= c.lost
      && r.cfg.injected >= c.injected
      && (r.cfg.injected > c.injected && r.cfg.lost == c.lost ==> r.out == Raising(Interrupt))
      && (r.out == Raising(Interrupt) ==> r.cfg.injected > c.injected || cur == Some(Interrupt))
  }

  lemma {:induction false} EscapesStmt(
    fuel: nat, procs: Procedures, o: Oracle, cur: Option<Exc>, s: Stmt, c: Config)
    ensures Escapes(c, cur, Exec(fuel, ProtectAll(procs), o, cur, Protect(s), c))
    decreases fuel, s, 1
  {
    var ps := ProtectAll(procs);
    match s
    case Skip =>
    case Compute(_) =>
    case Break =>
    case Continue =>
    case Return(_) =>
    case Throw(_) =>
    case Reraise =>
    case Sequence(a, b) =>
      EscapesStmt(fuel, procs, o, cur, a, c);
      var r := Exec(fuel, ps, o, cur, Protect(a), c);
      if r.Done? { EscapesStmt(fuel, procs, o, cur, b, r.cfg); }
    case If(t, a, b) =>
      var x := Step(o, c, t);
      if x.Got? { EscapesStmt(fuel, procs, o, cur, if x.value then a else b, x.cfg); }
    case While(_, _, _) => EscapesWhile(fuel, procs, o, cur, s, c);
    case Try(_, _, _, _) => EscapesTry(fuel, procs, o, cur, s, c);
    case With(_, _, _) => EscapesWith(fuel, procs, o, cur, s, c);
    case Call(_, _) => EscapesCall(fuel, procs, o, cur, s, c);
  }

  lemma {:induction false} EscapesWhile(
    fuel: nat, procs: Procedures, o: Oracle, cur: Option<Exc>, s: Stmt, c: Config)
    requires s.While?
    ensures Escapes(c, cur, Exec(fuel, ProtectAll(procs), o, cur, Protect(s), c))
    decreases fuel, s, 0
  {
    var x := Step(o, c, s.test);
    if x.Got? {
      if x.value {
        EscapesStmt(fuel, procs, o, cur, s.body, x.cfg);
        var r := Exec(fuel, ProtectAll(procs), o, cur, Protect(s.body), x.cfg);
        if r.Done? && fuel > 0 { EscapesStmt(fuel - 1, procs, o, cur, s, r.cfg); }
      } else {
        EscapesStmt(fuel, procs, o, cur, s.orelse, x.cfg);
      }
    }
  }

  lemma {:induction false} EscapesWith(
    fuel: nat, procs: Procedures, o: Oracle, cur: Option<Exc>, s: Stmt, c: Config)
    requires s.With?
    ensures Escapes(c, cur, Exec(fuel, ProtectAll(procs), o, cur, Protect(s), c))
    decreases fuel, s, 0
  {
    var x := Step(o, c, s.enter);
    if x.Got? { EscapesStmt(fuel, procs, o, cur, s.body, x.cfg); }
  }

  lemma {:induction false} EscapesCall(
    fuel: nat, procs: Procedures, o: Oracle, cur: Option<Exc>, s: Stmt, c: Config)
    requires s.Call?
    ensures Escapes(c, cur, Exec(fuel, ProtectAll(procs), o, cur, Protect(s), c))
    decreases fuel, s, 0
  {
    var c1 := c.(clock := c.clock + 1);
    if s.callee in procs && fuel > 0 { EscapesStmt(fuel - 1, procs, o, cur, procs[s.callee], c1); }
  }

  // What the inserted clause does with an exception that reaches it.
  lemma ReraiserStep(fuel: nat, ps: Procedures, o: Oracle, rest: Handlers, exc: Exc, c: Config)
    ensures var r := Handle(fuel, ps, o, Reraiser(rest), exc, c);
            if exc == Interrupt || o(c.clock) then
              && r.Done? && r.out == Raising(Interrupt)
              && r.cfg.caught == c.caught && r.cfg.lost == c.lost && r.cfg.injected >= c.injected
              && (exc != Interrupt ==> r.cfg.injected > c.injected)
            else r == Handle(fuel, ps, o, rest, exc, c.(clock := c.clock + 1))
  {
  }

  lemma {:induction false} EscapesTry(
    fuel: nat, procs: Procedures, o: Oracle, cur: Option<Exc>, s: Stmt, c: Config)
    requires s.Try?
    ensures Escapes(c, cur, Exec(fuel, ProtectAll(procs), o, cur, Protect(s), c))
    decreases fuel, s, 0
  {
    var ps, p := ProtectAll(procs), Protect(s);
    EscapesStmt(fuel, procs, o, cur, s.body, c);
    var r := Exec(fuel, ps, o, cur, p.body, c);
    if r.Done? {
      var mid := r;
      if r.out.Raising? {
        mid := Handle(fuel, ps, o, p.handlers, r.out.exc, r.cfg);
        if s.handlers.Handler? {
          ReraiserStep(fuel, ps, o, ProtectClauses(s.handlers), r.out.exc, r.cfg);
          if !o(r.cfg.clock) && r.out.exc != Interrupt {
            EscapesClauses(fuel, procs, o, s.handlers, r.out.exc, r.cfg.(clock := r.cfg.clock + 1));
          }
        }
      } else if r.out.Normal? {
        EscapesStmt(fuel, procs, o, cur, s.orelse, r.cfg);
        mid := Exec(fuel, ps, o, cur, p.orelse, r.cfg);
      }
      EscapesFinally(fuel, procs, o, cur, s.finalizer, c, mid);
    }
  }

  lemma {:induction false} EscapesFinally(
    fuel: nat, procs: Procedures, o: Oracle, cur: Option<Exc>, finalizer: Stmt, c: Config, mid: Run)
    requires Escapes(c, cur, mid)
    ensures Escapes(c, cur, Finally(fuel, ProtectAll(procs), o, cur, Protect(finalizer), mid))
    decreases fuel, finalizer, 2
  {
    if mid.Done? {
      var context := if mid.out.Raising? then Some(mid.out.exc) else cur;
      EscapesStmt(fuel, procs, o, context, finalizer, mid.cfg);
    }
  }

  // Behind the inserted clause only user exceptions arrive.
  lemma {:induction false} EscapesClauses(
    fuel: nat, procs: Procedures, o: Oracle, h: Handlers, exc: Exc, c: Config)
    requires exc != Interrupt
    ensures Escapes(c, None, Handle(fuel, ProtectAll(procs), o, ProtectClauses(h), exc, c))
    decreases fuel, h
  {
    match h
    case NoHandlers =>
    case Handler(owner, filter, bind, unbind, body, rest) =>
      var x := Step(o, c, filter);
      if x.Got? {
        if x.value(exc) {
          EscapesStmt(fuel, procs, o, Some(exc), body, Enter(x.cfg, Submitted, exc, bind));
        } else {
          EscapesClauses(fuel, procs, o, rest, exc, x.cfg);
        }
      }
  }

  /** Whatever the oracle does, a rewritten program enters no submitted `except` body with
      an interrupt. It ends in the interrupt whenever one was delivered, unless a `finally`
      that completed abruptly or a context manager replaced it; and it ends in an interrupt
      only if one was delivered. `InterruptOutcome` says which programs rule that out. */
  lemma RewrittenProgramIsNotIntercepted(fuel: nat, procs: Procedures, o: Oracle, main: Stmt, store: Store)
    ensures var r := Exec(fuel, ProtectAll(procs), o, None, Protect(main), Start(store));
            r.Done? ==>
              && r.cfg.caught == 0
              && (r.cfg.injected > 0 && r.cfg.lost == 0 ==> r.out == Raising(Interrupt))
              && (r.out == Raising(Interrupt) ==> r.cfg.injected > 0)
  {
    EscapesStmt(fuel, procs, o, None, main, Start(store));
  }

  /** Without the rewrite this fails: `try: step except: pass` swallows an interrupt
      delivered in its body. */
  lemma OriginalProgramCanSwallow(step: Store -> Eval<()>, store: Store)
    ensures var clause := Handler(Submitted, (st: Store) => Value(st, (e: Exc) => true),
                                  (st: Store, e: Exc) => st, (st: Store) => st, Skip, NoHandlers);
            var main := Try(Compute(step), clause, Skip, Skip);
            var first: Oracle := (clock: nat) => clock == 0;
            && Exec(0, map[], first, None, main, Start(store)) == Done(Config(store, 2, 1, 1, 0), Normal)
            && Exec(0, map[], first, None, Protect(main), Start(store)) ==
                Done(Config(store, 3, 1, 0, 0), Raising(Interrupt))
  {
  }
}
