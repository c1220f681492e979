/** What the rewrite adds to a program's text, and that it adds nothing else. */
module RewriteText {
  import opened Basics
  import opened OperationInterrupt

  // A program as submitted: every clause is its own.
  predicate Plain(s: Stmt) {
    match s
    case Sequence(a, b) => Plain(a) && Plain(b)
    case If(_, a, b) => Plain(a) && Plain(b)
    case While(_, body, orelse) => Plain(body) && Plain(orelse)
    case Try(body, handlers, orelse, finalizer) => Plain(body) && PlainClauses(handlers) && Plain(orelse)
        && Plain(finalizer)
    case With(_, body, _) => Plain(body)
    case _ => true
  }

  predicate PlainClauses(h: Handlers) {
    match h
    case NoHandlers => true
    case Handler(owner, _, _, _, body, rest) => owner == Submitted && Plain(body) && PlainClauses(rest)
  }

  // The program without the clauses that Nexus wrote.
  function Erased(s: Stmt): Stmt {
    match s
    case Sequence(a, b) => Sequence(Erased(a), Erased(b))
    case If(test, a, b) => If(test, Erased(a), Erased(b))
    case While(test, body, orelse) => While(test, Erased(body), Erased(orelse))
    case Try(body, handlers, orelse, finalizer) =>
      Try(Erased(body), ErasedClauses(handlers), Erased(orelse), Erased(finalizer))
    case With(enter, body, exit) => With(enter, Erased(body), exit)
    case _ => s
  }

  function ErasedClauses(h: Handlers): Handlers {
    match h
    case NoHandlers => h
    case Handler(owner, filter, bind, unbind, body, rest) =>
      if owner == Nexus then ErasedClauses(rest)
      else Handler(owner, filter, bind, unbind, Erased(body), ErasedClauses(rest))
  }

  // `except <interrupt>: raise`, naming nothing.
  ghost predicate RaisesAgain(h: Handlers) {
    && h.Handler? && h.owner == Nexus && h.body == Reraise
    && (forall st :: h.filter(st).Value? && h.filter(st).store == st)
    && (forall st, e :: h.filter(st).Value? ==> (h.filter(st).value(e) <==> e == Interrupt))
    && (forall st, e :: h.bind(st, e) == st) && (forall st :: h.unbind(st) == st)
  }

  // Every `try` that has clauses begins with that one, and there are no others of Nexus.
  ghost predicate Guarded(s: Stmt) {
    match s
    case Sequence(a, b) => Guarded(a) && Guarded(b)
    case If(_, a, b) => Guarded(a) && Guarded(b)
    case While(_, body, orelse) => Guarded(body) && Guarded(orelse)
    case Try(body, handlers, orelse, finalizer) =>
      && Guarded(body) && Guarded(orelse) && Guarded(finalizer)
      && (handlers.NoHandlers? || (RaisesAgain(handlers) && handlers.rest.Handler? && GuardedClauses(handlers.rest)))
    case With(_, body, _) => Guarded(body)
    case _ => true
  }

  ghost predicate GuardedClauses(h: Handlers) {
    match h
    case NoHandlers => true
    case Handler(owner, _, _, _, body, rest) => owner == Submitted && Guarded(body) && GuardedClauses(rest)
  }

  /** The rewrite puts exactly one re-raising clause first in every `try` that has clauses, and
      changes nothing else: without those clauses the program is what was submitted. */
  lemma {:induction false} OnlyClausesAreAdded(s: Stmt)
    requires Plain(s)
    ensures Guarded(Protect(s)) && Erased(Protect(s)) == s
  {
    match s
    case Sequence(a, b) => OnlyClausesAreAdded(a); OnlyClausesAreAdded(b);
    case If(_, a, b) => OnlyClausesAreAdded(a); OnlyClausesAreAdded(b);
    case While(_, body, orelse) => OnlyClausesAreAdded(body); OnlyClausesAreAdded(orelse);
    case Try(body, handlers, orelse, finalizer) =>
      OnlyClausesAreAdded(body);
      OnlyClausesAreAdded(orelse);
      OnlyClausesAreAdded(finalizer);
      ClausesAreKept(handlers);
    case With(_, body, _) => OnlyClausesAreAdded(body);
    case _ =>
  }

  lemma {:induction false} ClausesAreKept(h: Handlers)
    requires PlainClauses(h)
    ensures var p := ProtectClauses(h);
            && GuardedClauses(p) && ErasedClauses(p) == h && (p.NoHandlers? <==> h.NoHandlers?)
            && ErasedClauses(Reraiser(p)) == h
  {
    match h
    case NoHandlers =>
    case Handler(_, _, _, _, body, rest) =>
      OnlyClausesAreAdded(body);
      ClausesAreKept(rest);
  }
}
