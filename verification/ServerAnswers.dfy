/** What the server has told its callers, over every interleaving. */
module ServerAnswers {
  import opened Basics
  import opened ServerState
  import opened ServerProtocol
  import opened ServerCancels

  predicate TellsShutdown(pc: Pc) {
    pc.ShutdownReply? || pc.AfterShutdown?
  }

  // Whoever is told that its shutdown request was accepted had it accepted.
  ghost predicate Told(s: System) {
    forall t | t in s.threads && TellsShutdown(s.threads[t]) :: s.history.accepted
  }

  // A cancelled key is that of an operation whose cancellation was acknowledged before its
  // body began, or of one whose body has begun.
  predicate Met(s: System, t: Tid, pc: Pc) {
    KeySet(pc) !! s.server.cancelled || t in s.history.doomed || t in s.history.bodies
  }

  ghost predicate CancelsMeet(s: System) {
    forall t | t in s.threads :: Met(s, t, s.threads[t])
  }

  ghost predicate Answered(s: System) {
    Told(s) && CancelsMeet(s)
  }

  // ------------------------------------------------------------------- steps

  lemma OpTells(s: System, t: Tid, pc: Pc, a: OpMove)
    requires t in s.threads && OpStep(s, t, pc, a).To?
    ensures var n := OpStep(s, t, pc, a).next;
            && OthersSame(s, n, {t}) && t in n.threads && !TellsShutdown(n.threads[t])
            && n.history.accepted == s.history.accepted && s.history.bodies <= n.history.bodies
  {
    OpsOnly(s.server);
    hide Announce, Unannounce, StartRunning, StopRunning, Discard, KeyOf, OpKey;
  }

  lemma OpStaysAnswered(s: System, t: Tid, a: OpMove)
    requires Answered(s) && Cancels(s) && t in s.threads && OpStep(s, t, s.threads[t], a).To?
    ensures Answered(OpStep(s, t, s.threads[t], a).next)
  {
    assert ThreadKept(s, t, s.threads[t]) && s.server.cancelled <= s.server.pending;
    OpTells(s, t, s.threads[t], a);
    OpKeys(s, t, s.threads[t], a);
    OpForgets(s, t, s.threads[t], a);
    hide OpStep, KeySet, Cancels, TellsShutdown;
  }

  lemma RequestTells(s: System, t: Tid, pc: Pc, a: RequestMove)
    requires t in s.threads && RequestStep(s, t, pc, a).To?
    ensures var n := RequestStep(s, t, pc, a).next;
            && OthersSame(s, n, {t})
            && (s.history.accepted ==> n.history.accepted)
            && (t in n.threads && TellsShutdown(n.threads[t]) ==> TellsShutdown(pc) || n.history.accepted)
  {
    hide FinishRequest, Cancel, BeginShutdown, Reached, RequestShutdown;
  }

  lemma RequestStaysAnswered(s: System, t: Tid, a: RequestMove)
    requires Answered(s) && Cancels(s) && t in s.threads && RequestStep(s, t, s.threads[t], a).To?
    ensures Answered(RequestStep(s, t, s.threads[t], a).next)
  {
    var n := RequestStep(s, t, s.threads[t], a).next;
    RequestTells(s, t, s.threads[t], a);
    RequestKeys(s, t, s.threads[t], a);
    RequestCancels(s, t, s.threads[t], a);
    hide RequestStep, TellsShutdown;
    assert Told(n);
    forall u | u in n.threads
      ensures Met(n, u, n.threads[u])
    {
      if u != t { OthersMet(s, n, u); }
    }
  }

  lemma OthersMet(s: System, n: System, u: Tid)
    requires Cancelling(s, n) && u in s.threads && Met(s, u, s.threads[u])
    ensures Met(n, u, s.threads[u])
  {
    forall key | n.server.cancelled == s.server.cancelled + {key}
        && n.history.doomed == s.history.doomed + Reached(s, key)
      ensures Met(n, u, s.threads[u])
    {
      if key in KeySet(s.threads[u]) && u !in s.history.bodies { assert u in Reached(s, key); }
    }
  }

  lemma GlobalStaysAnswered(s: System, a: GlobalMove)
    requires Answered(s) && GlobalStep(s, a).To?
    ensures Answered(GlobalStep(s, a).next)
  {
    GlobalCancels(s, a);
    BegunThreads(s, a);
    GlobalAccepts(s, a);
    hide GlobalStep, Begun;
  }

  lemma GlobalAccepts(s: System, a: GlobalMove)
    requires GlobalStep(s, a).To?
    ensures GlobalStep(s, a).next.history.accepted == s.history.accepted
  {
    hide Detach, ShutdownPending, IdleDrains, OpenLease, ArmGrace, Scan, StartRequest;
  }

  lemma StepStaysAnswered(s: System, a: Action)
    requires Answered(s) && Cancels(s) && Next(s, a).To?
    ensures Answered(Next(s, a).next)
  {
    hide Answered, Cancels;
    match a
    case Global(m) =>
      hide GlobalStep;
      GlobalStaysAnswered(s, m);
    case OfRequest(t, m) =>
      hide RequestStep;
      RequestStaysAnswered(s, t, m);
    case OfOp(t, m) =>
      hide OpStep;
      OpStaysAnswered(s, t, m);
    case OfBackground(m) =>
      BackgroundStaysAnswered(s, m);
      hide BackgroundStep;
  }

  lemma BackgroundStaysAnswered(s: System, a: BackgroundMove)
    requires Answered(s) && BackgroundStep(s, a).To?
    ensures Answered(BackgroundStep(s, a).next)
  {
    BackgroundLeaves(s, a);
    hide BackgroundStep, KeySet, TellsShutdown;
  }
}
