/** Deadlines shared by all operations: a binary heap from which cancelled entries are
    removed only when they surface, against a plain map from token to timer. */
module DeadlineScheduler {
  import opened Basics
  import opened Heap

  // -------------------------------------------------------------- the map

  datatype Timer<C> = Timer(deadline: real, callback: C)

  type Pending<C> = map<nat, Timer<C>>

  function Key<C>(p: Pending<C>, token: nat): Entry
    requires token in p
  {
    Entry(p[token].deadline, token)
  }

  // `token` is the pending one with the earliest deadline, the oldest of those.
  ghost predicate IsLeast<C>(p: Pending<C>, token: nat) {
    && token in p
    && forall t | t in p ::
         p[token].deadline < p[t].deadline || (p[token].deadline == p[t].deadline && token <= t)
  }

  // What happened, in order.
  datatype Event<C> =
    | Scheduled(token: nat, timer: Timer<C>)
    | Cancelled(token: nat, found: bool)
    | Fired(token: nat, now: real, callback: C)

  // The map: its pending timers and the last token handed out.
  datatype Timers<C> = Timers(pending: Pending<C>, last: nat)

  // What the map makes of one event; `None` if it does not allow it.
  ghost function Next<C>(s: Timers<C>, e: Event<C>): Option<Timers<C>> {
    match e
    case Scheduled(token, timer) =>
      if token == s.last + 1 then Some(Timers(s.pending[token := timer], token)) else None
    case Cancelled(token, found) =>
      if found == (token in s.pending) then Some(s.(pending := s.pending - {token})) else None
    case Fired(token, now, callback) =>
      if IsLeast(s.pending, token) && s.pending[token].deadline <= now && callback == s.pending[token].callback
      then Some(s.(pending := s.pending - {token})) else None
  }

  // The map after the events of `h`.
  ghost function Replay<C>(h: seq<Event<C>>): Option<Timers<C>> {
    if h == [] then Some(Timers(map[], 0)) else
    match Replay(h[..|h| - 1])
    case None => None
    case Some(s) => Next(s, h[|h| - 1])
  }

  lemma ReplayAppend<C>(h: seq<Event<C>>, e: Event<C>)
    requires Replay(h).Some?
    ensures Replay(h + [e]) == Next(Replay(h).value, e)
  {
    assert (h + [e])[..|h|] == h;
  }

  // ---------------------------------------------------------- what follows

  predicate Schedules<C>(e: Event<C>, token: nat) { e.Scheduled? && e.token == token }

  predicate Ends<C>(e: Event<C>, token: nat) {
    (e.Fired? || (e.Cancelled? && e.found)) && e.token == token
  }

  ghost predicate Allowed<C>(h: seq<Event<C>>) {
    Replay(h).Some?
  }

  // What is known of the map after the events of `h`.
  ghost predicate Sound<C>(h: seq<Event<C>>, s: Timers<C>) {
    && (forall t | t in s.pending :: 0 < t <= s.last)
    && (forall i | 0 <= i < |h| && h[i].Scheduled? :: 0 < h[i].token <= s.last)
    && (forall t | t in s.pending :: exists i :: 0 <= i < |h| && h[i] == Scheduled(t, s.pending[t]))
    && (forall t, i | t in s.pending && 0 <= i < |h| :: !Ends(h[i], t))
    && (forall i | 0 <= i < |h| :: Ends(h[i], h[i].token) ==> h[i].token <= s.last)
  }

  lemma {:induction false} PendingWasScheduled<C>(h: seq<Event<C>>)
    requires Allowed(h)
    ensures Sound(h, Replay(h).value)
  {
    if h != [] {
      var front, e := h[..|h| - 1], h[|h| - 1];
      PendingWasScheduled(front);
      assert h == front + [e];
      SoundNext(front, Replay(front).value, e, Replay(h).value);
    }
  }

  lemma PendingAreOld<C>(h: seq<Event<C>>)
    requires Allowed(h)
    ensures var s := Replay(h).value; forall t | t in s.pending :: t <= s.last
  {
    PendingWasScheduled(h);
  }

  lemma SoundNext<C>(front: seq<Event<C>>, before: Timers<C>, e: Event<C>, s: Timers<C>)
    requires Next(before, e) == Some(s) && Sound(front, before)
    ensures Sound(front + [e], s)
  {
    var h := front + [e];
    assert forall i | 0 <= i < |front| :: h[i] == front[i];
    assert h[|front|] == e;
    forall t | t in s.pending
      ensures exists i :: 0 <= i < |h| && h[i] == Scheduled(t, s.pending[t])
    {
      if !Schedules(e, t) {
        var i :| 0 <= i < |front| && front[i] == Scheduled(t, before.pending[t]);
        assert h[i] == Scheduled(t, s.pending[t]);
      } else {
        assert h[|front|] == Scheduled(t, s.pending[t]);
      }
    }
    forall t, i | t in s.pending && 0 <= i < |h|
      ensures !Ends(h[i], t)
    {
      assert i < |front| && Ends(front[i], front[i].token) ==> front[i].token <= before.last;
    }
  }

  /** Over every history: a firing token was scheduled before, with that callback and a
      deadline that has passed, and nothing ended it earlier. So no token fires twice and
      none fires after a cancel that found it. */
  lemma {:induction false} FiringsAreDue<C>(h: seq<Event<C>>, k: nat)
    requires Allowed(h) && k < |h| && h[k].Fired?
    ensures exists i ::
        0 <= i < k && Schedules(h[i], h[k].token) && h[i].timer.callback == h[k].callback
        && h[i].timer.deadline <= h[k].now
    ensures forall i | 0 <= i < k :: !Ends(h[i], h[k].token)
  {
    var front := h[..|h| - 1];
    assert forall i | 0 <= i < |front| :: h[i] == front[i];
    if k < |h| - 1 {
      FiringsAreDue(front, k);
      var i :| 0 <= i < k && Schedules(front[i], front[k].token) && front[i].timer.callback == front[k].callback
          && front[i].timer.deadline <= front[k].now;
      assert Schedules(h[i], h[k].token);
    } else {
      PendingWasScheduled(front);
      var before := Replay(front).value;
      var i :| 0 <= i < |front| && front[i] == Scheduled(h[k].token, before.pending[h[k].token]);
      assert Schedules(h[i], h[k].token);
    }
  }

  /** Whatever fires is the least timer then pending. */
  lemma {:induction false} FiringsAreLeast<C>(h: seq<Event<C>>, k: nat)
    requires Allowed(h) && k < |h| && h[k].Fired?
    ensures Allowed(h[..k]) && IsLeast(Replay(h[..k]).value.pending, h[k].token)
  {
    var front := h[..|h| - 1];
    if k < |h| - 1 {
      FiringsAreLeast(front, k);
      assert front[..k] == h[..k];
    }
  }

  /** Tokens are handed out once: no history schedules one twice. */
  lemma {:induction false} TokensAreFresh<C>(h: seq<Event<C>>, i: nat, j: nat)
    requires Allowed(h) && i < j < |h| && h[i].Scheduled? && h[j].Scheduled?
    ensures h[i].token < h[j].token
  {
    var front := h[..|h| - 1];
    PendingWasScheduled(front);
    assert front[i] == h[i];
    if j < |h| - 1 { TokensAreFresh(front, i, j); }
  }

  // --------------------------------------------------------- the scheduler

  // What the daemon finds when it looks: a callback to run, or how long to sleep.
  datatype Poll<C> = Fire(token: nat, callback: C) | Sleep(delay: real) | SleepUntilNotified

  class Scheduler<C(==)> {
    var deadlines: seq<Entry>
    var callbacks: map<nat, C>
    var nextToken: nat
    ghost var pending: Pending<C>
    ghost var history: seq<Event<C>>

    ghost predicate Valid()
      reads this
    {
      && IsHeap(deadlines)
      && Unique(deadlines)
      && (forall e | e in deadlines :: e.token <= nextToken)
      && pending.Keys == callbacks.Keys
      && (forall t | t in pending :: pending[t].callback == callbacks[t] && Key(pending, t) in deadlines)
      && Replay(history) == Some(Timers(pending, nextToken))
    }

    constructor ()
      ensures Valid() && pending == map[] && history == []
    {
      deadlines, callbacks, nextToken, pending, history := [], map[], 0, map[], [];
    }

    method Schedule(now: real, delay: real, callback: C) returns (token: nat)
      requires Valid()
      modifies this
      ensures Valid()
      ensures token !in old(pending) && pending == old(pending)[token := Timer(now + delay, callback)]
      ensures history == old(history) + [Scheduled(token, Timer(now + delay, callback))]
    {
      hide Replay, IsHeap, Unique, IsLeast, Less;
      nextToken := nextToken + 1;
      token := nextToken;
      callbacks := callbacks[token := callback];
      var e := Entry(now + delay, token);
      ghost var was := deadlines;
      deadlines := Push(deadlines, e);
      PendingAreOld(history);
      PushedEntries(was, e, deadlines);
      ReplayAppend(history, Scheduled(token, Timer(e.deadline, callback)));
      history := history + [Scheduled(token, Timer(e.deadline, callback))];
      pending := pending[token := Timer(e.deadline, callback)];
    }

    method Cancel(token: nat)
      requires Valid()
      modifies this
      ensures Valid()
      ensures pending == old(pending) - {token}
      ensures history == old(history) + [Cancelled(token, token in old(pending))]
    {
      hide Replay, IsHeap, Unique;
      callbacks := callbacks - {token};
      ReplayAppend(history, Cancelled(token, token in pending));
      history := history + [Cancelled(token, token in pending)];
      pending := pending - {token};
    }

    /** One look by the daemon: it discards cancelled entries that have surfaced, then takes
        the least pending timer if it is due. */
    method Look(now: real) returns (r: Poll<C>)
      requires Valid()
      modifies this
      ensures Valid()
      ensures r.Fire? ==>
                && IsLeast(old(pending), r.token) && old(pending)[r.token].deadline <= now
                && r.callback == old(pending)[r.token].callback
                && pending == old(pending) - {r.token}
                && history == old(history) + [Fired(r.token, now, r.callback)]
      ensures !r.Fire? ==> pending == old(pending) && history == old(history)
      ensures r.Sleep? ==> r.delay > 0.0 && exists t :: IsLeast(pending, t) && pending[t].deadline == now + r.delay
      ensures r.SleepUntilNotified? <==> old(pending) == map[]
    {
      hide Replay, IsHeap, Unique, IsLeast;
      while deadlines != [] && deadlines[0].token !in callbacks
        invariant Valid() && pending == old(pending) && history == old(history)
        decreases |deadlines|
      {
        Discard();
      }
      if deadlines == [] {
        assert forall t :: t !in pending;
        return SleepUntilNotified;
      }
      var e := deadlines[0];
      TopIsLeast();
      if e.deadline - now > 0.0 {
        return Sleep(e.deadline - now);
      }
      r := Fire(e.token, callbacks[e.token]);
      Take(now);
    }

    // Removes the least timer, which is due.
    method Take(now: real)
      requires Valid() && deadlines != [] && deadlines[0].token in callbacks
      requires var t := deadlines[0].token;
               IsLeast(pending, t) && Key(pending, t) == deadlines[0] && pending[t].deadline <= now
      modifies this
      ensures Valid()
      ensures var t := old(deadlines)[0].token;
              && pending == old(pending) - {t}
              && history == old(history) + [Fired(t, now, old(callbacks)[t])]
    {
      hide Replay, IsHeap, Unique, IsLeast, Less;
      var e := deadlines[0];
      ghost var was := deadlines;
      var least, rest := Pop(deadlines);
      PoppedEntries(was, rest);
      ReplayAppend(history, Fired(e.token, now, callbacks[e.token]));
      history := history + [Fired(e.token, now, callbacks[e.token])];
      deadlines, callbacks := rest, callbacks - {e.token};
      pending := pending - {e.token};
    }

    // Drops the top entry, whose token is no longer pending.
    method Discard()
      requires Valid() && deadlines != [] && deadlines[0].token !in callbacks
      modifies this`deadlines
      ensures Valid() && |deadlines| == |old(deadlines)| - 1
    {
      hide Replay, IsHeap, Unique;
      var least, rest := Pop(deadlines);
      PoppedEntries(deadlines, rest);
      deadlines := rest;
    }

    lemma TopIsPending()
      requires Valid() && deadlines != [] && deadlines[0].token in callbacks
      ensures deadlines[0].token in pending && Key(pending, deadlines[0].token) == deadlines[0]
    {
      var e := Key(pending, deadlines[0].token);
      var i :| 0 <= i < |deadlines| && deadlines[i] == e;
      assert Unique(deadlines);
    }

    lemma TopIsLeast()
      requires Valid() && deadlines != [] && deadlines[0].token in callbacks
      ensures IsLeast(pending, deadlines[0].token) && Key(pending, deadlines[0].token) == deadlines[0]
    {
      var token := deadlines[0].token;
      TopIsPending();
      forall t | t in pending
        ensures pending[token].deadline < pending[t].deadline
             || (pending[token].deadline == pending[t].deadline && token <= t)
      {
        var i :| 0 <= i < |deadlines| && deadlines[i] == Key(pending, t);
        RootIsLeast(deadlines, i);
        assert deadlines[0] == Key(pending, token);
      }
    }
  }

  ghost predicate Unique(a: seq<Entry>) {
    forall i, j | 0 <= i < j < |a| :: a[i].token != a[j].token
  }

  lemma CountOfPair(b: seq<Entry>, i: nat, j: nat)
    requires i < j < |b| && b[i] == b[j]
    ensures multiset(b)[b[i]] >= 2
  {
    assert b == b[..j] + b[j..];
    assert b[..j][i] == b[i] && b[j..][0] == b[j];
    assert b[i] in multiset(b[..j]) && b[i] in multiset(b[j..]);
  }

  lemma {:induction false} CountOfUnique(a: seq<Entry>, e: Entry)
    requires Unique(a)
    ensures multiset(a)[e] == if e in a then 1 else 0
  {
    if a != [] {
      var front := a[..|a| - 1];
      CountOfUnique(front, e);
      assert a == front + [a[|a| - 1]];
      assert forall i | 0 <= i < |front| :: front[i].token != a[|a| - 1].token;
    }
  }

  lemma SameEntries(a: seq<Entry>, b: seq<Entry>)
    requires Unique(a) && multiset(a) == multiset(b)
    ensures Unique(b)
    ensures forall e :: e in a <==> e in b
  {
    forall e
      ensures e in a <==> e in b
    {
      assert e in multiset(a) <==> e in a;
      assert e in multiset(b) <==> e in b;
    }
    forall i, j | 0 <= i < j < |b|
      ensures b[i].token != b[j].token
    {
      CountOfUnique(a, b[i]);
      if b[i] == b[j] { CountOfPair(b, i, j); }
      assert b[i] in a && b[j] in a;
    }
  }

  lemma PushedEntries(was: seq<Entry>, e: Entry, r: seq<Entry>)
    requires Unique(was) && multiset(r) == multiset(was) + multiset{e}
    requires forall x | x in was :: x.token != e.token
    ensures Unique(r)
    ensures forall x :: x in r <==> x in was || x == e
  {
    assert multiset(was + [e]) == multiset(r);
    SameEntries(was + [e], r);
  }

  lemma PoppedEntries(was: seq<Entry>, rest: seq<Entry>)
    requires was != [] && Unique(was) && multiset(rest) + multiset{was[0]} == multiset(was)
    ensures Unique(rest)
    ensures forall e :: e in rest <==> e in was && e != was[0]
  {
    var tail := was[1..];
    assert was == [was[0]] + tail;
    assert multiset(was) == multiset{was[0]} + multiset(tail);
    assert multiset(rest) == multiset(was) - multiset{was[0]} == multiset(tail);
    SameEntries(tail, rest);
  }
}
