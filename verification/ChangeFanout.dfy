/** The bounded fan-out of database events to subscribers. */
module ChangeFanout {
  import opened Basics

  const QUEUE_LIMIT: nat := 4096

  // `body` is what the hook reported, with the operation it is attributed to.
  datatype Event<B> = Event(revision: nat, body: B)

  datatype Waited<B> = TimedOut | FellBehind | Got(event: Event<B>)

  // ------------------------------------------------------ the fan-out as values

  // One subscriber: how much was recorded before it subscribed, what it has been handed,
  // what is queued for it, and whether it fell behind.
  datatype Feed<B> = Feed(start: nat, delivered: seq<Event<B>>, queue: seq<Event<B>>, overflowed: bool)

  function Offered<B>(f: Feed<B>, e: Event<B>): Feed<B> {
    if f.overflowed then f
    else if |f.queue| == QUEUE_LIMIT then f.(queue := [], overflowed := true)
    else f.(queue := f.queue + [e])
  }

  function Handed<B>(f: Feed<B>): (Feed<B>, Waited<B>) {
    if f.overflowed then (f, FellBehind)
    else if f.queue == [] then (f, TimedOut)
    else (f.(delivered := f.delivered + [f.queue[0]], queue := f.queue[1..]), Got(f.queue[0]))
  }

  // Subscribers are numbered in the order in which they came.
  datatype Fanout<B> = Fanout(log: seq<Event<B>>, feeds: seq<Feed<B>>)

  function AllOffered<B>(feeds: seq<Feed<B>>, e: Event<B>): seq<Feed<B>> {
    seq(|feeds|, (k: nat) requires k < |feeds| => Offered(feeds[k], e))
  }

  // What happens to the fan-out, in order.
  datatype Happening<B> =
    | Subscribed(id: nat)
    | Recorded(body: B)
    | Awaited(id: nat, outcome: Waited<B>)

  // What becomes of it; `None` if that cannot happen.
  ghost function Next<B>(s: Fanout<B>, h: Happening<B>): Option<Fanout<B>> {
    match h
    case Subscribed(id) =>
      if id != |s.feeds| then None else Some(s.(feeds := s.feeds + [Feed(|s.log|, [], [], false)]))
    case Recorded(body) =>
      var e := Event(|s.log| + 1, body);
      Some(Fanout(s.log + [e], AllOffered(s.feeds, e)))
    case Awaited(id, outcome) =>
      if id >= |s.feeds| || Handed(s.feeds[id]).1 != outcome then None
      else Some(s.(feeds := s.feeds[id := Handed(s.feeds[id]).0]))
  }

  ghost function Replay<B>(h: seq<Happening<B>>): Option<Fanout<B>> {
    if h == [] then Some(Fanout([], [])) else
    match Replay(h[..|h| - 1])
    case None => None
    case Some(s) => Next(s, h[|h| - 1])
  }

  lemma ReplayAppend<B>(h: seq<Happening<B>>, x: Happening<B>)
    requires Replay(h).Some?
    ensures Replay(h + [x]) == Next(Replay(h).value, x)
  {
    assert (h + [x])[..|h|] == h;
  }

  // -------------------------------------------------------------- the objects

  class Subscriber<B(==)> {
    var events: seq<Event<B>>
    var overflowed: bool
    ghost const id: nat
    ghost const start: nat
    ghost var delivered: seq<Event<B>>

    ghost function View(): Feed<B>
      reads this
    {
      Feed(start, delivered, events, overflowed)
    }

    constructor (ghost id: nat, ghost start: nat)
      ensures this.id == id && View() == Feed(start, [], [], false)
    {
      this.id, this.start := id, start;
      events, overflowed, delivered := [], false, [];
    }

    // Takes in the event just recorded.
    method Offer(e: Event<B>)
      modifies this
      ensures View() == Offered(old(View()), e)
    {
      if overflowed { return; }
      if |events| == QUEUE_LIMIT {
        events := [];
        overflowed := true;
      } else {
        events := events + [e];
      }
    }
  }

  class ChangeState<B(==)> {
    var revision: nat
    var subscribers: set<Subscriber<B>>
    ghost var log: seq<Event<B>>
    ghost var index: seq<Subscriber<B>>
    ghost var history: seq<Happening<B>>

    ghost function Feeds(): seq<Feed<B>>
      reads this, index
    {
      seq(|index|, (k: nat) requires k < |index| reads this, index => index[k].View())
    }

    ghost predicate Indexed()
      reads this, index
    {
      && (forall s | s in subscribers :: s in index)
      && (forall k | 0 <= k < |index| :: index[k] in subscribers && index[k].id == k)
    }

    ghost predicate Valid()
      reads this, index
    {
      revision == |log| && Indexed() && Replay(history) == Some(Fanout(log, Feeds()))
    }

    constructor ()
      ensures Valid() && log == [] && subscribers == {} && history == []
    {
      revision, subscribers, log, index, history := 0, {}, [], [], [];
      new;
      assert Feeds() == [];
    }

    method Subscribe() returns (s: Subscriber<B>)
      requires Valid()
      modifies this`subscribers, this`index, this`history
      ensures Valid() && fresh(s)
      ensures subscribers == old(subscribers) + {s}
      ensures s.View() == Feed(|log|, [], [], false)
      ensures history == old(history) + [Subscribed(s.id)]
    {
      ghost var id, feeds := |index|, Feeds();
      s := new Subscriber(id, |log|);
      ReplayAppend(history, Subscribed(id));
      hide Replay;
      subscribers := subscribers + {s};
      index := index + [s];
      history := history + [Subscribed(id)];
      assert Feeds() == feeds + [Feed(|log|, [], [], false)];
    }

    /** Records one event: every subscriber that keeps up has it queued. */
    method Record(body: B)
      requires Valid()
      modifies this`revision, this`log, this`history, subscribers
      ensures Valid()
      ensures log == old(log) + [Event(|old(log)| + 1, body)]
      ensures forall s | s in subscribers :: s.View() == Offered(old(s.View()), Event(|old(log)| + 1, body))
      ensures history == old(history) + [Recorded(body)]
    {
      ghost var feeds := Feeds();
      ReplayAppend(history, Recorded(body));
      hide Replay, Offered;
      revision := revision + 1;
      var e := Event(revision, body);
      assert forall k | 0 <= k < |index| :: feeds[k] == index[k].View();
      OfferAll(e);
      log := log + [e];
      history := history + [Recorded(body)];
      assert Feeds() == AllOffered(feeds, e);
    }

    method OfferAll(e: Event<B>)
      modifies subscribers
      ensures forall s | s in subscribers :: s.View() == Offered(old(s.View()), e)
    {
      hide Offered;
      var todo := subscribers;
      while todo != {}
        invariant todo <= subscribers
        invariant forall s | s in todo :: unchanged(s)
        invariant forall s | s in subscribers - todo :: s.View() == Offered(old(s.View()), e)
        decreases todo
      {
        var s :| s in todo;
        s.Offer(e);
        todo := todo - {s};
      }
    }

    /** Hands the subscriber its oldest queued event; one that fell behind only learns that. */
    method Wait(s: Subscriber<B>) returns (r: Waited<B>)
      requires Valid() && s in subscribers
      modifies s, this`history
      ensures Valid() && (s.View(), r) == Handed(old(s.View()))
      ensures history == old(history) + [Awaited(s.id, r)]
    {
      ghost var feeds := Feeds();
      assert s.id < |index| && index[s.id] == s;
      ReplayAppend(history, Awaited(s.id, Handed(s.View()).1));
      hide Replay;
      if s.events == [] && !s.overflowed {
        r := TimedOut;
      } else if s.overflowed {
        r := FellBehind;
      } else {
        r := Got(s.events[0]);
        s.events := s.events[1..];
        s.delivered := s.delivered + [r.event];
      }
      history := history + [Awaited(s.id, r)];
      assert Feeds() == feeds[s.id := s.View()];
    }
  }

  // ------------------------------------------------------------ what follows

  ghost predicate Allowed<B>(h: seq<Happening<B>>) {
    Replay(h).Some?
  }

  // Everything recorded, with revisions that count from 1.
  function Log<B>(h: seq<Happening<B>>): seq<Event<B>> {
    if h == [] then [] else
    var log := Log(h[..|h| - 1]);
    match h[|h| - 1]
    case Recorded(body) => log + [Event(|log| + 1, body)]
    case _ => log
  }

  // Everything handed to one subscriber.
  function HandedTo<B>(h: seq<Happening<B>>, id: nat): seq<Event<B>> {
    if h == [] then [] else
    var before, last := HandedTo(h[..|h| - 1], id), h[|h| - 1];
    if last.Awaited? && last.id == id && last.outcome.Got? then before + [last.outcome.event] else before
  }

  // While a subscriber keeps up it has, handed out or queued, all of the log since it
  // subscribed; one that fell behind has a prefix of that, and was further back than a
  // queue can hold.
  ghost predicate Follows<B>(f: Feed<B>, log: seq<Event<B>>) {
    && f.start <= |log| && |f.queue| <= QUEUE_LIMIT
    && (if f.overflowed
        then f.queue == [] && f.delivered <= log[f.start..] && |f.delivered| + QUEUE_LIMIT < |log| - f.start
        else f.delivered + f.queue == log[f.start..])
  }

  lemma OfferedFollows<B>(f: Feed<B>, log: seq<Event<B>>, e: Event<B>)
    requires Follows(f, log)
    ensures Follows(Offered(f, e), log + [e])
  {
    assert (log + [e])[f.start..] == log[f.start..] + [e];
  }

  lemma HandedFollows<B>(f: Feed<B>, log: seq<Event<B>>)
    requires Follows(f, log)
    ensures Follows(Handed(f).0, log)
  {
    if !f.overflowed && f.queue != [] {
      assert f.delivered + f.queue == (f.delivered + [f.queue[0]]) + f.queue[1..];
    }
  }

  lemma {:induction false} FeedsFollow<B>(h: seq<Happening<B>>)
    requires Allowed(h)
    ensures var s := Replay(h).value;
            && s.log == Log(h)
            && (forall id | 0 <= id < |s.feeds| ::
                Follows(s.feeds[id], s.log) && s.feeds[id].delivered == HandedTo(h, id))
            && (forall id | |s.feeds| <= id :: HandedTo(h, id) == [])
    decreases |h|
  {
    if h != [] {
      var front, last := h[..|h| - 1], h[|h| - 1];
      FeedsFollow(front);
      var before, s := Replay(front).value, Replay(h).value;
      hide Follows;
      match last
      case Subscribed(id) => assert Follows(s.feeds[id], s.log) by { NewFollows(s.log); }
      case Recorded(_) =>
        forall id: nat | id < |s.feeds| ensures Follows(s.feeds[id], s.log) {
          OfferedFollows(before.feeds[id], before.log, s.log[|s.log| - 1]);
        }
      case Awaited(id, _) => HandedFollows(before.feeds[id], before.log);
    }
  }

  lemma NewFollows<B>(log: seq<Event<B>>)
    ensures Follows(Feed(|log|, [], [], false), log)
  {
  }

  // Once subscribed a subscriber keeps its start, and once behind it keeps all it has.
  ghost predicate Lasts<B>(f: Feed<B>, g: Feed<B>) {
    g.start == f.start && f.delivered <= g.delivered && (f.overflowed ==> g == f)
  }

  lemma {:induction false} FeedsLast<B>(h: seq<Happening<B>>, i: nat, id: nat)
    requires Allowed(h) && i <= |h|
    ensures Allowed(h[..i])
    ensures var s, t := Replay(h[..i]).value, Replay(h).value;
            id < |s.feeds| ==> id < |t.feeds| && Lasts(s.feeds[id], t.feeds[id])
    decreases |h|
  {
    if i == |h| {
      assert h[..i] == h;
    } else {
      var front := h[..|h| - 1];
      FeedsLast(front, i, id);
      assert front[..i] == h[..i];
    }
  }

  // A subscription starts with what has been recorded so far.
  lemma StartsThere<B>(h: seq<Happening<B>>, i: nat, id: nat)
    requires Allowed(h) && i < |h| && h[i] == Subscribed(id)
    ensures id < |Replay(h).value.feeds| && Replay(h).value.feeds[id].start == |Log(h[..i])|
  {
    FeedsLast(h, i, id);
    FeedsLast(h, i + 1, id);
    assert h[..i + 1][..i] == h[..i] && h[..i + 1][i] == h[i];
    FeedsFollow(h[..i]);
    hide Follows, Log;
  }

  lemma PrefixOf<B>(given: seq<B>, log: seq<B>, start: nat)
    requires start <= |log| && given <= log[start..]
    ensures start + |given| <= |log| && given == log[start..start + |given|]
  {
    assert given == log[start..][..|given|];
  }

  /** Over every history: what a subscriber was handed, whether or not it later fell behind,
      is the log without a gap from right after its subscription. It has fallen behind if
      and only if what it still lacks is more than a queue can hold. */
  lemma DeliveredIsGapFree<B>(h: seq<Happening<B>>, i: nat, id: nat)
    requires Allowed(h) && i < |h| && h[i] == Subscribed(id)
    ensures var start, given := |Log(h[..i])|, HandedTo(h, id);
            && start + |given| <= |Log(h)| && given == Log(h)[start..start + |given|]
            && (forall k | 0 <= k < |given| :: given[k].revision == start + k + 1)
            && id < |Replay(h).value.feeds|
            && (Replay(h).value.feeds[id].overflowed <==> |Log(h)| - start - |given| > QUEUE_LIMIT)
  {
    StartsThere(h, i, id);
    FeedsFollow(h);
    RevisionsCount(h);
    var f := Replay(h).value.feeds[id];
    hide Log, HandedTo, Allowed;
    assert Follows(f, Log(h)) && f.delivered <= Log(h)[f.start..];
    PrefixOf(f.delivered, Log(h), f.start);
  }

  /** Over every history each wait is answered by how far the subscriber lags: with nothing
      it lacks it times out, while a queue can hold what it lacks it is handed the next
      event of the log, and beyond that it is told that it fell behind. */
  lemma WaitsExactly<B>(h: seq<Happening<B>>, i: nat, j: nat, id: nat)
    requires Allowed(h) && i < j < |h| && h[i] == Subscribed(id) && h[j].Awaited? && h[j].id == id
    ensures var start, given, log := |Log(h[..i])|, |HandedTo(h[..j], id)|, Log(h[..j]);
            && start + given <= |log|
            && var lag := |log| - start - given;
            h[j].outcome == if lag == 0 then TimedOut else if lag <= 4096 then Got(log[start + given]) else FellBehind
  {
    FeedsLast(h, j, id);
    FeedsLast(h, j + 1, id);
    var front := h[..j];
    assert front[..i] == h[..i] && front[i] == h[i] && h[..j + 1][..j] == front && h[..j + 1][j] == h[j];
    StartsThere(front, i, id);
    FeedsFollow(front);
    var f, log := Replay(front).value.feeds[id], Log(front);
    assert Handed(f).1 == h[j].outcome;
    hide Replay, Log, HandedTo, Allowed, Next;
    AnswersByLag(f, log);
  }

  lemma AnswersByLag<B>(f: Feed<B>, log: seq<Event<B>>)
    requires Follows(f, log)
    ensures f.start + |f.delivered| <= |log|
    ensures var lag := |log| - f.start - |f.delivered|;
            Handed(f).1 == if lag == 0 then TimedOut
                           else if lag <= 4096 then Got(log[f.start + |f.delivered|]) else FellBehind
  {
    var tail := log[f.start..];
    if !f.overflowed {
      assert |f.delivered + f.queue| == |tail|;
      if f.queue != [] { assert (f.delivered + f.queue)[|f.delivered|] == f.queue[0] == tail[|f.delivered|]; }
    }
  }

  lemma {:induction false} RevisionsCount<B>(h: seq<Happening<B>>)
    ensures forall k | 0 <= k < |Log(h)| :: Log(h)[k].revision == k + 1
  {
    if h != [] { RevisionsCount(h[..|h| - 1]); }
  }

  /** Once a subscriber fell behind, nothing is ever delivered to it again: every later wait
      only reports that. */
  lemma NothingAfterOverflow<B>(h: seq<Happening<B>>, i: nat, id: nat)
    requires Allowed(h) && i <= |h|
    ensures Allowed(h[..i])
    ensures var s := Replay(h[..i]).value;
            id < |s.feeds| && s.feeds[id].overflowed ==>
              && HandedTo(h, id) == HandedTo(h[..i], id)
              && forall j | i <= j < |h| && h[j].Awaited? && h[j].id == id :: h[j].outcome == FellBehind
  {
    FeedsLast(h, i, id);
    var s := Replay(h[..i]).value;
    if id < |s.feeds| && s.feeds[id].overflowed {
      FeedsFollow(h);
      FeedsFollow(h[..i]);
      hide Follows, HandedTo, Log;
      forall j | i <= j < |h| && h[j].Awaited? && h[j].id == id
        ensures h[j].outcome == FellBehind
      {
        BehindForGood(h, i, j, id);
      }
    }
  }

  lemma BehindForGood<B>(h: seq<Happening<B>>, i: nat, j: nat, id: nat)
    requires Allowed(h) && i <= j < |h| && h[j].Awaited? && h[j].id == id
    requires Allowed(h[..i]) && id < |Replay(h[..i]).value.feeds| && Replay(h[..i]).value.feeds[id].overflowed
    ensures h[j].outcome == FellBehind
  {
    FeedsLast(h, j + 1, id);
    FeedsLast(h, j, id);
    assert h[..j + 1][..j] == h[..j] && h[..j + 1][j] == h[j] && h[..j][..i] == h[..i];
    FeedsLast(h[..j], i, id);
  }
}
