/** A binary heap of entries on a sequence, by deadline and then by token. */
module Heap {

  // Ordered by deadline, then by token.
  datatype Entry = Entry(deadline: real, token: nat)

  predicate Less(a: Entry, b: Entry) {
    a.deadline < b.deadline || (a.deadline == b.deadline && a.token < b.token)
  }

  predicate AtMost(a: Entry, b: Entry) {
    !Less(b, a)
  }

  function Parent(i: nat): (p: nat)
    requires 0 < i
    ensures p < i
  {
    (i - 1) / 2
  }

  ghost predicate IsHeap(h: seq<Entry>) {
    forall i: nat | 0 < i < |h| :: AtMost(h[Parent(i)], h[i])
  }

  lemma {:induction false} RootIsLeast(h: seq<Entry>, i: nat)
    requires IsHeap(h) && i < |h|
    ensures AtMost(h[0], h[i])
  {
    if i > 0 { RootIsLeast(h, Parent(i)); }
  }

  function Swap(h: seq<Entry>, i: nat, j: nat): (s: seq<Entry>)
    requires i < |h| && j < |h|
    ensures |s| == |h| && multiset(s) == multiset(h)
  {
    h[i := h[j]][j := h[i]]
  }

  // A heap but for position `at`, whose entry may be less than its parent.
  ghost predicate Rising(h: seq<Entry>, at: nat) {
    && (forall i: nat | 0 < i < |h| && i != at :: AtMost(h[Parent(i)], h[i]))
    && (forall i: nat | 0 < i < |h| && 0 < at && Parent(i) == at :: AtMost(h[Parent(at)], h[i]))
  }

  lemma RisesOn(h: seq<Entry>, at: nat)
    requires 0 < at < |h| && Rising(h, at) && Less(h[at], h[Parent(at)])
    ensures Rising(Swap(h, at, Parent(at)), Parent(at))
  {
    var p, s := Parent(at), Swap(h, at, Parent(at));
    forall i: nat | 0 < i < |s| && i != p
      ensures AtMost(s[Parent(i)], s[i])
    {
      assert i != at ==> AtMost(h[Parent(i)], h[i]);
    }
    forall i: nat | 0 < i < |s| && 0 < p && Parent(i) == p
      ensures AtMost(s[Parent(p)], s[i])
    {
      assert AtMost(h[Parent(p)], h[p]);
      assert i != at ==> AtMost(h[Parent(i)], h[i]);
    }
  }

  lemma RisenIsHeap(h: seq<Entry>, at: nat)
    requires at < |h| && Rising(h, at) && (0 < at ==> AtMost(h[Parent(at)], h[at]))
    ensures IsHeap(h)
  {
  }

  lemma AppendRises(h: seq<Entry>, e: Entry)
    requires IsHeap(h)
    ensures Rising(h + [e], |h|)
  {
    forall i: nat | 0 < i < |h|
      ensures AtMost((h + [e])[Parent(i)], (h + [e])[i])
    {
      assert AtMost(h[Parent(i)], h[i]);
    }
  }

  method Push(h: seq<Entry>, e: Entry) returns (r: seq<Entry>)
    requires IsHeap(h)
    ensures IsHeap(r) && |r| == |h| + 1 && multiset(r) == multiset(h) + multiset{e}
  {
    hide Rising, IsHeap, Swap;
    r := h + [e];
    var at: nat := |h|;
    AppendRises(h, e);
    while 0 < at && Less(r[at], r[Parent(at)])
      invariant at < |r| == |h| + 1 && multiset(r) == multiset(h) + multiset{e}
      invariant Rising(r, at)
      decreases at
    {
      RisesOn(r, at);
      r := Swap(r, at, Parent(at));
      at := Parent(at);
    }
    RisenIsHeap(r, at);
  }

  // A heap but for position `at`, whose entry may exceed its children.
  ghost predicate Sinking(h: seq<Entry>, at: nat) {
    && (forall i: nat | 0 < i < |h| && Parent(i) != at :: AtMost(h[Parent(i)], h[i]))
    && (forall i: nat | 0 < i < |h| && 0 < at < |h| && Parent(i) == at :: AtMost(h[Parent(at)], h[i]))
  }

  method Pop(h: seq<Entry>) returns (least: Entry, r: seq<Entry>)
    requires IsHeap(h) && h != []
    ensures least == h[0]
    ensures IsHeap(r) && |r| == |h| - 1 && multiset(r) + multiset{least} == multiset(h)
  {
    hide Sinking, IsHeap, Swap;
    least := h[0];
    var last := h[|h| - 1];
    r := h[..|h| - 1];
    assert h == r + [last];
    if r == [] {
      EmptyIsHeap();
      return;
    }
    RootSinks(h);
    r := r[0 := last];
    var at: nat := 0;
    while 2 * at + 1 < |r|
      invariant at < |r| == |h| - 1 && multiset(r) + multiset{least} == multiset(h)
      invariant Sinking(r, at)
      decreases |r| - at
    {
      var child: nat := 2 * at + 1;
      if child + 1 < |r| && !Less(r[child], r[child + 1]) { child := child + 1; }
      if !Less(r[child], r[at]) {
        SettledIsHeap(r, at, child);
        return;
      }
      SinksOn(r, at, child);
      r := Swap(r, at, child);
      at := child;
    }
    LeafIsHeap(r, at);
  }

  lemma EmptyIsHeap()
    ensures IsHeap([])
  {
  }

  lemma RootSinks(h: seq<Entry>)
    requires IsHeap(h) && 1 < |h|
    ensures Sinking(h[..|h| - 1][0 := h[|h| - 1]], 0)
  {
    var r := h[..|h| - 1][0 := h[|h| - 1]];
    forall i: nat | 0 < i < |r| && Parent(i) != 0
      ensures AtMost(r[Parent(i)], r[i])
    {
      assert AtMost(h[Parent(i)], h[i]);
    }
  }

  lemma LeafIsHeap(r: seq<Entry>, at: nat)
    requires Sinking(r, at) && |r| <= 2 * at + 1
    ensures IsHeap(r)
  {
    forall i: nat | 0 < i < |r|
      ensures AtMost(r[Parent(i)], r[i])
    {
      assert Parent(i) != at;
    }
  }

  lemma SettledIsHeap(r: seq<Entry>, at: nat, child: nat)
    requires at < |r| && child < |r| && Sinking(r, at) && (child == 2 * at + 1 || child == 2 * at + 2)
    requires forall c | c < |r| && (c == 2 * at + 1 || c == 2 * at + 2) :: AtMost(r[child], r[c])
    requires AtMost(r[at], r[child])
    ensures IsHeap(r)
  {
    forall i: nat | 0 < i < |r|
      ensures AtMost(r[Parent(i)], r[i])
    {
      if Parent(i) == at { assert i == 2 * at + 1 || i == 2 * at + 2; }
    }
  }

  lemma SinksOn(r: seq<Entry>, at: nat, child: nat)
    requires at < |r| && child < |r| && Sinking(r, at) && (child == 2 * at + 1 || child == 2 * at + 2)
    requires forall c | c < |r| && (c == 2 * at + 1 || c == 2 * at + 2) :: AtMost(r[child], r[c])
    requires Less(r[child], r[at])
    ensures Sinking(Swap(r, at, child), child)
  {
    var s := Swap(r, at, child);
    assert Parent(child) == at;
    forall i: nat | 0 < i < |s| && Parent(i) != child
      ensures AtMost(s[Parent(i)], s[i])
    {
      if Parent(i) == at { assert i == 2 * at + 1 || i == 2 * at + 2; }
    }
    forall i: nat | 0 < i < |s| && Parent(i) == child
      ensures AtMost(s[Parent(child)], s[i])
    {
      assert AtMost(r[Parent(i)], r[i]);
    }
  }
}
