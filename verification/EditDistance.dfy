/** The rolling-row edit distance behind "did you mean", against its definition as
    the cheapest script of edits in which no part of a word is edited twice. */
module EditDistance {

  // One edit consumes `Before` and leaves `After` behind.
  datatype Edit =
    | Keep(c: char)
    | Substitute(a: char, b: char)
    | Insert(c: char)
    | Delete(c: char)
    | Swap(a: char, b: char)
  {
    function Before(): string {
      match this
      case Keep(c) => [c]
      case Substitute(a, _) => [a]
      case Insert(_) => []
      case Delete(c) => [c]
      case Swap(a, b) => [a, b]
    }

    function After(): string {
      match this
      case Keep(c) => [c]
      case Substitute(_, b) => [b]
      case Insert(c) => [c]
      case Delete(_) => []
      case Swap(a, b) => [b, a]
    }

    function Cost(): nat {
      if Keep? then 0 else 1
    }

    function Undo(): Edit {
      match this
      case Keep(c) => this
      case Substitute(a, b) => Substitute(b, a)
      case Insert(c) => Delete(c)
      case Delete(c) => Insert(c)
      case Swap(a, b) => Swap(b, a)
    }
  }

  datatype Script = Empty | Then(front: Script, last: Edit)

  function Source(es: Script): string {
    match es
    case Empty => []
    case Then(front, last) => Source(front) + last.Before()
  }

  function Target(es: Script): string {
    match es
    case Empty => []
    case Then(front, last) => Target(front) + last.After()
  }

  function Total(es: Script): nat {
    match es
    case Empty => 0
    case Then(front, last) => Total(front) + last.Cost()
  }

  ghost predicate Rewrites(es: Script, left: string, right: string) {
    Source(es) == left && Target(es) == right
  }

  /** `d` is the least cost of a script from `left` to `right`. */
  ghost predicate IsDistance(left: string, right: string, d: nat) {
    && (exists es :: Rewrites(es, left, right) && Total(es) == d)
    && (forall es | Rewrites(es, left, right) :: d <= Total(es))
  }

  // ---------------------------------------------------------- the recurrence

  function Min(a: nat, b: nat): nat { if a <= b then a else b }

  function Max(a: nat, b: nat): nat { if a <= b then b else a }

  predicate Swapped(left: string, right: string, i: nat, j: nat)
    requires 1 <= i <= |left| && 1 <= j <= |right|
  {
    1 < i && 1 < j && left[i - 1] == right[j - 2] && left[i - 2] == right[j - 1]
  }

  // The distance between the first `i` and the first `j` characters.
  function Prefix(left: string, right: string, i: nat, j: nat): nat
    requires i <= |left| && j <= |right|
  {
    if i == 0 then j
    else if j == 0 then i
    else
      var cost := if left[i - 1] != right[j - 1] then 1 else 0;
      var value := Min(Min(Prefix(left, right, i - 1, j) + 1, Prefix(left, right, i, j - 1) + 1),
                       Prefix(left, right, i - 1, j - 1) + cost);
      if Swapped(left, right, i, j) then Min(value, Prefix(left, right, i - 2, j - 2) + 1) else value
  }

  // `row` holds the distances of the first `i` characters of `left` to the first prefixes of `right`.
  ghost predicate IsRow(row: seq<nat>, left: string, right: string, i: nat)
    requires i <= |left|
  {
    |row| <= |right| + 1 && forall j | 0 <= j < |row| :: row[j] == Prefix(left, right, i, j)
  }

  /** The rows of the computation: `row` holds prefix `i` of `left` against each prefix of
      `right`, `previousRow` the prefix before it. */
  method Compute(left: string, right: string) returns (d: nat)
    ensures IsDistance(left, right, d)
  {
    var previousRow: seq<nat> := [];
    var row: seq<nat> := seq(|right| + 1, (j: nat) => j);
    var i := 0;
    while i < |left|
      invariant i <= |left|
      invariant |row| == |right| + 1 && IsRow(row, left, right, i)
      invariant 0 < i ==> |previousRow| == |right| + 1 && IsRow(previousRow, left, right, i - 1)
    {
      i := i + 1;
      var current := NextRow(left, right, i, previousRow, row);
      previousRow, row := row, current;
    }
    d := row[|row| - 1];
    PrefixIsDistance(left, right);
  }

  // One pass of the outer loop, for the letter numbered `i` from 1.
  method NextRow(left: string, right: string, i: nat, previousRow: seq<nat>, row: seq<nat>) returns (current: seq<nat>)
    requires 1 <= i <= |left|
    requires |row| == |right| + 1 && IsRow(row, left, right, i - 1)
    requires 1 < i ==> |previousRow| == |right| + 1 && IsRow(previousRow, left, right, i - 2)
    ensures |current| == |right| + 1 && IsRow(current, left, right, i)
  {
    current := [i];
    var j := 0;
    while j < |right|
      invariant j <= |right| && |current| == j + 1 && IsRow(current, left, right, i)
    {
      j := j + 1;
      var cost := if left[i - 1] != right[j - 1] then 1 else 0;
      var value := Min(Min(row[j] + 1, current[j - 1] + 1), row[j - 1] + cost);
      if 1 < i && 1 < j && left[i - 1] == right[j - 2] && left[i - 2] == right[j - 1] {
        value := Min(value, previousRow[j - 2] + 1);
      }
      assert value == Prefix(left, right, i, j);
      current := current + [value];
    }
  }

  // ------------------------------------------------- it is the least cost

  lemma SplitsLast(front: string, back: string, whole: string, n: nat)
    requires n <= |whole| && front + back == whole[..n]
    ensures |front| == n - |back| && front == whole[..|front|]
    ensures whole[n - |back|..n] == back
  {
    assert front == (front + back)[..|front|] && back == (front + back)[|front|..];
    assert whole[..n][..|front|] == whole[..|front|] && whole[..n][|front|..] == whole[|front|..n];
  }

  // Each way for a script to end is one of the recurrence's options.
  lemma CellBound(left: string, right: string, e: Edit, i: nat, j: nat)
    requires i <= |left| && j <= |right| && |e.Before()| <= i && |e.After()| <= j
    requires left[i - |e.Before()|..i] == e.Before() && right[j - |e.After()|..j] == e.After()
    ensures Prefix(left, right, i, j) <= Prefix(left, right, i - |e.Before()|, j - |e.After()|) + e.Cost()
  {
    hide Prefix;
    var x, y := e.Before(), e.After();
    if 0 < |x| { assert left[i - |x|..i][0] == left[i - |x|]; }
    if 0 < |y| { assert right[j - |y|..j][0] == right[j - |y|]; }
    if e.Swap? { assert left[i - 2..i][1] == left[i - 1] && right[j - 2..j][1] == right[j - 1]; }
    if 0 < i && 0 < j {
      CellIsOption(left, right, i, j);
    } else {
      EdgeCell(left, right, i, j);
      EdgeCell(left, right, i - |x|, j - |y|);
    }
  }

  lemma EdgeCell(left: string, right: string, i: nat, j: nat)
    requires i <= |left| && j <= |right| && (i == 0 || j == 0)
    ensures Prefix(left, right, i, j) == i + j
  {
  }

  lemma {:induction false} NoScriptIsCheaper(es: Script, left: string, right: string, i: nat, j: nat)
    requires i <= |left| && j <= |right|
    requires Rewrites(es, left[..i], right[..j])
    ensures Prefix(left, right, i, j) <= Total(es)
  {
    if es.Then? {
      hide Prefix, Edit.Before, Edit.After, Edit.Cost;
      SplitsLast(Source(es.front), es.last.Before(), left, i);
      SplitsLast(Target(es.front), es.last.After(), right, j);
      NoScriptIsCheaper(es.front, left, right, |Source(es.front)|, |Target(es.front)|);
      CellBound(left, right, es.last, i, j);
    }
  }

  // The edit that ends a cheapest script for the two prefixes.
  function LastEdit(left: string, right: string, i: nat, j: nat): Edit
    requires i <= |left| && j <= |right| && 0 < i + j
  {
    var p := Prefix(left, right, i, j);
    if i == 0 then Insert(right[j - 1])
    else if j == 0 then Delete(left[i - 1])
    else if p == Prefix(left, right, i - 1, j) + 1 then Delete(left[i - 1])
    else if p == Prefix(left, right, i, j - 1) + 1 then Insert(right[j - 1])
    else if left[i - 1] == right[j - 1] && p == Prefix(left, right, i - 1, j - 1) then Keep(left[i - 1])
    else if left[i - 1] != right[j - 1] && p == Prefix(left, right, i - 1, j - 1) + 1
        then Substitute(left[i - 1], right[j - 1])
    else if 1 < i then Swap(left[i - 2], left[i - 1]) else Delete(left[i - 1])
  }

  predicate EndsIn(w: string, back: string) {
    |back| <= |w| && w == w[..|w| - |back|] + back
  }

  // What a script that ends with `e` leaves to do before.
  ghost predicate Fits(left: string, right: string, i: nat, j: nat, e: Edit)
    requires i <= |left| && j <= |right|
  {
    && |e.Before()| <= i && |e.After()| <= j
    && EndsIn(left[..i], e.Before()) && EndsIn(right[..j], e.After())
    && Prefix(left, right, i, j) == Prefix(left, right, i - |e.Before()|, j - |e.After()|) + e.Cost()
  }

  lemma EdgeEditFits(left: string, right: string, i: nat, j: nat)
    requires i <= |left| && j <= |right| && 0 < i + j && (i == 0 || j == 0)
    ensures Fits(left, right, i, j, LastEdit(left, right, i, j))
  {
    LastLetters(left, i);
    LastLetters(right, j);
    hide Prefix, EndsIn;
    EdgeCell(left, right, i, j);
    EdgeCell(left, right, if i > 0 then i - 1 else 0, if j > 0 then j - 1 else 0);
  }

  lemma LastEditFits(left: string, right: string, i: nat, j: nat)
    requires i <= |left| && j <= |right| && 0 < i + j
    ensures Fits(left, right, i, j, LastEdit(left, right, i, j))
  {
    hide Prefix, EndsIn;
    if i == 0 || j == 0 {
      EdgeEditFits(left, right, i, j);
      hide Fits;
    } else {
      LastLetters(left, i);
      LastLetters(right, j);
      CellIsOption(left, right, i, j);
      hide Min;
      var e := LastEdit(left, right, i, j);
      match e {
        case Swap(a, b) => assert Swapped(left, right, i, j);
        case _ =>
      }
    }
  }

  lemma LastLetters(w: string, n: nat)
    requires n <= |w|
    ensures EndsIn(w[..n], [])
    ensures 0 < n ==> EndsIn(w[..n], [w[n - 1]])
    ensures 1 < n ==> EndsIn(w[..n], [w[n - 2], w[n - 1]])
  {
  }

  // A cell is the least of its options, and one of them.
  lemma CellIsOption(left: string, right: string, i: nat, j: nat)
    requires 1 <= i <= |left| && 1 <= j <= |right|
    ensures var p, cost := Prefix(left, right, i, j), if left[i - 1] != right[j - 1] then 1 else 0;
            && (Swapped(left, right, i, j) ==> p <= Prefix(left, right, i - 2, j - 2) + 1)
            && p <= Prefix(left, right, i - 1, j) + 1 && p <= Prefix(left, right, i, j - 1) + 1
            && p <= Prefix(left, right, i - 1, j - 1) + cost
            && (p == Prefix(left, right, i - 1, j) + 1 || p == Prefix(left, right, i, j - 1) + 1
                || p == Prefix(left, right, i - 1, j - 1) + cost
                || (Swapped(left, right, i, j) && p == Prefix(left, right, i - 2, j - 2) + 1))
  {
  }

  lemma {:induction false} SomeScriptAttains(left: string, right: string, i: nat, j: nat) returns (es: Script)
    requires i <= |left| && j <= |right|
    ensures Rewrites(es, left[..i], right[..j]) && Total(es) == Prefix(left, right, i, j)
    decreases i + j
  {
    hide LastEdit;
    if i == 0 && j == 0 {
      es := Empty;
    } else {
      var e := LastEdit(left, right, i, j);
      LastEditFits(left, right, i, j);
      assert left[..i][..i - |e.Before()|] == left[..i - |e.Before()|]
          && right[..j][..j - |e.After()|] == right[..j - |e.After()|];
      es := SomeScriptAttains(left, right, i - |e.Before()|, j - |e.After()|);
      es := Then(es, e);
    }
  }

  lemma WholeWord(w: string)
    ensures w[..|w|] == w
  {
  }

  lemma PrefixIsDistance(left: string, right: string)
    ensures IsDistance(left, right, Prefix(left, right, |left|, |right|))
  {
    hide Prefix;
    WholeWord(left);
    WholeWord(right);
    ghost var d := Prefix(left, right, |left|, |right|);
    var best := SomeScriptAttains(left, right, |left|, |right|);
    assert Rewrites(best, left, right) && Total(best) == d;
    forall es | Rewrites(es, left, right)
      ensures d <= Total(es)
    {
      NoScriptIsCheaper(es, left, right, |left|, |right|);
    }
  }

  // ------------------------------------------------------- what follows

  lemma DistanceIsUnique(left: string, right: string, d: nat, d': nat)
    requires IsDistance(left, right, d) && IsDistance(left, right, d')
    ensures d == d'
  {
  }

  function Undone(es: Script): Script {
    match es
    case Empty => Empty
    case Then(front, last) => Then(Undone(front), last.Undo())
  }

  lemma {:induction false} UndoneGoesBack(es: Script)
    ensures Source(Undone(es)) == Target(es) && Target(Undone(es)) == Source(es) && Total(Undone(es)) == Total(es)
  {
    if es.Then? { UndoneGoesBack(es.front); }
  }

  /** Swapping the words does not change the distance. */
  lemma DistanceIsSymmetric(left: string, right: string, d: nat)
    requires IsDistance(left, right, d)
    ensures IsDistance(right, left, d)
  {
    var best :| Rewrites(best, left, right) && Total(best) == d;
    UndoneGoesBack(best);
    forall es | Rewrites(es, right, left)
      ensures d <= Total(es)
    {
      UndoneGoesBack(es);
    }
  }

  lemma {:induction false} FreeScriptKeeps(es: Script)
    requires Total(es) == 0
    ensures Source(es) == Target(es)
  {
    if es.Then? { FreeScriptKeeps(es.front); }
  }

  lemma {:induction false} KeepAll(s: string) returns (es: Script)
    ensures Rewrites(es, s, s) && Total(es) == 0
  {
    if s == [] {
      es := Empty;
    } else {
      es := KeepAll(s[..|s| - 1]);
      es := Then(es, Keep(s[|s| - 1]));
    }
  }

  /** Only equal words are at distance zero. */
  lemma ZeroMeansEqual(left: string, right: string, d: nat)
    requires IsDistance(left, right, d)
    ensures d == 0 <==> left == right
  {
    var best :| Rewrites(best, left, right) && Total(best) == d;
    if d == 0 { FreeScriptKeeps(best); }
    if left == right { var es := KeepAll(left); }
  }

  lemma {:induction false} PrefixBounds(left: string, right: string, i: nat, j: nat)
    requires i <= |left| && j <= |right|
    ensures Prefix(left, right, i, j) <= Max(i, j)
    ensures i <= j + Prefix(left, right, i, j) && j <= i + Prefix(left, right, i, j)
  {
    if i > 0 && j > 0 {
      CellIsOption(left, right, i, j);
      hide Prefix;
      PrefixBounds(left, right, i - 1, j);
      PrefixBounds(left, right, i, j - 1);
      PrefixBounds(left, right, i - 1, j - 1);
      if i > 1 && j > 1 { PrefixBounds(left, right, i - 2, j - 2); }
    }
  }

  /** It is at most the longer length and at least the difference of the lengths. */
  lemma DistanceBounds(left: string, right: string, d: nat)
    requires IsDistance(left, right, d)
    ensures d <= Max(|left|, |right|)
    ensures |left| <= |right| + d && |right| <= |left| + d
  {
    PrefixIsDistance(left, right);
    PrefixBounds(left, right, |left|, |right|);
  }

  /** A typo is a word of four letters or more that few enough edits turn into the candidate. */
  method IsTypo(typed: string, candidate: string) returns (typo: bool)
    ensures typo <==> 4 <= |typed| && exists es :: Rewrites(es, typed, candidate) && 4 * Total(es) <= |typed|
  {
    if |typed| < 4 { return false; }
    var d := Compute(typed, candidate);
    typo := d <= |typed| / 4;
  }
}
