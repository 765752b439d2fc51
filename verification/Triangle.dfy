/** The layout of a triangular matrix that stores one element for every unordered pair of indices,
    packed row by row into a vector, and the permutations of it that `swap_last` performs. */
module Triangle {

  /** The number of elements of a matrix with n columns: one row for every index, and the row of
      x holds one element for every smaller index. */
  function Size(n: nat): nat {
    if n == 0 then 0 else Size(n - 1) + (n - 1)
  }

  /** The place of the pair {x, y}: after the rows of all smaller indices. */
  function Position(x: nat, y: nat): nat {
    if x < y then Size(y) + x else Size(x) + y
  }

  lemma {:induction false} SizeFormula(n: nat)
    ensures Size(n) == (n * n - n) / 2
  {
    if n > 0 {
      SizeFormula(n - 1);
      assert n * n - n == ((n - 1) * (n - 1) - (n - 1)) + 2 * (n - 1);
    }
  }

  /** The closed formula by which the source computes the place. */
  lemma PositionFormula(x: nat, y: nat)
    requires x != y
    ensures var high := if x < y then y else x; var low := if x < y then x else y;
      Position(x, y) == (high * high - high) / 2 + low
  {
    SizeFormula(if x < y then y else x);
  }

  lemma {:induction false} SizeIsMonotone(m: nat, n: nat)
    requires m <= n
    ensures Size(m) <= Size(n)
    decreases n
  {
    if m < n {
      SizeIsMonotone(m, n - 1);
    }
  }

  lemma PositionInRange(n: nat, x: nat, y: nat)
    requires x < n && y < n && x != y
    ensures Position(x, y) < Size(n)
    ensures Position(x, y) == Position(y, x)
  {
    var high := if x < y then y else x;
    SizeIsMonotone(high + 1, n);
  }

  lemma PositionOrdered(x: nat, y: nat, a: nat, b: nat)
    requires y < x && b < a && x < a
    ensures Position(x, y) < Position(a, b)
  {
    SizeIsMonotone(x + 1, a);
  }

  /** Different pairs have different places. */
  lemma PositionInjective(x: nat, y: nat, a: nat, b: nat)
    requires x != y && a != b
    ensures Position(x, y) == Position(a, b) <==> (x == a && y == b) || (x == b && y == a)
  {
    var (h, l) := if x < y then (y, x) else (x, y);
    var (k, m) := if a < b then (b, a) else (a, b);
    if h < k { PositionOrdered(h, l, k, m); }
    if k < h { PositionOrdered(k, m, h, l); }
  }

  /** The pair stored at place k, larger index first. */
  function PairAt(n: nat, k: nat): (p: (nat, nat))
    requires k < Size(n)
    ensures p.1 < p.0 < n && Position(p.0, p.1) == k
  {
    if k < Size(n - 1) then PairAt(n - 1, k) else (n - 1, k - Size(n - 1))
  }

  /** `position` is a bijection from the unordered pairs of distinct indices below n onto the
      places below n(n-1)/2, and `PairAt` is its inverse. */
  lemma PositionIsBijective(n: nat)
    ensures forall x, y :: 0 <= x < n && 0 <= y < n && x != y ==>
      Position(x, y) == Position(y, x) < Size(n)
      && PairAt(n, Position(x, y)) == (if x < y then (y, x) else (x, y))
    ensures forall k :: 0 <= k < Size(n) ==>
      PairAt(n, k).1 < PairAt(n, k).0 < n && Position(PairAt(n, k).0, PairAt(n, k).1) == k
  {
    forall x, y | 0 <= x < n && 0 <= y < n && x != y
      ensures Position(x, y) == Position(y, x) < Size(n)
      ensures PairAt(n, Position(x, y)) == (if x < y then (y, x) else (x, y))
    {
      PositionInRange(n, x, y);
      var p := PairAt(n, Position(x, y));
      PositionInjective(x, y, p.0, p.1);
    }
  }

  /** A pair of distinct indices, the larger first. */
  type Pair = p: (nat, nat) | p.1 < p.0 witness (1, 0)

  function Ordered(x: nat, y: nat): Pair
    requires x != y
  {
    if x < y then (y, x) else (x, y)
  }

  predicate Has(p: Pair, i: nat) {
    p.0 == i || p.1 == i
  }

  /** `position` of an ordered pair. */
  function Place(p: Pair): nat {
    Position(p.0, p.1)
  }

  lemma PlaceInRange(n: nat, p: Pair)
    requires p.0 < n
    ensures Place(p) < Size(n)
  {
    PositionInRange(n, p.0, p.1);
  }

  lemma PlaceInjective(p: Pair, q: Pair)
    ensures Place(p) == Place(q) <==> p == q
  {
    PositionInjective(p.0, p.1, q.0, q.1);
  }

  /** The element stored for a pair. */
  function Cell<T>(elements: seq<T>, n: nat, p: Pair): T
    requires |elements| == Size(n) && p.0 < n
  {
    PlaceInRange(n, p);
    elements[Place(p)]
  }

  // ---------------------------------------------------------------- exchanging elements

  function Exchanged<T>(elements: seq<T>, i: nat, j: nat): (r: seq<T>)
    requires i < |elements| && j < |elements|
    ensures |r| == |elements|
  {
    elements[i := elements[j]][j := elements[i]]
  }

  function ExchangeSource(p: Pair, q: Pair, r: Pair): Pair {
    if r == p then q else if r == q then p else r
  }

  lemma ExchangeCell<T>(elements: seq<T>, n: nat, p: Pair, q: Pair, r: Pair)
    requires |elements| == Size(n) && p.0 < n && q.0 < n && r.0 < n
    requires Place(p) < |elements| && Place(q) < |elements|
    ensures Cell(Exchanged(elements, Place(p), Place(q)), n, r) == Cell(elements, n, ExchangeSource(p, q, r))
  {
    PlaceInRange(n, r);
    PlaceInjective(p, r);
    PlaceInjective(q, r);
  }

  /** A list of exchanges; the last one is done last. */
  datatype Script = Nothing | Then(before: Script, p: Pair, q: Pair)

  predicate Below(script: Script, n: nat) {
    script.Then? ==> script.p.0 < n && script.q.0 < n && Below(script.before, n)
  }

  function Apply<T>(elements: seq<T>, n: nat, script: Script): (r: seq<T>)
    requires |elements| == Size(n) && Below(script, n)
    ensures |r| == |elements|
  {
    match script
    case Nothing => elements
    case Then(before, p, q) =>
      PlaceInRange(n, p);
      PlaceInRange(n, q);
      Exchanged(Apply(elements, n, before), Place(p), Place(q))
  }

  lemma ExchangeMultiset<T>(elements: seq<T>, i: nat, j: nat)
    requires i < |elements| && j < |elements|
    ensures multiset(Exchanged(elements, i, j)) == multiset(elements)
  {
  }

  lemma {:induction false} ApplyMultiset<T>(elements: seq<T>, n: nat, script: Script)
    requires |elements| == Size(n) && Below(script, n)
    ensures multiset(Apply(elements, n, script)) == multiset(elements)
  {
    match script
    case Nothing =>
    case Then(before, p, q) =>
      PlaceInRange(n, p);
      PlaceInRange(n, q);
      ApplyMultiset(elements, n, before);
      ExchangeMultiset(Apply(elements, n, before), Place(p), Place(q));
  }

  /** The pair whose old element a script moves to r. */
  function Origin(script: Script, r: Pair): Pair {
    match script
    case Nothing => r
    case Then(before, p, q) => Origin(before, ExchangeSource(p, q, r))
  }

  lemma {:induction false} ApplyCell<T>(elements: seq<T>, n: nat, script: Script, r: Pair)
    requires |elements| == Size(n) && Below(script, n) && r.0 < n
    ensures Origin(script, r).0 < n
    ensures Cell(Apply(elements, n, script), n, r) == Cell(elements, n, Origin(script, r))
  {
    match script
    case Nothing =>
    case Then(before, p, q) =>
      PlaceInRange(n, p);
      PlaceInRange(n, q);
      ExchangeCell(Apply(elements, n, before), n, p, q, r);
      ApplyCell(elements, n, before, ExchangeSource(p, q, r));
  }

  // ---------------------------------------------------------------- what swap_last does

  /** Which old pair ends up at `p` when `swap_last(first)` runs on a matrix whose last index is
      `last`. */
  function SwapSource(first: nat, last: nat, p: Pair): (q: Pair)
    requires first < last && p.0 <= last
    ensures q.0 <= last
  {
    var (x, y) := p;
    if y < first then
      if x == first then (last, y) else if x == last then (first, y) else p
    else if y == first && x < last then (last, x - 1)
    else if first + 1 == last then p
    else if x == last && y == first then (last, last - 1)
    else if x == last && y == last - 1 then (first + 1, first)
    else if x == last then (y + 1, first)
    else p
  }

  /** The exchanges of the first loop of `swap_last(first)` before it treats `k`. */
  function RowScript(first: nat, last: nat, k: nat): (script: Script)
    requires k <= first < last
  {
    if k == 0 then Nothing
    else Then(RowScript(first, last, k - 1), (first, k - 1), (last, k - 1))
  }

  /** The exchanges of both loops of `swap_last(first)` after m iterations of the second one. */
  function ColumnScript(first: nat, last: nat, m: nat): (script: Script)
    requires first < last && first + m <= last
  {
    if m == 0 then RowScript(first, last, first)
    else Then(ColumnScript(first, last, m - 1), (first + m, first), (last, first + m - 1))
  }

  function RowSource(first: nat, last: nat, k: nat, p: Pair): (q: Pair)
    requires k <= first < last && p.0 <= last
    ensures q.0 <= last
  {
    if p.1 < k && p.0 == first then (last, p.1)
    else if p.1 < k && p.0 == last then (first, p.1)
    else p
  }

  function ColumnSource(first: nat, last: nat, k: nat, p: Pair): (q: Pair)
    requires first < k <= last + 1 && first < last && p.0 <= last
    ensures q.0 <= last
  {
    if p.1 < first then RowSource(first, last, first, p)
    else if k == last + 1 then SwapSource(first, last, p)
    else if p.1 == first && p.0 < k then (last, p.0 - 1)
    else if p.0 == last && p.1 + 1 < k then (p.1 + 1, first)
    else p
  }

  lemma {:induction false} RowScriptOrigin(first: nat, last: nat, k: nat, p: Pair)
    requires k <= first < last && p.0 <= last
    ensures Origin(RowScript(first, last, k), p) == RowSource(first, last, k, p)
    decreases k
  {
    if k > 0 {
      RowScriptOrigin(first, last, k - 1, ExchangeSource((first, k - 1), (last, k - 1), p));
    }
  }

  lemma {:induction false} ColumnScriptOrigin(first: nat, last: nat, m: nat, p: Pair)
    requires first < last && first + m <= last && p.0 <= last
    ensures Origin(ColumnScript(first, last, m), p) == ColumnSource(first, last, first + 1 + m, p)
    decreases m
  {
    if m == 0 {
      RowScriptOrigin(first, last, first, p);
    } else {
      ColumnScriptOrigin(first, last, m - 1, ExchangeSource((first + m, first), (last, first + m - 1), p));
    }
  }

  lemma {:induction false} RowScriptBelow(first: nat, last: nat, k: nat)
    requires k <= first < last
    ensures Below(RowScript(first, last, k), last + 1)
  {
    if k > 0 { RowScriptBelow(first, last, k - 1); }
  }

  lemma {:induction false} ColumnScriptBelow(first: nat, last: nat, m: nat)
    requires first < last && first + m <= last
    ensures Below(ColumnScript(first, last, m), last + 1)
  {
    if m == 0 { RowScriptBelow(first, last, first); } else { ColumnScriptBelow(first, last, m - 1); }
  }

  lemma ColumnStep(first: nat, last: nat, x: nat)
    requires first < x <= last
    ensures ColumnScript(first, last, x - first)
         == Then(ColumnScript(first, last, x - first - 1), (x, first), (last, x - 1))
  {
    assert first + (x - first) == x;
  }

  /** The vector after `swap_last(first)`. */
  function Swapped<T>(elements: seq<T>, n: nat, first: nat): (r: seq<T>)
    requires |elements| == Size(n) && first + 1 < n
    ensures |r| == |elements|
  {
    ColumnScriptBelow(first, n - 1, n - 1 - first);
    Apply(elements, n, ColumnScript(first, n - 1, n - 1 - first))
  }

  lemma SwappedMultiset<T>(elements: seq<T>, n: nat, first: nat)
    requires |elements| == Size(n) && first + 1 < n
    ensures multiset(Swapped(elements, n, first)) == multiset(elements)
  {
    ColumnScriptBelow(first, n - 1, n - 1 - first);
    ApplyMultiset(elements, n, ColumnScript(first, n - 1, n - 1 - first));
  }

  /** What `swap_last` does to the stored pairs, as one permutation. */
  lemma SwappedCell<T>(elements: seq<T>, n: nat, first: nat, p: Pair)
    requires |elements| == Size(n) && first + 1 < n && p.0 < n
    ensures Cell(Swapped(elements, n, first), n, p) == Cell(elements, n, SwapSource(first, n - 1, p))
  {
    ColumnScriptBelow(first, n - 1, n - 1 - first);
    ApplyCell(elements, n, ColumnScript(first, n - 1, n - 1 - first), p);
    ColumnScriptOrigin(first, n - 1, n - 1 - first, p);
  }

  /** A pair that avoids both indices stays where it is. */
  lemma SwapKeepsOthers(first: nat, last: nat, p: Pair)
    requires first < last && p.0 <= last && !Has(p, first) && !Has(p, last)
    ensures SwapSource(first, last, p) == p
  {
  }

  /** The pair p with the indices `first` and `last` exchanged. */
  function IndexExchange(first: nat, last: nat, p: Pair): Pair
    requires first < last
  {
    var x := if p.0 == first then last else if p.0 == last then first else p.0;
    var y := if p.1 == first then last else if p.1 == last then first else p.1;
    Ordered(x, y)
  }

  /** `swap_last(first)` is documented to exchange `first` with the last index. It does so exactly
      when `first` is the last index but one; further down, the second loop turns the cells
      (last, first), (last, last-1) and (first+1, first) in a circle. */
  lemma SwapIsIndexExchangeIff(first: nat, last: nat)
    requires first < last
    ensures (forall p: Pair :: p.0 <= last ==> SwapSource(first, last, p) == IndexExchange(first, last, p))
      <==> first + 1 == last
  {
    if first + 1 < last {
      var p: Pair := (last, first);
      assert SwapSource(first, last, p) != IndexExchange(first, last, p);
    }
  }

  // ---------------------------------------------------------------- remove_index

  lemma ShortenedCell<T>(elements: seq<T>, n: nat, p: Pair)
    requires n > 0 && |elements| == Size(n) && p.0 < n - 1
    ensures Cell(elements[..Size(n - 1)], n - 1, p) == Cell(elements, n, p)
  {
    PlaceInRange(n - 1, p);
  }

  /** The vector after `remove_index(index)`: drop the row of the last index, after swapping the
      removed index there, and swap again. */
  function Removed<T>(elements: seq<T>, n: nat, index: nat): (r: seq<T>)
    requires |elements| == Size(n) && index < n
    ensures |r| == Size(n - 1)
  {
    if index == n - 1 then elements[..Size(n - 1)]
    else
      var shortened := Swapped(elements, n, index)[..Size(n - 1)];
      if index == n - 2 then shortened else Swapped(shortened, n - 1, index)
  }

  /** Which old pair ends up at p when `remove_index(index)` runs on n columns. */
  function RemoveSource(n: nat, index: nat, p: Pair): (q: Pair)
    requires index < n && p.0 + 1 < n
    ensures q.0 < n
  {
    var (x, y) := p;
    if index == n - 1 then p
    else if index == n - 2 then
      if x == index then (n - 1, y) else p
    else if x == index then (n - 2, y)
    else if p == (index + 1, index) then (n - 1, n - 3)
    else if x == n - 2 && y < index then (n - 1, y)
    else if x == n - 2 && y == index then (n - 2, n - 3)
    else if x == n - 2 && y == n - 3 then (n - 1, index)
    else if x == n - 2 then (n - 1, y)
    else if y == index then (n - 2, x - 1)
    else p
  }

  lemma RemoveSourceIsTwoSwaps(n: nat, index: nat, p: Pair)
    requires index + 1 < n && p.0 + 1 < n
    ensures var q := if index == n - 2 then p else SwapSource(index, n - 2, p);
      SwapSource(index, n - 1, q) == RemoveSource(n, index, p)
  {
  }

  /** The second swap of `remove_index`, before the row of the last index is cut off. */
  lemma SwappedBackCell<T>(elements: seq<T>, n: nat, index: nat, p: Pair)
    requires |elements| == Size(n) && index + 2 < n && p.0 + 1 < n
    ensures var shortened := Swapped(elements, n, index)[..Size(n - 1)];
            Cell(Swapped(shortened, n - 1, index), n - 1, p) ==
            Cell(elements, n, SwapSource(index, n - 1, SwapSource(index, n - 2, p)))
  {
    var swapped, q := Swapped(elements, n, index), SwapSource(index, n - 2, p);
    SwappedCell(swapped[..Size(n - 1)], n - 1, index, p);
    ShortenedCell(swapped, n, q);
    SwappedCell(elements, n, index, q);
  }

  lemma RemovedCell<T>(elements: seq<T>, n: nat, index: nat, p: Pair)
    requires |elements| == Size(n) && index < n && p.0 + 1 < n
    ensures Cell(Removed(elements, n, index), n - 1, p) == Cell(elements, n, RemoveSource(n, index, p))
  {
    if index == n - 1 {
      ShortenedCell(elements, n, p);
    } else {
      RemoveSourceIsTwoSwaps(n, index, p);
      if index == n - 2 {
        ShortenedCell(Swapped(elements, n, index), n, p);
        SwappedCell(elements, n, index, p);
      } else {
        SwappedBackCell(elements, n, index, p);
      }
    }
  }

  /** Removing the last index keeps every pair of the others; removing the last but one renames
      the last index to it; in general every pair without the removed and the last two indices
      keeps its element. */
  lemma RemoveKeeps(n: nat, index: nat, p: Pair)
    requires index < n && p.0 + 1 < n
    ensures index == n - 1 ==> RemoveSource(n, index, p) == p
    ensures index == n - 2 ==> RemoveSource(n, index, p) == if p.0 == index then (n - 1, p.1) else p
    ensures !Has(p, index) && p.0 < n - 2 ==> RemoveSource(n, index, p) == p
  {
  }

  /** `remove_index` is meant to delete the elements of the removed index. It deletes exactly them
      when the index is one of the last two, and never otherwise: then the element of the pair of
      the removed and the last index stays, and the element of the last two indices is lost. */
  lemma RemoveDeletesTheIndexIff(n: nat, index: nat)
    requires index < n
    ensures (forall p: Pair :: p.0 + 1 < n ==> !Has(RemoveSource(n, index, p), index)) <==> index + 2 >= n
    ensures (forall q: Pair :: q.0 < n && !Has(q, index) ==>
              exists p: Pair :: p.0 + 1 < n && RemoveSource(n, index, p) == q) <==> index + 2 >= n
  {
    if index + 2 < n {
      var wrong: Pair := (n - 2, n - 3);
      assert RemoveSource(n, index, wrong) == (n - 1, index);
      var lost: Pair := (n - 1, n - 2);
      assert !Has(lost, index);
      assert forall p: Pair :: p.0 + 1 < n ==> RemoveSource(n, index, p) != lost;
    } else {
      forall q: Pair | q.0 < n && !Has(q, index)
        ensures exists p: Pair :: p.0 + 1 < n && RemoveSource(n, index, p) == q
      {
        var p: Pair := if q.0 == n - 1 then (index, q.1) else q;
        assert RemoveSource(n, index, p) == q;
      }
    }
  }

  /** The smallest case: of three columns, removing index 0 should leave the element of the pair
      (2, 1), and leaves that of (2, 0). */
  lemma RemoveKeepsTheWrongElement<T>(elements: seq<T>)
    requires |elements| == Size(3)
    ensures Cell(Removed(elements, 3, 0), 2, (1, 0)) == Cell(elements, 3, (2, 0))
  {
    RemovedCell(elements, 3, 0, (1, 0));
  }

  // ---------------------------------------------------------------- iterate

  lemma UpdatedCell<T>(elements: seq<T>, n: nat, p: Pair, item: T, r: Pair)
    requires |elements| == Size(n) && p.0 < n && r.0 < n && Place(p) < |elements|
    ensures Cell(elements[Place(p) := item], n, r) == if r == p then item else Cell(elements, n, r)
  {
    PlaceInRange(n, r);
    PlaceInjective(p, r);
  }

  /** What the pair p holds before `iterate(index)` treats y. */
  ghost predicate Visited<T>(before: seq<T>, now: seq<T>, n: nat, index: nat, callback: T -> T, y: nat, p: Pair)
    requires |before| == |now| == Size(n) && p.0 < n
  {
    Cell(now, n, p) ==
      if Has(p, index) && Other(p, index) < y then callback(Cell(before, n, p)) else Cell(before, n, p)
  }

  lemma VisitOne<T>(before: seq<T>, now: seq<T>, n: nat, index: nat, callback: T -> T, y: nat, p: Pair)
    requires |before| == |now| == Size(n) && p.0 < n && y < n && index < n && y != index
    requires Visited(before, now, n, index, callback, y, p)
    ensures Place(Ordered(index, y)) < |now|
    ensures var here := Place(Ordered(index, y));
      Visited(before, now[here := callback(now[here])], n, index, callback, y + 1, p)
  {
    var pair := Ordered(index, y);
    PlaceInRange(n, pair);
    UpdatedCell(now, n, pair, callback(now[Place(pair)]), p);
  }

  function Other(p: Pair, index: nat): nat {
    if p.0 == index then p.1 else p.0
  }

  /** Exactly the elements of the pairs of the index with a smaller one than y were visited. */
  ghost predicate VisitedBelow<T>(before: seq<T>, now: seq<T>, n: nat, index: nat, callback: T -> T, y: nat) {
    && |before| == |now| == Size(n)
    && forall p: Pair :: p.0 < n ==> Visited(before, now, n, index, callback, y, p)
  }

  /** The vector before `iterate(index)` treats y. */
  function AfterVisits<T>(before: seq<T>, n: nat, index: nat, callback: T -> T, y: nat): (now: seq<T>)
    requires |before| == Size(n) && y <= n && (n > 0 ==> index < n)
    ensures |now| == |before|
  {
    if y == 0 then before
    else if y - 1 == index then AfterVisits(before, n, index, callback, y - 1)
    else
      PlaceInRange(n, Ordered(index, y - 1));
      var now := AfterVisits(before, n, index, callback, y - 1);
      var here := Place(Ordered(index, y - 1));
      now[here := callback(now[here])]
  }

  /** The callback is applied once to each element of a pair with the index, and to no other. */
  lemma {:induction false} AfterVisitsCell<T>(before: seq<T>, n: nat, index: nat, callback: T -> T, y: nat, p: Pair)
    requires |before| == Size(n) && y <= n && index < n && p.0 < n
    ensures Visited(before, AfterVisits(before, n, index, callback, y), n, index, callback, y, p)
  {
    if y > 0 {
      AfterVisitsCell(before, n, index, callback, y - 1, p);
      if y - 1 != index {
        VisitOne(before, AfterVisits(before, n, index, callback, y - 1), n, index, callback, y - 1, p);
      }
    }
  }

  lemma AfterVisitsCells<T>(before: seq<T>, n: nat, index: nat, callback: T -> T)
    requires |before| == Size(n) && (n > 0 ==> index < n)
    ensures VisitedBelow(before, AfterVisits(before, n, index, callback, n), n, index, callback, n)
  {
    forall p: Pair | p.0 < n
      ensures Visited(before, AfterVisits(before, n, index, callback, n), n, index, callback, n, p)
    {
      AfterVisitsCell(before, n, index, callback, n, p);
    }
  }

  /** The pairs `iterate(index)` visits before it treats y. */
  function Visits(index: nat, y: nat): (pairs: seq<Pair>)
    ensures forall i :: 0 <= i < |pairs| ==> Has(pairs[i], index) && Other(pairs[i], index) < y
  {
    if y == 0 then []
    else if y - 1 == index then Visits(index, y - 1)
    else Visits(index, y - 1) + [Ordered(index, y - 1)]
  }

  /** `iterate(index)` visits the n - 1 pairs that contain the index, each of them once. */
  lemma {:induction false} VisitsAreThePairs(index: nat, n: nat)
    ensures |Visits(index, n)| == if index < n then n - 1 else n
    ensures forall i, j :: 0 <= i < j < |Visits(index, n)| ==> Visits(index, n)[i] != Visits(index, n)[j]
    ensures forall p: Pair :: Has(p, index) && Other(p, index) < n ==> p in Visits(index, n)
  {
    if n > 0 {
      VisitsAreThePairs(index, n - 1);
      forall p: Pair | Has(p, index) && Other(p, index) < n ensures p in Visits(index, n) {
        if Other(p, index) < n - 1 { assert p in Visits(index, n - 1); }
      }
    }
  }
}
