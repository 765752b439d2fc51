/** The triangular matrix as an object: a vector changed in place and a number of columns. */
module UpperMatrix {
  import opened Triangle

  /** Indices and products of indices are 64-bit unsigned in the source; with fewer columns than
      this no product there wraps around. */
  const COLUMN_LIMIT: nat := 0x1_0000_0000
  const SIZE_MAX: nat := 0xFFFF_FFFF_FFFF_FFFF

  /** The vector when the first loop of `swap_last` is about to treat y. */
  ghost predicate RowsDone<T>(before: seq<T>, now: seq<T>, n: nat, first: nat, y: nat)
    requires |before| == Size(n) && y <= first && first + 1 < n
  {
    var script := RowScript(first, n - 1, y);
    Below(script, n) && now == Apply(before, n, script)
  }

  /** The vector when the second loop of `swap_last` is about to treat x. */
  ghost predicate ColumnsDone<T>(before: seq<T>, now: seq<T>, n: nat, first: nat, x: nat)
    requires |before| == Size(n) && first < x <= n && first + 1 < n
  {
    var script := ColumnScript(first, n - 1, x - first - 1);
    Below(script, n) && now == Apply(before, n, script)
  }

  class Matrix<T> {
    /** The value-initialised element that `resize` appends. */
    const blank: T
    var columns: nat
    var elements: seq<T>

    ghost predicate Valid()
      reads this
    {
      columns < COLUMN_LIMIT && |elements| == Size(columns)
    }

    constructor (blank: T, n: nat)
      requires n < COLUMN_LIMIT
      ensures Valid() && this.blank == blank && columns == n
      ensures forall k :: 0 <= k < |elements| ==> elements[k] == blank
    {
      this.blank := blank;
      columns := n;
      elements := seq(Size(n), _ => blank);
    }

    method Increase() returns (index: nat)
      requires Valid() && columns + 1 < COLUMN_LIMIT
      modifies this`columns, this`elements
      ensures Valid() && columns == old(columns) + 1 && index == old(columns)
      ensures forall p: Pair :: p.0 < columns ==>
        Cell(elements, columns, p) == if p.0 == index then blank else Cell(old(elements), old(columns), p)
    {
      columns := columns + 1;
      elements := elements + seq(Size(columns) - |elements|, _ => blank);
      index := columns - 1;
      forall p: Pair | p.0 < columns
        ensures Cell(elements, columns, p) == if p.0 == index then blank else Cell(old(elements), old(columns), p)
      {
        if p.0 < index { PositionInRange(index, p.0, p.1); }
      }
    }

    /** Read access through `at`. */
    method At(x: nat, y: nat) returns (item: T)
      requires Valid() && x != y && x < columns && y < columns
      ensures item == Cell(elements, columns, Ordered(x, y))
    {
      PositionInRange(columns, x, y);
      item := elements[Position(x, y)];
    }

    /** On an empty vector the call returns before the indices are looked at. */
    method Emplace(x: nat, y: nat, item: T)
      requires Valid() && (columns > 1 ==> x != y && x < columns && y < columns)
      modifies this`elements
      ensures Valid()
      ensures columns <= 1 ==> elements == old(elements)
      ensures columns > 1 ==> forall p: Pair :: p.0 < columns ==>
        Cell(elements, columns, p) == if p == Ordered(x, y) then item else Cell(old(elements), columns, p)
    {
      assert Size(1) == 0 && (columns > 1 ==> Position(0, 1) < Size(columns)) by {
        if columns > 1 { PositionInRange(columns, 0, 1); }
      }
      if elements == [] {
        return;
      }
      PositionInRange(columns, x, y);
      elements := elements[Position(x, y) := item];
      forall p: Pair | p.0 < columns
        ensures Cell(elements, columns, p) == if p == Ordered(x, y) then item else Cell(old(elements), columns, p)
      {
        PositionInRange(columns, p.0, p.1);
        PositionInjective(p.0, p.1, x, y);
      }
    }

    method Reset()
      modifies this`columns, this`elements
      ensures Valid() && columns == 0 && elements == []
    {
      columns := 0;
      elements := [];
    }

    /** The three assignments through `temp` in the loops of `swap_last`, as the next exchange of
        a script. */
    method Exchange(p: Pair, q: Pair, ghost n: nat, ghost before: seq<T>, ghost script: Script)
      requires |before| == Size(n) && Below(Then(script, p, q), n)
      requires elements == Apply(before, n, script)
      modifies this`elements
      ensures elements == Apply(before, n, Then(script, p, q))
    {
      PlaceInRange(n, p);
      PlaceInRange(n, q);
      var temp := elements[Place(p)];
      elements := elements[Place(p) := elements[Place(q)]];
      elements := elements[Place(q) := temp];
    }

    /** The first loop of `swap_last` on a matrix with n columns. */
    method SwapRows(n: nat, first: nat, ghost before: seq<T>)
      requires |before| == Size(n) && first + 1 < n && elements == before
      modifies this`elements
      ensures RowsDone(before, elements, n, first, first)
    {
      var y := 0;
      while y < first
        invariant y <= first && RowsDone(before, elements, n, first, y)
      {
        Exchange((first, y), (n - 1, y), n, before, RowScript(first, n - 1, y));
        y := y + 1;
      }
    }

    /** The second loop of `swap_last`, run on what the first one leaves of `before`. */
    method SwapColumns(n: nat, first: nat, ghost before: seq<T>)
      requires |before| == Size(n) && first + 1 < n && RowsDone(before, elements, n, first, first)
      modifies this`elements
      ensures ColumnsDone(before, elements, n, first, n)
    {
      var x := first + 1;
      while x < n
        invariant first < x <= n && ColumnsDone(before, elements, n, first, x)
      {
        ColumnStep(first, n - 1, x);
        Exchange((x, first), (n - 1, x - 1), n, before, ColumnScript(first, n - 1, x - first - 1));
        x := x + 1;
      }
    }

    /** `columns - 1` is unsigned: without columns it is the largest index there is, so the loops are
        entered, and the first access throws if there is any. */
    method SwapLast(first: nat) returns (threw: bool)
      requires Valid() && first <= SIZE_MAX
      modifies this`elements
      ensures Valid()
      ensures threw <==> columns == 0 && 0 < first < SIZE_MAX
      ensures first + 1 >= columns ==> elements == old(elements)
      ensures first + 1 < columns ==> elements == Swapped(old(elements), columns, first)
    {
      var last := if columns == 0 then SIZE_MAX else columns - 1;
      if first >= last {
        return false;
      }
      if columns == 0 {
        return first > 0;
      }
      ghost var before := elements;
      SwapRows(columns, first, before);
      SwapColumns(columns, first, before);
      return false;
    }

    /** The vector is cut down to the triangular number of the new column count. */
    method RemoveIndex(index: nat)
      requires Valid()
      modifies this`columns, this`elements
      ensures Valid()
      ensures index >= old(columns) ==> columns == old(columns) && elements == old(elements)
      ensures index < old(columns) ==>
        columns == old(columns) - 1 && elements == Removed(old(elements), old(columns), index)
    {
      if index >= columns {
        return;
      }
      if index == columns - 1 {
        columns := columns - 1;
        elements := elements[..Size(columns)];
        return;
      }
      var threw := SwapLast(index);
      columns := columns - 1;
      elements := elements[..Size(columns)];
      if index == columns - 1 {
        return;
      }
      threw := SwapLast(index);
    }

    /** The callback is a function from the element it is given to the one it leaves there;
        `visited` records the pairs for which it is called. */
    method Iterate(index: nat, callback: T -> T) returns (visited: seq<Pair>)
      requires Valid() && (columns > 0 ==> index < columns)
      modifies this`elements
      ensures Valid() && visited == Visits(index, columns)
      ensures VisitedBelow(old(elements), elements, columns, index, callback, columns)
    {
      ghost var before := elements;
      visited := IterateLoop(columns, index, callback);
      AfterVisitsCells(before, columns, index, callback);
    }

    /** The loop of `iterate` on a matrix with n columns. */
    method IterateLoop(n: nat, index: nat, callback: T -> T) returns (visited: seq<Pair>)
      requires |elements| == Size(n) && (n > 0 ==> index < n)
      modifies this`elements
      ensures visited == Visits(index, n) && elements == AfterVisits(old(elements), n, index, callback, n)
    {
      visited := [];
      var y := 0;
      while y < n
        invariant y <= n && visited == Visits(index, y)
        invariant elements == AfterVisits(old(elements), n, index, callback, y)
      {
        if y != index {
          var pair := Ordered(index, y);
          PlaceInRange(n, pair);
          elements := elements[Place(pair) := callback(elements[Place(pair)])];
          visited := visited + [pair];
        }
        y := y + 1;
      }
    }
  }
}
