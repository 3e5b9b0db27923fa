/**
 * One row of a linear equation system, as a Gauss-Seidel solver sweeps it:
 * a mutable body, the fixed row `index` of the original matrix, a cached
 * pivot (the body element at `index`) and a right-hand side. Identity and
 * ordering depend on `index` alone.
 */
module Equations {

  /** Which kind of array holds the body. Both read as zero where nothing was written. */
  datatype Layout = Dense | Sparse

  class Equation {
    /** The row index of the original body matrix. */
    const index: int
    const body: array<int>
    const layout: Layout
    var pivot: int
    var rhs: int

    /** The cached pivot agrees with the body element at `index`. */
    ghost predicate PivotCurrent()
      reads this, body
    {
      0 <= index < body.Length && pivot == body[index]
    }

    /**
     * Wraps `body` (shared, not copied); `pivot` becomes the index. The cached
     * pivot starts at zero whatever the body holds.
     */
    constructor (body: array<int>, layout: Layout, pivot: int, rhs: int)
      ensures this.body == body && this.layout == layout
      ensures index == pivot && this.rhs == rhs && this.pivot == 0
    {
      this.body := body;
      this.layout := layout;
      this.rhs := rhs;
      index := pivot;
      this.pivot := 0;
    }

    /** set: writes one body element; the cached pivot follows when it is the one at `index`. */
    method Set(ind: int, value: int)
      requires 0 <= ind < body.Length
      modifies this`pivot, body
      ensures body[..] == old(body[..])[ind := value]
      ensures pivot == if ind == index then value else old(pivot)
      ensures ind == index || old(PivotCurrent()) ==> PivotCurrent()
    {
      body[ind] := value;
      if ind == index {
        pivot := value;
      }
    }

    /** add: adds to one body element; the cached pivot is re-read when it is the one at `index`. */
    method Add(ind: int, addend: int)
      requires 0 <= ind < body.Length
      modifies this`pivot, body
      ensures body[..] == old(body[..])[ind := old(body[ind]) + addend]
      ensures pivot == if ind == index then body[ind] else old(pivot)
      ensures ind == index || old(PivotCurrent()) ==> PivotCurrent()
    {
      body[ind] := body[ind] + addend;
      if ind == index {
        pivot := body[ind];
      }
    }

    /** modifyOne: applies the modifier to one body element; the cached pivot is re-read at `index`. */
    method ModifyOne(ind: int, modifier: int -> int)
      requires 0 <= ind < body.Length
      modifies this`pivot, body
      ensures body[..] == old(body[..])[ind := modifier(old(body[ind]))]
      ensures pivot == if ind == index then body[ind] else old(pivot)
      ensures ind == index || old(PivotCurrent()) ==> PivotCurrent()
    {
      body[ind] := modifier(body[ind]);
      if ind == index {
        pivot := body[ind];
      }
    }

    /** setRHS: replaces the right-hand side and nothing else. */
    method SetRHS(value: int)
      modifies this`rhs
      ensures rhs == value && pivot == old(pivot)
    {
      rhs := value;
    }

    method GetRHS() returns (value: int)
      ensures value == rhs
    {
      value := rhs;
    }

    method GetPivot() returns (value: int)
      ensures value == pivot
    {
      value := pivot;
    }

    /** compareTo: the order of the indices, as -1, 0 or 1. */
    function CompareTo(other: Equation): (sign: int)
      ensures sign == -1 || sign == 0 || sign == 1
      ensures sign < 0 <==> index < other.index
      ensures sign > 0 <==> index > other.index
    {
      if index < other.index then -1 else if index == other.index then 0 else 1
    }

    /** equals: an equation equals any equation with the same index (and nothing else). */
    predicate Equals(other: Equation?) {
      other != null && index == other.index
    }

    /** hashCode (without 32-bit wrap-around). */
    function HashCode(): int {
      31 + index
    }
  }

  /** compareTo is consistent with equals. */
  lemma CompareMatchesEquals(a: Equation, b: Equation)
    ensures a.CompareTo(b) == 0 <==> a.Equals(b)
  {
  }

  /** compareTo is a total order: antisymmetric and transitive. */
  lemma CompareIsOrder(a: Equation, b: Equation, c: Equation)
    ensures a.CompareTo(b) == -b.CompareTo(a)
    ensures a.CompareTo(b) <= 0 && b.CompareTo(c) <= 0 ==> a.CompareTo(c) <= 0
  {
  }

  /** Equal equations have the same hash code, and the hash code tells indices apart. */
  lemma HashMatchesEquals(a: Equation, b: Equation)
    ensures a.Equals(b) <==> a.HashCode() == b.HashCode()
  {
  }

  /** Whether x fits a Java `int`. */
  predicate IsInt32(x: int) {
    -0x8000_0000 <= x < 0x8000_0000
  }

  /** The Java `int` that x wraps around to. */
  function Wrap32(x: int): (w: int)
    ensures IsInt32(w)
    ensures (x - w) % 0x1_0000_0000 == 0
    ensures IsInt32(x) ==> w == x
  {
    var m := x % 0x1_0000_0000;
    if m >= 0x8000_0000 then m - 0x1_0000_0000 else m
  }

  /**
   * hashCode with Java's 32-bit wrap-around still tells equations apart:
   * for indices that fit an `int`, the wrapped hash codes are equal exactly
   * when the equations are equal.
   */
  lemma HashWrapsInjectively(a: Equation, b: Equation)
    requires IsInt32(a.index) && IsInt32(b.index)
    ensures Wrap32(a.HashCode()) == Wrap32(b.HashCode()) <==> a.Equals(b)
  {
    var x, y := a.HashCode(), b.HashCode();
    if Wrap32(x) == Wrap32(y) {
      var d := x - y;
      assert d % 0x1_0000_0000 == 0 by {
        assert (x - Wrap32(x)) % 0x1_0000_0000 == 0 && (y - Wrap32(y)) % 0x1_0000_0000 == 0;
      }
      assert -0x1_0000_0000 < d < 0x1_0000_0000;
    }
  }

  /**
   * A system of `rows` fresh equations over `cols` columns: the i-th has
   * index i, an all-zero body of its own in the given layout, and zero
   * right-hand side and pivot.
   */
  method NewSystem(rows: nat, cols: nat, layout: Layout) returns (system: seq<Equation>)
    ensures |system| == rows
    ensures forall i :: 0 <= i < rows ==>
              system[i].index == i && system[i].rhs == 0 && system[i].pivot == 0 &&
              system[i].layout == layout && system[i].body.Length == cols &&
              fresh(system[i]) && fresh(system[i].body)
    ensures forall i, j :: 0 <= i < rows && 0 <= j < cols ==> system[i].body[j] == 0
    ensures forall i, k :: 0 <= i < k < rows ==> system[i].body != system[k].body
  {
    system := [];
    var i := 0;
    while i < rows
      invariant 0 <= i <= rows && |system| == i
      invariant forall e :: 0 <= e < i ==>
                  system[e].index == e && system[e].rhs == 0 && system[e].pivot == 0 &&
                  system[e].layout == layout && system[e].body.Length == cols &&
                  fresh(system[e]) && fresh(system[e].body)
      invariant forall e, j :: 0 <= e < i && 0 <= j < cols ==> system[e].body[j] == 0
      invariant forall e, k :: 0 <= e < k < i ==> system[e].body != system[k].body
    {
      var body := new int[cols](j => 0);
      var equation := new Equation(body, layout, i, 0);
      system := system + [equation];
      i := i + 1;
    }
  }

  /** denseSystem: one equation per row, each over a dense zero body. */
  method DenseSystem(rows: nat, cols: nat) returns (system: seq<Equation>)
    ensures |system| == rows
    ensures forall i :: 0 <= i < rows ==>
              system[i].index == i && system[i].rhs == 0 && system[i].pivot == 0 &&
              system[i].layout == Dense && system[i].body.Length == cols && fresh(system[i].body)
    ensures forall i, j :: 0 <= i < rows && 0 <= j < cols ==> system[i].body[j] == 0
    ensures forall i, k :: 0 <= i < k < rows ==> system[i].body != system[k].body
  {
    system := NewSystem(rows, cols, Dense);
  }

  /** sparseSystem: one equation per row, each over an empty sparse body. */
  method SparseSystem(rows: nat, cols: nat) returns (system: seq<Equation>)
    ensures |system| == rows
    ensures forall i :: 0 <= i < rows ==>
              system[i].index == i && system[i].rhs == 0 && system[i].pivot == 0 &&
              system[i].layout == Sparse && system[i].body.Length == cols && fresh(system[i].body)
    ensures forall i, j :: 0 <= i < rows && 0 <= j < cols ==> system[i].body[j] == 0
    ensures forall i, k :: 0 <= i < k < rows ==> system[i].body != system[k].body
  {
    system := NewSystem(rows, cols, Sparse);
  }
}
