/** Two-proxy retrieval of sealed bid and ask rows: exclusive-or algebra, correctness of the
    fetch and what a single proxy sees. */
module BidAskPir {
  import opened Wrappers
  import opened Bytes

  const ROW_LEN: nat := 64

  type Row = r: seq<bv8> | |r| == ROW_LEN witness Repeat(0, ROW_LEN)

  const ZERO_ROW: Row := Repeat(0, ROW_LEN)

  function XorByte(a: bv8, b: bv8): bv8 { a ^ b }

  function Xor(a: Row, b: Row): (r: Row)
    ensures forall i :: 0 <= i < ROW_LEN ==> r[i] == XorByte(a[i], b[i])
  {
    seq(ROW_LEN, i requires 0 <= i < ROW_LEN => XorByte(a[i], b[i]))
  }

  /** A query bit counts as set only when the byte is exactly 1. */
  predicate IsSet(bits: seq<bv8>, i: nat) {
    i < |bits| && bits[i] == 1
  }

  /** The exclusive or of the rows selected by `bits` among the first `n`. */
  function Selected(rows: seq<Row>, bits: seq<bv8>, n: nat): Row
    requires n <= |rows|
    decreases n
  {
    if n == 0 then ZERO_ROW
    else if IsSet(bits, n - 1) then Xor(Selected(rows, bits, n - 1), rows[n - 1])
    else Selected(rows, bits, n - 1)
  }

  function Flip(bits: seq<bv8>, index: nat): (f: seq<bv8>)
    requires index < |bits|
    ensures |f| == |bits|
  {
    bits[index := XorByte(bits[index], 1)]
  }

  function UnitBits(n: nat, index: nat): seq<bv8> {
    if index < n then Repeat(0, n)[index := 1] else Repeat(0, n)
  }

  /** A mask whose bytes are all 0 or 1. */
  predicate BitMask(m: seq<bv8>, n: nat) {
    |m| == n && forall i :: 0 <= i < n ==> m[i] == 0 || m[i] == 1
  }

  // ---- The proxies ----

  method XorRow(acc: array<bv8>, row: Row)
    requires acc.Length == ROW_LEN
    modifies acc
    ensures acc[..] == Xor(old(acc[..]), row)
  {
    for i := 0 to ROW_LEN
      invariant forall k :: 0 <= k < i ==> acc[k] == XorByte(old(acc[k]), row[k])
      invariant forall k :: i <= k < ROW_LEN ==> acc[k] == old(acc[k])
    {
      acc[i] := XorByte(acc[i], row[i]);
    }
  }

  method Answer(rows: seq<Row>, bits: seq<bv8>) returns (bytes: Row)
    ensures bytes == Selected(rows, bits, |rows|)
  {
    var acc := new bv8[ROW_LEN](_ => 0);
    assert acc[..] == ZERO_ROW;
    for i := 0 to |rows|
      invariant acc[..] == Selected(rows, bits, i)
    {
      if IsSet(bits, i) {
        XorRow(acc, rows[i]);
      }
    }
    bytes := acc[..];
  }

  /** One untrusted proxy: its copy of the database and the query vectors it has seen. */
  class ProviderProxy {
    const rows: seq<Row>
    var log: seq<seq<bv8>>

    constructor (rows: seq<Row>)
      ensures this.rows == rows && log == []
    {
      this.rows := rows;
      log := [];
    }

    method Query(bits: seq<bv8>) returns (bytes: Row)
      modifies this
      ensures bytes == Selected(rows, bits, |rows|)
      ensures log == old(log) + [bits]
    {
      bytes := Answer(rows, bits);
      log := log + [bits];
    }
  }

  /** What the client computes from the two databases. */
  function Fetched(left: seq<Row>, right: seq<Row>, index: nat, mask: seq<bv8>): Row
    requires |left| == |right| == |mask| && index < |mask|
  {
    Xor(Selected(left, mask, |left|), Selected(right, Flip(mask, index), |right|))
  }

  /** The fetch: a shape error touches neither log; otherwise each proxy logs only its own vector. */
  method FetchRow(left: ProviderProxy, right: ProviderProxy, index: nat, mask: seq<bv8>)
    returns (r: Option<Row>)
    requires left != right
    modifies left, right
    ensures r.None? <==>
          || |left.rows| == 0 || |left.rows| != |right.rows|
          || |mask| != |left.rows| || index >= |left.rows|
    ensures r.None? ==> left.log == old(left.log) && right.log == old(right.log)
    ensures r.Some? ==>
              && r.value == Fetched(left.rows, right.rows, index, mask)
              && left.log == old(left.log) + [mask]
              && right.log == old(right.log) + [Flip(mask, index)]
    ensures r.Some? && left.rows == right.rows ==>
              (r.value == left.rows[index] <==> mask[index] == 0 || mask[index] == 1 || left.rows[index] == ZERO_ROW)
  {
    var n := |left.rows|;
    if n == 0 || n != |right.rows| || |mask| != n || index >= n {
      return None;
    }
    var a := left.Query(mask);
    var b := right.Query(Flip(mask, index));
    var out := new bv8[ROW_LEN](i requires 0 <= i < ROW_LEN => a[i]);
    assert out[..] == a;
    XorRow(out, b);
    if left.rows == right.rows {
      FetchReturnsIndexedRow(left.rows, index, mask);
    }
    r := Some(out[..]);
  }

  /** The mask and its flipped copy. The guard against two unit vectors can never fire. */
  method QueryPair(n: nat, index: nat, mask: seq<bv8>) returns (r: Option<(seq<bv8>, seq<bv8>)>)
    ensures r == if |mask| == n && index < n then Some((mask, Flip(mask, index))) else None
  {
    if |mask| != n || index >= n {
      return None;
    }
    var other := Flip(mask, index);
    var unit := UnitBits(n, index);
    XorByteLaws(mask[index], 0, 0);
    if other == unit && mask == unit {
      return None;
    }
    r := Some((mask, other));
  }

  // ---- Exclusive-or algebra ----

  lemma XorByteLaws(a: bv8, b: bv8, c: bv8)
    ensures XorByte(a, a) == 0 && XorByte(a, 0) == a && XorByte(0, a) == a
    ensures XorByte(XorByte(a, c), b) == XorByte(XorByte(a, b), c)
    ensures XorByte(a, XorByte(b, c)) == XorByte(XorByte(a, b), c)
    ensures XorByte(XorByte(a, c), XorByte(b, c)) == XorByte(a, b)
    ensures XorByte(a, 1) == 1 <==> a == 0
    ensures XorByte(a, 1) == 0 <==> a == 1
    ensures XorByte(XorByte(a, 1), 1) == a
    ensures XorByte(a, 1) != a
  {
  }

  lemma XorLaws(a: Row, b: Row, c: Row)
    ensures Xor(a, a) == ZERO_ROW
    ensures Xor(a, ZERO_ROW) == a
    ensures Xor(Xor(a, c), b) == Xor(Xor(a, b), c)
    ensures Xor(a, Xor(b, c)) == Xor(Xor(a, b), c)
    ensures Xor(Xor(a, c), Xor(b, c)) == Xor(a, b)
  {
    forall i | 0 <= i < ROW_LEN
      ensures Xor(a, a)[i] == 0 && Xor(a, ZERO_ROW)[i] == a[i]
      ensures Xor(Xor(a, c), b)[i] == Xor(Xor(a, b), c)[i]
      ensures Xor(a, Xor(b, c))[i] == Xor(Xor(a, b), c)[i]
      ensures Xor(Xor(a, c), Xor(b, c))[i] == Xor(a, b)[i]
    {
      XorByteLaws(a[i], b[i], c[i]);
    }
  }

  /** Two queries that agree outside `index` cancel everywhere else. */
  lemma {:induction false} OnlyIndexSurvives(rows: seq<Row>, p: seq<bv8>, q: seq<bv8>, index: nat, n: nat)
    requires n <= |rows| && index < |rows|
    requires forall k: nat :: k != index ==> IsSet(p, k) == IsSet(q, k)
    ensures Xor(Selected(rows, p, n), Selected(rows, q, n))
            == if index < n && IsSet(p, index) != IsSet(q, index) then rows[index] else ZERO_ROW
    decreases n
  {
    if n == 0 {
      XorLaws(ZERO_ROW, ZERO_ROW, ZERO_ROW);
    } else {
      OnlyIndexSurvives(rows, p, q, index, n - 1);
      var a, b, row := Selected(rows, p, n - 1), Selected(rows, q, n - 1), rows[n - 1];
      XorLaws(a, b, row);
      XorLaws(ZERO_ROW, row, row);
      XorLaws(row, row, row);
      XorZero(row);
    }
  }

  lemma XorZero(row: Row)
    ensures Xor(ZERO_ROW, row) == row
  {
    forall i | 0 <= i < ROW_LEN ensures Xor(ZERO_ROW, row)[i] == row[i] {
      XorByteLaws(row[i], 0, 0);
    }
  }

  /** Flipping changes whether the position counts as set exactly when the mask byte is 0 or 1. */
  lemma FlipTogglesBits(mask: seq<bv8>, index: nat)
    requires index < |mask|
    ensures IsSet(mask, index) != IsSet(Flip(mask, index), index) <==> mask[index] == 0 || mask[index] == 1
    ensures forall k: nat :: k != index ==> IsSet(mask, k) == IsSet(Flip(mask, index), k)
  {
    XorByteLaws(mask[index], 0, 0);
  }

  /** Only bytes that are exactly 1 select a row: two queries with their ones in the same places get the
      same answer, whatever their other bytes are. */
  lemma {:induction false} OnlyOnesSelect(rows: seq<Row>, p: seq<bv8>, q: seq<bv8>, n: nat)
    requires n <= |rows|
    requires forall k: nat :: k < n ==> ((k < |p| && p[k] == 1) <==> (k < |q| && q[k] == 1))
    ensures Selected(rows, p, n) == Selected(rows, q, n)
    decreases n
  {
    if n > 0 {
      OnlyOnesSelect(rows, p, q, n - 1);
    }
  }

  /** With equal replicas the fetch returns the indexed row exactly when the mask byte at the index
      is 0 or 1, or the row is all zero anyway; every other mask byte is free. */
  lemma FetchReturnsIndexedRow(rows: seq<Row>, index: nat, mask: seq<bv8>)
    requires |mask| == |rows| && index < |rows|
    ensures Fetched(rows, rows, index, mask) == rows[index]
            <==> mask[index] == 0 || mask[index] == 1 || rows[index] == ZERO_ROW
  {
    FlipTogglesBits(mask, index);
    OnlyIndexSurvives(rows, mask, Flip(mask, index), index, |rows|);
  }

  // ---- What one proxy sees ----

  lemma FlipIsInvolution(m: seq<bv8>, n: nat, index: nat)
    requires BitMask(m, n) && index < n
    ensures BitMask(Flip(m, index), n)
    ensures Flip(Flip(m, index), index) == m
  {
    XorByteLaws(m[index], 0, 0);
    assert Flip(Flip(m, index), index) == m;
  }

  /** Every vector the right proxy may see comes from exactly one mask, whatever the index. */
  lemma ExactlyOneMaskPerView(n: nat, index: nat, view: seq<bv8>)
    requires BitMask(view, n) && index < n
    ensures BitMask(Flip(view, index), n) && Flip(Flip(view, index), index) == view
    ensures forall m :: BitMask(m, n) && Flip(m, index) == view ==> m == Flip(view, index)
  {
    FlipIsInvolution(view, n, index);
    forall m | BitMask(m, n) && Flip(m, index) == view
      ensures m == Flip(view, index)
    {
      FlipIsInvolution(m, n, index);
    }
  }

  /** So the vectors the right proxy can see are the same for every two indices. */
  lemma ViewsDoNotDependOnIndex(n: nat, i: nat, j: nat)
    requires i < n && j < n
    ensures (iset m | BitMask(m, n) :: Flip(m, i)) == (iset m | BitMask(m, n) :: Flip(m, j))
  {
    forall v: seq<bv8> | BitMask(v, n)
      ensures v in (iset m | BitMask(m, n) :: Flip(m, i)) && v in (iset m | BitMask(m, n) :: Flip(m, j))
    {
      FlipIsInvolution(v, n, i);
      FlipIsInvolution(v, n, j);
      assert v == Flip(Flip(v, i), i) && v == Flip(Flip(v, j), j);
    }
    forall m | BitMask(m, n)
      ensures BitMask(Flip(m, i), n) && BitMask(Flip(m, j), n)
    {
      FlipIsInvolution(m, n, i);
      FlipIsInvolution(m, n, j);
    }
  }

  predicate HidesIndex(log: seq<seq<bv8>>, index: nat, n: nat) {
    forall k :: 0 <= k < |log| ==> log[k] != UnitBits(n, index)
  }

  /** The log check can fail on a single fetch: the left log exactly when the mask is the unit
      vector, the right log exactly when the mask is all zero. */
  lemma HidesIndexAfterFetch(left: seq<seq<bv8>>, right: seq<seq<bv8>>, index: nat, n: nat, mask: seq<bv8>)
    requires |mask| == n && index < n
    requires HidesIndex(left, index, n) && HidesIndex(right, index, n)
    ensures HidesIndex(left + [mask], index, n) <==> mask != UnitBits(n, index)
    ensures HidesIndex(right + [Flip(mask, index)], index, n) <==> mask != Repeat(0, n)
  {
    var unit := UnitBits(n, index);
    assert (left + [mask])[|left|] == mask;
    assert (right + [Flip(mask, index)])[|right|] == Flip(mask, index);
    XorByteLaws(mask[index], 0, 0);
    if Flip(mask, index) == unit {
      assert forall k :: 0 <= k < n && k != index ==> mask[k] == Flip(mask, index)[k];
      assert Flip(mask, index)[index] == 1;
      assert mask == Repeat(0, n);
    }
    if mask == Repeat(0, n) {
      assert Flip(mask, index) == unit;
    }
  }
}
