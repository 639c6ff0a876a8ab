/** Ghost-key detection of the keyboard scanner (kbscan.c).

    Without a diode per key, pressing three corners of a rectangle in the
    matrix makes the fourth corner read as pressed too. The scanner refuses
    to act on a row whose pressed, mapped columns share two columns with
    another row, because such a pattern cannot be told apart from a ghost.
    Columns whose entry in the built-in layer-0 keymap is empty are ignored:
    they may read as active without being keys. */
module Ghost {
  import opened Bits
  import opened Keymap

  /** Number of matrix inputs (columns), `KM_IN`: one bit of a row byte each. */
  const Columns: nat := 8

  /** The built-in keymap's layer 0, `KEYMAP[0][row][col]`. */
  type BaseKeymap = (nat, nat) -> Key

  /** Column `c` of `data` is pressed and has a key in the built-in keymap. */
  predicate RealKey(base: BaseKeymap, row: nat, data: bv8, c: nat)
    requires c < Columns
  {
    base(row, c) != 0 && Bit(data, c)
  }

  /** `popcount_more_than_one`: at least two bits of `x` are set. */
  function MoreThanOne(x: bv8): bool
  {
    x & (x - 1) != 0
  }

  /** `x & (x - 1)` clears the lowest set bit of `x`, so it is non-zero
      exactly when `x` has at least two set bits. */
  lemma {:induction false} MoreThanOneIffTwoBits(x: bv8)
    ensures MoreThanOne(x) <==> TwoBits(x)
  {
    if MoreThanOne(x) {
      var j := Lowest(x);
      var k := Lowest(x & (x - 1));
      assert j < k && Bit(x, k);
    }
  }

  /** The real keys among the first `n` columns of `data`. */
  function RealKeysUpTo(base: BaseKeymap, row: nat, data: bv8, n: nat): bv8
    requires n <= Columns
  {
    if n == 0 then 0
    else
      var r := RealKeysUpTo(base, row, data, n - 1);
      if base(row, n - 1) != 0 && Bit(data, n - 1) then SetBit(r, n - 1, true) else r
  }

  /** `kbscan_get_real_keys(row, data)` as a value. */
  function RealKeys(base: BaseKeymap, row: nat, data: bv8): bv8
  {
    RealKeysUpTo(base, row, data, Columns)
  }

  /** Bit `c` of the real keys is set exactly when column `c` is a real key. */
  lemma {:induction false} RealKeysUpToBit(base: BaseKeymap, row: nat, data: bv8, n: nat, c: nat)
    requires n <= Columns && c < Columns
    ensures Bit(RealKeysUpTo(base, row, data, n), c) <==> c < n && RealKey(base, row, data, c)
  {
    if n == 0 {
      NoBitOfZero(c);
    } else {
      RealKeysUpToBit(base, row, data, n - 1, c);
      var r := RealKeysUpTo(base, row, data, n - 1);
      if base(row, n - 1) != 0 && Bit(data, n - 1) && c != n - 1 {
        SetBitOther(r, n - 1, true, c);
      }
    }
  }

  /** Bit `c` of `kbscan_get_real_keys(row, data)` is set exactly when column
      `c` is pressed in `data` and mapped in layer 0; so the result is a
      subset of `data`. */
  lemma RealKeysBit(base: BaseKeymap, row: nat, data: bv8, c: nat)
    requires c < Columns
    ensures Bit(RealKeys(base, row, data), c) <==> RealKey(base, row, data, c)
  {
    RealKeysUpToBit(base, row, data, Columns, c);
  }

  /** `kbscan_get_real_keys`: collect the pressed columns that have a key in
      layer 0 of the built-in keymap. The result is a subset of `data`. */
  method GetRealKeys(base: BaseKeymap, row: nat, data: bv8) returns (realdata: bv8)
    ensures realdata == RealKeys(base, row, data)
  {
    realdata := 0;
    var col := 0;
    while col < Columns
      invariant col <= Columns
      invariant realdata == RealKeysUpTo(base, row, data, col)
    {
      if base(row, col) != 0 && Bit(data, col) {
        realdata := SetBit(realdata, col, true);
      }
      col := col + 1;
    }
  }

  /** The ghost condition for `row` reading `data`, given the rows read in
      this pass: at least two real keys, and some other row whose real keys
      share at least two columns with them. */
  ghost predicate Ghosted(base: BaseKeymap, rows: seq<bv8>, row: nat, data: bv8)
  {
    var d := RealKeys(base, row, data);
    MoreThanOne(d) && exists i :: 0 <= i < |rows| && i != row && SharesTwo(base, rows, i, d)
  }

  /** Row `i`'s real keys share at least two columns with `d`. */
  predicate SharesTwo(base: BaseKeymap, rows: seq<bv8>, i: nat, d: bv8)
    requires i < |rows|
  {
    MoreThanOne(RealKeys(base, i, rows[i]) & d)
  }

  /** `kbscan_has_ghost_in_row(row, data)`. With `nkey` set (a matrix with a
      diode per key, `KM_NKEY`) there is never a ghost. */
  method HasGhostInRow(base: BaseKeymap, nkey: bool, rows: seq<bv8>, row: nat, data: bv8)
    returns (ghosted: bool)
    ensures ghosted == (!nkey && Ghosted(base, rows, row, data))
  {
    if nkey {
      return false;
    }
    var d := GetRealKeys(base, row, data);
    if !MoreThanOne(d) {
      return false;
    }
    var i := 0;
    while i < |rows|
      invariant i <= |rows|
      invariant forall k :: 0 <= k < i && k != row ==> !SharesTwo(base, rows, k, d)
    {
      var other := GetRealKeys(base, i, rows[i]);
      if i != row && MoreThanOne(other & d) {
        assert SharesTwo(base, rows, i, d);
        return true;
      }
      i := i + 1;
    }
    return false;
  }

  /** A row is ghosted exactly when some other row has two of the same
      columns pressed, each a real key in both rows. */
  lemma GhostedIffSharedColumns(base: BaseKeymap, rows: seq<bv8>, row: nat, data: bv8)
    ensures Ghosted(base, rows, row, data) <==>
      exists i, j, k ::
        0 <= i < |rows| && i != row && 0 <= j < k < Columns && SharedPair(base, rows, row, data, i, j, k)
  {
    if Ghosted(base, rows, row, data) {
      GhostedHasSharedPair(base, rows, row, data);
    }
    if exists i, j, k ::
        0 <= i < |rows| && i != row && 0 <= j < k < Columns && SharedPair(base, rows, row, data, i, j, k)
    {
      var i, j, k :|
        0 <= i < |rows| && i != row && 0 <= j < k < Columns && SharedPair(base, rows, row, data, i, j, k);
      SharedPairGhosts(base, rows, row, data, i, j, k);
    }
  }

  /** Columns `j` and `k` are real keys both in `row` (reading `data`) and
      in row `i`. */
  predicate SharedPair(base: BaseKeymap, rows: seq<bv8>, row: nat, data: bv8, i: nat, j: nat, k: nat)
    requires i < |rows| && j < Columns && k < Columns
  {
    RealKey(base, row, data, j) && RealKey(base, row, data, k) &&
    RealKey(base, i, rows[i], j) && RealKey(base, i, rows[i], k)
  }

  lemma GhostedHasSharedPair(base: BaseKeymap, rows: seq<bv8>, row: nat, data: bv8)
    requires Ghosted(base, rows, row, data)
    ensures exists i, j, k ::
      0 <= i < |rows| && i != row && 0 <= j < k < Columns && SharedPair(base, rows, row, data, i, j, k)
  {
    var d := RealKeys(base, row, data);
    var i :| 0 <= i < |rows| && i != row && SharesTwo(base, rows, i, d);
    var other := RealKeys(base, i, rows[i]);
    MoreThanOneIffTwoBits(other & d);
    var j, k :| 0 <= j < k < 8 && Bit(other & d, j) && Bit(other & d, k);
    BitOfAnd(other, d, j);
    BitOfAnd(other, d, k);
    RealKeysBit(base, row, data, j);
    RealKeysBit(base, row, data, k);
    RealKeysBit(base, i, rows[i], j);
    RealKeysBit(base, i, rows[i], k);
    assert SharedPair(base, rows, row, data, i, j, k);
  }

  lemma SharedPairGhosts(base: BaseKeymap, rows: seq<bv8>, row: nat, data: bv8, i: nat, j: nat, k: nat)
    requires i < |rows| && i != row && j < k < Columns
    requires SharedPair(base, rows, row, data, i, j, k)
    ensures Ghosted(base, rows, row, data)
  {
    var d := RealKeys(base, row, data);
    var other := RealKeys(base, i, rows[i]);
    RealKeysBit(base, row, data, j);
    RealKeysBit(base, row, data, k);
    RealKeysBit(base, i, rows[i], j);
    RealKeysBit(base, i, rows[i], k);
    BitOfAnd(other, d, j);
    BitOfAnd(other, d, k);
    MoreThanOneIffTwoBits(other & d);
    MoreThanOneIffTwoBits(d);
    assert SharesTwo(base, rows, i, d);
  }

  /** A row with fewer than two real keys is never ghosted. */
  lemma FewRealKeysNotGhosted(base: BaseKeymap, rows: seq<bv8>, row: nat, data: bv8)
    requires forall j, k :: 0 <= j < k < Columns ==> !(RealKey(base, row, data, j) && RealKey(base, row, data, k))
    ensures !Ghosted(base, rows, row, data)
  {
    GhostedIffSharedColumns(base, rows, row, data);
  }
}
