/**
 Tables written down row by row: the shape in which the catalog services number the members of
 their shards.
 */
module Grid {
  import opened Text

  /** The place of column i of a row. */
  function Num(cols: nat, row: nat, i: nat): nat {
    row * cols + i
  }

  /** The first n entries of a row. */
  ghost function Row<T>(f: (nat, nat) -> T, row: nat, n: nat): (r: seq<T>)
    ensures |r| == n
  {
    if n == 0 then [] else Row(f, row, n - 1) + [f(row, n - 1)]
  }

  ghost function Rows<T>(f: (nat, nat) -> T, rows: nat, cols: nat): seq<T> {
    if rows == 0 then [] else Rows(f, rows - 1, cols) + Row(f, rows - 1, cols)
  }

  lemma {:induction false} RowAt<T>(f: (nat, nat) -> T, row: nat, n: nat, i: nat)
    requires i < n
    ensures Row(f, row, n)[i] == f(row, i)
  {
    if i < n - 1 { RowAt(f, row, n - 1, i); }
  }

  lemma {:induction false} RowsLength<T>(f: (nat, nat) -> T, rows: nat, cols: nat)
    ensures |Rows(f, rows, cols)| == rows * cols
  {
    if rows > 0 {
      RowsLength(f, rows - 1, cols);
      assert (rows - 1) * cols + cols == rows * cols;
    }
  }

  lemma NumBounds(cols: nat, rows: nat, row: nat, i: nat)
    requires row < rows && i < cols
    ensures Num(cols, row, i) < rows * cols
  {
    assert (row + 1) * cols <= rows * cols;
  }

  lemma NumInjective(cols: nat, row: nat, i: nat, row': nat, i': nat)
    requires i < cols && i' < cols && Num(cols, row, i) == Num(cols, row', i')
    ensures row == row' && i == i'
  {
    var d := row - row';
    assert d * cols == i' - i;
    assert d >= 1 ==> d * cols >= cols;
    assert -d >= 1 ==> (-d) * cols >= cols;
  }

  lemma {:induction false} NumSurjective(cols: nat, rows: nat, k: nat) returns (row: nat, i: nat)
    requires k < rows * cols
    ensures row < rows && i < cols && Num(cols, row, i) == k
  {
    if k < cols {
      row, i := 0, k;
      assert rows > 0;
    } else {
      assert (rows - 1) * cols == rows * cols - cols;
      row, i := NumSurjective(cols, rows - 1, k - cols);
      assert (row + 1) * cols == row * cols + cols;
      row := row + 1;
    }
  }

  /** Every entry stands at its number. */
  lemma {:induction false} RowsAt<T>(f: (nat, nat) -> T, rows: nat, cols: nat, row: nat, i: nat)
    requires row < rows && i < cols
    ensures Num(cols, row, i) < |Rows(f, rows, cols)|
    ensures Rows(f, rows, cols)[Num(cols, row, i)] == f(row, i)
  {
    var before, last := Rows(f, rows - 1, cols), Row(f, rows - 1, cols);
    RowsLength(f, rows - 1, cols);
    if row < rows - 1 {
      RowsAt(f, rows - 1, cols, row, i);
      assert (before + last)[Num(cols, row, i)] == before[Num(cols, row, i)];
    } else {
      RowAt(f, row, cols, i);
      assert (before + last)[|before| + i] == last[i];
    }
  }

  /** What holds of every entry holds of the whole table. */
  lemma RowsAll<T>(f: (nat, nat) -> T, rows: nat, cols: nat, good: T -> bool)
    requires forall row: nat, i: nat :: row < rows && i < cols ==> good(f(row, i))
    ensures forall k :: 0 <= k < |Rows(f, rows, cols)| ==> good(Rows(f, rows, cols)[k])
  {
    RowsLength(f, rows, cols);
    forall k | 0 <= k < |Rows(f, rows, cols)| ensures good(Rows(f, rows, cols)[k]) {
      var row, i := NumSurjective(cols, rows, k);
      RowsAt(f, rows, cols, row, i);
    }
  }

  /** A joined table of separator-free texts splits into its entries, each at its number. */
  lemma SplitRowsAt(f: (nat, nat) -> string, rows: nat, cols: nat, c: char, row: nat, i: nat)
    requires row < rows && i < cols
    requires forall r: nat, j: nat :: c !in f(r, j)
    ensures Split(Join(Rows(f, rows, cols), c), c) == Rows(f, rows, cols)
    ensures |Rows(f, rows, cols)| == rows * cols
    ensures Num(cols, row, i) < |Rows(f, rows, cols)| && Rows(f, rows, cols)[Num(cols, row, i)] == f(row, i)
  {
    RowsAll(f, rows, cols, s => c !in s);
    RowsLength(f, rows, cols);
    RowsAt(f, rows, cols, row, i);
    SplitJoin(Rows(f, rows, cols), c);
  }

  lemma DivModUnique(x: nat, n: nat, q: nat, r: nat)
    requires x == q * n + r && r < n
    ensures x / n == q && x % n == r
  {
    NumInjective(n, x / n, x % n, q, r);
  }

  lemma DivModSucc(x: nat, n: nat)
    requires n > 0
    ensures x % n == n - 1 ==> (x + 1) / n == x / n + 1 && (x + 1) % n == 0
    ensures x % n < n - 1 ==> (x + 1) / n == x / n && (x + 1) % n == x % n + 1
  {
    var q, r := x / n, x % n;
    assert x == q * n + r;
    if r == n - 1 {
      assert (q + 1) * n == q * n + n;
      DivModUnique(x + 1, n, q + 1, 0);
    } else {
      DivModUnique(x + 1, n, q, r + 1);
    }
  }

  ghost function One(b: bool): nat { if b then 1 else 0 }

  lemma Tally(x: nat, n: nat, a: nat)
    requires a < n
    ensures (x + 1) / n + One(a < (x + 1) % n) == x / n + One(a < x % n) + One(a == x % n)
  {
    DivModSucc(x, n);
  }

  // ---------------------------------------------------------------- round robin

  ghost predicate Distinct(azs: seq<string>) { forall a, b :: 0 <= a < b < |azs| ==> azs[a] != azs[b] }

  lemma ShiftedModDiffers(s: nat, i: nat, j: nat, n: nat)
    requires i < j < i + n
    ensures (s + i) % n != (s + j) % n
  {
    var q, r := (s + i) / n, (s + i) % n;
    var r' := r + (j - i);
    if r' < n {
      DivModUnique(s + j, n, q, r');
    } else {
      assert s + j == (q + 1) * n + (r' - n);
      DivModUnique(s + j, n, q + 1, r' - n);
    }
  }

  lemma ShiftedModWraps(s: nat, n: nat)
    requires n > 0
    ensures (s + n) % n == s % n
  {
    assert s + n == (s / n + 1) * n + s % n;
    DivModUnique(s + n, n, s / n + 1, s % n);
  }

  lemma TurnsDiffer(azs: seq<string>, a: nat, b: nat)
    requires |azs| > 0 && Distinct(azs) && a < b < a + |azs|
    ensures azs[a % |azs|] != azs[b % |azs|]
  {
    ShiftedModDiffers(0, a, b, |azs|);
    var i, j := a % |azs|, b % |azs|;
    assert if i < j then azs[i] != azs[j] else azs[j] != azs[i];
  }
}
