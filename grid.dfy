/** Row partitioning of the asset grid: the asset list is cut into rows of
    `columns` assets, in order, the last row possibly short. The Combine
    pipeline `data.publisher.collect(columns).collect()` does the cutting;
    `Chunk` is its reference definition and `CollectRows` follows the
    pipeline element by element. Assets are an opaque type `T`. */
module Grid {

  /** `xs` cut into consecutive rows of `n` elements; only the last row may be shorter. */
  function Chunk<T>(xs: seq<T>, n: nat): seq<seq<T>>
    requires n > 0
    decreases |xs|
  {
    if xs == [] then []
    else
      var k := if |xs| < n then |xs| else n;
      [xs[..k]] + Chunk(xs[k..], n)
  }

  /** The rows read one after another. */
  function Flatten<T>(rows: seq<seq<T>>): seq<T>
  {
    if rows == [] then [] else rows[0] + Flatten(rows[1..])
  }

  /** Every row holds exactly `n` elements. */
  predicate AllFull<T>(rows: seq<seq<T>>, n: nat)
  {
    forall i :: 0 <= i < |rows| ==> |rows[i]| == n
  }

  /** Reading the rows one after another gives back the asset list, in order. */
  lemma {:induction false} ChunkFlattens<T>(xs: seq<T>, n: nat)
    requires n > 0
    ensures Flatten(Chunk(xs, n)) == xs
    decreases |xs|
  {
    if xs != [] {
      var k := if |xs| < n then |xs| else n;
      ChunkFlattens(xs[k..], n);
      assert Chunk(xs, n)[1..] == Chunk(xs[k..], n);
      assert xs == xs[..k] + xs[k..];
    }
  }

  /** Every row but the last is full; the last row is non-empty and holds at most `n`. */
  lemma {:induction false} ChunkRowLengths<T>(xs: seq<T>, n: nat)
    requires n > 0
    ensures forall i :: 0 <= i < |Chunk(xs, n)| - 1 ==> |Chunk(xs, n)[i]| == n
    ensures Chunk(xs, n) != [] ==> 0 < |Chunk(xs, n)[|Chunk(xs, n)| - 1]| <= n
    decreases |xs|
  {
    if xs != [] {
      var k := if |xs| < n then |xs| else n;
      ChunkRowLengths(xs[k..], n);
      var rows, rest := Chunk(xs, n), Chunk(xs[k..], n);
      assert rows == [xs[..k]] + rest;
      if rest != [] {
        assert k == n;
        assert rows[|rows| - 1] == rest[|rest| - 1];
      }
    }
  }

  /** The number of rows is the asset count divided by `n`, rounded up:
      enough rows for every asset and no row more, so no asset gives no row. */
  lemma {:induction false} ChunkRowCount<T>(xs: seq<T>, n: nat)
    requires n > 0
    ensures |Chunk(xs, n)| == (|xs| + n - 1) / n
    ensures (|Chunk(xs, n)| - 1) * n < |xs| <= |Chunk(xs, n)| * n || xs == []
    ensures Chunk(xs, n) == [] <==> xs == []
    decreases |xs|
  {
    if xs != [] {
      var k := if |xs| < n then |xs| else n;
      ChunkRowCount(xs[k..], n);
      var r := |Chunk(xs[k..], n)|;
      assert |Chunk(xs, n)| == r + 1;
      if k == n {
        DivStep(|xs[k..]| + n - 1, n);
        assert (r + 1) * n == r * n + n;
      } else {
        assert xs[k..] == [];
        DivStep(|xs| - 1, n);
      }
    }
  }

  /** Adding the divisor once adds one to the quotient. */
  lemma DivStep(a: nat, n: nat)
    requires n > 0
    ensures (a + n) / n == a / n + 1
    ensures a < n ==> a / n == 0
  {
    DivUnique(a + n, n, a / n + 1, a % n);
    if a < n {
      DivUnique(a, n, 0, a);
    }
  }

  /** Quotient and remainder are unique. */
  lemma DivUnique(x: int, n: int, q: int, r: int)
    requires n > 0 && 0 <= r < n && x == q * n + r
    ensures x / n == q
  {
    var d := x / n - q;
    assert d * n == r - x % n;
  }

  /** A list no longer than `n` makes a single row. */
  lemma ChunkOneRow<T>(ys: seq<T>, n: nat)
    requires 0 < |ys| <= n
    ensures Chunk(ys, n) == [ys]
  {
    var k := if |ys| < n then |ys| else n;
    assert ys[..k] == ys;
    assert ys[k..] == [];
  }

  /** Rows with `n` elements each, followed by the rows of `ys`, are the rows of the concatenation. */
  lemma {:induction false} ChunkAppend<T>(xs: seq<T>, ys: seq<T>, n: nat)
    requires n > 0 && AllFull(Chunk(xs, n), n)
    ensures Chunk(xs + ys, n) == Chunk(xs, n) + Chunk(ys, n)
    decreases |xs|
  {
    if xs == [] {
      assert xs + ys == ys;
    } else {
      var rows := Chunk(xs, n);
      assert |rows[0]| == n;
      assert |xs| >= n;
      assert AllFull(Chunk(xs[n..], n), n) by {
        assert Chunk(xs[n..], n) == rows[1..];
      }
      ChunkAppend(xs[n..], ys, n);
      assert (xs + ys)[..n] == xs[..n];
      assert (xs + ys)[n..] == xs[n..] + ys;
      assert xs + ys != [];
    }
  }

  /** Emitting the elements `j..i` as one more row after full rows extends the rows of the prefix. */
  lemma ChunkPrefixStep<T>(data: seq<T>, j: nat, i: nat, n: nat)
    requires j < i <= |data| && i - j <= n && AllFull(Chunk(data[..j], n), n)
    ensures Chunk(data[..i], n) == Chunk(data[..j], n) + [data[j..i]]
  {
    ChunkAppend(data[..j], data[j..i], n);
    assert data[..i] == data[..j] + data[j..i];
    ChunkOneRow(data[j..i], n);
  }

  /** The grid's rows, built as the publisher delivers `data` one asset at a
      time to `collect(columns)`: assets accumulate in a buffer, a full buffer
      is emitted as a row, and when the publisher completes a non-empty
      buffer is emitted as the last row; `collect()` gathers the rows. */
  method CollectRows<T>(data: seq<T>, columns: nat) returns (imageDictionary: seq<seq<T>>)
    requires columns > 0
    ensures imageDictionary == Chunk(data, columns)
  {
    imageDictionary := [];
    var buffer: seq<T> := [];
    var i := 0;
    while i < |data|
      invariant |buffer| <= i <= |data|
      invariant |buffer| < columns
      invariant buffer == data[i - |buffer|..i]
      invariant imageDictionary == Chunk(data[..i - |buffer|], columns)
      invariant AllFull(imageDictionary, columns)
    {
      buffer := buffer + [data[i]];
      i := i + 1;
      assert buffer == data[i - |buffer|..i];
      if |buffer| == columns {
        ChunkPrefixStep(data, i - |buffer|, i, columns);
        imageDictionary := imageDictionary + [buffer];
        buffer := [];
      }
    }
    assert data[..i] == data;
    if buffer != [] {
      ChunkPrefixStep(data, i - |buffer|, i, columns);
      imageDictionary := imageDictionary + [buffer];
    }
  }

  /** Example: seven assets in three columns give rows of 3, 3 and 1. */
  lemma SevenAssetsInThreeColumns<T>(xs: seq<T>)
    requires |xs| == 7
    ensures Chunk(xs, 3) == [xs[..3], xs[3..6], xs[6..]]
  {
    ChunkOneRow(xs[6..], 3);
    assert xs[3..][..3] == xs[3..6];
    assert xs[3..][3..] == xs[6..];
    assert Chunk(xs[3..], 3) == [xs[3..6], xs[6..]];
  }
}
