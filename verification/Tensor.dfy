/** Four-dimensional tensors in flat buffers. */
module Tensor {
  import opened Params
  import Machine

  /** Layout of a (batch, row, column, channel) tensor: NHWC with a channel stride, or HWNC. */
  datatype Layout = Layout(batches: nat, rows: nat, cols: nat, channels: nat, stride: nat, hwnc: bool)
  {
    predicate Valid() { hwnc || channels <= stride }

    function Row(b: int, r: int, c: int): int {
      if hwnc then r * cols * batches + c * batches + b else b * rows * cols + r * cols + c
    }

    function Index(b: int, r: int, c: int, k: int): int {
      Row(b, r, c) * (if hwnc then channels else stride) + k
    }

    predicate Contains(b: int, r: int, c: int, k: int) {
      0 <= b < batches && 0 <= r < rows && 0 <= c < cols && 0 <= k < channels
    }

    predicate FitsIn(len: int) {
      (batches * rows * cols - 1) * (if hwnc then channels else stride) + channels <= len
    }
  }

  lemma Flat3(n1: nat, n2: nat, x: int, y: int, z: int)
    ensures x * n1 * n2 + y * n2 + z == (x * n1 + y) * n2 + z
  {
    assert (x * n1 + y) * n2 == x * n1 * n2 + y * n2;
  }

  lemma Flat3Injective(n1: nat, n2: nat, x: int, y: int, z: int, x': int, y': int, z': int)
    requires 0 <= y < n1 && 0 <= y' < n1 && 0 <= z < n2 && 0 <= z' < n2
    requires x * n1 * n2 + y * n2 + z == x' * n1 * n2 + y' * n2 + z'
    ensures x == x' && y == y' && z == z'
  {
    Flat3(n1, n2, x, y, z);
    Flat3(n1, n2, x', y', z');
    RowMajorInjective(n2, x * n1 + y, z, x' * n1 + y', z');
    RowMajorInjective(n1, x, y, x', y');
  }

  lemma Flat3Bound(n0: nat, n1: nat, n2: nat, x: int, y: int, z: int)
    requires 0 <= x < n0 && 0 <= y < n1 && 0 <= z < n2
    ensures 0 <= x * n1 * n2 + y * n2 + z < n0 * n1 * n2
  {
    Flat3(n1, n2, x, y, z);
    RowMajorBound(n0, n1, x, y);
    RowMajorBound(n0 * n1, n2, x * n1 + y, z);
  }

  /** Where an element lies: by batch, row, column and channel, or by row, column, batch and channel. */
  lemma IndexWrittenOut(l: Layout, b: int, r: int, c: int, k: int)
    ensures l.Index(b, r, c, k)
         == if l.hwnc then ((r * l.cols + c) * l.batches + b) * l.channels + k
            else ((b * l.rows + r) * l.cols + c) * l.stride + k
  {
    Flat3(l.cols, l.batches, r, c, b);
    Flat3(l.rows, l.cols, b, r, c);
  }

  lemma IndexInjective(l: Layout, b: int, r: int, c: int, k: int, b': int, r': int, c': int, k': int)
    requires l.Valid() && l.Contains(b, r, c, k) && l.Contains(b', r', c', k')
    requires l.Index(b, r, c, k) == l.Index(b', r', c', k')
    ensures b == b' && r == r' && c == c' && k == k'
  {
    RowMajorInjective(if l.hwnc then l.channels else l.stride, l.Row(b, r, c), k, l.Row(b', r', c'), k');
    if l.hwnc {
      Flat3Injective(l.cols, l.batches, r, c, b, r', c', b');
    } else {
      Flat3Injective(l.rows, l.cols, b, r, c, b', r', c');
    }
  }

  lemma RowInBounds(n: int, stride: int, channels: int, row: int, k: int)
    requires 0 <= row < n && 0 <= k < channels && 0 <= stride
    ensures 0 <= row * stride + k < (n - 1) * stride + channels
  {
    MulMono(row, n - 1, stride);
    MulMono(0, row, stride);
  }

  lemma Rotated(x: int, y: int, z: int)
    ensures x * y * z == z * x * y
  {
    var p := x * y;
    assert p * z == z * p;
    assert z * (x * y) == z * x * y;
  }

  lemma RowBound(l: Layout, b: int, r: int, c: int, k: int)
    requires l.Contains(b, r, c, k)
    ensures 0 <= l.Row(b, r, c) < l.batches * l.rows * l.cols
  {
    if l.hwnc {
      Flat3Bound(l.rows, l.cols, l.batches, r, c, b);
      Rotated(l.rows, l.cols, l.batches);
    } else {
      Flat3Bound(l.batches, l.rows, l.cols, b, r, c);
    }
  }

  lemma IndexInBounds(l: Layout, len: int, b: int, r: int, c: int, k: int)
    requires l.Valid() && l.FitsIn(len) && l.Contains(b, r, c, k)
    ensures 0 <= l.Index(b, r, c, k) < len
  {
    RowBound(l, b, r, c, k);
    RowInBounds(l.batches * l.rows * l.cols, if l.hwnc then l.channels else l.stride, l.channels, l.Row(b, r, c), k);
  }

  datatype Position = Pos(b: int, r: int, c: int, k: int)

  predicate HoldsAt(out: seq<int>, l: Layout, val: Position -> int, p: Position) {
    Machine.At(out, l.Index(p.b, p.r, p.c, p.k)) == val(p)
  }

  /** The elements of a set of positions hold their values. */
  ghost predicate Filled(out: seq<int>, l: Layout, val: Position -> int, done: Position -> bool) {
    && l.Valid() && l.FitsIn(|out|)
    && forall p: Position :: l.Contains(p.b, p.r, p.c, p.k) && done(p) ==> HoldsAt(out, l, val, p)
  }

  /** Element x of a buffer is an element of the tensor. */
  ghost predicate IsIndex(l: Layout, x: int) {
    exists p: Position :: l.Contains(p.b, p.r, p.c, p.k) && l.Index(p.b, p.r, p.c, p.k) == x
  }

  /** What is no element of the tensor, the gaps between rows of channels included, is as before. */
  ghost predicate Kept(before: seq<int>, out: seq<int>, l: Layout) {
    |out| == |before| && forall x :: 0 <= x < |out| && !IsIndex(l, x) ==> out[x] == before[x]
  }

  method StoreAt(out: array<int>, l: Layout, p: Position, v: int, ghost before: seq<int>,
                 ghost val: Position -> int, ghost done: Position -> bool, ghost done': Position -> bool)
    requires Filled(out[..], l, val, done) && l.Contains(p.b, p.r, p.c, p.k) && v == val(p) && Kept(before, out[..], l)
    requires forall q: Position :: l.Contains(q.b, q.r, q.c, q.k) && done'(q) ==> done(q) || q == p
    modifies out
    ensures Filled(out[..], l, val, done') && Kept(before, out[..], l)
  {
    IndexInBounds(l, out.Length, p.b, p.r, p.c, p.k);
    ghost var s := out[..];
    var x := l.Index(p.b, p.r, p.c, p.k);
    out[x] := v;
    assert out[..] == s[x := v];
    StoredElement(s, x, v, l, p, val, done, done');
    assert IsIndex(l, x);
  }

  /** Storing element p, at x, keeps the others. */
  lemma StoredElement(s: seq<int>, x: int, v: int, l: Layout, p: Position, val: Position -> int,
                      done: Position -> bool, done': Position -> bool)
    requires Filled(s, l, val, done) && l.Contains(p.b, p.r, p.c, p.k) && v == val(p) && 0 <= x < |s| &&
             x == l.Index(p.b, p.r, p.c, p.k)
    requires forall q: Position :: l.Contains(q.b, q.r, q.c, q.k) && done'(q) ==> done(q) || q == p
    ensures Filled(s[x := v], l, val, done')
  {
    forall q: Position | l.Contains(q.b, q.r, q.c, q.k) && done'(q)
      ensures HoldsAt(s[x := v], l, val, q)
    {
      if q != p {
        assert HoldsAt(s, l, val, q);
        if l.Index(q.b, q.r, q.c, q.k) == x {
          IndexInjective(l, q.b, q.r, q.c, q.k, p.b, p.r, p.c, p.k);
        }
      }
    }
  }

  /** Lexicographic order of positions, as nested loops visit them. */
  predicate Before(q: Position, p: Position) {
    || q.b < p.b
    || (q.b == p.b && (q.r < p.r || (q.r == p.r && (q.c < p.c || (q.c == p.c && q.k < p.k)))))
  }

  /** Two buffers hold the same element at p, each in its own layout. */
  predicate SameAt(l: Layout, x: seq<int>, m: Layout, y: seq<int>, p: Position) {
    Machine.At(x, l.Index(p.b, p.r, p.c, p.k)) == Machine.At(y, m.Index(p.b, p.r, p.c, p.k))
  }
}
