/** `matmul_cpu`: the reference matmul, its 4x4-blocked branch and its general branch, for the
    activations that do not normalise. */
module MatmulCpu {
  import opened Params
  import opened Rounding
  import Machine

  /** The arguments; `d` is None where the source passes a NULL bias. */
  datatype Args = Args(transA: bool, transB: bool, dimI: nat, dimJ: nat, dimK: nat,
                       a: seq<int>, b: seq<int>, d: Option<seq<int>>,
                       strideA: nat, strideB: nat, strideD: nat, strideC: nat,
                       scaleA: real, scaleB: real, act: Activation, scale: real, repeating: bool)
  {
    predicate Valid(lenC: int) {
      && Machine.InBounds(|a|, 0, strideA, if transA then dimK else dimI, if transA then dimI else dimK)
      && Machine.InBounds(|b|, 0, strideB, if transB then dimJ else dimK, if transB then dimK else dimJ)
      && (d.Some? ==> Machine.InBounds(|d.value|, 0, strideD, if repeating then 1 else dimI, dimJ))
      && Machine.InBounds(lenC, 0, strideC, dimI, dimJ) && dimJ <= strideC
    }

    function IndexA(i: int, k: int): int { if transA then k * strideA + i else i * strideA + k }
    function IndexB(j: int, k: int): int { if transB then j * strideB + k else k * strideB + j }

    function Bias(i: int, j: int): int {
      if d.None? then 0 else Machine.At(d.value, (if repeating then 0 else i) * strideD + j)
    }

    function Term(i: int, j: int, k: int): int {
      MvinScale(Machine.At(a, IndexA(i, k)), scaleA) * MvinScale(Machine.At(b, IndexB(j, k)), scaleB)
    }

    /** The textbook inner product of depth n, on top of the bias. */
    function Sum(i: int, j: int, n: nat): int {
      if n == 0 then Bias(i, j) else Sum(i, j, n - 1) + Term(i, j, n - 1)
    }

    function Result(i: int, j: int): int { ScaleAndSat(Sum(i, j, dimK), act, scale) }
  }

  /** With the identity input scale a term is the product of its two elements. */
  lemma PlainTerm(m: Args, row: int, col: int, t: int, x: int, w: int)
    requires !m.transA && !m.transB && m.scaleA == 1.0 && m.scaleB == 1.0
    requires x == Machine.At(m.a, row * m.strideA + t) && w == Machine.At(m.b, t * m.strideB + col) && IsElem(x) &&
             IsElem(w)
    ensures m.Term(row, col, t) == x * w
  {
    IdentityScale(x);
    IdentityScale(w);
  }

  lemma InBoundsAt(len: int, stride: nat, rows: int, cols: int, row: int, col: int)
    requires Machine.InBounds(len, 0, stride, rows, cols) && 0 <= row < rows && 0 <= col < cols
    ensures 0 <= row * stride + col < len
  {
    MulMono(row, rows - 1, stride);
    MulMono(0, row, stride);
  }

  /** Every operand the reference reads for (i, j, k) is inside its buffer. */
  lemma ReadsInBounds(m: Args, lenC: int, i: int, j: int, k: int)
    requires m.Valid(lenC) && 0 <= i < m.dimI && 0 <= j < m.dimJ
    ensures 0 <= k < m.dimK ==> 0 <= m.IndexA(i, k) < |m.a| && 0 <= m.IndexB(j, k) < |m.b|
    ensures m.d.Some? ==> 0 <= (if m.repeating then 0 else i) * m.strideD + j < |m.d.value|
    ensures 0 <= i * m.strideC + j < lenC
  {
    if 0 <= k < m.dimK {
      if m.transA {
        InBoundsAt(|m.a|, m.strideA, m.dimK, m.dimI, k, i);
      } else {
        InBoundsAt(|m.a|, m.strideA, m.dimI, m.dimK, i, k);
      }
      if m.transB {
        InBoundsAt(|m.b|, m.strideB, m.dimJ, m.dimK, j, k);
      } else {
        InBoundsAt(|m.b|, m.strideB, m.dimK, m.dimJ, k, j);
      }
    }
    if m.d.Some? {
      InBoundsAt(|m.d.value|, m.strideD, if m.repeating then 1 else m.dimI, m.dimJ, if m.repeating then 0 else i, j);
    }
    InBoundsAt(lenC, m.strideC, m.dimI, m.dimJ, i, j);
  }

  predicate Earlier(i: int, j: int, i': int, j': int) { i' < i || (i' == i && j' < j) }

  predicate ResultAt(m: Args, c: seq<int>, i: int, j: int) {
    Machine.At(c, i * m.strideC + j) == m.Result(i, j)
  }

  /** The elements of a set of positions hold their results; everything else is as before. */
  ghost predicate Written(m: Args, before: seq<int>, c: seq<int>, done: (int, int) -> bool) {
    && |c| == |before|
    && (forall i, j :: 0 <= i < m.dimI && 0 <= j < m.dimJ && done(i, j) ==> ResultAt(m, c, i, j))
    && (forall x :: 0 <= x < |c| && !Machine.Touches(x, 0, m.strideC, m.dimI, m.dimJ) ==> c[x] == before[x])
  }

  lemma WriteOne(m: Args, before: seq<int>, c: seq<int>, done: (int, int) -> bool, i: int, j: int,
                 done': (int, int) -> bool)
    requires m.Valid(|before|) && 0 <= i < m.dimI && 0 <= j < m.dimJ && Written(m, before, c, done)
    requires 0 <= i * m.strideC + j < |c|
    requires forall i', j' :: 0 <= i' < m.dimI && 0 <= j' < m.dimJ && done'(i', j') ==>
               done(i', j') || (i' == i && j' == j)
    ensures Written(m, before, c[i * m.strideC + j := m.Result(i, j)], done')
  {
    var x := i * m.strideC + j;
    var c' := c[x := m.Result(i, j)];
    DivModUnique(x, m.strideC, i, j);
    forall i', j' | 0 <= i' < m.dimI && 0 <= j' < m.dimJ && done'(i', j')
      ensures ResultAt(m, c', i', j')
    {
      if i' == i && j' == j {
      } else {
        assert ResultAt(m, c, i', j');
        if i' * m.strideC + j' == x {
          RowMajorInjective(m.strideC, i, j, i', j');
        }
      }
    }
  }

  method Store(m: Args, c: array<int>, i: nat, j: nat, v: int,
               ghost before: seq<int>, ghost done: (int, int) -> bool, ghost done': (int, int) -> bool)
    requires m.Valid(|before|) && i < m.dimI && j < m.dimJ && v == m.Sum(i, j, m.dimK)
    requires Written(m, before, c[..], done)
    requires forall i', j' :: 0 <= i' < m.dimI && 0 <= j' < m.dimJ && done'(i', j') ==>
               done(i', j') || (i' == i && j' == j)
    modifies c
    ensures Written(m, before, c[..], done')
  {
    ReadsInBounds(m, |before|, i, j, 0);
    WriteOne(m, before, c[..], done, i, j, done');
    ghost var s := c[..];
    var x := i * m.strideC + j;
    c[x] := ScaleAndSat(v, m.act, m.scale);
    assert c[..] == s[x := m.Result(i, j)];
  }

  method Element(m: Args, i: nat, j: nat, ghost lenC: nat) returns (sum: int)
    requires m.Valid(lenC) && i < m.dimI && j < m.dimJ
    ensures sum == m.Sum(i, j, m.dimK)
  {
    ReadsInBounds(m, lenC, i, j, 0);
    var biasRow := if m.repeating then 0 else i;
    sum := if m.d.None? then 0 else m.d.value[biasRow * m.strideD + j];
    for k := 0 to m.dimK
      invariant sum == m.Sum(i, j, k)
    {
      ReadsInBounds(m, lenC, i, j, k);
      sum := sum + MvinScale(m.a[m.IndexA(i, k)], m.scaleA) * MvinScale(m.b[m.IndexB(j, k)], m.scaleB);
    }
  }

  method General(m: Args, c: array<int>)
    requires m.Valid(c.Length)
    modifies c
    ensures Written(m, old(c[..]), c[..], (i, j) => true)
  {
    ghost var before := c[..];
    for i := 0 to m.dimI
      invariant Written(m, before, c[..], (i', j') => Earlier(i, 0, i', j'))
    {
      for j := 0 to m.dimJ
        invariant Written(m, before, c[..], (i', j') => Earlier(i, j, i', j'))
      {
        var sum := Element(m, i, j, c.Length);
        Store(m, c, i, j, sum, before, (i', j') => Earlier(i, j, i', j'), (i', j') => Earlier(i, j + 1, i', j'));
      }
    }
  }

  ghost predicate BlockUpto(m: Args, result: array2<int>, i: int, j: int, n: nat)
    reads result
  {
    && result.Length0 == 4 && result.Length1 == 4
    && forall ii, jj :: 0 <= ii < 4 && 0 <= jj < 4 ==> result[ii, jj] == m.Sum(i + ii, j + jj, n)
  }

  /** The sixteen statements of the unrolled k-loop body. */
  method AddTerms(m: Args, result: array2<int>, i: nat, j: nat, k: nat, ghost lenC: nat)
    requires m.Valid(lenC) && !m.transA && !m.transB && i + 4 <= m.dimI && j + 4 <= m.dimJ && k < m.dimK
    requires BlockUpto(m, result, i, j, k)
    modifies result
    ensures BlockUpto(m, result, i, j, k + 1)
  {
    for ii := 0 to 4
      invariant forall ii', jj :: 0 <= ii' < 4 && 0 <= jj < 4 ==>
                  result[ii', jj] == m.Sum(i + ii', j + jj, if ii' < ii then k + 1 else k)
    {
      for jj := 0 to 4
        invariant forall ii', jj' :: 0 <= ii' < 4 && 0 <= jj' < 4 ==>
                    result[ii', jj'] == m.Sum(i + ii', j + jj', if ii' < ii || (ii' == ii && jj' < jj) then k + 1
                                              else k)
      {
        ReadsInBounds(m, lenC, i + ii, j + jj, k);
        result[ii, jj] := result[ii, jj]
          + MvinScale(m.a[m.IndexA(i + ii, k)], m.scaleA) * MvinScale(m.b[m.IndexB(j + jj, k)], m.scaleB);
      }
    }
  }

  /** One 4x4 block of results, accumulated together over k. */
  method Block(m: Args, i: nat, j: nat, ghost lenC: nat) returns (result: array2<int>)
    requires m.Valid(lenC) && !m.transA && !m.transB && i + 4 <= m.dimI && j + 4 <= m.dimJ
    ensures fresh(result) && BlockUpto(m, result, i, j, m.dimK)
  {
    result := new int[4, 4];
    for ii := 0 to 4
      invariant forall ii', jj :: 0 <= ii' < ii && 0 <= jj < 4 ==> result[ii', jj] == m.Sum(i + ii', j + jj, 0)
    {
      for jj := 0 to 4
        invariant forall ii', jj' :: 0 <= ii' <= ii && 0 <= jj' < 4 && (ii' < ii || jj' < jj) ==>
                    result[ii', jj'] == m.Sum(i + ii', j + jj', 0)
      {
        var biasRow := if m.repeating then 0 else i + ii;
        ReadsInBounds(m, lenC, i + ii, j + jj, 0);
        result[ii, jj] := if m.d.None? then 0 else m.d.value[biasRow * m.strideD + (j + jj)];
      }
    }
    for k := 0 to m.dimK
      invariant BlockUpto(m, result, i, j, k)
    {
      AddTerms(m, result, i, j, k, lenC);
    }
  }

  predicate EarlierBlock(i: int, j: int, i': int, j': int) { i' < i || (i' < i + 4 && j' < j) }

  /** Positions stored before store (ii, jj) of the block at (i, j). */
  predicate EarlierStore(i: int, j: int, ii: int, jj: int, i': int, j': int) {
    || EarlierBlock(i, j, i', j')
    || (i <= i' && j <= j' < j + 4 && (i' < i + ii || (i' == i + ii && j' < j + jj)))
  }

  /** The sixteen stores of a block. */
  method StoreBlock(m: Args, c: array<int>, i: nat, j: nat, result: array2<int>, ghost before: seq<int>)
    requires m.Valid(|before|) && i + 4 <= m.dimI && j + 4 <= m.dimJ && BlockUpto(m, result, i, j, m.dimK)
    requires BlocksWritten(m, before, c[..], i, j)
    modifies c
    ensures BlocksWritten(m, before, c[..], i, j + 4)
  {
    for ii := 0 to 4
      invariant BlockUpto(m, result, i, j, m.dimK)
      invariant Written(m, before, c[..], (i', j') => EarlierStore(i, j, ii, 0, i', j'))
    {
      for jj := 0 to 4
        invariant BlockUpto(m, result, i, j, m.dimK)
        invariant Written(m, before, c[..], (i', j') => EarlierStore(i, j, ii, jj, i', j'))
      {
        Store(m, c, i + ii, j + jj, result[ii, jj], before,
              (i', j') => EarlierStore(i, j, ii, jj, i', j'), (i', j') => EarlierStore(i, j, ii, jj + 1, i', j'));
      }
    }
  }

  /** All blocks before block (i, j) are written. */
  ghost predicate BlocksWritten(m: Args, before: seq<int>, c: seq<int>, i: int, j: int) {
    Written(m, before, c, (i', j') => EarlierBlock(i, j, i', j'))
  }

  lemma NextBlockRow(m: Args, before: seq<int>, c: seq<int>, i: int, j: int)
    requires m.dimJ <= j && BlocksWritten(m, before, c, i, j)
    ensures BlocksWritten(m, before, c, i + 4, 0)
  {}

  lemma AllBlocks(m: Args, before: seq<int>, c: seq<int>, i: int)
    requires m.dimI <= i && BlocksWritten(m, before, c, i, 0)
    ensures Written(m, before, c, (i', j') => true)
  {}

  method Blocked(m: Args, c: array<int>)
    requires m.Valid(c.Length) && !m.transA && !m.transB && m.dimI % 4 == 0 && m.dimJ % 4 == 0
    modifies c
    ensures Written(m, old(c[..]), c[..], (i, j) => true)
  {
    ghost var before := c[..];
    var i := 0;
    while i < m.dimI
      invariant 0 <= i <= m.dimI && i % 4 == 0
      invariant BlocksWritten(m, before, c[..], i, 0)
    {
      BlockRow(m, c, i, before);
      i := i + 4;
    }
    AllBlocks(m, before, c[..], i);
  }

  /** The j loop. */
  method BlockRow(m: Args, c: array<int>, i: nat, ghost before: seq<int>)
    requires m.Valid(|before|) && !m.transA && !m.transB && m.dimJ % 4 == 0 && i + 4 <= m.dimI
    requires |before| == c.Length && BlocksWritten(m, before, c[..], i, 0)
    modifies c
    ensures BlocksWritten(m, before, c[..], i + 4, 0)
  {
    var j := 0;
    while j < m.dimJ
      invariant 0 <= j <= m.dimJ && j % 4 == 0
      invariant BlocksWritten(m, before, c[..], i, j)
    {
      var result := Block(m, i, j, c.Length);
      StoreBlock(m, c, i, j, result, before);
      j := j + 4;
    }
    NextBlockRow(m, before, c[..], i, j);
  }

  method Matmul(m: Args, c: array<int>)
    requires m.Valid(c.Length)
    modifies c
    ensures Written(m, old(c[..]), c[..], (i, j) => true)
  {
    if !m.transA && !m.transB && m.dimI % 4 == 0 && m.dimJ % 4 == 0 {
      Blocked(m, c);
    } else {
      General(m, c);
    }
  }

  // ---- the result, written out ----

  /** y is v rounded to nearest, ties to even, and limited to 8 bits. */
  ghost predicate IsRounded(v: real, y: int) {
    forall r :: NearestEven(v, r) ==> y == if r > 127 then 127 else if r < -128 then -128 else r
  }

  ghost predicate Scaled(e: int, scale: real, y: int) { IsRounded(e as real * scale, y) }

  /** Step k of the textbook loop for element (i, j): x and w are the scaled operands, p the partial sums. A is
      read by rows or, transposed, by columns, B by columns or, transposed, by rows. */
  ghost predicate TextbookStep(m: Args, i: int, j: int, x: seq<int>, w: seq<int>, p: seq<int>, k: int)
    requires |x| == |w| == m.dimK && |p| == m.dimK + 1 && 0 <= k < m.dimK
  {
    var atA, atB := if m.transA then k * m.strideA + i else i * m.strideA + k,
                    if m.transB then j * m.strideB + k else k * m.strideB + j;
    && Scaled(Machine.At(m.a, atA), m.scaleA, x[k])
    && Scaled(Machine.At(m.b, atB), m.scaleB, w[k])
    && p[k + 1] == p[k] + x[k] * w[k]
  }

  /** The whole loop; it starts from 0, from row 0 of D if the bias repeats, or from row i. */
  ghost predicate TextbookLoop(m: Args, i: int, j: int, x: seq<int>, w: seq<int>, p: seq<int>) {
    && |x| == |w| == m.dimK && |p| == m.dimK + 1
    && (m.d.None? ==> p[0] == 0)
    && (m.d.Some? ==> p[0] == Machine.At(m.d.value, if m.repeating then j else i * m.strideD + j))
    && forall k :: 0 <= k < m.dimK ==> TextbookStep(m, i, j, x, w, p, k)
  }

  lemma RoundedIs(e: int, scale: real, y: int)
    requires Scaled(e, scale, y)
    ensures y == MvinScale(e, scale)
  {
    var r := RoundNearEven(e as real * scale);
    RoundNearEvenIsNearest(e as real * scale);
    ScalesRound(e, scale, r);
  }

  lemma {:induction false} TextbookSum(m: Args, i: int, j: int, x: seq<int>, w: seq<int>, p: seq<int>, n: nat)
    requires TextbookLoop(m, i, j, x, w, p) && n <= m.dimK
    ensures p[n] == m.Sum(i, j, n)
  {
    if n != 0 {
      TextbookSum(m, i, j, x, w, p, n - 1);
      assert TextbookStep(m, i, j, x, w, p, n - 1);
      RoundedIs(Machine.At(m.a, m.IndexA(i, n - 1)), m.scaleA, x[n - 1]);
      RoundedIs(Machine.At(m.b, m.IndexB(j, n - 1)), m.scaleB, w[n - 1]);
    }
  }

  lemma ResultRounds(m: Args, c: seq<int>, i: int, j: int, sum: int, r: int)
    requires ResultAt(m, c, i, j) && sum == m.Sum(i, j, m.dimK) && NearestEven(sum as real * m.scale, r)
    ensures Machine.At(c, i * m.strideC + j)
         == if r > 127 then 127 else if m.act == Relu && r < 0 then 0 else if r < -128 then -128 else r
  {
    ScaleAndSatRounds(sum, m.act, m.scale, r);
  }

  lemma WrittenAt(m: Args, before: seq<int>, c: seq<int>, i: int, j: int)
    requires Written(m, before, c, (i', j') => true) && 0 <= i < m.dimI && 0 <= j < m.dimJ
    ensures ResultAt(m, c, i, j)
  {}

  /** What `Matmul` leaves in C is the sum of the textbook loop times the scale, rounded to nearest, ties to
      even, limited to 8 bits and, for RELU, below by 0. */
  lemma MatmulWrittenOut(m: Args, before: seq<int>, c: seq<int>, i: int, j: int, x: seq<int>, w: seq<int>,
                         p: seq<int>, sum: int, r: int)
    requires Written(m, before, c, (i', j') => true) && 0 <= i < m.dimI && 0 <= j < m.dimJ
    requires TextbookLoop(m, i, j, x, w, p) && sum == p[m.dimK] && NearestEven(sum as real * m.scale, r)
    ensures Machine.At(c, i * m.strideC + j)
         == if r > 127 then 127 else if m.act == Relu && r < 0 then 0 else if r < -128 then -128 else r
  {
    WrittenAt(m, before, c, i, j);
    TextbookSum(m, i, j, x, w, p, m.dimK);
    ResultRounds(m, c, i, j, sum, r);
  }

  /** With 8-bit operands, at most 131071 terms and a bias of at most 16383 in absolute value,
      no partial sum leaves the 32-bit accumulator. */
  lemma {:induction false} SumFitsInt32(m: Args, i: int, j: int, n: nat)
    requires n <= m.dimK <= 131071 && -16383 <= m.Bias(i, j) <= 16383
    ensures -0x8000_0000 <= m.Sum(i, j, n) <= 0x7FFF_FFFF
    ensures -16383 - n * 16384 <= m.Sum(i, j, n) <= 16383 + n * 16384
  {
    if n != 0 {
      SumFitsInt32(m, i, j, n - 1);
      ProductOfElems(MvinScale(Machine.At(m.a, m.IndexA(i, n - 1)), m.scaleA),
                     MvinScale(Machine.At(m.b, m.IndexB(j, n - 1)), m.scaleB));
    }
  }

  lemma ProductOfElems(x: int, y: int)
    requires IsElem(x) && IsElem(y)
    ensures -16384 <= x * y <= 16384
  {
    MulMono(x, 127, y); MulMono(-128, x, y);
    MulMono(x, 127, -y); MulMono(-128, x, -y);
  }

  /** The bounds are tight: one more unit of bias overflows. */
  lemma {:induction false} SumReachesBound(m: Args, i: int, j: int, n: nat)
    requires forall k :: 0 <= k < n ==> m.Term(i, j, k) == 16384
    ensures m.Sum(i, j, n) == m.Bias(i, j) + n * 16384
    ensures n == 131071 && m.Bias(i, j) == 16384 ==> m.Sum(i, j, n) == 0x8000_0000
  {
    if n != 0 {
      SumReachesBound(m, i, j, n - 1);
    }
  }
}
