/** The loops of `sp_tiled_matmul_ws` over the machine. */
module TiledMatmulLoop {
  import opened Params
  import opened Machine
  import opened TiledMatmul

  /** Before step (k, j, i): the A blocks moved in so far are intact in the scratchpad ... */
  ghost predicate OperandsA(job: Job, s: State, k: int, j: int, i: int)
    requires job.Shape()
  {
    forall i', k' :: 0 <= i' < job.ti && 0 <= k' < job.tk && job.ADone(k, j, i, i', k') ==> job.LoadedA(s, i', k')
  }

  /** ... and so are the B blocks ... */
  ghost predicate OperandsB(job: Job, s: State, k: int, j: int, i: int)
    requires job.Shape()
  {
    forall j', k' :: 0 <= j' < job.tj && 0 <= k' < job.tk && job.BDone(k, j, i, j', k') ==> job.LoadedB(s, j', k')
  }

  /** ... every accumulator block holds exactly the products of the steps taken ... */
  ghost predicate Sums(job: Job, s0: State, s: State, k: int, j: int, i: int)
    requires job.Shape() && 0 <= k <= job.tk
  {
    forall i', j' :: 0 <= i' < job.ti && 0 <= j' < job.tj ==> SumAt(job, s0, s, k, j, i, i', j')
  }

  ghost predicate SumAt(job: Job, s0: State, s: State, k: int, j: int, i: int, i': int, j': int)
    requires job.Shape() && 0 <= k <= job.tk
  { job.Summed(s0, s, i', j', Depth(job, k, j, i, i', j')) }

  function Depth(job: Job, k: int, j: int, i: int, i': int, j': int): nat
    requires job.Shape() && 0 <= k <= job.tk
  {
    if k < job.tk then job.DoneDepth(k, j, i, i', j') else job.Depth()
  }

  /** ... and the result blocks whose last product is in have been stored once, the others not. */
  ghost predicate Results(job: Job, s0: State, s: State, k: int, j: int, i: int)
    requires job.Shape()
  {
    if job.out.None? then s.c == s0.c && s.stores == s0.stores else
      && OutsideUntouched(job, s0, s)
      && forall i', j' :: 0 <= i' < job.ti && 0 <= j' < job.tj ==> ResultAt(job, s0, s, k, j, i, i', j')
  }

  ghost predicate ResultAt(job: Job, s0: State, s: State, k: int, j: int, i: int, i': int, j': int)
    requires job.Shape() && job.out.Some?
  {
    if job.CDone(k, j, i, i', j') then Stored(job, s0, s, i', j') else Untouched(job, s0, s, i', j')
  }

  function GroupSize(job: Job, k: int): int { Min(job.BlocksK(), job.tk - k) }

  function AfterA(job: Job, s: State, k: int, j: int, i: int): State
    requires job.Shape()
  { if j == 0 && k % job.BlocksK() == 0 then MovedA(job, s, i, k, GroupSize(job, k)) else s }

  function AfterB(job: Job, s: State, k: int, j: int, i: int): State
    requires job.Shape()
  { if LoadsB(job, k, i) then MovedB(job, s, j, k, GroupSize(job, k)) else s }

  lemma GroupStart(k: int, size: int)
    requires 0 <= k && 0 < size
    ensures 0 <= Job.Base(k, size) <= k < Job.Base(k, size) + size
    ensures k % size == 0 <==> k == Job.Base(k, size)
    ensures (k + 1) % size == 0 ==> Job.Base(k + 1, size) == k + 1 == Job.Base(k, size) + size
    ensures (k + 1) % size != 0 ==> Job.Base(k + 1, size) == Job.Base(k, size)
  {
    assert k == k / size * size + k % size;
    if k % size + 1 == size {
      DivModUnique(k + 1, size, k / size + 1, 0);
    } else {
      DivModUnique(k + 1, size, k / size, k % size + 1);
    }
  }

  /** The move-in of A keeps the invariant on A one step further, and provides block (i, k). */
  lemma StepAOnA(job: Job, s: State, k: int, j: int, i: int)
    requires job.Shape() && 0 <= k < job.tk && 0 <= j < job.tj && 0 <= i < job.ti && OperandsA(job, s, k, j, i)
    ensures OperandsA(job, AfterA(job, s, k, j, i), k, j, i + 1)
    ensures job.LoadedA(AfterA(job, s, k, j, i), i, k)
  {
    var s', n := AfterA(job, s, k, j, i), GroupSize(job, k);
    GroupStart(k, job.BlocksK());
    forall i', k' | 0 <= i' < job.ti && 0 <= k' < job.tk && job.ADone(k, j, i + 1, i', k')
      ensures job.LoadedA(s', i', k')
    {
      if j == 0 && k % job.BlocksK() == 0 {
        if i' == i && k <= k' < k + n {
          MovedAHit(job, s, i, k, n, k');
        } else {
          MovedASame(job, s, i, k, n);
          RewriteAKeepsA(job, s, s', i, k, n, i', k');
        }
      }
    }
    assert job.ADone(k, j, i + 1, i, k);
  }

  lemma StepAOnB(job: Job, s: State, k: int, j: int, i: int)
    requires job.Shape() && job.Fits() && 0 <= k < job.tk && 0 <= j < job.tj && 0 <= i < job.ti &&
             OperandsB(job, s, k, j, i)
    ensures OperandsB(job, AfterA(job, s, k, j, i), k, j, i)
  {
    var s', n := AfterA(job, s, k, j, i), GroupSize(job, k);
    forall j', k' | 0 <= j' < job.tj && 0 <= k' < job.tk && job.BDone(k, j, i, j', k')
      ensures job.LoadedB(s', j', k')
    {
      if j == 0 && k % job.BlocksK() == 0 {
        MovedASame(job, s, i, k, n);
        RewriteAKeepsB(job, s, s', i, k, n, j', k');
      }
    }
  }

  lemma StepBOnB(job: Job, s: State, k: int, j: int, i: int)
    requires job.Shape() && 0 <= k < job.tk && 0 <= j < job.tj && 0 <= i < job.ti && OperandsB(job, s, k, j, i)
    ensures OperandsB(job, AfterB(job, s, k, j, i), k, j, i + 1)
    ensures job.LoadedB(AfterB(job, s, k, j, i), j, k)
  {
    var s', n := AfterB(job, s, k, j, i), GroupSize(job, k);
    GroupStart(k, job.BlocksK());
    forall j', k' | 0 <= j' < job.tj && 0 <= k' < job.tk && job.BDone(k, j, i + 1, j', k')
      ensures job.LoadedB(s', j', k')
    {
      if i == 0 && k % job.BlocksK() == 0 {
        if j' == j && k <= k' < k + n {
          MovedBHit(job, s, j, k, n, k');
        } else {
          MovedBSame(job, s, j, k, n);
          RewriteBKeepsB(job, s, s', j, k, n, j', k');
        }
      }
    }
    assert job.BDone(k, j, i + 1, j, k);
  }

  lemma StepBOnA(job: Job, s: State, k: int, j: int, i: int)
    requires job.Shape() && job.Fits() && 0 <= k < job.tk && 0 <= j < job.tj && 0 <= i < job.ti &&
             OperandsA(job, s, k, j, i + 1)
    ensures OperandsA(job, AfterB(job, s, k, j, i), k, j, i + 1)
  {
    var s', n := AfterB(job, s, k, j, i), GroupSize(job, k);
    forall i', k' | 0 <= i' < job.ti && 0 <= k' < job.tk && job.ADone(k, j, i + 1, i', k')
      ensures job.LoadedA(s', i', k')
    {
      if i == 0 && k % job.BlocksK() == 0 {
        MovedBSame(job, s, j, k, n);
        RewriteBKeepsA(job, s, s', j, k, n, i', k');
      }
    }
  }

  /** Commands that leave the scratchpad alone keep the operands, and likewise for the others. */
  lemma SameSpad(job: Job, s: State, s': State, k: int, j: int, i: int)
    requires job.Shape() && s'.spad == s.spad
    ensures OperandsA(job, s, k, j, i) ==> OperandsA(job, s', k, j, i)
    ensures OperandsB(job, s, k, j, i) ==> OperandsB(job, s', k, j, i)
  {
    forall i', k' | job.LoadedA(s, i', k') ensures job.LoadedA(s', i', k') {
      KeepA(job, s, s', i', k', job.ASp(i', k'), job.ASp(i', k'));
    }
    forall j', k' | job.LoadedB(s, j', k') ensures job.LoadedB(s', j', k') {
      KeepB(job, s, s', j', k', job.BSp(j', k'), job.BSp(j', k'));
    }
  }

  lemma SameAcc(job: Job, s0: State, s: State, s': State, k: int, j: int, i: int)
    requires job.Shape() && 0 <= k <= job.tk && s'.acc == s.acc && Sums(job, s0, s, k, j, i)
    ensures Sums(job, s0, s', k, j, i)
  {
    forall i', j' | 0 <= i' < job.ti && 0 <= j' < job.tj
      ensures SumAt(job, s0, s', k, j, i, i', j')
    {
      assert SumAt(job, s0, s, k, j, i, i', j');
      var n := Depth(job, k, j, i, i', j');
      forall r, c | 0 <= r < job.RowsI(i') && 0 <= c < job.ColsJ(j')
        ensures job.CellC(s0, s', i', j', r, c, n)
      {
        assert job.CellC(s0, s, i', j', r, c, n);
      }
    }
  }

  lemma SameC(job: Job, s0: State, s: State, s': State, k: int, j: int, i: int)
    requires job.Shape() && s'.c == s.c && s'.stores == s.stores && Results(job, s0, s, k, j, i)
    ensures Results(job, s0, s', k, j, i)
  {
    if job.out.Some? {
      forall i', j' | 0 <= i' < job.ti && 0 <= j' < job.tj
        ensures ResultAt(job, s0, s', k, j, i, i', j')
      {
        assert ResultAt(job, s0, s, k, j, i, i', j');
        forall r, c | 0 <= r < job.RowsI(i') && 0 <= c < job.ColsJ(j')
          ensures CellStored(job, s0, s, i', j', r, c) ==> CellStored(job, s0, s', i', j', r, c)
          ensures CellUntouched(job, s0, s, i', j', r, c) ==> CellUntouched(job, s0, s', i', j', r, c)
        {}
      }
    }
  }

  function AfterWeights(job: Job, s: State, k: int, j: int, i: int): State
    requires job.Shape()
  { if i == 0 then Flip(Preload(s, job.mem.settings, job.ColsJ(j), job.DepthK(k), job.BSp(j, k))) else s }

  /** After the preload and flip of the first step of a (k, j) pass, and for the rest of the pass,
      the active weight tile is B block (j, k). */
  lemma StepWeights(job: Job, s: State, k: int, j: int, i: int)
    requires job.Shape() && 0 <= i && job.LoadedB(s, j, k) && (0 < i ==> job.ActiveB(s, j, k))
    ensures job.ActiveB(AfterWeights(job, s, k, j, i), j, k)
    ensures var w := AfterWeights(job, s, k, j, i);
            w.spad == s.spad && w.acc == s.acc && w.c == s.c && w.stores == s.stores
  {
    if i == 0 {
      Preloaded(s, job.ColsJ(j), job.DepthK(k), job.BSp(j, k));
      ActiveFrom(job, s, AfterWeights(job, s, k, j, i), j, k);
    }
  }

  /** The active weight tile is the n x k block of the scratchpad at row sp. */
  ghost predicate WeightsFrom(s: State, w: State, n: int, k: int, sp: int) {
    forall r, c :: 0 <= r < n && 0 <= c < k ==> w.active(r, c) == s.spad(sp + r, c)
  }

  lemma Preloaded(s: State, n: int, k: int, sp: int)
    ensures WeightsFrom(s, Flip(Preload(s, MATMUL, n, k, sp)), n, k, sp)
  {}

  lemma ActiveFrom(job: Job, s: State, w: State, j: int, k: int)
    requires job.LoadedB(s, j, k) && WeightsFrom(s, w, job.ColsJ(j), job.DepthK(k), job.BSp(j, k))
    ensures job.ActiveB(w, j, k)
  {
    forall r, c | 0 <= r < job.ColsJ(j) && 0 <= c < job.DepthK(k)
      ensures job.CellActive(w, j, k, r, c)
    {
      assert job.CellB(s, j, k, r, c);
    }
  }

  /** The multiply of step (k, j, i) adds each of its products once, to one block only. */
  lemma StepMultiply(job: Job, s0: State, s: State, k: int, j: int, i: int, address: int)
    requires job.Shape() && 0 <= i < job.ti && 0 <= j < job.tj && 0 <= k < job.tk
    requires job.LoadedA(s, i, k) && job.ActiveB(s, j, k)
    requires AccRow(address) == job.CRow(i, j) && Accumulates(address)
    requires Sums(job, s0, s, k, j, i)
    ensures Sums(job, s0, Multiplied(job, s, k, j, i, address), k, j, i + 1)
  {
    var s' := Multiplied(job, s, k, j, i, address);
    var next := i + 1;
    assert SumAt(job, s0, s, k, j, i, i, j);
    MultiplyBlock(job, s0, s, k, j, i, address);
    forall i', j' | 0 <= i' < job.ti && 0 <= j' < job.tj
      ensures SumAt(job, s0, s', k, j, next, i', j')
    {
      assert SumAt(job, s0, s, k, j, i, i', j');
    }
  }

  predicate MovesOut(job: Job, k: int, j: int)
    requires job.Shape()
  {
    && job.out.Some? && k == job.tk - 1
    && (j == job.tj - 1 || j % job.BlocksC() == job.BlocksC() - 1)
  }

  /** A group is the blocks between its first block and the next group. */
  lemma SameGroup(j: int, j': int, size: int)
    requires 0 <= j && 0 <= j' && 0 < size
    ensures Job.Base(j, size) <= j < Job.Base(j, size) + size && j % size == j - Job.Base(j, size)
    ensures Job.Base(j', size) == Job.Base(j, size) <==> Job.Base(j, size) <= j' < Job.Base(j, size) + size
  {
    GroupStart(j, size);
    GroupStart(j', size);
    assert j == j / size * size + j % size;
    if Job.Base(j, size) <= j' < Job.Base(j, size) + size {
      DivModUnique(j', size, j / size, j' - Job.Base(j, size));
    }
  }

  /** The last of n blocks of a group, by its position in the group or at the end. */
  lemma GroupLast(g: int, g': int, size: int, n: int, j: int, j': int)
    requires 0 < size && 0 <= j < n && 0 <= j' < n && g <= j < g + size && g' <= j' < g' + size
    requires (g' == g <==> g <= j' < g + size) && (g' == g <==> g' <= j < g' + size)
    ensures Min(n - 1, g' + size - 1) == j <==> (j == n - 1 || j - g == size - 1) && g <= j' <= j
    ensures Min(n - 1, g' + size - 1) >= j'
  {}

  lemma OutGroup(job: Job, j: int, j': int)
    requires job.Shape() && 0 <= j < job.tj && 0 <= j' < job.tj
    ensures job.LastOut(j') == j
        <==> (j == job.tj - 1 || j % job.BlocksC() == job.BlocksC() - 1) && Job.Base(j, job.BlocksC()) <= j' <= j
    ensures job.LastOut(j') >= j'
  {
    var size := job.BlocksC();
    SameGroup(j, j', size);
    SameGroup(j', j, size);
    GroupLast(Job.Base(j, size), Job.Base(j', size), size, job.tj, j, j');
  }

  function AfterOut(job: Job, s: State, k: int, j: int, i: int, address: int): State
    requires job.Shape()
  {
    var rj := Job.Base(j, job.BlocksC());
    if MovesOut(job, k, j) then MovedOut(job, s, i, rj, j + 1 - rj, address) else s
  }

  /** The move-out of step (k, j, i) stores each block of its group once, complete. */
  lemma StepOut(job: Job, s0: State, s: State, k: int, j: int, i: int, address: int)
    requires job.Shape() && (job.out.Some? ==> job.Cols() <= job.mem.strideC) && 0 <= i < job.ti && 0 <= j < job.tj &&
             0 <= k < job.tk
    requires AccRow(address) == job.CRow(i, Job.Base(j, job.BlocksC())) && ReadsFull(address) == job.full
    requires Sums(job, s0, s, k, j, i + 1) && Results(job, s0, s, k, j, i)
    ensures Results(job, s0, AfterOut(job, s, k, j, i, address), k, j, i + 1)
  {
    var s', rj, next := AfterOut(job, s, k, j, i, address), Job.Base(j, job.BlocksC()), i + 1;
    GroupStart(j, job.BlocksC());
    if job.out.Some? {
      forall i', j' | 0 <= i' < job.ti && 0 <= j' < job.tj
        ensures ResultAt(job, s0, s', k, j, next, i', j')
      {
        assert ResultAt(job, s0, s, k, j, i, i', j');
        OutGroup(job, j, j');
        if MovesOut(job, k, j) {
          StepOutAt(job, s0, s, k, j, i, address, i', j');
        }
      }
      if MovesOut(job, k, j) {
        MoveOutInside(job, s, i, rj, j + 1 - rj, address);
      }
    }
  }

  lemma StepOutAt(job: Job, s0: State, s: State, k: int, j: int, i: int, address: int, i': int, j': int)
    requires job.Shape() && (job.out.Some? ==> job.Cols() <= job.mem.strideC) && 0 <= i < job.ti && 0 <= j < job.tj &&
             0 <= k < job.tk && MovesOut(job, k, j)
    requires 0 <= i' < job.ti && 0 <= j' < job.tj
    requires AccRow(address) == job.CRow(i, Job.Base(j, job.BlocksC())) && ReadsFull(address) == job.full
    requires Sums(job, s0, s, k, j, i + 1) && ResultAt(job, s0, s, k, j, i, i', j')
    ensures ResultAt(job, s0, AfterOut(job, s, k, j, i, address), k, j, i + 1, i', j')
  {
    var rj, next := Job.Base(j, job.BlocksC()), i + 1;
    GroupStart(j, job.BlocksC());
    OutGroup(job, j, j');
    if i' == i && rj <= j' <= j {
      assert SumAt(job, s0, s, k, j, next, i', j');
      MoveOutStores(job, s0, s, i, rj, j + 1 - rj, address, j');
    } else {
      MoveOutKeeps(job, s0, s, i, rj, j + 1 - rj, address, i', j');
    }
  }

  // ---- from the end of one pass to the start of the next ----

  ghost predicate Inv(job: Job, s0: State, s: State, k: int, j: int, i: int)
    requires job.Shape() && 0 <= k <= job.tk
  {
    && OperandsA(job, s, k, j, i) && OperandsB(job, s, k, j, i)
    && (0 < i ==> job.ActiveB(s, j, k))
    && Sums(job, s0, s, k, j, i)
    && Results(job, s0, s, k, j, i)
  }

  lemma InvStart(job: Job, s: State)
    requires job.Shape()
    ensures Inv(job, s, s, 0, 0, 0)
  {
    forall i', j' | 0 <= i' < job.ti && 0 <= j' < job.tj
      ensures SumAt(job, s, s, 0, 0, 0, i', j')
      ensures job.out.Some? ==> ResultAt(job, s, s, 0, 0, 0, i', j')
    {
      OutGroup(job, 0, j');
      forall r, c | 0 <= r < job.RowsI(i') && 0 <= c < job.ColsJ(j')
        ensures job.CellC(s, s, i', j', r, c, 0)
      {}
    }
  }

  lemma InvNextJ(job: Job, s0: State, s: State, k: int, j: int)
    requires job.Shape() && 0 <= k < job.tk && 0 <= j < job.tj && Inv(job, s0, s, k, j, job.ti)
    ensures Inv(job, s0, s, k, j + 1, 0)
  {
    var next := j + 1;
    assert OperandsA(job, s, k, next, 0);
    assert OperandsB(job, s, k, next, 0);
    forall i', j' | 0 <= i' < job.ti && 0 <= j' < job.tj
      ensures SumAt(job, s0, s, k, next, 0, i', j')
      ensures job.out.Some? ==> ResultAt(job, s0, s, k, next, 0, i', j')
    {
      assert job.out.Some? ==> ResultAt(job, s0, s, k, j, job.ti, i', j');
      assert SumAt(job, s0, s, k, j, job.ti, i', j');
    }
  }

  lemma OperandsNextK(job: Job, s: State, k: int)
    requires job.Shape() && 0 <= k < job.tk
    requires OperandsA(job, s, k, job.tj, 0) && OperandsB(job, s, k, job.tj, 0)
    ensures OperandsA(job, s, k + 1, 0, 0) && OperandsB(job, s, k + 1, 0, 0)
  {
    GroupStart(k, job.BlocksK());
    var next := k + 1;
    forall i', k' | 0 <= i' < job.ti && 0 <= k' < job.tk && job.ADone(next, 0, 0, i', k')
      ensures job.LoadedA(s, i', k')
    {
      assert job.ADone(k, job.tj, 0, i', k');
    }
    forall j', k' | 0 <= j' < job.tj && 0 <= k' < job.tk && job.BDone(next, 0, 0, j', k')
      ensures job.LoadedB(s, j', k')
    {
      assert job.BDone(k, job.tj, 0, j', k');
    }
  }

  lemma InvNextK(job: Job, s0: State, s: State, k: int)
    requires job.Shape() && 0 <= k < job.tk && Inv(job, s0, s, k, job.tj, 0)
    ensures Inv(job, s0, s, k + 1, 0, 0)
  {
    OperandsNextK(job, s, k);
    var next := k + 1;
    forall i', j' | 0 <= i' < job.ti && 0 <= j' < job.tj
      ensures SumAt(job, s0, s, next, 0, 0, i', j')
      ensures job.out.Some? ==> ResultAt(job, s0, s, next, 0, 0, i', j')
    {
      assert job.out.Some? ==> ResultAt(job, s0, s, k, job.tj, 0, i', j');
      assert SumAt(job, s0, s, k, job.tj, 0, i', j');
      OutGroup(job, 0, j');
    }
  }

  // ---- the bias ----

  predicate CellBias(job: Job, s: State, i: int, j: int, r: int, c: int)
    requires job.bias.Some?
  {
    s.acc(job.CRow(i, j) + r, c) == At(job.mem.d, job.bias.value + (Dims(i) + r) * job.mem.strideD + (Dims(j) + c))
  }

  ghost predicate BiasAt(job: Job, s: State, i: int, j: int)
    requires job.bias.Some?
  {
    forall r, c :: 0 <= r < job.RowsI(i) && 0 <= c < job.ColsJ(j) ==> CellBias(job, s, i, j, r, c)
  }

  /** Where the bias of block (i, j) lies. */
  function BiasBase(job: Job, i: int, j: int): int
    requires job.bias.Some?
  { job.bias.value + Dims((if job.repeating then 0 else i) * job.mem.strideD + j) }

  lemma SameBiasRow(job: Job, i: int, j: int)
    requires job.bias.Some? && (job.repeating ==> job.mem.strideD == 0)
    ensures BiasBase(job, i, j) == job.bias.value + Dims(i * job.mem.strideD + j)
  {}

  function BiasMoved(job: Job, s: State, i: int, j: int, blocks: int): State
    requires job.bias.Some?
  {
    MvinAcc(s, job.mem.d, BiasBase(job, i, j), job.mem.strideD, ACC_BIT + job.CRow(i, j),
            BlockCols(blocks, j + blocks >= job.tj, job.padJ), job.RowsI(i))
  }

  lemma MvinAccHit(s: State, src: seq<int>, base: int, stride: int, sp: int, cols: int, rows: int, t: int, r: int,
                   c: int)
    requires 0 <= t && 0 <= r < rows <= DIM && 0 <= c < DIM && Dims(t) + c < cols && 0 <= sp < FULL_BIT
    ensures MvinAcc(s, src, base, stride, ACC_BIT + sp, cols, rows).acc(sp + Dims(t) + r, c)
         == At(src, base + r * stride + (Dims(t) + c))
  {
    AccAddress(sp, false);
    FilledAt(sp, cols, rows, t, r, c);
    MovedAt(src, base, stride, sp, t, r, c);
  }

  lemma MvinAccMiss(s: State, src: seq<int>, base: int, stride: int, sp: int, cols: int, rows: int, row: int, c: int)
    requires 0 <= sp < FULL_BIT && !Filled(row, c, sp, rows, cols)
    ensures MvinAcc(s, src, base, stride, ACC_BIT + sp, cols, rows).acc(row, c) == s.acc(row, c)
  {
    AccAddress(sp, false);
  }

  lemma BiasMovedHit(job: Job, s: State, i: int, j: int, blocks: int, j': int)
    requires job.Shape() && job.Fits() && (job.repeating ==> job.mem.strideD == 0)
    requires job.bias.Some? && 0 <= i < job.ti && 0 <= j <= j' < j + blocks <= job.tj
    ensures BiasAt(job, BiasMoved(job, s, i, j, blocks), i, j')
  {
    forall r, c | 0 <= r < job.RowsI(i) && 0 <= c < job.ColsJ(j')
      ensures CellBias(job, BiasMoved(job, s, i, j, blocks), i, j', r, c)
    {
      BiasMovedCell(job, s, i, j, blocks, j', r, c);
    }
  }

  lemma BiasMovedCell(job: Job, s: State, i: int, j: int, blocks: int, j': int, r: int, c: int)
    requires job.Shape() && job.Fits() && (job.repeating ==> job.mem.strideD == 0)
    requires job.bias.Some? && 0 <= i < job.ti && 0 <= j <= j' < j + blocks <= job.tj
    requires 0 <= r < job.RowsI(i) && 0 <= c < job.ColsJ(j')
    ensures CellBias(job, BiasMoved(job, s, i, j, blocks), i, j', r, c)
  {
    BiasLands(job, s, i, j, blocks, j', r, c);
    BlockRun(job.tj, i, j, j');
    SameBiasRow(job, i, j);
    BlockIndex(i, j, j' - j, r, c, job.mem.strideD);
  }

  lemma BiasLands(job: Job, s: State, i: int, j: int, blocks: int, j': int, r: int, c: int)
    requires job.Shape() && job.Fits() && job.bias.Some? && 0 <= i < job.ti && 0 <= j <= j' < j + blocks <= job.tj
    requires 0 <= r < job.RowsI(i) && 0 <= c < job.ColsJ(j')
    ensures BiasMoved(job, s, i, j, blocks).acc(job.CRow(i, j) + Dims(j' - j) + r, c)
         == At(job.mem.d, BiasBase(job, i, j) + r * job.mem.strideD + (Dims(j' - j) + c))
  {
    var last := j + blocks >= job.tj;
    Regions(job, i, j, 0);
    ColsInside(blocks, last, job.padJ, j' - j, job.ColsJ(j'), c);
    MvinAccHit(s, job.mem.d, BiasBase(job, i, j), job.mem.strideD, job.CRow(i, j), BlockCols(blocks, last, job.padJ),
               job.RowsI(i), j' - j, r, c);
  }

  lemma BiasMovedKeeps(job: Job, s: State, i: int, j: int, blocks: int, i': int, j': int)
    requires job.Shape() && job.Fits() && job.bias.Some? && 0 <= i < job.ti && 0 <= j < j + blocks <= job.tj
    requires 0 <= j' < job.tj && (i' != i || j' < j || j + blocks <= j') && BiasAt(job, s, i', j')
    ensures BiasAt(job, BiasMoved(job, s, i, j, blocks), i', j')
  {
    forall r, c | 0 <= r < job.RowsI(i') && 0 <= c < job.ColsJ(j')
      ensures CellBias(job, BiasMoved(job, s, i, j, blocks), i', j', r, c)
    {
      assert CellBias(job, s, i', j', r, c);
      BiasMovedMiss(job, s, i, j, blocks, i', j', r, c);
    }
  }

  lemma BiasMovedMiss(job: Job, s: State, i: int, j: int, blocks: int, i': int, j': int, r: int, c: int)
    requires job.Shape() && job.Fits() && job.bias.Some? && 0 <= i < job.ti && 0 <= j < j + blocks <= job.tj
    requires 0 <= j' < job.tj && (i' != i || j' < j || j + blocks <= j') && 0 <= r < job.RowsI(i')
    ensures BiasMoved(job, s, i, j, blocks).acc(job.CRow(i', j') + r, c) == s.acc(job.CRow(i', j') + r, c)
  {
    var sp, rows, cols := job.CRow(i, j), job.RowsI(i), BlockCols(blocks, j + blocks >= job.tj, job.padJ);
    Regions(job, i, j, 0);
    BlocksApart(job.tj, i, j, blocks, i', j');
    if Filled(job.CRow(i', j') + r, c, sp, rows, cols) {
      FilledInside(job.CRow(i', j') + r, c, sp, rows, cols, blocks);
    }
    MvinAccMiss(s, job.mem.d, BiasBase(job, i, j), job.mem.strideD, sp, cols, rows, job.CRow(i', j') + r, c);
  }

  // ---- what a tile leaves alone in the accumulator ----

  /** Accumulator element (x, c) is an element of block (i, j) of the tile, or of some block. */
  predicate InCell(job: Job, x: int, c: int, i: int, j: int) {
    0 <= i < job.ti && 0 <= j < job.tj && 0 <= x - job.CRow(i, j) < job.RowsI(i) && 0 <= c < job.ColsJ(j)
  }

  ghost predicate InCells(job: Job, x: int, c: int) { exists i, j :: InCell(job, x, c, i, j) }

  /** Accumulator elements that are not elements of the tile are the same. */
  ghost predicate AccFrame(job: Job, s: State, s': State) {
    forall x, c :: !InCells(job, x, c) ==> s'.acc(x, c) == s.acc(x, c)
  }

  lemma MultiplyFrame(job: Job, s0: State, s: State, k: int, j: int, i: int, address: int)
    requires job.Shape() && 0 <= i < job.ti && 0 <= j < job.tj && 0 <= k < job.tk && AccRow(address) == job.CRow(i, j)
    requires AccFrame(job, s0, s)
    ensures AccFrame(job, s0, Multiplied(job, s, k, j, i, address))
  {
    var s' := Multiplied(job, s, k, j, i, address);
    forall x, c | !InCells(job, x, c) ensures s'.acc(x, c) == s0.acc(x, c) {
      assert !InCell(job, x, c, i, j);
    }
  }

  lemma BiasFrame(job: Job, s0: State, s: State, i: int, j: int, blocks: int)
    requires job.Shape() && job.Fits() && job.bias.Some? && 0 <= i < job.ti && 0 <= j < j + blocks <= job.tj
    requires AccFrame(job, s0, s)
    ensures AccFrame(job, s0, BiasMoved(job, s, i, j, blocks))
  {
    var sp, rows, cols := job.CRow(i, j), job.RowsI(i), BlockCols(blocks, j + blocks >= job.tj, job.padJ);
    Regions(job, i, j, 0);
    forall x, c | !InCells(job, x, c) ensures BiasMoved(job, s, i, j, blocks).acc(x, c) == s0.acc(x, c) {
      if Filled(x, c, sp, rows, cols) {
        FilledIsCell(job, i, j, blocks, x, c);
      }
      MvinAccMiss(s, job.mem.d, BiasBase(job, i, j), job.mem.strideD, sp, cols, rows, x, c);
    }
  }

  lemma FilledIsCell(job: Job, i: int, j: int, blocks: int, x: int, c: int)
    requires job.Shape() && 0 <= i < job.ti && 0 <= j < j + blocks <= job.tj
    requires Filled(x, c, job.CRow(i, j), job.RowsI(i), BlockCols(blocks, j + blocks >= job.tj, job.padJ))
    ensures InCells(job, x, c)
  {
    var t, r := (x - job.CRow(i, j)) / DIM, (x - job.CRow(i, j)) % DIM;
    FilledWhere(x - job.CRow(i, j), c, job.RowsI(i), blocks, j + blocks >= job.tj, job.padJ);
    BlockRun(job.tj, i, j, j + t);
    assert InCell(job, x, c, i, j + t);
  }

  /** A filled local element is element (r, c) of one of the blocks moved in, in its columns. */
  lemma FilledWhere(d: int, c: int, rows: int, blocks: int, last: bool, pad: int)
    requires 0 < blocks && 0 <= pad < DIM && Filled(d, c, 0, rows, BlockCols(blocks, last, pad))
    ensures 0 <= d / DIM < blocks && d == Dims(d / DIM) + d % DIM && 0 <= d % DIM < rows && 0 <= c < DIM
    ensures last && d / DIM == blocks - 1 ==> c < DIM - pad
  {
    var t := d / DIM;
    BlockOf(d);
    DimsMono(blocks, t);
    DimsMono(t, -1);
    DimsStep(blocks - 1);
    DimsStep(-1);
  }

  /** The bias of every block before block j of block row i is loaded. */
  ghost predicate BiasUpto(job: Job, s: State, i: int, j: int)
    requires job.bias.Some?
  {
    forall i', j' :: 0 <= i' <= i && 0 <= j' < job.tj && (i' < i || j' < j) ==> BiasAt(job, s, i', j')
  }

  /** One move-in of the bias. */
  lemma BiasStep(job: Job, s0: State, s: State, i: int, j: int, blocks: int)
    requires job.Shape() && job.Fits() && (job.repeating ==> job.mem.strideD == 0) && job.bias.Some? &&
             0 <= i < job.ti && 0 <= j < j + blocks <= job.tj
    requires BiasUpto(job, s, i, j) && AccFrame(job, s0, s)
    ensures BiasUpto(job, BiasMoved(job, s, i, j, blocks), i, j + blocks) &&
            AccFrame(job, s0, BiasMoved(job, s, i, j, blocks))
  {
    var s' := BiasMoved(job, s, i, j, blocks);
    forall i', j' | 0 <= i' <= i && 0 <= j' < job.tj && (i' < i || j' < j + blocks)
      ensures BiasAt(job, s', i', j')
    {
      if i' == i && j <= j' {
        BiasMovedHit(job, s, i, j, blocks, j');
      } else {
        BiasMovedKeeps(job, s, i, j, blocks, i', j');
      }
    }
    BiasFrame(job, s0, s, i, j, blocks);
  }

  lemma MoveInBiasLegal(job: Job, i: int, j: int, blocks: int)
    requires job.Valid() && job.bias.Some? && 0 <= i < job.ti && 0 <= j < j + blocks <= job.tj &&
             blocks <= job.BlocksD()
    ensures var cols := BlockCols(blocks, j + blocks >= job.tj, job.padJ);
      && InBounds(|job.mem.d|, BiasBase(job, i, j), job.mem.strideD, job.RowsI(i), cols)
      && 0 < cols <= Dims(job.mem.BiasBlocks()) && 0 <= job.CRow(i, j) &&
        job.CRow(i, j) + Dims(Blocks(cols)) <= ACC_ROWS
      && IsAccAddress(ACC_BIT + job.CRow(i, j)) && AccRow(ACC_BIT + job.CRow(i, j)) == job.CRow(i, j)
  {
    var last := j + blocks >= job.tj;
    RegionBlocks(job, i, j, blocks);
    AccAddress(job.CRow(i, j), false);
    OutBlock(job, j, blocks);
    RowsInside(job, i);
    BlocksOf(blocks, if last then job.padJ else 0);
    DimsMono(blocks, job.mem.BiasBlocks());
    SameBiasRow(job, i, j);
    SubBlockInBounds(|job.mem.d|, job.bias.value, job.mem.strideD, job.Rows(), job.Cols(), i, j, job.RowsI(i),
                     BlockCols(blocks, last, job.padJ));
  }

  /** A run of blocks of the result fits the accumulator. */
  lemma RegionBlocks(job: Job, i: int, j: int, blocks: int)
    requires job.Shape() && job.Fits() && 0 <= i < job.ti && 0 <= j < j + blocks <= job.tj
    ensures 0 <= job.CRow(i, j) && job.CRow(i, j) + Dims(blocks) <= ACC_ROWS
  {
    Regions(job, i, j, 0);
    Regions(job, i, j + blocks - 1, 0);
    BlockRun(job.tj, i, j, j + blocks - 1);
    DimsStep(blocks - 1);
  }

  /** A block of a matrix that is in bounds is in bounds. */
  lemma SubBlockInBounds(len: int, origin: int, stride: int, allRows: int, allCols: int, i: int, j: int, rows: int,
                         cols: int)
    requires InBounds(len, origin, stride, allRows, allCols) && 0 <= stride
    requires 0 <= i && Dims(i) + rows <= allRows && 0 <= j && Dims(j) + cols <= allCols && 0 < rows && 0 < cols
    ensures InBounds(len, origin + Dims(i * stride + j), stride, rows, cols)
  {
    DimsMono(0, i);
    DimsMono(0, j);
    DimsSum(i * stride, j);
    DimsScaled(i, stride);
    MulMono(Dims(i) + rows - 1, allRows - 1, stride);
    MulMono(0, Dims(i), stride);
    assert (Dims(i) + rows - 1) * stride == Dims(i) * stride + (rows - 1) * stride;
  }

  method LoadBias(dev: Gemmini, job: Job)
    requires job.Valid() && job.bias.Some? && dev.mem == job.mem
    modifies dev
    ensures dev.st == old(dev.st).(acc := dev.st.acc)
    ensures forall i, j :: 0 <= i < job.ti && 0 <= j < job.tj ==> BiasAt(job, dev.st, i, j)
    ensures AccFrame(job, old(dev.st), dev.st)
  {
    ghost var s0 := dev.st;
    for i := 0 to job.ti
      invariant dev.st == s0.(acc := dev.st.acc)
      invariant BiasUpto(job, dev.st, i, 0) && AccFrame(job, s0, dev.st)
    {
      var j := 0;
      while j < job.tj
        invariant 0 <= j <= job.tj
        invariant dev.st == s0.(acc := dev.st.acc)
        invariant BiasUpto(job, dev.st, i, j) && AccFrame(job, s0, dev.st)
      {
        var blocks := if j + job.BlocksD() <= job.tj then job.BlocksD() else job.tj - j;
        BiasStep(job, s0, dev.st, i, j, blocks);
        MoveInBias(dev, job, i, j, blocks);
        j := j + blocks;
      }
    }
  }

  /** The body of the two loops: the bias row is row 0 for a repeating bias. */
  method MoveInBias(dev: Gemmini, job: Job, i: nat, j: nat, blocks: nat)
    requires job.Valid() && job.bias.Some? && dev.mem == job.mem && i < job.ti && j < j + blocks <= job.tj
    requires blocks <= job.BlocksD()
    modifies dev
    ensures dev.st == BiasMoved(job, old(dev.st), i, j, blocks)
  {
    MoveInBiasLegal(job, i, j, blocks);
    dev.MoveInAcc(BiasBase(job, i, j), ACC_BIT + job.CRow(i, j), BlockCols(blocks, j + blocks >= job.tj, job.padJ),
                  job.RowsI(i));
  }

  // ---- the whole tile ----

  /** The value an accumulator element starts from: the bias, or what the accumulator held. */
  function Start(job: Job, s: State, i: int, j: int, r: int, c: int): int {
    if job.bias.Some?
    then At(job.mem.d, job.bias.value + (Dims(i) + r) * job.mem.strideD + (Dims(j) + c))
    else s.acc(job.CRow(i, j) + r, c)
  }

  predicate CellFinal(job: Job, s0: State, s: State, i: int, j: int, r: int, c: int)
    requires job.Shape()
  {
    var v := Start(job, s0, i, j, r, c) + job.Element(Dims(i) + r, Dims(j) + c, job.Depth());
    && s.acc(job.CRow(i, j) + r, c) == v
    && (job.out.Some? ==>
          var x := Address(job, Dims(i) + r, Dims(j) + c);
          s.c(x) == Output(job.mem.stage, job.full, v) && s.stores(x) == s0.stores(x) + 1)
  }

  /** What a tile does: every element of the tile gets its start value plus the full inner product,
      in the accumulator and, if there is an output, stored once; nothing else is stored, in the
      accumulator or in the result. */
  ghost predicate TileDone(job: Job, s0: State, s: State)
    requires job.Shape()
  {
    && (forall i, j, r, c :: 0 <= i < job.ti && 0 <= j < job.tj && 0 <= r < job.RowsI(i) && 0 <= c < job.ColsJ(j) ==>
          CellFinal(job, s0, s, i, j, r, c))
    && AccFrame(job, s0, s)
    && (if job.out.Some? then OutsideUntouched(job, s0, s) else s.c == s0.c && s.stores == s0.stores)
  }

  lemma TileFinished(job: Job, s0: State, s1: State, s: State)
    requires job.Shape() && s1 == s0.(acc := s1.acc)
    requires if job.bias.Some?
             then forall i, j :: 0 <= i < job.ti && 0 <= j < job.tj ==> BiasAt(job, s1, i, j)
             else s1 == s0
    requires AccFrame(job, s0, s1) && AccFrame(job, s1, s) && Inv(job, s1, s, job.tk, 0, 0)
    ensures TileDone(job, s0, s)
  {
    forall i, j, r, c | 0 <= i < job.ti && 0 <= j < job.tj && 0 <= r < job.RowsI(i) && 0 <= c < job.ColsJ(j)
      ensures CellFinal(job, s0, s, i, j, r, c)
    {
      assert SumAt(job, s1, s, job.tk, 0, 0, i, j);
      assert job.bias.Some? ==> BiasAt(job, s1, i, j);
      assert job.CellC(s1, s, i, j, r, c, job.Depth());
      assert job.bias.Some? ==> CellBias(job, s1, i, j, r, c);
      if job.out.Some? {
        assert ResultAt(job, s1, s, job.tk, 0, 0, i, j);
        assert CellStored(job, s1, s, i, j, r, c);
      }
    }
  }

  /** One step: the operands of this (i, j, k) are in the scratchpad, B block (j, k) is the active
      weight tile when the multiply is issued, and the accumulator block gains its products. */
  method Compute(dev: Gemmini, job: Job, k: nat, j: nat, i: nat, ghost s0: State)
    requires job.Valid() && dev.mem == job.mem && k < job.tk && j < job.tj && i < job.ti
    requires job.LoadedA(dev.st, i, k) && job.LoadedB(dev.st, j, k) && (0 < i ==> job.ActiveB(dev.st, j, k))
    requires Sums(job, s0, dev.st, k, j, i) && AccFrame(job, s0, dev.st)
    modifies dev
    ensures AccFrame(job, s0, dev.st)
    ensures dev.st.spad == old(dev.st.spad) && dev.st.c == old(dev.st.c) && dev.st.stores == old(dev.st.stores)
    ensures job.ActiveB(dev.st, j, k)
    ensures Sums(job, s0, dev.st, k, j, i + 1)
  {
    StepWeights(job, dev.st, k, j, i);
    ComputeOnSums(job, s0, dev.st, AfterWeights(job, dev.st, k, j, i), k, j, i);
    ComputeKeeps(job, dev.st, k, j, i);
    IssueMultiply(dev, job, k, j, i);
  }

  /** What the step leaves alone, and the weights it leaves active. */
  lemma ComputeKeeps(job: Job, s: State, k: nat, j: nat, i: nat)
    requires job.Shape() && k < job.tk && j < job.tj && i < job.ti && job.LoadedB(s, j, k) &&
             (0 < i ==> job.ActiveB(s, j, k))
    ensures var s' := Multiplied(job, AfterWeights(job, s, k, j, i), k, j, i, OutAddress(job, i, j));
            s'.spad == s.spad && s'.c == s.c && s'.stores == s.stores && job.ActiveB(s', j, k)
  {
    StepWeights(job, s, k, j, i);
    SameActive(job, AfterWeights(job, s, k, j, i),
               Multiplied(job, AfterWeights(job, s, k, j, i), k, j, i, OutAddress(job, i, j)), j, k);
  }

  /** What it does to the sums: w is the state with the weights in place. */
  lemma ComputeOnSums(job: Job, s0: State, s: State, w: State, k: nat, j: nat, i: nat)
    requires job.Shape() && job.Fits() && k < job.tk && j < job.tj && i < job.ti
    requires w.spad == s.spad && w.acc == s.acc && job.LoadedA(s, i, k) && job.ActiveB(w, j, k)
    requires Sums(job, s0, s, k, j, i) && AccFrame(job, s0, s)
    ensures Sums(job, s0, Multiplied(job, w, k, j, i, OutAddress(job, i, j)), k, j, i + 1)
    ensures AccFrame(job, s0, Multiplied(job, w, k, j, i, OutAddress(job, i, j)))
  {
    Regions(job, i, j, k);
    AccAddress(job.CRow(i, j), job.full);
    SameAcc(job, s0, s, w, k, j, i);
    KeepA(job, s, w, i, k, job.ASp(i, k), job.ASp(i, k));
    StepMultiply(job, s0, w, k, j, i, OutAddress(job, i, j));
    MultiplyFrame(job, s0, w, k, j, i, OutAddress(job, i, j));
  }

  /** The commands of the step: a preload and a flip in the first step of a pass, and the multiply. */
  method IssueMultiply(dev: Gemmini, job: Job, k: nat, j: nat, i: nat)
    requires job.Valid() && dev.mem == job.mem && k < job.tk && j < job.tj && i < job.ti
    modifies dev
    ensures dev.st == Multiplied(job, AfterWeights(job, old(dev.st), k, j, i), k, j, i, OutAddress(job, i, j))
  {
    var aSp, bSp, out := job.ASp(i, k), job.BSp(j, k), OutAddress(job, i, j);
    MultiplyLegal(job, k, j, i);
    if i == 0 {
      dev.PreloadWeights(job.ColsJ(j), job.DepthK(k), bSp);
      dev.MatrixMultiplyFlip(job.ColsJ(j), job.DepthK(k), job.RowsI(i), aSp, out);
    } else {
      dev.MatrixMultiply(job.ColsJ(j), job.DepthK(k), job.RowsI(i), aSp, out);
    }
  }

  /** No preload and no multiply leaves the local memories. */
  lemma MultiplyLegal(job: Job, k: nat, j: nat, i: nat)
    requires job.Valid() && k < job.tk && j < job.tj && i < job.ti
    ensures 0 <= job.RowsI(i) <= DIM && 0 <= job.ColsJ(j) <= DIM && 0 <= job.DepthK(k) <= DIM
    ensures LeftInside(MATMUL, job.DepthK(k), job.RowsI(i), job.ASp(i, k))
    ensures WeightsInside(MATMUL, job.ColsJ(j), job.DepthK(k), job.BSp(j, k))
    ensures IsAccAddress(OutAddress(job, i, j)) && AccRow(OutAddress(job, i, j)) + job.RowsI(i) <= ACC_ROWS
  {
    Regions(job, i, j, k);
    RegionsOrdered(job);
    AccAddress(job.CRow(i, j), job.full);
  }

  /** The B region starts behind the A region, so that is inside the scratchpad too. */
  lemma RegionsOrdered(job: Job)
    requires job.Shape() && job.Fits()
    ensures 0 <= Dims(job.ti * job.tk) <= SPAD_ROWS
  {
    BlockRegion(job.ti, job.tk, 0, 0);
    Regions(job, 0, 0, 0);
  }

  method SpTiledMatmulWs(dev: Gemmini, job: Job)
    requires job.Valid() && dev.mem == job.mem
    modifies dev
    ensures TileDone(job, old(dev.st), dev.st)
  {
    if job.bias.Some? {
      LoadBias(dev, job);
    }
    ghost var s1 := dev.st;
    InvStart(job, s1);
    for k := 0 to job.tk
      invariant Inv(job, s1, dev.st, k, 0, 0) && AccFrame(job, s1, dev.st)
    {
      for j := 0 to job.tj
        invariant Inv(job, s1, dev.st, k, j, 0) && AccFrame(job, s1, dev.st)
      {
        for i := 0 to job.ti
          invariant Inv(job, s1, dev.st, k, j, i) && AccFrame(job, s1, dev.st)
        {
          Step(dev, job, k, j, i, s1);
        }
        InvNextJ(job, s1, dev.st, k, j);
      }
      InvNextK(job, s1, dev.st, k);
    }
    TileFinished(job, old(dev.st), s1, dev.st);
  }

  function OutAddress(job: Job, i: int, j: int): int {
    ACC_BIT + ACCUMULATE_BIT + (if job.full then FULL_BIT else 0) + job.CRow(i, j)
  }

  /** The move-in touches only the scratchpad, so sums and results carry over ... */
  lemma AfterMoveIn(job: Job, s0: State, s: State, s': State, k: int, j: int, i: int)
    requires job.Shape() && 0 <= k < job.tk && s' == s.(spad := s'.spad)
    requires Sums(job, s0, s, k, j, i) && Results(job, s0, s, k, j, i) && (0 < i ==> job.ActiveB(s, j, k))
    ensures Sums(job, s0, s', k, j, i) && Results(job, s0, s', k, j, i) && (0 < i ==> job.ActiveB(s', j, k))
  {
    SameAcc(job, s0, s, s', k, j, i);
    SameC(job, s0, s, s', k, j, i);
    if 0 < i {
      SameActive(job, s, s', j, k);
    }
  }

  lemma SameActive(job: Job, s: State, s': State, j: int, k: int)
    requires s'.active == s.active && job.ActiveB(s, j, k)
    ensures job.ActiveB(s', j, k)
  {
    forall r, c | 0 <= r < job.ColsJ(j) && 0 <= c < job.DepthK(k)
      ensures job.CellActive(s', j, k, r, c)
    {
      assert job.CellActive(s, j, k, r, c);
    }
  }

  /** ... the multiply touches neither scratchpad nor results ... */
  lemma AfterMultiply(job: Job, s0: State, s: State, s': State, k: int, j: int, i: int)
    requires job.Shape() && 0 <= k < job.tk && s'.spad == s.spad && s'.c == s.c && s'.stores == s.stores
    requires OperandsA(job, s, k, j, i + 1) && OperandsB(job, s, k, j, i + 1) && Results(job, s0, s, k, j, i)
    ensures OperandsA(job, s', k, j, i + 1) && OperandsB(job, s', k, j, i + 1) && Results(job, s0, s', k, j, i)
  {
    SameSpad(job, s, s', k, j, i + 1);
    SameC(job, s0, s, s', k, j, i);
  }

  /** ... and the move-out touches only the results. */
  lemma AfterMoveOut(job: Job, s0: State, s: State, s': State, k: int, j: int, i: int)
    requires job.Shape() && 0 <= k < job.tk && s' == s.(c := s'.c, stores := s'.stores)
    requires OperandsA(job, s, k, j, i + 1) && OperandsB(job, s, k, j, i + 1)
    requires job.ActiveB(s, j, k) && Sums(job, s0, s, k, j, i + 1) && Results(job, s0, s', k, j, i + 1)
    ensures Inv(job, s0, s', k, j, i + 1)
  {
    SameSpad(job, s, s', k, j, i + 1);
    SameAcc(job, s0, s, s', k, j, i + 1);
    SameActive(job, s, s', j, k);
  }

  /** The body of the three loops. */
  method Step(dev: Gemmini, job: Job, k: nat, j: nat, i: nat, ghost s0: State)
    requires job.Valid() && dev.mem == job.mem && k < job.tk && j < job.tj && i < job.ti
    requires Inv(job, s0, dev.st, k, j, i) && AccFrame(job, s0, dev.st)
    modifies dev
    ensures Inv(job, s0, dev.st, k, j, i + 1) && AccFrame(job, s0, dev.st)
  {
    ghost var a := dev.st;
    MoveInOperands(dev, job, k, j, i);
    ghost var b := dev.st;
    AfterMoveIn(job, s0, a, b, k, j, i);
    Compute(dev, job, k, j, i, s0);
    ghost var c := dev.st;
    AfterMultiply(job, s0, b, c, k, j, i);
    MoveOutStep(dev, job, k, j, i, s0);
    AfterMoveOut(job, s0, c, dev.st, k, j, i);
  }

  /** The group of K blocks that a move-in of A or B takes. */
  lemma GroupInside(job: Job, k: int)
    requires job.Shape() && 0 <= k < job.tk
    ensures var blocks := GroupSize(job, k);
            var cols := BlockCols(blocks, k + blocks >= job.tk, job.padK);
      && 0 < blocks <= MAX_BLOCK_LEN && k + blocks <= job.tk
      && 0 < cols <= Dims(MAX_BLOCK_LEN) && Blocks(cols) == blocks
      && 0 <= Dims(k) && Dims(k) + cols <= job.Depth()
  {
    var blocks := GroupSize(job, k);
    DimsMono(0, k);
    DimsMono(1, blocks);
    DimsMono(blocks, MAX_BLOCK_LEN);
    DimsSum(k, blocks);
    DimsMono(k + blocks, job.tk);
    BlocksOf(blocks, if k + blocks >= job.tk then job.padK else 0);
  }

  lemma MoveInALegal(job: Job, i: int, k: int)
    requires job.Valid() && 0 <= i < job.ti && 0 <= k < job.tk
    ensures var cols := BlockCols(GroupSize(job, k), k + GroupSize(job, k) >= job.tk, job.padK);
      && InBounds(|job.mem.a|, job.a + Dims(i * job.mem.strideA + k), job.mem.strideA, job.RowsI(i), cols)
      && 0 <= cols <= Dims(MAX_BLOCK_LEN)
      && 0 <= job.ASp(i, k) && job.ASp(i, k) + Dims(Blocks(cols)) <= SPAD_ROWS
  {
    var blocks := GroupSize(job, k);
    GroupInside(job, k);
    RowsInside(job, i);
    Regions(job, i, 0, k);
    Regions(job, i, 0, k + blocks - 1);
    BlockRun(job.tk, i, k, k + blocks - 1);
    DimsStep(blocks - 1);
    SubBlockInBounds(|job.mem.a|, job.a, job.mem.strideA, job.Rows(), job.Depth(), i, k, job.RowsI(i),
                     BlockCols(blocks, k + blocks >= job.tk, job.padK));
  }

  /** The elements that the move-in of B at blocks (j, k) reads lie inside the buffer. */
  predicate LoadBInside(job: Job, j: int, k: int)
    requires job.Shape()
  {
    InBounds(|job.mem.b|, job.b + Dims(j * job.mem.strideB + k), job.mem.strideB, job.ColsJ(j),
             BlockCols(GroupSize(job, k), k + GroupSize(job, k) >= job.tk, job.padK))
  }

  /** Step (k, j, i) issues a move-in of B. */
  predicate LoadsB(job: Job, k: int, i: int)
    requires job.Shape()
  { i == 0 && k % job.BlocksK() == 0 }

  /** All move-ins of B that the stream of one tile issues stay inside the buffer. */
  ghost predicate LoadsBInside(job: Job)
    requires job.Shape()
  {
    forall k, j, i :: 0 <= k < job.tk && 0 <= j < job.tj && 0 <= i < job.ti && LoadsB(job, k, i) ==>
      LoadBInside(job, j, k)
  }

  /** A move-in that starts past the end is not inside. */
  lemma LoadPastEnd(job: Job, j: int, k: int)
    requires job.Shape() && 0 <= j < job.tj && 0 <= k < job.tk && |job.mem.b| <= job.b + Dims(j * job.mem.strideB + k)
    ensures !LoadBInside(job, j, k)
  {
    GroupInside(job, k);
    OutBlock(job, j, 1);
    DimsStep(0);
    MulMono(0, job.ColsJ(j) - 1, job.mem.strideB);
  }

  lemma LoadBInRectangle(job: Job, j: int, k: int)
    requires job.Shape() && InBounds(|job.mem.b|, job.b, job.mem.strideB, job.Cols(), job.Depth())
    requires 0 <= j < job.tj && 0 <= k < job.tk
    ensures LoadBInside(job, j, k)
  {
    var blocks := GroupSize(job, k);
    GroupInside(job, k);
    OutBlock(job, j, 1);
    DimsStep(0);
    SubBlockInBounds(|job.mem.b|, job.b, job.mem.strideB, job.Cols(), job.Depth(), j, k, job.ColsJ(j),
                     BlockCols(blocks, k + blocks >= job.tk, job.padK));
  }

  /** The move-in at the last column block and the last group of K blocks reads the last element. */
  lemma LastLoadB(job: Job, k: int)
    requires job.Shape() && 0 <= job.b && k == Job.Base(job.tk - 1, job.BlocksK()) && LoadBInside(job, job.tj - 1, k)
    ensures InBounds(|job.mem.b|, job.b, job.mem.strideB, job.Cols(), job.Depth())
  {
    var j, stride := job.tj - 1, job.mem.strideB;
    GroupStart(job.tk - 1, job.BlocksK());
    var n := GroupSize(job, k);
    assert k + n == job.tk;
    GroupInside(job, k);
    OutBlock(job, j, 1);
    DimsStep(0);
    DimsSum(k, n);
    DimsSum(j * stride, k);
    DimsScaled(j, stride);
    DimsStep(j);
    LastElement(Dims(j), job.ColsJ(j), stride);
  }

  lemma LastElement(from: int, rows: int, stride: int)
    ensures from * stride + (rows - 1) * stride == (from + rows - 1) * stride
  {}

  /** All move-ins of B stay inside the buffer exactly when the J x K part of B that the tile is for does. */
  lemma LoadsBInsideIff(job: Job)
    requires job.Shape()
    ensures LoadsBInside(job) <==> InBounds(|job.mem.b|, job.b, job.mem.strideB, job.Cols(), job.Depth())
  {
    if InBounds(|job.mem.b|, job.b, job.mem.strideB, job.Cols(), job.Depth()) {
      forall k, j, i | 0 <= k < job.tk && 0 <= j < job.tj && 0 <= i < job.ti && LoadsB(job, k, i)
        ensures LoadBInside(job, j, k)
      {
        LoadBInRectangle(job, j, k);
      }
    }
    if LoadsBInside(job) {
      var k := Job.Base(job.tk - 1, job.BlocksK());
      GroupStart(job.tk - 1, job.BlocksK());
      DivModUnique(k, job.BlocksK(), (job.tk - 1) / job.BlocksK(), 0);
      assert LoadsB(job, 0, 0) && LoadBInside(job, 0, 0);
      assert Dims(0 * job.mem.strideB + 0) == 0;
      assert LoadsB(job, k, 0) && LoadBInside(job, job.tj - 1, k);
      LastLoadB(job, k);
    }
  }

  lemma MoveInBLegal(job: Job, j: int, k: int)
    requires job.Valid() && 0 <= j < job.tj && 0 <= k < job.tk
    ensures LoadBInside(job, j, k)
    ensures var cols := BlockCols(GroupSize(job, k), k + GroupSize(job, k) >= job.tk, job.padK);
      && 0 <= cols <= Dims(MAX_BLOCK_LEN)
      && 0 <= job.BSp(j, k) && job.BSp(j, k) + Dims(Blocks(cols)) <= SPAD_ROWS
  {
    var blocks := GroupSize(job, k);
    GroupInside(job, k);
    LoadBInRectangle(job, j, k);
    Regions(job, 0, j, k);
    Regions(job, 0, j, k + blocks - 1);
    BlockRun(job.tk, j, k, k + blocks - 1);
    DimsStep(blocks - 1);
  }

  lemma MoveOutLegal(job: Job, i: int, rj: int, blocks: int)
    requires job.Valid() && job.out.Some? && 0 <= i < job.ti && 0 <= rj < rj + blocks <= job.tj &&
             blocks <= job.BlocksC()
    ensures var cols := BlockCols(blocks, rj + blocks >= job.tj, job.padJ);
      && InBounds(job.mem.lenC, job.out.value + Dims(i * job.mem.strideC + rj), job.mem.strideC, job.RowsI(i), cols)
      && 0 <= cols <= job.mem.strideC && cols <= Dims(if job.full then 1 else MAX_BLOCK_LEN)
      && 0 <= job.CRow(i, rj) && job.CRow(i, rj) + Dims(Blocks(cols)) <= ACC_ROWS
  {
    var last := rj + blocks >= job.tj;
    OutBlock(job, rj, blocks);
    BlocksOf(blocks, if last then job.padJ else 0);
    DimsMono(blocks, if job.full then 1 else MAX_BLOCK_LEN);
    RegionBlocks(job, i, rj, blocks);
    RowsInside(job, i);
    SubBlockInBounds(job.mem.lenC, job.out.value, job.mem.strideC, job.Rows(), job.Cols(), i, rj, job.RowsI(i),
                     BlockCols(blocks, last, job.padJ));
  }

  method MoveInOperands(dev: Gemmini, job: Job, k: nat, j: nat, i: nat)
    requires job.Valid() && dev.mem == job.mem && k < job.tk && j < job.tj && i < job.ti
    requires OperandsA(job, dev.st, k, j, i) && OperandsB(job, dev.st, k, j, i)
    modifies dev
    ensures dev.st == old(dev.st).(spad := dev.st.spad)
    ensures OperandsA(job, dev.st, k, j, i + 1) && OperandsB(job, dev.st, k, j, i + 1)
    ensures job.LoadedA(dev.st, i, k) && job.LoadedB(dev.st, j, k)
  {
    ghost var s := dev.st;
    StepAOnA(job, s, k, j, i);
    StepAOnB(job, s, k, j, i);
    MoveInBlocksA(dev, job, k, j, i);
    s := dev.st;
    StepBOnB(job, s, k, j, i);
    StepBOnA(job, s, k, j, i);
    MoveInBlocksB(dev, job, k, j, i);
    assert job.ADone(k, j, i + 1, i, k) by { GroupStart(k, job.BlocksK()); }
  }

  method MoveInBlocksA(dev: Gemmini, job: Job, k: nat, j: nat, i: nat)
    requires job.Valid() && dev.mem == job.mem && k < job.tk && j < job.tj && i < job.ti
    modifies dev
    ensures dev.st == AfterA(job, old(dev.st), k, j, i)
  {
    if j == 0 && k % job.BlocksK() == 0 {
      var blocks := if k + job.BlocksK() <= job.tk then job.BlocksK() else job.tk - k;
      var cols := BlockCols(blocks, k + blocks >= job.tk, job.padK);
      MoveInALegal(job, i, k);
      dev.MoveInA(job.a + Dims(i * job.mem.strideA + k), job.ASp(i, k), cols, job.RowsI(i));
    }
  }

  method MoveInBlocksB(dev: Gemmini, job: Job, k: nat, j: nat, i: nat)
    requires job.Valid() && dev.mem == job.mem && k < job.tk && j < job.tj && i < job.ti
    modifies dev
    ensures dev.st == AfterB(job, old(dev.st), k, j, i)
  {
    if i == 0 && k % job.BlocksK() == 0 {
      var blocks := if k + job.BlocksK() <= job.tk then job.BlocksK() else job.tk - k;
      var cols := BlockCols(blocks, k + blocks >= job.tk, job.padK);
      MoveInBLegal(job, j, k);
      dev.MoveInB(job.b + Dims(j * job.mem.strideB + k), job.BSp(j, k), cols, job.ColsJ(j));
    }
  }

  method MoveOutStep(dev: Gemmini, job: Job, k: nat, j: nat, i: nat, ghost s0: State)
    requires job.Valid() && dev.mem == job.mem && k < job.tk && j < job.tj && i < job.ti
    requires Sums(job, s0, dev.st, k, j, i + 1) && Results(job, s0, dev.st, k, j, i)
    modifies dev
    ensures dev.st == old(dev.st).(c := dev.st.c, stores := dev.st.stores)
    ensures Results(job, s0, dev.st, k, j, i + 1)
  {
    var roundedJ := j / job.BlocksC() * job.BlocksC();
    OutStart(job, i, j);
    StepOut(job, s0, dev.st, k, j, i, OutAddress(job, i, roundedJ));
    if job.out.Some? && k == job.tk - 1 && (j == job.tj - 1 || j % job.BlocksC() == job.BlocksC() - 1) {
      var blocks := if roundedJ + job.BlocksC() <= job.tj then job.BlocksC() else job.tj - roundedJ;
      GroupEnd(job, j);
      MoveOut(dev, job, i, roundedJ, blocks);
    }
  }

  /** The group of j starts at a block of the tile, whose address reads and accumulates as it should. */
  lemma OutStart(job: Job, i: int, j: int)
    requires job.Shape() && job.Fits() && 0 <= i < job.ti && 0 <= j < job.tj
    ensures var rj := Job.Base(j, job.BlocksC());
      && 0 <= rj <= j && AccRow(OutAddress(job, i, rj)) == job.CRow(i, rj)
      && ReadsFull(OutAddress(job, i, rj)) == job.full && IsAccAddress(OutAddress(job, i, rj))
  {
    GroupStart(j, job.BlocksC());
    Regions(job, i, Job.Base(j, job.BlocksC()), 0);
    AccAddress(job.CRow(i, Job.Base(j, job.BlocksC())), job.full);
  }

  /** At the last column block of a group the group is complete. */
  lemma GroupEnd(job: Job, j: int)
    requires job.Shape() && 0 <= j < job.tj && (j == job.tj - 1 || j % job.BlocksC() == job.BlocksC() - 1)
    ensures var rj := Job.Base(j, job.BlocksC());
            (if rj + job.BlocksC() <= job.tj then job.BlocksC() else job.tj - rj) == j + 1 - rj
  {
    GroupStart(j, job.BlocksC());
    OutGroup(job, j, j);
  }

  method MoveOut(dev: Gemmini, job: Job, i: nat, rj: nat, blocks: nat)
    requires job.Valid() && job.out.Some? && dev.mem == job.mem && i < job.ti && rj < rj + blocks <= job.tj
    requires AccRow(OutAddress(job, i, rj)) == job.CRow(i, rj) && IsAccAddress(OutAddress(job, i, rj))
    requires blocks <= job.BlocksC() && ReadsFull(OutAddress(job, i, rj)) == job.full
    modifies dev
    ensures dev.st == MovedOut(job, old(dev.st), i, rj, blocks, OutAddress(job, i, rj))
  {
    MoveOutLegal(job, i, rj, blocks);
    dev.MoveOut(job.out.value + Dims(i * job.mem.strideC + rj), OutAddress(job, i, rj),
                BlockCols(blocks, rj + blocks >= job.tj, job.padJ), job.RowsI(i));
  }
}
