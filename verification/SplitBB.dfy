/** The LLVM pass `SplitBB`: give every call of a defined or unknown function a block of its own. */
module SplitBB {

  /** What `getCalledFunction` and `isDeclaration` tell about a call. */
  datatype Callee = Unknown | Declared | Defined

  /** Instructions as far as the pass looks at them; `id` stands for everything else and `targets` for
      the labels a terminator may go to. `Branch` is an unconditional branch; `Terminator` is any other
      terminator, a return with no targets among them. */
  datatype Inst =
    | Plain(id: int)
    | Call(id: int, callee: Callee)
    | Invoke(id: int, callee: Callee, targets: seq<nat>)
    | CondBranch(id: int, targets: seq<nat>)
    | Branch(target: nat)
    | Terminator(id: int, targets: seq<nat>)
  {
    /** The labels at which execution may go on. */
    function Labels(): seq<nat> {
      match this
      case Plain(_) => []
      case Call(_, _) => []
      case Branch(target) => [target]
      case _ => targets
    }

    predicate IsTerminator() { !Plain? && !Call? }
    /** The condition at which the pass splits. */
    predicate Splits() { (Call? || Invoke?) && callee != Declared }
  }

  datatype Block = Block(name: nat, insts: seq<Inst>)

  /** One terminator, at the end. */
  predicate WellFormed(insts: seq<Inst>) {
    && |insts| > 0 && insts[|insts| - 1].IsTerminator()
    && forall p :: 0 <= p < |insts| - 1 ==> !insts[p].IsTerminator()
  }

  /** A splitting call stands first in its block and only a terminator follows it, which is not a
      conditional branch; a splitting invoke, itself a terminator, stands alone. */
  predicate Normal(insts: seq<Inst>) {
    forall p :: 0 <= p < |insts| && insts[p].Splits() ==>
      && p == 0
      && (|insts| == 1 || (|insts| == 2 && insts[1].IsTerminator() && !insts[1].CondBranch?))
  }

  /** What the pass leaves alone: nothing splits, or the block begins with a splitting call and is
      not split behind it. */
  predicate Settled(insts: seq<Inst>) {
    || (forall p :: 0 <= p < |insts| ==> !insts[p].Splits())
    || (insts[0].Splits() && (|insts| == 1 || (insts[1].IsTerminator() && !insts[1].CondBranch?)))
  }

  /** The one pattern the pass does not separate: a splitting call directly before a splitting invoke. */
  predicate CallBeforeInvoke(insts: seq<Inst>) {
    exists p :: 0 <= p < |insts| - 1 && insts[p].Splits() && insts[p + 1].Invoke? && insts[p + 1].Splits()
  }

  /** A run of blocks that came from one: each but the last ends in an inserted branch to the next,
      a block that did not exist before; without those branches the instructions are `insts`. */
  predicate IsChain(chain: seq<Block>, name: nat, insts: seq<Inst>, unused: nat) {
    && |chain| > 0 && chain[0].name == name
    && if |chain| == 1 then chain[0].insts == insts else
         var n := |chain[0].insts| - 1;
         && 0 < n <= |insts| && chain[0].insts == insts[..n] + [Branch(chain[1].name)]
         && unused <= chain[1].name
         && IsChain(chain[1..], chain[1].name, insts[n..], unused)
  }

  ghost predicate AllNormal(blocks: seq<Block>) {
    forall k :: 0 <= k < |blocks| ==> Normal(blocks[k].insts)
  }

  ghost predicate AllSettled(blocks: seq<Block>) {
    forall k :: 0 <= k < |blocks| ==> Settled(blocks[k].insts)
  }

  ghost predicate SomeCallBeforeInvoke(blocks: seq<Block>) {
    exists k :: 0 <= k < |blocks| && CallBeforeInvoke(blocks[k].insts)
  }

  ghost predicate Distinct(blocks: seq<Block>, unused: nat) {
    && (forall k :: 0 <= k < |blocks| ==> blocks[k].name < unused)
    && (forall k, l :: 0 <= k < l < |blocks| ==> blocks[k].name != blocks[l].name)
  }

  ghost predicate AllWellFormed(blocks: seq<Block>) {
    forall k :: 0 <= k < |blocks| ==> WellFormed(blocks[k].insts)
  }

  // ---- the same, written out ----

  /** No call or invoke, or one of a function that is known to have no body. */
  predicate OfDeclared(inst: Inst) {
    match inst
    case Call(_, callee) => callee == Declared
    case Invoke(_, callee, _) => callee == Declared
    case _ => true
  }

  /** A call of an unknown or a defined function. */
  predicate UnknownOrDefinedCall(inst: Inst) { inst.Call? && (inst.callee == Unknown || inst.callee == Defined) }
  predicate UnknownOrDefinedInvoke(inst: Inst) { inst.Invoke? && (inst.callee == Unknown || inst.callee == Defined) }

  /** Every call of an unknown or a defined function is the first instruction of its block, and all that may
      follow it is one terminator: an invoke, an unconditional branch or another terminator, but not a
      conditional branch. Every such invoke is alone in its block or directly behind such a call. */
  predicate CallsApart(insts: seq<Inst>) {
    && (forall p :: 0 <= p < |insts| && UnknownOrDefinedCall(insts[p]) ==>
          p == 0 && (|insts| == 1 || (|insts| == 2 && (insts[1].Invoke? || insts[1].Branch? || insts[1].Terminator?))))
    && (forall p :: 0 <= p < |insts| && UnknownOrDefinedInvoke(insts[p]) ==>
          (p == 0 && |insts| == 1) || (p == 1 && |insts| == 2 && UnknownOrDefinedCall(insts[0])))
  }

  ghost predicate AllCallsApart(blocks: seq<Block>) {
    forall k :: 0 <= k < |blocks| ==> CallsApart(blocks[k].insts)
  }

  ghost predicate AllDeclared(blocks: seq<Block>) {
    forall k, p :: 0 <= k < |blocks| && 0 <= p < |blocks[k].insts| ==> OfDeclared(blocks[k].insts[p])
  }

  /** A call directly before an invoke, both of unknown or defined functions. */
  ghost predicate Pair(insts: seq<Inst>) {
    exists p :: 0 <= p < |insts| - 1 && UnknownOrDefinedCall(insts[p]) && UnknownOrDefinedInvoke(insts[p + 1])
  }

  ghost predicate SomePair(blocks: seq<Block>) { exists k :: 0 <= k < |blocks| && Pair(blocks[k].insts) }

  /** The blocks that the pass leaves alone are exactly those whose calls are apart ... */
  lemma SettledIff(insts: seq<Inst>)
    requires WellFormed(insts)
    ensures Settled(insts) <==> CallsApart(insts)
  {
    if p :| 0 <= p < |insts| && insts[p].Splits() {
      assert UnknownOrDefinedCall(insts[p]) || UnknownOrDefinedInvoke(insts[p]);
      assert insts[0].Splits() && |insts| > 1 && insts[1].IsTerminator() ==> |insts| == 2;
    }
  }

  /** ... and those of them without a pair are the normal ones. */
  lemma NormalIff(insts: seq<Inst>)
    requires WellFormed(insts)
    ensures Normal(insts) <==> CallsApart(insts) && !Pair(insts)
    ensures CallBeforeInvoke(insts) <==> Pair(insts)
  {
    forall p | 0 <= p < |insts| ensures insts[p].Splits() <==>
        UnknownOrDefinedCall(insts[p]) || UnknownOrDefinedInvoke(insts[p])
    {}
  }

  lemma AllSettledIff(blocks: seq<Block>)
    requires AllWellFormed(blocks)
    ensures AllSettled(blocks) <==> AllCallsApart(blocks)
    ensures AllDeclared(blocks) ==> AllSettled(blocks)
    ensures AllNormal(blocks) <==> AllCallsApart(blocks) && !SomePair(blocks)
    ensures SomeCallBeforeInvoke(blocks) <==> SomePair(blocks)
  {
    forall k | 0 <= k < |blocks| ensures OneBlock(blocks[k].insts) {
      SettledIff(blocks[k].insts);
      NormalIff(blocks[k].insts);
    }
    if AllNormal(blocks) {
      forall k | 0 <= k < |blocks| ensures CallsApart(blocks[k].insts) && !Pair(blocks[k].insts) {
        assert OneBlock(blocks[k].insts);
      }
    }
  }

  ghost predicate OneBlock(insts: seq<Inst>) {
    && (Settled(insts) <==> CallsApart(insts))
    && (Normal(insts) <==> CallsApart(insts) && !Pair(insts))
    && (CallBeforeInvoke(insts) <==> Pair(insts))
  }

  /** What splitting block idx does: it becomes the chain idx .. hi of settled blocks, the others stay
      as they are. The chain is normal exactly if the block had no splitting call directly before a
      splitting invoke, and it is the block itself exactly if that was settled. */
  ghost predicate BlockSplit(before: seq<Block>, after: seq<Block>, unused: nat, idx: nat, hi: nat)
    requires idx < |before|
  {
    && idx < hi <= |after|
    && after[..idx] == before[..idx] && after[hi..] == before[idx + 1..]
    && IsChain(after[idx..hi], before[idx].name, before[idx].insts, unused)
    && AllSettled(after[idx..hi])
    && (AllNormal(after[idx..hi]) <==> !CallBeforeInvoke(before[idx].insts))
    && (hi == idx + 1 <==> Settled(before[idx].insts))
    && (hi == idx + 1 ==> after == before)
  }

  class Function {
    var blocks: seq<Block>
    var unused: nat

    ghost predicate Valid()
      reads this
    { Distinct(blocks, unused) && AllWellFormed(blocks) }

    constructor (blocks: seq<Block>, unused: nat)
      requires Distinct(blocks, unused) && AllWellFormed(blocks)
      ensures Valid() && this.blocks == blocks && this.unused == unused
    {
      this.blocks, this.unused := blocks, unused;
    }

    /** LLVM's SplitBlock: the instructions from `at` on move to a new block right behind. */
    method SplitBlock(idx: nat, at: nat)
      requires Valid() && idx < |blocks| && 0 < at < |blocks[idx].insts|
      modifies this
      ensures Valid() && unused == old(unused) + 1
      ensures var b := old(blocks[idx]);
              blocks == old(blocks)[..idx]
                        + [Block(b.name, b.insts[..at] + [Branch(old(unused))]), Block(old(unused), b.insts[at..])]
                        + old(blocks)[idx + 1..]
    {
      var b := blocks[idx];
      blocks := blocks[..idx] + [Block(b.name, b.insts[..at] + [Branch(unused)]), Block(unused, b.insts[at..])]
        + blocks[idx + 1..];
      unused := unused + 1;
    }

    /** `split_bb` */
    method SplitBb(idx: nat) returns (ghost hi: nat)
      requires Valid() && idx < |blocks|
      modifies this
      ensures Valid() && old(unused) <= unused
      ensures BlockSplit(old(blocks), blocks, old(unused), idx, hi)
      decreases |blocks[idx].insts|
    {
      ghost var insts, unused0 := blocks[idx].insts, unused;
      var i := 0;
      while i < |blocks[idx].insts|
        invariant 0 <= i <= |insts| && blocks == old(blocks) && unused == unused0
        invariant forall p :: 0 <= p < i ==> !insts[p].Splits()
      {
        if blocks[idx].insts[i].Splits() {
          hi := SplitAt(idx, i);
          return;
        }
        i := i + 1;
      }
      hi := idx + 1;
      assert blocks[idx..hi] == [blocks[idx]];
    }

    /** The split before the first splitting call, unless the block begins with it. */
    method SplitAt(idx: nat, i: nat) returns (ghost hi: nat)
      requires Valid() && idx < |blocks| && i < |blocks[idx].insts| && blocks[idx].insts[i].Splits()
      requires forall p :: 0 <= p < i ==> !blocks[idx].insts[p].Splits()
      modifies this
      ensures Valid() && old(unused) <= unused
      ensures BlockSplit(old(blocks), blocks, old(unused), idx, hi)
      decreases |blocks[idx].insts|, 1
    {
      if i != 0 {
        ghost var before, u := blocks, unused;
        SplitBlock(idx, i);
        ghost var mid := blocks;
        hi := SplitFirst(idx + 1);
        SplitBefore(before, mid, blocks, u, idx, hi, i);
      } else {
        hi := SplitFirst(idx);
      }
    }

    /** The split after a splitting call that begins its block, and the recursion into what follows. */
    method SplitFirst(idx: nat) returns (ghost hi: nat)
      requires Valid() && idx < |blocks| && |blocks[idx].insts| > 0 && blocks[idx].insts[0].Splits()
      modifies this
      ensures Valid() && old(unused) <= unused
      ensures BlockSplit(old(blocks), blocks, old(unused), idx, hi)
      decreases |blocks[idx].insts|, 0
    {
      var insts := blocks[idx].insts;
      if 1 < |insts| && (!insts[1].IsTerminator() || insts[1].CondBranch?) {
        ghost var before, u := blocks, unused;
        SplitBlock(idx, 1);
        ghost var mid := blocks;
        hi := SplitBb(idx + 1);
        SplitBehind(before, mid, blocks, u, idx, hi);
      } else {
        hi := idx + 1;
        assert blocks[idx..hi] == [blocks[idx]];
        FirstStays(insts);
      }
    }

    /** `run` on one function: all original blocks in turn, found again by their labels. */
    method Run() returns (ghost starts: seq<nat>)
      requires Valid()
      modifies this
      ensures Valid()
      ensures Refines(old(blocks), blocks, starts, old(unused))
      ensures AllTargetsOriginal(old(blocks), old(unused)) ==> Refined(old(blocks), blocks, starts, old(unused), unused)
      ensures AllSettled(blocks)
      ensures AllNormal(blocks) <==> !SomeCallBeforeInvoke(old(blocks))
      ensures AllSettled(old(blocks)) <==> blocks == old(blocks)
      ensures AllCallsApart(blocks) && (SomePair(blocks) <==> SomePair(old(blocks)))
      ensures AllCallsApart(old(blocks)) <==> blocks == old(blocks)
      ensures AllDeclared(old(blocks)) ==> blocks == old(blocks)
    {
      var bbList := blocks;
      ghost var unused0, lo := unused, 0;
      starts := [0];
      for k := 0 to |bbList|
        invariant Valid() && unused0 <= unused
        invariant Progress(bbList, blocks, starts, unused0, k, lo)
      {
        ghost var before, u := blocks, unused;
        assert bbList[k..][0] == bbList[k] && blocks[lo..][0] == blocks[lo];
        var idx := IndexOf(bbList[k].name, lo);
        ghost var hi := SplitBb(idx);
        NextOriginal(bbList, before, blocks, starts, unused0, u, k, lo, hi);
        starts, lo := starts + [hi], hi;
      }
      assert blocks[..lo] == blocks && bbList[..|bbList|] == bbList;
      AllSettledIff(bbList);
      AllSettledIff(blocks);
    }

    /** The position of the block with a label. */
    method IndexOf(name: nat, ghost at: nat) returns (idx: nat)
      requires Valid() && at < |blocks| && blocks[at].name == name
      ensures idx == at
    {
      idx := 0;
      while blocks[idx].name != name
        invariant 0 <= idx <= at
        decreases at - idx
      {
        idx := idx + 1;
      }
    }

    /** A second run adds no block: it changes nothing at all. */
    method RunTwice() returns (ghost once: seq<Block>)
      requires Valid()
      modifies this
      ensures Valid() && AllSettled(once) && blocks == once
    {
      ghost var _ := Run();
      once := blocks;
      ghost var _ := Run();
    }
  }

  /** Without invokes, the pass normalises; a defined call right before a defined invoke it leaves together. */
  lemma CallThenInvokeStays()
    ensures var insts := [Call(0, Defined), Invoke(1, Defined, [])];
            WellFormed(insts) && Settled(insts) && CallBeforeInvoke(insts) && !Normal(insts)
  {
    var insts := [Call(0, Defined), Invoke(1, Defined, [])];
    assert insts[0].Splits() && insts[1].Splits() && insts[0 + 1].Invoke?;
  }

  lemma SplitCons(head: Block, tail: seq<Block>)
    requires Normal(head.insts) && Settled(head.insts) && AllSettled(tail)
    ensures AllSettled([head] + tail) && (AllNormal([head] + tail) <==> AllNormal(tail))
  {
    var all := [head] + tail;
    if AllNormal(all) {
      forall k | 0 <= k < |tail| ensures Normal(tail[k].insts) {
        assert all[k + 1] == tail[k];
      }
    }
  }

  /** A list in which block idx was replaced by a head and the pieces behind it. */
  lemma Slices(before: seq<Block>, after: seq<Block>, idx: nat, hi: nat, head: Block)
    requires idx < |before| && idx + 1 < hi <= |after| && after[..idx + 1] == before[..idx] + [head]
    ensures after[..idx] == before[..idx] && after[idx..hi] == [head] + after[idx + 1..hi]
  {
    assert after[..idx] == after[..idx + 1][..idx];
    assert after[idx] == after[..idx + 1][idx];
  }

  /** The block before the first splitting call, in front of the pieces of the rest. */
  lemma PrependPrefix(head: Block, tail: seq<Block>, insts: seq<Inst>, i: nat, u: nat)
    requires 0 < i < |insts| && (forall p :: 0 <= p < i ==> !insts[p].Splits())
    requires head.insts == insts[..i] + [Branch(u)] && |tail| > 0 && IsChain(tail, u, insts[i..], u + 1)
    requires AllSettled(tail) && (AllNormal(tail) <==> !CallBeforeInvoke(insts[i..]))
    ensures IsChain([head] + tail, head.name, insts, u) && AllSettled([head] + tail)
    ensures AllNormal([head] + tail) <==> !CallBeforeInvoke(insts)
    ensures insts[i].Splits() ==> !Settled(insts)
  {
    ChainWeaken(tail, u, insts[i..], u + 1, u);
    ChainCons(head, tail, insts, i, u);
    PrefixIsNormal(head, insts, i);
    SplitCons(head, tail);
  }

  /** A call block in front of the pieces of what follows the call. */
  lemma PrependCall(head: Block, tail: seq<Block>, insts: seq<Inst>, u: nat)
    requires 1 < |insts| && insts[0].Splits() && (!insts[1].IsTerminator() || insts[1].CondBranch?)
    requires head.insts == insts[..1] + [Branch(u)] && |tail| > 0 && IsChain(tail, u, insts[1..], u + 1)
    requires AllSettled(tail) && (AllNormal(tail) <==> !CallBeforeInvoke(insts[1..]))
    ensures IsChain([head] + tail, head.name, insts, u) && AllSettled([head] + tail)
    ensures AllNormal([head] + tail) <==> !CallBeforeInvoke(insts)
    ensures !Settled(insts)
  {
    ChainWeaken(tail, u, insts[1..], u + 1, u);
    ChainCons(head, tail, insts, 1, u);
    NormalCall(head);
    SplitCons(head, tail);
    SuffixPattern(insts, 1);
  }

  /** The blocks after one SplitBlock. */
  ghost predicate SplitOnce(before: seq<Block>, mid: seq<Block>, u: nat, idx: nat, at: nat) {
    && idx < |before| && 0 < at < |before[idx].insts|
    && mid == before[..idx] + [Block(before[idx].name, before[idx].insts[..at] + [Branch(u)]),
                               Block(u, before[idx].insts[at..])]
              + before[idx + 1..]
  }

  lemma SplitOnceParts(before: seq<Block>, mid: seq<Block>, u: nat, idx: nat, at: nat)
    requires SplitOnce(before, mid, u, idx, at)
    ensures |mid| == |before| + 1 && mid[idx] == Block(before[idx].name, before[idx].insts[..at] + [Branch(u)])
    ensures mid[idx + 1] == Block(u, before[idx].insts[at..])
    ensures mid[..idx + 1] == before[..idx] + [mid[idx]] && mid[idx + 2..] == before[idx + 1..]
  {}

  lemma SplitBefore(before: seq<Block>, mid: seq<Block>, after: seq<Block>, u: nat, idx: nat, hi: nat, i: nat)
    requires SplitOnce(before, mid, u, idx, i) && idx + 1 < |mid| && BlockSplit(mid, after, u + 1, idx + 1, hi)
    requires before[idx].insts[i].Splits() && forall p :: 0 <= p < i ==> !before[idx].insts[p].Splits()
    ensures BlockSplit(before, after, u, idx, hi)
  {
    SplitOnceParts(before, mid, u, idx, i);
    PrependPrefix(mid[idx], after[idx + 1..hi], before[idx].insts, i, u);
    Slices(before, after, idx, hi, mid[idx]);
  }

  lemma SplitBehind(before: seq<Block>, mid: seq<Block>, after: seq<Block>, u: nat, idx: nat, hi: nat)
    requires SplitOnce(before, mid, u, idx, 1) && idx + 1 < |mid| && BlockSplit(mid, after, u + 1, idx + 1, hi)
    requires before[idx].insts[0].Splits() && (!before[idx].insts[1].IsTerminator() || before[idx].insts[1].CondBranch?)
    ensures BlockSplit(before, after, u, idx, hi)
  {
    SplitOnceParts(before, mid, u, idx, 1);
    PrependCall(mid[idx], after[idx + 1..hi], before[idx].insts, u);
    Slices(before, after, idx, hi, mid[idx]);
  }

  /** Instructions before the first splitting call do not matter to the pattern. */
  lemma PrefixIsNormal(head: Block, insts: seq<Inst>, i: nat)
    requires i < |insts| && forall p :: 0 <= p < i ==> !insts[p].Splits()
    requires |head.insts| == i + 1 && head.insts[..i] == insts[..i] && head.insts[i].Branch?
    ensures Normal(head.insts) && Settled(head.insts)
    ensures CallBeforeInvoke(insts[i..]) <==> CallBeforeInvoke(insts)
  {
    forall p | 0 <= p < |head.insts| ensures !head.insts[p].Splits() {
      assert p < i ==> head.insts[p] == head.insts[..i][p];
    }
    SuffixPattern(insts, i);
  }

  lemma SuffixPattern(insts: seq<Inst>, i: nat)
    requires i < |insts|
    requires forall p :: 0 <= p < i ==> !(insts[p].Splits() && insts[p + 1].Invoke? && insts[p + 1].Splits())
    ensures CallBeforeInvoke(insts[i..]) <==> CallBeforeInvoke(insts)
  {
    var rest := insts[i..];
    if CallBeforeInvoke(rest) {
      var p :| 0 <= p < |rest| - 1 && rest[p].Splits() && rest[p + 1].Invoke? && rest[p + 1].Splits();
      assert insts[i + p] == rest[p] && insts[i + p + 1] == rest[p + 1];
    }
    if CallBeforeInvoke(insts) {
      var p :| 0 <= p < |insts| - 1 && insts[p].Splits() && insts[p + 1].Invoke? && insts[p + 1].Splits();
      assert rest[p - i] == insts[p] && rest[p - i + 1] == insts[p + 1];
    }
  }

  /** A block that begins with a splitting call and is not split behind it. */
  lemma FirstStays(insts: seq<Inst>)
    requires WellFormed(insts) && insts[0].Splits()
    requires 1 < |insts| ==> insts[1].IsTerminator() && !insts[1].CondBranch?
    ensures Settled(insts) && (Normal(insts) <==> !CallBeforeInvoke(insts))
  {
    assert |insts| <= 2;
  }

  lemma {:induction false} ChainWeaken(chain: seq<Block>, name: nat, insts: seq<Inst>, unused: nat, unused': nat)
    requires IsChain(chain, name, insts, unused) && unused' <= unused
    ensures IsChain(chain, name, insts, unused')
    decreases |chain|
  {
    if |chain| > 1 {
      ChainWeaken(chain[1..], chain[1].name, insts[|chain[0].insts| - 1..], unused, unused');
    }
  }

  lemma NormalCall(call: Block)
    requires |call.insts| == 2 && call.insts[1].Branch? && call.insts[0].Splits()
    ensures Normal(call.insts) && Settled(call.insts)
  {}

  lemma ChainCons(head: Block, chain: seq<Block>, insts: seq<Inst>, n: nat, unused: nat)
    requires 0 < n <= |insts| && |chain| > 0 && unused <= chain[0].name
    requires head.insts == insts[..n] + [Branch(chain[0].name)] && IsChain(chain, chain[0].name, insts[n..], unused)
    ensures IsChain([head] + chain, head.name, insts, unused)
  {
    assert ([head] + chain)[1..] == chain;
  }

  // ---- what the new function means ----

  /** Block k of the old function is the chain of blocks starts[k] .. starts[k+1] of the new one. */
  ghost predicate Refines(before: seq<Block>, after: seq<Block>, starts: seq<nat>, unused: nat) {
    && |starts| == |before| + 1 && starts[0] == 0 && starts[|before|] == |after|
    && forall k :: 0 <= k < |before| ==> ChainAt(before, after, starts, unused, k)
  }

  ghost predicate ChainAt(before: seq<Block>, after: seq<Block>, starts: seq<nat>, unused: nat, k: int)
    requires |starts| == |before| + 1 && 0 <= k < |before|
  {
    && starts[k] < starts[k + 1] <= |after|
    && IsChain(after[starts[k]..starts[k + 1]], before[k].name, before[k].insts, unused)
  }

  /** After k original blocks: their chains are the blocks before lo, the rest is untouched. */
  ghost predicate Progress(list: seq<Block>, blocks: seq<Block>, starts: seq<nat>, u: nat, k: nat, lo: nat) {
    && k <= |list| && k <= lo <= |blocks| && blocks[lo..] == list[k..]
    && |starts| == k + 1 && starts[k] == lo && Refines(list[..k], blocks[..lo], starts, u)
    && AllSettled(blocks[..lo]) && (AllNormal(blocks[..lo]) <==> !SomeCallBeforeInvoke(list[..k]))
    && (lo == k <==> AllSettled(list[..k])) && (lo == k ==> blocks[..lo] == list[..k])
  }

  lemma NextOriginal(list: seq<Block>, before: seq<Block>, after: seq<Block>, starts: seq<nat>, u0: nat, u: nat, k: nat,
                     lo: nat, hi: nat)
    requires Progress(list, before, starts, u0, k, lo) && k < |list| && u0 <= u && lo < |before|
    requires BlockSplit(before, after, u, lo, hi)
    ensures Progress(list, after, starts + [hi], u0, k + 1, hi)
  {
    var b, chain, done := list[k], after[lo..hi], before[..lo];
    assert before[lo] == before[lo..][0] == list[k..][0] == b;
    assert before[lo + 1..] == before[lo..][1..] == list[k..][1..] == list[k + 1..];
    assert after[..hi] == done + chain;
    assert list[..k + 1] == list[..k] + [b];
    ChainWeaken(chain, b.name, b.insts, u, u0);
    RefinesSnoc(list[..k], done, starts, b, chain, u0);
    AppendPieces(done, chain, list[..k], b);
    if hi == k + 1 {
      assert chain == [b] by {
        assert |chain| == 1 && chain[0] == Block(b.name, b.insts);
      }
    }
  }

  lemma AppendPieces(done: seq<Block>, pieces: seq<Block>, before: seq<Block>, b: Block)
    ensures AllSettled(done) && AllSettled(pieces) ==> AllSettled(done + pieces)
    ensures AllNormal(done + pieces) <==> AllNormal(done) && AllNormal(pieces)
    ensures SomeCallBeforeInvoke(before + [b]) <==> SomeCallBeforeInvoke(before) || CallBeforeInvoke(b.insts)
    ensures AllSettled(before + [b]) <==> AllSettled(before) && Settled(b.insts)
  {
    var all, bs := done + pieces, before + [b];
    if AllNormal(all) {
      forall k | 0 <= k < |done| ensures Normal(done[k].insts) { assert all[k] == done[k]; }
      forall k | 0 <= k < |pieces| ensures Normal(pieces[k].insts) { assert all[|done| + k] == pieces[k]; }
    }
    if SomeCallBeforeInvoke(before) {
      var k :| 0 <= k < |before| && CallBeforeInvoke(before[k].insts);
      assert bs[k] == before[k];
    }
    assert bs[|before|] == b;
    if AllSettled(bs) {
      forall k | 0 <= k < |before| ensures Settled(before[k].insts) { assert bs[k] == before[k]; }
    }
  }

  lemma SliceOfPrefix(s: seq<Block>, t: seq<Block>, lo: nat, hi: nat)
    requires lo <= hi <= |s|
    ensures (s + t)[lo..hi] == s[lo..hi]
  {}

  lemma RefinesSnoc(before: seq<Block>, after: seq<Block>, starts: seq<nat>, b: Block, chain: seq<Block>, unused: nat)
    requires Refines(before, after, starts, unused) && IsChain(chain, b.name, b.insts, unused)
    ensures Refines(before + [b], after + chain, starts + [|after| + |chain|], unused)
  {
    var before', after', starts' := before + [b], after + chain, starts + [|after| + |chain|];
    forall k | 0 <= k < |before'|
      ensures ChainAt(before', after', starts', unused, k)
    {
      if k < |before| {
        assert ChainAt(before, after, starts, unused, k);
        SliceOfPrefix(after, chain, starts[k], starts[k + 1]);
      } else {
        assert after'[starts'[k]..starts'[k + 1]] == chain;
      }
    }
  }

  /** Execution may go from block x to block y. */
  predicate Step(blocks: seq<Block>, x: int, y: int) {
    && 0 <= x < |blocks| && 0 <= y < |blocks| && |blocks[x].insts| > 0
    && blocks[y].name in blocks[x].insts[|blocks[x].insts| - 1].Labels()
  }

  /** A well-formed block and its exits, constructor by constructor: one terminator, the last instruction, and from
      there to the target of an unconditional branch or to one of the targets of any other terminator. */
  lemma ExitsWrittenOut(blocks: seq<Block>, x: nat, y: nat)
    requires x < |blocks| && y < |blocks| && WellFormed(blocks[x].insts)
    ensures var insts, name := blocks[x].insts, blocks[y].name;
            var last := insts[|insts| - 1];
            && (forall p :: 0 <= p < |insts| - 1 ==> insts[p].Plain? || insts[p].Call?)
            && match last {
                 case Plain(_) => false
                 case Call(_, _) => false
                 case Branch(target) => Step(blocks, x, y) <==> name == target
                 case Invoke(_, _, targets) => Step(blocks, x, y) <==> name in targets
                 case CondBranch(_, targets) => Step(blocks, x, y) <==> name in targets
                 case Terminator(_, targets) => Step(blocks, x, y) <==> name in targets
               }
  {}

  /** Each of the four terminators may end a block. */
  lemma MayEnd(id: int, callee: Callee, targets: seq<nat>, target: nat)
    ensures WellFormed([Plain(id), Call(id, callee), Invoke(id, callee, targets)])
    ensures WellFormed([CondBranch(id, targets)]) && WellFormed([Branch(target)]) &&
            WellFormed([Terminator(id, targets)])
  {
    assert [Plain(id), Call(id, callee), Invoke(id, callee, targets)][2] == Invoke(id, callee, targets);
  }

  /** The original terminators go to original labels. */
  predicate TargetsOriginal(insts: seq<Inst>, unused: nat) {
    forall p :: 0 <= p < |insts| ==> forall t :: t in insts[p].Labels() ==> t < unused
  }

  ghost predicate AllTargetsOriginal(blocks: seq<Block>, unused: nat) {
    forall k :: 0 <= k < |blocks| ==> TargetsOriginal(blocks[k].insts, unused)
  }

  /** What a block contributes: its instructions, without an inserted branch (one to a label that is not original). */
  function Own(insts: seq<Inst>, unused: nat): seq<Inst> {
    if |insts| > 0 && insts[|insts| - 1].Branch? && insts[|insts| - 1].target >= unused then insts[..|insts| - 1]
      else insts
  }

  /** The instructions executed along a sequence of blocks. */
  function Flow(blocks: seq<Block>, path: seq<nat>, unused: nat): seq<Inst> {
    if path == [] then []
    else (if path[0] < |blocks| then Own(blocks[path[0]].insts, unused) else []) + Flow(blocks, path[1..], unused)
  }

  lemma FlowCons(blocks: seq<Block>, k: nat, rest: seq<nat>, unused: nat)
    requires k < |blocks|
    ensures Flow(blocks, [k] + rest, unused) == Own(blocks[k].insts, unused) + Flow(blocks, rest, unused)
  {
    assert ([k] + rest)[1..] == rest;
  }

  lemma Associative(x: seq<Inst>, y: seq<Inst>, z: seq<Inst>)
    ensures x + (y + z) == (x + y) + z
  {}

  lemma {:induction false} FlowConcat(blocks: seq<Block>, p: seq<nat>, q: seq<nat>, unused: nat)
    ensures Flow(blocks, p + q, unused) == Flow(blocks, p, unused) + Flow(blocks, q, unused)
    decreases |p|
  {
    if p == [] {
      assert p + q == q;
    } else {
      FlowConcat(blocks, p[1..], q, unused);
      assert (p + q)[1..] == p[1..] + q && (p + q)[0] == p[0];
      Associative(if p[0] < |blocks| then Own(blocks[p[0]].insts, unused) else [], Flow(blocks, p[1..], unused),
                  Flow(blocks, q, unused));
    }
  }

  function Range(lo: nat, hi: nat): seq<nat>
    requires lo <= hi
  { seq(hi - lo, i requires 0 <= i => lo + i) }

  /** Executing a chain from its first block to its last executes the instructions of the original block. */
  lemma {:induction false} ChainExecutes(blocks: seq<Block>, lo: nat, hi: nat, name: nat, insts: seq<Inst>, unused: nat)
    requires lo < hi <= |blocks| && IsChain(blocks[lo..hi], name, insts, unused) && TargetsOriginal(insts, unused)
    ensures Flow(blocks, Range(lo, hi), unused) == insts
    decreases hi - lo
  {
    var chain, later := blocks[lo..hi], Range(lo + 1, hi);
    assert Range(lo, hi) == [lo] + later;
    FlowCons(blocks, lo, later, unused);
    if |chain| == 1 {
      OwnOriginal(insts, unused);
    } else {
      var n := |chain[0].insts| - 1;
      var rest := insts[n..];
      assert chain[1..] == blocks[lo + 1..hi];
      ChainExecutes(blocks, lo + 1, hi, chain[1].name, rest, unused);
      WithoutBranch(chain[0].insts, insts, n, chain[1].name, unused);
    }
  }

  /** The first block of a chain contributes the instructions before its inserted branch. */
  lemma WithoutBranch(first: seq<Inst>, insts: seq<Inst>, n: nat, target: nat, unused: nat)
    requires n <= |insts| && first == insts[..n] + [Branch(target)] && unused <= target
    ensures Own(first, unused) + insts[n..] == insts
  {
    assert first[|first| - 1] == Branch(target) && first[..|first| - 1] == insts[..n];
  }

  lemma OwnOriginal(insts: seq<Inst>, unused: nat)
    requires TargetsOriginal(insts, unused)
    ensures Own(insts, unused) == insts
  {
    if |insts| > 0 && insts[|insts| - 1].Branch? {
      assert insts[|insts| - 1].target in insts[|insts| - 1].Labels();
    }
  }

  /** Block i of a chain: it ends in the inserted branch to the next one, which has a new label, or, the
      last one, in the original terminator. */
  lemma {:induction false} ChainEnds(chain: seq<Block>, name: nat, insts: seq<Inst>, unused: nat, i: nat)
    requires IsChain(chain, name, insts, unused) && i < |chain| && |chain[|chain| - 1].insts| > 0
    ensures i + 1 < |chain| ==>
              |chain[i].insts| > 0 && chain[i].insts[|chain[i].insts| - 1] == Branch(chain[i + 1].name)
                                && unused <= chain[i + 1].name
    ensures |insts| > 0
    ensures i + 1 == |chain| ==> chain[i].insts[|chain[i].insts| - 1] == insts[|insts| - 1]
    decreases |chain|
  {
    if |chain| > 1 {
      var n, rest := |chain[0].insts| - 1, chain[1..];
      ChainEnds(rest, chain[1].name, insts[n..], unused, if i == 0 then 0 else i - 1);
    }
  }

  /** The new function is the old one with chains for blocks, all blocks well-formed, labels distinct. */
  ghost predicate Refined(before: seq<Block>, after: seq<Block>, starts: seq<nat>, unused: nat, bound: nat) {
    && Refines(before, after, starts, unused) && Distinct(after, bound) && Distinct(before, unused) &&
      AllWellFormed(after)
    && AllTargetsOriginal(before, unused)
  }

  /** Every new block belongs to a chain. */
  lemma {:induction false} ChainOf(before: seq<Block>, after: seq<Block>, starts: seq<nat>, unused: nat, n: nat, y: nat)
    returns (k: nat)
    requires Refines(before, after, starts, unused) && n <= |before| && y < starts[n]
    ensures k < n && starts[k] <= y < starts[k + 1]
  {
    assert n != 0;
    if starts[n - 1] <= y {
      k := n - 1;
    } else {
      k := ChainOf(before, after, starts, unused, n - 1, y);
    }
  }

  lemma SliceAt(blocks: seq<Block>, lo: nat, hi: nat, i: nat)
    requires lo + i < hi <= |blocks|
    ensures |blocks[lo..hi]| == hi - lo && blocks[lo..hi][i] == blocks[lo + i]
  {}

  /** A new block with an original label starts the chain of the block with that label. */
  lemma OriginalLabel(before: seq<Block>, after: seq<Block>, starts: seq<nat>, unused: nat, bound: nat, y: nat)
    returns (k: nat)
    requires Refined(before, after, starts, unused, bound) && y < |after| && after[y].name < unused
    ensures k < |before| && y == starts[k] && after[y].name == before[k].name
  {
    k := ChainOf(before, after, starts, unused, |before|, y);
    assert ChainAt(before, after, starts, unused, k);
    var chain, i := after[starts[k]..starts[k + 1]], y - starts[k];
    SliceAt(after, starts[k], starts[k + 1], i);
    SliceAt(after, starts[k], starts[k + 1], |chain| - 1);
    if i > 0 {
      ChainEnds(chain, before[k].name, before[k].insts, unused, i - 1);
    }
  }

  /** Inside a chain the only step is to the next block of the chain. */
  lemma ChainStep(before: seq<Block>, after: seq<Block>, starts: seq<nat>, unused: nat, bound: nat, k: nat, x: nat,
                  y: nat)
    requires Refined(before, after, starts, unused, bound) && k < |before| && starts[k] <= x && x + 1 < starts[k + 1] &&
             y < |after|
    ensures starts[k + 1] <= |after| && (Step(after, x, y) <==> y == x + 1)
  {
    assert ChainAt(before, after, starts, unused, k);
    var chain, i := after[starts[k]..starts[k + 1]], x - starts[k];
    SliceAt(after, starts[k], starts[k + 1], i);
    SliceAt(after, starts[k], starts[k + 1], i + 1);
    SliceAt(after, starts[k], starts[k + 1], |chain| - 1);
    ChainEnds(chain, before[k].name, before[k].insts, unused, i);
  }

  /** The last block of a chain ends in the original terminator. */
  lemma ChainExit(before: seq<Block>, after: seq<Block>, starts: seq<nat>, unused: nat, bound: nat, k: nat)
    requires Refined(before, after, starts, unused, bound) && k < |before|
    ensures 0 < starts[k + 1] <= |after|
    ensures var last, insts := after[starts[k + 1] - 1].insts, before[k].insts;
            |last| > 0 && |insts| > 0 && last[|last| - 1] == insts[|insts| - 1]
  {
    assert ChainAt(before, after, starts, unused, k);
    var chain := after[starts[k]..starts[k + 1]];
    SliceAt(after, starts[k], starts[k + 1], |chain| - 1);
    ChainEnds(chain, before[k].name, before[k].insts, unused, |chain| - 1);
  }

  lemma ChainStart(before: seq<Block>, after: seq<Block>, starts: seq<nat>, unused: nat, bound: nat, k: nat)
    requires Refined(before, after, starts, unused, bound) && k < |before|
    ensures starts[k] < |after| && after[starts[k]].name == before[k].name
  {
    assert ChainAt(before, after, starts, unused, k);
    SliceAt(after, starts[k], starts[k + 1], 0);
  }

  lemma ExitsToStart(before: seq<Block>, after: seq<Block>, starts: seq<nat>, unused: nat, bound: nat, k: nat, y: nat)
    returns (k': nat)
    requires Refined(before, after, starts, unused, bound) && k < |before| && y < |after|
    requires 0 < starts[k + 1] && Step(after, starts[k + 1] - 1, y)
    ensures Step(before, k, k') && k' < |before| && y == starts[k']
  {
    ChainExit(before, after, starts, unused, bound, k);
    assert TargetsOriginal(before[k].insts, unused);
    k' := OriginalLabel(before, after, starts, unused, bound, y);
  }

  /** From the last block of a chain the steps are those of the original block, to the starts of the chains. */
  lemma ExitStep(before: seq<Block>, after: seq<Block>, starts: seq<nat>, unused: nat, bound: nat, k: nat, y: nat)
    requires Refined(before, after, starts, unused, bound) && k < |before| && y < |after|
    ensures 0 < starts[k + 1] <= |after|
    ensures Step(after, starts[k + 1] - 1, y) <==> exists k' :: Step(before, k, k') && y == starts[k']
  {
    ChainExit(before, after, starts, unused, bound, k);
    if Step(after, starts[k + 1] - 1, y) {
      var k' := ExitsToStart(before, after, starts, unused, bound, k, y);
    }
    if k' :| Step(before, k, k') && y == starts[k'] {
      ChainStart(before, after, starts, unused, bound, k');
    }
  }

  /** A sequence of blocks that execution may go through. */
  predicate IsRun(blocks: seq<Block>, r: seq<nat>) {
    && (forall i :: 0 <= i < |r| ==> r[i] < |blocks|)
    && (forall i :: 0 <= i < |r| - 1 ==> Step(blocks, r[i], r[i + 1]))
  }

  /** The blocks that a run of the old function becomes. */
  function Expand(starts: seq<nat>, q: seq<nat>): seq<nat> {
    if q == [] then []
    else (if q[0] + 1 < |starts| && starts[q[0]] <= starts[q[0] + 1] then Range(starts[q[0]], starts[q[0] + 1]) else [])
         + Expand(starts, q[1..])
  }

  lemma RunConcat(blocks: seq<Block>, r: seq<nat>, r': seq<nat>)
    requires IsRun(blocks, r) && IsRun(blocks, r') && (r != [] && r' != [] ==> Step(blocks, r[|r| - 1], r'[0]))
    ensures IsRun(blocks, r + r')
  {}

  lemma InsideChain(before: seq<Block>, after: seq<Block>, starts: seq<nat>, unused: nat, bound: nat, k: nat,
                    chain: seq<nat>)
    requires Refined(before, after, starts, unused, bound) && k < |before|
    requires starts[k] < starts[k + 1] <= |after| && chain == Range(starts[k], starts[k + 1])
    ensures IsRun(after, chain)
  {
    forall i | 0 <= i < |chain| - 1 ensures Step(after, chain[i], chain[i + 1]) {
      ChainStep(before, after, starts, unused, bound, k, starts[k] + i, starts[k] + i + 1);
    }
  }

  /** The blocks of a chain are a run with the original instructions. */
  lemma ChainRuns(before: seq<Block>, after: seq<Block>, starts: seq<nat>, unused: nat, bound: nat, k: nat)
    requires Refined(before, after, starts, unused, bound) && k < |before|
    ensures starts[k] < starts[k + 1] <= |after| && IsRun(after, Range(starts[k], starts[k + 1]))
    ensures Flow(after, Range(starts[k], starts[k + 1]), unused) == Own(before[k].insts, unused)
  {
    assert ChainAt(before, after, starts, unused, k);
    InsideChain(before, after, starts, unused, bound, k, Range(starts[k], starts[k + 1]));
    ChainExecutes(after, starts[k], starts[k + 1], before[k].name, before[k].insts, unused);
    OwnOriginal(before[k].insts, unused);
  }

  lemma ExpandCons(starts: seq<nat>, k: nat, rest: seq<nat>)
    requires k + 1 < |starts| && starts[k] <= starts[k + 1]
    ensures Expand(starts, [k] + rest) == Range(starts[k], starts[k + 1]) + Expand(starts, rest)
  {
    assert ([k] + rest)[1..] == rest;
  }

  /** Every run of the old function is a run of the new one, with the same instructions. */
  lemma {:induction false} RunsPreserved(before: seq<Block>, after: seq<Block>, starts: seq<nat>, unused: nat,
                                         bound: nat, q: seq<nat>)
    requires Refined(before, after, starts, unused, bound) && IsRun(before, q)
    ensures IsRun(after, Expand(starts, q)) && Flow(after, Expand(starts, q), unused) == Flow(before, q, unused)
    ensures q != [] ==> q[0] < |before| && Expand(starts, q) != [] && Expand(starts, q)[0] == starts[q[0]]
    decreases |q|
  {
    if q != [] {
      var k, rest := q[0], q[1..];
      assert q == [k] + rest && IsRun(before, rest);
      RunsPreserved(before, after, starts, unused, bound, rest);
      if rest != [] {
        assert Step(before, q[0], q[1]);
      }
      RunGrows(before, after, starts, unused, bound, k, rest, Expand(starts, rest));
    }
  }

  lemma RunGrows(before: seq<Block>, after: seq<Block>, starts: seq<nat>, unused: nat, bound: nat, k: nat,
                 rest: seq<nat>, tail: seq<nat>)
    requires Refined(before, after, starts, unused, bound) && k < |before| && tail == Expand(starts, rest) &&
             IsRun(after, tail)
    requires Flow(after, tail, unused) == Flow(before, rest, unused)
    requires rest == [] ==> tail == []
    requires rest != [] ==> rest[0] < |before| && Step(before, k, rest[0]) && tail != [] && tail[0] == starts[rest[0]]
    ensures var path := Expand(starts, [k] + rest);
            && IsRun(after, path) && Flow(after, path, unused) == Flow(before, [k] + rest, unused) && path != [] &&
              path[0] == starts[k]
  {
    ChainRuns(before, after, starts, unused, bound, k);
    if rest != [] {
      EnterChain(before, after, starts, unused, bound, k, rest[0]);
    }
    StepsGrow(after, starts, k, rest, tail);
    FlowGrows(before, after, starts, unused, k, rest, tail);
  }

  lemma StepsGrow(after: seq<Block>, starts: seq<nat>, k: nat, rest: seq<nat>, tail: seq<nat>)
    requires k + 1 < |starts| && starts[k] < starts[k + 1] && tail == Expand(starts, rest)
    requires IsRun(after, Range(starts[k], starts[k + 1])) && IsRun(after, tail)
    requires tail != [] ==> Step(after, starts[k + 1] - 1, tail[0])
    ensures var path := Expand(starts, [k] + rest);
            IsRun(after, path) && path != [] && path[0] == starts[k]
  {
    var chain := Range(starts[k], starts[k + 1]);
    assert chain != [] && chain[0] == starts[k] && chain[|chain| - 1] == starts[k + 1] - 1;
    RunConcat(after, chain, tail);
    ExpandCons(starts, k, rest);
    assert (chain + tail)[0] == chain[0];
  }

  lemma FlowGrows(before: seq<Block>, after: seq<Block>, starts: seq<nat>, unused: nat, k: nat, rest: seq<nat>,
                  tail: seq<nat>)
    requires k + 1 < |starts| && starts[k] <= starts[k + 1] && k < |before| && tail == Expand(starts, rest)
    requires Flow(after, Range(starts[k], starts[k + 1]), unused) == Own(before[k].insts, unused)
    requires Flow(after, tail, unused) == Flow(before, rest, unused)
    ensures Flow(after, Expand(starts, [k] + rest), unused) == Flow(before, [k] + rest, unused)
  {
    ExpandCons(starts, k, rest);
    FlowCons(before, k, rest, unused);
    FlowConcat(after, Range(starts[k], starts[k + 1]), tail, unused);
  }

  lemma EnterChain(before: seq<Block>, after: seq<Block>, starts: seq<nat>, unused: nat, bound: nat, k: nat, k': nat)
    requires Refined(before, after, starts, unused, bound) && k < |before| && k' < |before| && Step(before, k, k')
    ensures 0 < starts[k + 1] && Step(after, starts[k + 1] - 1, starts[k'])
  {
    ChainRuns(before, after, starts, unused, bound, k');
    ExitStep(before, after, starts, unused, bound, k, starts[k']);
  }

  /** A run that starts at the start of a chain follows it. */
  lemma {:induction false} FollowsChain(before: seq<Block>, after: seq<Block>, starts: seq<nat>, unused: nat,
                                        bound: nat, k: nat, r: seq<nat>, i: nat)
    requires Refined(before, after, starts, unused, bound) && IsRun(after, r) && k < |before| && r != [] &&
             r[0] == starts[k]
    requires i < |r| && starts[k] + i < starts[k + 1]
    ensures r[i] == starts[k] + i
  {
    if i != 0 {
      FollowsChain(before, after, starts, unused, bound, k, r, i - 1);
      assert Step(after, r[i - 1], r[i]);
      ChainStep(before, after, starts, unused, bound, k, r[i - 1], r[i]);
    }
  }

  /** It is part of the chain, or goes through all of it. */
  lemma ThroughChain(before: seq<Block>, after: seq<Block>, starts: seq<nat>, unused: nat, bound: nat, k: nat,
                     r: seq<nat>)
    requires Refined(before, after, starts, unused, bound) && IsRun(after, r) && k < |before| && r != [] &&
             r[0] == starts[k]
    ensures starts[k] < starts[k + 1]
    ensures var chain := Range(starts[k], starts[k + 1]);
            if |r| <= |chain| then r <= chain else chain <= r && Step(after, starts[k + 1] - 1, r[|chain|])
  {
    assert ChainAt(before, after, starts, unused, k);
    var chain := Range(starts[k], starts[k + 1]);
    forall i | 0 <= i < |r| && i < |chain| ensures r[i] == chain[i] {
      FollowsChain(before, after, starts, unused, bound, k, r, i);
    }
    if |r| > |chain| {
      assert Step(after, r[|chain| - 1], r[|chain|]);
    }
  }

  /** And the new function has no other runs: one that starts where an original block starts is the
      beginning of what a run of the old function becomes. */
  lemma {:induction false} RunsReflected(before: seq<Block>, after: seq<Block>, starts: seq<nat>, unused: nat,
                                         bound: nat, k: nat, r: seq<nat>)
    returns (q: seq<nat>)
    requires Refined(before, after, starts, unused, bound) && IsRun(after, r) && k < |before| && r != [] &&
             r[0] == starts[k]
    ensures IsRun(before, q) && q != [] && q[0] == k && r <= Expand(starts, q)
    decreases |r|
  {
    ThroughChain(before, after, starts, unused, bound, k, r);
    var chain := Range(starts[k], starts[k + 1]);
    if |r| <= |chain| {
      q := [k];
      ExpandCons(starts, k, []);
      assert [k] + [] == [k];
    } else {
      var k' := NextChain(before, after, starts, unused, bound, k, r[|chain|]);
      var later := r[|chain|..];
      RunTail(after, r, |chain|);
      var rest := RunsReflected(before, after, starts, unused, bound, k', later);
      q := [k] + rest;
      RunConcat(before, [k], rest);
      PrefixGrows(starts, k, rest, r, chain, later);
    }
  }

  lemma NextChain(before: seq<Block>, after: seq<Block>, starts: seq<nat>, unused: nat, bound: nat, k: nat, y: nat)
    returns (k': nat)
    requires Refined(before, after, starts, unused, bound) && k < |before| && y < |after|
    requires 0 < starts[k + 1] && Step(after, starts[k + 1] - 1, y)
    ensures k' < |before| && Step(before, k, k') && y == starts[k']
  {
    ExitStep(before, after, starts, unused, bound, k, y);
    k' :| Step(before, k, k') && y == starts[k'];
  }

  lemma RunTail(blocks: seq<Block>, r: seq<nat>, n: nat)
    requires IsRun(blocks, r) && n <= |r|
    ensures IsRun(blocks, r[n..])
  {
    var later := r[n..];
    forall i | 0 <= i < |later| - 1 ensures Step(blocks, later[i], later[i + 1]) {
      assert Step(blocks, r[n + i], r[n + i + 1]);
    }
  }

  lemma PrefixGrows(starts: seq<nat>, k: nat, rest: seq<nat>, r: seq<nat>, chain: seq<nat>, later: seq<nat>)
    requires k + 1 < |starts| && starts[k] <= starts[k + 1] && chain == Range(starts[k], starts[k + 1]) && chain <= r &&
             later == r[|chain|..]
    requires later <= Expand(starts, rest)
    ensures r <= Expand(starts, [k] + rest)
  {
    ExpandCons(starts, k, rest);
    assert r == chain + later;
  }
}
