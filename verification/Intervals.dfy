/** The SimPoint tracer (`log_helper.cpp`) and profiler (`profile_helper.cpp`) as step functions over
    runs of basic blocks, and what they agree on. */
module Intervals {

  /** One execution of a basic block: its id, its instruction count and the cycles it took. */
  datatype Event = Event(bb: int, size: nat, cycles: nat)

  /** A run without its last block. */
  function Before(events: seq<Event>): (before: seq<Event>)
    requires events != []
    ensures |before| < |events|
  { events[..|events| - 1] }

  function Last(events: seq<Event>): Event
    requires events != []
  { events[|events| - 1] }

  /** Written to the trace when execution leaves the traced interval. */
  const MARKER := 4294967295

  // ---- the instruction counter, shared by both ----

  datatype Counter = Counter(insns: nat, interval: nat)

  function Count(c: Counter, threshold: nat, inc: nat): Counter {
    if c.insns + inc >= threshold then Counter(0, c.interval + 1) else Counter(c.insns + inc, c.interval)
  }

  function Counted(events: seq<Event>, threshold: nat): Counter {
    if events == [] then Counter(0, 0)
    else Count(Counted(Before(events), threshold), threshold, Last(events).size)
  }

  // ---- the tracer ----

  /** `dumped` is everything written to the trace, `starts` the start records. */
  datatype Trace = Trace(counter: Counter, flag: bool, dumped: seq<int>, starts: seq<int>)

  /** `update_dump_status`, called when a block starts. */
  function DumpStatus(t: Trace, target: nat, bb: int): Trace {
    var here := t.counter.interval == target;
    t.(dumped := if t.flag then t.dumped + [if here then bb else MARKER] else t.dumped,
       starts := if here && !t.flag then t.starts + [bb] else t.starts,
       flag := here)
  }

  /** `update_insncount_interval`, called when it ends. */
  function EndBlock(t: Trace, threshold: nat, inc: nat): Trace { t.(counter := Count(t.counter, threshold, inc)) }

  function Traced(events: seq<Event>, threshold: nat, target: nat): Trace {
    if events == [] then Trace(Counter(0, 0), false, [], [])
    else
      var e := Last(events);
      EndBlock(DumpStatus(Traced(Before(events), threshold, target), target, e.bb), threshold, e.size)
  }

  // ---- the profiler ----

  /** `lines` and `cycleLines` are the lines written, as maps from printed name to count and to cycles;
      `first` is the start file. */
  datatype Profile = Profile(insns: nat, counts: map<int, nat>, cycles: map<int, nat>,
                             lines: seq<map<int, nat>>, cycleLines: seq<map<int, nat>>, first: seq<int>)

  function Add(m: map<int, nat>, bb: int, n: nat): map<int, nat> { m[bb := CountIn(m, bb) + n] }

  function CountIn(m: map<int, nat>, bb: int): nat { if bb in m then m[bb] else 0 }

  /** A line prints every id plus one. */
  function Names(m: map<int, nat>): set<int> { set bb | bb in m :: bb + 1 }

  function Printed(m: map<int, nat>): map<int, nat> { map name | name in Names(m) :: m[name - 1] }

  /** Adding to an entry that is made first if it is missing. */
  lemma AddSteps(m: map<int, nat>, made: map<int, nat>, bb: int, n: nat)
    requires made == if bb in m then m else m[bb := 0]
    ensures made[bb := made[bb] + n] == Add(m, bb, n)
  {}

  /** `profile_interface` */
  function ProfileBlock(p: Profile, e: Event, threshold: nat): Profile {
    var first := if p.insns == 0 then p.first + [e.bb] else p.first;
    var counts, cycles := Add(p.counts, e.bb, 1), Add(p.cycles, e.bb, e.cycles);
    if p.insns + e.size >= threshold
    then Profile(0, map[], map[], p.lines + [Printed(counts)], p.cycleLines + [Printed(cycles)], first)
    else Profile(p.insns + e.size, counts, cycles, p.lines, p.cycleLines, first)
  }

  function Profiled(events: seq<Event>, threshold: nat): Profile {
    if events == [] then Profile(0, map[], map[], [], [], [])
    else ProfileBlock(Profiled(Before(events), threshold), Last(events), threshold)
  }

  /** `profiler_finish` writes what has been counted since the last lines as one more line in each file. */
  function AllLines(p: Profile): seq<map<int, nat>> { p.lines + [Printed(p.counts)] }
  function AllCycleLines(p: Profile): seq<map<int, nat>> { p.cycleLines + [Printed(p.cycles)] }

  // ---- the blocks of an interval ----

  /** The last block of the run starts in interval t. */
  predicate LastInside(events: seq<Event>, threshold: nat, t: nat) {
    events != [] && Counted(Before(events), threshold).interval == t
  }

  /** The blocks that start in interval t, in order. */
  function Blocks(events: seq<Event>, threshold: nat, t: nat): seq<int> {
    if events == [] then []
    else Blocks(Before(events), threshold, t) + if LastInside(events, threshold, t) then [Last(events).bb] else []
  }

  /** Their instruction total. */
  function Total(events: seq<Event>, threshold: nat, t: nat): nat {
    if events == [] then 0
    else Total(Before(events), threshold, t) + if LastInside(events, threshold, t) then Last(events).size else 0
  }

  /** The cycles that block bb took in interval t, and in the whole run. */
  function CyclesIn(events: seq<Event>, threshold: nat, t: nat, bb: int): nat {
    if events == [] then 0
    else CyclesIn(Before(events), threshold, t, bb)
         + if LastInside(events, threshold, t) && Last(events).bb == bb then Last(events).cycles else 0
  }

  function Cycles(events: seq<Event>, bb: int): nat {
    if events == [] then 0 else Cycles(Before(events), bb) + if Last(events).bb == bb then Last(events).cycles else 0
  }

  function CountMap(s: seq<int>): map<int, nat> {
    if s == [] then map[] else Add(CountMap(s[..|s| - 1]), s[|s| - 1], 1)
  }

  lemma {:induction false} CountMapCounts(s: seq<int>)
    ensures forall bb :: bb in CountMap(s) <==> bb in s
    ensures forall bb :: bb in s ==> CountMap(s)[bb] == multiset(s)[bb]
  {
    if s != [] {
      CountMapCounts(s[..|s| - 1]);
      assert s == s[..|s| - 1] + [s[|s| - 1]];
    }
  }

  /** A line in numbers: the names are the ids plus one, each with how often the id occurs. */
  lemma PrintedCounts(s: seq<int>, bb: int)
    ensures bb + 1 in Printed(CountMap(s)) <==> bb in s
    ensures bb in s ==> Printed(CountMap(s))[bb + 1] == multiset(s)[bb]
  {
    CountMapCounts(s);
    NameOf(CountMap(s), bb);
  }

  lemma CountMapSnoc(s: seq<int>, bb: int)
    ensures CountMap(s + [bb]) == Add(CountMap(s), bb, 1)
  {
    assert (s + [bb])[..|s|] == s;
  }

  // ---- what the tracer records ----

  /** Did some block start after interval t had ended? */
  predicate StartedLater(events: seq<Event>, threshold: nat, t: nat) {
    events != [] && Counted(Before(events), threshold).interval > t
  }

  lemma {:induction false} NothingBeyond(events: seq<Event>, threshold: nat, t: nat)
    requires t >= Counted(events, threshold).interval
    ensures t > Counted(events, threshold).interval ==> Blocks(events, threshold, t) == []
    ensures !StartedLater(events, threshold, t)
  {
    if events != [] {
      NothingBeyond(Before(events), threshold, t);
    }
  }

  /** Every interval before the current one contains a block. */
  lemma {:induction false} PastIntervalsNonempty(events: seq<Event>, threshold: nat, t: nat)
    requires t < Counted(events, threshold).interval
    ensures Blocks(events, threshold, t) != []
  {
    var before := Before(events);
    if t < Counted(before, threshold).interval {
      PastIntervalsNonempty(before, threshold, t);
    }
  }

  function ExpectedDump(blocks: seq<int>, marked: bool): seq<int> {
    (if blocks == [] then [] else blocks[1..]) + (if marked then [0xFFFF_FFFF] else [])
  }

  /** The tracer for interval t has written one start record, the first block of the interval (none if
      the interval was never reached), then the ids of its other blocks in order, then one end marker
      exactly if a block starts after the interval has ended, and nothing more. */
  predicate Records(r: Trace, blocks: seq<int>, marked: bool) {
    r.starts == (if blocks == [] then [] else [blocks[0]]) && r.dumped == ExpectedDump(blocks, marked)
  }

  lemma DumpInside(r: Trace, blocks: seq<int>, t: nat, bb: int)
    requires Records(r, blocks, false) && (r.flag <==> blocks != []) && r.counter.interval == t
    ensures Records(DumpStatus(r, t, bb), blocks + [bb], false)
  {
    if blocks != [] {
      assert (blocks + [bb])[1..] == blocks[1..] + [bb];
    }
  }

  lemma DumpOutside(r: Trace, blocks: seq<int>, marked: bool, t: nat, bb: int)
    requires Records(r, blocks, marked) && r.counter.interval != t && (r.flag ==> !marked)
    ensures Records(DumpStatus(r, t, bb), blocks, marked || r.flag)
  {}

  /** r is the state of the tracer after a run. */
  predicate RecordsRun(r: Trace, events: seq<Event>, threshold: nat, t: nat) {
    && r.counter == Counted(events, threshold)
    && (r.flag <==> LastInside(events, threshold, t))
    && Records(r, Blocks(events, threshold, t), StartedLater(events, threshold, t))
  }

  /** In every run, for every interval. */
  lemma {:induction false} TraceRecordsInterval(events: seq<Event>, threshold: nat, t: nat)
    ensures RecordsRun(Traced(events, threshold, t), events, threshold, t)
  {
    if events != [] {
      TraceRecordsInterval(Before(events), threshold, t);
      if Counted(Before(events), threshold).interval == t {
        RecordsInside(Traced(Before(events), threshold, t), events, threshold, t);
      } else {
        RecordsOutside(Traced(Before(events), threshold, t), events, threshold, t);
      }
    }
  }

  lemma RecordsInside(r: Trace, events: seq<Event>, threshold: nat, t: nat)
    requires events != [] && RecordsRun(r, Before(events), threshold, t)
    requires Counted(Before(events), threshold).interval == t
    ensures RecordsRun(EndBlock(DumpStatus(r, t, Last(events).bb), threshold, Last(events).size), events, threshold, t)
  {
    var before := Before(events);
    NothingBeyond(before, threshold, t);
    if LastInside(before, threshold, t) {
      FlagMeansNonempty(before, threshold, t);
    } else {
      NotYetReached(before, threshold, t);
    }
    DumpInside(r, Blocks(before, threshold, t), t, Last(events).bb);
  }

  lemma RecordsOutside(r: Trace, events: seq<Event>, threshold: nat, t: nat)
    requires events != [] && RecordsRun(r, Before(events), threshold, t)
    requires Counted(Before(events), threshold).interval != t
    ensures RecordsRun(EndBlock(DumpStatus(r, t, Last(events).bb), threshold, Last(events).size), events, threshold, t)
  {
    var before := Before(events);
    MarkerOnce(before, threshold, t);
    DumpOutside(r, Blocks(before, threshold, t), StartedLater(before, threshold, t), t, Last(events).bb);
    assert Blocks(events, threshold, t) == Blocks(before, threshold, t);
  }

  /** The interval advances by at most one block at a time, so leaving interval t is noticed by the
      next block to start. */
  lemma MarkerOnce(events: seq<Event>, threshold: nat, t: nat)
    requires Counted(events, threshold).interval != t
    ensures LastInside(events, threshold, t) ==>
              !StartedLater(events, threshold, t) && Counted(events, threshold).interval > t
    ensures Counted(events, threshold).interval > t <==>
              StartedLater(events, threshold, t) || LastInside(events, threshold, t)
  {
    if events != [] {
      var c, c' := Counted(Before(events), threshold).interval, Counted(events, threshold).interval;
      assert c <= c' <= c + 1;
    }
  }

  lemma FlagMeansNonempty(events: seq<Event>, threshold: nat, t: nat)
    requires events != [] && Counted(Before(events), threshold).interval == t
    ensures Blocks(events, threshold, t) != []
  {}

  lemma NotYetReached(events: seq<Event>, threshold: nat, t: nat)
    requires Counted(events, threshold).interval == t
    requires events != [] ==> Counted(Before(events), threshold).interval != t
    ensures Blocks(events, threshold, t) == []
  {
    if events != [] {
      NothingBeyond(Before(events), threshold, t);
    }
  }

  // ---- what the profiler counts ----

  predicate LineCounts(p: Profile, events: seq<Event>, threshold: nat, q: nat) {
    q < |p.lines| && p.lines[q] == Printed(CountMap(Blocks(events, threshold, q)))
  }

  /** Lines, and what has been counted since the last of them, are those of the intervals of the run. */
  ghost predicate CountsIntervals(p: Profile, events: seq<Event>, threshold: nat) {
    var c := Counted(events, threshold);
    && p.insns == c.insns && |p.lines| == c.interval
    && p.counts == CountMap(Blocks(events, threshold, c.interval))
    && forall q :: 0 <= q < c.interval ==> LineCounts(p, events, threshold, q)
  }

  /** In every run, line q of the profiler counts exactly the blocks of interval q, full lines and the
      last line alike. */
  lemma {:induction false} ProfileCountsIntervals(events: seq<Event>, threshold: nat)
    ensures CountsIntervals(Profiled(events, threshold), events, threshold)
  {
    if events != [] {
      ProfileCountsIntervals(Before(events), threshold);
      NextCounted(events, threshold, Profiled(Before(events), threshold));
    }
  }

  lemma NextCounted(events: seq<Event>, threshold: nat, p: Profile)
    requires events != [] && CountsIntervals(p, Before(events), threshold)
    ensures CountsIntervals(ProfileBlock(p, Last(events), threshold), events, threshold)
  {
    var before, e := Before(events), Last(events);
    var c, p' := Counted(before, threshold), ProfileBlock(p, e, threshold);
    CountedSoFar(events, threshold, p.counts, c.interval);
    LinesSoFar(events, threshold, p, p');
    assert Counted(events, threshold) == Count(c, threshold, e.size);
    if c.insns + e.size >= threshold {
      NothingBeyond(before, threshold, c.interval + 1);
      OtherInterval(events, threshold, c.interval + 1);
      LineWritten(events, threshold, p, p', Add(p.counts, e.bb, 1), c.interval);
    } else {
      LineOpen(events, threshold, p', c.interval);
    }
  }

  /** The last block completes line c ... */
  lemma LineWritten(events: seq<Event>, threshold: nat, p: Profile, p': Profile, counts: map<int, nat>, c: nat)
    requires Counted(events, threshold) == Counter(0, c + 1) && Blocks(events, threshold, c + 1) == []
    requires |p.lines| == c && p'.insns == 0 && p'.counts == map[] && p'.lines == p.lines + [Printed(counts)]
    requires counts == CountMap(Blocks(events, threshold, c))
    requires forall q :: 0 <= q < c ==> LineCounts(p', events, threshold, q)
    ensures CountsIntervals(p', events, threshold)
  {
    WrittenLine(p'.lines, p.lines, counts, events, threshold, c);
    assert LineCounts(p', events, threshold, c);
  }

  lemma WrittenLine(lines': seq<map<int, nat>>, lines: seq<map<int, nat>>, counts: map<int, nat>, events: seq<Event>,
                    threshold: nat, c: nat)
    requires |lines| == c && lines' == lines + [Printed(counts)] && counts == CountMap(Blocks(events, threshold, c))
    ensures lines'[c] == Printed(CountMap(Blocks(events, threshold, c)))
  {}

  /** ... or leaves it open. */
  lemma LineOpen(events: seq<Event>, threshold: nat, p: Profile, c: nat)
    requires Counted(events, threshold) == Counter(p.insns, c) && |p.lines| == c
    requires p.counts == CountMap(Blocks(events, threshold, c))
    requires forall q :: 0 <= q < c ==> LineCounts(p, events, threshold, q)
    ensures CountsIntervals(p, events, threshold)
  {}

  lemma CountedSoFar(events: seq<Event>, threshold: nat, counts: map<int, nat>, c: nat)
    requires events != [] && LastInside(events, threshold, c) &&
             counts == CountMap(Blocks(Before(events), threshold, c))
    ensures Add(counts, Last(events).bb, 1) == CountMap(Blocks(events, threshold, c))
  {
    CountMapSnoc(Blocks(Before(events), threshold, c), Last(events).bb);
  }

  /** The lines written before the last block stay right. */
  lemma LinesSoFar(events: seq<Event>, threshold: nat, p: Profile, p': Profile)
    requires events != [] && p.lines <= p'.lines
    requires forall q :: 0 <= q < Counted(Before(events), threshold).interval ==>
               LineCounts(p, Before(events), threshold, q)
    ensures forall q :: 0 <= q < Counted(Before(events), threshold).interval ==> LineCounts(p', events, threshold, q)
  {
    forall q | 0 <= q < Counted(Before(events), threshold).interval ensures LineCounts(p', events, threshold, q) {
      assert LineCounts(p, Before(events), threshold, q);
      OtherInterval(events, threshold, q);
    }
  }

  /** The last block does not belong to other intervals. */
  lemma OtherInterval(events: seq<Event>, threshold: nat, t: nat)
    requires events != [] && !LastInside(events, threshold, t)
    ensures Blocks(events, threshold, t) == Blocks(Before(events), threshold, t)
  {}

  // ---- the cycles it adds up ----

  predicate CyclesRight(m: map<int, nat>, events: seq<Event>, threshold: nat, t: nat, bb: int) {
    CountIn(m, bb) == CyclesIn(events, threshold, t, bb)
  }

  predicate CycleLineAt(p: Profile, events: seq<Event>, threshold: nat, q: nat, bb: int) {
    q < |p.cycleLines| && CountIn(p.cycleLines[q], bb + 1) == CyclesIn(events, threshold, q, bb)
  }

  ghost predicate AddsCycles(p: Profile, events: seq<Event>, threshold: nat, bb: int) {
    var c := Counted(events, threshold);
    && p.insns == c.insns && |p.cycleLines| == c.interval && CyclesRight(p.cycles, events, threshold, c.interval, bb)
    && forall q :: 0 <= q < c.interval ==> CycleLineAt(p, events, threshold, q, bb)
  }

  /** In every run, line q of the cycle file gives each block the cycles it took in interval q. */
  lemma {:induction false} ProfileAddsCycles(events: seq<Event>, threshold: nat, bb: int)
    ensures AddsCycles(Profiled(events, threshold), events, threshold, bb)
  {
    if events != [] {
      ProfileAddsCycles(Before(events), threshold, bb);
      NextCycles(events, threshold, Profiled(Before(events), threshold), bb);
    }
  }

  lemma NextCycles(events: seq<Event>, threshold: nat, p: Profile, bb: int)
    requires events != [] && AddsCycles(p, Before(events), threshold, bb)
    ensures AddsCycles(ProfileBlock(p, Last(events), threshold), events, threshold, bb)
  {
    var before, e := Before(events), Last(events);
    var c, p' := Counted(before, threshold), ProfileBlock(p, e, threshold);
    CyclesStep(events, threshold, c.interval, bb);
    CyclesSoFar(events, threshold, p, p', bb);
    assert Counted(events, threshold) == Count(c, threshold, e.size);
    if c.insns + e.size >= threshold {
      NoCyclesBeyond(before, threshold, c.interval + 1, bb);
      CyclesStep(events, threshold, c.interval + 1, bb);
      NewCycleLine(p, p', events, threshold, Add(p.cycles, e.bb, e.cycles), c.interval, bb);
    }
  }

  /** The line that the last block completes. */
  lemma NewCycleLine(p: Profile, p': Profile, events: seq<Event>, threshold: nat, cycles: map<int, nat>, c: nat,
                     bb: int)
    requires |p.cycleLines| == c && p'.cycleLines == p.cycleLines + [Printed(cycles)] &&
             CyclesRight(cycles, events, threshold, c, bb)
    ensures CycleLineAt(p', events, threshold, c, bb)
  {
    PrintedCount(cycles, bb);
  }

  lemma CyclesStep(events: seq<Event>, threshold: nat, t: nat, bb: int)
    requires events != []
    ensures CyclesIn(events, threshold, t, bb) == CyclesIn(Before(events), threshold, t, bb)
            + if Counted(Before(events), threshold).interval == t && Last(events).bb == bb
              then Last(events).cycles else 0
  {}

  /** The lines written before the last block stay right. */
  lemma CyclesSoFar(events: seq<Event>, threshold: nat, p: Profile, p': Profile, bb: int)
    requires events != [] && p.cycleLines <= p'.cycleLines
    requires forall q :: 0 <= q < Counted(Before(events), threshold).interval ==>
               CycleLineAt(p, Before(events), threshold, q, bb)
    ensures forall q :: 0 <= q < Counted(Before(events), threshold).interval ==>
              CycleLineAt(p', events, threshold, q, bb)
  {
    forall q | 0 <= q < Counted(Before(events), threshold).interval
      ensures CycleLineAt(p', events, threshold, q, bb)
    {
      assert CycleLineAt(p, Before(events), threshold, q, bb);
      CyclesStep(events, threshold, q, bb);
    }
  }

  lemma {:induction false} NoCyclesBeyond(events: seq<Event>, threshold: nat, t: nat, bb: int)
    requires t > Counted(events, threshold).interval
    ensures CyclesIn(events, threshold, t, bb) == 0
  {
    if events != [] {
      NoCyclesBeyond(Before(events), threshold, t, bb);
    }
  }

  /** Conservation of cycles: what a block has on all lines of the cycle file adds up to the cycles it
      took in the run. */
  lemma {:induction false} CyclesAddUp(events: seq<Event>, threshold: nat, bb: int)
    ensures Summed(AllCycleLines(Profiled(events, threshold)), bb + 1) == Cycles(events, bb)
  {
    if events == [] {
      AllLinesSum([], map[], bb);
    } else {
      CyclesAddUp(Before(events), threshold, bb);
      NextSummed(Profiled(Before(events), threshold), Last(events), threshold, bb);
    }
  }

  /** The block ids a trace holds: the start record and the dumped ids, without the end marker. */
  function RecordedIds(r: Trace, marked: bool): seq<int> {
    r.starts + if marked && r.dumped != [] then r.dumped[..|r.dumped| - 1] else r.dumped
  }

  /** Tracer and profiler agree: for every interval that has a line, the last included, the blocks the
      tracer records for it are the ones the line counts. */
  lemma TraceMatchesProfile(events: seq<Event>, threshold: nat, t: nat)
    requires t <= Counted(events, threshold).interval
    ensures |AllLines(Profiled(events, threshold))| == Counted(events, threshold).interval + 1
    ensures AllLines(Profiled(events, threshold))[t]
         == Printed(CountMap(RecordedIds(Traced(events, threshold, t), StartedLater(events, threshold, t))))
  {
    LineText(events, threshold, t);
    RecordedInRun(events, threshold, t);
  }

  /** The lines p has written, followed by the line of what it has counted since. */
  lemma LinesInOrder(p: Profile, line: seq<int>, t: nat)
    requires t < |p.lines| ==> p.lines[t] == Printed(CountMap(line))
    requires t == |p.lines| ==> p.counts == CountMap(line)
    requires t <= |p.lines|
    ensures |AllLines(p)| == |p.lines| + 1 && AllLines(p)[t] == Printed(CountMap(line))
  {}

  lemma LineText(events: seq<Event>, threshold: nat, t: nat)
    requires t <= Counted(events, threshold).interval
    ensures |AllLines(Profiled(events, threshold))| == Counted(events, threshold).interval + 1
    ensures AllLines(Profiled(events, threshold))[t] == Printed(CountMap(Blocks(events, threshold, t)))
  {
    ProfileCountsIntervals(events, threshold);
    assert t < Counted(events, threshold).interval ==> LineCounts(Profiled(events, threshold), events, threshold, t);
    LinesInOrder(Profiled(events, threshold), Blocks(events, threshold, t), t);
  }

  lemma RecordedInRun(events: seq<Event>, threshold: nat, t: nat)
    ensures RecordedIds(Traced(events, threshold, t), StartedLater(events, threshold, t))
            == Blocks(events, threshold, t)
  {
    TraceRecordsInterval(events, threshold, t);
    RecordedAreBlocks(Traced(events, threshold, t), Blocks(events, threshold, t), StartedLater(events, threshold, t));
  }

  lemma RecordedAreBlocks(r: Trace, blocks: seq<int>, marked: bool)
    requires Records(r, blocks, marked)
    ensures RecordedIds(r, marked) == blocks
  {
    assert blocks != [] ==> blocks == [blocks[0]] + blocks[1..];
  }

  /** Block ids of a run. */
  function Ids(events: seq<Event>): seq<int> {
    if events == [] then [] else Ids(Before(events)) + [Last(events).bb]
  }

  function Joined(events: seq<Event>, threshold: nat, n: nat): seq<int> {
    if n == 0 then [] else Joined(events, threshold, n - 1) + Blocks(events, threshold, n - 1)
  }

  /** One more block extends the joined blocks by that block, if its interval is among them. */
  lemma {:induction false} JoinedSnoc(events: seq<Event>, threshold: nat, n: nat)
    requires events != [] && n <= Counted(Before(events), threshold).interval + 1
    ensures Joined(events, threshold, n) == Joined(Before(events), threshold, n)
              + if 0 < n && LastInside(events, threshold, n - 1) then [Last(events).bb] else []
  {
    if n != 0 {
      JoinedSnoc(events, threshold, n - 1);
    }
  }

  lemma JoinedEmpty(events: seq<Event>, threshold: nat, n: nat)
    requires Blocks(events, threshold, n) == []
    ensures Joined(events, threshold, n + 1) == Joined(events, threshold, n)
  {}

  /** The lines partition the run: joined in order, the blocks counted by the lines (the last one
      included) are all executions, each once. */
  lemma {:induction false} LinesPartitionRun(events: seq<Event>, threshold: nat)
    ensures Joined(events, threshold, Counted(events, threshold).interval + 1) == Ids(events)
  {
    if events == [] {
      JoinedEmpty(events, threshold, 0);
    } else {
      var c := Counted(Before(events), threshold).interval;
      LinesPartitionRun(Before(events), threshold);
      JoinedSnoc(events, threshold, c + 1);
      if Counted(events, threshold).interval == c + 1 {
        NothingBeyond(Before(events), threshold, c + 1);
        OtherInterval(events, threshold, c + 1);
        JoinedEmpty(events, threshold, c + 1);
      }
    }
  }

  function Summed(lines: seq<map<int, nat>>, name: int): nat {
    if lines == [] then 0 else Summed(lines[..|lines| - 1], name) + CountIn(lines[|lines| - 1], name)
  }

  lemma SummedSnoc(lines: seq<map<int, nat>>, line: map<int, nat>, name: int)
    ensures Summed(lines + [line], name) == Summed(lines, name) + CountIn(line, name)
  {
    assert (lines + [line])[..|lines|] == lines;
  }

  lemma NameOf(m: map<int, nat>, bb: int)
    ensures bb + 1 in Names(m) <==> bb in m
  {}

  lemma PrintedCount(m: map<int, nat>, bb: int)
    ensures CountIn(Printed(m), bb + 1) == CountIn(m, bb)
  {
    NameOf(m, bb);
  }

  lemma AllLinesSum(lines: seq<map<int, nat>>, counts: map<int, nat>, bb: int)
    ensures Summed(lines + [Printed(counts)], bb + 1) == Summed(lines, bb + 1) + CountIn(counts, bb)
  {
    SummedSnoc(lines, Printed(counts), bb + 1);
    PrintedCount(counts, bb);
  }

  /** A block adds its amount to the lines and what has been counted since, whether or not a line is written. */
  lemma BlockAdds(lines: seq<map<int, nat>>, counts: map<int, nat>, started: int, n: nat, bb: int)
    ensures var counts', more := Add(counts, started, n), if started == bb then n else 0;
            && Summed(lines + [Printed(counts')], bb + 1) == Summed(lines + [Printed(counts)], bb + 1) + more
            && Summed(lines + [Printed(counts')] + [Printed(map[])], bb + 1)
              == Summed(lines + [Printed(counts)], bb + 1) + more
  {
    var counts' := Add(counts, started, n);
    AllLinesSum(lines, counts, bb);
    AllLinesSum(lines, counts', bb);
    AllLinesSum(lines + [Printed(counts')], map[], bb);
  }

  lemma NextSums(full: bool, lines: seq<map<int, nat>>, counts: map<int, nat>, lines': seq<map<int, nat>>,
                 counts': map<int, nat>,
                 started: int, n: nat, bb: int)
    requires if full then lines' == lines + [Printed(Add(counts, started, n))] && counts' == map[]
             else lines' == lines && counts' == Add(counts, started, n)
    ensures Summed(lines' + [Printed(counts')], bb + 1)
            == Summed(lines + [Printed(counts)], bb + 1) + if started == bb then n else 0
  {
    BlockAdds(lines, counts, started, n, bb);
  }

  lemma NextSummed(p: Profile, e: Event, threshold: nat, bb: int)
    ensures var p' := ProfileBlock(p, e, threshold);
            && Summed(AllLines(p'), bb + 1) == Summed(AllLines(p), bb + 1) + (if e.bb == bb then 1 else 0)
            && Summed(AllCycleLines(p'), bb + 1)
              == Summed(AllCycleLines(p), bb + 1) + (if e.bb == bb then e.cycles else 0)
  {
    var p', full := ProfileBlock(p, e, threshold), p.insns + e.size >= threshold;
    NextSums(full, p.lines, p.counts, p'.lines, p'.counts, e.bb, 1, bb);
    NextSums(full, p.cycleLines, p.cycles, p'.cycleLines, p'.cycles, e.bb, e.cycles, bb);
  }

  function Executions(events: seq<Event>, bb: int): nat {
    if events == [] then 0 else Executions(Before(events), bb) + if Last(events).bb == bb then 1 else 0
  }

  lemma {:induction false} ExecutionsCounted(events: seq<Event>, bb: int)
    ensures Executions(events, bb) == multiset(Ids(events))[bb]
  {
    if events != [] {
      ExecutionsCounted(Before(events), bb);
    }
  }

  lemma {:induction false} ExecutionsAddUp(events: seq<Event>, threshold: nat, bb: int)
    ensures Summed(AllLines(Profiled(events, threshold)), bb + 1) == Executions(events, bb)
  {
    if events == [] {
      AllLinesSum([], map[], bb);
    } else {
      ExecutionsAddUp(Before(events), threshold, bb);
      NextSummed(Profiled(Before(events), threshold), Last(events), threshold, bb);
    }
  }

  /** Conservation: the counts a block has on all lines add up to its executions in the run. */
  lemma CountsAddUp(events: seq<Event>, threshold: nat, bb: int)
    ensures Summed(AllLines(Profiled(events, threshold)), bb + 1) == multiset(Ids(events))[bb]
  {
    ExecutionsAddUp(events, threshold, bb);
    ExecutionsCounted(events, bb);
  }

  /** The instruction total of every full line lies in [threshold, threshold + largest block). */
  lemma {:induction false} FullLinesReachThreshold(events: seq<Event>, threshold: nat, max: nat, t: nat)
    requires 1 <= threshold && forall k :: 0 <= k < |events| ==> events[k].size <= max
    ensures t < Counted(events, threshold).interval ==> threshold <= Total(events, threshold, t) < threshold + max
    ensures t == Counted(events, threshold).interval ==>
              Total(events, threshold, t) == Counted(events, threshold).insns < threshold
    ensures t > Counted(events, threshold).interval ==> Total(events, threshold, t) == 0
  {
    if events != [] {
      FullLinesReachThreshold(Before(events), threshold, max, t);
    }
  }

  /** Since no block is empty, an interval has begun exactly when instructions have been counted in it,
      and the start file has one entry for every interval that has begun. */
  predicate Begun(p: Profile, events: seq<Event>, threshold: nat) {
    var c := Counted(events, threshold);
    && p.insns == c.insns && |p.first| == c.interval + (if c.insns == 0 then 0 else 1)
    && (c.insns == 0 <==> Blocks(events, threshold, c.interval) == [])
  }

  lemma {:induction false} BegunIntervals(events: seq<Event>, threshold: nat)
    requires 1 <= threshold && forall k :: 0 <= k < |events| ==> 1 <= events[k].size
    ensures Begun(Profiled(events, threshold), events, threshold)
  {
    if events != [] {
      BegunIntervals(Before(events), threshold);
      NextBegun(events, threshold, Profiled(Before(events), threshold));
    }
  }

  lemma NextBegun(events: seq<Event>, threshold: nat, p: Profile)
    requires 1 <= threshold && events != [] && 1 <= Last(events).size && Begun(p, Before(events), threshold)
    ensures Begun(ProfileBlock(p, Last(events), threshold), events, threshold)
  {
    var before, e := Before(events), Last(events);
    var c := Counted(before, threshold);
    assert Counted(events, threshold) == Count(c, threshold, e.size);
    if c.insns + e.size >= threshold {
      NothingBeyond(before, threshold, c.interval + 1);
      OtherInterval(events, threshold, c.interval + 1);
    } else {
      LastBlockListed(events, threshold);
    }
  }

  /** The interval of the last block contains it. */
  lemma LastBlockListed(events: seq<Event>, threshold: nat)
    requires events != []
    ensures Blocks(events, threshold, Counted(Before(events), threshold).interval) != []
  {
    assert LastInside(events, threshold, Counted(Before(events), threshold).interval);
  }

  /** The start file names the first block of every interval that has begun. */
  lemma {:induction false} StartFileNamesFirst(events: seq<Event>, threshold: nat, t: nat)
    requires 1 <= threshold && forall k :: 0 <= k < |events| ==> 1 <= events[k].size
    ensures var first, blocks := Profiled(events, threshold).first, Blocks(events, threshold, t);
            t < |first| ==> blocks != [] && blocks[0] == first[t]
  {
    if events != [] {
      StartFileNamesFirst(Before(events), threshold, t);
      BegunIntervals(Before(events), threshold);
    }
  }

  /** So it agrees with the tracer's start record for that interval. */
  lemma StartFilesAgree(events: seq<Event>, threshold: nat, t: nat)
    requires 1 <= threshold && forall k :: 0 <= k < |events| ==> 1 <= events[k].size
    ensures var p, c := Profiled(events, threshold), Counted(events, threshold);
      && |p.first| == c.interval + (if c.insns == 0 then 0 else 1)
      && (t < |p.first| ==> Traced(events, threshold, t).starts == [p.first[t]])
  {
    BegunIntervals(events, threshold);
    StartFileNamesFirst(events, threshold, t);
    TraceRecordsInterval(events, threshold, t);
  }
}
