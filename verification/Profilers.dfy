/** The imperative forms: the tracer with its buffer and the profiler with its maps. */
module Profilers {
  import opened Intervals

  const BUFFER_SIZE := 1024 * 1024 * 1024

  class Tracer {
    var insncount: nat
    var interval: nat
    var flag: bool
    var dataBuffer: array?<int>
    var bufferIndex: nat
    var file: seq<int>
    var startBbFile: seq<int>

    ghost predicate Valid()
      reads this
    {
      if dataBuffer == null then bufferIndex == 0 else dataBuffer.Length == BUFFER_SIZE && bufferIndex < BUFFER_SIZE
    }

    /** Everything dumped so far, whether still buffered or already in the file. */
    ghost function Dumped(): seq<int>
      requires Valid()
      reads this, dataBuffer
    { if dataBuffer == null then file else file + dataBuffer[..bufferIndex] }

    ghost function State(): Trace
      requires Valid()
      reads this, dataBuffer
    { Trace(Counter(insncount, interval), flag, Dumped(), startBbFile) }

    constructor ()
      ensures Valid() && dataBuffer == null && State() == Trace(Counter(0, 0), false, [], [])
    {
      insncount, interval, flag := 0, 0, false;
      dataBuffer, bufferIndex, file, startBbFile := null, 0, [], [];
    }

    /** `log_helper_flush_buffer`: the buffered entries move to the file, in order. */
    method FlushBuffer()
      requires dataBuffer != null ==> bufferIndex <= dataBuffer.Length
      requires dataBuffer == null ==> bufferIndex == 0
      modifies this
      ensures dataBuffer == old(dataBuffer) && insncount == old(insncount) && interval == old(interval)
      ensures file == old(file) + (if dataBuffer == null then [] else dataBuffer[..old(bufferIndex)]) &&
              bufferIndex == 0
      ensures flag == old(flag) && startBbFile == old(startBbFile)
    {
      for i := 0 to bufferIndex
        invariant dataBuffer == old(dataBuffer) && bufferIndex == old(bufferIndex) && insncount == old(insncount)
        invariant file == old(file) + (if dataBuffer == null then [] else dataBuffer[..i])
        invariant interval == old(interval) && flag == old(flag) && startBbFile == old(startBbFile)
      {
        file := file + [dataBuffer[i]];
      }
      bufferIndex := 0;
    }

    /** `log_helper_dump_data` */
    method DumpData(data: int, doDump: bool)
      requires Valid()
      modifies this, dataBuffer
      ensures Valid() && (dataBuffer == old(dataBuffer) || fresh(dataBuffer))
      ensures State() == old(State()).(dumped := if doDump then old(Dumped()) + [data] else old(Dumped()))
    {
      if doDump {
        Append(data);
        if bufferIndex >= BUFFER_SIZE {
          FlushBuffer();
        }
      }
    }

    /** The part of it that puts the entry into the buffer, which it allocates if there is none. */
    method Append(data: int)
      requires Valid()
      modifies this, dataBuffer
      ensures dataBuffer != null && dataBuffer.Length == BUFFER_SIZE && 0 < bufferIndex <= BUFFER_SIZE
      ensures dataBuffer == old(dataBuffer) || fresh(dataBuffer)
      ensures file + dataBuffer[..bufferIndex] == old(Dumped()) + [data]
      ensures insncount == old(insncount) && interval == old(interval) && flag == old(flag)
      ensures startBbFile == old(startBbFile)
    {
      if dataBuffer == null {
        dataBuffer := new int[BUFFER_SIZE];
      }
      dataBuffer[bufferIndex] := data;
      bufferIndex := bufferIndex + 1;
      assert dataBuffer[..bufferIndex] == dataBuffer[..bufferIndex - 1] + [data];
    }

    /** `log_helper_finish`: afterwards the file holds everything that was dumped. */
    method Finish()
      requires Valid()
      modifies this
      ensures Valid() && file == old(Dumped()) && Dumped() == file && startBbFile == old(startBbFile)
    {
      FlushBuffer();
    }

    method UpdateDumpStatus(target: nat, bb: int)
      requires Valid()
      modifies this, dataBuffer
      ensures Valid() && (dataBuffer == old(dataBuffer) || fresh(dataBuffer))
      ensures State() == DumpStatus(old(State()), target, bb)
    {
      if flag {
        if interval == target {
          DumpData(bb, true);
        } else {
          DumpData(MARKER, true);
        }
      }
      if interval == target {
        if !flag {
          startBbFile := startBbFile + [bb];
        }
        flag := true;
      } else {
        flag := false;
      }
    }

    method UpdateInsncountInterval(threshold: nat, inc: nat)
      requires Valid()
      modifies this
      ensures Valid() && dataBuffer == old(dataBuffer) && State() == EndBlock(old(State()), threshold, inc)
    {
      insncount := insncount + inc;
      if insncount >= threshold {
        insncount := 0;
        interval := interval + 1;
      }
    }
  }

  /** A traced run: what the instrumented program calls, block by block. The files hold what the step
      functions say. */
  method TraceRun(events: seq<Event>, threshold: nat, target: nat) returns (tracer: Tracer)
    ensures fresh(tracer) && tracer.Valid()
    ensures tracer.file == Traced(events, threshold, target).dumped
    ensures tracer.startBbFile == Traced(events, threshold, target).starts
  {
    tracer := new Tracer();
    for i := 0 to |events|
      invariant fresh(tracer) && tracer.Valid() && (tracer.dataBuffer != null ==> fresh(tracer.dataBuffer))
      invariant tracer.State() == Traced(events[..i], threshold, target)
    {
      assert events[..i + 1][..i] == events[..i];
      tracer.UpdateDumpStatus(target, events[i].bb);
      tracer.UpdateInsncountInterval(threshold, events[i].size);
    }
    assert events[..|events|] == events;
    tracer.Finish();
  }

  class Profiler {
    var insnCount: nat
    var bbCountMap: map<int, nat>
    var bbCycleMap: map<int, nat>
    var file: seq<map<int, nat>>
    var bbCycleFile: seq<map<int, nat>>
    var startBbFile: seq<int>

    function State(): Profile
      reads this
    { Profile(insnCount, bbCountMap, bbCycleMap, file, bbCycleFile, startBbFile) }

    constructor ()
      ensures State() == Profile(0, map[], map[], [], [], [])
    {
      insnCount, bbCountMap, bbCycleMap := 0, map[], map[];
      file, bbCycleFile, startBbFile := [], [], [];
    }

    method ProfileInterface(bb: int, inc: nat, threshold: nat, cycle: nat)
      modifies this
      ensures State() == ProfileBlock(old(State()), Event(bb, inc, cycle), threshold)
    {
      if insnCount == 0 {
        startBbFile := startBbFile + [bb];
      }
      insnCount := insnCount + inc;
      CountBlock(bb, cycle);
      if insnCount >= threshold {
        insnCount := 0;
        file := file + [Printed(bbCountMap)];
        bbCycleFile := bbCycleFile + [Printed(bbCycleMap)];
        bbCountMap := map[];
        bbCycleMap := map[];
      }
    }

    /** The part of `profile_interface` that updates the two maps. */
    method CountBlock(bb: int, cycle: nat)
      modifies `bbCountMap, `bbCycleMap
      ensures bbCountMap == Add(old(bbCountMap), bb, 1) && bbCycleMap == Add(old(bbCycleMap), bb, cycle)
    {
      if bb !in bbCountMap {
        bbCountMap := bbCountMap[bb := 0];
      }
      AddSteps(old(bbCountMap), bbCountMap, bb, 1);
      bbCountMap := bbCountMap[bb := bbCountMap[bb] + 1];
      if bb !in bbCycleMap {
        bbCycleMap := bbCycleMap[bb := 0];
      }
      AddSteps(old(bbCycleMap), bbCycleMap, bb, cycle);
      bbCycleMap := bbCycleMap[bb := bbCycleMap[bb] + cycle];
    }

    /** `profiler_finish` */
    method Finish()
      modifies this
      ensures file == AllLines(old(State())) && bbCycleFile == AllCycleLines(old(State())) &&
              startBbFile == old(startBbFile)
    {
      file := file + [Printed(bbCountMap)];
      bbCycleFile := bbCycleFile + [Printed(bbCycleMap)];
    }
  }

  method ProfileRun(events: seq<Event>, threshold: nat) returns (profiler: Profiler)
    ensures fresh(profiler) && profiler.file == AllLines(Profiled(events, threshold))
    ensures profiler.bbCycleFile == AllCycleLines(Profiled(events, threshold))
    ensures profiler.startBbFile == Profiled(events, threshold).first
  {
    profiler := new Profiler();
    for i := 0 to |events|
      invariant fresh(profiler) && profiler.State() == Profiled(events[..i], threshold)
    {
      assert events[..i + 1][..i] == events[..i];
      profiler.ProfileInterface(events[i].bb, events[i].size, threshold, events[i].cycles);
    }
    assert events[..|events|] == events;
    profiler.Finish();
  }

  /** Tracing interval t of a run and profiling the run: the traced ids are those on line t. */
  method TraceAndProfile(events: seq<Event>, threshold: nat, t: nat) returns (tracer: Tracer, profiler: Profiler)
    requires t <= Counted(events, threshold).interval
    ensures t < |profiler.file|
    ensures profiler.file[t] == Printed(CountMap(RecordedIds(Traced(events, threshold, t),
                                                             StartedLater(events, threshold, t))))
    ensures forall bb :: LineHas(profiler.file[t], Blocks(events, threshold, t), bb)
    ensures tracer.startBbFile + tracer.file
         == Blocks(events, threshold, t) + (if StartedLater(events, threshold, t) then [0xFFFF_FFFF] else [])
  {
    tracer := TraceRun(events, threshold, t);
    profiler := ProfileRun(events, threshold);
    TraceMatchesProfile(events, threshold, t);
    WrittenFiles(events, threshold, t);
    RecordedInRun(events, threshold, t);
    forall bb ensures LineHas(profiler.file[t], Blocks(events, threshold, t), bb) {
      PrintedCounts(Blocks(events, threshold, t), bb);
    }
  }

  /** The line gives the id plus one the number of times that the id is among the blocks, and has no other names. */
  predicate LineHas(line: map<int, nat>, blocks: seq<int>, bb: int) {
    (bb + 1 in line <==> bb in blocks) && (bb in blocks ==> line[bb + 1] == multiset(blocks)[bb])
  }

  lemma WrittenFiles(events: seq<Event>, threshold: nat, t: nat)
    ensures var r := Traced(events, threshold, t);
            r.starts + r.dumped == Blocks(events, threshold, t)
              + (if StartedLater(events, threshold, t) then [0xFFFF_FFFF] else [])
  {
    TraceRecordsInterval(events, threshold, t);
    RecordsJoined(Traced(events, threshold, t), Blocks(events, threshold, t), StartedLater(events, threshold, t));
  }

  lemma RecordsJoined(r: Trace, blocks: seq<int>, marked: bool)
    requires Records(r, blocks, marked)
    ensures r.starts + r.dumped == blocks + (if marked then [0xFFFF_FFFF] else [])
  {
    assert blocks != [] ==> blocks == [blocks[0]] + blocks[1..];
  }
}
