/**
 Following one remote file by its watermark through appends, truncations, rotations and failed calls: the stretches
 that polls pass lie end to end, and hold the file exactly as far as the range reads told the truth.
 */
module Delivery {
  import opened Wrappers
  import opened Watcher
  import opened WatcherTheorems

  /** A stretch of the file that was passed: with the text that was read for it, or without when it was skipped. */
  datatype Span = Span(lo: nat, hi: nat, content: Option<Bytes>)

  /**
   The file as it is when a poll asks for its status, what the poll is answered, and the file as it is when the poll
   asks for its tail, which is a later call.
   */
  datatype Observation = Observation(inode: string, content: Bytes, answers: Answers, later: Bytes)

  /**
   A file being followed: the watcher, the file when the watermark last moved, where following it began, and the
   spans passed since.
   */
  datatype Follow = Follow(state: WatchState, file: Bytes, base: nat, spans: seq<Span>)

  /** A status may fail; what it answers is true of the file. */
  ghost predicate Truthful(o: Observation) {
    o.answers.stat.Some? ==> o.answers.stat.value.inode == o.inode && o.answers.stat.value.size == |o.content|
  }

  /** A range read may fail; what it answers is the part of the file that was asked for. */
  ghost predicate RangesTruthful(o: Observation) {
    forall offset, length | 0 <= offset && 0 < length && offset + length <= |o.content| ::
      o.answers.range(offset, length).Ok() ==>
        o.answers.range(offset, length).stdout == o.content[offset..offset + length]
  }

  /** A range read never answers more than was asked for. */
  ghost predicate RangesBounded(o: Observation) {
    forall offset, length | 0 <= offset && 0 < length :: |o.answers.range(offset, length).stdout| <= length
  }

  function DemandOn(cfg: WatchConfig, path: string, f: Follow, o: Observation): Demand {
    DemandOf(cfg.Max(), WatermarkAt(f.state, path), o.answers.stat)
  }

  /**
   A file that kept its inode and did not fall below the watermark still begins with the bytes that were passed.
   Appending keeps this, and so do truncations and rotations that a status shows.
   */
  ghost predicate Continues(path: string, f: Follow, o: Observation) {
    path in f.state.watermarks && f.state.watermarks[path].inode == o.inode
      && 0 <= f.state.watermarks[path].offset <= |f.file| && f.state.watermarks[path].offset <= |o.content|
    ==> f.file[..f.state.watermarks[path].offset] == o.content[..f.state.watermarks[path].offset]
  }

  /** What a poll that advances passes. */
  function NewSpans(demand: Demand, o: Observation): seq<Span>
    requires demand.NeedsRange? ==> 0 <= demand.offset && 0 <= demand.length
    requires demand.TooMuch? ==> 0 <= demand.skipped <= |o.content|
  {
    match demand
    case NeedsRange(offset, length, _, _) =>
      [Span(offset, offset + length, Some(o.answers.range(offset, length).stdout))]
    case TooMuch(_, skipped) => [Span(|o.content| - skipped, |o.content|, None)]
    case _ => []
  }

  /** The poll takes the file up from its beginning. */
  predicate Restarts(demand: Demand) {
    match demand
    case NeedsNothing(strategy, _) => strategy == RotationReset
    case NeedsRange(_, _, strategy, _) => strategy == RotationReset
    case TooMuch(reason, _) => reason != DeltaExceedsMax
    case _ => false
  }

  ghost function FollowStep(cfg: WatchConfig, path: string, f: Follow, o: Observation, emit: bool): Follow
    requires Truthful(o)
  {
    var state := PollWatermark(cfg, f.state, path, o.answers, emit).0;
    var demand := DemandOn(cfg, path, f, o);
    if !Advances(demand, o.answers, emit) then f.(state := state)
    else if demand.NeedsBootstrap? then Follow(state, o.content, |o.content|, [])
    else if Restarts(demand) then Follow(state, o.content, 0, NewSpans(demand, o))
    else Follow(state, o.content, f.base, f.spans + NewSpans(demand, o))
  }

  /** The spans are nonempty and lie end to end from `base` to `end`. */
  ghost predicate Tiles(spans: seq<Span>, base: nat, end: int) {
    base <= end &&
    if spans == [] then base == end
    else
      var last := spans[|spans| - 1];
      last.lo < last.hi == end && Tiles(spans[..|spans| - 1], base, last.lo)
  }

  /** What was read for each span is what the file holds there. */
  ghost predicate Exact(spans: seq<Span>, file: Bytes) {
    forall span | span in spans && span.content.Some? ::
      span.lo <= span.hi <= |file| && span.content.value == file[span.lo..span.hi]
  }

  /** The watermark is the end of what was passed. */
  ghost predicate Following(path: string, f: Follow) {
    path in f.state.watermarks ==>
      var w := f.state.watermarks[path];
      w.offset == w.size && w.offset <= |f.file| && Tiles(f.spans, f.base, w.offset)
  }

  lemma TilesExtend(spans: seq<Span>, span: Span, base: nat, end: int)
    requires Tiles(spans, base, end) && span.lo == end && span.lo < span.hi
    ensures Tiles(spans + [span], base, span.hi)
  {
    assert (spans + [span])[..|spans|] == spans;
  }

  lemma {:induction false} SpanWithin(spans: seq<Span>, base: nat, end: int, span: Span)
    requires Tiles(spans, base, end) && span in spans
    ensures base <= span.lo < span.hi <= end
  {
    var last := spans[|spans| - 1];
    if span != last {
      assert spans == spans[..|spans| - 1] + [last];
      SpanWithin(spans[..|spans| - 1], base, last.lo, span);
    }
  }

  /** Exactness only depends on the bytes that were passed. */
  lemma ExactOnPrefix(spans: seq<Span>, base: nat, end: int, file: Bytes, other: Bytes)
    requires Tiles(spans, base, end) && Exact(spans, file) && end <= |file| && end <= |other|
        && file[..end] == other[..end]
    ensures Exact(spans, other)
  {
    forall span | span in spans && span.content.Some?
      ensures span.lo <= span.hi <= |other| && span.content.value == other[span.lo..span.hi]
    {
      SpanWithin(spans, base, end, span);
      assert file[span.lo..span.hi] == file[..end][span.lo..span.hi] == other[..end][span.lo..span.hi]
        == other[span.lo..span.hi];
    }
  }

  /** What an advance passes lies between the old watermark, or the beginning of the file, and the new one. */
  lemma AdvanceTiles(max: int, w: Watermark, o: Observation, base: nat, spans: seq<Span>)
    requires Truthful(o) && o.answers.stat.Some? && w.offset >= 0 && Tiles(spans, base, w.offset)
    requires var demand := DemandOf(max, Some(w), o.answers.stat); Advances(demand, o.answers, true) || demand.TooMuch?
    ensures var demand := DemandOf(max, Some(w), o.answers.stat);
      if Restarts(demand) then Tiles(NewSpans(demand, o), 0, |o.content|)
      else Tiles(spans + NewSpans(demand, o), base, |o.content|)
  {
    var demand := DemandOf(max, Some(w), o.answers.stat);
    if Restarts(demand) {
      if |o.content| > 0 {
        TilesExtend([], NewSpans(demand, o)[0], 0, 0);
      }
    } else if w.offset < |o.content| {
      TilesExtend(spans, NewSpans(demand, o)[0], base, w.offset);
    } else {
      assert spans + NewSpans(demand, o) == spans;
    }
  }

  /** Every poll, whatever is answered, keeps the watermark at the end of what was passed. */
  lemma StepKeepsFollowing(cfg: WatchConfig, path: string, f: Follow, o: Observation, emit: bool)
    requires Following(path, f) && Truthful(o)
    ensures Following(path, FollowStep(cfg, path, f, o, emit))
  {
    WatermarkMovesIff(cfg, f.state, path, o.answers, emit);
    var demand := DemandOn(cfg, path, f, o);
    if Advances(demand, o.answers, emit) {
      OffsetIsSize(cfg.Max(), WatermarkAt(f.state, path), o.answers.stat.value);
      if path in f.state.watermarks {
        AdvanceTiles(cfg.Max(), f.state.watermarks[path], o, f.base, f.spans);
      }
    }
  }

  /** Every poll with truthful range reads keeps what was passed exact, as long as the file continues. */
  lemma StepKeepsExact(cfg: WatchConfig, path: string, f: Follow, o: Observation, emit: bool)
    requires Following(path, f) && Truthful(o) && RangesTruthful(o) && Continues(path, f, o)
    requires path in f.state.watermarks ==> Exact(f.spans, f.file)
    ensures var f' := FollowStep(cfg, path, f, o, emit); path in f'.state.watermarks ==> Exact(f'.spans, f'.file)
  {
    WatermarkMovesIff(cfg, f.state, path, o.answers, emit);
    var demand := DemandOn(cfg, path, f, o);
    if Advances(demand, o.answers, emit) && path in f.state.watermarks && !Restarts(demand) {
      var w := f.state.watermarks[path];
      ExactOnPrefix(f.spans, f.base, w.offset, f.file, o.content);
    }
  }

  ghost predicate FollowRun(cfg: WatchConfig, path: string, fs: seq<Follow>, os: seq<Observation>, emit: bool) {
    && |fs| == |os| + 1
    && Following(path, fs[0]) && (path in fs[0].state.watermarks ==> Exact(fs[0].spans, fs[0].file))
    && forall i | 0 <= i < |os| :: Truthful(os[i]) && fs[i + 1] == FollowStep(cfg, path, fs[i], os[i], emit)
  }

  /**
   Through any history of appends, truncations, rotations and failed calls: the spans passed since the file was last
   taken up anew lie end to end, without gap or overlap, from there to the watermark.
   */
  lemma {:induction false} NothingPassedTwice(cfg: WatchConfig, path: string, fs: seq<Follow>, os: seq<Observation>,
                                              emit: bool, n: nat)
    requires FollowRun(cfg, path, fs, os, emit) && n <= |os|
    ensures Following(path, fs[n])
  {
    if n > 0 {
      NothingPassedTwice(cfg, path, fs, os, emit, n - 1);
      StepKeepsFollowing(cfg, path, fs[n - 1], os[n - 1], emit);
    }
  }

  /** And what was read of them is the file, if range reads tell the truth and truncations are noticed. */
  lemma {:induction false} PassedIsExact(cfg: WatchConfig, path: string, fs: seq<Follow>, os: seq<Observation>,
                                         emit: bool, n: nat)
    requires FollowRun(cfg, path, fs, os, emit) && n <= |os|
    requires forall i | 0 <= i < n :: RangesTruthful(os[i]) && Continues(path, fs[i], os[i])
    ensures path in fs[n].state.watermarks ==> Exact(fs[n].spans, fs[n].file)
  {
    if n > 0 {
      PassedIsExact(cfg, path, fs, os, emit, n - 1);
      NothingPassedTwice(cfg, path, fs, os, emit, n - 1);
      StepKeepsExact(cfg, path, fs[n - 1], os[n - 1], emit);
    }
  }

  // ----- a file that only grows -----

  ghost predicate NothingSkipped(spans: seq<Span>) {
    forall span | span in spans :: span.content.Some?
  }

  ghost function Delivered(spans: seq<Span>): Bytes {
    if spans == [] then []
    else
      var last := spans[|spans| - 1];
      Delivered(spans[..|spans| - 1]) + if last.content.Some? then last.content.value else []
  }

  ghost function SkippedBytes(spans: seq<Span>): nat {
    if spans == [] then 0
    else
      var last := spans[|spans| - 1];
      SkippedBytes(spans[..|spans| - 1]) + if last.content.None? && last.lo <= last.hi then last.hi - last.lo else 0
  }

  /** No span was read longer than it is. */
  ghost predicate Bounded(spans: seq<Span>) {
    forall span | span in spans && span.content.Some? :: span.lo <= span.hi && |span.content.value| <= span.hi - span.lo
  }

  lemma {:induction false} DeliveredAtMost(spans: seq<Span>, base: nat, end: int)
    requires Tiles(spans, base, end) && Bounded(spans)
    ensures |Delivered(spans)| + SkippedBytes(spans) <= end - base
  {
    if spans != [] {
      var last, before := spans[|spans| - 1], spans[..|spans| - 1];
      assert last in spans && forall span | span in before :: span in spans;
      DeliveredAtMost(before, base, last.lo);
    }
  }

  /** Every byte passed was either read or counted as skipped, when what was read is exact. */
  lemma {:induction false} TilesDeliver(spans: seq<Span>, base: nat, end: int, file: Bytes)
    requires Tiles(spans, base, end) && Exact(spans, file)
    ensures |Delivered(spans)| + SkippedBytes(spans) == end - base
  {
    if spans != [] {
      var last, before := spans[|spans| - 1], spans[..|spans| - 1];
      assert last in spans && forall span | span in before :: span in spans;
      TilesDeliver(before, base, last.lo, file);
    }
  }

  /** With nothing skipped, what was read is the file from `base` to `end` if and only if each read was exact. */
  lemma {:induction false} DeliveredIff(spans: seq<Span>, base: nat, end: int, file: Bytes)
    requires Tiles(spans, base, end) && Bounded(spans) && NothingSkipped(spans) && end <= |file|
    ensures Delivered(spans) == file[base..end] <==> Exact(spans, file)
  {
    if spans != [] {
      var last, before := spans[|spans| - 1], spans[..|spans| - 1];
      assert spans == before + [last];
      assert last in spans && forall span | span in before :: span in spans;
      DeliveredIff(before, base, last.lo, file);
      DeliveredAtMost(before, base, last.lo);
      var read, part := Delivered(before), last.content.value;
      assert Exact(spans, file) <==> Exact(before, file) && part == file[last.lo..last.hi];
      assert file[base..end] == file[base..last.lo] + file[last.lo..end];
      if Delivered(spans) == file[base..end] {
        assert |read| + |part| == end - base;
        assert read == Delivered(spans)[..|read|] && part == Delivered(spans)[|read|..];
        assert read == file[base..last.lo];
      }
    }
  }

  /** One inode, and every poll sees an extension of what the poll before it saw. */
  ghost predicate OnlyGrows(inode: string, os: seq<Observation>) {
    && (forall o | o in os :: o.inode == inode && Truthful(o))
    && forall i, j | 0 <= i < j < |os| :: os[i].content <= os[j].content
  }

  /** One poll, whose status tells the truth, leads from `f` to `next`. */
  ghost predicate Polled(cfg: WatchConfig, path: string, f: Follow, o: Observation, next: Follow, emit: bool) {
    Truthful(o) && next == FollowStep(cfg, path, f, o, emit)
  }

  ghost predicate Runs(cfg: WatchConfig, path: string, fs: seq<Follow>, os: seq<Observation>, emit: bool) {
    && |fs| == |os| + 1
    && forall i, k | 0 <= i < |os| && k == i + 1 :: Polled(cfg, path, fs[i], os[i], fs[k], emit)
  }

  /** The watermark, if any, is of this file, and of a state that some earlier poll saw. */
  ghost predicate OnFile(path: string, inode: string, f: Follow, last: Bytes) {
    path in f.state.watermarks ==> f.state.watermarks[path].inode == inode && f.file <= last
  }

  lemma GrowthStep(cfg: WatchConfig, path: string, inode: string, f: Follow, o: Observation, emit: bool)
    requires Truthful(o) && o.inode == inode && OnFile(path, inode, f, o.content) && Following(path, f)
    requires !DemandOn(cfg, path, f, o).TooMuch?
    requires NothingSkipped(f.spans)
    ensures var f' := FollowStep(cfg, path, f, o, emit);
      && Following(path, f') && OnFile(path, inode, f', o.content) && NothingSkipped(f'.spans)
      && (RangesBounded(o) && Bounded(f.spans) ==> Bounded(f'.spans))
      && (path in f.state.watermarks ==> path in f'.state.watermarks && f'.base == f.base && f.spans <= f'.spans)
      && (Advances(DemandOn(cfg, path, f, o), o.answers, emit) ==> f'.state.watermarks[path].offset == |o.content|)
  {
    WatermarkMovesIff(cfg, f.state, path, o.answers, emit);
    StepKeepsFollowing(cfg, path, f, o, emit);
  }

  /** A run over a file that only grows, from before the watermark was first stored, never skipping a byte. */
  ghost predicate GrowthRun(cfg: WatchConfig, path: string, inode: string, fs: seq<Follow>, os: seq<Observation>,
                            emit: bool) {
    && Runs(cfg, path, fs, os, emit) && OnlyGrows(inode, os)
    && path !in fs[0].state.watermarks && fs[0].spans == []
    && forall i | 0 <= i < |os| :: !DemandOn(cfg, path, fs[i], os[i]).TooMuch?
  }

  lemma {:induction false} GrowthKeeps(cfg: WatchConfig, path: string, inode: string, fs: seq<Follow>,
                                       os: seq<Observation>,
                                       emit: bool, n: nat)
    requires GrowthRun(cfg, path, inode, fs, os, emit) && n <= |os|
    ensures NothingSkipped(fs[n].spans) && Following(path, fs[n])
    ensures if n == 0 then path !in fs[n].state.watermarks else OnFile(path, inode, fs[n], os[n - 1].content)
  {
    if n > 0 {
      GrowthKeeps(cfg, path, inode, fs, os, emit, n - 1);
      assert os[n - 1] in os;
      if n > 1 {
        assert os[n - 2].content <= os[n - 1].content;
      }
      assert Polled(cfg, path, fs[n - 1], os[n - 1], fs[n], emit);
      GrowthStep(cfg, path, inode, fs[n - 1], os[n - 1], emit);
    }
  }

  /** Where following began never moves, and what was passed stays passed. */
  lemma {:induction false} StartStays(cfg: WatchConfig, path: string, inode: string, fs: seq<Follow>,
                                      os: seq<Observation>,
                                      emit: bool, k: nat, n: nat)
    requires GrowthRun(cfg, path, inode, fs, os, emit) && k <= n <= |os| && path in fs[k].state.watermarks
    ensures path in fs[n].state.watermarks && fs[n].base == fs[k].base && fs[k].spans <= fs[n].spans
    decreases n
  {
    if k < n {
      StartStays(cfg, path, inode, fs, os, emit, k, n - 1);
      GrowthKeeps(cfg, path, inode, fs, os, emit, n - 1);
      assert os[n - 1] in os;
      if n > 1 {
        assert os[n - 2].content <= os[n - 1].content;
      }
      assert Polled(cfg, path, fs[n - 1], os[n - 1], fs[n], emit);
      GrowthStep(cfg, path, inode, fs[n - 1], os[n - 1], emit);
    }
  }

  lemma {:induction false} GrowthStaysBounded(cfg: WatchConfig, path: string, inode: string, fs: seq<Follow>,
                                              os: seq<Observation>, emit: bool, n: nat)
    requires GrowthRun(cfg, path, inode, fs, os, emit) && n <= |os| && forall o | o in os :: RangesBounded(o)
    ensures Bounded(fs[n].spans)
  {
    if n > 0 {
      GrowthStaysBounded(cfg, path, inode, fs, os, emit, n - 1);
      GrowthKeeps(cfg, path, inode, fs, os, emit, n - 1);
      assert os[n - 1] in os;
      if n > 1 {
        assert os[n - 2].content <= os[n - 1].content;
      }
      assert Polled(cfg, path, fs[n - 1], os[n - 1], fs[n], emit);
      GrowthStep(cfg, path, inode, fs[n - 1], os[n - 1], emit);
    }
  }

  /**
   Exactly once, or not. A file keeps its inode and only grows, and no poll finds more than the limit beyond the
   watermark; calls may fail, and range reads may answer anything of the length they were asked for or less. Then
   what was read since the watermark was first stored is the file from there to the watermark if and only if every
   range read that was believed told the truth.
   */
  lemma ExactlyOnceIff(cfg: WatchConfig, path: string, inode: string, fs: seq<Follow>, os: seq<Observation>,
                       emit: bool, n: nat)
    requires GrowthRun(cfg, path, inode, fs, os, emit) && forall o | o in os :: RangesBounded(o)
    requires 0 < n <= |os| && path in fs[n].state.watermarks
    ensures var offset := fs[n].state.watermarks[path].offset;
      && fs[n].base <= offset <= |os[n - 1].content|
      && (Delivered(fs[n].spans) == os[n - 1].content[fs[n].base..offset] <==> Exact(fs[n].spans, os[n - 1].content))
  {
    GrowthKeeps(cfg, path, inode, fs, os, emit, n);
    GrowthStaysBounded(cfg, path, inode, fs, os, emit, n);
    DeliveredIff(fs[n].spans, fs[n].base, fs[n].state.watermarks[path].offset, os[n - 1].content);
  }

  lemma {:induction false} GrowthIsExact(cfg: WatchConfig, path: string, inode: string, fs: seq<Follow>,
                                         os: seq<Observation>, emit: bool, n: nat)
    requires GrowthRun(cfg, path, inode, fs, os, emit) && n <= |os| && forall o | o in os :: RangesTruthful(o)
    ensures Exact(fs[n].spans, fs[n].file)
  {
    if n > 0 {
      GrowthIsExact(cfg, path, inode, fs, os, emit, n - 1);
      GrowthKeeps(cfg, path, inode, fs, os, emit, n - 1);
      assert os[n - 1] in os;
      if n > 1 {
        assert os[n - 2].content <= os[n - 1].content;
      }
      assert Polled(cfg, path, fs[n - 1], os[n - 1], fs[n], emit);
      GrowthExactStep(cfg, path, inode, fs[n - 1], os[n - 1], emit);
    }
  }

  lemma GrowthExactStep(cfg: WatchConfig, path: string, inode: string, f: Follow, o: Observation, emit: bool)
    requires Truthful(o) && RangesTruthful(o) && o.inode == inode
    requires OnFile(path, inode, f, o.content) && Following(path, f) && Exact(f.spans, f.file)
    ensures var f' := FollowStep(cfg, path, f, o, emit); Exact(f'.spans, f'.file)
  {
    StepKeepsExact(cfg, path, f, o, emit);
    WatermarkMovesIff(cfg, f.state, path, o.answers, emit);
  }

  /**
   Exactly once. When the range reads tell the truth, what was read since the watermark was first stored is the file
   from there to the watermark, and after a poll whose calls succeed the watermark is the end of the file.
   */
  lemma ExactlyOnce(cfg: WatchConfig, path: string, inode: string, fs: seq<Follow>, os: seq<Observation>, emit: bool,
                    n: nat)
    requires GrowthRun(cfg, path, inode, fs, os, emit) && forall o | o in os :: RangesTruthful(o)
    requires 0 < n <= |os| && path in fs[n].state.watermarks
    ensures var offset := fs[n].state.watermarks[path].offset;
      && fs[n].base <= offset <= |os[n - 1].content|
      && Delivered(fs[n].spans) == os[n - 1].content[fs[n].base..offset]
    ensures Advances(DemandOn(cfg, path, fs[n - 1], os[n - 1]), os[n - 1].answers, emit) ==>
      fs[n].state.watermarks[path].offset == |os[n - 1].content|
  {
    GrowthKeeps(cfg, path, inode, fs, os, emit, n);
    GrowthIsExact(cfg, path, inode, fs, os, emit, n);
    DeliveredPrefix(path, inode, fs[n], os[n - 1].content);
    assert Polled(cfg, path, fs[n - 1], os[n - 1], fs[n], emit);
    if Advances(DemandOn(cfg, path, fs[n - 1], os[n - 1]), os[n - 1].answers, emit) {
      AdvanceReachesEnd(cfg, path, fs[n - 1], os[n - 1], emit);
    }
  }

  lemma AdvanceReachesEnd(cfg: WatchConfig, path: string, f: Follow, o: Observation, emit: bool)
    requires Truthful(o) && Advances(DemandOn(cfg, path, f, o), o.answers, emit)
    ensures var f' := FollowStep(cfg, path, f, o, emit);
      path in f'.state.watermarks && f'.state.watermarks[path].offset == |o.content|
  {
    WatermarkMovesIff(cfg, f.state, path, o.answers, emit);
    OffsetIsSize(cfg.Max(), WatermarkAt(f.state, path), o.answers.stat.value);
  }

  lemma DeliveredPrefix(path: string, inode: string, f: Follow, content: Bytes)
    requires path in f.state.watermarks && Following(path, f) && Exact(f.spans, f.file)
    requires NothingSkipped(f.spans) && OnFile(path, inode, f, content)
    ensures var offset := f.state.watermarks[path].offset;
      f.base <= offset <= |content| && Delivered(f.spans) == content[f.base..offset]
  {
    var end := f.state.watermarks[path].offset;
    forall span | span in f.spans && span.content.Some?
      ensures span.lo <= span.hi && |span.content.value| <= span.hi - span.lo
    {
    }
    DeliveredIff(f.spans, f.base, end, f.file);
    assert f.file[f.base..end] == content[f.base..end];
  }

  // ----- a run that loses bytes -----

  function PlainAnswer(text: Bytes): Answer {
    Answer(Some(0), true, text, text)
  }

  const FAILED_CALL := Answer(Some(1), true, "", "")

  /** A poll that finds `content`, whose range reads answer `range` whatever is asked. */
  function PollOf(content: Bytes, range: Answer): Observation {
    Observation("i", content, Answers(Some(Stat("i", |content|, 0)), (offset, length) => range, PlainAnswer(content)),
                content)
  }

  const FOLLOW_CONFIG := WatchConfig(true, 100, true, false)

  const NOT_YET := Follow(WatchState(map[], map[], 0, 0, [], []), "", 0, [])

  /** Two bytes appear, the range read answers one, and the watermark moves past both. */
  lemma ShortReadLoses() returns (fs: seq<Follow>, os: seq<Observation>)
    ensures GrowthRun(FOLLOW_CONFIG, "p", "i", fs, os, true) && |os| == 2 && os[1].content == "ab"
    ensures "p" in fs[2].state.watermarks && fs[2].state.watermarks["p"].offset == 2 && fs[2].base == 0
    ensures Delivered(fs[2].spans) == "a"
  {
    os := [PollOf("", PlainAnswer("")), PollOf("ab", PlainAnswer("a"))];
    var first := FollowStep(FOLLOW_CONFIG, "p", NOT_YET, os[0], true);
    var second := FollowStep(FOLLOW_CONFIG, "p", first, os[1], true);
    fs := [NOT_YET, first, second];
    assert second.spans == [Span(0, 2, Some("a"))];
    assert second.spans[..0] == [];
  }
}
