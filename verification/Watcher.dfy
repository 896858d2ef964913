/** Following remote log files with a watermark per file, by stat calls, byte ranges and tails. */
module Watcher {
  import opened Wrappers

  /** One status of a remote file; the size is the integer that was printed. */
  datatype Stat = Stat(inode: string, size: int, mtime: int)

  /** What a remote command answered. `code` is absent when it was not run; `evidence` is its full text. */
  datatype Answer = Answer(code: Option<int>, allowed: bool, stdout: Bytes, evidence: string)
  {
    predicate Ok() { code == Some(0) }
  }

  /**
   What the remote side answers while one file is polled. `stat` is absent when that call failed or printed
   something unreadable.
   */
  datatype Answers = Answers(stat: Option<Stat>, range: (int, int) -> Answer, tail: Answer)

  datatype Strategy = Incremental | TailBootstrap | TailFallback | RotationReset | TailShadowOutput | TailDisabled

  datatype WatchReason =
    | NoReason | BootstrapReason | StatFailed | RangeReadFailed | DeltaExceedsMax | SizeDecreased | InodeChanged

  datatype Watermark = Watermark(
    inode: string,
    size: int,
    mtime: int,
    offset: int,
    strategy: Strategy,
    reason: WatchReason,
    skipped: int)

  datatype Content = Evidence(text: string) | ProfileMissing

  datatype Chunk =
    | LogChunk(path: string, content: Content)
    | ErrorChunk(path: string, content: Content)

  /** A notice names the strategy that caused it, which is also its kind. */
  datatype Notice = Notice(strategy: Strategy, path: string, reason: WatchReason)

  datatype WatchError = WatchError(path: string, reason: WatchReason)

  datatype WatchState = WatchState(
    watermarks: map<string, Watermark>,
    counts: map<Strategy, nat>,
    fallbacks: nat,
    bytesRead: nat,
    errors: seq<WatchError>,
    notices: seq<Notice>)

  datatype WatchConfig = WatchConfig(hasProfile: bool, maxBytes: int, enabled: bool, shadow: bool)
  {
    /** A limit below one byte is read as one byte. */
    function Max(): int {
      if maxBytes < 1 then 1 else maxBytes
    }
  }

  function CountOf(counts: map<Strategy, nat>, strategy: Strategy): nat {
    if strategy in counts then counts[strategy] else 0
  }

  function ResetObservations(s: WatchState): WatchState {
    WatchState(s.watermarks, map[], 0, 0, [], [])
  }

  function Recorded(s: WatchState, strategy: Strategy): WatchState {
    s.(counts := s.counts[strategy := CountOf(s.counts, strategy) + 1],
       fallbacks := if strategy == TailFallback then s.fallbacks + 1 else s.fallbacks)
  }

  function Noticed(s: WatchState, strategy: Strategy, path: string, reason: WatchReason): WatchState {
    s.(notices := s.notices + [Notice(strategy, path, reason)])
  }

  function Stamped(stat: Stat, offset: int, strategy: Strategy, reason: WatchReason, skipped: int): Watermark {
    Watermark(stat.inode, stat.size, stat.mtime, offset, strategy, reason, skipped)
  }

  predicate IsBlank(text: Bytes) {
    Strip(text) == ""
  }

  function ChunksOf(path: string, answer: Answer): seq<Chunk> {
    if answer.Ok() then
      if IsBlank(answer.stdout) then [] else [LogChunk(path, Evidence(answer.evidence))]
    else if !answer.allowed || answer.code.Some? then [ErrorChunk(path, Evidence(answer.evidence))]
    else []
  }

  function TailOnly(s: WatchState, path: string, strategy: Strategy, tail: Answer): (WatchState, seq<Chunk>) {
    var s1 := Recorded(s, strategy);
    (if tail.Ok() then s1.(bytesRead := s1.bytesRead + |tail.stdout|) else s1, ChunksOf(path, tail))
  }

  /** Fall back on the tail of the file. With a watermark given, it is stored unless the tail was read and failed. */
  function Fallback(s: WatchState, path: string, reason: WatchReason, mark: Option<Watermark>, strategy: Strategy,
                    tail: Answer, emit: bool): (WatchState, seq<Chunk>) {
    var s1 := Recorded(s, strategy);
    var s2 := if strategy == TailFallback then Noticed(s1, strategy, path, reason) else s1;
    var s3 := if emit && tail.Ok() then s2.(bytesRead := s2.bytesRead + |tail.stdout|) else s2;
    var s4 := if mark.Some? && (!emit || tail.Ok()) then s3.(watermarks := s3.watermarks[path := mark.value]) else s3;
    (s4, if emit then ChunksOf(path, tail) else [])
  }

  /** What the status of a file and its watermark ask for. */
  datatype Demand =
    | NeedsTail(reason: WatchReason)
    | NeedsBootstrap
    | NeedsNothing(strategy: Strategy, reason: WatchReason)
    | NeedsRange(offset: int, length: int, strategy: Strategy, reason: WatchReason)
    | TooMuch(reason: WatchReason, skipped: int)

  function OffsetOf(w: Watermark): int {
    if w.offset < 0 then 0 else w.offset
  }

  function DemandOf(max: int, watermark: Option<Watermark>, stat: Option<Stat>): Demand {
    if stat.None? then NeedsTail(StatFailed)
    else if watermark.None? then NeedsBootstrap
    else
      var w, now := watermark.value, stat.value;
      if w.inode == now.inode && now.size >= OffsetOf(w) then
        var delta := now.size - OffsetOf(w);
        if delta <= 0 then NeedsNothing(Incremental, NoReason)
        else if delta > max then TooMuch(DeltaExceedsMax, delta)
        else NeedsRange(OffsetOf(w), delta, Incremental, NoReason)
      else
        var reason := if w.inode == now.inode then SizeDecreased else InodeChanged;
        if now.size <= 0 then NeedsNothing(RotationReset, reason)
        else if now.size > max then TooMuch(reason, now.size)
        else NeedsRange(0, now.size, RotationReset, reason)
  }

  function WatermarkAt(s: WatchState, path: string): Option<Watermark> {
    if path in s.watermarks then Some(s.watermarks[path]) else None
  }

  /** The watermark a poll stores if it advances. */
  function NextMark(demand: Demand, stat: Stat): Watermark
    requires !demand.NeedsTail?
  {
    match demand
    case NeedsBootstrap => Stamped(stat, stat.size, TailBootstrap, NoReason, 0)
    case NeedsNothing(strategy, reason) =>
      Stamped(stat, if strategy == RotationReset then 0 else stat.size, strategy, reason, 0)
    case NeedsRange(_, _, strategy, reason) => Stamped(stat, stat.size, strategy, reason, 0)
    case TooMuch(reason, skipped) => Stamped(stat, stat.size, TailFallback, reason, skipped)
  }

  function Erred(s: WatchState, path: string, reason: WatchReason): WatchState {
    s.(errors := s.errors + [WatchError(path, reason)])
  }

  /** One poll of one file by its watermark. */
  function PollWatermark(cfg: WatchConfig, s: WatchState, path: string, a: Answers, emit: bool):
    (WatchState, seq<Chunk>)
  {
    var demand := DemandOf(cfg.Max(), WatermarkAt(s, path), a.stat);
    match demand
    case NeedsTail(reason) => Fallback(Erred(s, path, reason), path, reason, None, TailFallback, a.tail, emit)
    case NeedsBootstrap =>
      Fallback(s, path, BootstrapReason, Some(NextMark(demand, a.stat.value)), TailBootstrap, a.tail, emit)
    case NeedsNothing(strategy, reason) =>
      var s1 := Recorded(s, strategy);
      var s2 := if strategy == RotationReset then Noticed(s1, strategy, path, reason) else s1;
      (s2.(watermarks := s2.watermarks[path := NextMark(demand, a.stat.value)]), [])
    case NeedsRange(offset, length, strategy, reason) =>
      var answer := a.range(offset, length);
      if !answer.Ok() then
        Fallback(Erred(s, path, RangeReadFailed), path, RangeReadFailed, None, TailFallback, a.tail, emit)
      else
        var s1 := Recorded(s, strategy);
        var s2 := s1.(bytesRead := s1.bytesRead + |answer.stdout|);
        var s3 := if strategy == RotationReset then Noticed(s2, strategy, path, reason) else s2;
        (s3.(watermarks := s3.watermarks[path := NextMark(demand, a.stat.value)]), if emit then ChunksOf(path,
         answer) else [])
    case TooMuch(reason, _) =>
      Fallback(s, path, reason, Some(NextMark(demand, a.stat.value)), TailFallback, a.tail, emit)
  }

  function PollPath(cfg: WatchConfig, s: WatchState, path: string, a: Answers): (WatchState, seq<Chunk>) {
    if cfg.shadow then TailOnly(PollWatermark(cfg, s, path, a, false).0, path, TailShadowOutput, a.tail)
    else if !cfg.enabled then TailOnly(s, path, TailDisabled, a.tail)
    else PollWatermark(cfg, s, path, a, true)
  }

  /** One poll of the first `|answers|` files of the list. */
  function PollFiles(cfg: WatchConfig, s: WatchState, files: seq<string>, answers: seq<Answers>):
    (WatchState, seq<Chunk>)
    requires |files| == |answers|
    decreases |files|
  {
    if files == [] then (s, [])
    else
      var n := |files| - 1;
      var (s1, chunks) := PollFiles(cfg, s, files[..n], answers[..n]);
      if !cfg.hasProfile then (s1, chunks + [ErrorChunk(files[n], ProfileMissing)])
      else
        var (s2, more) := PollPath(cfg, s1, files[n], answers[n]);
        (s2, chunks + more)
  }

  function Poll(cfg: WatchConfig, s: WatchState, files: seq<string>, answers: seq<Answers>): (WatchState, seq<Chunk>)
    requires |files| == |answers|
  {
    PollFiles(cfg, ResetObservations(s), files, answers)
  }

  lemma PollOneMore(cfg: WatchConfig, s: WatchState, files: seq<string>, answers: seq<Answers>, i: nat)
    requires i < |files| == |answers|
    ensures var (s1, chunks) := PollFiles(cfg, s, files[..i], answers[..i]);
      var (s2, more) := if cfg.hasProfile then PollPath(cfg, s1, files[i], answers[i])
                        else (s1, [ErrorChunk(files[i], ProfileMissing)]);
      PollFiles(cfg, s, files[..i + 1], answers[..i + 1]) == (s2, chunks + more)
  {
    assert files[..i + 1][..i] == files[..i] && answers[..i + 1][..i] == answers[..i];
  }

  class RemoteLogWatcher {
    const cfg: WatchConfig
    const logFiles: seq<string>
    var watermarks: map<string, Watermark>
    var counts: map<Strategy, nat>
    var fallbacks: nat
    var bytesRead: nat
    var errors: seq<WatchError>
    var notices: seq<Notice>

    constructor (cfg: WatchConfig, logFiles: seq<string>, watermarks: map<string, Watermark>)
      ensures this.cfg == cfg && this.logFiles == logFiles
      ensures State() == WatchState(watermarks, map[], 0, 0, [], [])
    {
      this.cfg, this.logFiles, this.watermarks := cfg, logFiles, watermarks;
      counts, fallbacks, bytesRead, errors, notices := map[], 0, 0, [], [];
    }

    function State(): WatchState
      reads this
    {
      WatchState(watermarks, counts, fallbacks, bytesRead, errors, notices)
    }

    method RecordStrategy(strategy: Strategy)
      modifies this
      ensures State() == Recorded(old(State()), strategy)
    {
      counts := counts[strategy := CountOf(counts, strategy) + 1];
      if strategy == TailFallback {
        fallbacks := fallbacks + 1;
      }
    }

    method RecordNotice(strategy: Strategy, path: string, reason: WatchReason)
      modifies this
      ensures State() == Noticed(old(State()), strategy, path, reason)
    {
      notices := notices + [Notice(strategy, path, reason)];
    }

    method RecordWatermarkError(path: string, reason: WatchReason)
      modifies this
      ensures State() == Erred(old(State()), path, reason)
    {
      errors := errors + [WatchError(path, reason)];
    }

    method TailOnlyOf(path: string, strategy: Strategy, tail: Answer) returns (chunks: seq<Chunk>)
      modifies this
      ensures (State(), chunks) == TailOnly(old(State()), path, strategy, tail)
    {
      RecordStrategy(strategy);
      if tail.code == Some(0) {
        bytesRead := bytesRead + |tail.stdout|;
        if !IsBlank(tail.stdout) {
          return [LogChunk(path, Evidence(tail.evidence))];
        }
        return [];
      }
      if !tail.allowed || tail.code.Some? {
        return [ErrorChunk(path, Evidence(tail.evidence))];
      }
      return [];
    }

    method TailFallbackOf(path: string, reason: WatchReason, mark: Option<Watermark>, strategy: Strategy,
                          tail: Answer, emit: bool)
      returns (chunks: seq<Chunk>)
      modifies this
      ensures (State(), chunks) == Fallback(old(State()), path, reason, mark, strategy, tail, emit)
    {
      RecordStrategy(strategy);
      if strategy == TailFallback {
        RecordNotice(strategy, path, reason);
      }
      if !emit {
        if mark.Some? {
          watermarks := watermarks[path := mark.value];
        }
        return [];
      }
      if tail.code == Some(0) {
        bytesRead := bytesRead + |tail.stdout|;
        if mark.Some? {
          watermarks := watermarks[path := mark.value];
        }
        if !IsBlank(tail.stdout) {
          return [LogChunk(path, Evidence(tail.evidence))];
        }
        return [];
      }
      if !tail.allowed || tail.code.Some? {
        return [ErrorChunk(path, Evidence(tail.evidence))];
      }
      return [];
    }

    method ReadRange(path: string, stat: Stat, offset: int, length: int, strategy: Strategy, reason: WatchReason,
                     a: Answers,
                     emit: bool) returns (chunks: seq<Chunk>)
      requires DemandOf(cfg.Max(), WatermarkAt(State(), path), Some(stat)) ==
          NeedsRange(offset, length, strategy, reason)
      requires a.stat == Some(stat)
      modifies this
      ensures (State(), chunks) == PollWatermark(cfg, old(State()), path, a, emit)
    {
      var answer := a.range(offset, length);
      if answer.code == Some(0) {
        RecordStrategy(strategy);
        bytesRead := bytesRead + |answer.stdout|;
        if strategy == RotationReset {
          RecordNotice(strategy, path, reason);
        }
        watermarks := watermarks[path := Stamped(stat, stat.size, strategy, reason, 0)];
        if emit && !IsBlank(answer.stdout) {
          return [LogChunk(path, Evidence(answer.evidence))];
        }
        return [];
      }
      RecordWatermarkError(path, RangeReadFailed);
      chunks := TailFallbackOf(path, RangeReadFailed, None, TailFallback, a.tail, emit);
    }

    method ReadIncremental(path: string, stat: Stat, offset: int, a: Answers, emit: bool) returns (chunks: seq<Chunk>)
      requires path in watermarks && offset == OffsetOf(watermarks[path])
      requires watermarks[path].inode == stat.inode && stat.size >= offset && a.stat == Some(stat)
      modifies this
      ensures (State(), chunks) == PollWatermark(cfg, old(State()), path, a, emit)
    {
      var delta := stat.size - offset;
      if delta <= 0 {
        RecordStrategy(Incremental);
        watermarks := watermarks[path := Stamped(stat, stat.size, Incremental, NoReason, 0)];
        return [];
      }
      if delta > cfg.Max() {
        var mark := Stamped(stat, stat.size, TailFallback, DeltaExceedsMax, delta);
        chunks := TailFallbackOf(path, DeltaExceedsMax, Some(mark), TailFallback, a.tail, emit);
        return;
      }
      chunks := ReadRange(path, stat, offset, delta, Incremental, NoReason, a, emit);
    }

    method ReadAfterReset(path: string, stat: Stat, reason: WatchReason, a: Answers,
                          emit: bool) returns (chunks: seq<Chunk>)
      requires path in watermarks && a.stat == Some(stat)
      requires watermarks[path].inode != stat.inode || stat.size < OffsetOf(watermarks[path])
      requires reason == if watermarks[path].inode == stat.inode then SizeDecreased else InodeChanged
      modifies this
      ensures (State(), chunks) == PollWatermark(cfg, old(State()), path, a, emit)
    {
      if stat.size <= 0 {
        RecordStrategy(RotationReset);
        RecordNotice(RotationReset, path, reason);
        watermarks := watermarks[path := Stamped(stat, 0, RotationReset, reason, 0)];
        return [];
      }
      if stat.size > cfg.Max() {
        var mark := Stamped(stat, stat.size, TailFallback, reason, stat.size);
        chunks := TailFallbackOf(path, reason, Some(mark), TailFallback, a.tail, emit);
        return;
      }
      chunks := ReadRange(path, stat, 0, stat.size, RotationReset, reason, a, emit);
    }

    method PollByWatermark(path: string, a: Answers, emit: bool) returns (chunks: seq<Chunk>)
      modifies this
      ensures (State(), chunks) == PollWatermark(cfg, old(State()), path, a, emit)
    {
      if a.stat.None? {
        RecordWatermarkError(path, StatFailed);
        chunks := TailFallbackOf(path, StatFailed, None, TailFallback, a.tail, emit);
        return;
      }
      var stat := a.stat.value;
      if path !in watermarks {
        var mark := Stamped(stat, stat.size, TailBootstrap, NoReason, 0);
        chunks := TailFallbackOf(path, BootstrapReason, Some(mark), TailBootstrap, a.tail, emit);
        return;
      }
      var w := watermarks[path];
      var offset := OffsetOf(w);
      if w.inode == stat.inode && stat.size >= offset {
        chunks := ReadIncremental(path, stat, offset, a, emit);
        return;
      }
      if w.inode == stat.inode && stat.size < offset {
        chunks := ReadAfterReset(path, stat, SizeDecreased, a, emit);
        return;
      }
      chunks := ReadAfterReset(path, stat, InodeChanged, a, emit);
    }

    method PollOnePath(path: string, a: Answers) returns (chunks: seq<Chunk>)
      modifies this
      ensures (State(), chunks) == PollPath(cfg, old(State()), path, a)
    {
      if cfg.shadow {
        var _ := PollByWatermark(path, a, false);
        chunks := TailOnlyOf(path, TailShadowOutput, a.tail);
        return;
      }
      if !cfg.enabled {
        chunks := TailOnlyOf(path, TailDisabled, a.tail);
        return;
      }
      chunks := PollByWatermark(path, a, true);
    }

    method PollAll(answers: seq<Answers>) returns (chunks: seq<Chunk>)
      requires |answers| == |logFiles|
      modifies this
      ensures (State(), chunks) == Poll(cfg, old(State()), logFiles, answers)
    {
      ghost var start := ResetObservations(State());
      counts, fallbacks, bytesRead, errors, notices := map[], 0, 0, [], [];
      chunks := [];
      for i := 0 to |logFiles|
        invariant (State(), chunks) == PollFiles(cfg, start, logFiles[..i], answers[..i])
      {
        PollOneMore(cfg, start, logFiles, answers, i);
        if !cfg.hasProfile {
          chunks := chunks + [ErrorChunk(logFiles[i], ProfileMissing)];
        } else {
          var more := PollOnePath(logFiles[i], answers[i]);
          chunks := chunks + more;
        }
      }
      assert logFiles[..|logFiles|] == logFiles && answers[..|logFiles|] == answers;
    }
  }
}
