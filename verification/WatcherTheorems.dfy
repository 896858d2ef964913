/** Exactly-once delivery of a followed file, and the harmlessness of shadow mode. */
module WatcherTheorems {
  import opened Wrappers
  import opened Watcher

  // ----- what a poll asks for -----

  /** The file is the one of the watermark and has not shrunk below it. */
  predicate GoesOn(w: Watermark, stat: Stat) {
    w.inode == stat.inode && stat.size >= w.offset && stat.size >= 0
  }

  /** Where reading goes on: at the watermark, or at the beginning of a file that was replaced or cut. */
  function ReadFrom(w: Watermark, stat: Stat): nat {
    if GoesOn(w, stat) && w.offset >= 0 then w.offset else 0
  }

  /** Why reading begins anew, if it does. */
  function WhyAnew(w: Watermark, stat: Stat): WatchReason {
    if GoesOn(w, stat) then NoReason else if w.inode == stat.inode then SizeDecreased else InodeChanged
  }

  function StrategyFor(w: Watermark, stat: Stat): Strategy {
    if GoesOn(w, stat) then Incremental else RotationReset
  }

  /** Without a status the tail is read, and without a watermark following begins. */
  lemma FirstDemand(max: int, watermark: Option<Watermark>, stat: Option<Stat>)
    ensures stat.None? <==> DemandOf(max, watermark, stat) == NeedsTail(StatFailed)
    ensures stat.None? <==> DemandOf(max, watermark, stat).NeedsTail?
    ensures stat.Some? && watermark.None? <==> DemandOf(max, watermark, stat) == NeedsBootstrap
  {
  }

  /**
   With both, the bytes since the watermark decide: none is nothing to read, as many as the limit are read, and of more
   only a tail. After a reset they are counted from the beginning.
   */
  lemma DemandIff(max: nat, w: Watermark, stat: Stat)
    ensures var demand := DemandOf(max, Some(w), Some(stat));
      var from := ReadFrom(w, stat);
      && (stat.size <= from ==> demand == NeedsNothing(StrategyFor(w, stat), WhyAnew(w, stat)))
      && (from < stat.size <= from + max ==>
          demand == NeedsRange(from, stat.size - from, StrategyFor(w, stat), WhyAnew(w, stat)))
      && (from + max < stat.size ==>
          demand == TooMuch(if GoesOn(w, stat) then DeltaExceedsMax else WhyAnew(w, stat), stat.size - from))
  {
  }

  /** The watermark that a poll stores is what the status said, with the way it was come by. */
  lemma MarkIs(demand: Demand, stat: Stat)
    requires !demand.NeedsTail?
    ensures var mark := NextMark(demand, stat);
      && mark.inode == stat.inode && mark.size == stat.size && mark.mtime == stat.mtime
      && mark.offset ==
          (if demand.NeedsNothing? && demand.strategy == RotationReset then 0 else stat.size)
      && mark.skipped == (if demand.TooMuch? then demand.skipped else 0)
      && (match demand
          case NeedsBootstrap => mark.strategy == TailBootstrap && mark.reason == NoReason
          case TooMuch(reason, _) => mark.strategy == TailFallback && mark.reason == reason
          case NeedsNothing(strategy, reason) => mark.strategy == strategy && mark.reason == reason
          case NeedsRange(_, _, strategy, reason) => mark.strategy == strategy && mark.reason == reason)
  {
  }

  // ----- when a watermark moves -----

  /** The poll reads the tail of the file because of what it found. */
  predicate TailDecides(demand: Demand) {
    demand.NeedsBootstrap? || demand.TooMuch?
  }

  predicate Advances(demand: Demand, a: Answers, emit: bool) {
    match demand
    case NeedsTail(_) => false
    case NeedsBootstrap => !emit || a.tail.Ok()
    case NeedsNothing(_, _) => true
    case NeedsRange(offset, length, _, _) => a.range(offset, length).Ok()
    case TooMuch(_, _) => !emit || a.tail.Ok()
  }

  /**
   The watermark of the polled file, and no other, moves exactly when the calls it depends on succeeded: a failed
   status or range read never moves it.
   */
  lemma WatermarkMovesIff(cfg: WatchConfig, s: WatchState, path: string, a: Answers, emit: bool)
    ensures var demand := DemandOf(cfg.Max(), WatermarkAt(s, path), a.stat);
      var s' := PollWatermark(cfg, s, path, a, emit).0;
      && (Advances(demand, a, emit) ==>
          a.stat.Some? && s'.watermarks == s.watermarks[path := NextMark(demand, a.stat.value)])
      && (!Advances(demand, a, emit) ==> s'.watermarks == s.watermarks)
  {
  }

  /** The offset that is stored is the size that is stored, unless the size was printed as a negative number. */
  lemma OffsetIsSize(max: int, watermark: Option<Watermark>, stat: Stat)
    requires stat.size >= 0
    ensures var mark := NextMark(DemandOf(max, watermark, Some(stat)), stat); mark.offset == mark.size == stat.size
  {
  }

  /**
   The answer whose text a poll by watermark is about: the range if it was read, otherwise the tail if it was needed.
   */
  function UsedAnswer(demand: Demand, a: Answers): Option<Answer> {
    match demand
    case NeedsNothing(_, _) => None
    case NeedsRange(offset, length, _, _) => if a.range(offset, length).Ok() then Some(a.range(offset, length))
        else Some(a.tail)
    case _ => Some(a.tail)
  }

  /** A failed status or range read is booked as an error, and nothing else is. */
  predicate IsError(demand: Demand, a: Answers) {
    demand.NeedsTail? || (demand.NeedsRange? && !a.range(demand.offset, demand.length).Ok())
  }

  /**
   A poll emits at most one chunk, of the answer it used: a log chunk exactly when that answer succeeded with more
   than white space, an error chunk exactly when it failed, and the bytes counted are those of a success.
   */
  lemma EmitsIff(cfg: WatchConfig, s: WatchState, path: string, a: Answers)
    ensures var demand := DemandOf(cfg.Max(), WatermarkAt(s, path), a.stat);
      var used := UsedAnswer(demand, a);
      var (s', chunks) := PollWatermark(cfg, s, path, a, true);
      && |chunks| <= 1
      && ((exists c :: c in chunks && c.LogChunk?) <==> used.Some? && used.value.Ok() && !IsBlank(used.value.stdout))
      && ((exists c :: c in chunks && c.ErrorChunk?) <==>
          used.Some? && !used.value.Ok() && (!used.value.allowed || used.value.code.Some?))
      && (forall c | c in chunks :: c.path == path && c.content == Evidence(used.value.evidence))
      && s'.bytesRead == s.bytesRead + (if used.Some? && used.value.Ok() then |used.value.stdout| else 0)
      && |s'.errors| == |s.errors| + (if IsError(demand, a) then 1 else 0)
  {
    var chunks := PollWatermark(cfg, s, path, a, true).1;
    if chunks != [] {
      assert chunks[0] in chunks;
    }
  }

  /** The bytes of a range that shadow mode reads to move its watermark. */
  function HiddenBytes(cfg: WatchConfig, s: WatchState, path: string, a: Answers): nat {
    var demand := DemandOf(cfg.Max(), WatermarkAt(s, path), a.stat);
    if cfg.shadow && demand.NeedsRange? && a.range(demand.offset, demand.length).Ok()
    then |a.range(demand.offset, demand.length).stdout| else 0
  }

  /**
   In shadow mode and with watermarks disabled a poll of a file emits what its tail answered: at most one chunk, a log
   chunk exactly when the tail succeeded with more than white space, an error chunk exactly when it failed with a code
   or was not allowed. The bytes counted are those of a tail that succeeded; shadow mode, which alone looks at
   watermarks, adds those of a range that it read without showing it.
   */
  lemma TailPollEmits(cfg: WatchConfig, s: WatchState, path: string, a: Answers)
    requires cfg.shadow || !cfg.enabled
    ensures var (s', chunks) := PollPath(cfg, s, path, a);
      && |chunks| <= 1
      && ((exists c :: c in chunks && c.LogChunk?) <==> a.tail.Ok() && !IsBlank(a.tail.stdout))
      && ((exists c :: c in chunks && c.ErrorChunk?) <==> !a.tail.Ok() && (!a.tail.allowed || a.tail.code.Some?))
      && (forall c | c in chunks :: c.path == path && c.content == Evidence(a.tail.evidence))
      && s'.bytesRead == s.bytesRead + (if a.tail.Ok() then |a.tail.stdout| else 0) + HiddenBytes(cfg, s, path, a)
      && s'.watermarks == (if cfg.shadow then PollWatermark(cfg, s, path, a, false).0.watermarks else s.watermarks)
      && (!cfg.shadow ==> s'.errors == s.errors)
  {
    var chunks := PollPath(cfg, s, path, a).1;
    if chunks != [] {
      assert chunks[0] in chunks;
    }
  }

  // ----- observations of one poll -----

  function Tally(counts: map<Strategy, nat>): nat {
    CountOf(counts, Incremental) + CountOf(counts, TailBootstrap) + CountOf(counts, TailFallback)
    + CountOf(counts, RotationReset) + CountOf(counts, TailShadowOutput) + CountOf(counts, TailDisabled)
  }

  /** Every fallback and every reset is noticed, and the fallback counter counts the fallbacks. */
  ghost predicate Observed(s: WatchState) {
    && s.fallbacks == CountOf(s.counts, TailFallback)
    && |s.notices| == CountOf(s.counts, TailFallback) + CountOf(s.counts, RotationReset)
  }

  lemma CountedOnce(counts: map<Strategy, nat>, strategy: Strategy)
    ensures var counts' := counts[strategy := CountOf(counts, strategy) + 1];
      && Tally(counts') == Tally(counts) + 1
      && CountOf(counts', TailFallback) == CountOf(counts, TailFallback) + (if strategy == TailFallback then 1 else 0)
      && CountOf(counts', RotationReset) ==
          CountOf(counts, RotationReset) + (if strategy == RotationReset then 1 else 0)
  {
  }

  /** `s'` has recorded `strategy`, and nothing else, since `s`. */
  ghost predicate RecordsOne(s: WatchState, s': WatchState, strategy: Strategy) {
    && s'.counts == s.counts[strategy := CountOf(s.counts, strategy) + 1]
    && s'.fallbacks == s.fallbacks + (if strategy == TailFallback then 1 else 0)
    && |s'.notices| == |s.notices| + (if strategy == TailFallback || strategy == RotationReset then 1 else 0)
  }

  /** The strategy that a poll by watermark records. */
  function StrategyUsed(demand: Demand, a: Answers): Strategy {
    match demand
    case NeedsBootstrap => TailBootstrap
    case NeedsNothing(strategy, _) => strategy
    case NeedsRange(offset, length, strategy, _) => if a.range(offset, length).Ok() then strategy else TailFallback
    case _ => TailFallback
  }

  lemma PollRecords(cfg: WatchConfig, s: WatchState, path: string, a: Answers, emit: bool) returns (strategy: Strategy)
    ensures strategy == StrategyUsed(DemandOf(cfg.Max(), WatermarkAt(s, path), a.stat), a)
    ensures RecordsOne(s, PollWatermark(cfg, s, path, a, emit).0, strategy)
  {
    match DemandOf(cfg.Max(), WatermarkAt(s, path), a.stat)
    case NeedsTail(_) => strategy := TailFallback;
    case NeedsBootstrap => strategy := TailBootstrap;
    case NeedsNothing(used, _) => strategy := used;
    case NeedsRange(offset, length, used, _) => strategy := if a.range(offset, length).Ok() then used else TailFallback;
    case TooMuch(_, _) => strategy := TailFallback;
  }

  /** Why the poll fell back on the tail or began anew. */
  function ReasonUsed(demand: Demand, a: Answers): WatchReason {
    match demand
    case NeedsTail(reason) => reason
    case NeedsBootstrap => NoReason
    case NeedsNothing(_, reason) => reason
    case NeedsRange(offset, length, _, reason) => if a.range(offset, length).Ok() then reason else RangeReadFailed
    case TooMuch(reason, _) => reason
  }

  /** One more of `used`, and nothing else, was counted since `before`. */
  ghost predicate CountsOneMore(before: map<Strategy, nat>, after: map<Strategy, nat>, used: Strategy) {
    && after.Keys == before.Keys + {used}
    && after[used] == (if used in before then before[used] + 1 else 1)
    && forall other | other in before && other != used :: after[other] == before[other]
  }

  /** A poll by watermark counts the strategy it used, once. */
  lemma PollCounts(cfg: WatchConfig, s: WatchState, path: string, a: Answers, emit: bool)
    ensures var demand := DemandOf(cfg.Max(), WatermarkAt(s, path), a.stat);
      var s', used := PollWatermark(cfg, s, path, a, emit).0, StrategyUsed(demand, a);
      && CountsOneMore(s.counts, s'.counts, used)
      && s'.fallbacks == s.fallbacks + (if used == TailFallback then 1 else 0)
  {
    var used := PollRecords(cfg, s, path, a, emit);
    RecordedOnce(s, PollWatermark(cfg, s, path, a, emit).0, used);
  }

  lemma RecordedOnce(s: WatchState, s': WatchState, used: Strategy)
    requires RecordsOne(s, s', used)
    ensures CountsOneMore(s.counts, s'.counts, used)
  {
  }

  /** It notices a fallback and a reset with the reason, and nothing else. */
  lemma PollNotices(cfg: WatchConfig, s: WatchState, path: string, a: Answers, emit: bool)
    ensures var demand := DemandOf(cfg.Max(), WatermarkAt(s, path), a.stat);
      var used := StrategyUsed(demand, a);
      PollWatermark(cfg, s, path, a, emit).0.notices ==
        s.notices + (if used == TailFallback || used == RotationReset
                     then [Notice(used, path, ReasonUsed(demand, a))] else [])
  {
  }

  /** And it books a failed status or range read as an error of the file. */
  lemma PollErrors(cfg: WatchConfig, s: WatchState, path: string, a: Answers, emit: bool)
    ensures var demand := DemandOf(cfg.Max(), WatermarkAt(s, path), a.stat);
      PollWatermark(cfg, s, path, a, emit).0.errors ==
        s.errors + (if a.stat.None? then [WatchError(path, StatFailed)]
                    else if demand.NeedsRange? && !a.range(demand.offset, demand.length).Ok()
                      then [WatchError(path, RangeReadFailed)]
                    else [])
  {
  }

  /** With watermarks enabled and no shadow a file is polled by its watermark, and what is found is emitted. */
  lemma EnabledPollIs(cfg: WatchConfig, s: WatchState, path: string, a: Answers)
    requires cfg.enabled && !cfg.shadow
    ensures PollPath(cfg, s, path, a) == PollWatermark(cfg, s, path, a, true)
  {
  }

  /** A poll starts with the watermarks alone: nothing is counted, noticed or booked yet. */
  lemma PollStartsFresh(cfg: WatchConfig, s: WatchState, files: seq<string>, answers: seq<Answers>)
    requires |files| == |answers|
    ensures Poll(cfg, s, files, answers) ==
      PollFiles(cfg, WatchState(s.watermarks, map[], 0, 0, [], []), files, answers)
  {
  }

  /** The limit is one byte at least. */
  lemma MaxIs(cfg: WatchConfig)
    ensures cfg.maxBytes >= 1 ==> cfg.Max() == cfg.maxBytes
    ensures cfg.maxBytes < 1 ==> cfg.Max() == 1
  {
  }

  /** In shadow mode the tail is counted besides, and with watermarks disabled alone. */
  lemma TailPollBooks(cfg: WatchConfig, s: WatchState, path: string, a: Answers)
    requires cfg.shadow || !cfg.enabled
    ensures var before := if cfg.shadow then PollWatermark(cfg, s, path, a, false).0 else s;
      var s', used := PollPath(cfg, s, path, a).0, if cfg.shadow then TailShadowOutput else TailDisabled;
      && CountsOneMore(before.counts, s'.counts, used)
      && s'.notices == before.notices && s'.errors == before.errors && s'.fallbacks == before.fallbacks
  {
  }

  lemma RecordObserves(s: WatchState, s': WatchState, strategy: Strategy)
    requires Observed(s) && RecordsOne(s, s', strategy)
    ensures Observed(s') && Tally(s'.counts) == Tally(s.counts) + 1
  {
    CountedOnce(s.counts, strategy);
  }

  lemma PollWatermarkObserves(cfg: WatchConfig, s: WatchState, path: string, a: Answers, emit: bool)
    requires Observed(s)
    ensures var s' := PollWatermark(cfg, s, path, a, emit).0; Observed(s') && Tally(s'.counts) == Tally(s.counts) + 1
  {
    var strategy := PollRecords(cfg, s, path, a, emit);
    RecordObserves(s, PollWatermark(cfg, s, path, a, emit).0, strategy);
  }

  lemma TailOnlyObserves(s: WatchState, path: string, strategy: Strategy, tail: Answer)
    requires Observed(s) && (strategy == TailShadowOutput || strategy == TailDisabled)
    ensures var s' := TailOnly(s, path, strategy, tail).0; Observed(s') && Tally(s'.counts) == Tally(s.counts) + 1
  {
    RecordObserves(s, TailOnly(s, path, strategy, tail).0, strategy);
  }

  lemma PollPathObserves(cfg: WatchConfig, s: WatchState, path: string, a: Answers)
    requires Observed(s)
    ensures var s' := PollPath(cfg, s, path, a).0;
      Observed(s') && Tally(s'.counts) == Tally(s.counts) + if cfg.shadow then 2 else 1
  {
    if cfg.shadow {
      PollWatermarkObserves(cfg, s, path, a, false);
      TailOnlyObserves(PollWatermark(cfg, s, path, a, false).0, path, TailShadowOutput, a.tail);
    } else if cfg.enabled {
      PollWatermarkObserves(cfg, s, path, a, true);
    } else {
      TailOnlyObserves(s, path, TailDisabled, a.tail);
    }
  }

  /** A poll records one strategy for every file of the list, and two in shadow mode. */
  lemma {:induction false} PollObserves(cfg: WatchConfig, s: WatchState, files: seq<string>, answers: seq<Answers>)
    requires |files| == |answers| && Observed(s)
    ensures var s' := PollFiles(cfg, s, files, answers).0;
      Observed(s') && Tally(s'.counts) == Tally(s.counts) + if !cfg.hasProfile then 0
          else if cfg.shadow then 2 * |files| else |files|
    decreases |files|
  {
    if files != [] {
      var n := |files| - 1;
      PollObserves(cfg, s, files[..n], answers[..n]);
      PollPathObserves(cfg, PollFiles(cfg, s, files[..n], answers[..n]).0, files[n], answers[n]);
    }
  }

  // ----- shadow mode -----

  /** In shadow mode a poll emits what it would emit without watermarks, whatever was stored before. */
  lemma {:induction false} ShadowEmitsTails(cfg: WatchConfig, off: WatchConfig, s: WatchState, t: WatchState,
                                            files: seq<string>,
                                            answers: seq<Answers>)
    requires |files| == |answers| && cfg.shadow && !off.shadow && !off.enabled && cfg.hasProfile == off.hasProfile
    ensures PollFiles(cfg, s, files, answers).1 == PollFiles(off, t, files, answers).1
    ensures PollFiles(off, t, files, answers).0.watermarks == t.watermarks
    decreases |files|
  {
    if files != [] {
      var n := |files| - 1;
      ShadowEmitsTails(cfg, off, s, t, files[..n], answers[..n]);
    }
  }

  /** The same over every history of polls: what is emitted never depends on the watermarks that shadow mode keeps. */
  ghost function EmittedBy(cfg: WatchConfig, s: WatchState, files: seq<string>,
                           history: seq<seq<Answers>>): seq<seq<Chunk>>
    requires forall answers | answers in history :: |answers| == |files|
    decreases |history|
  {
    if history == [] then []
    else
      var (s', chunks) := Poll(cfg, s, files, history[0]);
      [chunks] + EmittedBy(cfg, s', files, history[1..])
  }

  lemma {:induction false} ShadowIsInvisible(cfg: WatchConfig, off: WatchConfig, s: WatchState, t: WatchState,
                                             files: seq<string>, history: seq<seq<Answers>>)
    requires forall answers | answers in history :: |answers| == |files|
    requires cfg.shadow && !off.shadow && !off.enabled && cfg.hasProfile == off.hasProfile
    ensures EmittedBy(cfg, s, files, history) == EmittedBy(off, t, files, history)
    decreases |history|
  {
    if history != [] {
      ShadowEmitsTails(cfg, off, ResetObservations(s), ResetObservations(t), files, history[0]);
      ShadowIsInvisible(cfg, off, Poll(cfg, s, files, history[0]).0, Poll(off, t, files, history[0]).0, files,
                        history[1..]);
    }
  }

  /**
   From equal watermarks, shadow mode and watermark mode store the same watermarks exactly when the poll does not
   rest on a tail that failed, or the watermark would not change anyway.
   */
  lemma ShadowMarksAgreeIff(cfg: WatchConfig, s: WatchState, t: WatchState, path: string, a: Answers)
    requires s.watermarks == t.watermarks
    ensures var demand := DemandOf(cfg.Max(), WatermarkAt(s, path), a.stat);
      PollWatermark(cfg, s, path, a, false).0.watermarks == PollWatermark(cfg, t, path, a, true).0.watermarks
      <==> !TailDecides(demand) || a.tail.Ok() || WatermarkAt(s, path) == Some(NextMark(demand, a.stat.value))
  {
    WatermarkMovesIff(cfg, s, path, a, false);
    WatermarkMovesIff(cfg, t, path, a, true);
    var demand := DemandOf(cfg.Max(), WatermarkAt(s, path), a.stat);
    if TailDecides(demand) && !a.tail.Ok() {
      var after := s.watermarks[path := NextMark(demand, a.stat.value)];
      assert after == s.watermarks <==> path in s.watermarks && s.watermarks[path] == after[path];
    }
  }

  ghost predicate TailsSucceed(answers: seq<Answers>) {
    forall a | a in answers :: a.tail.Ok()
  }

  lemma {:induction false} ShadowMarksAgree(cfg: WatchConfig, on: WatchConfig, s: WatchState, t: WatchState,
                                            files: seq<string>,
                                            answers: seq<Answers>)
    requires |files| == |answers| && TailsSucceed(answers) && s.watermarks == t.watermarks
    requires cfg.shadow && !on.shadow && on.enabled && cfg.hasProfile == on.hasProfile && cfg.maxBytes == on.maxBytes
    ensures PollFiles(cfg, s, files, answers).0.watermarks == PollFiles(on, t, files, answers).0.watermarks
    decreases |files|
  {
    if files != [] {
      var n := |files| - 1;
      ShadowMarksAgree(cfg, on, s, t, files[..n], answers[..n]);
      var s1, t1 := PollFiles(cfg, s, files[..n], answers[..n]).0, PollFiles(on, t, files[..n], answers[..n]).0;
      WatermarkMovesIff(cfg, s1, files[n], answers[n], false);
      WatermarkMovesIff(on, t1, files[n], answers[n], true);
    }
  }

  ghost function MarksAfter(cfg: WatchConfig, s: WatchState, files: seq<string>,
                            history: seq<seq<Answers>>): map<string, Watermark>
    requires forall answers | answers in history :: |answers| == |files|
    decreases |history|
  {
    if history == [] then s.watermarks else MarksAfter(cfg, Poll(cfg, s, files, history[0]).0, files, history[1..])
  }

  /** Over every history in which the tails succeed, the watermarks of shadow mode are those of watermark mode. */
  lemma {:induction false} ShadowMarksEvolveAlike(cfg: WatchConfig, on: WatchConfig, s: WatchState, t: WatchState,
                                                  files: seq<string>, history: seq<seq<Answers>>)
    requires forall answers | answers in history :: |answers| == |files| && TailsSucceed(answers)
    requires cfg.shadow && !on.shadow && on.enabled && cfg.hasProfile == on.hasProfile && cfg.maxBytes == on.maxBytes
    requires s.watermarks == t.watermarks
    ensures MarksAfter(cfg, s, files, history) == MarksAfter(on, t, files, history)
    decreases |history|
  {
    if history != [] {
      ShadowMarksAgree(cfg, on, ResetObservations(s), ResetObservations(t), files, history[0]);
      ShadowMarksEvolveAlike(cfg, on, Poll(cfg, s, files, history[0]).0, Poll(on, t, files, history[0]).0, files,
                             history[1..]);
    }
  }
}
