/**
 Which bytes of a growing file the polls emit: those of a range that is read once, and those of every tail that shows
 them. The file may grow between the status call of a poll and its tail call.
 */
module Emissions {
  import opened Wrappers
  import opened Watcher
  import opened WatcherTheorems
  import opened RemoteTail
  import opened Delivery

  /** The part of the file whose text a poll emits. */
  datatype Cover = Cover(lo: int, hi: int, byRange: bool)

  predicate ReadsRange(demand: Demand, o: Observation) {
    demand.NeedsRange? && o.answers.range(demand.offset, demand.length).Ok()
  }

  /** The poll looks at the tail: for a failed status or range read, a first watermark, or too much to read. */
  predicate UsesTail(demand: Demand, o: Observation) {
    !demand.NeedsNothing? && !ReadsRange(demand, o)
  }

  /** Range reads and tails may fail; what they answer is what the file held at that call. */
  ghost predicate Answered(view: TailView, o: Observation) {
    RangesTruthful(o) && (o.answers.tail.Ok() ==> o.answers.tail.stdout == TailText(view, o.later))
  }

  function CoverOf(view: TailView, demand: Demand, o: Observation): Option<Cover> {
    if demand.NeedsNothing? then None
    else if ReadsRange(demand, o) then
      if IsBlank(o.answers.range(demand.offset, demand.length).stdout) then None
      else Some(Cover(demand.offset, demand.offset + demand.length, true))
    else if o.answers.tail.Ok() && !IsBlank(o.answers.tail.stdout) then
      Some(Cover(TailFrom(view, o.later), TailTo(view, o.later), false))
    else None
  }

  /** The line that stands before the part of the file in an emitted text: there is one when a tail was cut. */
  function NoticeBefore(view: TailView, cover: Cover, o: Observation): string {
    if cover.byRange then "" else NoticeFor(Ending(view, o.later), view.chars)
  }

  lemma RangeText(demand: Demand, o: Observation)
    requires RangesTruthful(o) && o.content <= o.later && ReadsRange(demand, o)
    requires 0 <= demand.offset && 0 < demand.length && demand.offset + demand.length <= |o.content|
    ensures o.answers.range(demand.offset, demand.length).stdout ==
      o.later[demand.offset..demand.offset + demand.length]
  {
    var lo, hi := demand.offset, demand.offset + demand.length;
    assert o.content[lo..hi] == o.later[lo..hi];
  }

  /** The text of the answer that a poll uses is the part of the file that the poll covers. */
  lemma CoverText(max: int, view: TailView, watermark: Option<Watermark>, o: Observation)
    requires Truthful(o) && Answered(view, o) && o.content <= o.later
    ensures var demand := DemandOf(max, watermark, o.answers.stat);
      var cover, used := CoverOf(view, demand, o), UsedAnswer(demand, o.answers);
      && (cover.Some? <==> used.Some? && used.value.Ok() && !IsBlank(used.value.stdout))
      && (cover.Some? ==>
          && 0 <= cover.value.lo < cover.value.hi <= |o.later|
          && used.value.stdout == NoticeBefore(view, cover.value, o) + o.later[cover.value.lo..cover.value.hi])
  {
    var demand := DemandOf(max, watermark, o.answers.stat);
    if ReadsRange(demand, o) {
      RangeText(demand, o);
    } else {
      TailShowsSlice(view, o.later);
      BlankIff(view, o.later);
    }
  }

  /**
   A poll emits a log chunk exactly when it covers a part of the file. The chunk is then of the answer that was used,
   and the text of that answer is that part of the file.
   */
  lemma CoverIsEmitted(cfg: WatchConfig, view: TailView, s: WatchState, path: string, o: Observation)
    requires Truthful(o) && Answered(view, o) && o.content <= o.later
    ensures var demand := DemandOf(cfg.Max(), WatermarkAt(s, path), o.answers.stat);
      var cover, used := CoverOf(view, demand, o), UsedAnswer(demand, o.answers);
      var chunks := PollWatermark(cfg, s, path, o.answers, true).1;
      && (cover.Some? <==> exists c :: c in chunks && c.LogChunk?)
      && (cover.Some? ==>
          && used.Some? && chunks == [LogChunk(path, Evidence(used.value.evidence))]
          && 0 <= cover.value.lo < cover.value.hi <= |o.later|
          && used.value.stdout == NoticeBefore(view, cover.value, o) + o.later[cover.value.lo..cover.value.hi])
  {
    EmitsIff(cfg, s, path, o.answers);
    CoverText(cfg.Max(), view, WatermarkAt(s, path), o);
  }

  /** The file keeps its inode and only grows, within a poll and from poll to poll. */
  ghost predicate Grows(inode: string, os: seq<Observation>) {
    && (forall o | o in os :: o.inode == inode && Truthful(o) && o.content <= o.later)
    && forall i, j | 0 <= i < j < |os| :: os[i].later <= os[j].content
  }

  /** A run over one growing file, from before the watermark was first stored. Bytes may be skipped. */
  ghost predicate GrowingRun(cfg: WatchConfig, path: string, inode: string, fs: seq<Follow>, os: seq<Observation>) {
    Runs(cfg, path, fs, os, true) && Grows(inode, os) && path !in fs[0].state.watermarks
  }

  /** The watermark is of this file and no further than what the last poll saw. */
  ghost predicate Marked(path: string, inode: string, f: Follow, seen: nat) {
    path in f.state.watermarks ==>
      var w := f.state.watermarks[path]; w.inode == inode && 0 <= w.offset <= seen && f.base <= w.offset
  }

  function OffsetAt(path: string, f: Follow): int {
    if path in f.state.watermarks then f.state.watermarks[path].offset else 0
  }

  /** One poll of a growing file: the watermark stays, is set at the end, or moves from where it was to the end. */
  lemma GrowingStep(cfg: WatchConfig, path: string, inode: string, f: Follow, o: Observation)
    requires Truthful(o) && o.inode == inode && Marked(path, inode, f, |o.content|)
    ensures var f', demand := FollowStep(cfg, path, f, o, true), DemandOn(cfg, path, f, o);
      && Marked(path, inode, f', |o.content|)
      && (demand.NeedsRange? ==> path in f.state.watermarks && demand.offset == OffsetAt(path, f)
                                 && demand.offset + demand.length == |o.content| && demand.length > 0)
      && (path in f.state.watermarks ==> path in f'.state.watermarks && f'.base == f.base && !demand.NeedsBootstrap?)
      && (path !in f.state.watermarks && path in f'.state.watermarks ==> f'.base == |o.content|)
      && (ReadsRange(demand, o) ==> OffsetAt(path, f') == |o.content|)
      && (path in f.state.watermarks ==> OffsetAt(path, f) <= OffsetAt(path, f'))
      && (demand.TooMuch? && o.answers.tail.Ok() ==> OffsetAt(path, f') == |o.content|)
  {
    WatermarkMovesIff(cfg, f.state, path, o.answers, true);
  }

  lemma {:induction false} RunStaysMarked(cfg: WatchConfig, path: string, inode: string,
                                          fs: seq<Follow>, os: seq<Observation>, n: nat)
    requires GrowingRun(cfg, path, inode, fs, os) && n <= |os|
    ensures Marked(path, inode, fs[n], if n == 0 then 0 else |os[n - 1].content|)
    ensures n < |os| ==> Marked(path, inode, fs[n], |os[n].content|)
  {
    if n > 0 {
      RunStaysMarked(cfg, path, inode, fs, os, n - 1);
      assert os[n - 1] in os;
      assert Polled(cfg, path, fs[n - 1], os[n - 1], fs[n], true);
      GrowingStep(cfg, path, inode, fs[n - 1], os[n - 1]);
      if n < |os| {
        assert os[n - 1].content <= os[n - 1].later <= os[n].content;
      }
    }
  }

  /** The step from one state of a run to the next. */
  lemma RunStep(cfg: WatchConfig, path: string, inode: string, fs: seq<Follow>, os: seq<Observation>, i: nat, k: nat)
    requires GrowingRun(cfg, path, inode, fs, os) && i < |os| && k == i + 1
    ensures Truthful(os[i]) && os[i].content <= os[i].later && os[i].inode == inode
    ensures Marked(path, inode, fs[i], |os[i].content|) && Polled(cfg, path, fs[i], os[i], fs[k], true)
    ensures Moves(path, fs[i], fs[k])
  {
    RunStaysMarked(cfg, path, inode, fs, os, i);
    assert os[i] in os;
    assert Polled(cfg, path, fs[i], os[i], fs[k], true);
    GrowingStep(cfg, path, inode, fs[i], os[i]);
  }

  /** Following begins once, at the watermark, and from then on start and watermark are kept or the latter rises. */
  predicate Moves(path: string, before: Follow, after: Follow) {
    && (path in before.state.watermarks ==>
        path in after.state.watermarks && after.base == before.base && OffsetAt(path, before) <= OffsetAt(path, after))
    && (path !in before.state.watermarks && path in after.state.watermarks ==> after.base == OffsetAt(path, after))
  }

  ghost predicate Rises(path: string, fs: seq<Follow>) {
    && (fs != [] ==> path !in fs[0].state.watermarks)
    && forall i, k | 0 <= i < k < |fs| && k == i + 1 :: Moves(path, fs[i], fs[k])
  }

  lemma RunRises(cfg: WatchConfig, path: string, inode: string, fs: seq<Follow>, os: seq<Observation>)
    requires GrowingRun(cfg, path, inode, fs, os)
    ensures Rises(path, fs)
  {
    forall i, k | 0 <= i < k < |fs| && k == i + 1 ensures Moves(path, fs[i], fs[k]) {
      RunStep(cfg, path, inode, fs, os, i, k);
    }
  }

  lemma {:induction false} OffsetsRise(path: string, fs: seq<Follow>, i: nat, j: nat)
    requires Rises(path, fs) && i <= j < |fs| && path in fs[i].state.watermarks
    ensures path in fs[j].state.watermarks && fs[j].base == fs[i].base && OffsetAt(path, fs[i]) <= OffsetAt(path, fs[j])
    decreases j
  {
    if i < j {
      OffsetsRise(path, fs, i, j - 1);
      assert Moves(path, fs[j - 1], fs[j]);
    }
  }

  function CoverAt(cfg: WatchConfig, view: TailView, path: string, fs: seq<Follow>, os: seq<Observation>, i: nat):
    Option<Cover>
    requires i < |os| <= |fs|
  {
    CoverOf(view, DemandOn(cfg, path, fs[i], os[i]), os[i])
  }

  predicate Covers(cover: Option<Cover>, b: int) {
    cover.Some? && cover.value.lo <= b < cover.value.hi
  }

  /** The poll reads a range that is not blank. */
  predicate ShowsRange(cfg: WatchConfig, path: string, f: Follow, o: Observation) {
    var demand := DemandOn(cfg, path, f, o);
    ReadsRange(demand, o) && !IsBlank(o.answers.range(demand.offset, demand.length).stdout)
  }

  lemma RangeCover(cfg: WatchConfig, view: TailView, path: string, inode: string, fs: seq<Follow>,
                   os: seq<Observation>, i: nat, k: nat)
    requires GrowingRun(cfg, path, inode, fs, os) && i < |os| && k == i + 1
    requires ReadsRange(DemandOn(cfg, path, fs[i], os[i]), os[i])
    ensures path in fs[i].state.watermarks && path in fs[k].state.watermarks
    ensures var cover := CoverAt(cfg, view, path, fs, os, i);
      && (cover.Some? <==> ShowsRange(cfg, path, fs[i], os[i]))
      && (cover.Some? ==> cover.value == Cover(OffsetAt(path, fs[i]), OffsetAt(path, fs[k]), true))
  {
    RunStep(cfg, path, inode, fs, os, i, k);
    GrowingStep(cfg, path, inode, fs[i], os[i]);
  }

  /** The parts of the file that two range reads emit never overlap, and come in the order of the file. */
  lemma RangeChunksDisjoint(cfg: WatchConfig, view: TailView, path: string, inode: string, fs: seq<Follow>,
                            os: seq<Observation>, i: nat, j: nat)
    requires GrowingRun(cfg, path, inode, fs, os) && i < j < |os|
    requires var a, c := CoverAt(cfg, view, path, fs, os, i), CoverAt(cfg, view, path, fs, os, j);
      a.Some? && c.Some? && a.value.byRange && c.value.byRange
    ensures CoverAt(cfg, view, path, fs, os, i).value.hi <= CoverAt(cfg, view, path, fs, os, j).value.lo
  {
    RangeCover(cfg, view, path, inode, fs, os, i, i + 1);
    RangeCover(cfg, view, path, inode, fs, os, j, j + 1);
    RunRises(cfg, path, inode, fs, os);
    OffsetsRise(path, fs, i + 1, j);
  }

  /** The poll moves the watermark past the byte. */
  predicate Passes(path: string, before: Follow, after: Follow, b: int) {
    path in before.state.watermarks && path in after.state.watermarks
        && OffsetAt(path, before) <= b < OffsetAt(path, after)
  }

  lemma PassedStaysBehind(path: string, fs: seq<Follow>, q: nat, k: nat, p: nat, b: int)
    requires Rises(path, fs) && k == q + 1 <= p < |fs| && Passes(path, fs[q], fs[k], b)
    ensures b < OffsetAt(path, fs[p])
  {
    OffsetsRise(path, fs, k, p);
  }

  lemma {:induction false} PassedOnce(path: string, fs: seq<Follow>, n: nat, b: int) returns (p: nat)
    requires Rises(path, fs) && n < |fs| && path in fs[n].state.watermarks
    requires fs[n].base <= b < OffsetAt(path, fs[n])
    ensures p < n && Passes(path, fs[p], fs[p + 1], b)
    decreases n
  {
    assert Moves(path, fs[n - 1], fs[n]);
    if path in fs[n - 1].state.watermarks && b < OffsetAt(path, fs[n - 1]) {
      p := PassedOnce(path, fs, n - 1, b);
    } else {
      p := n - 1;
    }
  }

  /** Every byte between the start and the watermark was passed by exactly one poll. */
  lemma PassedByOnePoll(cfg: WatchConfig, path: string, inode: string, fs: seq<Follow>, os: seq<Observation>, n: nat,
                        b: int) returns (p: nat)
    requires GrowingRun(cfg, path, inode, fs, os) && n <= |os| && path in fs[n].state.watermarks
    requires fs[n].base <= b < OffsetAt(path, fs[n])
    ensures p < n && Passes(path, fs[p], fs[p + 1], b)
    ensures forall q, k | 0 <= q < k <= n && k == q + 1 && Passes(path, fs[q], fs[k], b) :: q == p
  {
    RunRises(cfg, path, inode, fs, os);
    p := PassedOnce(path, fs, n, b);
    forall q, k | 0 <= q < k <= n && k == q + 1 && Passes(path, fs[q], fs[k], b) ensures q == p {
      if q < p {
        PassedStaysBehind(path, fs, q, k, p, b);
      } else if p < q {
        PassedStaysBehind(path, fs, p, p + 1, q, b);
      }
    }
  }

  // ----- how often a byte is emitted -----

  /** The poll emits a tail that shows the byte, as the file is when the tail is read. */
  predicate ShowsInTail(cfg: WatchConfig, view: TailView, path: string, f: Follow, o: Observation, b: int) {
    UsesTail(DemandOn(cfg, path, f, o), o) && o.answers.tail.Ok()
        && TailFrom(view, o.later) <= b < TailTo(view, o.later)
  }

  /** A poll emits a byte exactly if it passes it and shows the range it read, or shows it in a tail. */
  lemma EmittedByIff(cfg: WatchConfig, view: TailView, path: string, inode: string, fs: seq<Follow>,
                     os: seq<Observation>, i: nat, k: nat, b: int)
    requires GrowingRun(cfg, path, inode, fs, os) && i < |os| && k == i + 1 && Answered(view, os[i])
    ensures Covers(CoverAt(cfg, view, path, fs, os, i), b) <==>
      || (ShowsRange(cfg, path, fs[i], os[i]) && Passes(path, fs[i], fs[k], b))
      || ShowsInTail(cfg, view, path, fs[i], os[i], b)
  {
    if ReadsRange(DemandOn(cfg, path, fs[i], os[i]), os[i]) {
      RangeCover(cfg, view, path, inode, fs, os, i, k);
    } else {
      BlankIff(view, os[i].later);
    }
  }

  ghost function Emitters(cfg: WatchConfig, view: TailView, path: string, fs: seq<Follow>, os: seq<Observation>,
                          b: int): set<nat>
    requires |os| <= |fs|
  {
    set i: nat | i < |os| && Covers(CoverAt(cfg, view, path, fs, os, i), b)
  }

  ghost function TailPolls(cfg: WatchConfig, view: TailView, path: string, fs: seq<Follow>, os: seq<Observation>,
                           b: int): set<nat>
    requires |os| <= |fs|
  {
    set i: nat | i < |os| && ShowsInTail(cfg, view, path, fs[i], os[i], b)
  }

  lemma EmittersAre(cfg: WatchConfig, view: TailView, path: string, inode: string, fs: seq<Follow>,
                    os: seq<Observation>, b: int, p: nat)
    requires GrowingRun(cfg, path, inode, fs, os) && forall o | o in os :: Answered(view, o)
    requires p < |os| && Passes(path, fs[p], fs[p + 1], b)
    requires forall q, k | 0 <= q < k <= |os| && k == q + 1 && Passes(path, fs[q], fs[k], b) :: q == p
    ensures forall i: nat | i < |os| :: i in Emitters(cfg, view, path, fs, os, b) <==>
        i in TailPolls(cfg, view, path, fs, os, b) || (i == p && ShowsRange(cfg, path, fs[p], os[p]))
    ensures ShowsRange(cfg, path, fs[p], os[p]) ==> p !in TailPolls(cfg, view, path, fs, os, b)
  {
    forall i: nat | i < |os| ensures i in Emitters(cfg, view, path, fs, os, b) <==>
        i in TailPolls(cfg, view, path, fs, os, b) || (i == p && ShowsRange(cfg, path, fs[p], os[p]))
    {
      assert os[i] in os;
      EmittedByIff(cfg, view, path, inode, fs, os, i, i + 1, b);
    }
  }

  /**
   How often a byte that was passed is emitted: once for every tail that shows it, and once more if the poll that
   passed it read a range that is not blank.
   */
  lemma EmittedTimes(cfg: WatchConfig, view: TailView, path: string, inode: string, fs: seq<Follow>,
                     os: seq<Observation>, b: int) returns (p: nat)
    requires GrowingRun(cfg, path, inode, fs, os) && forall o | o in os :: Answered(view, o)
    requires path in fs[|os|].state.watermarks
    requires fs[|os|].base <= b < OffsetAt(path, fs[|os|])
    ensures p < |os| && Passes(path, fs[p], fs[p + 1], b)
    ensures |Emitters(cfg, view, path, fs, os, b)| ==
      |TailPolls(cfg, view, path, fs, os, b)| + if ShowsRange(cfg, path, fs[p], os[p]) then 1 else 0
  {
    p := PassedByOnePoll(cfg, path, inode, fs, os, |os|, b);
    EmittersAre(cfg, view, path, inode, fs, os, b, p);
    CountOneMore(Emitters(cfg, view, path, fs, os, b), TailPolls(cfg, view, path, fs, os, b), |os|, p,
                 ShowsRange(cfg, path, fs[p], os[p]));
  }

  lemma CountOneMore(all: set<nat>, some: set<nat>, n: nat, p: nat, more: bool)
    requires (forall i | i in all + some :: i < n) && p < n && (more ==> p !in some)
    requires forall i | 0 <= i < n :: i in all <==> i in some || (i == p && more)
    ensures |all| == |some| + if more then 1 else 0
  {
    forall i | i in all + some + {p} ensures i in all <==> i in some || (i == p && more) {
    }
    assert all == if more then some + {p} else some;
  }

  /** A passed byte that no tail shows is emitted by the poll that passes it, if that reads it, and by no other. */
  lemma EmittedOnceIff(cfg: WatchConfig, view: TailView, path: string, inode: string, fs: seq<Follow>,
                       os: seq<Observation>, b: int) returns (p: nat)
    requires GrowingRun(cfg, path, inode, fs, os) && forall o | o in os :: Answered(view, o)
    requires path in fs[|os|].state.watermarks && fs[|os|].base <= b < OffsetAt(path, fs[|os|])
    requires TailPolls(cfg, view, path, fs, os, b) == {}
    ensures p < |os| && Passes(path, fs[p], fs[p + 1], b)
    ensures Emitters(cfg, view, path, fs, os, b) == if ShowsRange(cfg, path, fs[p], os[p]) then {p} else {}
  {
    p := PassedByOnePoll(cfg, path, inode, fs, os, |os|, b);
    EmittersAre(cfg, view, path, inode, fs, os, b, p);
  }

  /**
   Why a tail shows a byte that another poll passes. Before it is passed: the tail did not move the watermark, or the
   byte was appended between its status call and its tail call. Afterwards: the tail reaches back behind the watermark.
   */
  lemma ShownAgain(cfg: WatchConfig, view: TailView, path: string, inode: string, fs: seq<Follow>,
                   os: seq<Observation>, p: nat, q: nat, b: int)
    requires GrowingRun(cfg, path, inode, fs, os) && p < |os| && q < |os| && p != q
    requires Passes(path, fs[p], fs[p + 1], b) && ShowsInTail(cfg, view, path, fs[q], os[q], b)
    ensures q < p ==> b < |os[q].later|
    ensures q < p && Advances(DemandOn(cfg, path, fs[q], os[q]), os[q].answers, true) ==> |os[q].content| <= b
    ensures p < q ==> b < OffsetAt(path, fs[q])
  {
    RunRises(cfg, path, inode, fs, os);
    if q < p {
      RunStep(cfg, path, inode, fs, os, q, q + 1);
      TailShowsSlice(view, os[q].later);
      if Advances(DemandOn(cfg, path, fs[q], os[q]), os[q].answers, true) {
        AdvanceReachesEnd(cfg, path, fs[q], os[q], true);
        OffsetsRise(path, fs, q + 1, p);
      }
    } else {
      PassedStaysBehind(path, fs, p, p + 1, q, b);
    }
  }
}
