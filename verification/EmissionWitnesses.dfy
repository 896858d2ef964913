/** Runs over a growing file that emit a text twice: after a failed read, and without any failure. */
module EmissionWitnesses {
  import opened Wrappers
  import opened Watcher
  import opened WatcherTheorems
  import opened RemoteTail
  import opened Delivery
  import opened Emissions

  /** A text of a hundred bytes at most, that a tail shows as it is. */
  predicate ShownWhole(view: TailView, text: Bytes) {
    && 0 < |text| <= 100 && TailText(view, text) == text && !IsBlank(text)
    && TailFrom(view, text) == 0 && TailTo(view, text) == |text| && TailText(view, "") == ""
  }

  /** There are such texts. */
  lemma ShortTextShown()
    ensures ShownWhole(TailView(200, 20000), "ab")
  {
    assert LinesBack("ab", 1, 200) == 0;
    assert LastLines("ab", 200) == 0;
    assert "ab"[0..] == "ab" && Ending(TailView(200, 20000), "ab") == "ab";
  }

  /** A poll that finds `content`, all of whose calls succeed, and whose tail finds the file grown to `later`. */
  function HonestPoll(content: Bytes, later: Bytes): Observation {
    Observation("i", content, Answers(Some(Stat("i", |content|, 0)), (offset, length) =>
      if 0 <= offset && 0 < length && offset + length <= |content| then PlainAnswer(content[offset..offset + length])
      else FAILED_CALL, PlainAnswer(later)), later)
  }

  /** The followed file after a first poll whose status found it empty and whose tail read `text`. */
  function AfterFirst(text: Bytes): Follow {
    Follow(NOT_YET.state.(watermarks := map["p" := Watermark("i", 0, 0, 0, TailBootstrap, NoReason, 0)],
                          counts := map[TailBootstrap := 1], bytesRead := |text|), "", 0, [])
  }

  lemma FirstPoll(text: Bytes)
    ensures FollowStep(FOLLOW_CONFIG, "p", NOT_YET, HonestPoll("", text), true) == AfterFirst(text)
  {
  }

  lemma HonestAnswers(view: TailView, content: Bytes, later: Bytes)
    requires TailText(view, later) == later
    ensures Answered(view, HonestPoll(content, later))
  {
  }

  lemma FailingAnswers(view: TailView, text: Bytes)
    requires TailText(view, text) == text
    ensures Answered(view, PollOf(text, FAILED_CALL))
  {
  }

  lemma NeedsText(f: Follow, o: Observation, text: Bytes)
    requires f.state.watermarks == AfterFirst("").state.watermarks && 0 < |text| <= 100
    requires o.answers.stat == Some(Stat("i", |text|, 0))
    ensures DemandOn(FOLLOW_CONFIG, "p", f, o) == NeedsRange(0, |text|, Incremental, NoReason)
  {
  }

  lemma HonestRange(text: Bytes)
    requires text != ""
    ensures HonestPoll(text, text).answers.range(0, |text|) == PlainAnswer(text)
  {
    assert text[0..|text|] == text;
  }

  lemma RangeIsCovered(view: TailView, o: Observation, length: int)
    requires o.answers.range(0, length).Ok() && !IsBlank(o.answers.range(0, length).stdout)
    ensures var demand := NeedsRange(0, length, Incremental, NoReason);
      ReadsRange(demand, o) && CoverOf(view, demand, o) == Some(Cover(0, length, true))
  {
  }

  /** A poll that finds the text behind the watermark reads it. */
  lemma HonestCover(view: TailView, f: Follow, o: Observation, text: Bytes)
    requires f.state.watermarks == AfterFirst("").state.watermarks && ShownWhole(view, text)
    requires o == HonestPoll(text, text)
    ensures var demand := DemandOn(FOLLOW_CONFIG, "p", f, o);
      ReadsRange(demand, o) && CoverOf(view, demand, o) == Some(Cover(0, |text|, true))
  {
    NeedsText(f, o, text);
    HonestRange(text);
    RangeIsCovered(view, o, |text|);
  }

  /** Or it shows it in a tail, when the range read fails, and leaves the watermark. */
  lemma FailingCover(view: TailView, f: Follow, text: Bytes)
    requires f.state.watermarks == AfterFirst("").state.watermarks && ShownWhole(view, text)
    ensures var o := PollOf(text, FAILED_CALL);
      CoverOf(view, DemandOn(FOLLOW_CONFIG, "p", f, o), o) == Some(Cover(0, |text|, false))
  {
    NeedsText(f, PollOf(text, FAILED_CALL), text);
  }

  lemma FailingKeepsMark(f: Follow, text: Bytes)
    requires f.state.watermarks == AfterFirst("").state.watermarks && 0 < |text| <= 100
    ensures FollowStep(FOLLOW_CONFIG, "p", f, PollOf(text, FAILED_CALL), true).state.watermarks == f.state.watermarks
  {
    NeedsText(f, PollOf(text, FAILED_CALL), text);
    WatermarkMovesIff(FOLLOW_CONFIG, f.state, "p", PollOf(text, FAILED_CALL).answers, true);
  }

  lemma LateCover(view: TailView, text: Bytes)
    requires ShownWhole(view, text)
    ensures var o := HonestPoll("", text);
      CoverOf(view, DemandOn(FOLLOW_CONFIG, "p", NOT_YET, o), o) == Some(Cover(0, |text|, false))
  {
    assert DemandOn(FOLLOW_CONFIG, "p", NOT_YET, HonestPoll("", text)) == NeedsBootstrap;
  }

  lemma TwoPolls(a: Follow, o: Observation, b: Follow, p: Observation, c: Follow)
    requires "p" !in a.state.watermarks && o.inode == p.inode == "i"
    requires Polled(FOLLOW_CONFIG, "p", a, o, b, true) && Polled(FOLLOW_CONFIG, "p", b, p, c, true)
    requires o.content <= o.later <= p.content <= p.later
    ensures GrowingRun(FOLLOW_CONFIG, "p", "i", [a, b, c], [o, p])
  {
  }

  lemma ThreePolls(a: Follow, o: Observation, b: Follow, p: Observation, c: Follow, q: Observation, d: Follow)
    requires "p" !in a.state.watermarks && o.inode == p.inode == q.inode == "i"
    requires Polled(FOLLOW_CONFIG, "p", a, o, b, true) && Polled(FOLLOW_CONFIG, "p", b, p, c, true)
    requires Polled(FOLLOW_CONFIG, "p", c, q, d, true)
    requires o.content <= o.later <= p.content <= p.later <= q.content <= q.later
    ensures GrowingRun(FOLLOW_CONFIG, "p", "i", [a, b, c, d], [o, p, q])
  {
  }

  lemma FailedRun(text: Bytes) returns (fs: seq<Follow>, os: seq<Observation>)
    requires 0 < |text| <= 100
    ensures GrowingRun(FOLLOW_CONFIG, "p", "i", fs, os) && |fs| == 4
    ensures os == [HonestPoll("", ""), PollOf(text, FAILED_CALL), HonestPoll(text, text)]
    ensures fs[1] == AfterFirst("") && fs[2].state.watermarks == AfterFirst("").state.watermarks
  {
    os := [HonestPoll("", ""), PollOf(text, FAILED_CALL), HonestPoll(text, text)];
    var second := FollowStep(FOLLOW_CONFIG, "p", AfterFirst(""), os[1], true);
    var third := FollowStep(FOLLOW_CONFIG, "p", second, os[2], true);
    FirstPoll("");
    ThreePolls(NOT_YET, os[0], AfterFirst(""), os[1], second, os[2], third);
    FailingKeepsMark(AfterFirst(""), text);
    fs := [NOT_YET, AfterFirst(""), second, third];
  }

  /** A range read fails, the tail is emitted instead, and the next range read emits the same bytes again. */
  lemma FailedReadRepeats(view: TailView, text: Bytes) returns (fs: seq<Follow>, os: seq<Observation>)
    requires ShownWhole(view, text)
    ensures GrowingRun(FOLLOW_CONFIG, "p", "i", fs, os) && |os| == 3 && forall o | o in os :: Answered(view, o)
    ensures os[1].content == os[2].content == text
    ensures CoverAt(FOLLOW_CONFIG, view, "p", fs, os, 1) == Some(Cover(0, |text|, false))
    ensures CoverAt(FOLLOW_CONFIG, view, "p", fs, os, 2) == Some(Cover(0, |text|, true))
  {
    fs, os := FailedRun(text);
    FailedRunCovers(view, text, fs, os);
    FailedRunAnswers(view, text, os);
  }

  lemma FailedRunAnswers(view: TailView, text: Bytes, os: seq<Observation>)
    requires TailText(view, "") == "" && TailText(view, text) == text
    requires os == [HonestPoll("", ""), PollOf(text, FAILED_CALL), HonestPoll(text, text)]
    ensures forall o | o in os :: Answered(view, o)
  {
    HonestAnswers(view, "", "");
    HonestAnswers(view, text, text);
    FailingAnswers(view, text);
  }

  lemma FailedRunCovers(view: TailView, text: Bytes, fs: seq<Follow>, os: seq<Observation>)
    requires ShownWhole(view, text) && |os| == 3 && |fs| == 4
    requires os[1] == PollOf(text, FAILED_CALL) && os[2] == HonestPoll(text, text)
    requires fs[1].state.watermarks == fs[2].state.watermarks == AfterFirst("").state.watermarks
    ensures CoverAt(FOLLOW_CONFIG, view, "p", fs, os, 1) == Some(Cover(0, |text|, false))
    ensures CoverAt(FOLLOW_CONFIG, view, "p", fs, os, 2) == Some(Cover(0, |text|, true))
  {
    FailingCover(view, fs[1], text);
    HonestCover(view, fs[2], os[2], text);
  }

  lemma LateRun(text: Bytes) returns (fs: seq<Follow>, os: seq<Observation>)
    ensures GrowingRun(FOLLOW_CONFIG, "p", "i", fs, os) && |fs| == 3
    ensures os == [HonestPoll("", text), HonestPoll(text, text)]
    ensures fs[0] == NOT_YET && fs[1] == AfterFirst(text)
  {
    os := [HonestPoll("", text), HonestPoll(text, text)];
    var last := FollowStep(FOLLOW_CONFIG, "p", AfterFirst(text), os[1], true);
    FirstPoll(text);
    TwoPolls(NOT_YET, os[0], AfterFirst(text), os[1], last);
    fs := [NOT_YET, AfterFirst(text), last];
  }

  /**
   No call fails: a text is appended between the status call and the tail call of the first poll, which emits it, and
   the range read of the second poll emits it again.
   */
  lemma LateTailRepeats(view: TailView, text: Bytes) returns (fs: seq<Follow>, os: seq<Observation>)
    requires ShownWhole(view, text)
    ensures GrowingRun(FOLLOW_CONFIG, "p", "i", fs, os) && |os| == 2 && forall o | o in os :: Answered(view, o)
    ensures os[0].content == "" && os[0].later == os[1].content == text && os[0].answers.tail.Ok()
    ensures ReadsRange(DemandOn(FOLLOW_CONFIG, "p", fs[1], os[1]), os[1])
    ensures CoverAt(FOLLOW_CONFIG, view, "p", fs, os, 0) == Some(Cover(0, |text|, false))
    ensures CoverAt(FOLLOW_CONFIG, view, "p", fs, os, 1) == Some(Cover(0, |text|, true))
  {
    fs, os := LateRun(text);
    LateRunCovers(view, text, fs, os);
    LateRunAnswers(view, text, os);
  }

  lemma LateRunAnswers(view: TailView, text: Bytes, os: seq<Observation>)
    requires TailText(view, text) == text && os == [HonestPoll("", text), HonestPoll(text, text)]
    ensures forall o | o in os :: Answered(view, o)
    ensures os[0].content == "" && os[0].later == os[1].content == text && os[0].answers.tail.Ok()
  {
    HonestAnswers(view, "", text);
    HonestAnswers(view, text, text);
  }

  lemma LateRunCovers(view: TailView, text: Bytes, fs: seq<Follow>, os: seq<Observation>)
    requires ShownWhole(view, text) && |os| == 2 && |fs| == 3
    requires os[0] == HonestPoll("", text) && os[1] == HonestPoll(text, text)
    requires fs[0] == NOT_YET && fs[1] == AfterFirst(text)
    ensures ReadsRange(DemandOn(FOLLOW_CONFIG, "p", fs[1], os[1]), os[1])
    ensures CoverAt(FOLLOW_CONFIG, view, "p", fs, os, 0) == Some(Cover(0, |text|, false))
    ensures CoverAt(FOLLOW_CONFIG, view, "p", fs, os, 1) == Some(Cover(0, |text|, true))
  {
    LateCover(view, text);
    HonestCover(view, fs[1], os[1], text);
  }
}
