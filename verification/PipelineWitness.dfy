/** A run of polls and cycles in which an event is detected once, its handling raises, and it never comes back. */
module PipelineWitness {
  import opened Wrappers
  import opened Projects
  import opened Watcher
  import opened WatcherTheorems
  import opened RemoteTail
  import opened Delivery
  import opened Emissions
  import opened EmissionWitnesses
  import opened Runner
  import opened Monitor
  import opened MonitorRuns
  import opened Pipeline

  /** A monitor whose detector finds the event in every chunk. */
  function Finding(cfg: MonitorSetup, event: Event): Setting {
    Setting(cfg, FOLLOW_CONFIG, "p", chunk => [event], 3)
  }

  /** A round in which every handling raises. */
  function RaisingRound(o: Observation, c: Circumstances): Round {
    Round(o, i => c.(handling := RaisesBefore))
  }

  lemma {:induction false} RaisingCompletesNothing(cfg: MonitorSetup, s: Cycle, events: seq<Event>,
                                                   cs: seq<Circumstances>)
    requires |events| == |cs| && forall c | c in cs :: c.handling == RaisesBefore
    ensures forall flag | flag in Completions(cfg, s, events, cs) :: !flag
    decreases |events|
  {
    if events != [] {
      var n := |events| - 1;
      assert cs[n] in cs;
      RaisingCompletesNothing(cfg, s, events[..n], cs[..n]);
    }
  }

  lemma NoFlagsNoEvents(events: seq<Event>, flags: seq<bool>, f: string)
    requires |flags| == |events| && forall flag | flag in flags :: !flag
    ensures !FlaggedAmong(events, flags, f)
  {
    forall k | 0 <= k < |flags| ensures !flags[k] {
      assert flags[k] in flags;
    }
  }

  lemma AllRaise(o: Observation, c: Circumstances, n: nat)
    ensures forall d | d in CircumstancesOf(RaisingRound(o, c), n) :: d.handling == RaisesBefore
  {
  }

  lemma RaisingRoundCompletesNothing(p: Setting, w: World, o: Observation, c: Circumstances, f: string)
    ensures !CompletedIn(p, w, RaisingRound(o, c), f)
  {
    var events := LookedAt(p, w, RaisingRound(o, c));
    var cs := CircumstancesOf(RaisingRound(o, c), |events|);
    AllRaise(o, c, |events|);
    RaisingCompletesNothing(p.monitor, StartOf(w.history.monitor), events, cs);
    NoFlagsNoEvents(events, Completions(p.monitor, StartOf(w.history.monitor), events, cs), f);
  }

  /** The watermark once the text was read. */
  const DONE: nat -> Watermark := n => Watermark("i", n, 0, n, Incremental, NoReason, 0)

  lemma ReadMark(f: Follow, text: Bytes)
    requires f.state.watermarks == AfterFirst("").state.watermarks && 0 < |text| <= 100
    ensures FollowStep(FOLLOW_CONFIG, "p", f, HonestPoll(text, text), true).state.watermarks == map["p" := DONE(|text|)]
  {
    NeedsText(f, HonestPoll(text, text), text);
    HonestRange(text);
    WatermarkMovesIff(FOLLOW_CONFIG, f.state, "p", HonestPoll(text, text).answers, true);
  }

  lemma NothingNew(s: WatchState, text: Bytes)
    requires s.watermarks == map["p" := DONE(|text|)]
    ensures PollWatermark(FOLLOW_CONFIG, s, "p", HonestPoll(text, text).answers, true).1 == []
  {
  }

  lemma TextIsEmitted(view: TailView, f: Follow, text: Bytes)
    requires f.state.watermarks == AfterFirst("").state.watermarks && ShownWhole(view, text)
    ensures |PollWatermark(FOLLOW_CONFIG, f.state, "p", HonestPoll(text, text).answers, true).1| == 1
  {
    HonestCover(view, f, HonestPoll(text, text), text);
    HonestAnswers(view, text, text);
    CoverIsEmitted(FOLLOW_CONFIG, view, f.state, "p", HonestPoll(text, text));
  }

  lemma DetectedOnce(cfg: MonitorSetup, event: Event, w: World, r: Round)
    ensures |Emitted(Finding(cfg, event), w, r)| == 1 ==> Detected(Finding(cfg, event), w, r) == [event]
    ensures |Emitted(Finding(cfg, event), w, r)| == 0 ==> Detected(Finding(cfg, event), w, r) == []
  {
    var p := Finding(cfg, event);
    var chunks := Emitted(p, w, r);
    if |chunks| == 1 {
      assert chunks[..0] == [];
      assert DetectedIn(p.detect, chunks) == [] + [event];
    }
  }

  lemma RunExtends(p: Setting, ws: seq<World>, rs: seq<Round>, r: Round, next: World)
    requires PipelineRun(p, ws, rs) && Leads(p, ws[|rs|], r, next)
    ensures PipelineRun(p, ws + [next], rs + [r])
  {
    forall i, k | 0 <= i < |rs| + 1 && k == i + 1 ensures Leads(p, (ws + [next])[i], (rs + [r])[i], (ws + [next])[k]) {
      if i < |rs| {
        assert Leads(p, ws[i], rs[i], ws[k]);
      }
    }
  }

  /** A run goes on with any round. */
  lemma RunGoesOn(p: Setting, ws: seq<World>, rs: seq<Round>, r: Round) returns (next: World)
    requires PipelineRun(p, ws, rs) && PossibleRound(r)
    ensures PipelineRun(p, ws + [next], rs + [r])
    ensures next.follow == FollowStep(p.watch, p.path, ws[|rs|].follow, r.o, true)
  {
    var w := ws[|rs|];
    next := World(FollowStep(p.watch, p.path, w.follow, r.o, true), OpStep(p.monitor, w.history, OpOf(p, w, r)));
    RunExtends(p, ws, rs, r, next);
  }

  lemma RaisingIsPossible(o: Observation, c: Circumstances)
    requires Truthful(o) && c.reportAt <= c.reportStamp
    ensures PossibleRound(RaisingRound(o, c))
  {
  }

  lemma ThreeRounds(p: Setting, first: World, q: Round, r: Round) returns (ws: seq<World>)
    requires PossibleRound(q) && PossibleRound(r)
    ensures PipelineRun(p, ws, [q, r, r]) && |ws| == 4 && ws[0] == first
    ensures ws[1].follow == FollowStep(p.watch, p.path, first.follow, q.o, true)
    ensures ws[2].follow == FollowStep(p.watch, p.path, ws[1].follow, r.o, true)
  {
    var second := RunGoesOn(p, [first], [], q);
    assert [first] + [second] == [first, second] && [] + [q] == [q];
    var third := RunGoesOn(p, [first, second], [q], r);
    assert [first, second] + [third] == [first, second, third] && [q] + [r] == [q, r];
    var fourth := RunGoesOn(p, [first, second, third], [q, r], r);
    ws := [first, second, third] + [fourth];
    assert [q, r] + [r] == [q, r, r];
  }

  ghost predicate AllRaising(rs: seq<Round>, c: Circumstances) {
    forall i | 0 <= i < |rs| :: rs[i].cs == RaisingRound(rs[i].o, c).cs
  }

  lemma RaisingRun(cfg: MonitorSetup, start: History, event: Event, c: Circumstances, text: Bytes)
    returns (ws: seq<World>, rs: seq<Round>)
    requires 0 < |text| <= 100 && c.reportAt <= c.reportStamp
    ensures PipelineRun(Finding(cfg, event), ws, rs) && |ws| == 4 && |rs| == 3 && ws[0] == World(NOT_YET, start)
    ensures rs[0].o == HonestPoll("", "") && rs[1].o == HonestPoll(text, text) && rs[1] == rs[2] && AllRaising(rs, c)
    ensures ws[1].follow == AfterFirst("") && ws[2].follow.state.watermarks == map["p" := DONE(|text|)]
  {
    var q, r := RaisingRound(HonestPoll("", ""), c), RaisingRound(HonestPoll(text, text), c);
    RaisingIsPossible(HonestPoll("", ""), c);
    RaisingIsPossible(HonestPoll(text, text), c);
    rs := [q, r, r];
    ws := ThreeRounds(Finding(cfg, event), World(NOT_YET, start), q, r);
    FirstPoll("");
    ReadMark(ws[1].follow, text);
  }

  lemma RaisingRunCompletesNothing(p: Setting, ws: seq<World>, rs: seq<Round>, c: Circumstances, f: string)
    requires PipelineRun(p, ws, rs) && !Among(ws[0].history.completed, f)
    requires AllRaising(rs, c)
    ensures !Among(ws[|rs|].history.completed, f)
  {
    RunCompletesIff(p, ws, rs, f);
    forall i | 0 <= i < |rs| ensures !RoundFlags(p, ws, rs, f)[i] {
      assert rs[i] == RaisingRound(rs[i].o, c);
      RaisingRoundCompletesNothing(p, ws[i], rs[i].o, c, f);
    }
  }

  lemma DetectedThen(cfg: MonitorSetup, event: Event, w: World, next: World, r: Round, view: TailView, text: Bytes)
    requires ShownWhole(view, text) && r.o == HonestPoll(text, text)
    requires w.follow == AfterFirst("") && next.follow.state.watermarks == map["p" := DONE(|text|)]
    ensures Detected(Finding(cfg, event), w, r) == [event] && Detected(Finding(cfg, event), next, r) == []
  {
    DetectedOnce(cfg, event, w, r);
    TextIsEmitted(view, w.follow, text);
    DetectedOnce(cfg, event, next, r);
    NothingNew(next.follow.state, text);
  }

  /**
   The first poll finds an empty file. The second reads a text with an event in it, and the handling of the event
   raises. The third finds nothing new, so the event is never handled.
   */
  lemma RaisedIsLost(cfg: MonitorSetup, start: History, event: Event, c: Circumstances, view: TailView, text: Bytes)
    returns (ws: seq<World>, rs: seq<Round>)
    requires ShownWhole(view, text) && start.completed == [] && c.reportAt <= c.reportStamp
    ensures PipelineRun(Finding(cfg, event), ws, rs) && |rs| == 3 && |ws| == 4
    ensures rs[0].o == HonestPoll("", "") && rs[1].o == HonestPoll(text, text) && rs[1] == rs[2]
    ensures Detected(Finding(cfg, event), ws[1], rs[1]) == [event] && Detected(Finding(cfg, event), ws[2], rs[2]) == []
    ensures ws[2].follow.state.watermarks == map["p" := DONE(|text|)]
    ensures !Among(ws[3].history.completed, event.fingerprint)
  {
    ws, rs := RaisingRun(cfg, start, event, c, text);
    DetectedThen(cfg, event, ws[1], ws[2], rs[1], view, text);
    assert !Among(start.completed, event.fingerprint);
    RaisingRunCompletesNothing(Finding(cfg, event), ws, rs, c, event.fingerprint);
  }
}
