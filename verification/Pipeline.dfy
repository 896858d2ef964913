/**
 Polls and cycles together: what a poll emits is searched for events, the cycle handles some of them, and the watermark
 has moved on by then. An event whose bytes are emitted once has one chance to be handled.
 */
module Pipeline {
  import opened Wrappers
  import opened Projects
  import opened Watcher
  import opened WatcherTheorems
  import opened RemoteTail
  import opened Delivery
  import opened Emissions
  import opened Runner
  import opened RateLimit
  import opened StateStore
  import opened Monitor
  import opened MonitorRuns
  import Selection

  /** A monitor that follows one remote file. `detect` is what the detector finds in a chunk. */
  datatype Setting = Setting(
    monitor: MonitorSetup,
    watch: WatchConfig,
    path: string,
    detect: Chunk -> seq<Event>,
    maxPerRun: int)

  /** One round: what the poll is answered, and the circumstances of the `i`-th event the cycle looks at. */
  datatype Round = Round(o: Observation, cs: nat -> Circumstances)

  datatype World = World(follow: Follow, history: History)

  function DetectedIn(detect: Chunk -> seq<Event>, chunks: seq<Chunk>): seq<Event> {
    if chunks == [] then [] else DetectedIn(detect, chunks[..|chunks| - 1]) + detect(chunks[|chunks| - 1])
  }

  function Emitted(p: Setting, w: World, r: Round): seq<Chunk> {
    PollWatermark(p.watch, w.follow.state, p.path, r.o.answers, true).1
  }

  function Detected(p: Setting, w: World, r: Round): seq<Event> {
    DetectedIn(p.detect, Emitted(p, w, r))
  }

  /** The events the cycle looks at. */
  function LookedAt(p: Setting, w: World, r: Round): seq<Event> {
    Selection.Selected(w.history.monitor.seen, Detected(p, w, r), p.maxPerRun)
  }

  function CircumstancesOf(r: Round, n: nat): (first: seq<Circumstances>)
    ensures |first| == n && forall i | 0 <= i < n :: first[i] == r.cs(i)
  {
    seq(n, i requires 0 <= i => r.cs(i))
  }

  ghost predicate PossibleRound(r: Round) {
    Truthful(r.o) && forall i: nat :: r.cs(i).reportAt <= r.cs(i).reportStamp
  }

  function OpOf(p: Setting, w: World, r: Round): MonitorOp {
    var events := LookedAt(p, w, r);
    Polls(events, CircumstancesOf(r, |events|))
  }

  /** One round: the poll, which moves the watermark, and then the cycle over what it emitted. */
  ghost predicate Leads(p: Setting, w: World, r: Round, next: World) {
    && PossibleRound(r)
    && Polled(p.watch, p.path, w.follow, r.o, next.follow, true)
    && next.history == OpStep(p.monitor, w.history, OpOf(p, w, r))
  }

  ghost predicate PipelineRun(p: Setting, ws: seq<World>, rs: seq<Round>) {
    && |ws| == |rs| + 1
    && forall i, k | 0 <= i < |rs| && k == i + 1 :: Leads(p, ws[i], rs[i], ws[k])
  }

  /** What a poll of one file emits, and the watermarks it leaves, are those of the poll of that file. */
  lemma PollOfOneFile(cfg: WatchConfig, s: WatchState, path: string, a: Answers)
    requires cfg.hasProfile && cfg.enabled && !cfg.shadow
    ensures Poll(cfg, s, [path], [a]).1 == PollWatermark(cfg, s, path, a, true).1
    ensures Poll(cfg, s, [path], [a]).0.watermarks == PollWatermark(cfg, s, path, a, true).0.watermarks
  {
    var start := ResetObservations(s);
    assert PollFiles(cfg, start, [path][..0], [a][..0]) == (start, []);
    assert PollFiles(cfg, start, [path], [a]).1 == [] + PollWatermark(cfg, start, path, a, true).1;
    WatermarkMovesIff(cfg, s, path, a, true);
    WatermarkMovesIff(cfg, start, path, a, true);
  }

  // ----- one cycle -----

  /** The event is handled to completion: it is new, within every limit, and its handling does not raise. */
  predicate CompletesWith(cfg: MonitorSetup, s: Cycle, event: Event, c: Circumstances, candidate: bool) {
    && event.fingerprint !in s.monitor.seen
    && AllowsEvent(cfg.limits, s.monitor.rate)
    && !(candidate && s.candidates >= MAX_AUTO_RECOVER_PER_CYCLE)
    && AllowsReport(cfg.limits, s.monitor.rate, event, ExpectedReports(cfg), c.reportAt)
    && c.handling == Completes
  }

  predicate Among(events: seq<Event>, f: string) {
    exists e | e in events :: e.fingerprint == f
  }

  lemma TreatWithCompletesIff(cfg: MonitorSetup, s: Cycle, event: Event, c: Circumstances, candidate: bool,
                              runner: RunnerState, executed: bool)
    ensures TreatWith(cfg, s, event, c, candidate, runner, executed).completed ==
      if CompletesWith(cfg, s, event, c, candidate) then s.completed + [event] else s.completed
  {
  }

  predicate CompletesEvent(cfg: MonitorSetup, s: Cycle, event: Event, c: Circumstances) {
    CompletesWith(cfg, s, event, c, ChecksAsCandidate(cfg, s.monitor.runner, event, c))
  }

  lemma TreatCompletesIff(cfg: MonitorSetup, s: Cycle, event: Event, c: Circumstances)
    ensures TreatEvent(cfg, s, event, c).completed ==
      if CompletesEvent(cfg, s, event, c) then s.completed + [event] else s.completed
  {
    var (runner, result) := Recovery(cfg.recovery, s.monitor.runner, CallFor(event, c));
    TreatWithCompletesIff(cfg, s, event, c, ChecksAsCandidate(cfg, s.monitor.runner, event, c), runner,
                          result.executed);
  }

  /** Which events of a cycle are handled to completion, each judged on the cycle as the events before it left it. */
  function Completions(cfg: MonitorSetup, s: Cycle, events: seq<Event>, cs: seq<Circumstances>): (flags: seq<bool>)
    requires |events| == |cs|
    ensures |flags| == |events|
    decreases |events|
  {
    if events == [] then []
    else
      var n := |events| - 1;
      var before := TreatAll(cfg, s, events[..n], cs[..n]);
      Completions(cfg, s, events[..n], cs[..n]) + [CompletesEvent(cfg, before, events[n], cs[n])]
  }

  predicate FlaggedAmong(events: seq<Event>, flags: seq<bool>, f: string)
    requires |flags| == |events|
  {
    exists k | 0 <= k < |events| :: events[k].fingerprint == f && flags[k]
  }

  lemma FlaggedOneMore(events: seq<Event>, flags: seq<bool>, event: Event, flag: bool, f: string)
    requires |flags| == |events|
    ensures FlaggedAmong(events + [event], flags + [flag], f) <==>
      FlaggedAmong(events, flags, f) || (flag && event.fingerprint == f)
  {
    var all, marks := events + [event], flags + [flag];
    assert all[|events|] == event && marks[|events|] == flag;
    forall k | 0 <= k < |events| ensures all[k] == events[k] && marks[k] == flags[k] {
    }
  }

  /** The events whose flag is set, after those of `start`. */
  function Flagged(start: seq<Event>, events: seq<Event>, flags: seq<bool>): seq<Event>
    requires |flags| == |events|
    decreases |events|
  {
    if events == [] then start
    else
      var n := |events| - 1;
      var before := Flagged(start, events[..n], flags[..n]);
      if flags[n] then before + [events[n]] else before
  }

  lemma CompletionsLast(cfg: MonitorSetup, s: Cycle, events: seq<Event>, cs: seq<Circumstances>, n: nat)
    requires |events| == |cs| == n + 1
    ensures var flags := Completions(cfg, s, events, cs);
      && flags[..n] == Completions(cfg, s, events[..n], cs[..n])
      && flags[n] == CompletesEvent(cfg, TreatAll(cfg, s, events[..n], cs[..n]), events[n], cs[n])
  {
  }

  lemma TreatAllLast(cfg: MonitorSetup, s: Cycle, events: seq<Event>, cs: seq<Circumstances>, n: nat)
    requires |events| == |cs| == n + 1
    ensures var mid := TreatAll(cfg, s, events[..n], cs[..n]);
      TreatAll(cfg, s, events, cs).completed ==
        if CompletesEvent(cfg, mid, events[n], cs[n]) then mid.completed + [events[n]] else mid.completed
  {
    TreatCompletesIff(cfg, TreatAll(cfg, s, events[..n], cs[..n]), events[n], cs[n]);
  }

  lemma FlaggedLast(start: seq<Event>, events: seq<Event>, flags: seq<bool>, n: nat)
    requires |flags| == |events| == n + 1
    ensures Flagged(start, events, flags) ==
      if flags[n] then Flagged(start, events[..n], flags[..n]) + [events[n]]
      else Flagged(start, events[..n], flags[..n])
  {
  }

  lemma {:induction false} CycleCompletes(cfg: MonitorSetup, s: Cycle, events: seq<Event>, cs: seq<Circumstances>)
    requires |events| == |cs|
    ensures TreatAll(cfg, s, events, cs).completed == Flagged(s.completed, events, Completions(cfg, s, events, cs))
    decreases |events|
  {
    if events != [] {
      var n := |events| - 1;
      CycleCompletes(cfg, s, events[..n], cs[..n]);
      CompletionsLast(cfg, s, events, cs, n);
      TreatAllLast(cfg, s, events, cs, n);
      FlaggedLast(s.completed, events, Completions(cfg, s, events, cs), n);
    }
  }

  lemma {:induction false} FlaggedIff(events: seq<Event>, flags: seq<bool>, f: string)
    requires |flags| == |events|
    ensures Among(Flagged([], events, flags), f) <==> FlaggedAmong(events, flags, f)
    decreases |events|
  {
    if events != [] {
      var n := |events| - 1;
      FlaggedIff(events[..n], flags[..n], f);
      OneMoreEvent(Flagged([], events[..n], flags[..n]), Flagged([], events, flags), events[..n], flags[..n],
                   events[n], flags[n], f);
      assert events == events[..n] + [events[n]] && flags == flags[..n] + [flags[n]];
    }
  }

  lemma CycleCompletesIff(cfg: MonitorSetup, s: Cycle, events: seq<Event>, cs: seq<Circumstances>, f: string)
    requires |events| == |cs| && s.completed == []
    ensures Among(TreatAll(cfg, s, events, cs).completed, f) <==>
      FlaggedAmong(events, Completions(cfg, s, events, cs), f)
  {
    CycleCompletes(cfg, s, events, cs);
    FlaggedIff(events, Completions(cfg, s, events, cs), f);
  }

  lemma OneMoreEvent(before: seq<Event>, after: seq<Event>, events: seq<Event>, flags: seq<bool>, event: Event,
                     flag: bool, f: string)
    requires |flags| == |events| && (Among(before, f) <==> FlaggedAmong(events, flags, f))
    requires after == if flag then before + [event] else before
    ensures Among(after, f) <==> FlaggedAmong(events + [event], flags + [flag], f)
  {
    AmongOneMore(before, event, f);
    FlaggedOneMore(events, flags, event, flag, f);
  }

  lemma AmongOneMore(events: seq<Event>, event: Event, f: string)
    ensures Among(events + [event], f) <==> Among(events, f) || event.fingerprint == f
  {
    assert event in events + [event];
  }

  lemma AmongBoth(first: seq<Event>, second: seq<Event>, f: string)
    ensures Among(first + second, f) <==> Among(first, f) || Among(second, f)
  {
  }

  // ----- one round -----

  /** Some event with the fingerprint is handled to completion in the round. */
  predicate CompletedIn(p: Setting, w: World, r: Round, f: string) {
    var events := LookedAt(p, w, r);
    FlaggedAmong(events, Completions(p.monitor, StartOf(w.history.monitor), events, CircumstancesOf(r, |events|)), f)
  }

  lemma RoundCompletesIff(p: Setting, w: World, r: Round, next: World, f: string)
    requires Leads(p, w, r, next)
    ensures Among(next.history.completed, f) <==> Among(w.history.completed, f) || CompletedIn(p, w, r, f)
  {
    var op := OpOf(p, w, r);
    var s := CycleOf(p.monitor, w.history.monitor, op.events, op.cs);
    CycleCompletesIff(p.monitor, StartOf(w.history.monitor), op.events, op.cs, f);
    AmongBoth(w.history.completed, s.completed, f);
    assert next.history.completed == w.history.completed + s.completed;
  }

  lemma {:induction false} AmongGrows(lists: seq<seq<Event>>, flags: seq<bool>, f: string)
    requires |lists| == |flags| + 1
    requires forall i, k | 0 <= i < |flags| && k == i + 1 ::
      Among(lists[k], f) <==> Among(lists[i], f) || flags[i]
    ensures Among(lists[|flags|], f) <==> Among(lists[0], f) || exists i | 0 <= i < |flags| :: flags[i]
    decreases |flags|
  {
    if flags != [] {
      var n := |flags| - 1;
      AmongGrows(lists[..n + 1], flags[..n], f);
    }
  }

  /** Which rounds complete the fingerprint. */
  function RoundFlags(p: Setting, ws: seq<World>, rs: seq<Round>, fingerprint: string): (flags: seq<bool>)
    requires |ws| == |rs| + 1
    ensures |flags| == |rs|
    ensures forall i | 0 <= i < |rs| :: flags[i] == CompletedIn(p, ws[i], rs[i], fingerprint)
  {
    seq(|rs|, i requires 0 <= i < |rs| => CompletedIn(p, ws[i], rs[i], fingerprint))
  }

  /** Over a run of rounds: a fingerprint is handled to completion exactly if some round completes it. */
  lemma RunCompletesIff(p: Setting, ws: seq<World>, rs: seq<Round>, f: string)
    requires PipelineRun(p, ws, rs)
    ensures Among(ws[|rs|].history.completed, f) <==>
      Among(ws[0].history.completed, f) || exists i | 0 <= i < |rs| :: RoundFlags(p, ws, rs, f)[i]
  {
    var lists := seq(|ws|, i requires 0 <= i < |ws| => ws[i].history.completed);
    forall i, k | 0 <= i < |rs| && k == i + 1
      ensures Among(lists[k], f) <==> Among(lists[i], f) || RoundFlags(p, ws, rs, f)[i]
    {
      assert Leads(p, ws[i], rs[i], ws[k]);
      RoundCompletesIff(p, ws[i], rs[i], ws[k], f);
    }
    AmongGrows(lists, RoundFlags(p, ws, rs, f), f);
  }

  lemma CompletedWasDetected(p: Setting, w: World, r: Round, f: string)
    requires CompletedIn(p, w, r, f)
    ensures Among(Detected(p, w, r), f)
  {
    var events := LookedAt(p, w, r);
    var k :| 0 <= k < |events| && events[k].fingerprint == f;
    Selection.SelectedWasDetected(w.history.monitor.seen, Detected(p, w, r), p.maxPerRun, k);
  }

  // ----- one chance -----

  function Follows(ws: seq<World>): (fs: seq<Follow>)
    ensures |fs| == |ws| && forall i | 0 <= i < |ws| :: fs[i] == ws[i].follow
  {
    seq(|ws|, i requires 0 <= i < |ws| => ws[i].follow)
  }

  function Observations(rs: seq<Round>): (os: seq<Observation>)
    ensures |os| == |rs| && forall i | 0 <= i < |rs| :: os[i] == rs[i].o
  {
    seq(|rs|, i requires 0 <= i < |rs| => rs[i].o)
  }

  /** The file keeps its inode and only grows, and following it begins with the run. */
  ghost predicate GrowingPipeline(p: Setting, inode: string, ws: seq<World>, rs: seq<Round>) {
    PipelineRun(p, ws, rs) && Grows(inode, Observations(rs)) && p.path !in ws[0].follow.state.watermarks
  }

  lemma PipelineFollows(p: Setting, inode: string, ws: seq<World>, rs: seq<Round>)
    requires GrowingPipeline(p, inode, ws, rs)
    ensures GrowingRun(p.watch, p.path, inode, Follows(ws), Observations(rs))
  {
    forall i, k | 0 <= i < |rs| && k == i + 1
      ensures Polled(p.watch, p.path, Follows(ws)[i], Observations(rs)[i], Follows(ws)[k], true)
    {
      assert Leads(p, ws[i], rs[i], ws[k]);
    }
  }

  /** The detector finds the fingerprint only in a text that shows the byte at `b`. */
  ghost predicate ArisesFrom(p: Setting, view: TailView, ws: seq<World>, rs: seq<Round>, f: string, b: int)
    requires |ws| == |rs| + 1
  {
    forall i: nat | i < |rs| && Among(Detected(p, ws[i], rs[i]), f) ::
      i in Emitters(p.watch, view, p.path, Follows(ws), Observations(rs), b)
  }

  /** The rounds whose poll emits the byte. */
  ghost function EmittingRounds(p: Setting, view: TailView, ws: seq<World>, rs: seq<Round>, b: int): set<nat>
    requires |ws| == |rs| + 1
  {
    Emitters(p.watch, view, p.path, Follows(ws), Observations(rs), b)
  }

  /** An event is handled to completion exactly if a round completes it that emits its byte. */
  lemma HandledWhereEmitted(p: Setting, view: TailView, ws: seq<World>, rs: seq<Round>, f: string, b: int)
    requires PipelineRun(p, ws, rs) && ArisesFrom(p, view, ws, rs, f, b)
    ensures Among(ws[|rs|].history.completed, f) <==>
      Among(ws[0].history.completed, f)
      || exists i | i in EmittingRounds(p, view, ws, rs, b) :: RoundFlags(p, ws, rs, f)[i]
  {
    RunCompletesIff(p, ws, rs, f);
    forall i: nat | i < |rs| && RoundFlags(p, ws, rs, f)[i] ensures i in EmittingRounds(p, view, ws, rs, b) {
      CompletedWasDetected(p, ws[i], rs[i], f);
    }
  }

  /**
   One chance. The byte of an event was passed by round `i`, and no tail shows it. Then the event is handled to
   completion exactly if that round reads it and its cycle completes it: left out by the selection, refused by a limit
   or raised on, it is not looked at again, because the watermark had moved before the cycle began.
   */
  lemma OneChance(p: Setting, view: TailView, inode: string, ws: seq<World>, rs: seq<Round>, f: string, b: int)
    returns (i: nat)
    requires GrowingPipeline(p, inode, ws, rs) && ArisesFrom(p, view, ws, rs, f, b)
    requires forall o | o in Observations(rs) :: Answered(view, o)
    requires p.path in Follows(ws)[|rs|].state.watermarks
    requires Follows(ws)[|rs|].base <= b < OffsetAt(p.path, Follows(ws)[|rs|])
    requires TailPolls(p.watch, view, p.path, Follows(ws), Observations(rs), b) == {}
    requires !Among(ws[0].history.completed, f)
    ensures i < |rs| && Passes(p.path, Follows(ws)[i], Follows(ws)[i + 1], b)
    ensures Among(ws[|rs|].history.completed, f) <==>
      ShowsRange(p.watch, p.path, Follows(ws)[i], Observations(rs)[i]) && CompletedIn(p, ws[i], rs[i], f)
  {
    PipelineFollows(p, inode, ws, rs);
    i := EmittedOnceIff(p.watch, view, p.path, inode, Follows(ws), Observations(rs), b);
    HandledWhereEmitted(p, view, ws, rs, f, b);
    OnlyChance(Among(ws[|rs|].history.completed, f), EmittingRounds(p, view, ws, rs, b), RoundFlags(p, ws, rs, f), i,
               ShowsRange(p.watch, p.path, Follows(ws)[i], Observations(rs)[i]));
  }

  lemma OnlyChance(done: bool, emitting: set<nat>, flags: seq<bool>, i: nat, shows: bool)
    requires i < |flags| && emitting == if shows then {i} else {}
    requires done <==> exists k | k in emitting :: flags[k]
    ensures done <==> shows && flags[i]
  {
    assert shows ==> i in emitting;
  }
}
