/** Which of the events detected in one poll a cycle looks at, and in which order. */
module Selection {
  import opened Projects
  import opened Sorting

  const MAX_EVENTS_PER_CYCLE := 3

  predicate SameIdentity(a: Event, b: Event) {
    a.eventType == b.eventType && a.fingerprint == b.fingerprint
  }

  function SeverityRank(severity: string): int {
    if severity == "critical" then 5
    else if severity == "high" then 4
    else if severity == "medium" then 3
    else if severity == "low" then 2
    else if severity == "info" then 1
    else 0
  }

  function Priority(eventType: string): int {
    if eventType == "disk_full" then 10
    else if eventType == "gpu_oom" then 20
    else if eventType == "slurm" then 30
    else if eventType == "python_env" then 40
    else if eventType == "network_port" then 50
    else 999
  }

  // ----- one event of each identity -----

  function IndexOf(chosen: seq<Event>, event: Event): (i: nat)
    ensures i <= |chosen|
    ensures i < |chosen| ==> SameIdentity(chosen[i], event)
    ensures forall j | 0 <= j < i :: !SameIdentity(chosen[j], event)
  {
    if chosen == [] then 0
    else if SameIdentity(chosen[0], event) then 0
    else
      var i := IndexOf(chosen[1..], event);
      assert forall j | 0 < j <= i :: chosen[j] == chosen[1..][j - 1];
      i + 1
  }

  /** Events in the order their identities first occur, each the most severe of its identity and the first of those. */
  function Chosen(events: seq<Event>): (chosen: seq<Event>)
    ensures |chosen| <= |events|
  {
    if events == [] then []
    else
      var event, chosen := events[|events| - 1], Chosen(events[..|events| - 1]);
      var i := IndexOf(chosen, event);
      if i == |chosen| then chosen + [event]
      else if SeverityRank(event.severity) > SeverityRank(chosen[i].severity) then chosen[i := event]
      else chosen
  }

  ghost predicate Distinct(chosen: seq<Event>) {
    forall i, j | 0 <= i < j < |chosen| :: !SameIdentity(chosen[i], chosen[j])
  }

  lemma {:induction false} ChosenDistinct(events: seq<Event>)
    ensures Distinct(Chosen(events))
    ensures forall c | c in Chosen(events) :: c in events
  {
    if events != [] {
      var n := |events| - 1;
      assert events == events[..n] + [events[n]];
      ChosenDistinct(events[..n]);
    }
  }

  /** `c` stands for `e`: it has the same identity and is at least as severe. */
  predicate StandsFor(c: Event, e: Event) {
    SameIdentity(c, e) && SeverityRank(c.severity) >= SeverityRank(e.severity)
  }

  lemma ChosenStep(chosen: seq<Event>, i: nat, event: Event, c: Event, e: Event) returns (d: Event)
    requires i == IndexOf(chosen, event) && c in chosen && StandsFor(c, e)
    ensures var after :=
        if i == |chosen| then chosen + [event]
        else if SeverityRank(event.severity) > SeverityRank(chosen[i].severity) then chosen[i := event]
        else chosen;
      d in after && StandsFor(d, e)
  {
    var k :| 0 <= k < |chosen| && chosen[k] == c;
    if k == i && SeverityRank(event.severity) > SeverityRank(c.severity) {
      d := event;
      assert chosen[i := event][i] == event;
    } else {
      d := c;
      assert i < |chosen| && k != i ==> chosen[i := event][k] == c;
    }
  }

  /** For every event one of its identity is chosen that is at least as severe. */
  lemma {:induction false} ChosenStandsFor(events: seq<Event>, e: Event) returns (d: Event)
    requires e in events
    ensures d in Chosen(events) && StandsFor(d, e)
  {
    var n := |events| - 1;
    var chosen := Chosen(events[..n]);
    var i := IndexOf(chosen, events[n]);
    if e in events[..n] {
      var c := ChosenStandsFor(events[..n], e);
      d := ChosenStep(chosen, i, events[n], c, e);
    } else {
      d := if i == |chosen| || SeverityRank(e.severity) > SeverityRank(chosen[i].severity) then e else chosen[i];
      assert i < |chosen| ==> chosen[i := e][i] == e;
    }
  }

  lemma NewIdentity(events: seq<Event>, event: Event, j: nat)
    requires IndexOf(Chosen(events), event) == |Chosen(events)| && j < |events|
    ensures !SameIdentity(events[j], event)
  {
    var d := ChosenStandsFor(events, events[j]);
    var k :| 0 <= k < |Chosen(events)| && Chosen(events)[k] == d;
  }

  /** Each chosen event is the first among the most severe of its identity. */
  lemma {:induction false} ChosenIs(events: seq<Event>, p: nat) returns (i: nat)
    requires p < |Chosen(events)|
    ensures i < |events| && Chosen(events)[p] == events[i]
    ensures forall j | 0 <= j < |events| && SameIdentity(events[j], events[i]) ::
              && SeverityRank(events[j].severity) <= SeverityRank(events[i].severity)
              && (j < i ==> SeverityRank(events[j].severity) < SeverityRank(events[i].severity))
  {
    var n := |events| - 1;
    var before, chosen := events[..n], Chosen(events[..n]);
    var k := IndexOf(chosen, events[n]);
    if p == |chosen| {
      i := n;
      forall j | 0 <= j < n ensures !SameIdentity(events[j], events[n]) {
        NewIdentity(before, events[n], j);
        assert before[j] == events[j];
      }
    } else {
      i := ChosenIs(before, p);
      ChosenDistinct(before);
      assert forall j | 0 <= j < n :: before[j] == events[j];
      assert SameIdentity(events[n], chosen[p]) ==> p == k;
      if p == k && SeverityRank(events[n].severity) > SeverityRank(chosen[p].severity) {
        i := n;
      }
    }
  }

  /** They stand in the order in which their identities first occur. */
  lemma {:induction false} ChosenInOrder(events: seq<Event>, p: nat, q: nat, j: nat) returns (i: nat)
    requires p < q < |Chosen(events)| && j < |events| && SameIdentity(events[j], Chosen(events)[q])
    ensures i < j && SameIdentity(events[i], Chosen(events)[p])
  {
    var n := |events| - 1;
    var before, chosen := events[..n], Chosen(events[..n]);
    if j == n {
      ChosenDistinct(before);
      assert chosen[p] in before;
      i :| 0 <= i < n && before[i] == chosen[p];
    } else {
      assert before[j] == events[j];
      if q == |chosen| {
        NewIdentity(before, events[n], j);
      }
      i := ChosenInOrder(before, p, q, j);
      assert before[i] == events[i];
    }
  }

  // ----- the order of the cycle -----

  predicate KeyBefore(seen: set<string>, a: Event, b: Event) {
    var seenA, seenB := a.fingerprint in seen, b.fingerprint in seen;
    if seenA != seenB then seenB
    else if Priority(a.eventType) != Priority(b.eventType) then Priority(a.eventType) < Priority(b.eventType)
    else if SeverityRank(a.severity) != SeverityRank(b.severity)
        then SeverityRank(a.severity) > SeverityRank(b.severity)
    else a.lineNumber < b.lineNumber
  }

  /** An event with its position among the chosen ones. Where keys are equal the position decides. */
  type Entry = (int, Event)

  predicate EntryBefore(seen: set<string>, a: Entry, b: Entry) {
    KeyBefore(seen, a.1, b.1) || (!KeyBefore(seen, b.1, a.1) && a.0 < b.0)
  }

  function Entries(chosen: seq<Event>): (entries: set<Entry>)
    ensures |entries| == |chosen|
    ensures forall i, e :: (i, e) in entries <==> 0 <= i < |chosen| && chosen[i] == e
  {
    if chosen == [] then {}
    else
      var n := |chosen| - 1;
      var before := Entries(chosen[..n]);
      assert (n, chosen[n]) !in before;
      before + {(n, chosen[n])}
  }

  lemma EntriesOrdered(seen: set<string>, chosen: seq<Event>)
    ensures Orders((a: Entry, b: Entry) => EntryBefore(seen, a, b), Entries(chosen))
  {
  }

  function InCycleOrder(seen: set<string>, chosen: seq<Event>): (entries: seq<Entry>)
    ensures |entries| == |chosen|
  {
    EntriesOrdered(seen, chosen);
    SortedBy(Entries(chosen), (a: Entry, b: Entry) => EntryBefore(seen, a, b))
  }

  lemma OrderedHolds(seen: set<string>, chosen: seq<Event>, p: nat)
    requires p < |chosen|
    ensures (p, chosen[p]) in InCycleOrder(seen, chosen)
  {
    EntriesOrdered(seen, chosen);
  }

  lemma OrderedAscends(seen: set<string>, chosen: seq<Event>, i: nat, j: nat)
    requires i < j < |chosen|
    ensures EntryBefore(seen, InCycleOrder(seen, chosen)[i], InCycleOrder(seen, chosen)[j])
  {
    EntriesOrdered(seen, chosen);
    SortedAscends(Entries(chosen), (a: Entry, b: Entry) => EntryBefore(seen, a, b), i, j);
  }

  lemma OrderedDistinct(seen: set<string>, chosen: seq<Event>, i: nat, j: nat)
    requires i < j < |chosen|
    ensures var (p, a) := InCycleOrder(seen, chosen)[i];
      var (q, b) := InCycleOrder(seen, chosen)[j];
      0 <= p < |chosen| && 0 <= q < |chosen| && chosen[p] == a && chosen[q] == b && p != q
  {
    EntriesOrdered(seen, chosen);
    SortedIsDistinct(Entries(chosen), (a: Entry, b: Entry) => EntryBefore(seen, a, b), i, j);
    var first, second := InCycleOrder(seen, chosen)[i], InCycleOrder(seen, chosen)[j];
    assert first != second && first in Entries(chosen) && second in Entries(chosen);
    assert (first.0, first.1) in Entries(chosen) && (second.0, second.1) in Entries(chosen);
  }

  /** The slice `xs[:end]`, which counts a negative end from the end. */
  function TakeUpTo<T>(xs: seq<T>, end: int): (taken: seq<T>)
    ensures taken <= xs
  {
    if end >= 0 then (if end < |xs| then xs[..end] else xs)
    else if -end < |xs| then xs[..|xs| + end]
    else []
  }

  function EventsOf(entries: seq<Entry>): (events: seq<Event>)
    ensures |events| == |entries|
  {
    seq(|entries|, i requires 0 <= i < |entries| => entries[i].1)
  }

  function LimitOf(maxPerRun: int): int {
    if maxPerRun < MAX_EVENTS_PER_CYCLE then maxPerRun else MAX_EVENTS_PER_CYCLE
  }

  function Selected(seen: set<string>, events: seq<Event>, maxPerRun: int): (selected: seq<Event>)
    ensures |selected| <= |events|
  {
    TakeUpTo(EventsOf(InCycleOrder(seen, Chosen(events))), LimitOf(maxPerRun))
  }

  method SelectEventsForCycle(seen: set<string>, events: seq<Event>, maxPerRun: int) returns (selected: seq<Event>)
    ensures selected == Selected(seen, events, maxPerRun)
  {
    if events == [] {
      return [];
    }
    var chosen := [];
    for i := 0 to |events|
      invariant chosen == Chosen(events[..i])
    {
      assert events[..i + 1][..i] == events[..i];
      var k := IndexOf(chosen, events[i]);
      if k == |chosen| {
        chosen := chosen + [events[i]];
      } else if SeverityRank(events[i].severity) > SeverityRank(chosen[k].severity) {
        chosen := chosen[k := events[i]];
      }
    }
    assert events[..|events|] == events;
    selected := TakeUpTo(EventsOf(InCycleOrder(seen, chosen)), LimitOf(maxPerRun));
  }

  lemma TakenAt(entries: seq<Entry>, end: int, k: nat)
    requires k < |TakeUpTo(EventsOf(entries), end)|
    ensures k < |entries| && TakeUpTo(EventsOf(entries), end)[k] == entries[k].1
  {
  }

  /**
   An event that is chosen but not selected gives way to no event that has a greater key: one already seen never
   takes the place of one that is new, nor a less urgent type that of a more urgent one.
   */
  lemma NoOneIsOvertaken(seen: set<string>, events: seq<Event>, maxPerRun: int, left: Event, taken: Event)
    requires left in Chosen(events) && left !in Selected(seen, events, maxPerRun)
    requires taken in Selected(seen, events, maxPerRun)
    ensures !KeyBefore(seen, left, taken)
  {
    var chosen, selected := Chosen(events), Selected(seen, events, maxPerRun);
    var p :| 0 <= p < |chosen| && chosen[p] == left;
    var ordered := InCycleOrder(seen, chosen);
    OrderedHolds(seen, chosen, p);
    var i :| 0 <= i < |ordered| && ordered[i] == (p, left);
    var j :| 0 <= j < |selected| && selected[j] == taken;
    TakenAt(ordered, LimitOf(maxPerRun), j);
    if i <= j {
      TakenAt(ordered, LimitOf(maxPerRun), i);
    }
    OrderedAscends(seen, chosen, j, i);
  }

  /** A type the cycle attends to first has a smaller number: these five in this order, and then all others. */
  lemma PriorityOrder(other: string)
    requires other !in {"disk_full", "gpu_oom", "slurm", "python_env", "network_port"}
    ensures Priority("disk_full") < Priority("gpu_oom") < Priority("slurm") < Priority("python_env")
      < Priority("network_port") < Priority(other)
  {
  }

  lemma OtherPriorities(a: string, b: string)
    requires a !in {"disk_full", "gpu_oom", "slurm", "python_env", "network_port"}
    requires b !in {"disk_full", "gpu_oom", "slurm", "python_env", "network_port"}
    ensures Priority(a) == Priority(b)
  {
  }

  /** A graver severity has a greater rank: these five in this order, above all others. */
  lemma SeverityOrder(other: string)
    requires other !in {"critical", "high", "medium", "low", "info"}
    ensures SeverityRank("critical") > SeverityRank("high") > SeverityRank("medium") > SeverityRank("low")
      > SeverityRank("info") > SeverityRank(other)
  {
  }

  lemma OtherSeverities(a: string, b: string)
    requires a !in {"critical", "high", "medium", "low", "info"} && b !in {"critical", "high", "medium", "low", "info"}
    ensures SeverityRank(a) == SeverityRank(b)
  {
  }

  /**
   What is taken is no less urgent than what is left: new before seen, then by the priority of the type, then the
   graver, then the earlier line.
   */
  lemma TakenIsMoreUrgent(seen: set<string>, events: seq<Event>, maxPerRun: int, left: Event, taken: Event)
    requires left in Chosen(events) && left !in Selected(seen, events, maxPerRun)
    requires taken in Selected(seen, events, maxPerRun)
    ensures taken.fingerprint in seen ==> left.fingerprint in seen
    ensures (taken.fingerprint in seen) == (left.fingerprint in seen) ==>
      && Priority(taken.eventType) <= Priority(left.eventType)
      && (Priority(taken.eventType) == Priority(left.eventType) ==>
          && SeverityRank(taken.severity) >= SeverityRank(left.severity)
          && (SeverityRank(taken.severity) == SeverityRank(left.severity) ==> taken.lineNumber <= left.lineNumber))
  {
    NoOneIsOvertaken(seen, events, maxPerRun, left, taken);
  }

  /** And the cycle takes them in that order. */
  lemma TakenInOrder(seen: set<string>, events: seq<Event>, maxPerRun: int, i: nat, j: nat)
    requires i < j < |Selected(seen, events, maxPerRun)|
    ensures var first, second := Selected(seen, events, maxPerRun)[i], Selected(seen, events, maxPerRun)[j];
      && (first.fingerprint in seen ==> second.fingerprint in seen)
      && ((first.fingerprint in seen) == (second.fingerprint in seen) ==>
          && Priority(first.eventType) <= Priority(second.eventType)
          && (Priority(first.eventType) == Priority(second.eventType) ==>
              && SeverityRank(first.severity) >= SeverityRank(second.severity)
              && (SeverityRank(first.severity) == SeverityRank(second.severity) ==>
                  first.lineNumber <= second.lineNumber)))
  {
    var ordered := InCycleOrder(seen, Chosen(events));
    TakenAt(ordered, LimitOf(maxPerRun), i);
    TakenAt(ordered, LimitOf(maxPerRun), j);
    OrderedAscends(seen, Chosen(events), i, j);
  }

  /** What is equally urgent is taken in the order of detection. */
  lemma TiesAsDetected(seen: set<string>, events: seq<Event>, maxPerRun: int, i: nat, j: nat, b: nat) returns (a: nat)
    requires i < j < |Selected(seen, events, maxPerRun)|
    requires var first, second := Selected(seen, events, maxPerRun)[i], Selected(seen, events, maxPerRun)[j];
      && (first.fingerprint in seen) == (second.fingerprint in seen)
      && Priority(first.eventType) == Priority(second.eventType)
      && SeverityRank(first.severity) == SeverityRank(second.severity)
      && first.lineNumber == second.lineNumber
      && b < |events| && SameIdentity(events[b], second)
    ensures a < b && SameIdentity(events[a], Selected(seen, events, maxPerRun)[i])
  {
    var chosen := Chosen(events);
    var ordered := InCycleOrder(seen, chosen);
    TakenAt(ordered, LimitOf(maxPerRun), i);
    TakenAt(ordered, LimitOf(maxPerRun), j);
    OrderedAscends(seen, chosen, i, j);
    OrderedDistinct(seen, chosen, i, j);
    a := ChosenInOrder(events, ordered[i].0, ordered[j].0, b);
  }

  /** As many are taken as there are, but no more than three and no more than the project allows. */
  lemma TakenCount(seen: set<string>, events: seq<Event>, maxPerRun: nat)
    ensures var n := |Chosen(events)|;
      |Selected(seen, events, maxPerRun)| ==
        if n < maxPerRun && n < 3 then n else if maxPerRun < 3 then maxPerRun else 3
  {
  }

  /** So when an event is selected that was seen before, every new event is selected, or one that stands for it. */
  lemma SeenOnlyAfterNew(seen: set<string>, events: seq<Event>, maxPerRun: int, taken: Event, fresher: Event)
    requires taken in Selected(seen, events, maxPerRun) && taken.fingerprint in seen
    requires fresher in events && fresher.fingerprint !in seen
    ensures exists d :: d in Selected(seen, events, maxPerRun) && StandsFor(d, fresher)
  {
    var d := ChosenStandsFor(events, fresher);
    if d !in Selected(seen, events, maxPerRun) {
      NoOneIsOvertaken(seen, events, maxPerRun, d, taken);
    }
  }

  /** No event type and fingerprint is selected twice, and only what was detected is. */
  lemma SelectedOnce(seen: set<string>, events: seq<Event>, maxPerRun: int, i: nat, j: nat)
    requires i < j < |Selected(seen, events, maxPerRun)|
    ensures !SameIdentity(Selected(seen, events, maxPerRun)[i], Selected(seen, events, maxPerRun)[j])
    ensures Selected(seen, events, maxPerRun)[i] in events
  {
    var ordered := InCycleOrder(seen, Chosen(events));
    TakenAt(ordered, LimitOf(maxPerRun), i);
    TakenAt(ordered, LimitOf(maxPerRun), j);
    OrderedDistinct(seen, Chosen(events), i, j);
    ChosenDistinct(events);
    var (p, a) := ordered[i];
    var (q, b) := ordered[j];
    assert p < q ==> !SameIdentity(a, b);
    assert q < p ==> !SameIdentity(b, a);
  }

  /** Only what was detected is selected. */
  lemma SelectedWasDetected(seen: set<string>, events: seq<Event>, maxPerRun: int, k: nat)
    requires k < |Selected(seen, events, maxPerRun)|
    ensures Selected(seen, events, maxPerRun)[k] in events
  {
    var chosen := Chosen(events);
    TakenAt(InCycleOrder(seen, chosen), LimitOf(maxPerRun), k);
    EntriesOrdered(seen, chosen);
    assert InCycleOrder(seen, chosen)[k] in Entries(chosen);
    ChosenDistinct(events);
  }
}
