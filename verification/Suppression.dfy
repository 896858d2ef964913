/** Which of the detected events survive, and why the others need not. */
module Suppression {
  import opened Wrappers
  import opened Projects
  import opened Detector

  // ----- same scope -----

  function Max(a: int, b: int): int {
    if a < b then b else a
  }

  function Min(a: int, b: int): int {
    if a < b then a else b
  }

  predicate SameScope(left: Event, right: Event) {
    var a, b := Strip(left.excerpt), Strip(right.excerpt);
    || ((left.spanStart != 0 || left.spanEnd != 0 || right.spanStart != 0 || right.spanEnd != 0)
        && Max(left.spanStart, right.spanStart) < Min(left.spanEnd, right.spanEnd))
    || (left.lineNumber != 0 && right.lineNumber != 0 && -GAP_LINES <= left.lineNumber - right.lineNumber <= GAP_LINES)
    || (a != "" && b != "" && (Contains(b, a) || Contains(a, b)))
  }

  predicate InSpan(event: Event, position: int) {
    event.spanStart <= position < event.spanEnd
  }

  ghost predicate SharePosition(left: Event, right: Event) {
    exists p :: InSpan(left, p) && InSpan(right, p)
  }

  predicate SameLines(left: Event, right: Event) {
    left.lineNumber != 0 && right.lineNumber != 0 && -3 <= left.lineNumber - right.lineNumber <= 3
  }

  /** Of two stripped excerpts, neither of them empty, one stands in the other. */
  ghost predicate SameText(left: Event, right: Event) {
    var a, b := Strip(left.excerpt), Strip(right.excerpt);
    a != "" && b != "" && (StandsIn(a, b) || StandsIn(b, a))
  }

  /**
   Two events are in one scope exactly if some position lies in both of their half-open spans, if both have a line and
   the lines are at most three apart, or if one excerpt stands in the other.
   */
  lemma SameScopeIff(left: Event, right: Event)
    ensures SameScope(left, right) <==> SharePosition(left, right) || SameLines(left, right) || SameText(left, right)
  {
    ContainsIff(Strip(right.excerpt), Strip(left.excerpt));
    ContainsIff(Strip(left.excerpt), Strip(right.excerpt));
    var p := Max(left.spanStart, right.spanStart);
    if SharePosition(left, right) {
      var q :| InSpan(left, q) && InSpan(right, q);
      assert Max(left.spanStart, right.spanStart) <= q < Min(left.spanEnd, right.spanEnd);
    } else {
      assert !(InSpan(left, p) && InSpan(right, p));
    }
  }

  // ----- suppression -----

  /** Event types that suppress others: a specialised type its generic ones, a manual type the safe ones. */
  datatype Tables = Tables(generic: map<string, set<string>>, safe: map<string, set<string>>)

  const SHIPPED_TABLES := Tables(
    map[
      "optional_cache_backend_failed" := {"cache_write_failed"},
      "cache_write_failed" := {"disk_full"},
      "optional_dependency_missing" := {"python_env"},
      "optional_integration_failed" := {"optional_dependency_missing"},
      "notification_sink_failed" := {"network_connectivity"},
      "optional_service_unavailable" := {"network_connectivity"},
      "observability_export_failed" := {"network_connectivity"},
      "worker_overload" := {"host_resource"}],
    map[
      "disk_full" := {"optional_cache_backend_failed"},
      "python_env" := {"optional_integration_failed"},
      "auth_cert" := {"notification_sink_failed", "observability_export_failed"},
      "dependency_service" := {"optional_cache_backend_failed", "optional_service_unavailable", "queue_backpressure"},
      "network_connectivity" := {"observability_export_failed", "optional_service_unavailable"}])

  /** `manual` suppresses `event` as a manual type does. */
  predicate SuppressesSafe(tables: Tables, manual: Event, event: Event) {
    manual.eventType in tables.safe && event.eventType in tables.safe[manual.eventType] && SameScope(event, manual)
  }

  /** `special` suppresses `event` as a specialised type does. */
  predicate SuppressesGeneric(tables: Tables, special: Event, event: Event) {
    special.eventType in tables.generic && event.eventType in tables.generic[special.eventType]
        && SameScope(event, special)
  }

  /** `event` is a manual event beside a specialised safe one that it covers, which saves it. */
  ghost predicate Saved(tables: Tables, events: seq<Event>, event: Event) {
    exists safe :: safe in events && safe.eventType in tables.generic && event.eventType in tables.safe
                   && safe.eventType in tables.safe[event.eventType] && SameScope(event, safe)
  }

  ghost predicate Survives(tables: Tables, events: seq<Event>, event: Event) {
    && (forall manual | manual in events :: !SuppressesSafe(tables, manual, event))
    && (Saved(tables, events, event) || forall special | special in events ::
        !SuppressesGeneric(tables, special, event))
  }

  ghost function Survivors(tables: Tables, all: seq<Event>, events: seq<Event>): seq<Event> {
    if events == [] then []
    else
      var n := |events| - 1;
      Survivors(tables, all, events[..n]) + if Survives(tables, all, events[n]) then [events[n]] else []
  }

  method EventsOfTypes(events: seq<Event>, types: set<string>) returns (chosen: seq<Event>)
    ensures forall e :: e in chosen <==> e in events && e.eventType in types
  {
    chosen := [];
    for i := 0 to |events|
      invariant forall e :: e in chosen <==> e in events[..i] && e.eventType in types
    {
      if events[i].eventType in types {
        chosen := chosen + [events[i]];
      }
    }
  }

  method SuppressGenericEvents(tables: Tables, events: seq<Event>) returns (result: seq<Event>)
    ensures result == Survivors(tables, events, events)
  {
    var specialized := EventsOfTypes(events, tables.generic.Keys);
    var manuals := EventsOfTypes(events, tables.safe.Keys);
    if specialized == [] && manuals == [] {
      NothingToSuppress(tables, events, events);
      return events;
    }
    result := [];
    for i := 0 to |events|
      invariant result == Survivors(tables, events, events[..i])
    {
      assert events[..i + 1][..i] == events[..i];
      var survives := SurvivesLoops(tables, events, specialized, manuals, events[i]);
      if survives {
        result := result + [events[i]];
      }
    }
    assert events[..|events|] == events;
  }

  /** The loops over the manual and the specialised events, for one event. */
  method SurvivesLoops(tables: Tables, events: seq<Event>, specialized: seq<Event>, manuals: seq<Event>, event: Event)
    returns (survives: bool)
    requires forall e :: e in specialized <==> e in events && e.eventType in tables.generic
    requires forall e :: e in manuals <==> e in events && e.eventType in tables.safe
    ensures survives == Survives(tables, events, event)
  {
    for i := 0 to |manuals|
      invariant forall k | 0 <= k < i :: !SuppressesSafe(tables, manuals[k], event)
    {
      var manual := manuals[i];
      assert manual in manuals;
      if event.eventType in tables.safe[manual.eventType] && SameScope(event, manual) {
        assert SuppressesSafe(tables, manual, event);
        return false;
      }
    }
    if event.eventType in tables.safe {
      for i := 0 to |specialized|
        invariant forall k | 0 <= k < i ::
          !(specialized[k].eventType in tables.safe[event.eventType] && SameScope(event, specialized[k]))
      {
        var safe := specialized[i];
        assert safe in specialized;
        if safe.eventType in tables.safe[event.eventType] && SameScope(event, safe) {
          assert Saved(tables, events, event);
          return true;
        }
      }
    }
    assert !Saved(tables, events, event);
    for i := 0 to |specialized|
      invariant forall k | 0 <= k < i :: !SuppressesGeneric(tables, specialized[k], event)
    {
      var special := specialized[i];
      assert special in specialized;
      if event.eventType in tables.generic[special.eventType] && SameScope(event, special) {
        assert SuppressesGeneric(tables, special, event);
        return false;
      }
    }
    return true;
  }

  lemma {:induction false} NothingToSuppress(tables: Tables, all: seq<Event>, events: seq<Event>)
    requires forall e | e in all :: e.eventType !in tables.generic && e.eventType !in tables.safe
    ensures Survivors(tables, all, events) == events
  {
    if events != [] {
      NothingToSuppress(tables, all, events[..|events| - 1]);
    }
  }

  lemma {:induction false} SurvivorsAre(tables: Tables, all: seq<Event>, events: seq<Event>, e: Event)
    ensures e in Survivors(tables, all, events) <==> e in events && Survives(tables, all, e)
  {
    if events != [] {
      SurvivorsAre(tables, all, events[..|events| - 1], e);
    }
  }

  // ----- why nothing is lost -----

  /** `winner` is a reason to drop `loser`: a manual or specialised event of the same scope. */
  predicate Dominates(tables: Tables, winner: Event, loser: Event) {
    SuppressesSafe(tables, winner, loser) || SuppressesGeneric(tables, winner, loser)
  }

  lemma ScopeIsSymmetric(left: Event, right: Event)
    ensures SameScope(left, right) == SameScope(right, left)
  {
  }

  /** A manual type is never a safe one. */
  ghost predicate SafeNotManual(tables: Tables) {
    forall m, t | m in tables.safe && t in tables.safe[m] :: t !in tables.safe
  }

  /** A safe type that a manual type suppresses is specialised, or else the manual type is nobody's generic type. */
  ghost predicate SafeCovered(tables: Tables) {
    forall m, t | m in tables.safe && t in tables.safe[m] ::
      t in tables.generic || forall s | s in tables.generic :: m !in tables.generic[s]
  }

  /** Generic types rank above specialised ones. */
  ghost predicate RanksRise(tables: Tables, rank: map<string, nat>) {
    forall s, t | s in tables.generic && t in tables.generic[s] :: s in rank && t in rank && rank[s] < rank[t]
  }

  ghost predicate Ranked(tables: Tables, rank: map<string, nat>) {
    SafeNotManual(tables) && SafeCovered(tables) && RanksRise(tables, rank)
  }

  /** A manual event that suppresses a safe one survives. */
  lemma SuppressorSurvives(tables: Tables, rank: map<string, nat>, events: seq<Event>, manual: Event, event: Event)
    requires Ranked(tables, rank) && manual in events && event in events && SuppressesSafe(tables, manual, event)
    ensures Survives(tables, events, manual)
  {
    ScopeIsSymmetric(event, manual);
    if event.eventType in tables.generic {
      assert Saved(tables, events, manual);
    }
  }

  /** A chain of events, each dominated by the next, that ends with a survivor. */
  ghost predicate Chain(tables: Tables, events: seq<Event>, chain: seq<Event>, from: Event) {
    && chain != [] && chain[0] == from
    && (forall e | e in chain :: e in events)
    && (forall i, j | 0 <= i && j == i + 1 < |chain| :: Dominates(tables, chain[j], chain[i]))
    && Survives(tables, events, chain[|chain| - 1])
  }

  function RankOf(rank: map<string, nat>, e: Event): nat {
    if e.eventType in rank then rank[e.eventType] else 0
  }

  lemma Linked(tables: Tables, events: seq<Event>, e: Event, winner: Event, chain: seq<Event>)
    requires e in events && Dominates(tables, winner, e) && Chain(tables, events, chain, winner)
    ensures Chain(tables, events, [e] + chain, e)
  {
    var longer := [e] + chain;
    forall i, j | 0 <= i && j == i + 1 < |longer| ensures Dominates(tables, longer[j], longer[i]) {
      assert i > 0 ==> longer[i] == chain[i - 1] && longer[j] == chain[j - 1];
    }
    assert longer[|longer| - 1] == chain[|chain| - 1];
  }

  /** Every event is linked to a survivor by a chain of dominating events, no longer than the ranks allow. */
  lemma {:induction false} DroppedIsExplained(tables: Tables, rank: map<string, nat>, events: seq<Event>, e: Event)
    returns (chain: seq<Event>)
    requires Ranked(tables, rank) && e in events
    ensures Chain(tables, events, chain, e) && |chain| <= RankOf(rank, e) + 2
    decreases RankOf(rank, e)
  {
    if Survives(tables, events, e) {
      return [e];
    }
    if manual :| manual in events && SuppressesSafe(tables, manual, e) {
      SuppressorSurvives(tables, rank, events, manual, e);
      Linked(tables, events, e, manual, [manual]);
      return [e, manual];
    }
    var special :| special in events && SuppressesGeneric(tables, special, e);
    chain := DroppedIsExplained(tables, rank, events, special);
    Linked(tables, events, e, special, chain);
    chain := [e] + chain;
  }

  /** An event that shares nothing with any other event survives. */
  lemma IsolatedSurvives(tables: Tables, rank: map<string, nat>, events: seq<Event>, event: Event)
    requires Ranked(tables, rank) && event in events
    requires forall other | other in events && other != event ::
      !SharePosition(event, other) && !SameLines(event, other) && !SameText(event, other)
    ensures event in Survivors(tables, events, events)
  {
    forall other | other in events && other != event ensures !SameScope(event, other) {
      SameScopeIff(event, other);
    }
    SurvivorsAre(tables, events, events, event);
  }

  /** So something is left of whatever was detected. */
  lemma SomethingSurvives(tables: Tables, rank: map<string, nat>, events: seq<Event>)
    requires Ranked(tables, rank)
    ensures Survivors(tables, events, events) == [] <==> events == []
  {
    if events != [] {
      var chain := DroppedIsExplained(tables, rank, events, events[0]);
      SurvivorsAre(tables, events, events, chain[|chain| - 1]);
      assert chain[|chain| - 1] in chain;
    }
  }

  const SHIPPED_RANK := map[
    "optional_cache_backend_failed" := 0,
    "cache_write_failed" := 1,
    "disk_full" := 2,
    "optional_integration_failed" := 0,
    "optional_dependency_missing" := 1,
    "python_env" := 2,
    "notification_sink_failed" := 0,
    "optional_service_unavailable" := 0,
    "observability_export_failed" := 0,
    "network_connectivity" := 1,
    "worker_overload" := 0,
    "host_resource" := 1]

  lemma ShippedSafeTypes(m: string, t: string)
    requires m in SHIPPED_TABLES.safe && t in SHIPPED_TABLES.safe[m]
    ensures t in SHIPPED_TABLES.generic || (t == "queue_backpressure" && m == "dependency_service")
  {
  }

  lemma ShippedSafeTypesNotManual(m: string, t: string)
    requires m in SHIPPED_TABLES.safe && t in SHIPPED_TABLES.safe[m]
    ensures t !in SHIPPED_TABLES.safe
  {
  }

  lemma ShippedGenericTypes(s: string, t: string)
    requires s in SHIPPED_TABLES.generic && t in SHIPPED_TABLES.generic[s]
    ensures t != "dependency_service" && s in SHIPPED_RANK && t in SHIPPED_RANK && SHIPPED_RANK[s] < SHIPPED_RANK[t]
  {
  }

  lemma ShippedSafeNotManual()
    ensures SafeNotManual(SHIPPED_TABLES)
  {
    forall m, t | m in SHIPPED_TABLES.safe && t in SHIPPED_TABLES.safe[m] ensures t !in SHIPPED_TABLES.safe {
      ShippedSafeTypesNotManual(m, t);
    }
  }

  lemma ShippedSafeCovered()
    ensures SafeCovered(SHIPPED_TABLES)
  {
    forall m, t | m in SHIPPED_TABLES.safe && t in SHIPPED_TABLES.safe[m]
      ensures t in SHIPPED_TABLES.generic || forall s | s in SHIPPED_TABLES.generic :: m !in SHIPPED_TABLES.generic[s]
    {
      ShippedSafeTypes(m, t);
      forall s | s in SHIPPED_TABLES.generic && m in SHIPPED_TABLES.generic[s] ensures m != "dependency_service" {
        ShippedGenericTypes(s, m);
      }
    }
  }

  lemma ShippedRanksRise()
    ensures RanksRise(SHIPPED_TABLES, SHIPPED_RANK)
  {
    forall s, t | s in SHIPPED_TABLES.generic && t in SHIPPED_TABLES.generic[s]
      ensures s in SHIPPED_RANK && t in SHIPPED_RANK && SHIPPED_RANK[s] < SHIPPED_RANK[t]
    {
      ShippedGenericTypes(s, t);
    }
  }

  lemma ShippedRankBound(e: Event)
    ensures RankOf(SHIPPED_RANK, e) <= 2
  {
  }

  /** With the shipped tables three links at most lead from any event to a survivor. */
  lemma ShippedDropsExplained(events: seq<Event>, e: Event) returns (chain: seq<Event>)
    requires e in events
    ensures Chain(SHIPPED_TABLES, events, chain, e) && |chain| <= 4
  {
    ShippedSafeNotManual();
    ShippedSafeCovered();
    ShippedRanksRise();
    ShippedRankBound(e);
    chain := DroppedIsExplained(SHIPPED_TABLES, SHIPPED_RANK, events, e);
  }

  // ----- a second pass -----

  lemma {:induction false} AllSurvive(tables: Tables, all: seq<Event>, events: seq<Event>)
    requires forall e | e in events :: Survives(tables, all, e)
    ensures Survivors(tables, all, events) == events
  {
    if events != [] {
      AllSurvive(tables, all, events[..|events| - 1]);
      assert events[|events| - 1] in events;
    }
  }

  /** Whoever saved a manual event was suppressed by it, so in a second pass no one is saved. */
  lemma NoOneSavedTwice(tables: Tables, events: seq<Event>, e: Event)
    requires e in Survivors(tables, events, events)
    ensures !Saved(tables, Survivors(tables, events, events), e)
  {
    var once := Survivors(tables, events, events);
    SurvivorsAre(tables, events, events, e);
    if safe :| safe in once && safe.eventType in tables.generic && e.eventType in tables.safe
               && safe.eventType in tables.safe[e.eventType] && SameScope(e, safe) {
      SurvivorsAre(tables, events, events, safe);
      ScopeIsSymmetric(e, safe);
      assert SuppressesSafe(tables, e, safe);
    }
  }

  /** A second pass changes nothing exactly when no survivor is the generic type of another survivor in its scope. */
  lemma SecondPassIff(tables: Tables, events: seq<Event>)
    ensures var once := Survivors(tables, events, events);
      Survivors(tables, once, once) == once <==>
          forall s, e | s in once && e in once :: !SuppressesGeneric(tables, s, e)
  {
    var once := Survivors(tables, events, events);
    forall e | e in once
      ensures Survives(tables, once, e) <==> forall s | s in once :: !SuppressesGeneric(tables, s, e)
    {
      SurvivorsAre(tables, events, events, e);
      NoOneSavedTwice(tables, events, e);
      forall manual | manual in once ensures !SuppressesSafe(tables, manual, e) {
        SurvivorsAre(tables, events, events, manual);
      }
    }
    if forall e | e in once :: Survives(tables, once, e) {
      AllSurvive(tables, once, once);
    } else {
      var e :| e in once && !Survives(tables, once, e);
      SurvivorsAre(tables, once, once, e);
    }
  }

  function EventAt(eventType: string, line: int): Event {
    Event(eventType, "", "", "", [], "", "", "", line, 0, 0)
  }

  lemma DroppedTheSecondTime(tables: Tables, manual: Event, safe: Event, special: Event)
    requires SuppressesSafe(tables, manual, safe) && SuppressesGeneric(tables, special, manual)
    requires safe.eventType in tables.generic && SafeNotManual(tables)
    requires !SuppressesSafe(tables, manual, special)
    requires forall e | e in [manual, safe, special] :: !SuppressesGeneric(tables, e, special)
    requires safe.eventType !in tables.safe && special.eventType !in tables.safe
    ensures var events := [manual, safe, special];
      var once := Survivors(tables, events, events);
      manual in once && manual !in Survivors(tables, once, once)
  {
    var events := [manual, safe, special];
    var once := Survivors(tables, events, events);
    ScopeIsSymmetric(manual, safe);
    assert safe in events && Saved(tables, events, manual);
    SurvivorsAre(tables, events, events, manual);
    SurvivorsAre(tables, events, events, special);
    NoOneSavedTwice(tables, events, manual);
    SurvivorsAre(tables, once, once, manual);
  }

  /** Suppression is not idempotent: a full disk that survives beside a failed cache is dropped the second time. */
  lemma SecondPassDrops()
    ensures var events := [EventAt("disk_full", 10), EventAt("optional_cache_backend_failed", 7),
        EventAt("cache_write_failed", 13)];
      var once := Survivors(SHIPPED_TABLES, events, events);
      events[0] in once && events[0] !in Survivors(SHIPPED_TABLES, once, once)
  {
    var disk, cache, write := EventAt("disk_full", 10), EventAt("optional_cache_backend_failed", 7),
        EventAt("cache_write_failed", 13);
    ShippedSafeNotManual();
    assert !SameScope(write, cache);
    DroppedTheSecondTime(SHIPPED_TABLES, disk, cache, write);
  }

  // ----- duplicates -----

  predicate SameKey(a: Event, b: Event) {
    a.eventType == b.eventType && a.fingerprint == b.fingerprint
  }

  /** The events that no earlier event has the type and fingerprint of. */
  ghost function FirstOfEach(events: seq<Event>): seq<Event> {
    if events == [] then []
    else
      var n := |events| - 1;
      FirstOfEach(events[..n]) + if exists e :: e in events[..n] && SameKey(e, events[n]) then [] else [events[n]]
  }

  function KeysOf(events: seq<Event>): set<(string, string)> {
    set e | e in events :: (e.eventType, e.fingerprint)
  }

  lemma FirstOfEachSnoc(events: seq<Event>, event: Event)
    ensures FirstOfEach(events + [event]) ==
      FirstOfEach(events) + if (event.eventType, event.fingerprint) in KeysOf(events) then [] else [event]
    ensures KeysOf(events + [event]) == KeysOf(events) + {(event.eventType, event.fingerprint)}
  {
    assert (events + [event])[..|events|] == events;
    assert (exists e :: e in events && SameKey(e, event)) <==> (event.eventType, event.fingerprint) in KeysOf(events);
  }

  lemma FirstOfEachUpTo(events: seq<Event>, i: nat)
    requires i < |events|
    ensures var key := (events[i].eventType, events[i].fingerprint);
      && FirstOfEach(events[..i + 1]) ==
          FirstOfEach(events[..i]) + (if key in KeysOf(events[..i]) then [] else [events[i]])
      && KeysOf(events[..i + 1]) == KeysOf(events[..i]) + {key}
  {
    FirstOfEachSnoc(events[..i], events[i]);
    assert events[..i + 1] == events[..i] + [events[i]];
  }

  method DedupeDetectAllEvents(events: seq<Event>) returns (result: seq<Event>)
    ensures result == FirstOfEach(events)
  {
    result := [];
    var seen: set<(string, string)> := {};
    for i := 0 to |events|
      invariant result == FirstOfEach(events[..i]) && seen == KeysOf(events[..i])
    {
      var event := events[i];
      FirstOfEachUpTo(events, i);
      var key := (event.eventType, event.fingerprint);
      if key !in seen {
        result := result + [event];
        seen := seen + {key};
      }
    }
    assert events[..|events|] == events;
  }

  /** Every key is kept once, by an event that had it. */
  lemma {:induction false} FirstOfEachCovers(events: seq<Event>, e: Event)
    requires e in events
    ensures exists kept :: kept in FirstOfEach(events) && kept in events && SameKey(kept, e)
  {
    var n := |events| - 1;
    if e in events[..n] {
      FirstOfEachCovers(events[..n], e);
      var kept :| kept in FirstOfEach(events[..n]) && kept in events[..n] && SameKey(kept, e);
      assert kept in FirstOfEach(events);
    } else if first :| first in events[..n] && SameKey(first, events[n]) {
      FirstOfEachCovers(events[..n], first);
      var kept :| kept in FirstOfEach(events[..n]) && kept in events[..n] && SameKey(kept, first);
      assert kept in FirstOfEach(events);
    } else {
      assert e in FirstOfEach(events);
    }
  }

  lemma {:induction false} FirstOfEachDistinct(events: seq<Event>, i: nat, j: nat)
    requires i < j < |FirstOfEach(events)|
    ensures !SameKey(FirstOfEach(events)[i], FirstOfEach(events)[j])
  {
    var n := |events| - 1;
    var before := FirstOfEach(events[..n]);
    if j < |before| {
      FirstOfEachDistinct(events[..n], i, j);
    } else {
      FirstOfEachIn(events[..n], before[i]);
    }
  }

  lemma {:induction false} FirstOfEachIn(events: seq<Event>, e: Event)
    requires e in FirstOfEach(events)
    ensures e in events
  {
    var n := |events| - 1;
    if e in FirstOfEach(events[..n]) {
      FirstOfEachIn(events[..n], e);
    }
  }

  // ----- the last steps of detection -----

  ghost function Specific(events: seq<Event>): seq<Event> {
    if events == [] then []
    else
      var n := |events| - 1;
      Specific(events[..n]) + if events[n].issueType != "log" then [events[n]] else []
  }

  /** Generic log events count only when there is nothing else. */
  ghost function WithoutLogs(events: seq<Event>): seq<Event> {
    if exists e :: e in events && e.issueType != "log" then Specific(events) else events
  }

  lemma {:induction false} SpecificAre(events: seq<Event>, e: Event)
    ensures e in Specific(events) <==> e in events && e.issueType != "log"
  {
    if events != [] {
      SpecificAre(events[..|events| - 1], e);
    }
  }

  ghost function Refined(tables: Tables, events: seq<Event>): seq<Event> {
    var kept := WithoutLogs(events);
    FirstOfEach(Survivors(tables, kept, kept))
  }

  method RefineEvents(tables: Tables, events: seq<Event>) returns (result: seq<Event>)
    ensures result == Refined(tables, events)
  {
    var specific := [];
    for i := 0 to |events|
      invariant specific == Specific(events[..i])
    {
      assert events[..i + 1][..i] == events[..i];
      if events[i].issueType != "log" {
        specific := specific + [events[i]];
      }
    }
    assert events[..|events|] == events;
    var kept := if specific != [] then specific else events;
    assert kept == WithoutLogs(events) by {
      if specific != [] {
        SpecificAre(events, specific[0]);
      } else if e :| e in events && e.issueType != "log" {
        SpecificAre(events, e);
      }
    }
    var survivors := SuppressGenericEvents(tables, kept);
    result := DedupeDetectAllEvents(survivors);
  }

  /**
   Whatever is detected is answered for: each event that is not a generic log event leads, by dominating events of
   the same scope, to one whose type and fingerprint are in the result.
   */
  lemma EventIsAnswered(tables: Tables, rank: map<string, nat>, events: seq<Event>, e: Event)
    returns (chain: seq<Event>, answer: Event)
    requires Ranked(tables, rank) && e in events
    requires e.issueType != "log" || forall other | other in events :: other.issueType == "log"
    ensures Chain(tables, WithoutLogs(events), chain, e)
    ensures answer in Refined(tables, events) && SameKey(answer, chain[|chain| - 1])
  {
    var kept := WithoutLogs(events);
    if kept != events {
      SpecificAre(events, e);
    }
    chain := DroppedIsExplained(tables, rank, kept, e);
    var last := chain[|chain| - 1];
    assert last in chain;
    SurvivorsAre(tables, kept, kept, last);
    FirstOfEachCovers(Survivors(tables, kept, kept), last);
    answer :| answer in Refined(tables, events) && SameKey(answer, last);
  }
}
