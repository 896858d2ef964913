/** The state a monitor keeps across restarts: the fingerprints it has seen and its event total. */
module StateStore {
  import opened Wrappers
  import opened Sorting

  /** `sorted(s)`. */
  function Sorted(s: set<string>): (xs: seq<string>)
    ensures |xs| == |s| && forall f :: f in xs <==> f in s
  {
    BeforeOrders(s);
    SortedBy(s, Before)
  }

  // ----- the state file -----

  datatype Saved = Saved(seen: seq<string>, eventsTotal: nat)

  /** The slice `xs[start:]`, which counts a negative start from the end. */
  function DropFrom<T>(xs: seq<T>, start: int): seq<T> {
    if start >= 0 then xs[if start < |xs| then start else |xs|..]
    else if -start < |xs| then xs[|xs| + start..]
    else xs
  }

  /** What is left of the fingerprints when the state is saved with room for `max` of them. */
  function Kept(seen: seq<string>, max: int): seq<string> {
    if |seen| > max then DropFrom(seen, -max) else seen
  }

  function Trimmed(state: Saved, max: int): Saved {
    state.(seen := Kept(state.seen, max))
  }

  const NOTHING_SAVED := Saved([], 0)

  /** What a process that starts finds in the file. */
  function Found(file: Option<Saved>): Saved {
    if file.Some? then file.value else NOTHING_SAVED
  }

  class MonitorStateStore {
    const maxSeen: int
    var file: Option<Saved>

    constructor (maxSeen: int, file: Option<Saved>)
      ensures this.maxSeen == maxSeen && this.file == file
    {
      this.maxSeen, this.file := maxSeen, file;
    }

    method Load() returns (state: Saved)
      ensures state == Found(file)
    {
      if file.None? {
        return NOTHING_SAVED;
      }
      return file.value;
    }

    method Save(state: Saved) returns (kept: Saved)
      modifies this
      ensures kept == Trimmed(state, maxSeen) && file == Some(kept)
    {
      kept := state;
      if |kept.seen| > maxSeen {
        kept := kept.(seen := DropFrom(kept.seen, -maxSeen));
      }
      file := Some(kept);
    }
  }

  function Elements(xs: seq<string>): set<string> {
    set x | x in xs
  }

  ghost function Above(seen: set<string>, f: string): set<string> {
    set g | g in seen && Before(f, g)
  }

  lemma AboveIsRest(s: set<string>, f: string)
    requires f in s
    ensures |Above(s, f)| == |s| - 1 - |Preceding(s, Before, f)|
  {
    BeforeOrders(s);
    var below := Preceding(s, Before, f);
    assert f !in below;
    assert Above(s, f) == s - (below + {f});
    assert below + {f} <= s;
  }

  lemma SortedFromEnd(s: set<string>, i: nat)
    requires i < |s|
    ensures |Above(s, Sorted(s)[i])| == |s| - 1 - i
  {
    BeforeOrders(s);
    SortedRank(s, Before, i);
    AboveIsRest(s, Sorted(s)[i]);
  }

  /**
   A restart remembers a fingerprint exactly when fewer than `max` fingerprints come after it in the alphabet: with
   more than `max` of them, what survives is the end of the alphabet and not what was seen last. A limit of zero
   keeps everything.
   */
  lemma RestartRemembersIff(seen: set<string>, max: nat, f: string)
    requires f in seen
    ensures f in Kept(Sorted(seen), max) <==> max == 0 || |Above(seen, f)| < max
  {
    var xs := Sorted(seen);
    var i :| 0 <= i < |xs| && xs[i] == f;
    SortedFromEnd(seen, i);
    if |xs| > max > 0 && f in Kept(xs, max) {
      var j :| 0 <= j < max && Kept(xs, max)[j] == f;
      assert xs[|xs| - max + j] == f;
      SortedFromEnd(seen, |xs| - max + j);
    }
    if |xs| > max > 0 && i >= |xs| - max {
      assert Kept(xs, max)[i - (|xs| - max)] == f;
    }
  }

  /** So a restart remembers everything exactly when there is room for everything. */
  lemma RestartRemembersAllIff(seen: set<string>, max: nat)
    ensures Elements(Kept(Sorted(seen), max)) == seen <==> max == 0 || |seen| <= max
  {
    if |seen| > max > 0 {
      var f := Sorted(seen)[0];
      SortedFromEnd(seen, 0);
      RestartRemembersIff(seen, max, f);
      assert f !in Elements(Kept(Sorted(seen), max));
    }
  }
}
