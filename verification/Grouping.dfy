/** What the grouping of matches guarantees, for any matches and for those a text produces. */
module Grouping {
  import opened Wrappers
  import opened Detector

  // ----- the grouping is determined -----

  /** Greedy segmentation: each match joins the last group, or starts a new one. */
  function Segments(find: Matcher, lines: seq<string>, matches: seq<Match>): (groups: seq<seq<Match>>)
    ensures forall g | 0 <= g < |groups| :: groups[g] != []
    ensures matches != [] ==> groups != []
  {
    if matches == [] then []
    else
      var m := matches[|matches| - 1];
      var groups := Segments(find, lines, matches[..|matches| - 1]);
      if groups != [] && Joins(find, lines, groups[|groups| - 1], m)
      then groups[..|groups| - 1] + [groups[|groups| - 1] + [m]]
      else groups + [[m]]
  }

  lemma SegmentsOneMore(find: Matcher, lines: seq<string>, before: seq<seq<Match>>, group: seq<Match>,
                        matches: seq<Match>, m: Match)
    requires Segments(find, lines, matches) == before + [group] && group != [] && Joins(find, lines, group, m)
    ensures Segments(find, lines, matches + [m]) == before + [group + [m]]
  {
    assert (matches + [m])[..|matches|] == matches;
    assert (before + [group])[..|before|] == before;
  }

  lemma SegmentsNew(find: Matcher, lines: seq<string>, matches: seq<Match>, m: Match)
    requires var groups := Segments(find, lines, matches);
      groups != [] ==> !Joins(find, lines, groups[|groups| - 1], m)
    ensures Segments(find, lines, matches + [m]) == Segments(find, lines, matches) + [[m]]
  {
    assert (matches + [m])[..|matches|] == matches;
  }

  lemma GroupingShrinks(find: Matcher, lines: seq<string>, before: seq<seq<Match>>, group: seq<Match>, m: Match)
    requires IsGrouping(find, lines, before + [group + [m]])
    ensures if group != [] then IsGrouping(find, lines, before + [group]) && Joins(find, lines, group, m)
            else IsGrouping(find, lines, before)
                 && (before != [] ==> before[|before| - 1] != [] && !Joins(find, lines, before[|before| - 1], m))
  {
    assert (before + [group + [m]])[..|before|] == before == (before + [group])[..|before|];
    assert (group + [m])[..|group|] == group;
    assert group != [] ==> (group + [m])[0] == group[0];
  }

  lemma {:induction false} GreedyFrom(find: Matcher, lines: seq<string>, before: seq<seq<Match>>, group: seq<Match>,
                                      m: Match)
    requires IsGrouping(find, lines, before + [group + [m]])
    ensures Segments(find, lines, Flatten(before) + group + [m]) == before + [group + [m]]
    decreases |Flatten(before)| + |group| + 1, 0
  {
    GroupingShrinks(find, lines, before, group, m);
    if group != [] {
      GreedyOf(find, lines, before, group);
      SegmentsOneMore(find, lines, before, group, Flatten(before) + group, m);
    } else {
      assert group + [m] == [m] && Flatten(before) + group + [m] == Flatten(before) + [m];
      if before == [] {
        SegmentsNew(find, lines, [], m);
      } else {
        var n := |before| - 1;
        assert before == before[..n] + [before[n]];
        GreedyOf(find, lines, before[..n], before[n]);
        SegmentsNew(find, lines, Flatten(before), m);
      }
    }
  }

  lemma {:induction false} GreedyOf(find: Matcher, lines: seq<string>, before: seq<seq<Match>>, group: seq<Match>)
    requires group != [] && IsGrouping(find, lines, before + [group])
    ensures Segments(find, lines, Flatten(before) + group) == before + [group]
    decreases |Flatten(before)| + |group|, 1
  {
    var shorter, m := group[..|group| - 1], group[|group| - 1];
    assert group == shorter + [m];
    GreedyFrom(find, lines, before, shorter, m);
    assert Flatten(before) + group == Flatten(before) + shorter + [m];
  }

  /** The only grouping of a list of matches is the greedy one. */
  lemma GroupingIsGreedy(find: Matcher, lines: seq<string>, groups: seq<seq<Match>>)
    requires IsGrouping(find, lines, groups)
    ensures groups == Segments(find, lines, Flatten(groups))
  {
    if groups != [] {
      var n := |groups| - 1;
      assert groups == groups[..n] + [groups[n]];
      GreedyOf(find, lines, groups[..n], groups[n]);
    }
  }

  // ----- inside a group -----

  lemma {:induction false} MaxLineReached(group: seq<Match>)
    requires group != []
    ensures exists m :: m in group && m.0 == MaxLine(group)
    ensures forall m | m in group :: m.0 <= MaxLine(group)
  {
    if |group| > 1 {
      MaxLineReached(group[..|group| - 1]);
    }
    assert group[|group| - 1] in group;
  }

  /** No two different markers stand in one group: whatever is marked carries the marker of the group. */
  lemma {:induction false} OneMarker(find: Matcher, lines: seq<string>, group: seq<Match>, m: Match)
    requires IsGroup(find, lines, group) && m in group
    ensures MarkerAt(find, lines, m.0) == "" || MarkerAt(find, lines, m.0) == GroupMarker(find, lines, group)
    decreases |group|
  {
    var n := |group| - 1;
    if n > 0 {
      var before := group[..n];
      if m in before {
        OneMarker(find, lines, before, m);
      } else {
        MaxLineReached(before);
        var x :| x in before && x.0 == MaxLine(before);
        OneMarker(find, lines, before, x);
      }
    }
  }

  /** In the order of lines, each match of a group is within three lines of the one before it. */
  lemma {:induction false} SmallGaps(find: Matcher, lines: seq<string>, group: seq<Match>, k: nat)
    requires IsGroup(find, lines, group) && Nondecreasing(group) && 0 < k < |group|
    ensures 0 <= group[k].0 - group[k - 1].0 <= 3
    decreases |group|
  {
    var n := |group| - 1;
    MaxLineIsLast(group[..n]);
    if k < n {
      SmallGaps(find, lines, group[..n], k);
    }
  }

  lemma MaxLineIsLast(group: seq<Match>)
    requires group != [] && Nondecreasing(group)
    ensures MaxLine(group) == group[|group| - 1].0
  {
    MaxLineReached(group);
  }

  // ----- between groups -----

  /** Where the matches of a group lie among all the matches. */
  lemma {:induction false} GroupIsSlice(groups: seq<seq<Match>>, g: nat)
    requires g < |groups|
    ensures |Flatten(groups[..g])| + |groups[g]| <= |Flatten(groups)|
    ensures Flatten(groups)[|Flatten(groups[..g])|..][..|groups[g]|] == groups[g]
    decreases |groups|
  {
    var n := |groups| - 1;
    if g < n {
      GroupIsSlice(groups[..n], g);
      assert groups[..n][..g] == groups[..g];
      assert Flatten(groups) == Flatten(groups[..n]) + groups[n];
    }
  }

  lemma {:induction false} NeighboursDoNotJoin(find: Matcher, lines: seq<string>, groups: seq<seq<Match>>, g: nat)
    requires IsGrouping(find, lines, groups) && g + 1 < |groups|
    ensures IsGroup(find, lines, groups[g]) && IsGroup(find, lines, groups[g + 1])
    ensures !Joins(find, lines, groups[g], groups[g + 1][0])
    decreases |groups|
  {
    var n := |groups| - 1;
    if g + 1 < n {
      NeighboursDoNotJoin(find, lines, groups[..n], g);
    } else {
      assert IsGrouping(find, lines, groups[..n]) && groups[..n][n - 1] == groups[n - 1];
    }
  }

  /**
   In the order of lines, two neighbouring groups never share a line, and they are apart because more than three
   lines lie between them or because the marker changed.
   */
  lemma NeighboursApart(find: Matcher, lines: seq<string>, groups: seq<seq<Match>>, g: nat)
    requires IsGrouping(find, lines, groups) && Nondecreasing(Flatten(groups)) && g + 1 < |groups|
    ensures groups[g] != [] && groups[g + 1] != []
    ensures var last, first := groups[g][|groups[g]| - 1].0, groups[g + 1][0].0;
      && last < first
      && (first - last > 3
          || (MarkerAt(find, lines, first) != "" && GroupMarker(find, lines, groups[g]) != ""
              && MarkerAt(find, lines, first) != GroupMarker(find, lines, groups[g])))
  {
    NeighboursDoNotJoin(find, lines, groups, g);
    GroupIsSlice(groups, g);
    GroupIsSlice(groups, g + 1);
    var all, at := Flatten(groups), |Flatten(groups[..g])|;
    assert groups[..g + 1][..g] == groups[..g];
    var group, next := groups[g], groups[g + 1];
    assert Flatten(groups[..g + 1]) == Flatten(groups[..g]) + group;
    forall i | 0 <= i < |group| ensures all[at + i] == group[i] {
      assert all[at..][..|group|][i] == group[i];
    }
    assert all[at + |group|..][..|next|][0] == next[0];
    assert Nondecreasing(group);
    MaxLineIsLast(group);
  }
}
