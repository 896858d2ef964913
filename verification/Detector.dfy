/** From matched log lines to events: grouping of matches, suppression of events, removal of duplicates. */
module Detector {
  import opened Wrappers
  import opened Projects

  // ----- matches of one rule -----

  type Match = (int, string)

  /** What the regular expressions answer: the text a pattern finds in a line, and the marker of a line. */
  datatype Matcher = Matcher(search: (string, string) -> Option<string>, marker: string -> string)

  function KeywordsOf(find: Matcher, patterns: seq<string>, line: string): seq<string> {
    if patterns == [] then []
    else
      var n := |patterns| - 1;
      var rest := KeywordsOf(find, patterns[..n], line);
      match find.search(patterns[n], line)
      case Some(keyword) => rest + [keyword]
      case None => rest
  }

  function OnLine(n: int, keywords: seq<string>): seq<Match> {
    seq(|keywords|, i requires 0 <= i < |keywords| => (n, keywords[i]))
  }

  function MatchesOf(find: Matcher, patterns: seq<string>, lines: seq<string>): seq<Match> {
    if lines == [] then []
    else
      var n := |lines| - 1;
      MatchesOf(find, patterns, lines[..n]) + OnLine(|lines|, KeywordsOf(find, patterns, lines[n]))
  }

  method CollectRuleLineMatches(find: Matcher, patterns: seq<string>, lines: seq<string>) returns (matches: seq<Match>)
    ensures matches == MatchesOf(find, patterns, lines)
  {
    matches := [];
    var seenLines: set<int> := {};
    for i := 0 to |lines|
      invariant matches == MatchesOf(find, patterns, lines[..i])
      invariant forall n | n in seenLines :: n <= i
    {
      var keywords := [];
      for j := 0 to |patterns|
        invariant keywords == KeywordsOf(find, patterns[..j], lines[i])
      {
        assert patterns[..j + 1][..j] == patterns[..j];
        var found := find.search(patterns[j], lines[i]);
        if found.Some? {
          keywords := keywords + [found.value];
        }
      }
      assert patterns[..|patterns|] == patterns && lines[..i + 1][..i] == lines[..i];
      if keywords != [] && i + 1 !in seenLines {
        matches := matches + OnLine(i + 1, keywords);
        seenLines := seenLines + {i + 1};
      } else {
        assert OnLine(i + 1, keywords) == [];
      }
    }
    assert lines[..|lines|] == lines;
  }

  ghost predicate Nondecreasing(matches: seq<Match>) {
    forall i, j | 0 <= i < j < |matches| :: matches[i].0 <= matches[j].0
  }

  /** Matches come in the order of their lines, all of them on lines of the text. */
  lemma {:induction false} MatchesInOrder(find: Matcher, patterns: seq<string>, lines: seq<string>)
    ensures Nondecreasing(MatchesOf(find, patterns, lines))
    ensures forall m | m in MatchesOf(find, patterns, lines) :: 1 <= m.0 <= |lines|
  {
    if lines != [] {
      MatchesInOrder(find, patterns, lines[..|lines| - 1]);
    }
  }

  ghost predicate HasMatch(matches: seq<Match>, n: int) {
    exists m :: m in matches && m.0 == n
  }

  lemma HasMatchInEither(left: seq<Match>, right: seq<Match>, n: int)
    ensures HasMatch(left + right, n) <==> HasMatch(left, n) || HasMatch(right, n)
  {
    if m :| m in left && m.0 == n {
      assert m in left + right;
    }
    if m :| m in right && m.0 == n {
      assert m in left + right;
    }
  }

  lemma {:induction false} KeywordsIff(find: Matcher, patterns: seq<string>, line: string)
    ensures KeywordsOf(find, patterns, line) != [] <==> exists p :: p in patterns && find.search(p, line).Some?
  {
    if patterns != [] {
      var n := |patterns| - 1;
      KeywordsIff(find, patterns[..n], line);
      assert patterns == patterns[..n] + [patterns[n]];
      assert patterns[n] in patterns;
    }
  }

  /**
   The keywords of a line are what the patterns that find something find there, one for each of them, in the order of
   the patterns.
   */
  lemma {:induction false} KeywordsAre(find: Matcher, patterns: seq<string>, line: string) returns (at: seq<nat>)
    ensures |at| == |KeywordsOf(find, patterns, line)|
    ensures forall k, l | 0 <= k < l < |at| :: at[k] < at[l]
    ensures forall k | 0 <= k < |at| ::
      at[k] < |patterns| && find.search(patterns[at[k]], line) == Some(KeywordsOf(find, patterns, line)[k])
    ensures forall i: nat | i < |patterns| && find.search(patterns[i], line).Some? :: i in at
  {
    at := [];
    if patterns != [] {
      var n := |patterns| - 1;
      at := KeywordsAre(find, patterns[..n], line);
      if find.search(patterns[n], line).Some? {
        at := at + [n];
      }
    }
  }

  /** A match names a line of the text and what some pattern finds in it, and there is no other. */
  lemma {:induction false} MatchIff(find: Matcher, patterns: seq<string>, lines: seq<string>, m: Match)
    ensures m in MatchesOf(find, patterns, lines) <==>
      1 <= m.0 <= |lines| && exists p :: p in patterns && find.search(p, lines[m.0 - 1]) == Some(m.1)
    decreases |lines|
  {
    if lines != [] {
      var n := |lines| - 1;
      MatchIff(find, patterns, lines[..n], m);
      KeywordFoundIff(find, patterns, lines[n], m.1);
      OnLineHolds(|lines|, KeywordsOf(find, patterns, lines[n]), m);
    }
  }

  lemma {:induction false} KeywordFoundIff(find: Matcher, patterns: seq<string>, line: string, keyword: string)
    ensures keyword in KeywordsOf(find, patterns, line) <==>
      exists p :: p in patterns && find.search(p, line) == Some(keyword)
  {
    if patterns != [] {
      var n := |patterns| - 1;
      KeywordFoundIff(find, patterns[..n], line, keyword);
      assert patterns == patterns[..n] + [patterns[n]];
      assert patterns[n] in patterns;
    }
  }

  lemma OnLineHolds(n: int, keywords: seq<string>, m: Match)
    ensures m in OnLine(n, keywords) <==> m.0 == n && m.1 in keywords
  {
    if m.0 == n && m.1 in keywords {
      var i :| 0 <= i < |keywords| && keywords[i] == m.1;
      assert OnLine(n, keywords)[i] == m;
    }
  }

  lemma OnLineIff(n: int, keywords: seq<string>, k: int)
    ensures HasMatch(OnLine(n, keywords), k) <==> n == k && keywords != []
  {
    if keywords != [] {
      assert OnLine(n, keywords)[0] in OnLine(n, keywords);
    }
  }

  /** A line is matched exactly when some pattern finds something in it. */
  lemma {:induction false} LineMatchedIff(find: Matcher, patterns: seq<string>, lines: seq<string>, n: nat)
    requires 1 <= n <= |lines|
    ensures HasMatch(MatchesOf(find, patterns, lines), n) <==>
        exists p :: p in patterns && find.search(p, lines[n - 1]).Some?
    decreases |lines|
  {
    var last := |lines| - 1;
    var keywords := KeywordsOf(find, patterns, lines[last]);
    HasMatchInEither(MatchesOf(find, patterns, lines[..last]), OnLine(|lines|, keywords), n);
    OnLineIff(|lines|, keywords, n);
    if n <= last {
      LineMatchedIff(find, patterns, lines[..last], n);
    } else {
      KeywordsIff(find, patterns, lines[last]);
      MatchesInOrder(find, patterns, lines[..last]);
    }
  }

  // ----- groups of matches -----

  const GAP_LINES := 3

  function MarkerAt(find: Matcher, lines: seq<string>, n: int): string {
    find.marker(if 0 < n <= |lines| then lines[n - 1] else "")
  }

  /** The marker of a line of the text is found in that line, and of any other number in the empty line. */
  lemma MarkerAtIs(find: Matcher, lines: seq<string>, n: int)
    ensures 1 <= n <= |lines| ==> MarkerAt(find, lines, n) == find.marker(lines[n - 1])
    ensures n < 1 || n > |lines| ==> MarkerAt(find, lines, n) == find.marker("")
  {
  }

  function MaxLine(group: seq<Match>): int
    requires group != []
  {
    var last := group[|group| - 1].0;
    if |group| == 1 then last
    else
      var before := MaxLine(group[..|group| - 1]);
      if before < last then last else before
  }

  /** The first marker that is not empty. */
  function GroupMarker(find: Matcher, lines: seq<string>, group: seq<Match>): string {
    if group == [] then ""
    else
      var before := GroupMarker(find, lines, group[..|group| - 1]);
      if before != "" then before else MarkerAt(find, lines, group[|group| - 1].0)
  }

  predicate Joins(find: Matcher, lines: seq<string>, group: seq<Match>, m: Match)
    requires group != []
  {
    var marker, current := MarkerAt(find, lines, m.0), GroupMarker(find, lines, group);
    m.0 - MaxLine(group) <= GAP_LINES
    && !(marker != "" && current != "" && marker != current && m.0 != MaxLine(group))
  }

  function Flatten(groups: seq<seq<Match>>): seq<Match> {
    if groups == [] then [] else Flatten(groups[..|groups| - 1]) + groups[|groups| - 1]
  }

  /** Every match of the group joined the matches before it. */
  ghost predicate IsGroup(find: Matcher, lines: seq<string>, group: seq<Match>) {
    && group != []
    && (|group| > 1 ==>
          var before := group[..|group| - 1];
          IsGroup(find, lines, before) && Joins(find, lines, before, group[|group| - 1]))
  }

  /** Groups, of which none begins with a match that would have joined the group before. */
  ghost predicate IsGrouping(find: Matcher, lines: seq<string>, groups: seq<seq<Match>>) {
    groups != [] ==>
      var n := |groups| - 1;
      && IsGrouping(find, lines, groups[..n])
      && IsGroup(find, lines, groups[n])
      && (n > 0 ==> groups[n - 1] != [] && !Joins(find, lines, groups[n - 1], groups[n][0]))
  }

  /** The group under construction, with the marker and the line the loop keeps of it. */
  ghost predicate Tracked(find: Matcher, lines: seq<string>, group: seq<Match>, marker: string, lastLine: int) {
    IsGroup(find, lines, group) && lastLine == MaxLine(group) && marker == GroupMarker(find, lines, group)
  }

  /** The group under construction may follow the groups that are closed. */
  ghost predicate Follows(find: Matcher, lines: seq<string>, groups: seq<seq<Match>>, group: seq<Match>) {
    && IsGrouping(find, lines, groups) && group != []
    && (groups != [] ==> groups[|groups| - 1] != [] && !Joins(find, lines, groups[|groups| - 1], group[0]))
  }

  lemma GroupStarts(find: Matcher, lines: seq<string>, m: Match)
    ensures Tracked(find, lines, [m], MarkerAt(find, lines, m.0), m.0)
  {
    assert [m][..0] == [];
    assert GroupMarker(find, lines, [m][..0]) == "";
  }

  lemma GroupGrows(find: Matcher, lines: seq<string>, group: seq<Match>, marker: string, lastLine: int, m: Match)
    requires Tracked(find, lines, group, marker, lastLine) && Joins(find, lines, group, m)
    ensures Tracked(find, lines, group + [m], if marker != "" then marker else MarkerAt(find, lines, m.0),
                    if lastLine < m.0 then m.0 else lastLine)
  {
    assert (group + [m])[..|group|] == group;
  }

  lemma GroupingGrows(find: Matcher, lines: seq<string>, groups: seq<seq<Match>>, group: seq<Match>)
    requires Follows(find, lines, groups, group) && IsGroup(find, lines, group)
    ensures IsGrouping(find, lines, groups + [group]) && Flatten(groups + [group]) == Flatten(groups) + group
  {
    assert (groups + [group])[..|groups|] == groups;
  }

  lemma OneMoreMatch(groups: seq<seq<Match>>, current: seq<Match>, matches: seq<Match>, i: nat)
    requires i < |matches| && Flatten(groups) + current == matches[..i]
    ensures Flatten(groups) + (current + [matches[i]]) == matches[..i + 1] == matches[..i] + [matches[i]]
  {
  }

  method GroupRuleLineMatches(find: Matcher, matches: seq<Match>, lines: seq<string>) returns (groups: seq<seq<Match>>)
    ensures Flatten(groups) == matches && IsGrouping(find, lines, groups)
  {
    groups := [];
    var current: seq<Match> := [];
    var currentMarker, lastLine := "", 0;
    for i := 0 to |matches|
      invariant Flatten(groups) + current == matches[..i]
      invariant current == [] ==> groups == []
      invariant current != [] ==>
        Tracked(find, lines, current, currentMarker, lastLine) && Follows(find, lines, groups, current)
    {
      var m := matches[i];
      OneMoreMatch(groups, current, matches, i);
      var marker := MarkerAt(find, lines, m.0);
      if current == [] {
        GroupStarts(find, lines, m);
        current, currentMarker, lastLine := [m], marker, m.0;
      } else {
        var sameLine := m.0 == lastLine;
        var nearby := m.0 - lastLine <= GAP_LINES;
        var markerChanged := marker != "" && currentMarker != "" && marker != currentMarker && !sameLine;
        if nearby && !markerChanged {
          GroupGrows(find, lines, current, currentMarker, lastLine, m);
          current := current + [m];
          if currentMarker == "" && marker != "" {
            currentMarker := marker;
          }
          lastLine := if lastLine < m.0 then m.0 else lastLine;
        } else {
          GroupingGrows(find, lines, groups, current);
          assert (groups + [current])[|groups|] == current;
          groups := groups + [current];
          GroupStarts(find, lines, m);
          current, currentMarker, lastLine := [m], marker, m.0;
        }
      }
    }
    if current != [] {
      GroupingGrows(find, lines, groups, current);
      groups := groups + [current];
    }
  }
}
