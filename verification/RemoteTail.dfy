/** What the tail command of a remote log answers: the last lines of the file, stripped, and cut to a limit. */
module RemoteTail {
  import opened Wrappers

  /** How many lines are asked for, and how many characters of the answer are kept. */
  datatype TailView = TailView(lines: int, chars: nat)
  {
    function Lines(): nat {
      if lines < 20 then 20 else if lines > 2000 then 2000 else lines
    }
  }

  /** Where the last `n` lines before `end` begin. */
  function LinesBack(file: Bytes, end: nat, n: nat): (start: nat)
    requires end <= |file|
    ensures start <= end
  {
    if end == 0 || n == 0 then end
    else if file[end - 1] != '\n' then LinesBack(file, end - 1, n)
    else if n == 1 then end
    else LinesBack(file, end - 1, n - 1)
  }

  /** Where the last `n` lines of a file begin. A line feed at the very end belongs to the last of them. */
  function LastLines(file: Bytes, n: nat): (start: nat)
    ensures start <= |file|
  {
    LinesBack(file, if file != "" && file[|file| - 1] == '\n' then |file| - 1 else |file|, n)
  }

  function Decimal(n: nat): string {
    if n < 10 then [('0' as int + n) as char] else Decimal(n / 10) + [('0' as int + n % 10) as char]
  }

  const NOTICE := "[REMOTE_OUTPUT_TRUNCATED_KEEP_TAIL omitted "

  /** The line put in front of an answer that was cut. */
  function CutNotice(omitted: nat): string {
    NOTICE + Decimal(omitted) + " chars]\n"
  }

  /** The slice `text[-max:]`. A limit of zero keeps the whole text. */
  function KeptPart(text: string, max: nat): string {
    if 0 < max < |text| then text[|text| - max..] else text
  }

  function NoticeFor(text: string, max: nat): string {
    if |text| > max then CutNotice(|text| - max) else ""
  }

  function Cut(text: string, max: nat): string {
    NoticeFor(text, max) + KeptPart(text, max)
  }

  /** The last lines, without the white space around them. */
  function Ending(view: TailView, file: Bytes): string {
    Strip(file[LastLines(file, view.Lines())..])
  }

  function TailText(view: TailView, file: Bytes): string {
    Cut(Ending(view, file), view.chars)
  }

  function LineFeeds(s: Bytes): nat {
    if s == "" then 0 else LineFeeds(s[..|s| - 1]) + if s[|s| - 1] == '\n' then 1 else 0
  }

  /** The last lines begin with a line, and there are as many as were asked for unless the file has fewer. */
  lemma {:induction false} LinesBackAreLines(file: Bytes, end: nat, n: nat)
    requires end <= |file| && n > 0
    ensures var start := LinesBack(file, end, n);
      && (start == 0 || file[start - 1] == '\n')
      && (if start == 0 then LineFeeds(file[..end]) < n else LineFeeds(file[start..end]) == n - 1)
  {
    if end > 0 {
      var start := LinesBack(file, end, n);
      if file[end - 1] != '\n' {
        LinesBackAreLines(file, end - 1, n);
        assert file[start..end][..end - 1 - start] == file[start..end - 1];
      } else if n > 1 {
        LinesBackAreLines(file, end - 1, n - 1);
        assert file[start..end][..end - 1 - start] == file[start..end - 1];
      }
      assert file[..end][..end - 1] == file[..end - 1];
    }
  }

  /** An answer that is too long keeps its end, as long as the limit says; a limit of zero cuts nothing off. */
  lemma KeptIs(text: string, max: nat)
    ensures var kept := KeptPart(text, max);
      && |kept| == (if max == 0 || |text| < max then |text| else max)
      && text == text[..|text| - |kept|] + kept
  {
  }

  /** The lines of a text. A line feed at the very end ends the last of them. */
  function LinesIn(s: Bytes): nat {
    LineFeeds(s) + if s != "" && s[|s| - 1] != '\n' then 1 else 0
  }

  /** The last lines of a file begin with a line; they are as many as asked for, or the whole file if it has no more. */
  lemma LastLinesAre(file: Bytes, n: nat)
    requires n > 0
    ensures var start := LastLines(file, n);
      && (start == 0 || file[start - 1] == '\n')
      && (if start == 0 then LinesIn(file) <= n else LinesIn(file[start..]) == n)
  {
    var end := if file != "" && file[|file| - 1] == '\n' then |file| - 1 else |file|;
    var start := LastLines(file, n);
    LinesBackAreLines(file, end, n);
    var shown := file[start..];
    if end < |file| {
      assert shown[..|shown| - 1] == file[start..end];
      assert file[..|file| - 1] == file[..end];
    } else {
      assert file[..end] == file && shown == file[start..end];
    }
  }

  // ----- the part of the file an answer shows -----

  function LeadingSpace(s: string): (n: nat)
    ensures n <= |s|
    ensures StripLeft(s) == s[n..]
  {
    if s == [] || !IsSpace(s[0]) then 0
    else
      var n := LeadingSpace(s[1..]);
      assert s[1..][n..] == s[n + 1..];
      n + 1
  }

  lemma {:induction false} StripRightIsPrefix(s: string)
    ensures StripRight(s) <= s
  {
    if s != [] && IsSpace(s[|s| - 1]) {
      StripRightIsPrefix(s[..|s| - 1]);
    }
  }

  /** Where the text shown for the end of a file stops: what comes after is white space. */
  function TailTo(view: TailView, file: Bytes): nat {
    var lines := file[LastLines(file, view.Lines())..];
    LastLines(file, view.Lines()) + LeadingSpace(lines) + |Strip(lines)|
  }

  function TailFrom(view: TailView, file: Bytes): int {
    TailTo(view, file) - |KeptPart(Ending(view, file), view.chars)|
  }

  lemma StripIsSlice(s: string)
    ensures LeadingSpace(s) + |Strip(s)| <= |s|
    ensures Strip(s) == s[LeadingSpace(s)..LeadingSpace(s) + |Strip(s)|]
  {
    StripRightIsPrefix(StripLeft(s));
  }

  lemma KeptIsSlice(file: Bytes, text: Bytes, hi: nat, max: nat)
    requires |text| <= hi <= |file| && text == file[hi - |text|..hi]
    ensures var kept := KeptPart(text, max); |kept| <= |text| && kept == file[hi - |kept|..hi]
  {
  }

  lemma SliceOfRest(file: Bytes, start: nat, lo: nat, hi: nat)
    requires start <= |file| && lo <= hi <= |file| - start
    ensures file[start..][lo..hi] == file[start + lo..start + hi]
  {
  }

  lemma EndingIsSlice(view: TailView, file: Bytes)
    ensures var text, to := Ending(view, file), TailTo(view, file);
      |text| <= to <= |file| && text == file[to - |text|..to]
  {
    var start := LastLines(file, view.Lines());
    var lines := file[start..];
    StripIsSlice(lines);
    SliceOfRest(file, start, LeadingSpace(lines), LeadingSpace(lines) + |Strip(lines)|);
  }

  /** The answer is a part of the file, with a line in front of it exactly when it was cut. */
  lemma TailShowsSlice(view: TailView, file: Bytes)
    ensures 0 <= TailFrom(view, file) <= TailTo(view, file) <= |file|
    ensures TailText(view, file) ==
      NoticeFor(Ending(view, file), view.chars) + file[TailFrom(view, file)..TailTo(view, file)]
  {
    EndingIsSlice(view, file);
    KeptIsSlice(file, Ending(view, file), TailTo(view, file), view.chars);
  }

  /** What follows the text shown is white space. */
  lemma {:induction false} StripRightLeavesSpace(s: string, i: nat)
    requires |StripRight(s)| <= i < |s|
    ensures IsSpace(s[i])
  {
    if i < |s| - 1 {
      StripRightLeavesSpace(s[..|s| - 1], i);
    }
  }

  lemma OnlySpaceFollows(view: TailView, file: Bytes, i: nat)
    requires TailTo(view, file) <= i < |file|
    ensures IsSpace(file[i])
  {
    var start := LastLines(file, view.Lines());
    var lines := file[start..];
    var n := LeadingSpace(lines);
    StripIsSlice(lines);
    StripRightLeavesSpace(lines[n..], i - start - n);
  }

  lemma CutIsNotBlank(omitted: nat, rest: string)
    ensures Strip(CutNotice(omitted) + rest) != ""
  {
    var text := CutNotice(omitted) + rest;
    assert |NOTICE| > 0 && NOTICE[0] == '[';
    assert text == NOTICE + (Decimal(omitted) + " chars]\n" + rest);
    assert text[0] == NOTICE[0];
    assert StripLeft(text) == text;
    StripRightKeeps(text);
  }

  lemma {:induction false} StripRightKeeps(s: string)
    requires s != "" && !IsSpace(s[0])
    ensures StripRight(s) != ""
  {
    if |s| > 1 {
      StripRightKeeps(s[..|s| - 1]);
    }
  }

  /** An answer is blank exactly when it shows nothing and was not cut. */
  lemma BlankIff(view: TailView, file: Bytes)
    ensures Strip(TailText(view, file)) == "" <==> TailFrom(view, file) == TailTo(view, file)
  {
    var text := Ending(view, file);
    if |text| > view.chars {
      CutIsNotBlank(|text| - view.chars, KeptPart(text, view.chars));
    } else {
      assert TailText(view, file) == text;
      if text != "" {
        StripStripped(file[LastLines(file, view.Lines())..]);
      }
    }
  }

  lemma StripStripped(s: string)
    requires Strip(s) != ""
    ensures Strip(Strip(s)) != ""
  {
    var left := StripLeft(s);
    StripRightIsPrefix(left);
    assert left == s[LeadingSpace(s)..];
    LeadingSpaceEnds(s);
    StripRightKeeps(Strip(s));
  }

  lemma {:induction false} LeadingSpaceEnds(s: string)
    ensures LeadingSpace(s) < |s| ==> !IsSpace(s[LeadingSpace(s)])
  {
    if s != [] && IsSpace(s[0]) {
      LeadingSpaceEnds(s[1..]);
    }
  }

  /** At least twenty lines are asked for, at most two thousand, and otherwise as many as configured. */
  lemma LinesAsked(view: TailView)
    ensures 20 <= view.Lines() <= 2000
    ensures 20 <= view.lines <= 2000 ==> view.Lines() == view.lines
    ensures view.lines < 20 ==> view.Lines() == 20
    ensures view.lines > 2000 ==> view.Lines() == 2000
  {
  }

  /** The number that decimal digits stand for. */
  function ValueOf(digits: string): int {
    if digits == "" then 0 else 10 * ValueOf(digits[..|digits| - 1]) + (digits[|digits| - 1] as int - 48)
  }

  /** The number in the notice is written in decimal, without leading zeros. */
  lemma {:induction false} DecimalReads(n: nat)
    ensures ValueOf(Decimal(n)) == n && Decimal(n) != ""
    ensures forall c | c in Decimal(n) :: '0' <= c <= '9'
    ensures n > 0 ==> Decimal(n)[0] != '0'
  {
    if n >= 10 {
      DecimalReads(n / 10);
      var before, last := Decimal(n / 10), [('0' as int + n % 10) as char];
      assert Decimal(n)[..|before|] == before;
    } else {
      assert Decimal(n)[..0] == "";
    }
  }
}
