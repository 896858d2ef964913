/** What the small text helpers mean: white space, stripping, lower case and normalised texts. */
module TextLaws {
  import opened Wrappers

  /** The characters that Python takes for white space, by their numbers. */
  lemma SpaceIff(c: char)
    ensures IsSpace(c) <==>
      c as int in {9, 10, 11, 12, 13, 28, 29, 30, 31, 32, 133, 160, 5760, 8192, 8193, 8194, 8195, 8196, 8197, 8198,
                   8199, 8200, 8201, 8202, 8232, 8233, 8239, 8287, 12288}
  {
  }

  /** Stripping removes white space at both ends, and nothing else. */
  lemma StripIff(s: string) returns (lead: nat, trail: nat)
    ensures lead + |Strip(s)| + trail == |s| && Strip(s) == s[lead..lead + |Strip(s)|]
    ensures forall i | 0 <= i < lead :: IsSpace(s[i])
    ensures forall i | lead + |Strip(s)| <= i < |s| :: IsSpace(s[i])
    ensures Strip(s) != "" ==> !IsSpace(Strip(s)[0]) && !IsSpace(Strip(s)[|Strip(s)| - 1])
  {
    lead := StrippedLeft(s);
    var left := StripLeft(s);
    trail := StrippedRight(left);
    forall i | lead + |Strip(s)| <= i < |s| ensures IsSpace(s[i]) {
      assert left[i - lead] == s[i];
    }
    assert left[..|Strip(s)|] == s[lead..lead + |Strip(s)|];
  }

  lemma {:induction false} StrippedLeft(s: string) returns (lead: nat)
    ensures lead <= |s| && StripLeft(s) == s[lead..] && forall i | 0 <= i < lead :: IsSpace(s[i])
    ensures StripLeft(s) != "" ==> !IsSpace(StripLeft(s)[0])
  {
    lead := 0;
    if s != [] && IsSpace(s[0]) {
      lead := StrippedLeft(s[1..]);
      assert s[1..][lead..] == s[lead + 1..];
      forall i | 0 <= i < lead + 1 ensures IsSpace(s[i]) {
        assert i > 0 ==> s[1..][i - 1] == s[i];
      }
      lead := lead + 1;
    }
  }

  lemma {:induction false} StrippedRight(s: string) returns (trail: nat)
    ensures trail <= |s| && StripRight(s) == s[..|s| - trail]
    ensures forall i | |s| - trail <= i < |s| :: IsSpace(s[i])
    ensures StripRight(s) != "" ==> !IsSpace(StripRight(s)[|StripRight(s)| - 1])
  {
    trail := 0;
    if s != [] && IsSpace(s[|s| - 1]) {
      trail := StrippedRight(s[..|s| - 1]);
      trail := trail + 1;
    }
  }

  /** Lower-casing turns the ASCII capitals into small letters, and leaves all other characters. */
  lemma LowerIs(s: string, i: nat)
    requires i < |s|
    ensures 65 <= s[i] as int <= 90 ==> Lower(s)[i] as int == s[i] as int + 32
    ensures !(65 <= s[i] as int <= 90) ==> Lower(s)[i] == s[i]
  {
  }

  // ----- words -----

  /** The length of the word at the beginning of a text. */
  function WordEnd(s: string): (n: nat)
    ensures n <= |s|
    ensures s != "" && !IsSpace(s[0]) ==> n > 0
  {
    if s == "" || IsSpace(s[0]) then 0 else 1 + WordEnd(s[1..])
  }

  /** The words of a text: its longest stretches without white space. */
  function Words(s: string): seq<string> {
    if s == "" then []
    else if IsSpace(s[0]) then Words(s[1..])
    else [s[..WordEnd(s)]] + Words(s[WordEnd(s)..])
  }

  function Joined(words: seq<string>): string {
    if words == [] then "" else if |words| == 1 then words[0] else words[0] + " " + Joined(words[1..])
  }

  lemma WordsAfterLetter(s: string)
    requires s != "" && !IsSpace(s[0])
    ensures var rest := s[1..];
      Words(s) == if rest == "" || IsSpace(rest[0]) then [s[..1]] + Words(rest)
                  else [[s[0]] + Words(rest)[0]] + Words(rest)[1..]
    ensures s[1..] != "" && !IsSpace(s[1]) ==> Words(s[1..]) != []
  {
    var rest := s[1..];
    var n := WordEnd(rest);
    SlicesAfterLetter(s, n);
    assert Words(s) == [s[..1 + n]] + Words(rest[n..]);
    if rest == "" || IsSpace(rest[0]) {
      assert n == 0 && rest[0..] == rest;
    } else {
      assert Words(rest) == [rest[..n]] + Words(rest[n..]);
    }
  }

  lemma SlicesAfterLetter(s: string, n: nat)
    requires s != "" && n <= |s| - 1
    ensures s[..1 + n] == [s[0]] + s[1..][..n] && s[1 + n..] == s[1..][n..]
  {
  }

  /** Squeezing joins the words by one blank, and keeps one blank before them if the text begins with white space. */
  lemma {:induction false} SqueezeIs(s: string)
    ensures Squeeze(s) == (if s != "" && IsSpace(s[0]) && Words(s) != [] then " " else "") + Joined(Words(s))
  {
    if s != "" {
      var rest := s[1..];
      SqueezeIs(rest);
      if !IsSpace(s[0]) {
        WordsAfterLetter(s);
      } else {
        JoinedBegins(rest);
      }
    }
  }

  /** What is joined begins with a letter of the first word. */
  lemma {:induction false} JoinedBegins(s: string)
    ensures Words(s) != [] <==> Joined(Words(s)) != ""
    ensures Words(s) != [] ==> Words(s)[0] != "" && !IsSpace(Words(s)[0][0]) && Joined(Words(s))[0] == Words(s)[0][0]
  {
    if s != "" && IsSpace(s[0]) {
      JoinedBegins(s[1..]);
    }
  }

  /** A normalised text is the words of the text, in lower case, joined by single blanks. */
  lemma NormalizeIs(s: string)
    ensures Normalize(s) == Joined(Words(Lower(Strip(s))))
  {
    var text := Lower(Strip(s));
    SqueezeIs(text);
    var lead, trail := StripIff(s);
    if text != "" {
      LowerIs(Strip(s), 0);
    }
  }
}
