/** Failure-free wrappers and the small text helpers the other modules share. */
module Wrappers {

  datatype Option<+T> = None | Some(value: T)

  /** Bytes of a file. Encoding is not modelled: one character stands for one byte. */
  type Bytes = string

  /** The characters Python's str.strip() and str.split() treat as white space. */
  predicate IsSpace(c: char) {
    '\t' <= c <= '\r' || '\U{1c}' <= c <= ' ' || c == '\U{85}' || c == '\U{a0}' || c == '\U{1680}'
    || '\U{2000}' <= c <= '\U{200a}' || c == '\U{2028}' || c == '\U{2029}' || c == '\U{202f}'
    || c == '\U{205f}' || c == '\U{3000}'
  }

  function StripLeft(s: string): string {
    if s == [] || !IsSpace(s[0]) then s else StripLeft(s[1..])
  }

  function StripRight(s: string): string {
    if s == [] || !IsSpace(s[|s| - 1]) then s else StripRight(s[..|s| - 1])
  }

  function Strip(s: string): string {
    StripRight(StripLeft(s))
  }

  /** Lower-casing, on ASCII letters only. */
  function Lower(s: string): (r: string)
    ensures |r| == |s|
  {
    seq(|s|, i requires 0 <= i < |s| => if 'A' <= s[i] <= 'Z' then s[i] + 32 as char else s[i])
  }

  /** Lower-case `s` and replace every run of white space by one blank: `" ".join(s.strip().lower().split())`. */
  function Normalize(s: string): string {
    Squeeze(Lower(Strip(s)))
  }

  /** Every run of white space becomes one blank, and a run at the end disappears. */
  function Squeeze(s: string): string {
    if s == [] then []
    else if !IsSpace(s[0]) then [s[0]] + Squeeze(s[1..])
    else
      var rest := Squeeze(s[1..]);
      if rest == [] || rest[0] == ' ' then rest else [' '] + rest
  }

  /** `needle in hay` on strings. */
  predicate Contains(hay: string, needle: string) {
    exists i | 0 <= i <= |hay| :: needle <= hay[i..]
  }

  /** `part` is a stretch of `whole`. */
  ghost predicate StandsIn(part: string, whole: string) {
    exists before, after :: whole == before + part + after
  }

  lemma ContainsIff(hay: string, needle: string)
    ensures Contains(hay, needle) <==> StandsIn(needle, hay)
  {
    if i :| 0 <= i <= |hay| && needle <= hay[i..] {
      assert hay == hay[..i] + needle + hay[i + |needle|..];
    }
    if before, after :| hay == before + needle + after {
      assert hay[|before|..] == needle + after;
    }
  }

  function AtLeastOne(n: int): nat {
    if n < 1 then 1 else n
  }

  lemma {:induction false} SubsetCardinality<T>(a: set<T>, b: set<T>)
    requires a <= b
    ensures |a| <= |b|
  {
    if a != {} {
      var x :| x in a;
      SubsetCardinality(a - {x}, b - {x});
    }
  }
}
