/**
 * The three Python string operations the extraction step relies on:
 * `str.strip()`, `str.count(ch)` for a one-character argument, and
 * repetition `ch * n`.
 */
module PyStr {

  /** Python's `str.isspace()` on one character: the characters `str.strip()` removes. */
  predicate IsSpace(c: char) {
    || c == ' '
    || ('\t' <= c <= '\r')
    || ('\U{1C}' <= c <= '\U{1F}')
    || c == '\U{85}'
    || c == '\U{A0}'
    || c == '\U{1680}'
    || ('\U{2000}' <= c <= '\U{200A}')
    || c == '\U{2028}'
    || c == '\U{2029}'
    || c == '\U{202F}'
    || c == '\U{205F}'
    || c == '\U{3000}'
  }

  predicate AllSpace(s: string) {
    forall i :: 0 <= i < |s| ==> IsSpace(s[i])
  }

  /** The number of whitespace characters `s.lstrip()` drops from the front of `s`. */
  function LeadingSpace(s: string): (n: nat)
    ensures n <= |s| && AllSpace(s[..n])
    ensures n < |s| ==> !IsSpace(s[n])
  {
    if s != [] && IsSpace(s[0]) then
      var m := LeadingSpace(s[1..]);
      assert forall i :: 1 <= i < 1 + m ==> s[i] == s[1..][..m][i - 1];
      1 + m
    else
      0
  }

  /** The number of whitespace characters `s.rstrip()` drops from the end of `s`. */
  function TrailingSpace(s: string): (n: nat)
    ensures n <= |s| && AllSpace(s[|s| - n..])
    ensures n < |s| ==> !IsSpace(s[|s| - n - 1])
  {
    if s != [] && IsSpace(s[|s| - 1]) then
      var m := TrailingSpace(s[..|s| - 1]);
      assert forall i :: |s| - 1 - m <= i < |s| - 1 ==> s[i] == s[..|s| - 1][|s| - 1 - m..][i - (|s| - 1 - m)];
      1 + m
    else
      0
  }

  /**
   * `s.strip()`: `s` with its leading and trailing whitespace cut off. It is
   * the piece of `s` left after dropping a whitespace-only front and back,
   * it is empty exactly when `s` is all whitespace, and otherwise it neither
   * starts nor ends with whitespace.
   */
  function Strip(s: string): (r: string)
    ensures |r| <= |s|
    ensures exists lead: nat, trail: nat :: Cut(s, lead, trail, r)
    ensures r == [] <==> AllSpace(s)
    ensures r != [] ==> !IsSpace(r[0]) && !IsSpace(r[|r| - 1])
  {
    var lead := LeadingSpace(s);
    if lead == |s| then
      assert s[..lead] == s;
      assert Cut(s, lead, 0, []);
      []
    else
      var t := s[lead..];
      var trail := TrailingSpace(t);
      assert trail < |t|;
      assert t[..|t| - trail] == s[lead..|s| - trail] && t[|t| - trail..] == s[|s| - trail..];
      assert Cut(s, lead, trail, t[..|t| - trail]);
      t[..|t| - trail]
  }

  /** `r` is `s` without its first `lead` and last `trail` characters, all of them whitespace. */
  predicate Cut(s: string, lead: nat, trail: nat, r: string) {
    && lead + trail <= |s|
    && r == s[lead..|s| - trail]
    && AllSpace(s[..lead])
    && AllSpace(s[|s| - trail..])
  }

  /** `s.count(c)` for a single character `c`. */
  function CountChar(s: string, c: char): nat {
    if s == [] then 0 else (if s[0] == c then 1 else 0) + CountChar(s[1..], c)
  }

  /** `CountChar` is the multiplicity of `c` in `s`. */
  lemma {:induction false} CountCharMultiplicity(s: string, c: char)
    ensures CountChar(s, c) == multiset(s)[c]
  {
    if s != [] {
      CountCharMultiplicity(s[1..], c);
      assert s == [s[0]] + s[1..];
    }
  }

  /** Stripping never drops a character that is not whitespace, so it leaves its count alone. */
  lemma StripKeepsCount(s: string, c: char)
    requires !IsSpace(c)
    ensures CountChar(Strip(s), c) == CountChar(s, c)
  {
    CountCharMultiplicity(s, c);
    CountCharMultiplicity(Strip(s), c);
    var lead := LeadingSpace(s);
    if lead == |s| {
      assert s[..lead] == s;
      NoSpaceCharIn(s, c);
    } else {
      var trail := TrailingSpace(s[lead..]);
      assert Strip(s) == s[lead..][..|s| - lead - trail];
      StripSplit(s, lead, trail, c);
    }
  }

  /** `s` is its stripped part with the dropped whitespace on either side. */
  lemma StripSplit(s: string, lead: nat, trail: nat, c: char)
    requires lead + trail <= |s| && !IsSpace(c)
    requires AllSpace(s[..lead]) && AllSpace(s[lead..][|s| - lead - trail..])
    ensures multiset(s)[c] == multiset(s[lead..][..|s| - lead - trail])[c]
  {
    var t := s[lead..];
    var front, mid, back := s[..lead], t[..|t| - trail], t[|t| - trail..];
    assert s == front + (mid + back) by {
      assert t == mid + back;
      assert s == front + t;
    }
    SpaceAround(s, front, mid, back, c);
  }

  /** Whitespace on either side of `mid` adds no occurrence of a non-space character. */
  lemma SpaceAround(s: string, front: string, mid: string, back: string, c: char)
    requires s == front + (mid + back)
    requires AllSpace(front) && AllSpace(back) && !IsSpace(c)
    ensures multiset(s)[c] == multiset(mid)[c]
  {
    NoSpaceCharIn(front, c);
    NoSpaceCharIn(back, c);
    assert multiset(s) == multiset(front) + multiset(mid) + multiset(back);
  }

  lemma NoSpaceCharIn(s: string, c: char)
    requires AllSpace(s) && !IsSpace(c)
    ensures multiset(s)[c] == 0
  {
    assert c !in s by {
      assert forall i :: 0 <= i < |s| ==> s[i] != c;
    }
  }

  /** `c * n` in Python terms: `n` copies of `c`. */
  function Repeat(c: char, n: nat): (r: string)
    ensures |r| == n && forall i :: 0 <= i < n ==> r[i] == c
  {
    seq(n, _ => c)
  }
}
