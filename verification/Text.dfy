/** The string handling the store and the query options share: trimming and lower-casing. */
module Text {

  predicate IsSpace(c: char) {
    c == ' ' || '\t' <= c <= '\r'
  }

  function LowerChar(c: char): (r: char)
    ensures IsSpace(r) <==> IsSpace(c)
    ensures !('A' <= r <= 'Z')
  {
    if 'A' <= c <= 'Z' then c - 'A' + 'a' else c
  }

  function TrimLeft(s: string): string {
    if s != [] && IsSpace(s[0]) then TrimLeft(s[1..]) else s
  }

  function TrimRight(s: string): string {
    if s != [] && IsSpace(s[|s| - 1]) then TrimRight(s[..|s| - 1]) else s
  }

  function ToLower(s: string): (r: string)
    ensures |r| == |s|
  {
    seq(|s|, i requires 0 <= i < |s| => LowerChar(s[i]))
  }

  /** The normal form of a tag: lower case, no surrounding white space. */
  function Normal(s: string): string {
    ToLower(TrimRight(TrimLeft(s)))
  }

  /** Case-insensitive equality. */
  predicate EqualFold(a: string, b: string) {
    ToLower(a) == ToLower(b)
  }

  ghost predicate Trimmed(s: string) {
    s == [] || (!IsSpace(s[0]) && !IsSpace(s[|s| - 1]))
  }

  lemma {:induction false} TrimLeftStart(s: string)
    ensures TrimLeft(s) == [] || !IsSpace(TrimLeft(s)[0])
  {
    if s != [] && IsSpace(s[0]) {
      TrimLeftStart(s[1..]);
    }
  }

  lemma {:induction false} TrimRightEnds(s: string)
    ensures TrimRight(s) == [] || (TrimRight(s)[0] == s[0] && !IsSpace(TrimRight(s)[|TrimRight(s)| - 1]))
  {
    if s != [] && IsSpace(s[|s| - 1]) {
      TrimRightEnds(s[..|s| - 1]);
    }
  }

  lemma NormalTrimmed(s: string)
    ensures Trimmed(Normal(s))
  {
    TrimLeftStart(s);
    TrimRightEnds(TrimLeft(s));
  }

  /** Normalising a stored tag again changes nothing, so rewriting a stored unit keeps its tags. */
  lemma NormalIdempotent(s: string)
    ensures Normal(Normal(s)) == Normal(s)
  {
    var t := Normal(s);
    NormalTrimmed(s);
    assert TrimRight(TrimLeft(t)) == t;
    assert forall i :: 0 <= i < |t| ==> LowerChar(t[i]) == t[i];
  }

  // ---- What the normal form keeps ----

  predicate IsUpperOf(c: char, d: char) {
    'A' <= c <= 'Z' && d as int == c as int + 32
  }

  /** Both strings agree letter by letter, up to case. */
  predicate SameLetters(a: string, b: string) {
    |a| == |b| && forall i :: 0 <= i < |a| ==> a[i] == b[i] || IsUpperOf(a[i], b[i]) || IsUpperOf(b[i], a[i])
  }

  /** Only the space, the tab and the four characters that follow it. */
  predicate IsBlank(s: string) {
    forall i :: 0 <= i < |s| ==> s[i] as int == 32 || 9 <= s[i] as int <= 13
  }

  lemma EqualFoldExactly(a: string, b: string)
    ensures EqualFold(a, b) <==> SameLetters(a, b)
  {
    if ToLower(a) == ToLower(b) {
      forall i | 0 <= i < |a| ensures a[i] == b[i] || IsUpperOf(a[i], b[i]) || IsUpperOf(b[i], a[i]) {
        assert ToLower(a)[i] == ToLower(b)[i];
      }
    }
  }

  lemma TrimmedStays(s: string)
    requires Trimmed(s)
    ensures Normal(s) == ToLower(s)
  {
  }

  /** Two trimmed tags are one tag exactly when they agree letter by letter up to case. */
  lemma NormalExactly(s: string, t: string)
    requires Trimmed(s) && Trimmed(t)
    ensures Normal(s) == Normal(t) <==> SameLetters(s, t)
  {
    TrimmedStays(s);
    TrimmedStays(t);
    EqualFoldExactly(s, t);
  }

  lemma {:induction false} TrimLeftDropsBlanks(a: string, s: string)
    requires IsBlank(a) && (s == [] || !IsSpace(s[0]))
    ensures TrimLeft(a + s) == s
  {
    if a == [] {
      assert a + s == s;
    } else {
      assert (a + s)[1..] == a[1..] + s;
      TrimLeftDropsBlanks(a[1..], s);
    }
  }

  lemma {:induction false} TrimRightDropsBlanks(s: string, b: string)
    requires IsBlank(b) && (s == [] || !IsSpace(s[|s| - 1]))
    ensures TrimRight(s + b) == s
  {
    if b == [] {
      assert s + b == s;
    } else {
      assert (s + b)[..|s + b| - 1] == s + b[..|b| - 1];
      TrimRightDropsBlanks(s, b[..|b| - 1]);
    }
  }

  /** White space around a tag does not count, and a tag of white space alone is empty. */
  lemma NormalTrims(a: string, core: string, b: string)
    requires IsBlank(a) && IsBlank(b)
    requires core != [] ==> !IsBlank(core[..1]) && !IsBlank(core[|core| - 1..])
    ensures Normal(a + core + b) == Normal(core)
    ensures core == [] ==> Normal(a + core + b) == []
  {
    assert core != [] ==> core[..1][0] == core[0] && core[|core| - 1..][0] == core[|core| - 1];
    TrimmedStays(core);
    if core == [] {
      TrimLeftDropsBlanks(a + b, []);
      assert a + core + b == a + b + [];
    } else {
      assert a + core + b == a + (core + b);
      TrimLeftDropsBlanks(a, core + b);
      TrimRightDropsBlanks(core, b);
    }
  }
}
