/** A marked block in a Markdown file: inserting or replacing it, and removing it again. */
module Markdown {
  import opened Prelude
  import opened Installer

  /** None is a missing file. */
  datatype Edit = Edit(text: Option<string>, action: Action)

  predicate At(s: string, m: string, i: nat) {
    i + |m| <= |s| && s[i..i + |m|] == m
  }

  function FindFrom(s: string, m: string, i: nat): Option<nat>
    decreases |s| + 1 - i
  {
    if i > |s| then None else if At(s, m, i) then Some(i) else FindFrom(s, m, i + 1)
  }

  /** The first occurrence of `m`. */
  function Find(s: string, m: string): Option<nat> {
    FindFrom(s, m, 0)
  }

  ghost predicate Occurs(s: string, m: string) {
    exists i: nat :: At(s, m, i)
  }

  /** `text.rstrip("\\n")` */
  function StripRight(s: string): string {
    if s != "" && s[|s| - 1] == '\n' then StripRight(s[..|s| - 1]) else s
  }

  function StripLeft(s: string): string {
    if s != "" && s[0] == '\n' then StripLeft(s[1..]) else s
  }

  function Strip(s: string): string {
    StripLeft(StripRight(s))
  }

  function Upsert(text: Option<string>, start: string, end: string, content: string): Edit {
    match text
    case None => Edit(Some(content + "\n"), Created)
    case Some(t) =>
      var s, e := Find(t, start), Find(t, end);
      if s.None? then Edit(Some(StripRight(t) + "\n\n" + content + "\n"), Updated)
      else if e.None? || e.value < s.value then Edit(text, Skipped)
      else BlockAtIsIn(t, end, e.value); if t[s.value..e.value + |end|] == content then Edit(text, Unchanged)
      else Edit(Some(t[..s.value] + content + t[e.value + |end|..]), Updated)
  }

  function Remove(text: Option<string>, start: string, end: string): Edit {
    match text
    case None => Edit(text, Unchanged)
    case Some(t) =>
      var s, e := Find(t, start), Find(t, end);
      if s.None? then Edit(text, Unchanged)
      else if e.None? || e.value < s.value then Edit(text, Skipped)
      else
        BlockAtIsIn(t, end, e.value);
        var rest := Strip(t[..s.value] + t[e.value + |end|..]);
        if rest == "" then Edit(None, Removed) else Edit(Some(rest + "\n"), Removed)
  }

  lemma {:induction false} FindFromIs(s: string, m: string, i: nat)
    ensures match FindFrom(s, m, i)
            case None => forall j :: i <= j ==> !At(s, m, j)
            case Some(k) => i <= k && At(s, m, k) && forall j :: i <= j < k ==> !At(s, m, j)
    decreases |s| + 1 - i
  {
    if i <= |s| && !At(s, m, i) {
      FindFromIs(s, m, i + 1);
    }
  }

  /** `Find` answers the first position at which the marker occurs, if there is one. */
  lemma FindIs(s: string, m: string)
    ensures Find(s, m) == None <==> !Occurs(s, m)
    ensures Find(s, m).Some? ==>
              At(s, m, Find(s, m).value) && forall j: nat :: j < Find(s, m).value ==> !At(s, m, j)
  {
    FindFromIs(s, m, 0);
  }

  lemma BlockAtIsIn(s: string, m: string, i: nat)
    requires Find(s, m) == Some(i)
    ensures i + |m| <= |s|
  {
    FindIs(s, m);
  }

  lemma FoundAt(s: string, m: string, i: nat)
    requires At(s, m, i) && forall j: nat :: j < i ==> !At(s, m, j)
    ensures Find(s, m) == Some(i)
  {
    FindIs(s, m);
    assert Occurs(s, m);
  }

  // ---- Markers and blocks ----

  ghost predicate OneLine(m: string) {
    m != "" && '\n' !in m
  }

  /** Two markers on one line each, the start marker not part of the end marker. */
  ghost predicate Markers(start: string, end: string) {
    OneLine(start) && OneLine(end) && !Occurs(end, start)
  }

  /** `content` begins with the start marker and ends with the only end marker in it. */
  ghost predicate IsBlock(content: string, start: string, end: string) {
    |content| >= |end| && Find(content, start) == Some(0) && Find(content, end) == Some(|content| - |end|)
  }

  /** The text has an end marker but no start marker before it. */
  ghost predicate StrayEnd(t: string, start: string, end: string) {
    !Occurs(t, start) && Occurs(t, end)
  }

  lemma AtSuffix(a: string, b: string, m: string, i: nat)
    ensures At(a + b, m, |a| + i) <==> At(b, m, i)
  {
    if i + |m| <= |b| {
      assert (a + b)[|a| + i..|a| + i + |m|] == b[i..i + |m|];
    }
  }

  lemma AtPrefix(a: string, b: string, m: string, i: nat)
    requires i + |m| <= |a|
    ensures At(a + b, m, i) <==> At(a, m, i)
  {
    assert (a + b)[i..i + |m|] == a[i..i + |m|];
  }

  /** A one-line marker cannot cross the end of a line. */
  lemma AtBreak(a: string, b: string, m: string, i: nat)
    requires OneLine(m) && i < |a| < i + |m| && a[|a| - 1] == '\n'
    ensures !At(a + b, m, i)
  {
    var k := |a| - 1 - i;
    assert m[k] in m;
    if i + |m| <= |a + b| {
      assert (a + b)[i..i + |m|][k] == (a + b)[i + k] == '\n';
    }
  }

  /** Behind a line break the first marker is the first marker of what follows, if none came before. */
  lemma FindBehindBreak(a: string, b: string, m: string)
    requires OneLine(m) && (a == "" || a[|a| - 1] == '\n') && !Occurs(a, m) && Find(b, m).Some?
    ensures Find(a + b, m) == Some(|a| + Find(b, m).value)
  {
    var k := Find(b, m).value;
    FindIs(b, m);
    AtSuffix(a, b, m, k);
    forall j: nat | j < |a| + k ensures !At(a + b, m, j) {
      if j >= |a| {
        AtSuffix(a, b, m, j - |a|);
      } else if j + |m| <= |a| {
        AtPrefix(a, b, m, j);
      } else {
        AtBreak(a, b, m, j);
      }
    }
    FoundAt(a + b, m, |a| + k);
  }

  lemma FindBefore(a: string, b: string, m: string)
    requires Find(a, m).Some?
    ensures Find(a + b, m) == Find(a, m)
  {
    var k := Find(a, m).value;
    FindIs(a, m);
    AtPrefix(a, b, m, k);
    forall j: nat | j < k ensures !At(a + b, m, j) {
      AtPrefix(a, b, m, j);
    }
    FoundAt(a + b, m, k);
  }

  // ---- Stripping newlines ----

  ghost predicate Newlines(s: string) {
    forall i :: 0 <= i < |s| ==> s[i] == '\n'
  }

  /** `t` is `core` between newlines, and `core` neither begins nor ends with one. */
  ghost predicate IsSplit(t: string, a: string, core: string, b: string) {
    && t == a + core + b && Newlines(a) && Newlines(b)
    && (core != "" ==> core[0] != '\n' && core[|core| - 1] != '\n')
  }

  lemma {:induction false} StripRightPrefix(s: string)
    ensures |StripRight(s)| <= |s| && StripRight(s) == s[..|StripRight(s)|]
    ensures forall i :: |StripRight(s)| <= i < |s| ==> s[i] == '\n'
    ensures StripRight(s) != "" ==> StripRight(s)[|StripRight(s)| - 1] != '\n'
  {
    if s != "" && s[|s| - 1] == '\n' {
      StripRightPrefix(s[..|s| - 1]);
    }
  }

  lemma {:induction false} StripLeftSuffix(s: string)
    ensures |StripLeft(s)| <= |s| && StripLeft(s) == s[|s| - |StripLeft(s)|..]
    ensures forall i :: 0 <= i < |s| - |StripLeft(s)| ==> s[i] == '\n'
    ensures StripLeft(s) != "" ==> StripLeft(s)[0] != '\n'
  {
    if s != "" && s[0] == '\n' {
      StripLeftSuffix(s[1..]);
    }
  }

  /** Stripping leaves what stands between the outer newlines of a text. */
  lemma StripSplits(t: string) returns (a: string, b: string)
    ensures IsSplit(t, a, Strip(t), b)
  {
    var r := StripRight(t);
    StripRightPrefix(t);
    StripLeftSuffix(r);
    a, b := r[..|r| - |Strip(t)|], t[|r|..];
    assert r == a + Strip(t) && t == r + b;
    assert Strip(t) != "" ==> Strip(t)[|Strip(t)| - 1] == r[|r| - 1];
  }

  /** A text splits in one way only, up to where an empty core stands. */
  lemma SplitIsUnique(t: string, a: string, core: string, b: string, a': string, core': string, b': string)
    requires IsSplit(t, a, core, b) && IsSplit(t, a', core', b')
    ensures core == core' && (core == "" <==> Newlines(t))
  {
    SplitStarts(t, a, core, b);
    SplitStarts(t, a', core', b');
  }

  /** The core is what stands from the first to the last character that is no newline. */
  lemma SplitStarts(t: string, a: string, core: string, b: string)
    requires IsSplit(t, a, core, b)
    ensures core == "" <==> Newlines(t)
    ensures core != "" ==>
      var n := |a| + |core|;
      && core == t[|a|..n] && t[|a|] != '\n' && t[n - 1] != '\n'
      && (forall i :: 0 <= i < |a| ==> t[i] == '\n') && (forall i :: n <= i < |t| ==> t[i] == '\n')
  {
    if core != "" {
      assert t[|a|] == core[0];
    }
  }

  lemma StripIs(t: string, a: string, core: string, b: string)
    requires IsSplit(t, a, core, b)
    ensures Strip(t) == core && (core == "" <==> Newlines(t))
  {
    hide Strip, IsSplit;
    var a', b' := StripSplits(t);
    SplitIsUnique(t, a, core, b, a', Strip(t), b');
  }

  lemma {:induction false} StripRightOfNewlines(s: string, newlines: string)
    requires forall i :: 0 <= i < |newlines| ==> newlines[i] == '\n'
    ensures StripRight(s + newlines) == StripRight(s)
  {
    if newlines == "" {
      assert s + newlines == s;
    } else {
      var init := newlines[..|newlines| - 1];
      assert (s + newlines)[..|s + newlines| - 1] == s + init;
      StripRightOfNewlines(s, init);
    }
  }

  lemma StripRightTwice(s: string)
    ensures StripRight(StripRight(s)) == StripRight(s)
  {
    StripRightPrefix(s);
    StripRightOfNewlines(StripRight(s), s[|StripRight(s)|..]);
    assert StripRight(s) + s[|StripRight(s)|..] == s;
  }

  /** Stripping a text does not bring a marker into it. */
  lemma StripRightKeepsMarkers(s: string, m: string)
    requires OneLine(m)
    ensures Occurs(StripRight(s), m) <==> Occurs(s, m)
  {
    StripRightPrefix(s);
    var r := StripRight(s);
    var rest := s[|r|..];
    assert r + rest == s;
    if Occurs(r, m) {
      var i: nat :| At(r, m, i);
      AtPrefix(r, rest, m, i);
    }
    assert m[|m| - 1] in m;
    forall i: nat | |r| < i + |m| <= |s| ensures !At(s, m, i) {
      assert s[i..i + |m|][|m| - 1] == s[i + |m| - 1] == '\n';
    }
    if Occurs(s, m) {
      var i: nat :| At(s, m, i);
      AtPrefix(r, rest, m, i);
    }
  }

  // ---- Appending a block ----

  /** What precedes a block appended to `t`. */
  function Lead(t: string): string {
    StripRight(t) + "\n\n"
  }

  lemma LeadKeepsMarkers(t: string, m: string)
    requires OneLine(m)
    ensures Occurs(Lead(t), m) <==> Occurs(t, m)
  {
    StripRightKeepsMarkers(t, m);
    StripRightOfNewlines(StripRight(t), "\n\n");
    StripRightTwice(t);
    StripRightKeepsMarkers(Lead(t), m);
  }

  /** Where the markers are once a block has been appended. */
  lemma AppendedBlock(t: string, start: string, end: string, content: string)
    requires Markers(start, end) && IsBlock(content, start, end) && !Occurs(t, start)
    ensures var after := Lead(t) + content + "\n";
      && Find(after, start) == Some(|Lead(t)|)
      && Find(after, end).Some?
      && (!Occurs(t, end) ==> Find(after, end) == Some(|Lead(t)| + |content| - |end|))
      && (Occurs(t, end) ==> Find(after, end).value < |Lead(t)|)
  {
    var lead := Lead(t);
    var after := lead + content + "\n";
    assert after == lead + (content + "\n");
    LeadKeepsMarkers(t, start);
    LeadKeepsMarkers(t, end);
    FindBefore(content, "\n", start);
    FindBefore(content, "\n", end);
    FindBehindBreak(lead, content + "\n", start);
    if Occurs(t, end) {
      FindIs(lead, end);
      FindBefore(lead, content + "\n", end);
    } else {
      FindBehindBreak(lead, content + "\n", end);
    }
  }

  lemma RoundTripStrips(t: string, start: string, end: string, content: string)
    requires Markers(start, end) && IsBlock(content, start, end) && !Occurs(t, start)
    ensures var after := Upsert(Some(t), start, end, content);
            var back := Remove(after.text, start, end);
      && after.action == Updated
      && (Occurs(t, end) ==> back == Edit(after.text, Skipped))
      && (!Occurs(t, end) ==> back == Edit(if Strip(t) == "" then None else Some(Strip(t) + "\n"), Removed))
  {
    hide Find, Strip, Occurs;
    FindIs(t, start);
    AppendedBlock(t, start, end, content);
    var lead := Lead(t);
    var after := lead + content + "\n";
    assert Upsert(Some(t), start, end, content).text == Some(after);
    if !Occurs(t, end) {
      assert after[..|lead|] == lead && after[|lead| + |content|..] == "\n";
      StripOfLead(t);
    }
  }

  lemma StripOfLead(t: string)
    ensures Strip(Lead(t) + "\n") == Strip(t)
  {
    assert Lead(t) + "\n" == StripRight(t) + "\n\n\n";
    StripRightOfNewlines(StripRight(t), "\n\n\n");
    StripRightTwice(t);
  }

  /**
   For a text without the start marker, removing the block that was inserted yields what stands between the outer
   newlines of the text and one final newline, and deletes the file exactly when the text holds nothing but
   newlines. With a stray end marker in the text the block is found malformed and stays.
   */
  lemma RoundTrip(
    t: string, a: string, core: string, b: string, start: string, end: string, content: string)
    requires Markers(start, end) && IsBlock(content, start, end) && !Occurs(t, start) && IsSplit(t, a, core, b)
    ensures var after := Upsert(Some(t), start, end, content);
            var back := Remove(after.text, start, end);
      && after.action == Updated
      && (Occurs(t, end) ==> back == Edit(after.text, Skipped))
      && (!Occurs(t, end) ==> back == Edit(if Newlines(t) then None else Some(core + "\n"), Removed))
  {
    hide Strip, Upsert, Remove, Newlines, IsSplit;
    RoundTripStrips(t, start, end, content);
    StripIs(t, a, core, b);
  }

  /** An inserted block follows the text, without its final newlines, after one blank line. */
  lemma InsertedBlock(t: string, body: string, newlines: string, start: string, end: string, content: string)
    requires !Occurs(t, start) && t == body + newlines && Newlines(newlines)
    requires body != "" ==> body[|body| - 1] != '\n'
    ensures Upsert(Some(t), start, end, content) == Edit(Some(body + "\n\n" + content + "\n"), Updated)
  {
    FindIs(t, start);
    StripRightOfNewlines(body, newlines);
  }

  /** The text itself comes back exactly when it begins with no newline and ends in just one. */
  lemma RestoredExactly(t: string, start: string, end: string, content: string)
    requires Markers(start, end) && IsBlock(content, start, end) && !Occurs(t, start) && !Occurs(t, end)
    ensures Remove(Upsert(Some(t), start, end, content).text, start, end).text == Some(t) <==>
            |t| >= 2 && t[0] != '\n' && t[|t| - 2] != '\n' && t[|t| - 1] == '\n'
  {
    hide Strip, Upsert, Remove, IsSplit, Occurs, Markers, IsBlock, Newlines;
    var a, b := StripSplits(t);
    var core := Strip(t);
    RoundTrip(t, a, core, b, start, end, content);
    LinesExactly(t, a, core, b);
  }

  /** The core and one newline make up a text exactly when it begins with no newline and ends in just one. */
  lemma LinesExactly(t: string, a: string, core: string, b: string)
    requires IsSplit(t, a, core, b)
    ensures !Newlines(t) && t == core + "\n" <==>
            |t| >= 2 && t[0] != '\n' && t[|t| - 2] != '\n' && t[|t| - 1] == '\n'
  {
    SplitStarts(t, a, core, b);
    if |t| >= 2 && t[0] != '\n' && t[|t| - 2] != '\n' && t[|t| - 1] == '\n' {
      assert t == "" + t[..|t| - 1] + "\n";
      SplitIsUnique(t, a, core, b, "", t[..|t| - 1], "\n");
    }
  }

  /** Removal takes a block out and leaves what stands between the outer newlines of the rest. */
  lemma RemovedBlock(t: string, start: string, end: string, a: string, core: string, b: string)
    requires HasBlock(t, start, end) && Find(t, end).value + |end| <= |t|
    requires IsSplit(t[..Find(t, start).value] + t[Find(t, end).value + |end|..], a, core, b)
    ensures Remove(Some(t), start, end) == Edit(if core == "" then None else Some(core + "\n"), Removed)
  {
    hide Strip, Find;
    StripIs(t[..Find(t, start).value] + t[Find(t, end).value + |end|..], a, core, b);
  }

  /** A file that did not exist is deleted again. */
  lemma MissingFileRoundTrip(start: string, end: string, content: string)
    requires Markers(start, end) && IsBlock(content, start, end)
    ensures Remove(Upsert(None, start, end, content).text, start, end) == Edit(None, Removed)
  {
    var after := content + "\n";
    FindBefore(content, "\n", start);
    FindBefore(content, "\n", end);
    assert after[..0] + after[|content|..] == "\n";
    assert StripRight("\n") == "";
  }

  // ---- Replacing a block ----

  /** The text holds a start marker with an end marker behind it. */
  ghost predicate HasBlock(t: string, start: string, end: string) {
    && Find(t, start).Some? && Find(t, end).Some?
    && Find(t, start).value <= Find(t, end).value
  }

  lemma ReplacedStart(a: string, rest: string, content: string, start: string)
    requires At(content, start, 0) && forall j: nat :: j < |a| ==> !At(a + start + rest, start, j)
    ensures Find(a + content, start) == Some(|a|)
  {
    hide Find;
    var shared, more := a + start, content[|start|..];
    assert content == start + more;
    assert a + content == shared + more;
    AtSuffix(a, content, start, 0);
    forall j: nat | j < |a| ensures !At(a + content, start, j) {
      AtPrefix(shared, rest, start, j);
      AtPrefix(shared, more, start, j);
    }
    FoundAt(a + content, start, |a|);
  }

  lemma ReplacedEnd(t: string, a: string, content: string, start: string, end: string)
    requires Markers(start, end) && IsBlock(content, start, end)
    requires a + start <= t && forall i: nat :: i < |a| ==> !At(t, end, i)
    ensures Find(a + content, end) == Some(|a| + |content| - |end|)
  {
    hide Markers;
    FindIs(content, start);
    FindIs(content, end);
    AtSuffix(a, content, end, |content| - |end|);
    forall j: nat | j < |a| + |content| - |end| ensures !At(a + content, end, j) {
      NoEarlierEnd(t, a, content, start, end, j);
    }
    FoundAt(a + content, end, |a| + |content| - |end|);
  }

  /** Replacing the block leaves a block between the same texts. */
  lemma ReplacedBlock(t: string, start: string, end: string, content: string)
    requires Markers(start, end) && IsBlock(content, start, end) && HasBlock(t, start, end)
    ensures var s, e := Find(t, start).value, Find(t, end).value;
      && e + |end| <= |t| && s <= |t|
      && var after := t[..s] + content + t[e + |end|..];
         Find(after, start) == Some(s) && Find(after, end) == Some(s + |content| - |end|)
  {
    hide Markers, Find;
    var s, e := Find(t, start).value, Find(t, end).value;
    FindIs(t, start);
    FindIs(t, end);
    FindIs(content, start);
    var a, b := t[..s], t[e + |end|..];
    var rest := t[s + |start|..];
    assert t == a + start + rest;
    ReplacedStart(a, rest, content, start);
    ReplacedEnd(t, a, content, start, end);
    FindBefore(a + content, b, start);
    FindBefore(a + content, b, end);
  }

  lemma NoEarlierEnd(t: string, a: string, content: string, start: string, end: string, j: nat)
    requires Markers(start, end) && IsBlock(content, start, end) && At(content, start, 0)
    requires a + start <= t && (forall i: nat :: i < |a| ==> !At(t, end, i))
    requires forall i: nat :: i < |content| - |end| ==> !At(content, end, i)
    requires j < |a| + |content| - |end|
    ensures !At(a + content, end, j)
  {
    var shared := a + start;
    assert t == shared + t[|shared|..];
    assert a + content == shared + content[|start|..];
    if j >= |a| {
      AtSuffix(a, content, end, j - |a|);
    } else if j + |end| <= |shared| {
      AtPrefix(shared, t[|shared|..], end, j);
      AtPrefix(shared, content[|start|..], end, j);
    } else {
      EndCoversStart(a, content, start, end, j);
      assert !At(end, start, |a| - j);
    }
  }

  /** An end marker that began before the block and reached past the start marker would contain it. */
  lemma EndCoversStart(a: string, content: string, start: string, end: string, j: nat)
    requires At(content, start, 0) && j < |a| && |a| + |start| <= j + |end|
    ensures At(a + content, end, j) ==> At(end, start, |a| - j)
  {
    hide At;
    AtIndexwise(content, start, 0);
    AtIndexwise(a + content, end, j);
    AtIndexwise(end, start, |a| - j);
    forall i | 0 <= i < |start| && j + |end| <= |a + content|
      ensures (a + content)[j + (|a| - j + i)] == start[i]
    {
      assert (a + content)[|a| + i] == content[0 + i];
    }
  }

  lemma AtIndexwise(s: string, m: string, i: nat)
    ensures At(s, m, i) <==> i + |m| <= |s| && forall k :: 0 <= k < |m| ==> s[i + k] == m[k]
  {
    if i + |m| <= |s| {
      var here := s[i..i + |m|];
      assert forall k :: 0 <= k < |here| ==> here[k] == s[i + k];
    }
  }

  /**
   Upserting `c1` and then `c2` leaves the text that upserting `c2` alone leaves, except where the first call
   appends a block behind a stray end marker and the second therefore refuses to touch it.
   */
  lemma LastUpsertWins(text: Option<string>, start: string, end: string, c1: string, c2: string)
    requires Markers(start, end) && IsBlock(c1, start, end)
    ensures Upsert(Upsert(text, start, end, c1).text, start, end, c2).text == Upsert(text, start, end, c2).text
            <==> c1 == c2 || text.None? || !StrayEnd(text.value, start, end)
  {
    hide Strip, StripRight;
    var once := Upsert(text, start, end, c1);
    if text.None? {
      AfterCreate(start, end, c1, c2);
    } else {
      var t := text.value;
      FindIs(t, start);
      FindIs(t, end);
      if Occurs(t, start) {
        if HasBlock(t, start, end) {
          AfterReplace(t, start, end, c1, c2);
        }
      } else {
        AfterAppend(t, start, end, c1, c2);
      }
    }
  }

  lemma AfterCreate(start: string, end: string, c1: string, c2: string)
    requires Markers(start, end) && IsBlock(c1, start, end)
    ensures Upsert(Some(c1 + "\n"), start, end, c2) ==
            Edit(Some(c2 + "\n"), if c1 == c2 then Unchanged else Updated)
  {
    FindBefore(c1, "\n", start);
    FindBefore(c1, "\n", end);
    var t := c1 + "\n";
    assert t[0..|c1|] == c1;
    assert t[..0] + c2 + t[|c1|..] == c2 + "\n";
  }

  lemma AfterReplace(t: string, start: string, end: string, c1: string, c2: string)
    requires Markers(start, end) && IsBlock(c1, start, end) && HasBlock(t, start, end)
    ensures Upsert(Upsert(Some(t), start, end, c1).text, start, end, c2).text == Upsert(Some(t), start, end, c2).text
    ensures c1 == c2 ==> Upsert(Upsert(Some(t), start, end, c1).text, start, end, c2).action == Unchanged
  {
    var s, e := Find(t, start).value, Find(t, end).value;
    ReplacedBlock(t, start, end, c1);
    var a, block, b := t[..s], t[s..e + |end|], t[e + |end|..];
    assert t == a + block + b;
    var t1 := a + c1 + b;
    assert Upsert(Some(t), start, end, c1).text == Some(t1);
    assert t1[..s] == a && t1[s..s + |c1|] == c1 && t1[s + |c1|..] == b;
    assert Upsert(Some(t1), start, end, c2).text == Some(a + c2 + b);
  }

  lemma AfterAppend(t: string, start: string, end: string, c1: string, c2: string)
    requires Markers(start, end) && IsBlock(c1, start, end) && !Occurs(t, start)
    ensures var again := Upsert(Upsert(Some(t), start, end, c1).text, start, end, c2);
      if Occurs(t, end) then again == Edit(Upsert(Some(t), start, end, c1).text, Skipped)
      else again == Edit(Upsert(Some(t), start, end, c2).text, if c1 == c2 then Unchanged else Updated)
    ensures c1 != c2 ==> Upsert(Some(t), start, end, c1).text != Upsert(Some(t), start, end, c2).text
  {
    hide StripRight, Occurs;
    FindIs(t, start);
    AppendedBlock(t, start, end, c1);
    var lead := Lead(t);
    var t1, t2 := lead + c1 + "\n", lead + c2 + "\n";
    assert t1[..|lead|] == lead && t1[|lead|..|lead| + |c1|] == c1 && t1[|lead| + |c1|..] == "\n";
    assert t1[|lead|..|t1| - 1] == c1 && t2[|lead|..|t2| - 1] == c2;
  }

  /** A second upsert of the same block is UNCHANGED, unless a stray end marker makes it SKIPPED. */
  lemma UpsertTwice(text: Option<string>, start: string, end: string, content: string)
    requires Markers(start, end) && IsBlock(content, start, end)
    requires Upsert(text, start, end, content).action != Skipped
    ensures var once := Upsert(text, start, end, content);
            var twice := Upsert(once.text, start, end, content);
      && twice.text == once.text
      && twice.action == if text.Some? && StrayEnd(text.value, start, end) then Skipped else Unchanged
  {
    hide Strip, StripRight;
    if text.None? {
      AfterCreate(start, end, content, content);
    } else {
      var t := text.value;
      FindIs(t, start);
      FindIs(t, end);
      if Occurs(t, start) {
        AfterReplace(t, start, end, content, content);
      } else {
        AfterAppend(t, start, end, content, content);
      }
    }
  }

  /** Removing a block does not depend on what it was replaced by. */
  lemma RemoveAfterReplace(t: string, start: string, end: string, content: string)
    requires Markers(start, end) && IsBlock(content, start, end) && HasBlock(t, start, end)
    ensures Remove(Upsert(Some(t), start, end, content).text, start, end) == Remove(Some(t), start, end)
  {
    hide Strip;
    var s, e := Find(t, start).value, Find(t, end).value;
    ReplacedBlock(t, start, end, content);
    var a, block, b := t[..s], t[s..e + |end|], t[e + |end|..];
    assert t == a + block + b;
    var t1 := a + content + b;
    assert t1[..s] == a && t1[s + |content|..] == b;
  }

  // ---- The file ----

  class MarkdownFile {
    var text: Option<string>

    method UpsertBlock(start: string, end: string, content: string, dryRun: bool) returns (action: Action)
      modifies this
      ensures action == Upsert(old(text), start, end, content).action
      ensures text == if dryRun then old(text) else Upsert(old(text), start, end, content).text
    {
      hide Find, StripRight;
      if text.None? {
        if !dryRun {
          text := Some(content + "\n");
        }
        return Created;
      }
      var t := text.value;
      var s, e := Find(t, start), Find(t, end);
      if s.None? {
        if !dryRun {
          text := Some(StripRight(t) + "\n\n" + content + "\n");
        }
        return Updated;
      }
      if e.None? || e.value < s.value {
        return Skipped;
      }
      BlockAtIsIn(t, end, e.value);
      var blockEnd := e.value + |end|;
      if t[s.value..blockEnd] == content {
        return Unchanged;
      }
      if !dryRun {
        text := Some(t[..s.value] + content + t[blockEnd..]);
      }
      action := Updated;
    }

    method RemoveBlock(start: string, end: string, dryRun: bool) returns (action: Action)
      modifies this
      ensures action == Remove(old(text), start, end).action
      ensures text == if dryRun then old(text) else Remove(old(text), start, end).text
    {
      hide Find, Strip;
      if text.None? {
        return Unchanged;
      }
      var t := text.value;
      var s, e := Find(t, start), Find(t, end);
      if s.None? {
        return Unchanged;
      }
      if e.None? || e.value < s.value {
        return Skipped;
      }
      BlockAtIsIn(t, end, e.value);
      var rest := Strip(t[..s.value] + t[e.value + |end|..]);
      if !dryRun {
        text := if rest == "" then None else Some(rest + "\n");
      }
      action := Removed;
    }
  }
}
