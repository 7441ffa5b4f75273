/** Relevance and confidence scoring, over exact rationals. */
module Scoring {
  import opened Prelude
  import opened Units
  import Text

  const DOMAIN_WEIGHT := 0.55
  const LANGUAGE_WEIGHT := 0.15
  const FRAMEWORK_WEIGHT := 0.15
  const PATTERN_WEIGHT := 0.15
  const CONFIRMATION_BOOST := 0.1
  const FLAG_PENALTY := 0.15
  const CONFIDENCE_CEILING := 1.0
  const CONFIDENCE_FLOOR := 0.0

  function Elements(s: seq<string>): (r: set<string>)
    ensures forall x :: x in r <==> x in s
  {
    set x | x in s
  }

  /** Intersection over union; two empty sets score 0. */
  function Jaccard(a: set<string>, b: set<string>): real {
    if a + b == {} then 0.0 else |a * b| as real / |a + b| as real
  }

  function Min(a: real, b: real): real { if a <= b then a else b }

  function Max(a: real, b: real): real { if a >= b then a else b }

  predicate PatternMatches(queried: string, stored: string) {
    queried != "" && stored != "" && Text.EqualFold(queried, stored)
  }

  /** The weighted sum before clamping. */
  function WeightedScore(
    u: Unit, domains: set<string>, languages: set<string>, frameworks: set<string>, pattern: string): real
  {
    DOMAIN_WEIGHT * Jaccard(Elements(u.domains), domains)
    + (if Elements(u.context.languages) * languages != {} then LANGUAGE_WEIGHT else 0.0)
    + (if Elements(u.context.frameworks) * frameworks != {} then FRAMEWORK_WEIGHT else 0.0)
    + (if PatternMatches(pattern, u.context.pattern) then PATTERN_WEIGHT else 0.0)
  }

  lemma JaccardProperties(a: set<string>, b: set<string>)
    ensures 0.0 <= Jaccard(a, b) <= 1.0
    ensures Jaccard(a, b) == Jaccard(b, a)
    ensures Jaccard(a, b) == 0.0 <==> a * b == {}
    ensures Jaccard(a, b) == 1.0 <==> a == b && a != {}
  {
    assert a + b == b + a && a * b == b * a;
    if a + b != {} {
      var i, n := |a * b|, |a + b|;
      assert n == i + |(a + b) - (a * b)| by {
        assert a + b == (a * b) + ((a + b) - (a * b));
      }
      QuotientBounds(i, n);
      if i == n {
        assert (a + b) - (a * b) == {};
        assert a == b;
      }
    }
  }

  lemma QuotientBounds(i: nat, n: nat)
    requires i <= n && n > 0
    ensures 0.0 <= i as real / n as real <= 1.0
    ensures i as real / n as real == 0.0 <==> i == 0
    ensures i as real / n as real == 1.0 <==> i == n
  {
    var q := i as real / n as real;
    assert q * n as real == i as real;
  }

  /** The weights sum to one, so the clamp in the source never changes a score. */
  lemma RelevanceInUnitInterval(
    u: Unit, domains: set<string>, languages: set<string>, frameworks: set<string>, pattern: string)
    ensures 0.0 <= WeightedScore(u, domains, languages, frameworks, pattern) <= 1.0
  {
    JaccardProperties(Elements(u.domains), domains);
  }

  function PartsMatched(u: Unit, languages: set<string>, frameworks: set<string>, pattern: string): nat {
    (if exists l :: l in u.context.languages && l in languages then 1 else 0)
    + (if exists f :: f in u.context.frameworks && f in frameworks then 1 else 0)
    + (if pattern != "" && Text.SameLetters(pattern, u.context.pattern) then 1 else 0)
  }

  /** Domains count for 55 of 100 points, and each of language, framework and pattern that matches for 15. */
  lemma ScoreInPoints(
    u: Unit, domains: set<string>, languages: set<string>, frameworks: set<string>, pattern: string)
    ensures WeightedScore(u, domains, languages, frameworks, pattern) ==
            0.55 * Jaccard(Elements(u.domains), domains)
            + 0.15 * PartsMatched(u, languages, frameworks, pattern) as real
  {
    Text.EqualFoldExactly(pattern, u.context.pattern);
    Meets(u.context.languages, languages);
    Meets(u.context.frameworks, frameworks);
  }

  lemma Meets(items: seq<string>, queried: set<string>)
    ensures Elements(items) * queried != {} <==> exists x :: x in items && x in queried
  {
    if Elements(items) * queried != {} {
      var x :| x in Elements(items) * queried;
    }
    if x :| x in items && x in queried {
      assert x in Elements(items) * queried;
    }
  }

  /** A unit of exactly the queried domains outscores every unit without any of them, whatever else matches. */
  lemma DomainsDecide(
    u: Unit, w: Unit, domains: set<string>, languages: set<string>, frameworks: set<string>, pattern: string)
    requires domains != {} && Elements(u.domains) == domains && Elements(w.domains) !! domains
    ensures WeightedScore(u, domains, languages, frameworks, pattern) >
            WeightedScore(w, domains, languages, frameworks, pattern)
  {
    JaccardProperties(Elements(u.domains), domains);
    JaccardProperties(Elements(w.domains), domains);
  }

  method ToSet(items: seq<string>) returns (s: set<string>)
    ensures s == Elements(items)
  {
    s := {};
    for i := 0 to |items|
      invariant s == Elements(items[..i])
    {
      s := s + {items[i]};
    }
    assert items[..|items|] == items;
  }

  method CountCommon(a: set<string>, b: set<string>) returns (n: nat)
    ensures n == |a * b|
  {
    n := 0;
    var rest := a;
    ghost var done := {};
    while rest != {}
      invariant done + rest == a && done !! rest
      invariant n == |done * b|
      decreases rest
    {
      var v :| v in rest;
      rest := rest - {v};
      if v in b {
        n := n + 1;
        assert (done + {v}) * b == done * b + {v};
      } else {
        assert (done + {v}) * b == done * b;
      }
      done := done + {v};
    }
    assert done == a;
  }

  method JaccardSimilarity(a: seq<string>, b: seq<string>) returns (r: real)
    ensures r == Jaccard(Elements(a), Elements(b))
  {
    if |a| == 0 && |b| == 0 {
      assert Elements(a) + Elements(b) == {};
      return 0.0;
    }
    var setA := ToSet(a);
    var setB := ToSet(b);
    var intersection := CountCommon(setA, setB);
    var union := |setA| + |setB| - intersection;
    assert union == |setA + setB|;
    assert (if |a| > 0 then a[0] else b[0]) in setA + setB;
    r := intersection as real / union as real;
  }

  method AnyMatch(items: seq<string>, queries: seq<string>) returns (found: bool)
    ensures found <==> Elements(items) * Elements(queries) != {}
  {
    if |queries| == 0 {
      return false;
    }
    var s := ToSet(items);
    for i := 0 to |queries|
      invariant forall k :: 0 <= k < i ==> queries[k] !in s
    {
      if queries[i] in s {
        assert queries[i] in s * Elements(queries);
        return true;
      }
    }
    return false;
  }

  method Relevance(u: Unit, domains: seq<string>, languages: seq<string>, frameworks: seq<string>, pattern: string)
    returns (r: real)
    ensures r == WeightedScore(u, Elements(domains), Elements(languages), Elements(frameworks), pattern)
    ensures 0.0 <= r <= 1.0
  {
    var domainScore := JaccardSimilarity(u.domains, domains);
    var languageScore, frameworkScore, patternScore := 0.0, 0.0, 0.0;
    var anyLanguage := AnyMatch(u.context.languages, languages);
    if anyLanguage {
      languageScore := 1.0;
    }
    var anyFramework := AnyMatch(u.context.frameworks, frameworks);
    if anyFramework {
      frameworkScore := 1.0;
    }
    if PatternMatches(pattern, u.context.pattern) {
      patternScore := 1.0;
    }
    var score := DOMAIN_WEIGHT * domainScore + LANGUAGE_WEIGHT * languageScore
                 + FRAMEWORK_WEIGHT * frameworkScore + PATTERN_WEIGHT * patternScore;
    RelevanceInUnitInterval(u, Elements(domains), Elements(languages), Elements(frameworks), pattern);
    r := Min(Max(score, 0.0), 1.0);
  }

  /** `int32` increment: the maximum wraps to the minimum. */
  function NextInt32(n: int): int {
    if n == 0x7fff_ffff then -0x8000_0000 else n + 1
  }

  function ApplyConfirmation(u: Unit, now: Time): Unit {
    u.(evidence := u.evidence.(
      confidence := Min(u.evidence.confidence + CONFIRMATION_BOOST, CONFIDENCE_CEILING),
      confirmations := NextInt32(u.evidence.confirmations),
      lastConfirmed := Some(now)))
  }

  function ApplyFlag(u: Unit, flag: Flag): Unit {
    u.(evidence := u.evidence.(confidence := Max(u.evidence.confidence - FLAG_PENALTY, CONFIDENCE_FLOOR)),
       flags := u.flags + [flag])
  }

  datatype Feedback = Confirmation(now: Time) | Flagging(flag: Flag)

  function ApplyFeedback(u: Unit, f: Feedback): Unit {
    match f
    case Confirmation(now) => ApplyConfirmation(u, now)
    case Flagging(flag) => ApplyFlag(u, flag)
  }

  function ApplyAll(u: Unit, fs: seq<Feedback>): Unit
    decreases fs
  {
    if fs == [] then u else ApplyAll(ApplyFeedback(u, fs[0]), fs[1..])
  }

  function FlagsIn(fs: seq<Feedback>): seq<Flag> {
    if fs == [] then []
    else (if fs[0].Flagging? then [fs[0].flag] else []) + FlagsIn(fs[1..])
  }

  /**
   Over any run of confirmations and flags a confidence that starts in the unit interval stays there,
   every flag is recorded in order, and nothing but evidence and flags changes.
   */
  lemma {:induction false} FeedbackKeepsContent(u: Unit, fs: seq<Feedback>)
    requires CONFIDENCE_FLOOR <= u.evidence.confidence <= CONFIDENCE_CEILING
    ensures var v := ApplyAll(u, fs);
      && CONFIDENCE_FLOOR <= v.evidence.confidence <= CONFIDENCE_CEILING
      && v == u.(evidence := v.evidence, flags := u.flags + FlagsIn(fs))
    decreases fs
  {
    if fs == [] {
    } else {
      var w := ApplyFeedback(u, fs[0]);
      FeedbackKeepsContent(w, fs[1..]);
      assert w.flags + FlagsIn(fs[1..]) == u.flags + FlagsIn(fs);
    }
  }

  /** A confirmation raises the confidence by 10 points, up to 100, and counts itself. */
  lemma ConfirmationRaises(u: Unit, now: Time)
    requires 0.0 <= u.evidence.confidence <= 1.0
    ensures var was, e := u.evidence, ApplyConfirmation(u, now).evidence;
      && e.confidence == (if was.confidence <= 0.9 then was.confidence + 0.1 else 1.0)
      && (was.confirmations < 2147483647 ==> e.confirmations == was.confirmations + 1)
      && (was.confirmations == 2147483647 ==> e.confirmations == -2147483648)
      && e.firstObserved == was.firstObserved && e.lastConfirmed == Some(now)
  {
  }

  /** A flag lowers the confidence by 15 points, down to none, and nothing else in the evidence. */
  lemma FlagLowers(u: Unit, flag: Flag)
    requires 0.0 <= u.evidence.confidence <= 1.0
    ensures var was, v := u.evidence, ApplyFlag(u, flag);
      && v.evidence.confidence == (if was.confidence >= 0.15 then was.confidence - 0.15 else 0.0)
      && v.evidence.confirmations == was.confirmations
      && v.evidence.firstObserved == was.firstObserved && v.evidence.lastConfirmed == was.lastConfirmed
      && v.flags == u.flags + [flag]
  {
  }

  function ConfirmationsIn(fs: seq<Feedback>): nat {
    if fs == [] then 0 else (if fs[0].Confirmation? then 1 else 0) + ConfirmationsIn(fs[1..])
  }

  /** Over any run of feedback every confirmation is counted, and the last one is remembered. */
  lemma {:induction false} FeedbackCounts(u: Unit, fs: seq<Feedback>)
    requires u.evidence.confirmations + ConfirmationsIn(fs) <= 2147483647
    ensures var was, e := u.evidence, ApplyAll(u, fs).evidence;
      && e.confirmations == was.confirmations + ConfirmationsIn(fs) && e.firstObserved == was.firstObserved
      && (forall i :: 0 <= i < |fs| && fs[i].Confirmation? && ConfirmationsIn(fs[i + 1..]) == 0 ==>
            e.lastConfirmed == Some(fs[i].now))
      && (ConfirmationsIn(fs) == 0 ==> e.lastConfirmed == was.lastConfirmed)
    decreases fs
  {
    if fs == [] {
    } else {
      FeedbackCounts(ApplyFeedback(u, fs[0]), fs[1..]);
      forall i | 1 <= i < |fs| ensures fs[i + 1..] == fs[1..][i..] && fs[i] == fs[1..][i - 1] {
      }
    }
  }
}
