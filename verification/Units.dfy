/** Knowledge units, the one datatype the Go client, the local store and the server share. */
module Units {
  import opened Prelude
  import opened Sequences
  import Text

  type UnitId = string

  type Time = int

  datatype Insight = Insight(summary: string, detail: string, action: string)

  datatype Context = Context(languages: seq<string>, frameworks: seq<string>, pattern: string)

  datatype Evidence = Evidence(
    confidence: real,
    confirmations: int,
    firstObserved: Option<Time>,
    lastConfirmed: Option<Time>)

  datatype FlagReason = Duplicate | Incorrect | Stale

  datatype Flag = Flag(reason: FlagReason, timestamp: Time, detail: string, duplicateOf: string)

  datatype Tier = Local | Private | Public

  datatype Unit = Unit(
    id: UnitId,
    version: int,
    domains: seq<string>,
    insight: Insight,
    context: Context,
    evidence: Evidence,
    tier: Tier,
    createdBy: string,
    supersededBy: string,
    flags: seq<Flag>)

  /** First occurrences of the non-empty normal forms of `domains`, in order. */
  function Normalized(domains: seq<string>): seq<string> {
    if domains == [] then []
    else
      var before := Normalized(domains[..|domains| - 1]);
      var n := Text.Normal(domains[|domains| - 1]);
      if n == "" || n in before then before else before + [n]
  }

  /** A domain list as the store keeps it. */
  ghost predicate IsNormalized(domains: seq<string>) {
    && Distinct(domains)
    && forall d :: d in domains ==> d != "" && Text.Normal(d) == d
  }

  lemma {:induction false} NormalizedProperties(domains: seq<string>)
    ensures IsNormalized(Normalized(domains))
    ensures forall n :: n in Normalized(domains) <==> n != "" && exists d :: d in domains && Text.Normal(d) == n
  {
    if domains == [] {
    } else {
      var init, last := domains[..|domains| - 1], domains[|domains| - 1];
      assert domains == init + [last];
      NormalizedProperties(init);
      Text.NormalIdempotent(last);
      forall n | n in Normalized(domains)
        ensures n != "" && exists d :: d in domains && Text.Normal(d) == n
      {
        if n in Normalized(init) {
          var d :| d in init && Text.Normal(d) == n;
          assert d in domains;
        } else {
          assert last in domains;
        }
      }
      forall n, d | n != "" && d in domains && Text.Normal(d) == n
        ensures n in Normalized(domains)
      {
        if d in init {
          assert n in Normalized(init);
        }
      }
    }
  }

  /** Renormalising a stored list keeps it, in particular its order. */
  lemma {:induction false} NormalizedFixed(domains: seq<string>)
    requires IsNormalized(domains)
    ensures Normalized(domains) == domains
  {
    if domains == [] {
    } else {
      var init := domains[..|domains| - 1];
      assert domains == init + [domains[|domains| - 1]];
      assert forall d :: d in init ==> d in domains;
      NormalizedFixed(init);
    }
  }

  method NormalizeDomains(domains: seq<string>) returns (result: seq<string>)
    ensures result == Normalized(domains)
    ensures IsNormalized(result)
    ensures forall n :: n in result <==> n != "" && exists d :: d in domains && Text.Normal(d) == n
  {
    var seen := {};
    result := [];
    for i := 0 to |domains|
      invariant result == Normalized(domains[..i])
      invariant seen == set n | n in result
    {
      assert domains[..i + 1][..i] == domains[..i];
      var n := Text.Normal(domains[i]);
      if n == "" {
        continue;
      }
      if n in seen {
        continue;
      }
      seen := seen + {n};
      result := result + [n];
    }
    assert domains[..|domains|] == domains;
    NormalizedProperties(domains);
  }

  /** What a unit says, apart from how well it is trusted. */
  datatype Content = Content(insight: Insight, domains: seq<string>, context: Context)

  function ContentOf(u: Unit): Content {
    Content(u.insight, Normalized(u.domains), u.context)
  }
}
