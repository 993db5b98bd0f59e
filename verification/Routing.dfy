/** src/routing/smart-routing.service.ts: candidate chains and their health-aware order. */
module Routing {
  import opened Prelude
  import opened Tables

  datatype Strategy = CurrencyOptimized | FeeOptimized | LowestLatency

  datatype Context = Context(amount: real, currency: string, preferred: Option<Gateway>, strategy: Option<Strategy>)

  datatype Route = Route(candidates: seq<Gateway>, primary: Gateway, strategyUsed: Strategy)

  /** toUpperCase on ASCII letters. */
  function UpperCase(s: string): string {
    seq(|s|, k requires 0 <= k < |s| => if 'a' <= s[k] <= 'z' then s[k] - 'a' + 'A' else s[k])
  }

  function ByCurrency(currency: string): seq<Gateway> {
    if currency == "EGP" then [PAYMOB, FAWRY, STRIPE]
    else if currency in ["USD", "EUR", "GBP"] then [STRIPE, PAYMOB]
    else if currency in ["SAR", "AED"] then [PAYMOB, STRIPE, FAWRY]
    else [STRIPE, PAYMOB, FAWRY]
  }

  function ByFee(amount: real, currency: string): seq<Gateway> {
    if currency == "EGP" then (if amount < 100.0 then [FAWRY, PAYMOB, STRIPE] else [PAYMOB, FAWRY, STRIPE])
    else [STRIPE, PAYMOB]
  }

  function ByLatency(currency: string): seq<Gateway> {
    if currency in ["EGP", "SAR", "AED", "KWD"] then [PAYMOB, FAWRY, STRIPE] else [STRIPE, PAYMOB]
  }

  type Availability = Gateway -> bool

  /** Keeping, in order, the gateways whose availability is as wanted. */
  function Select(candidates: seq<Gateway>, available: Availability, wanted: bool): seq<Gateway> {
    if candidates == [] then []
    else
      var last := candidates[|candidates| - 1];
      Select(candidates[..|candidates| - 1], available, wanted) + if available(last) == wanted then [last] else []
  }

  function Without(candidates: seq<Gateway>, g: Gateway): seq<Gateway> {
    if candidates == [] then []
    else if candidates[0] == g then Without(candidates[1..], g)
    else [candidates[0]] + Without(candidates[1..], g)
  }

  function PreferredChain(preferred: Gateway, currency: string): seq<Gateway> {
    [preferred] + Without(ByCurrency(currency), preferred)
  }

  function BaseCandidates(c: Context): seq<Gateway> {
    var currency := UpperCase(c.currency);
    if c.preferred.Some? then PreferredChain(c.preferred.value, currency) else
    if c.strategy == Some(FeeOptimized) then ByFee(c.amount, currency) else
    if c.strategy == Some(LowestLatency) then ByLatency(currency) else
    ByCurrency(currency)
  }

  /** Available gateways first, each group in its original order. */
  function Prioritized(candidates: seq<Gateway>, available: Availability): seq<Gateway> {
    Select(candidates, available, true) + Select(candidates, available, false)
  }

  /** applyHealthPrioritization: two lists, and the candidates themselves when none is healthy. */
  method ApplyHealthPrioritization(candidates: seq<Gateway>, available: Availability) returns (ordered: seq<Gateway>)
    ensures ordered == Prioritized(candidates, available)
    ensures (forall g :: g in candidates ==> !available(g)) ==> ordered == candidates
  {
    var healthy, tripped := [], [];
    for k := 0 to |candidates|
      invariant healthy == Select(candidates[..k], available, true)
      invariant tripped == Select(candidates[..k], available, false)
    {
      assert candidates[..k + 1][..k] == candidates[..k];
      if available(candidates[k]) {
        healthy := healthy + [candidates[k]];
      } else {
        tripped := tripped + [candidates[k]];
      }
    }
    assert candidates[..|candidates|] == candidates;
    NoneSelected(candidates, available);
    if |healthy| == 0 {
      return candidates;
    }
    return healthy + tripped;
  }

  // ----- Stable partition ----------------------------------------------------------

  /** With nothing healthy, the tripped list is the candidates themselves. */
  lemma {:induction false} NoneSelected(candidates: seq<Gateway>, available: Availability)
    ensures Select(candidates, available, true) == [] <==> forall g :: g in candidates ==> !available(g)
    ensures Select(candidates, available, true) == [] ==> Select(candidates, available, false) == candidates
  {
    if candidates != [] {
      NoneSelected(candidates[..|candidates| - 1], available);
      assert candidates == candidates[..|candidates| - 1] + [candidates[|candidates| - 1]];
    }
  }

  lemma {:induction false} SelectMeaning(candidates: seq<Gateway>, available: Availability, wanted: bool)
    ensures forall g :: g in Select(candidates, available, wanted) <==> g in candidates && available(g) == wanted
    ensures forall g :: multiset(Select(candidates, available, wanted))[g] == if available(g) == wanted then multiset(candidates)[g] else 0
  {
    if candidates != [] {
      SelectMeaning(candidates[..|candidates| - 1], available, wanted);
      assert candidates == candidates[..|candidates| - 1] + [candidates[|candidates| - 1]];
    }
  }

  lemma {:induction false} SelectConcat(a: seq<Gateway>, b: seq<Gateway>, available: Availability, wanted: bool)
    ensures Select(a + b, available, wanted) == Select(a, available, wanted) + Select(b, available, wanted)
  {
    if b == [] {
      assert a + b == a;
    } else {
      SelectConcat(a, b[..|b| - 1], available, wanted);
      assert (a + b)[..|a + b| - 1] == a + b[..|b| - 1];
    }
  }

  /** Selecting from a list that is all one way. */
  lemma {:induction false} SelectUniform(a: seq<Gateway>, available: Availability, health: bool, wanted: bool)
    requires forall g :: g in a ==> available(g) == health
    ensures Select(a, available, wanted) == if health == wanted then a else []
  {
    if a != [] {
      assert a == a[..|a| - 1] + [a[|a| - 1]];
      SelectUniform(a[..|a| - 1], available, health, wanted);
    }
  }

  /** Every available candidate stands before every tripped one. */
  ghost predicate HealthyFirst(s: seq<Gateway>, available: Availability) {
    forall i, j :: 0 <= i < j < |s| && available(s[j]) ==> available(s[i])
  }

  lemma JoinHealthyFirst(healthy: seq<Gateway>, tripped: seq<Gateway>, available: Availability)
    requires forall g :: g in healthy ==> available(g)
    requires forall g :: g in tripped ==> !available(g)
    ensures HealthyFirst(healthy + tripped, available)
  {
  }

  /** Prioritising any candidates under any availability: a permutation, available before tripped,
      the order inside each group kept, and nothing left to do the second time. */
  lemma StablePartition(candidates: seq<Gateway>, available: Availability)
    ensures var r := Prioritized(candidates, available);
            && multiset(r) == multiset(candidates)
            && HealthyFirst(r, available)
            && Select(r, available, true) == Select(candidates, available, true)
            && Select(r, available, false) == Select(candidates, available, false)
            && Prioritized(r, available) == r
  {
    var healthy, tripped := Select(candidates, available, true), Select(candidates, available, false);
    SelectMeaning(candidates, available, true);
    SelectMeaning(candidates, available, false);
    forall wanted: bool
      ensures Select(healthy + tripped, available, wanted) == if wanted then healthy else tripped
    {
      SelectConcat(healthy, tripped, available, wanted);
      SelectUniform(healthy, available, true, wanted);
      SelectUniform(tripped, available, false, wanted);
    }
    assert forall g :: multiset(healthy + tripped)[g] == multiset(candidates)[g];
    JoinHealthyFirst(healthy, tripped, available);
  }

  /** These properties leave no choice: any healthy-first sequence with the same two groups is it. */
  lemma PartitionUnique(candidates: seq<Gateway>, available: Availability, r: seq<Gateway>)
    requires HealthyFirst(r, available)
    requires Select(r, available, true) == Select(candidates, available, true)
    requires Select(r, available, false) == Select(candidates, available, false)
    ensures r == Prioritized(candidates, available)
  {
    HealthyFirstSplits(r, available);
  }

  lemma {:induction false} HealthyFirstSplits(r: seq<Gateway>, available: Availability)
    requires HealthyFirst(r, available)
    ensures r == Select(r, available, true) + Select(r, available, false)
  {
    if r != [] {
      var front, last := r[..|r| - 1], r[|r| - 1];
      HealthyFirstSplits(front, available);
      assert r == front + [last];
      if available(last) {
        forall g | g in front ensures available(g) {
          var k :| 0 <= k < |front| && front[k] == g;
          assert r[k] == g;
        }
        SelectUniform(front, available, true, false);
      }
    }
  }

  // ----- The base chains -----------------------------------------------------------

  /** Upper-casing changes lower-case letters only, so the case of a currency does not matter. */
  lemma UpperCaseMeaning(s: string)
    ensures |UpperCase(s)| == |s|
    ensures forall k :: 0 <= k < |s| ==> UpperCase(s)[k] as int == s[k] as int - if 'a' <= s[k] <= 'z' then 32 else 0
    ensures UpperCase(UpperCase(s)) == UpperCase(s)
  {
  }

  /** Without a preference: Egyptian pounds go to the local providers first (small fee-sensitive ones to
      Fawry), dollars, euros and pounds to Stripe, riyals and dirhams to Paymob. */
  lemma BaseChainTable(c: Context)
    requires c.preferred.None?
    ensures var currency, chain := UpperCase(c.currency), BaseCandidates(c);
            match (if c.strategy.Some? then c.strategy.value else CurrencyOptimized)
            case CurrencyOptimized =>
              chain == if currency == "EGP" then [PAYMOB, FAWRY, STRIPE]
                       else if currency == "USD" || currency == "EUR" || currency == "GBP" then [STRIPE, PAYMOB]
                       else if currency == "SAR" || currency == "AED" then [PAYMOB, STRIPE, FAWRY]
                       else [STRIPE, PAYMOB, FAWRY]
            case FeeOptimized =>
              chain == if currency != "EGP" then [STRIPE, PAYMOB]
                       else if c.amount < 100.0 then [FAWRY, PAYMOB, STRIPE] else [PAYMOB, FAWRY, STRIPE]
            case LowestLatency =>
              chain == if currency == "EGP" || currency == "SAR" || currency == "AED" || currency == "KWD" then [PAYMOB, FAWRY, STRIPE]
                       else [STRIPE, PAYMOB]
  {
  }

  /** With one: the preferred gateway, then the currency's chain in its order without it, whatever the strategy. */
  lemma PreferredChainMeaning(c: Context)
    requires c.preferred.Some?
    ensures var g, defaults := c.preferred.value, BaseCandidates(c.(preferred := None, strategy := None));
            var chain := BaseCandidates(c);
            && chain[..1] == [g]
            && (g !in defaults ==> chain[1..] == defaults)
            && (forall k :: 0 <= k < |defaults| && defaults[k] == g ==> chain[1..] == defaults[..k] + defaults[k + 1..])
  {
    var g, defaults := c.preferred.value, ByCurrency(UpperCase(c.currency));
    ChainsDistinct(c.amount, UpperCase(c.currency));
    if g !in defaults {
      WithoutNothing(defaults, g);
    }
    forall k | 0 <= k < |defaults| && defaults[k] == g ensures Without(defaults, g) == defaults[..k] + defaults[k + 1..] {
      WithoutOne(defaults, g, k);
    }
  }

  lemma {:induction false} WithoutNothing(candidates: seq<Gateway>, g: Gateway)
    requires g !in candidates
    ensures Without(candidates, g) == candidates
  {
    if candidates != [] {
      WithoutNothing(candidates[1..], g);
    }
  }

  lemma {:induction false} WithoutOne(candidates: seq<Gateway>, g: Gateway, k: nat)
    requires Distinct(candidates) && k < |candidates| && candidates[k] == g
    ensures Without(candidates, g) == candidates[..k] + candidates[k + 1..]
  {
    if k == 0 {
      WithoutNothing(candidates[1..], g);
    } else {
      WithoutOne(candidates[1..], g, k - 1);
      assert candidates[..k] + candidates[k + 1..] == [candidates[0]] + (candidates[1..][..k - 1] + candidates[1..][k..]);
    }
  }

  // ----- The resolved chain --------------------------------------------------------

  method ResolveRoute(c: Context, available: Availability) returns (route: Route)
    ensures route.candidates == Prioritized(BaseCandidates(c), available)
    ensures route.candidates != [] && route.primary == route.candidates[0]
    ensures route.strategyUsed == if c.strategy.Some? then c.strategy.value else CurrencyOptimized
  {
    var prioritized := ApplyHealthPrioritization(BaseCandidates(c), available);
    BaseCandidatesUsable(c);
    StablePartition(BaseCandidates(c), available);
    PermutationUsable(BaseCandidates(c), prioritized);
    route := Route(prioritized, if |prioritized| > 0 then prioritized[0] else STRIPE,
                   if c.strategy.Some? then c.strategy.value else CurrencyOptimized);
  }

  lemma DistinctPrepend(g: Gateway, s: seq<Gateway>)
    requires Distinct(s) && g !in s
    ensures Distinct([g] + s)
  {
  }

  lemma {:induction false} WithoutMeaning(candidates: seq<Gateway>, g: Gateway)
    requires Distinct(candidates)
    ensures Distinct(Without(candidates, g))
    ensures forall h :: h in Without(candidates, g) <==> h in candidates && h != g
  {
    if candidates != [] {
      var first, rest := candidates[0], candidates[1..];
      assert candidates == [first] + rest;
      WithoutMeaning(rest, g);
      if first != g {
        DistinctPrepend(first, Without(rest, g));
      }
    }
  }

  lemma ChainsDistinct(amount: real, currency: string)
    ensures Distinct(ByCurrency(currency)) && Distinct(ByFee(amount, currency)) && Distinct(ByLatency(currency))
    ensures forall g :: g == STRIPE || g == PAYMOB ==> g in ByCurrency(currency) && g in ByFee(amount, currency) && g in ByLatency(currency)
  {
  }

  /** Every base chain names STRIPE and PAYMOB, and no gateway twice. */
  lemma BaseCandidatesUsable(c: Context)
    ensures Distinct(BaseCandidates(c)) && |BaseCandidates(c)| >= 1
    ensures STRIPE in BaseCandidates(c) && PAYMOB in BaseCandidates(c)
  {
    var currency := UpperCase(c.currency);
    ChainsDistinct(c.amount, currency);
    if c.preferred.Some? {
      WithoutMeaning(ByCurrency(currency), c.preferred.value);
      DistinctPrepend(c.preferred.value, Without(ByCurrency(currency), c.preferred.value));
    }
  }

  lemma {:induction false} DistinctByCount(s: seq<Gateway>)
    ensures Distinct(s) <==> forall g :: multiset(s)[g] <= 1
  {
    if s != [] {
      var front, last := s[..|s| - 1], s[|s| - 1];
      DistinctByCount(front);
      assert s == front + [last];
      if Distinct(s) {
        assert last !in front;
      } else if Distinct(front) {
        var i :| 0 <= i < |front| && s[i] == last;
        assert front[i] == last;
        assert multiset(s)[last] == multiset(front)[last] + 1;
      } else {
        var g :| multiset(front)[g] > 1;
        assert multiset(s)[g] >= multiset(front)[g];
      }
    }
  }

  /** A permutation of a usable chain is one. */
  lemma PermutationUsable(base: seq<Gateway>, chain: seq<Gateway>)
    requires multiset(chain) == multiset(base) && Distinct(base)
    ensures Distinct(chain) && |chain| == |base| && forall g :: g in chain <==> g in base
  {
    DistinctByCount(base);
    DistinctByCount(chain);
    assert |chain| == |multiset(chain)| && |base| == |multiset(base)|;
    forall g ensures g in chain <==> g in base {
      assert g in chain <==> g in multiset(chain);
      assert g in base <==> g in multiset(base);
    }
  }

  lemma PrimaryAvailable(chain: seq<Gateway>, available: Availability)
    requires HealthyFirst(chain, available) && chain != []
    ensures available(chain[0]) <==> exists g :: g in chain && available(g)
  {
  }

  lemma PreferredFirst(preferred: Gateway, rest: seq<Gateway>, available: Availability)
    requires available(preferred)
    ensures var chain := Prioritized([preferred] + rest, available); chain != [] && chain[0] == preferred
  {
    SelectConcat([preferred], rest, available, true);
    SelectUniform([preferred], available, true, true);
  }

  /** The chain of every context under every availability is non-empty and names no gateway twice;
      its primary is available whenever any candidate is, and an available preferred gateway is primary. */
  lemma ResolvedChain(c: Context, available: Availability)
    ensures var chain := Prioritized(BaseCandidates(c), available);
            && chain != [] && Distinct(chain)
            && (forall g :: g in chain <==> g in BaseCandidates(c)) && STRIPE in chain && PAYMOB in chain
            && (available(chain[0]) <==> exists g :: g in chain && available(g))
            && (c.preferred.Some? && available(c.preferred.value) ==> chain[0] == c.preferred.value)
  {
    var base := BaseCandidates(c);
    var chain := Prioritized(base, available);
    BaseCandidatesUsable(c);
    StablePartition(base, available);
    PermutationUsable(base, chain);
    PrimaryAvailable(chain, available);
    if c.preferred.Some? && available(c.preferred.value) {
      PreferredFirst(c.preferred.value, Without(ByCurrency(UpperCase(c.currency)), c.preferred.value), available);
    }
  }
}
