/** The "dominant god" rule, written identically in src/lib/store.ts and
    src/lib/storyEngine.ts: the first domain, in key order, holding at least
    40 % of the total alignment; none when the total is 0 or no domain reaches
    40 %. */
module Dominance {
  import opened Common
  import opened GameTypes

  /** `(value / total) * 100 >= 40` */
  predicate HasShare(a: Alignments, d: Domain)
    requires a.Total() != 0.0
  {
    (a.Get(d) / a.Total()) * 100.0 >= 40.0
  }

  /** No domain among the first k of ds has a 40 % share. */
  predicate NoneBefore(a: Alignments, ds: seq<Domain>, k: int)
    requires a.Total() != 0.0
    requires 0 <= k <= |ds|
  {
    forall j :: 0 <= j < k ==> !HasShare(a, ds[j])
  }

  /** `percentages.find(p => p.percentage >= 40)` over the list of domains `ds`. */
  function FirstWithShare(a: Alignments, ds: seq<Domain>): (r: Option<Domain>)
    requires a.Total() != 0.0
    ensures r.Some? ==> HasShare(a, r.value)
    ensures r.Some? ==> exists k :: 0 <= k < |ds| && ds[k] == r.value && NoneBefore(a, ds, k)
    ensures r.None? ==> forall d :: d in ds ==> !HasShare(a, d)
  {
    if ds == [] then None
    else if HasShare(a, ds[0]) then Some(ds[0])
    else
      var r := FirstWithShare(a, ds[1..]);
      assert r.Some? ==> exists k :: 0 <= k < |ds| && ds[k] == r.value && NoneBefore(a, ds, k) by {
        if r.Some? {
          var k :| 0 <= k < |ds[1..]| && ds[1..][k] == r.value && NoneBefore(a, ds[1..], k);
          assert ds[k + 1] == r.value && NoneBefore(a, ds, k + 1);
        }
      }
      r
  }

  function DominantDomain(a: Alignments): Option<Domain>
  {
    if a.Total() == 0.0 then None else FirstWithShare(a, DomainOrder)
  }

  /** The result is null exactly when the total is 0 or no domain has a 40 %
      share; otherwise it is a domain with that share, and every domain before
      it in key order falls short. */
  lemma DominantDomainSpec(a: Alignments)
    ensures a.Total() == 0.0 ==> DominantDomain(a) == None
    ensures a.Total() != 0.0 ==>
      (DominantDomain(a).None? <==> forall d :: !HasShare(a, d))
    ensures DominantDomain(a).Some? ==>
      var d := DominantDomain(a).value;
      && a.Total() != 0.0 && HasShare(a, d)
      && forall i :: 0 <= i < |DomainOrder| && DomainOrder[i] == d ==>
           forall j :: 0 <= j < i ==> !HasShare(a, DomainOrder[j])
  {
    if a.Total() != 0.0 {
      assert DomainOrder[1..] == [Stone, Ash, Dream];
      assert DomainOrder[2..] == [Ash, Dream];
      assert DomainOrder[3..] == [Dream];
      forall d ensures d in DomainOrder {
        assert d == Flesh || d == Stone || d == Ash || d == Dream;
      }
      if DominantDomain(a).Some? {
        var d := DominantDomain(a).value;
        var k :| 0 <= k < |DomainOrder| && DomainOrder[k] == d && NoneBefore(a, DomainOrder, k);
        forall i | 0 <= i < |DomainOrder| && DomainOrder[i] == d
          ensures forall j :: 0 <= j < i ==> !HasShare(a, DomainOrder[j])
        {
          assert i == k;
        }
      }
    }
  }

  /** With non-negative alignments (the store clamps them at 0) and a positive
      total, a domain has a 40 % share exactly when 5 * value >= 2 * total. */
  lemma ShareByCrossMultiplying(a: Alignments, d: Domain)
    requires a.Total() > 0.0
    ensures HasShare(a, d) <==> 5.0 * a.Get(d) >= 2.0 * a.Total()
  {
    var t := a.Total();
    var v := a.Get(d);
    assert (v / t) * 100.0 * t == 100.0 * v;
  }
}
