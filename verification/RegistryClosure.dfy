/** A recursive delete removes exactly a closure: the listed rules, the autogenerated routes
    they name, the autogenerated clusters those routes name, and these clusters' endpoints. */
module RegistryClosure {
  import opened Registry
  import opened RegistryLists
  import opened RegistryDeletes

  function SetOf(ns: seq<string>): set<string> { set n | n in ns }

  ghost function AutoNames<B>(es: seq<Entry<B>>): set<string> { set e | e in es && e.auto :: e.name }

  /** The routes that the named rules point to. */
  function RouteTargets(rules: seq<Entry<RouteRef>>, ns: set<string>): set<string> {
    set u | u in rules && u.name in ns && u.body.To? :: u.body.name
  }

  /** The clusters that the named routes mention. */
  function ClusterTargets(routes: seq<Entry<RouteBody>>, ns: set<string>): set<string> {
    set r, c | r in routes && r.name in ns && c in Refs(r.body) :: c
  }

  ghost function RuleClosure(s: State, ns: set<string>): Drops {
    var ms := RouteTargets(s.rules, ns) * AutoNames(s.routes);
    Drops(ns, ms, ClusterTargets(s.routes, ms) * AutoNames(s.clusters))
  }

  predicate Distinct(ns: seq<string>) {
    ns == [] || (ns[0] !in ns[1..] && Distinct(ns[1..]))
  }

  predicate Exist(s: State, ns: seq<string>) { forall n :: n in ns ==> Has(s.rules, n) }

  lemma AutoIs<B>(es: seq<Entry<B>>, n: string)
    requires Unique(es)
    ensures IsAuto(es, n) <==> n in AutoNames(es)
  {
    if IsAuto(es, n) {
      var e := es[Find(es, n)];
      assert e in es && e.auto && e.name == n;
    }
    if n in AutoNames(es) {
      var i :| 0 <= i < |es| && es[i].auto && es[i].name == n;
      FindAt(es, i);
    }
  }

  lemma AutoKept<B>(es: seq<Entry<B>>, d: set<string>)
    ensures AutoNames(Keep(es, d)) == AutoNames(es) - d
  {
    KeepIn(es, d);
    var kept := Keep(es, d);
    forall n
      ensures n in AutoNames(kept) <==> n in AutoNames(es) && n !in d
    {
      if n in AutoNames(es) && n !in d {
        var e :| e in es && e.auto && e.name == n;
        assert e in kept;
      }
      if n in AutoNames(kept) {
        var e :| e in kept && e.auto && e.name == n;
        assert e in es;
      }
    }
  }

  lemma {:induction false} DeleteUsesPrunes(s: State, ns: seq<string>)
    requires WF(s)
    ensures DeleteUses(s, ns) == Done(Prune(s, Drops({}, {}, SetOf(ns) * AutoNames(s.clusters))))
    decreases |ns|
  {
    if ns == [] {
      PruneNothing(s);
      assert SetOf(ns) * AutoNames(s.clusters) == {};
    } else {
      var n, rest := ns[0], ns[1..];
      AutoIs(s.clusters, n);
      assert SetOf(ns) == {n} + SetOf(rest);
      if IsAuto(s.clusters, n) {
        var d := Drops({}, {}, {n});
        DeleteClusterPrunes(s, n);
        PruneKeeps(s, d);
        var t := Prune(s, d);
        DeleteUsesPrunes(t, rest);
        AutoKept(s.clusters, {n});
        PruneTwice(s, d, Drops({}, {}, SetOf(rest) * AutoNames(t.clusters)));
        assert {n} + SetOf(rest) * (AutoNames(s.clusters) - {n}) == SetOf(ns) * AutoNames(s.clusters);
      } else {
        DeleteUsesPrunes(s, rest);
        assert SetOf(rest) * AutoNames(s.clusters) == SetOf(ns) * AutoNames(s.clusters);
      }
    }
  }

  ghost function RouteClosure(s: State, n: string): Drops {
    Drops({}, {n}, ClusterTargets(s.routes, {n}) * AutoNames(s.clusters))
  }

  lemma DeleteRoutePrunes(s: State, n: string)
    requires WF(s)
    ensures DeleteRoute(s, n, true) ==
            if Has(s.routes, n) then Done(Prune(s, RouteClosure(s, n))) else Thrown(s, Unknown)
  {
    var i := Find(s.routes, n);
    if i >= 0 {
      var refs := Refs(s.routes[i].body);
      assert ClusterTargets(s.routes, {n}) == SetOf(refs) by {
        assert s.routes[i] in s.routes;
        forall r | r in s.routes && r.name == n
          ensures r == s.routes[i]
        {
          var k :| 0 <= k < |s.routes| && s.routes[k] == r;
          FindAt(s.routes, k);
        }
      }
      DeleteUsesPrunes(s, refs);
      SpliceKeeps(s.routes, i);
      KeepSame(s.routes, {});
    }
  }

  lemma OwnTarget(s: State, i: nat)
    requires Unique(s.rules) && i < |s.rules|
    ensures RouteTargets(s.rules, {s.rules[i].name}) ==
            if s.rules[i].body.To? then {s.rules[i].body.name} else {}
  {
    assert s.rules[i] in s.rules;
    forall u | u in s.rules && u.name == s.rules[i].name
      ensures u == s.rules[i]
    {
      var k :| 0 <= k < |s.rules| && s.rules[k] == u;
      FindAt(s.rules, k);
      FindAt(s.rules, i);
    }
  }

  lemma DeleteRulePrunes(s: State, n: string)
    requires WF(s)
    ensures DeleteRule(s, n, true) ==
            if Has(s.rules, n) then Done(Prune(s, RuleClosure(s, {n}))) else Thrown(s, Unknown)
  {
    var i := Find(s.rules, n);
    if i >= 0 {
      var ref := s.rules[i].body;
      OwnTarget(s, i);
      SpliceKeeps(s.rules, i);
      KeepSame(s.rules, {});
      if ref.To? {
        AutoIs(s.routes, ref.name);
      }
      if ref.To? && IsAuto(s.routes, ref.name) {
        DeleteRoutePrunes(s, ref.name);
        assert RuleClosure(s, {n}).routes == {ref.name};
      } else {
        assert RuleClosure(s, {n}) == Drops({n}, {}, {});
        PruneNothing(s);
      }
    }
  }

  /** The closure of two sets of rules can be taken one after the other. */
  lemma ClosureSplits(s: State, a: set<string>, b: set<string>)
    ensures var d := RuleClosure(s, a);
      Both(d, RuleClosure(Prune(s, d), b)) == RuleClosure(s, a + b)
  {
    var d := RuleClosure(s, a);
    var t := Prune(s, d);
    var f, g := RuleClosure(t, b), RuleClosure(s, a + b);
    AutoKept(s.routes, d.routes);
    AutoKept(s.clusters, d.clusters);
    KeepIn(s.rules, d.rules);
    KeepIn(s.routes, d.routes);
    assert RouteTargets(t.rules, b) == RouteTargets(s.rules, b - a);
    assert RouteTargets(s.rules, a + b) == RouteTargets(s.rules, a) + RouteTargets(s.rules, b - a);
    assert d.routes + f.routes == g.routes;
    assert ClusterTargets(t.routes, f.routes) == ClusterTargets(s.routes, f.routes);
    assert ClusterTargets(s.routes, g.routes) ==
           ClusterTargets(s.routes, d.routes) + ClusterTargets(s.routes, f.routes);
    assert d.clusters + f.clusters == g.clusters;
  }

  /** The same state up to the contents of list k. */
  predicate SameButList(s: State, t: State, k: nat) {
    k < |s.rulelists| && |t.rulelists| == |s.rulelists| &&
    t.rulelists[..k] == s.rulelists[..k] && t.rulelists[k + 1..] == s.rulelists[k + 1..] &&
    t.rulelists[k].name == s.rulelists[k].name && t.(rulelists := s.rulelists) == s
  }

  predicate AllIn(ns: seq<string>, list: seq<string>) { forall n :: n in ns ==> n in list }

  /** The state before the rule itself goes: autogenerated rules leave the list first. */
  lemma LeaveList(s: State, k: nat, n: string)
    requires k < |s.rulelists|
    ensures var o := Unlist(s, k, n);
      && (n in s.rulelists[k].body ==> o.Done?)
      && (o.Done? ==> SameButList(s, o.reg, k))
      && (o.Done? ==> forall m :: m in s.rulelists[k].body && m != n ==> m in o.reg.rulelists[k].body)
  {
    var ns := s.rulelists[k].body;
    var i := IndexOf(ns, n);
    if IsAuto(s.rules, n) && i >= 0 {
      assert ns == ns[..i] + [n] + ns[i + 1..];
    }
  }

  lemma DeleteListedStep(s: State, k: nat, n: string)
    requires WF(s) && k < |s.rulelists| && Has(s.rules, n)
    ensures DeleteListedOnce(s, k, n).Done? ==>
              var t := DeleteListedOnce(s, k, n).reg;
              && WF(t.(rulelists := s.rulelists))
              && SameButList(Prune(s, RuleClosure(s, {n})), t, k)
              && forall m :: m in s.rulelists[k].body && m != n ==> m in t.rulelists[k].body
    ensures n in s.rulelists[k].body ==> DeleteListedOnce(s, k, n).Done?
  {
    LeaveList(s, k, n);
    var o := Unlist(s, k, n);
    if o.Done? {
      NamesStay(s, o.reg, k);
      DeleteRulePrunes(o.reg, n);
      PruneKeeps(s, RuleClosure(s, {n}));
    }
  }

  lemma NamesStay(s: State, t: State, k: nat)
    requires WF(s) && SameButList(s, t, k)
    ensures WF(t)
  {
    forall i, j | 0 <= i < j < |t.rulelists|
      ensures t.rulelists[i].name != t.rulelists[j].name
    {
      assert forall m :: 0 <= m < k ==> t.rulelists[m] == t.rulelists[..k][m];
      assert forall m :: k < m < |s.rulelists| ==> t.rulelists[m] == t.rulelists[k + 1..][m - k - 1];
      assert forall m :: 0 <= m < k ==> s.rulelists[m] == s.rulelists[..k][m];
      assert forall m :: k < m < |s.rulelists| ==> s.rulelists[m] == s.rulelists[k + 1..][m - k - 1];
    }
  }

  /** After one rule is gone, the others still exist iff they did and it is not repeated. */
  lemma StillExist(s: State, t: State, n: string, rest: seq<string>)
    requires t.rules == Keep(s.rules, {n})
    ensures Exist(t, rest) <==> Exist(s, rest) && n !in rest
  {
    KeepNames(s.rules, {n});
    forall m
      ensures Has(t.rules, m) <==> Has(s.rules, m) && m != n
    {
      FindIs(t.rules, m);
      FindIs(s.rules, m);
    }
  }

  lemma ThenTheRest(s: State, t: State, u: State, k: nat, n: string, rest: seq<string>)
    requires SameButList(Prune(s, RuleClosure(s, {n})), t, k)
    requires SameButList(Prune(t, RuleClosure(t, SetOf(rest))), u, k)
    ensures SameButList(Prune(s, RuleClosure(s, SetOf([n] + rest))), u, k)
  {
    var d := RuleClosure(s, {n});
    assert SetOf([n] + rest) == {n} + SetOf(rest);
    ClosureSplits(s, {n}, SetOf(rest));
    PruneTwice(s, d, RuleClosure(Prune(s, d), SetOf(rest)));
  }

  /** Deleting listed rules one by one succeeds only for distinct existing rules, succeeds for
      these when they are on the list, and then removes their closure. */
  lemma {:induction false} DeleteListedPrunes(s: State, k: nat, ns: seq<string>)
    requires WF(s) && k < |s.rulelists|
    ensures var o := DeleteListed(s, k, ns);
      && (o.Done? ==> Distinct(ns) && Exist(s, ns) && SameButList(Prune(s, RuleClosure(s, SetOf(ns))), o.reg, k))
      && (Distinct(ns) && Exist(s, ns) && AllIn(ns, s.rulelists[k].body) ==> o.Done?)
    decreases |ns|
  {
    if ns == [] {
      assert RuleClosure(s, SetOf(ns)) == Drops({}, {}, {});
      PruneNothing(s);
    } else if Has(s.rules, ns[0]) {
      var n, rest := ns[0], ns[1..];
      assert ns == [n] + rest;
      DeleteListedStep(s, k, n);
      var o := DeleteListedOnce(s, k, n);
      if o.Done? {
        var t := o.reg;
        PruneKeeps(s, RuleClosure(s, {n}));
        NamesStay(Prune(s, RuleClosure(s, {n})), t, k);
        DeleteListedPrunes(t, k, rest);
        StillExist(s, t, n, rest);
        var u := DeleteListed(t, k, rest);
        if u.Done? {
          ThenTheRest(s, t, u.reg, k, n, rest);
        }
      }
    }
  }

  /** The main fact about `deleteRuleList`: recursively, it succeeds exactly for a known list
      of distinct existing rules, and then removes the list and the closure of its rules. */
  lemma DeleteRuleListPrunes(s: State, n: string)
    requires WF(s)
    ensures var o := DeleteRuleList(s, n, true);
      && (o.Done? <==> Has(s.rulelists, n)
                       && Distinct(s.rulelists[Find(s.rulelists, n)].body)
                       && Exist(s, s.rulelists[Find(s.rulelists, n)].body))
      && (o.Done? ==> o.reg == Prune(s, RuleClosure(s, SetOf(s.rulelists[Find(s.rulelists, n)].body)))
                               .(rulelists := Keep(s.rulelists, {n})))
  {
    var k := Find(s.rulelists, n);
    if k >= 0 {
      var ns := s.rulelists[k].body;
      DeleteListedPrunes(s, k, ns);
      SpliceKeeps(s.rulelists, k);
      var o := DeleteListed(s, k, ns);
      if o.Done? {
        assert Splice(o.reg.rulelists, k) == Splice(s.rulelists, k);
      }
    }
  }
}
