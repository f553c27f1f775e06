/** Edits of rule lists and listeners, and the deletes that are not recursive, exactly. */
module RegistryEdits {
  import opened Basics
  import opened Registry
  import opened RegistryContents
  import opened RegistryPlaces
  import opened RegistryLists
  import opened RegistryDeletes
  import opened RegistryClosure

  // ------------------------------------------------------------------------------ rule lists

  lemma InlineRulePut(s: State, prefix: string, r: RuleSpec)
    requires AddInlineRule(s, prefix, r).0.Done?
    ensures var o := AddInlineRule(s, prefix, r);
      && o.0.reg.rulelists == s.rulelists && o.0.reg.listeners == s.listeners
      && |o.0.reg.rules| == |s.rules| + 1 && o.0.reg.rules[..|s.rules|] == s.rules
      && o.0.reg.rules[|s.rules|].name == o.1 && o.0.reg.rules[|s.rules|].auto
      && (if Given(r.name) then o.1 == r.name.value else Derived(prefix + Decimal(s.ids.rule), o.1))
      && o.0.reg.ids.rule == s.ids.rule + if Given(r.name) then 0 else 1
  {
    var base := prefix + Decimal(s.ids.rule);
    PicksName(r.name, s.rules, base);
    AddRulePuts(CountRule(s, r.name), r.(name := PickName(r.name, s.rules, base)), true);
  }

  /** A rule goes into list k at the position asked for, the rest of the list closing up around it;
      a position outside of the list, or a rule that is none, changes nothing. */
  lemma AddRuleToRuleListInserts(s: State, k: nat, u: Use<RuleSpec>, pos: int)
    requires k < |s.rulelists|
    ensures var o, ns := AddRuleToRuleList(s, k, u, pos), s.rulelists[k].body;
      && (pos < 0 || pos > |ns| || u.Other? ==> o == Thrown(s, Invalid))
      && (0 <= pos <= |ns| && u.Named? ==> o.Done?)
      && (o.Done? ==>
            && 0 <= pos <= |ns|
            && exists n ::
                 && o.reg.rulelists == s.rulelists[k := s.rulelists[k].(body := ns[..pos] + [n] + ns[pos..])]
                 && o.reg.listeners == s.listeners
                 && match u
                    case Other => false
                    case Named(m) => n == m && o.reg == s.(rulelists := o.reg.rulelists)
                    case Inline(r) =>
                      && (if Given(r.name) then n == r.name.value
                          else Derived(s.rulelists[k].name + "-Rule-" + Decimal(s.ids.rule), n))
                      && o.reg.ids.rule == s.ids.rule + (if Given(r.name) then 0 else 1)
                      && |o.reg.rules| == |s.rules| + 1 && o.reg.rules[..|s.rules|] == s.rules
                      && o.reg.rules[|s.rules|].name == n && o.reg.rules[|s.rules|].auto)
  {
    var o, ns := AddRuleToRuleList(s, k, u, pos), s.rulelists[k].body;
    if o.Done? && u.Inline? {
      InlineRulePut(s, s.rulelists[k].name + "-Rule-", u.spec);
      var n := AddInlineRule(s, s.rulelists[k].name + "-Rule-", u.spec).1;
      assert o.reg.rulelists == s.rulelists[k := s.rulelists[k].(body := ns[..pos] + [n] + ns[pos..])];
    } else if o.Done? && u.Named? {
      assert o.reg.rulelists == s.rulelists[k := s.rulelists[k].(body := ns[..pos] + [u.name] + ns[pos..])];
    }
  }

  /** The names of a list's rules, place by place. */
  predicate RulesInPlace(us: seq<Use<RuleSpec>>, ns: seq<string>) {
    |ns| == |us| && forall i :: 0 <= i < |us| ==>
      match us[i]
      case Other => false
      case Named(n) => ns[i] == n
      case Inline(r) => Given(r.name) ==> ns[i] == r.name.value
  }

  /** List k got the names ns at its end; no other list changed. */
  predicate Appended(s: State, t: State, k: nat, ns: seq<string>) {
    && k < |s.rulelists| && t.listeners == s.listeners
    && t.rulelists == s.rulelists[k := s.rulelists[k].(body := s.rulelists[k].body + ns)]
  }

  lemma FirstAppended(s: State, k: nat, u: Use<RuleSpec>) returns (n: string)
    requires k < |s.rulelists| && AddRuleToRuleList(s, k, u, |s.rulelists[k].body|).Done?
    ensures Appended(s, AddRuleToRuleList(s, k, u, |s.rulelists[k].body|).reg, k, [n]) && RulesInPlace([u], [n])
  {
    var ns := s.rulelists[k].body;
    var t := AddRuleToRuleList(s, k, u, |ns|).reg;
    AddRuleToRuleListInserts(s, k, u, |ns|);
    n :| && t.rulelists == s.rulelists[k := s.rulelists[k].(body := ns[..|ns|] + [n] + ns[|ns|..])]
         && match u
            case Other => false
            case Named(m) => n == m
            case Inline(r) => Given(r.name) ==> n == r.name.value;
    assert ns[..|ns|] + [n] + ns[|ns|..] == ns + [n];
  }

  lemma AppendedChains(s: State, t: State, v: State, k: nat, n: string, ns: seq<string>)
    requires Appended(s, t, k, [n]) && Appended(t, v, k, ns)
    ensures Appended(s, v, k, [n] + ns)
  {
    assert s.rulelists[k].body + [n] + ns == s.rulelists[k].body + ([n] + ns);
  }

  lemma {:induction false} AddRulesAppend(s: State, k: nat, us: seq<Use<RuleSpec>>) returns (ns: seq<string>)
    requires k < |s.rulelists| && AddRules(s, k, us, |s.rulelists[k].body|).Done?
    ensures Appended(s, AddRules(s, k, us, |s.rulelists[k].body|).reg, k, ns) && RulesInPlace(us, ns)
    decreases |us|
  {
    if us == [] {
      ns := [];
      assert s.rulelists[k].body + [] == s.rulelists[k].body;
    } else {
      var n := FirstAppended(s, k, us[0]);
      var t := AddRuleToRuleList(s, k, us[0], |s.rulelists[k].body|).reg;
      var rest := AddRulesAppend(t, k, us[1..]);
      ns := [n] + rest;
      AppendedChains(s, t, AddRules(t, k, us[1..], |t.rulelists[k].body|).reg, k, n, rest);
      assert us == [us[0]] + us[1..];
    }
  }

  /** A new rule list stands at the end, and names its rules in the order given. */
  lemma AddRuleListPuts(s: State, name: Option<string>, us: seq<Use<RuleSpec>>, auto: bool)
    requires AddRuleList(s, name, us, auto).Done?
    ensures var t := AddRuleList(s, name, us, auto).reg;
      && t.listeners == s.listeners
      && exists ns :: RulesInPlace(us, ns) && t.rulelists == s.rulelists + [Entry(name.value, auto, ns)]
  {
    var p := s.(rulelists := s.rulelists + [Entry(name.value, auto, [])]);
    var ns := AddRulesAppend(p, |s.rulelists|, us);
    assert [] + ns == ns;
    assert AddRuleList(s, name, us, auto).reg.rulelists == s.rulelists + [Entry(name.value, auto, ns)];
  }

  lemma AddRuleListRefuses(s: State, name: Option<string>, us: seq<Use<RuleSpec>>, auto: bool)
    ensures !ValidName(name) ==> AddRuleList(s, name, us, auto) == Thrown(s, Invalid)
    ensures ValidName(name) && Used(s.rulelists, name.value) ==> AddRuleList(s, name, us, auto) == Thrown(s, Duplicate)
  {
    if ValidName(name) {
      FindIsFirst(s.rulelists, name.value);
    }
  }

  // ------------------------------------------------------------------------------- listeners

  /** A new listener stands at the end; a reference to a rule list is kept as it is, bound or not,
      and own rules become an autogenerated list under a name made up from the listener's. */
  lemma AddListenerPuts(s: State, l: ListenerSpec, auto: bool)
    requires AddListener(s, l, auto).Done?
    ensures var t := AddListener(s, l, auto).reg;
      && l.starts
      && |t.listeners| == |s.listeners| + 1 && t.listeners[..|s.listeners|] == s.listeners
      && t.listeners[|s.listeners|].name == l.name.value && t.listeners[|s.listeners|].auto == auto
      && match l.rules
         case Reference(n) => t.listeners[|s.listeners|].body == n && t == s.(listeners := t.listeners)
         case Listing(us) =>
           var n := t.listeners[|s.listeners|].body;
           && Derived(l.name.value + "-RuleList-" + Decimal(s.ids.rulelist), n)
           && t.ids.rulelist == s.ids.rulelist + 1
           && exists ns :: RulesInPlace(us, ns) && t.rulelists == s.rulelists + [Entry(n, true, ns)]
  {
    if l.rules.Listing? {
      var base := l.name.value + "-RuleList-" + Decimal(s.ids.rulelist);
      PicksName(None, s.rulelists, base);
      AddRuleListPuts(CountList(s), OwnListName(s, l.name.value), l.rules.rules, true);
      ListCounter(CountList(s), OwnListName(s, l.name.value), l.rules.rules, true);
    }
  }

  lemma {:induction false} RulesCounter(s: State, k: nat, us: seq<Use<RuleSpec>>, pos: nat)
    requires k < |s.rulelists|
    ensures AddRules(s, k, us, pos).Done? ==> AddRules(s, k, us, pos).reg.ids.rulelist == s.ids.rulelist
    decreases |us|
  {
    if us != [] {
      var o := AddRuleToRuleList(s, k, us[0], pos);
      if o.Done? {
        if us[0].Inline? {
          RuleCounter(s, s.rulelists[k].name + "-Rule-", us[0].spec);
        }
        RulesCounter(o.reg, k, us[1..], pos + 1);
      }
    }
  }

  lemma RuleCounter(s: State, prefix: string, r: RuleSpec)
    requires AddInlineRule(s, prefix, r).0.Done?
    ensures AddInlineRule(s, prefix, r).0.reg.ids.rulelist == s.ids.rulelist
  {
    var n := PickName(r.name, s.rules, prefix + Decimal(s.ids.rule));
    var s1 := CountRule(s, r.name);
    if r.route.Some? && r.route.value.Inline? {
      var p := PushRule(s1, n.value, r.(name := n), true);
      RouteCounter(p, n.value + "-Route-", r.route.value.spec);
    }
  }

  lemma RouteCounter(s: State, prefix: string, x: RouteSpec)
    requires AddInlineRoute(s, prefix, x).0.Done?
    ensures AddInlineRoute(s, prefix, x).0.reg.ids.rulelist == s.ids.rulelist
  {
    var n := PickName(x.name, s.routes, prefix + Decimal(s.ids.route));
    AddRouteStores(CountRoute(s, x.name), x.(name := n), true);
  }

  lemma ListCounter(s: State, name: Option<string>, us: seq<Use<RuleSpec>>, auto: bool)
    requires AddRuleList(s, name, us, auto).Done?
    ensures AddRuleList(s, name, us, auto).reg.ids.rulelist == s.ids.rulelist
  {
    RulesCounter(s.(rulelists := s.rulelists + [Entry(name.value, auto, [])]), |s.rulelists|, us, 0);
  }

  /** Whether adding a listener succeeds is up to its start and, for own rules, to their list. */
  lemma AddListenerSucceeds(s: State, l: ListenerSpec, auto: bool)
    requires ValidName(l.name) && l.wellFormed && !Used(s.listeners, l.name.value) && l.known
    ensures l.rules.Reference? ==> (AddListener(s, l, auto).Done? <==> l.starts)
    ensures l.rules.Listing? ==>
              (AddListener(s, l, auto).Done? <==>
               l.starts && OwnListName(s, l.name.value).Some? &&
               var s1 := s.(ids := s.ids.(rulelist := s.ids.rulelist + 1));
               AddRuleList(s1, OwnListName(s, l.name.value), l.rules.rules, true).Done?)
  {
    FindIsFirst(s.listeners, l.name.value);
  }

  lemma AddListenerRefuses(s: State, l: ListenerSpec, auto: bool)
    ensures !ValidName(l.name) || !l.wellFormed ==> AddListener(s, l, auto) == Thrown(s, Invalid)
    ensures ValidName(l.name) && l.wellFormed && Used(s.listeners, l.name.value) ==>
              AddListener(s, l, auto) == Thrown(s, Duplicate)
    ensures ValidName(l.name) && l.wellFormed && !Used(s.listeners, l.name.value) && !l.known ==>
              AddListener(s, l, auto) == Thrown(s, Unsupported)
  {
    if ValidName(l.name) {
      FindIsFirst(s.listeners, l.name.value);
    }
  }

  // --------------------------------------------------------------------------------- deletes

  /** The first entry of the name is taken out, and no other. */
  ghost predicate FirstGone<B>(es: seq<Entry<B>>, n: string, rest: seq<Entry<B>>) {
    exists i :: FirstOf(es, i, n) && rest == es[..i] + es[i + 1..]
  }

  lemma SplicesFirst<B>(es: seq<Entry<B>>, n: string)
    requires Has(es, n)
    ensures FirstGone(es, n, Splice(es, Find(es, n)))
  {
    FindIsFirst(es, n);
    assert FirstOf(es, Find(es, n), n);
  }

  /** A delete that is not recursive takes out exactly the object named, or throws for an unknown
      name and changes nothing: so for routes, rules, rule lists and listeners. */
  lemma PlainRouteDelete(s: State, n: string)
    ensures var o := DeleteRoute(s, n, false);
      if Used(s.routes, n) then o == Done(s.(routes := o.reg.routes)) && FirstGone(s.routes, n, o.reg.routes)
      else o == Thrown(s, Unknown)
  {
    FindIsFirst(s.routes, n);
    if Has(s.routes, n) {
      SplicesFirst(s.routes, n);
    }
  }

  lemma PlainRuleDelete(s: State, n: string)
    ensures var o := DeleteRule(s, n, false);
      if Used(s.rules, n) then o == Done(s.(rules := o.reg.rules)) && FirstGone(s.rules, n, o.reg.rules)
      else o == Thrown(s, Unknown)
  {
    FindIsFirst(s.rules, n);
    if Has(s.rules, n) {
      SplicesFirst(s.rules, n);
    }
  }

  lemma PlainRuleListDelete(s: State, n: string)
    ensures var o := DeleteRuleList(s, n, false);
      if Used(s.rulelists, n) then
        o == Done(s.(rulelists := o.reg.rulelists)) && FirstGone(s.rulelists, n, o.reg.rulelists)
      else o == Thrown(s, Unknown)
  {
    FindIsFirst(s.rulelists, n);
    if Has(s.rulelists, n) {
      SplicesFirst(s.rulelists, n);
    }
  }

  lemma PlainListenerDelete(s: State, n: string)
    ensures var o := DeleteListener(s, n, false);
      if Used(s.listeners, n) then
        o == Done(s.(listeners := o.reg.listeners)) && FirstGone(s.listeners, n, o.reg.listeners)
      else o == Thrown(s, Unknown)
  {
    FindIsFirst(s.listeners, n);
    if Has(s.listeners, n) {
      SplicesFirst(s.listeners, n);
    }
  }

  /** Deleting by position takes out the name at that position; the position one past the end is
      let through and takes out nothing; recursively the rule itself goes first, and when that
      throws the list stays. */
  lemma DeleteRuleFromRuleListTakesOut(s: State, k: nat, pos: int, recursive: bool)
    requires k < |s.rulelists|
    ensures var o, ns := DeleteRuleFromRuleList(s, k, pos, recursive), s.rulelists[k].body;
      && (pos < 0 || pos > |ns| ==> o == Thrown(s, Invalid))
      && (pos == |ns| ==> o == if recursive then Thrown(s, Unknown) else Done(s))
      && (0 <= pos < |ns| && !recursive ==>
            o == Done(s.(rulelists := s.rulelists[k := s.rulelists[k].(body := ns[..pos] + ns[pos + 1..])])))
      && (0 <= pos < |ns| && recursive ==>
            var d, rest := DeleteRule(s, ns[pos], true), s.rulelists[k].(body := ns[..pos] + ns[pos + 1..]);
            && d.reg.rulelists == s.rulelists
            && o == if d.Thrown? then d else Done(d.reg.(rulelists := s.rulelists[k := rest])))
  {
  }

  /** The recursive delete of a listener: its rule list goes with it when that was autogenerated,
      with the closure of the list's rules, and then throws exactly when a listed rule is missing
      or listed twice; any other rule list stays. */
  lemma DeleteListenerPrunes(s: State, n: string)
    requires WF(s)
    ensures var o := DeleteListener(s, n, true);
      if !Used(s.listeners, n) then o == Thrown(s, Unknown)
      else
        exists i :: FirstOf(s.listeners, i, n) &&
          var rl, ls := s.listeners[i].body, s.listeners[..i] + s.listeners[i + 1..];
          if forall k :: 0 <= k < |s.rulelists| && s.rulelists[k].name == rl ==> !s.rulelists[k].auto
          then o == Done(s.(listeners := ls))
          else
            exists k :: 0 <= k < |s.rulelists| && s.rulelists[k].name == rl &&
              var ns := s.rulelists[k].body;
              && (o.Done? <==> Distinct(ns) && forall m :: m in ns ==> Used(s.rules, m))
              && (o.Done? ==>
                    o.reg == Prune(s, RuleClosure(s, SetOf(ns)))
                             .(listeners := ls, rulelists := Keep(s.rulelists, {rl})))
  {
    FindIsFirst(s.listeners, n);
    if Has(s.listeners, n) {
      var i := Find(s.listeners, n);
      var rl := s.listeners[i].body;
      assert FirstOf(s.listeners, i, n);
      FindIsFirst(s.rulelists, rl);
      var k := Find(s.rulelists, rl);
      if k >= 0 {
        forall j | 0 <= j < |s.rulelists| && s.rulelists[j].name == rl
          ensures j == k
        {
        }
        if s.rulelists[k].auto {
          DeleteRuleListPrunes(s, rl);
          forall m
            ensures Has(s.rules, m) <==> Used(s.rules, m)
          {
            FindIsFirst(s.rules, m);
          }
        }
      }
    }
  }
}
