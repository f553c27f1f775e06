/** Rule evaluation: `Session.lookup` (session.js) over rule lists and rules (rule.js). */
module Lookup {
  import opened Basics

  /** A rule as one session sees it: whether its predicate holds of the session's metadata, and
      the rule list its action defers to, if any. */
  datatype Rule = Rule(matches: bool, apply: Option<string>)

  datatype Tables = Tables(lists: map<string, seq<string>>, rules: map<string, Rule>)

  /** What a pass over one rule list finds: the place of the first match, or of a rule that
      does not exist before any match, or neither. */
  datatype Scan = Hit(at: nat) | Missing(at: nat) | NoHit

  function ScanFrom(rules: map<string, Rule>, names: seq<string>, i: nat): Scan
    requires i <= |names|
    decreases |names| - i
  {
    if i == |names| then NoHit
    else if names[i] !in rules then Missing(i)
    else if rules[names[i]].matches then Hit(i)
    else ScanFrom(rules, names, i + 1)
  }

  /** The first match is the first: every rule before it exists and does not match. */
  predicate Passed(rules: map<string, Rule>, names: seq<string>, i: nat, j: nat) {
    i <= j <= |names| && forall k :: i <= k < j ==> names[k] in rules && !rules[names[k]].matches
  }

  lemma {:induction false} ScanIs(rules: map<string, Rule>, names: seq<string>, i: nat)
    requires i <= |names|
    ensures match ScanFrom(rules, names, i)
            case Hit(j) => j < |names| && Passed(rules, names, i, j) && names[j] in rules && rules[names[j]].matches
            case Missing(j) => j < |names| && Passed(rules, names, i, j) && names[j] !in rules
            case NoHit => Passed(rules, names, i, |names|)
    decreases |names| - i
  {
    if i < |names| && names[i] in rules && !rules[names[i]].matches {
      ScanIs(rules, names, i + 1);
    }
  }

  // --------------------------------------------------------------------- chains of deferrals

  /** The list that a lookup in l goes on to, if its first match defers. */
  function Next(t: Tables, l: string): Option<string> {
    if l !in t.lists then None
    else
      var names := t.lists[l];
      ScanIs(t.rules, names, 0);
      match ScanFrom(t.rules, names, 0)
      case Hit(i) => t.rules[names[i]].apply
      case _ => None
  }

  /** The list reached after k deferrals. */
  function Deferred(t: Tables, l: string, k: nat): Option<string>
    decreases k
  {
    if k == 0 then Some(l)
    else
      var n := Next(t, l);
      if n.None? then None else Deferred(t, n.value, k - 1)
  }

  ghost predicate Terminates(t: Tables, l: string) { exists k: nat :: Deferred(t, l, k).None? }

  /** No list is reached twice. */
  ghost predicate NoRevisit(t: Tables, l: string) {
    forall i: nat, j: nat :: i < j && Deferred(t, l, j).Some? && Deferred(t, l, i).Some? ==>
      Deferred(t, l, i) != Deferred(t, l, j)
  }

  lemma {:induction false} DeferredStep(t: Tables, l: string, k: nat)
    ensures Deferred(t, l, k + 1) ==
            if Deferred(t, l, k).None? then None else Next(t, Deferred(t, l, k).value)
    decreases k
  {
    if k > 0 && Next(t, l).Some? {
      DeferredStep(t, Next(t, l).value, k - 1);
    }
  }

  lemma {:induction false} OnceOver(t: Tables, l: string, k: nat, m: nat)
    requires Deferred(t, l, k).None? && k <= m
    ensures Deferred(t, l, m).None?
    decreases m
  {
    if k < m {
      OnceOver(t, l, k, m - 1);
      DeferredStep(t, l, m - 1);
    }
  }

  /** Once a list is reached twice, the lookup goes round for ever. */
  lemma {:induction false} Rounds(t: Tables, l: string, i: nat, j: nat, n: nat)
    requires i < j && Deferred(t, l, i).Some? && Deferred(t, l, i) == Deferred(t, l, j)
    ensures Deferred(t, l, i + n) == Deferred(t, l, j + n)
    decreases n
  {
    if n > 0 {
      Rounds(t, l, i, j, n - 1);
      DeferredStep(t, l, i + n - 1);
      DeferredStep(t, l, j + n - 1);
    }
  }

  lemma {:induction false} NeverOver(t: Tables, l: string, i: nat, j: nat, k: nat)
    requires i < j && Deferred(t, l, i).Some? && Deferred(t, l, i) == Deferred(t, l, j)
    ensures Deferred(t, l, k).Some?
    decreases k
  {
    if k <= j {
      if Deferred(t, l, k).None? {
        OnceOver(t, l, k, j);
      }
    } else {
      NeverOver(t, l, i, j, k - (j - i));
      Rounds(t, l, i, j, k - j);
    }
  }

  function Visited(t: Tables, l: string, k: nat): set<string>
    requires k == 0 || Deferred(t, l, k - 1).Some?
  {
    if k == 0 then {}
    else
      StillRunning(t, l, k - 1);
      Visited(t, l, k - 1) + {Deferred(t, l, k - 1).value}
  }

  lemma StillRunning(t: Tables, l: string, k: nat)
    requires Deferred(t, l, k).Some?
    ensures k == 0 || Deferred(t, l, k - 1).Some?
  {
    if k > 0 && Deferred(t, l, k - 1).None? {
      OnceOver(t, l, k - 1, k);
    }
  }

  lemma {:induction false} VisitedAt(t: Tables, l: string, k: nat, x: string) returns (i: nat)
    requires k == 0 || Deferred(t, l, k - 1).Some?
    requires x in Visited(t, l, k)
    ensures i < k && Deferred(t, l, i) == Some(x)
    decreases k
  {
    if x == Deferred(t, l, k - 1).value {
      i := k - 1;
    } else {
      StillRunning(t, l, k - 1);
      i := VisitedAt(t, l, k - 1, x);
    }
  }

  lemma Unvisited(t: Tables, l: string, k: nat)
    requires NoRevisit(t, l) && Deferred(t, l, k).Some? && (k == 0 || Deferred(t, l, k - 1).Some?)
    ensures Deferred(t, l, k).value !in Visited(t, l, k)
  {
    if Deferred(t, l, k).value in Visited(t, l, k) {
      var i := VisitedAt(t, l, k, Deferred(t, l, k).value);
      assert false;
    }
  }

  /** As long as no list repeats, each deferral uses up a registered list. */
  lemma {:induction false} VisitedGrows(t: Tables, l: string, k: nat)
    requires NoRevisit(t, l) && Deferred(t, l, k).Some?
    ensures k == 0 || Deferred(t, l, k - 1).Some?
    ensures Visited(t, l, k) <= t.lists.Keys && |Visited(t, l, k)| == k
    decreases k
  {
    if k > 0 {
      StillRunning(t, l, k);
      VisitedGrows(t, l, k - 1);
      Unvisited(t, l, k - 1);
      DeferredStep(t, l, k - 1);
    }
  }

  lemma SubsetSize(a: set<string>, b: set<string>)
    requires a <= b
    ensures |a| <= |b|
  {
    assert b == a + (b - a);
  }

  /** A lookup ends exactly when its chain of deferrals does not come back to a list. */
  lemma TerminatesIff(t: Tables, l: string)
    ensures Terminates(t, l) <==> NoRevisit(t, l)
  {
    if NoRevisit(t, l) {
      var k := |t.lists.Keys| + 1;
      if Deferred(t, l, k).Some? {
        VisitedGrows(t, l, k);
        SubsetSize(Visited(t, l, k), t.lists.Keys);
      }
      assert Deferred(t, l, k).None?;
    }
    if !NoRevisit(t, l) {
      var i: nat, j: nat :| i < j && Deferred(t, l, j).Some? && Deferred(t, l, i).Some?
                  && Deferred(t, l, i) == Deferred(t, l, j);
      forall k: nat
        ensures Deferred(t, l, k).Some?
      {
        NeverOver(t, l, i, j, k);
      }
    }
  }

  /** Deferrals between registered lists go down in rank, whatever matches. */
  ghost predicate Acyclic(t: Tables, rank: map<string, nat>) {
    t.lists.Keys <= rank.Keys &&
    forall l, i :: l in t.lists && 0 <= i < |t.lists[l]| && t.lists[l][i] in t.rules ==>
      var a := t.rules[t.lists[l][i]].apply;
      a.Some? && a.value in t.lists ==> rank[a.value] < rank[l]
  }

  /** Acyclic deferral references make every lookup end, with any metadata. */
  lemma {:induction false} AcyclicTerminates(t: Tables, rank: map<string, nat>, l: string)
    requires Acyclic(t, rank)
    ensures Terminates(t, l)
    decreases if l in t.lists then rank[l] + 1 else 0
  {
    var n := Next(t, l);
    if l in t.lists && n.Some? {
      ScanIs(t.rules, t.lists[l], 0);
      AcyclicTerminates(t, rank, n.value);
      var k: nat :| Deferred(t, n.value, k).None?;
      assert Deferred(t, l, k + 1).None?;
    } else {
      assert Deferred(t, l, 1).None?;
    }
  }

  // ------------------------------------------------------------------------------ the lookup

  datatype Outcome =
    | Found(list: string, rule: string)
    | NoMatch
    | NoSuchList(list: string)
    | NoSuchRule(list: string, rule: string)

  /** What the lookup returns, and the rules whose `total_applied` it bumps. The bound n on the
      number of deferrals is ghost: any bound gives the same result. */
  function Find(t: Tables, l: string, ghost n: nat): (r: (Outcome, seq<string>))
    requires Deferred(t, l, n).None?
    decreases n
  {
    if l !in t.lists then (NoSuchList(l), [])
    else
      var names := t.lists[l];
      ScanIs(t.rules, names, 0);
      match ScanFrom(t.rules, names, 0)
      case NoHit => (NoMatch, [])
      case Missing(i) => (NoSuchRule(l, names[i]), [])
      case Hit(i) =>
        var a := t.rules[names[i]].apply;
        if a.None? then (Found(l, names[i]), [names[i]])
        else
          var r := Find(t, a.value, n - 1);
          (r.0, [names[i]] + r.1)
  }

  /** The list where the chain of deferrals stops. */
  predicate LastList(t: Tables, l: string, k: nat, last: string) {
    Deferred(t, l, k) == Some(last) && Next(t, last).None?
  }

  /** What one pass over the last list gives. */
  function Verdict(t: Tables, last: string): Outcome {
    if last !in t.lists then NoSuchList(last)
    else
      var names := t.lists[last];
      ScanIs(t.rules, names, 0);
      match ScanFrom(t.rules, names, 0)
      case NoHit => NoMatch
      case Missing(i) => NoSuchRule(last, names[i])
      case Hit(i) => Found(last, names[i])
  }

  /** It is the first rule of the list that matches or does not exist, or that all rules exist and
      do not match, or that there is no such list. */
  lemma VerdictIs(t: Tables, last: string)
    ensures match Verdict(t, last)
            case NoSuchList(l) => l == last && last !in t.lists
            case NoMatch =>
              last in t.lists &&
              forall k :: 0 <= k < |t.lists[last]| ==>
                t.lists[last][k] in t.rules && !t.rules[t.lists[last][k]].matches
            case NoSuchRule(l, x) =>
              l == last && last in t.lists && x !in t.rules && FirstIn(t, t.lists[last], x)
            case Found(l, x) =>
              l == last && last in t.lists && x in t.rules && t.rules[x].matches && FirstIn(t, t.lists[last], x)
  {
    if last in t.lists {
      var names := t.lists[last];
      ScanIs(t.rules, names, 0);
      match ScanFrom(t.rules, names, 0)
      case NoHit =>
      case Missing(i) => assert Passed(t.rules, names, 0, i);
      case Hit(i) => assert Passed(t.rules, names, 0, i);
    }
  }

  /** x stands in the list, and every rule before it exists and does not match. */
  ghost predicate FirstIn(t: Tables, names: seq<string>, x: string) {
    exists i :: 0 <= i < |names| && names[i] == x
      && forall k :: 0 <= k < i ==> names[k] in t.rules && !t.rules[names[k]].matches
  }

  /** The outcome is decided by the last list of the chain alone, and one rule per list on the
      way is counted. */
  lemma {:induction false} DecidedByLastList(t: Tables, l: string, n: nat)
    requires Deferred(t, l, n).None?
    ensures exists k: nat, last :: LastList(t, l, k, last) && Find(t, l, n).0 == Verdict(t, last)
                              && |Find(t, l, n).1| == k + (if Find(t, l, n).0.Found? then 1 else 0)
    decreases n
  {
    var m := Next(t, l);
    if m.None? {
      assert LastList(t, l, 0, l);
    } else {
      DecidedByLastList(t, m.value, n - 1);
      var k: nat, last :| LastList(t, m.value, k, last) && Find(t, m.value, n - 1).0 == Verdict(t, last)
                     && |Find(t, m.value, n - 1).1| == k + (if Find(t, m.value, n - 1).0.Found? then 1 else 0);
      assert LastList(t, l, k + 1, last);
    }
  }

  /** The rules counted, in order: for each list of the chain but the last its first match; and
      that of the last list if it decides. The k-th list of the chain is `Deferred(t, l, k)`. */
  lemma {:induction false} CountsFirstMatches(t: Tables, l: string, n: nat, k: nat)
    requires Deferred(t, l, n).None? && k < |Find(t, l, n).1|
    ensures Deferred(t, l, k).Some? && Deferred(t, l, k).value in t.lists
    ensures var names := t.lists[Deferred(t, l, k).value];
      exists i :: 0 <= i < |names| && names[i] == Find(t, l, n).1[k]
        && names[i] in t.rules && t.rules[names[i]].matches
        && forall j :: 0 <= j < i ==> names[j] in t.rules && !t.rules[names[j]].matches
    decreases n
  {
    var names := t.lists[l];
    ScanIs(t.rules, names, 0);
    if k > 0 {
      CountsFirstMatches(t, Next(t, l).value, n - 1, k - 1);
    } else {
      assert ScanFrom(t.rules, names, 0).Hit?;
      var i := ScanFrom(t.rules, names, 0).at;
      assert names[i] == Find(t, l, n).1[0];
    }
  }

  /** A rule that decides is the last one counted, and stands in the list that decides. */
  lemma {:induction false} FoundIsCounted(t: Tables, l: string, n: nat)
    requires Deferred(t, l, n).None? && Find(t, l, n).0.Found?
    ensures var r := Find(t, l, n);
      && r.1 != [] && r.1[|r.1| - 1] == r.0.rule
      && Deferred(t, l, |r.1| - 1) == Some(r.0.list)
      && r.0.rule in t.rules && t.rules[r.0.rule].apply.None?
    decreases n
  {
    ScanIs(t.rules, t.lists[l], 0);
    if Next(t, l).Some? {
      FoundIsCounted(t, Next(t, l).value, n - 1);
    }
  }

  /** A deferral commits: when the first match of a list defers to another list, the outcome is
      the other list's, whatever rules come after the match. */
  lemma DeferralCommits(t: Tables, l: string, i: nat, m: string, n: nat)
    requires l in t.lists && ScanFrom(t.rules, t.lists[l], 0) == Hit(i)
    requires i < |t.lists[l]| && t.lists[l][i] in t.rules && t.rules[t.lists[l][i]].apply == Some(m)
    requires Deferred(t, l, n).None?
    ensures n > 0 && Deferred(t, m, n - 1).None? && Find(t, l, n).0 == Find(t, m, n - 1).0
    ensures m in t.lists && Passed(t.rules, t.lists[m], 0, |t.lists[m]|) ==> Find(t, l, n).0 == NoMatch
  {
    assert Next(t, l) == Some(m);
    if m in t.lists {
      ScanIs(t.rules, t.lists[m], 0);
    }
  }

  /** Rules after the first match of a list never matter. */
  lemma {:induction false} TailIgnored(rules: map<string, Rule>, names: seq<string>, others: seq<string>,
                                       i: nat, j: nat)
    requires i <= j < |names| && j < |others| && names[..j + 1] == others[..j + 1]
    requires ScanFrom(rules, names, i) == Hit(j)
    ensures ScanFrom(rules, others, i) == Hit(j)
    decreases |names| - i
  {
    assert names[i] == names[..j + 1][i] == others[..j + 1][i] == others[i];
    if i < j {
      TailIgnored(rules, names, others, i + 1, j);
    } else {
      ScanIs(rules, names, i + 1);
    }
  }

  /** The bound does not matter. */
  lemma {:induction false} BoundIrrelevant(t: Tables, l: string, n: nat, m: nat)
    requires Deferred(t, l, n).None? && Deferred(t, l, m).None?
    ensures Find(t, l, n) == Find(t, l, m)
    decreases n
  {
    if Next(t, l).Some? {
      BoundIrrelevant(t, Next(t, l).value, n - 1, m - 1);
    }
  }

  // ------------------------------------------------------------------------------ the object

  /** Adds one for every occurrence. */
  function Bump(counts: map<string, nat>, ns: seq<string>): map<string, nat>
    decreases |ns|
  {
    if ns == [] then counts
    else Bump(counts[ns[0] := (if ns[0] in counts then counts[ns[0]] else 0) + 1], ns[1..])
  }

  /** Each rule's count goes up by the number of times it occurs. */
  lemma {:induction false} BumpCounts(counts: map<string, nat>, ns: seq<string>, x: string)
    ensures var c := Bump(counts, ns);
      (if x in c then c[x] else 0) == (if x in counts then counts[x] else 0) + multiset(ns)[x]
    decreases |ns|
  {
    if ns != [] {
      BumpCounts(counts[ns[0] := (if ns[0] in counts then counts[ns[0]] else 0) + 1], ns[1..], x);
      assert ns == [ns[0]] + ns[1..];
    }
  }

  class Session {
    const tables: Tables
    var applied: map<string, nat>
    var events: seq<(string, string)>

    constructor (t: Tables)
      ensures tables == t && applied == map[] && events == []
    {
      tables := t;
      applied, events := map[], [];
    }

    /** `Rule.apply`: a match is counted. */
    method ApplyRule(name: string) returns (matched: bool)
      requires name in tables.rules
      modifies this`applied
      ensures matched == tables.rules[name].matches
      ensures applied == if matched then Bump(old(applied), [name]) else old(applied)
    {
      matched := tables.rules[name].matches;
      if matched {
        applied := applied[name := (if name in applied then applied[name] else 0) + 1];
      }
    }

    /** `lookup`: counts the matching rule of every list on the way, and records the list and
        rule that decided. */
    method LookUp(l: string, ghost n: nat) returns (r: Outcome)
      requires Deferred(tables, l, n).None?
      modifies this
      ensures r == Find(tables, l, n).0
      ensures applied == Bump(old(applied), Find(tables, l, n).1)
      ensures events == old(events) + if r.Found? then [(r.list, r.rule)] else []
      decreases n
    {
      if l !in tables.lists {
        return NoSuchList(l);
      }
      var names := tables.lists[l];
      var i := 0;
      while i < |names|
        invariant 0 <= i <= |names|
        invariant ScanFrom(tables.rules, names, 0) == ScanFrom(tables.rules, names, i)
        invariant applied == old(applied) && events == old(events)
      {
        if names[i] !in tables.rules {
          return NoSuchRule(l, names[i]);
        }
        var matched := ApplyRule(names[i]);
        if matched {
          var a := tables.rules[names[i]].apply;
          if a.Some? {
            assert Next(tables, l) == a;
            r := LookUp(a.value, n - 1);
            return;
          }
          events := events + [(l, names[i])];
          return Found(l, names[i]);
        }
        i := i + 1;
      }
      r := NoMatch;
    }
  }
}
