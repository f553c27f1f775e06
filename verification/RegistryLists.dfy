/** Named sequences: what finding, splicing and filtering by name do to them. */
module RegistryLists {
  import opened Registry
  import C = Clusters

  ghost function Names<B>(es: seq<Entry<B>>): set<string> { set e | e in es :: e.name }

  predicate Unique<B>(es: seq<Entry<B>>) {
    forall i, j :: 0 <= i < j < |es| ==> es[i].name != es[j].name
  }

  /** The entries whose names are not dropped, in order. */
  function Keep<B>(es: seq<Entry<B>>, drop: set<string>): seq<Entry<B>> {
    if es == [] then []
    else
      var e := es[|es| - 1];
      var rest := Keep(es[..|es| - 1], drop);
      if e.name in drop then rest else rest + [e]
  }

  /** The endpoints whose cluster is not dropped, in order. */
  function KeepOf(es: seq<Entry<EndpointBody>>, drop: set<string>): seq<Entry<EndpointBody>> {
    if es == [] then []
    else
      var e := es[|es| - 1];
      var rest := KeepOf(es[..|es| - 1], drop);
      if e.body.cluster in drop then rest else rest + [e]
  }

  /** The endpoints of one cluster as the cluster lists them. */
  function Select(es: seq<Entry<EndpointBody>>, c: string): seq<C.Endpoint> {
    if es == [] then []
    else
      var e := es[|es| - 1];
      var rest := Select(es[..|es| - 1], c);
      if e.body.cluster == c then rest + [C.Endpoint(e.name, e.body.address)] else rest
  }

  lemma {:induction false} FindIs<B>(es: seq<Entry<B>>, n: string)
    ensures Has(es, n) <==> n in Names(es)
    ensures forall j :: 0 <= j < |es| && (j < Find(es, n) || !Has(es, n)) ==> es[j].name != n
  {
    if es != [] && es[0].name != n {
      FindIs(es[1..], n);
      assert es == [es[0]] + es[1..];
      if n in Names(es) {
        var e :| e in es && e.name == n;
        assert e in es[1..];
      }
      if n in Names(es[1..]) {
        var e :| e in es[1..] && e.name == n;
        assert e in es;
      }
    }
    if es != [] && es[0].name == n {
      assert es[0] in es;
    }
  }

  lemma FindAt<B>(es: seq<Entry<B>>, i: nat)
    requires Unique(es) && i < |es|
    ensures Find(es, es[i].name) == i
  {
    FindIs(es, es[i].name);
    assert es[i] in es;
  }

  lemma PushUnique<B>(es: seq<Entry<B>>, e: Entry<B>)
    requires Unique(es) && !Has(es, e.name)
    ensures Unique(es + [e]) && Names(es + [e]) == Names(es) + {e.name}
  {
    FindIs(es, e.name);
    NamesOfSum(es, [e]);
  }

  lemma NamesOfSum<B>(a: seq<Entry<B>>, b: seq<Entry<B>>)
    ensures Names(a + b) == Names(a) + Names(b)
  {
    forall n | n in Names(a) + Names(b)
      ensures n in Names(a + b)
    {
      var e :| (e in a || e in b) && e.name == n;
      assert e in a + b;
    }
  }

  lemma {:induction false} KeepIn<B>(es: seq<Entry<B>>, d: set<string>)
    ensures forall e :: e in Keep(es, d) <==> e in es && e.name !in d
  {
    if es != [] {
      KeepIn(es[..|es| - 1], d);
      assert es == es[..|es| - 1] + [es[|es| - 1]];
    }
  }

  lemma KeepNames<B>(es: seq<Entry<B>>, d: set<string>)
    ensures Names(Keep(es, d)) == Names(es) - d
  {
    KeepIn(es, d);
    var kept := Keep(es, d);
    forall n
      ensures n in Names(kept) <==> n in Names(es) && n !in d
    {
      if n in Names(es) && n !in d {
        var e :| e in es && e.name == n;
        assert e in kept;
      }
      if n in Names(kept) {
        var e :| e in kept && e.name == n;
        assert e in es;
      }
    }
  }

  lemma {:induction false} KeptAt<B>(es: seq<Entry<B>>, d: set<string>, j: nat)
    requires j < |Keep(es, d)|
    ensures exists i :: 0 <= i < |es| && es[i] == Keep(es, d)[j]
  {
    var init, e := es[..|es| - 1], es[|es| - 1];
    if j < |Keep(init, d)| {
      KeptAt(init, d, j);
      var i :| 0 <= i < |init| && init[i] == Keep(init, d)[j];
      assert es[i] == Keep(es, d)[j];
    }
  }

  lemma {:induction false} KeepUnique<B>(es: seq<Entry<B>>, d: set<string>)
    requires Unique(es)
    ensures Unique(Keep(es, d))
  {
    if es != [] {
      var init, e := es[..|es| - 1], es[|es| - 1];
      KeepUnique(init, d);
      forall j | 0 <= j < |Keep(init, d)|
        ensures Keep(init, d)[j].name != e.name
      {
        KeptAt(init, d, j);
        var i :| 0 <= i < |init| && init[i] == Keep(init, d)[j];
        assert es[i] == init[i];
      }
    }
  }

  lemma {:induction false} KeepKeep<B>(es: seq<Entry<B>>, d: set<string>, f: set<string>)
    ensures Keep(Keep(es, d), f) == Keep(es, d + f)
  {
    if es != [] {
      var init, e := es[..|es| - 1], es[|es| - 1];
      KeepKeep(init, d, f);
      if e.name !in d {
        assert (Keep(init, d) + [e])[..|Keep(init, d)|] == Keep(init, d);
      }
    }
  }

  lemma {:induction false} KeepSum<B>(a: seq<Entry<B>>, b: seq<Entry<B>>, d: set<string>)
    ensures Keep(a + b, d) == Keep(a, d) + Keep(b, d)
  {
    if b == [] {
      assert a + b == a;
    } else {
      KeepSum(a, b[..|b| - 1], d);
      assert (a + b)[..|a + b| - 1] == a + b[..|b| - 1];
    }
  }

  lemma {:induction false} KeepSame<B>(es: seq<Entry<B>>, d: set<string>)
    requires forall e :: e in es ==> e.name !in d
    ensures Keep(es, d) == es
  {
    if es != [] {
      KeepSame(es[..|es| - 1], d);
      assert es == es[..|es| - 1] + [es[|es| - 1]];
    }
  }

  lemma {:induction false} KeepNothing<B>(es: seq<Entry<B>>, d: set<string>)
    requires forall e :: e in es ==> e.name in d
    ensures Keep(es, d) == []
  {
    if es != [] {
      KeepNothing(es[..|es| - 1], d);
      assert es == es[..|es| - 1] + [es[|es| - 1]];
    }
  }

  lemma {:induction false} SpliceKeeps<B>(es: seq<Entry<B>>, i: nat)
    requires Unique(es) && i < |es|
    ensures Splice(es, i) == Keep(es, {es[i].name})
  {
    var d := {es[i].name};
    if i == |es| - 1 {
      KeepSame(es[..i], d);
    } else {
      var init, e := es[..|es| - 1], es[|es| - 1];
      SpliceKeeps(init, i);
      assert Splice(es, i) == Splice(init, i) + [e];
    }
  }

  /** Dropping all that was appended, and only that, gives the earlier sequence back. */
  lemma KeepPrefix<B>(a: seq<Entry<B>>, es: seq<Entry<B>>, d: set<string>)
    requires a <= es && Names(a) !! d
    requires forall i :: |a| <= i < |es| ==> es[i].name in d
    ensures Keep(es, d) == a
  {
    var b := es[|a|..];
    assert es == a + b;
    KeepSum(a, b, d);
    assert forall e :: e in a ==> e.name in Names(a);
    KeepSame(a, d);
    KeepNothing(b, d);
  }

  // ------------------------------------------------------------------------- endpoint lists

  lemma {:induction false} KeepOfIn(es: seq<Entry<EndpointBody>>, d: set<string>)
    ensures forall e :: e in KeepOf(es, d) <==> e in es && e.body.cluster !in d
  {
    if es != [] {
      KeepOfIn(es[..|es| - 1], d);
      assert es == es[..|es| - 1] + [es[|es| - 1]];
    }
  }

  lemma {:induction false} KeepOfUnique(es: seq<Entry<EndpointBody>>, d: set<string>)
    requires Unique(es)
    ensures Unique(KeepOf(es, d))
  {
    if es != [] {
      var init, e := es[..|es| - 1], es[|es| - 1];
      KeepOfUnique(init, d);
      KeepOfIn(init, d);
      assert forall x :: x in init ==> x.name != e.name;
      assert forall j :: 0 <= j < |KeepOf(init, d)| ==> KeepOf(init, d)[j] in KeepOf(init, d);
    }
  }

  lemma {:induction false} KeepOfTwice(es: seq<Entry<EndpointBody>>, d: set<string>, f: set<string>)
    ensures KeepOf(KeepOf(es, d), f) == KeepOf(es, d + f)
  {
    if es != [] {
      var init, e := es[..|es| - 1], es[|es| - 1];
      KeepOfTwice(init, d, f);
      if e.body.cluster !in d {
        assert (KeepOf(init, d) + [e])[..|KeepOf(init, d)|] == KeepOf(init, d);
      }
    }
  }

  lemma {:induction false} KeepOfSum(a: seq<Entry<EndpointBody>>, b: seq<Entry<EndpointBody>>, d: set<string>)
    ensures KeepOf(a + b, d) == KeepOf(a, d) + KeepOf(b, d)
  {
    if b == [] {
      assert a + b == a;
    } else {
      KeepOfSum(a, b[..|b| - 1], d);
      assert (a + b)[..|a + b| - 1] == a + b[..|b| - 1];
    }
  }

  lemma {:induction false} KeepOfAll(es: seq<Entry<EndpointBody>>, d: set<string>)
    ensures (forall e :: e in es ==> e.body.cluster !in d) ==> KeepOf(es, d) == es
    ensures (forall e :: e in es ==> e.body.cluster in d) ==> KeepOf(es, d) == []
  {
    if es != [] {
      KeepOfAll(es[..|es| - 1], d);
      assert es == es[..|es| - 1] + [es[|es| - 1]];
    }
  }

  lemma KeepOfPrefix(a: seq<Entry<EndpointBody>>, es: seq<Entry<EndpointBody>>, d: set<string>)
    requires a <= es
    requires forall e :: e in a ==> e.body.cluster !in d
    requires forall i :: |a| <= i < |es| ==> es[i].body.cluster in d
    ensures KeepOf(es, d) == a
  {
    var b := es[|a|..];
    assert es == a + b;
    KeepOfSum(a, b, d);
    KeepOfAll(a, d);
    KeepOfAll(b, d);
  }

  lemma {:induction false} SelectSum(a: seq<Entry<EndpointBody>>, b: seq<Entry<EndpointBody>>, c: string)
    ensures Select(a + b, c) == Select(a, c) + Select(b, c)
  {
    if b == [] {
      assert a + b == a;
    } else {
      SelectSum(a, b[..|b| - 1], c);
      assert (a + b)[..|a + b| - 1] == a + b[..|b| - 1];
    }
  }

  lemma {:induction false} SelectIn(es: seq<Entry<EndpointBody>>, c: string)
    ensures forall x :: x in Select(es, c) ==>
              exists e :: e in es && e.name == x.name && e.body == EndpointBody(c, x.address)
    ensures (forall e :: e in es ==> e.body.cluster != c) ==> Select(es, c) == []
    ensures forall e :: e in es && e.body.cluster == c ==> C.Endpoint(e.name, e.body.address) in Select(es, c)
  {
    if es != [] {
      SelectIn(es[..|es| - 1], c);
      assert es == es[..|es| - 1] + [es[|es| - 1]];
    }
  }

  lemma {:induction false} SelectKeepOf(es: seq<Entry<EndpointBody>>, d: set<string>, c: string)
    ensures Select(KeepOf(es, d), c) == if c in d then [] else Select(es, c)
  {
    if es != [] {
      var init, e := es[..|es| - 1], es[|es| - 1];
      SelectKeepOf(init, d, c);
      if e.body.cluster !in d {
        assert (KeepOf(init, d) + [e])[..|KeepOf(init, d)|] == KeepOf(init, d);
      }
    }
  }
}
