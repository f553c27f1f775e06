/** Reading and writing metadata by path form a lens, on the objects that JSON text describes. */
module PathLaws {
  import opened Paths

  predicate NonEmpty(keys: seq<string>) { keys != [] && forall i :: 0 <= i < |keys| ==> keys[i] != "" }

  predicate IsCell(s: Store, v: Val) { v.Ref? && v.at < |s| }

  // ----------------------------------------------------------------------- where a write goes

  /** The objects that a write walks through, before it creates any. */
  function Trace(s: Store, a: nat, locs: seq<string>): set<nat>
    decreases |locs|
  {
    if |locs| <= 1 then {a}
    else
      var x := Prop(s, Ref(a), Norm(locs[0]));
      if IsCell(s, x) then {a} + Trace(s, x.at, locs[1..]) else {a}
  }

  /** The last of them, the only existing object that is changed, and the key changed there. */
  function LastCell(s: Store, a: nat, locs: seq<string>): (nat, string)
    requires locs != []
    decreases |locs|
  {
    var x := Prop(s, Ref(a), Norm(locs[0]));
    if |locs| > 1 && IsCell(s, x) then LastCell(s, x.at, locs[1..]) else (a, Norm(locs[0]))
  }

  /** The walk does not come back to an object. */
  predicate Simple(s: Store, a: nat, locs: seq<string>)
    decreases |locs|
  {
    |locs| <= 1 ||
    var x := Prop(s, Ref(a), Norm(locs[0]));
    IsCell(s, x) ==> a !in Trace(s, x.at, locs[1..]) && Simple(s, x.at, locs[1..])
  }

  /** How many objects there are when the value is copied. */
  function SizeAtCopy(s: Store, a: nat, locs: seq<string>): nat
    decreases |locs|
  {
    if |locs| <= 1 || a >= |s| then |s|
    else
      var x := Prop(s, Ref(a), Norm(locs[0]));
      if IsCell(s, x) then SizeAtCopy(s, x.at, locs[1..])
      else SizeAtCopy(NewObject(s, a, Norm(locs[0])), |s|, locs[1..])
  }

  /** Nothing but one key of one object changes among existing objects. */
  ghost predicate Framed(s: Store, t: Store, last: (nat, string)) {
    |s| <= |t| && last.0 < |s| &&
    (forall b :: 0 <= b < |s| && b != last.0 ==> t[b] == s[b]) &&
    forall k :: k != last.1 ==> Prop(t, Ref(last.0), k) == Prop(s, Ref(last.0), k)
  }

  lemma {:induction false} SetFrame(s: Store, a: nat, locs: seq<string>, value: Val)
    requires Valid(s) && a < |s| && NonEmpty(locs) && Good(s, value)
    requires SetLoop(s, Ref(a), locs, value).Done?
    ensures Framed(s, SetLoop(s, Ref(a), locs, value).store, LastCell(s, a, locs))
    ensures Valid(SetLoop(s, Ref(a), locs, value).store)
    decreases |locs|
  {
    AssignValid(s, a, Norm(locs[0]), value);
    if |locs| > 1 {
      var x := Prop(s, Ref(a), Norm(locs[0]));
      if IsCell(s, x) {
        SetFrame(s, x.at, locs[1..], value);
      } else {
        var s1 := NewObject(s, a, Norm(locs[0]));
        SetFrame(s1, |s|, locs[1..], value);
        assert LastCell(s1, |s|, locs[1..]).0 == |s|;
      }
    }
  }

  lemma {:induction false} LastInTrace(s: Store, a: nat, locs: seq<string>)
    requires locs != []
    ensures LastCell(s, a, locs).0 in Trace(s, a, locs)
    decreases |locs|
  {
    var x := Prop(s, Ref(a), Norm(locs[0]));
    if |locs| > 1 && IsCell(s, x) {
      LastInTrace(s, x.at, locs[1..]);
    }
  }

  // -------------------------------------------------------------------------- get after set

  /** The first step of a read along a normalised path. */
  lemma GetStep(t: Store, a: nat, r: Val, locs: seq<string>)
    requires NonEmpty(locs)
    ensures var x := Prop(t, Ref(a), Norm(locs[0]));
      GetLoop(t, Ref(a), r, NormAll(locs)) == GetLoop(t, x, x, NormAll(locs[1..]))
  {
    assert NormAll(locs)[1..] == NormAll(locs[1..]);
  }

  lemma StepThrough(s: Store, t: Store, a: nat, locs: seq<string>, value: Val)
    requires Valid(s) && a < |s| && NonEmpty(locs) && |locs| > 1 && Good(s, value) && Simple(s, a, locs)
    requires SetLoop(s, Ref(a), locs, value) == Done(t)
    ensures var x := Prop(s, Ref(a), Norm(locs[0]));
      Prop(t, Ref(a), Norm(locs[0])) == if IsCell(s, x) then x else Ref(|s|)
  {
    var key := Norm(locs[0]);
    var x := Prop(s, Ref(a), key);
    if IsCell(s, x) {
      SetFrame(s, x.at, locs[1..], value);
      LastInTrace(s, x.at, locs[1..]);
    } else {
      AssignValid(s, a, key, value);
      SetFrame(NewObject(s, a, key), |s|, locs[1..], value);
    }
  }

  /** After a write, a read along the normalised path returns the value, or its copy. */
  lemma {:induction false} GetAfterSet(s: Store, a: nat, locs: seq<string>, value: Val, r: Val)
    requires Valid(s) && a < |s| && NonEmpty(locs) && Good(s, value) && Simple(s, a, locs)
    requires SetLoop(s, Ref(a), locs, value).Done?
    ensures GetLoop(SetLoop(s, Ref(a), locs, value).store, Ref(a), r, NormAll(locs))
            == Move(value, SizeAtCopy(s, a, locs))
    decreases |locs|
  {
    var t := SetLoop(s, Ref(a), locs, value).store;
    var key := Norm(locs[0]);
    GetStep(t, a, r, locs);
    if |locs| == 1 {
      assert GetLoop(t, Prop(t, Ref(a), key), Prop(t, Ref(a), key), []) == Prop(t, Ref(a), key);
    } else {
      StepThrough(s, t, a, locs, value);
      var x := Prop(s, Ref(a), key);
      if IsCell(s, x) {
        GetAfterSet(s, x.at, locs[1..], value, x);
      } else {
        AssignValid(s, a, key, value);
        GetAfterSet(NewObject(s, a, key), |s|, locs[1..], value, Ref(|s|));
      }
    }
  }

  // ------------------------------------------------------------------- the value that is read

  /** Reading on from the copy of a value is copying what reading on from the value gives. */
  lemma {:induction false} ReadCopy(u: Store, b: nat, key: string, value: Val, v: Val, r: Val, q: seq<string>)
    requires Valid(u) && b < |u| && value.Ref? && Good(u, v)
    ensures GetLoop(Assign(u, b, key, value), Move(v, |u|), Move(r, |u|), q) == Move(GetLoop(u, v, r, q), |u|)
    decreases |q|
  {
    if Truthy(v) && q != [] && q[0] != "" {
      var x := Prop(u, v, q[0]);
      ReadCopy(u, b, key, value, x, x, q[1..]);
      assert Prop(Assign(u, b, key, value), Move(v, |u|), q[0]) == Move(x, |u|);
    }
  }

  /** Whatever later happens to objects older than the copy, reads from the copy stay. */
  lemma {:induction false} CopyIsolated(u: Store, t: Store, b: nat, key: string, value: Val, v: Val, r: Val,
                                        q: seq<string>)
    requires Valid(u) && b < |u| && value.Ref? && Good(u, v)
    requires |t| >= |Assign(u, b, key, value)|
    requires forall c :: |u| <= c < |Assign(u, b, key, value)| ==> t[c] == Assign(u, b, key, value)[c]
    ensures GetLoop(t, Move(v, |u|), r, q) == GetLoop(Assign(u, b, key, value), Move(v, |u|), r, q)
    decreases |q|
  {
    if Truthy(v) && q != [] && q[0] != "" {
      var x := Prop(u, v, q[0]);
      var w := Assign(u, b, key, value);
      assert Prop(w, Move(v, |u|), q[0]) == Move(x, |u|);
      assert Prop(t, Move(v, |u|), q[0]) == Move(x, |u|);
      CopyIsolated(u, t, b, key, value, x, Move(x, |u|), q[1..]);
    }
  }

  // -------------------------------------------------------------------------------- tree data

  /** Plain navigation, without the early stops of `getAtPath`. */
  function Node(s: Store, v: Val, p: seq<string>): Val
    decreases |p|
  {
    if p == [] then v else Node(s, Prop(s, v, p[0]), p[1..])
  }

  /** What JSON text gives: no object is reached by two different paths. */
  ghost predicate Tree(s: Store, a: nat) {
    forall p, q :: IsCell(s, Node(s, Ref(a), p)) && Node(s, Ref(a), p) == Node(s, Ref(a), q) ==> p == q
  }

  lemma NodeStep(s: Store, a: nat, k: string, p: seq<string>)
    ensures Node(s, Ref(a), [k] + p) == Node(s, Prop(s, Ref(a), k), p)
  {
    assert ([k] + p)[1..] == p;
  }

  lemma SubTree(s: Store, a: nat, k: string)
    requires Tree(s, a) && IsCell(s, Prop(s, Ref(a), k))
    ensures Tree(s, Prop(s, Ref(a), k).at)
  {
    var b := Prop(s, Ref(a), k);
    forall p, q | IsCell(s, Node(s, b, p)) && Node(s, b, p) == Node(s, b, q)
      ensures p == q
    {
      NodeStep(s, a, k, p);
      NodeStep(s, a, k, q);
      assert [k] + p == [k] + q;
      assert p == ([k] + p)[1..] == ([k] + q)[1..] == q;
    }
  }

  lemma NoWayBack(s: Store, a: nat, k: string, p: seq<string>)
    requires Tree(s, a) && a < |s|
    ensures Node(s, Prop(s, Ref(a), k), p) != Ref(a)
  {
    NodeStep(s, a, k, p);
    assert Node(s, Ref(a), []) == Ref(a);
    assert [k] + p != [];
  }

  lemma {:induction false} TraceReached(s: Store, a: nat, locs: seq<string>, c: nat)
    requires c in Trace(s, a, locs)
    ensures exists p :: Node(s, Ref(a), p) == Ref(c) && (p == [] || (locs != [] && p[0] == Norm(locs[0])))
    decreases |locs|
  {
    if c == a {
      assert Node(s, Ref(a), []) == Ref(c);
    } else {
      var k := Norm(locs[0]);
      var b := Prop(s, Ref(a), k);
      TraceReached(s, b.at, locs[1..], c);
      var p :| Node(s, b, p) == Ref(c);
      NodeStep(s, a, k, p);
      assert ([k] + p)[0] == k;
    }
  }

  lemma {:induction false} TreeIsSimple(s: Store, a: nat, locs: seq<string>)
    requires Tree(s, a) && a < |s|
    ensures Simple(s, a, locs)
    decreases |locs|
  {
    if |locs| > 1 {
      var b := Prop(s, Ref(a), Norm(locs[0]));
      if IsCell(s, b) {
        SubTree(s, a, Norm(locs[0]));
        TreeIsSimple(s, b.at, locs[1..]);
        if a in Trace(s, b.at, locs[1..]) {
          TraceReached(s, b.at, locs[1..], a);
          var p :| Node(s, b, p) == Ref(a);
          NoWayBack(s, a, Norm(locs[0]), p);
        }
      }
    }
  }

  // ------------------------------------------------------------------- reads that branch off

  /** q follows the normalised p for d steps and then takes another key. */
  predicate Diverging(p: seq<string>, q: seq<string>, d: nat) {
    d < |p| && d < |q| && NonEmpty(p) && NonEmpty(q) &&
    (forall i :: 0 <= i < d ==> q[i] == Norm(p[i])) && q[d] != Norm(p[d])
  }

  /** Within d steps the walk meets a null, false, zero or empty string. */
  predicate MeetsFalsy(s: Store, a: nat, p: seq<string>, d: nat)
    decreases |p|
  {
    d > 0 && p != [] &&
    var x := Prop(s, Ref(a), Norm(p[0]));
    if IsCell(s, x) then MeetsFalsy(s, x.at, p[1..], d - 1) else !Truthy(x) && x != Undefined
  }

  /** Reads that never come to the one changed object do not change. */
  lemma {:induction false} ReadFrame(s: Store, t: Store, v: Val, r: Val, q: seq<string>, last: (nat, string))
    requires Valid(s) && Framed(s, t, last) && Good(s, v)
    requires forall p :: Node(s, v, p) != Ref(last.0)
    ensures GetLoop(t, v, r, q) == GetLoop(s, v, r, q)
    decreases |q|
  {
    assert Node(s, v, []) == v;
    if Truthy(v) && q != [] && q[0] != "" {
      var x := Prop(s, v, q[0]);
      assert Prop(t, v, q[0]) == x;
      forall p
        ensures Node(s, x, p) != Ref(last.0)
      {
        assert ([q[0]] + p)[1..] == p;
        assert Node(s, v, [q[0]] + p) == Node(s, x, p);
      }
      ReadFrame(s, t, x, x, q[1..], last);
    }
  }

  /** Taking another key at the first step leads away from the written path for good. */
  lemma BranchAvoids(s: Store, a: nat, locs: seq<string>, k: string, p: seq<string>)
    requires Tree(s, a) && a < |s| && locs != [] && k != Norm(locs[0]) && LastCell(s, a, locs).0 < |s|
    ensures Node(s, Prop(s, Ref(a), k), p) != Ref(LastCell(s, a, locs).0)
  {
    var c := LastCell(s, a, locs).0;
    LastInTrace(s, a, locs);
    TraceReached(s, a, locs, c);
    var w :| Node(s, Ref(a), w) == Ref(c) && (w == [] || w[0] == Norm(locs[0]));
    NodeStep(s, a, k, p);
    assert ([k] + p)[0] == k;
    assert [k] + p != w;
  }

  lemma BranchAtOnce(s: Store, t: Store, a: nat, locs: seq<string>, q: seq<string>, r: Val, value: Val)
    requires Valid(s) && a < |s| && Good(s, value) && Tree(s, a)
    requires SetLoop(s, Ref(a), locs, value) == Done(t) && Diverging(locs, q, 0)
    ensures GetLoop(t, Ref(a), r, q) == GetLoop(s, Ref(a), r, q)
  {
    var last := LastCell(s, a, locs);
    SetFrame(s, a, locs, value);
    forall p
      ensures Node(s, Prop(s, Ref(a), q[0]), p) != Ref(last.0)
    {
      BranchAvoids(s, a, locs, q[0], p);
    }
    var x := Prop(s, Ref(a), q[0]);
    assert Prop(t, Ref(a), q[0]) == x by {
      if last.0 == a {
        LastKeyIs(s, a, locs);
      }
    }
    ReadFrame(s, t, x, x, q[1..], last);
  }

  /** When the root itself is the changed object, it is changed at the first key. */
  lemma LastKeyIs(s: Store, a: nat, locs: seq<string>)
    requires Tree(s, a) && a < |s| && locs != [] && LastCell(s, a, locs).0 == a
    ensures LastCell(s, a, locs).1 == Norm(locs[0])
  {
    var x := Prop(s, Ref(a), Norm(locs[0]));
    if |locs| > 1 && IsCell(s, x) {
      TreeIsSimple(s, a, locs);
      LastInTrace(s, x.at, locs[1..]);
    }
  }

  lemma EmptyTree(s: Store, a: nat)
    requires a < |s| && s[a] == map[]
    ensures Tree(s, a)
  {
    forall p | p != []
      ensures !Node(s, Ref(a), p).Ref?
    {
      NothingThere(s, Undefined, p[1..]);
      assert Prop(s, Ref(a), p[0]) == Undefined;
    }
    assert Node(s, Ref(a), []) == Ref(a);
  }

  lemma {:induction false} NothingThere(s: Store, v: Val, p: seq<string>)
    requires !v.Ref?
    ensures !Node(s, v, p).Ref?
    decreases |p|
  {
    if p != [] {
      NothingThere(s, Undefined, p[1..]);
    }
  }

  /** A read that branches off the written path gives what it gave before, exactly when the
      shared part does not meet a falsy value: objects and gaps are harmless, but a null or a
      zero on the way is replaced by an object. */
  lemma {:induction false} DivergingReads(s: Store, a: nat, locs: seq<string>, q: seq<string>, d: nat, r: Val,
                                          value: Val)
    requires Valid(s) && a < |s| && Good(s, value) && Tree(s, a)
    requires SetLoop(s, Ref(a), locs, value).Done? && Diverging(locs, q, d)
    ensures GetLoop(SetLoop(s, Ref(a), locs, value).store, Ref(a), r, q) == GetLoop(s, Ref(a), r, q)
            <==> !MeetsFalsy(s, a, locs, d)
    decreases |locs|
  {
    var t := SetLoop(s, Ref(a), locs, value).store;
    if d == 0 {
      BranchAtOnce(s, t, a, locs, q, r, value);
    } else {
      var key := Norm(locs[0]);
      var x := Prop(s, Ref(a), key);
      TreeIsSimple(s, a, locs);
      StepThrough(s, t, a, locs, value);
      if IsCell(s, x) {
        SubTree(s, a, key);
        DivergingReads(s, x.at, locs[1..], q[1..], d - 1, x, value);
      } else {
        var s1 := NewObject(s, a, key);
        AssignValid(s, a, key, value);
        EmptyTree(s1, |s|);
        DivergingReads(s1, |s|, locs[1..], q[1..], d - 1, Ref(|s|), value);
        assert Prop(s1, Ref(|s|), q[1]) == Undefined;
        assert GetLoop(s1, Ref(|s|), Ref(|s|), q[1..]) == Undefined;
      }
    }
  }
}
