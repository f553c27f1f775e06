/** The lens laws of metadata paths, and the two functions as loops over an object store. */
module PathLens {
  import opened Paths
  import opened PathLaws

  // ---------------------------------------------------------------------- when a write fails

  lemma {:induction false} UndefinedOnwards(s: Store, v: Val, p: seq<string>)
    requires v == Undefined
    ensures Node(s, v, p) == Undefined
    decreases |p|
  {
    if p != [] {
      UndefinedOnwards(s, Prop(s, v, p[0]), p[1..]);
    }
  }

  /** A truthy value that is no object stands where the write has to go through. */
  predicate BlockedAt(s: Store, v: Val, locs: seq<string>, j: nat)
    requires j < |locs|
  {
    var x := Node(s, v, NormAll(locs)[..j]);
    Truthy(x) && !IsCell(s, x)
  }

  lemma BlockedStep(s: Store, v: Val, locs: seq<string>, j: nat)
    requires locs != [] && j + 1 < |locs|
    ensures BlockedAt(s, v, locs, j + 1) <==> BlockedAt(s, Prop(s, v, Norm(locs[0])), locs[1..], j)
  {
    var p := NormAll(locs)[..j + 1];
    assert p[0] == Norm(locs[0]) && p[1..] == NormAll(locs[1..])[..j];
  }

  lemma NewObjectOpen(s: Store, a: nat, key: string, locs: seq<string>, j: nat)
    requires a < |s| && j < |locs|
    ensures !BlockedAt(NewObject(s, a, key), Ref(|s|), locs, j)
  {
    var s1 := NewObject(s, a, key);
    if j > 0 {
      var p := NormAll(locs)[..j];
      UndefinedOnwards(s1, Prop(s1, Ref(|s|), p[0]), p[1..]);
    }
  }

  /** A write fails exactly when the root is no object or a truthy value that is no object is
      in the way; and then it has changed nothing. */
  lemma {:induction false} WriteFailsIff(s: Store, data: Val, locs: seq<string>, value: Val)
    requires Valid(s) && NonEmpty(locs) && Good(s, data)
    ensures SetLoop(s, data, locs, value).TypeError? <==>
            !IsCell(s, data) || exists j :: 0 < j < |locs| && BlockedAt(s, data, locs, j)
    ensures SetLoop(s, data, locs, value).TypeError? ==> SetLoop(s, data, locs, value).store == s
    decreases |locs|
  {
    if IsCell(s, data) && |locs| > 1 {
      var key := Norm(locs[0]);
      var x := Prop(s, data, key);
      forall j | 0 <= j < |locs| - 1
        ensures BlockedAt(s, data, locs, j + 1) <==> BlockedAt(s, x, locs[1..], j)
      {
        BlockedStep(s, data, locs, j);
      }
      assert BlockedAt(s, x, locs[1..], 0) <==> Truthy(x) && !IsCell(s, x);
      if Truthy(x) {
        WriteFailsIff(s, x, locs[1..], value);
        if !IsCell(s, x) {
          assert BlockedAt(s, data, locs, 0 + 1);
        }
        if j :| 0 < j < |locs| - 1 && BlockedAt(s, x, locs[1..], j) {
          assert BlockedAt(s, data, locs, j + 1);
        }
        if j :| 0 < j < |locs| && BlockedAt(s, data, locs, j) {
          assert BlockedAt(s, x, locs[1..], j - 1);
        }
      } else {
        var s1 := NewObject(s, data.at, key);
        AssignValid(s, data.at, key, Null);
        WriteFailsIff(s1, Ref(|s|), locs[1..], value);
        forall j | 0 < j < |locs| - 1
          ensures !BlockedAt(s1, Ref(|s|), locs[1..], j)
        {
          NewObjectOpen(s, data.at, key, locs[1..], j);
        }
        forall j | 0 < j < |locs|
          ensures !BlockedAt(s, data, locs, j)
        {
          FalsyNotBlocked(s, x, locs[1..], j - 1);
          assert BlockedAt(s, data, locs, (j - 1) + 1) <==> BlockedAt(s, x, locs[1..], j - 1);
        }
      }
    }
  }

  lemma FalsyNotBlocked(s: Store, x: Val, locs: seq<string>, j: nat)
    requires !Truthy(x) && j < |locs|
    ensures !BlockedAt(s, x, locs, j)
  {
    if j > 0 {
      var p := NormAll(locs)[..j];
      UndefinedOnwards(s, Prop(s, x, p[0]), p[1..]);
    }
  }

  // ------------------------------------------------------------------------------ the lens laws

  /** Set, then get: on plain segments in canonical form the value comes back, or its copy. */
  lemma GetReturnsSet(s: Store, a: nat, keys: seq<string>, value: Val)
    requires Valid(s) && Tree(s, a) && a < |s| && Good(s, value)
    requires keys != [] && (forall i :: 0 <= i < |keys| ==> Plain(keys[i])) && Canonical(keys)
    requires SetAtPath(s, Ref(a), PathOf(keys), value).0.Done?
    ensures var t := SetAtPath(s, Ref(a), PathOf(keys), value).0.store;
      GetAtPath(t, Ref(a), PathOf(keys)) == Move(value, SizeAtCopy(s, a, keys))
  {
    var t := SetLoop(s, Ref(a), keys, value).store;
    PlainPaths(s, Ref(a), keys, value);
    PlainPaths(t, Ref(a), keys, value);
    TreeIsSimple(s, a, keys);
    GetAfterSet(s, a, keys, value, Undefined);
    assert NormAll(keys) == keys;
  }

  /** A value set along the path is not found there. */
  ghost predicate Loses(s: Store, a: nat, path: string, value: Val) {
    Valid(s) && Tree(s, a) && a < |s| && !value.Ref? &&
    var o := SetAtPath(s, Ref(a), path, value).0;
    o.Done? && GetAtPath(o.store, Ref(a), path) != value
  }

  lemma EmptyRootOpen(keys: seq<string>, value: Val)
    requires NonEmpty(keys)
    ensures SetLoop([map[]], Ref(0), keys, value).Done?
  {
    var s: Store := [map[]];
    WriteFailsIff(s, Ref(0), keys, value);
    forall j | 0 < j < |keys|
      ensures !BlockedAt(s, Ref(0), keys, j)
    {
      var p := NormAll(keys)[..j];
      UndefinedOnwards(s, Prop(s, Ref(0), p[0]), p[1..]);
    }
  }

  lemma EmptyRootLoses(keys: seq<string>, value: Val)
    requires NonEmpty(keys) && !Canonical(keys) && !value.Ref?
    ensures SetLoop([map[]], Ref(0), keys, value).Done?
    ensures GetLoop(SetLoop([map[]], Ref(0), keys, value).store, Ref(0), Undefined, keys) == Undefined
  {
    var s: Store := [map[]];
    EmptyTree(s, 0);
    EmptyRootOpen(keys, value);
    var d := FirstOdd(keys);
    assert !MeetsFalsy(s, 0, keys, d);
    DivergingReads(s, 0, keys, keys, d, Undefined, value);
    assert Prop(s, Ref(0), keys[0]) == Undefined;
    assert GetLoop(s, Ref(0), Undefined, keys) == GetLoop(s, Undefined, Undefined, keys[1..]);
  }

  lemma LosesByLoops(s: Store, a: nat, keys: seq<string>, value: Val)
    requires keys != [] && (forall i :: 0 <= i < |keys| ==> Plain(keys[i]))
    requires Valid(s) && Tree(s, a) && a < |s| && !value.Ref? && SetLoop(s, Ref(a), keys, value).Done?
    requires GetLoop(SetLoop(s, Ref(a), keys, value).store, Ref(a), Undefined, keys) != value
    ensures Loses(s, a, PathOf(keys), value)
  {
    PlainPaths(s, Ref(a), keys, value);
    PlainPaths(SetLoop(s, Ref(a), keys, value).store, Ref(a), keys, value);
  }

  /** Only then: for any other plain path there is an object where the value is not found. */
  lemma OtherPathsLose(keys: seq<string>)
    requires keys != [] && (forall i :: 0 <= i < |keys| ==> Plain(keys[i])) && !Canonical(keys)
    ensures exists s: Store, a: nat, value: Val :: Loses(s, a, PathOf(keys), value)
  {
    var s: Store := [map[]];
    EmptyTree(s, 0);
    EmptyRootLoses(keys, Null);
    LosesByLoops(s, 0, keys, Null);
  }

  lemma {:induction false} FirstOdd(keys: seq<string>) returns (d: nat)
    requires !Canonical(keys)
    ensures d < |keys| && Norm(keys[d]) != keys[d] && forall i :: 0 <= i < d ==> Norm(keys[i]) == keys[i]
  {
    d := 0;
    while Norm(keys[d]) == keys[d]
      invariant 0 <= d < |keys|
      invariant forall i :: 0 <= i < d ==> Norm(keys[i]) == keys[i]
      invariant !Canonical(keys)
      decreases |keys| - d
    {
      d := d + 1;
    }
  }

  /** The whole way exists as objects. */
  predicate Open(s: Store, a: nat, locs: seq<string>)
    decreases |locs|
  {
    |locs| <= 1 || var x := Prop(s, Ref(a), Norm(locs[0])); IsCell(s, x) && Open(s, x.at, locs[1..])
  }

  lemma {:induction false} OpenSucceeds(s: Store, a: nat, locs: seq<string>, value: Val)
    requires a < |s| && Open(s, a, locs) && NonEmpty(locs)
    ensures SetLoop(s, Ref(a), locs, value).Done?
    decreases |locs|
  {
    if |locs| > 1 {
      OpenSucceeds(s, Prop(s, Ref(a), Norm(locs[0])).at, locs[1..], value);
    }
  }

  lemma {:induction false} OpenAfterSet(s: Store, a: nat, locs: seq<string>, value: Val)
    requires Valid(s) && a < |s| && NonEmpty(locs) && Good(s, value) && Simple(s, a, locs)
    requires SetLoop(s, Ref(a), locs, value).Done?
    ensures var t := SetLoop(s, Ref(a), locs, value).store;
      && Open(t, a, locs) && Simple(t, a, locs)
      && forall c :: c in Trace(t, a, locs) ==> c in Trace(s, a, locs) || c >= |s|
    decreases |locs|
  {
    if |locs| > 1 {
      var t := SetLoop(s, Ref(a), locs, value).store;
      var key := Norm(locs[0]);
      var x := Prop(s, Ref(a), key);
      StepThrough(s, t, a, locs, value);
      SetFrame(s, a, locs, value);
      if IsCell(s, x) {
        OpenAfterSet(s, x.at, locs[1..], value);
      } else {
        AssignValid(s, a, key, value);
        SetFrame(NewObject(s, a, key), |s|, locs[1..], value);
        OpenAfterSet(NewObject(s, a, key), |s|, locs[1..], value);
      }
    }
  }

  /** A second set on the same path succeeds and wins. */
  lemma SecondSetWins(s: Store, a: nat, locs: seq<string>, value: Val, other: Val)
    requires Valid(s) && Tree(s, a) && a < |s| && NonEmpty(locs) && Good(s, value)
    requires SetLoop(s, Ref(a), locs, value).Done? && Good(SetLoop(s, Ref(a), locs, value).store, other)
    ensures var t := SetLoop(s, Ref(a), locs, value).store;
      && SetLoop(t, Ref(a), locs, other).Done?
      && GetLoop(SetLoop(t, Ref(a), locs, other).store, Ref(a), Undefined, NormAll(locs))
         == Move(other, SizeAtCopy(t, a, locs))
  {
    var t := SetLoop(s, Ref(a), locs, value).store;
    TreeIsSimple(s, a, locs);
    OpenAfterSet(s, a, locs, value);
    SetFrame(s, a, locs, value);
    OpenSucceeds(t, a, locs, other);
    GetAfterSet(t, a, locs, other, Undefined);
  }

  // ------------------------------------------------------------------------ the planted value

  lemma FramedThrough(s: Store, u: Store, a: nat, key: string, last: (nat, string))
    requires a < |s| && last.0 == |s| && Framed(NewObject(s, a, key), u, last)
    ensures Framed(s, u, (a, key))
  {
  }

  /** The store once the missing objects are made, and the object then assigned to. */
  function Prepared(s: Store, a: nat, locs: seq<string>): (r: (Store, nat))
    requires a < |s|
    ensures r.1 < |r.0| && |r.0| == SizeAtCopy(s, a, locs)
    decreases |locs|
  {
    if |locs| <= 1 then (s, a)
    else
      var x := Prop(s, Ref(a), Norm(locs[0]));
      if IsCell(s, x) then Prepared(s, x.at, locs[1..])
      else Prepared(NewObject(s, a, Norm(locs[0])), |s|, locs[1..])
  }

  /** A write is the creation of missing objects followed by one assignment. */
  lemma {:induction false} SetIsAssign(s: Store, a: nat, locs: seq<string>, value: Val)
    requires a < |s| && NonEmpty(locs) && SetLoop(s, Ref(a), locs, value).Done?
    ensures SetLoop(s, Ref(a), locs, value).store
            == Assign(Prepared(s, a, locs).0, Prepared(s, a, locs).1, Norm(locs[|locs| - 1]), value)
    decreases |locs|
  {
    if |locs| > 1 {
      var x := Prop(s, Ref(a), Norm(locs[0]));
      if IsCell(s, x) {
        SetIsAssign(s, x.at, locs[1..], value);
      } else {
        SetIsAssign(NewObject(s, a, Norm(locs[0])), |s|, locs[1..], value);
      }
    }
  }

  lemma {:induction false} PreparedFramed(s: Store, a: nat, locs: seq<string>)
    requires Valid(s) && a < |s| && locs != []
    ensures Valid(Prepared(s, a, locs).0) && Framed(s, Prepared(s, a, locs).0, LastCell(s, a, locs))
    decreases |locs|
  {
    if |locs| > 1 {
      var x := Prop(s, Ref(a), Norm(locs[0]));
      if IsCell(s, x) {
        PreparedFramed(s, x.at, locs[1..]);
      } else {
        var s1 := NewObject(s, a, Norm(locs[0]));
        AssignValid(s, a, Norm(locs[0]), Null);
        PreparedFramed(s1, |s|, locs[1..]);
        FramedThrough(s, Prepared(s1, |s|, locs[1..]).0, a, Norm(locs[0]), LastCell(s1, |s|, locs[1..]));
      }
    }
  }

  /** The planted copy reads as the caller's object did, on any path below it, as long as that
      object was not itself part of the way that was written. */
  lemma PlantedValueReads(s: Store, a: nat, locs: seq<string>, value: Val, q: seq<string>)
    requires Valid(s) && a < |s| && NonEmpty(locs) && value.Ref? && Good(s, value)
    requires SetLoop(s, Ref(a), locs, value).Done?
    requires forall p :: Node(s, value, p) != Ref(LastCell(s, a, locs).0)
    ensures var t, n := SetLoop(s, Ref(a), locs, value).store, SizeAtCopy(s, a, locs);
      GetLoop(t, Move(value, n), Undefined, q) == Move(GetLoop(s, value, Undefined, q), n)
  {
    var (u, b) := Prepared(s, a, locs);
    SetIsAssign(s, a, locs, value);
    PreparedFramed(s, a, locs);
    ReadCopy(u, b, Norm(locs[|locs| - 1]), value, value, Undefined, q);
    ReadFrame(s, u, value, Undefined, q, LastCell(s, a, locs));
  }

  lemma {:induction false} CopyReads(s: Store, v: Val, r: Val, q: seq<string>)
    requires Valid(s) && Good(s, v)
    ensures GetLoop(Copy(s), Move(v, |s|), Move(r, |s|), q) == Move(GetLoop(s, v, r, q), |s|)
    decreases |q|
  {
    if Truthy(v) && q != [] && q[0] != "" {
      var x := Prop(s, v, q[0]);
      CopyReads(s, x, x, q[1..]);
      assert Prop(Copy(s), Move(v, |s|), q[0]) == Move(x, |s|);
    }
  }

  /** An object that is set as the root is copied too: the new root is a new object and reads as
      the value did, and no object that existed before changes. */
  lemma RootIsCopied(s: Store, data: Val, value: Val, q: seq<string>)
    requires Valid(s) && value.Ref? && Good(s, value)
    ensures var (o, root) := SetAtPath(s, data, "/", value);
      && o.Done? && root.Ref? && root.at >= |s| && s <= o.store
      && GetLoop(o.store, root, Undefined, q) == Move(GetLoop(s, value, Undefined, q), |s|)
  {
    EmptyPaths(s, data, value);
    CopyReads(s, value, Undefined, q);
    assert Split("") == [""];
    assert SetAtPath(s, data, "", value) == (Done(Copy(s)), Move(value, |s|));
  }

  /** And it is nobody else's: whatever is later done to objects that existed before the copy,
      the caller's value among them, reads from the planted value stay the same. */
  lemma PlantedValueIsolated(s: Store, a: nat, locs: seq<string>, value: Val, later: Store, q: seq<string>)
    requires Valid(s) && a < |s| && NonEmpty(locs) && value.Ref? && Good(s, value)
    requires SetLoop(s, Ref(a), locs, value).Done?
    requires var t := SetLoop(s, Ref(a), locs, value).store;
      |later| >= |t| && forall c :: SizeAtCopy(s, a, locs) <= c < |t| ==> later[c] == t[c]
    ensures var t, n := SetLoop(s, Ref(a), locs, value).store, SizeAtCopy(s, a, locs);
      GetLoop(later, Move(value, n), Undefined, q) == GetLoop(t, Move(value, n), Undefined, q)
  {
    var (u, b) := Prepared(s, a, locs);
    SetIsAssign(s, a, locs, value);
    PreparedFramed(s, a, locs);
    CopyIsolated(u, later, b, Norm(locs[|locs| - 1]), value, value, Undefined, q);
  }

  // ------------------------------------------------------------------------------- the object

  class Metadata {
    var objects: Store

    constructor (s: Store)
      ensures objects == s
    {
      objects := s;
    }

    method GetAtPath(root: Val, path: string) returns (result: Val)
      ensures result == Paths.GetAtPath(objects, root, path)
    {
      var locs := Split(path);
      if locs[0] == "" {
        locs := locs[1..];
      }
      if locs == [""] {
        return root;
      }
      var data := root;
      result := Undefined;
      ghost var all := locs;
      while Truthy(data) && locs != [] && locs[0] != ""
        invariant GetLoop(objects, root, Undefined, all) == GetLoop(objects, data, result, locs)
        decreases |locs|
      {
        data := Prop(objects, data, locs[0]);
        result := data;
        locs := locs[1..];
      }
    }

    /** The error is a TypeError; the result is the new root. */
    method SetAtPath(root: Val, path: string, value: Val) returns (ok: bool, ret: Val)
      modifies this
      ensures var o := Paths.SetAtPath(old(objects), root, path, value);
        objects == o.0.store && (ok <==> o.0.Done?) && ret == o.1
    {
      var locs := Split(path);
      ret := root;
      if locs[|locs| - 1] == "" {
        locs := locs[..|locs| - 1];
      }
      if locs != [] && locs[0] == "" {
        locs := locs[1..];
      }
      if locs == [] {
        if value.Ref? {
          ret := Move(value, |objects|);
          objects := Copy(objects);
        } else {
          ret := value;
        }
        return true, ret;
      }
      var data := root;
      ghost var all := locs;
      while locs != [] && locs[0] != ""
        invariant SetLoop(old(objects), root, all, value) == SetLoop(objects, data, locs, value)
        decreases |locs|
      {
        if !data.Ref? || data.at >= |objects| {
          return false, root;
        }
        var key := Norm(locs[0]);
        if |locs| == 1 {
          objects := Assign(objects, data.at, key, value);
          return true, root;
        }
        var x := Prop(objects, data, key);
        if Truthy(x) {
          data := x;
        } else {
          var made := Ref(|objects|);
          objects := NewObject(objects, data.at, key);
          data := made;
        }
        locs := locs[1..];
      }
      ok := true;
    }
  }
}
