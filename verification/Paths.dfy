/** Metadata paths: `Rule.getAtPath` and `Rule.setAtPath` (rule.js) on an explicit store of
    mutable objects. */
module Paths {
  import opened Basics

  /** A JavaScript value; objects and arrays are references into the store. */
  datatype Val = Undefined | Null | Bool(b: bool) | Num(n: int) | Str(text: string) | Ref(at: nat)

  predicate Truthy(v: Val) {
    match v
    case Undefined => false
    case Null => false
    case Bool(b) => b
    case Num(n) => n != 0
    case Str(t) => t != ""
    case Ref(_) => true
  }

  /** The values that stop a read, and that a write replaces. */
  lemma Falsies(v: Val)
    ensures !Truthy(v) <==> v in {Undefined, Null, Bool(false), Num(0), Str("")}
  {
  }

  /** Objects by address; the next free address is the length. */
  type Store = seq<map<string, Val>>

  predicate Good(s: Store, v: Val) { v.Ref? ==> v.at < |s| }

  predicate Valid(s: Store) {
    forall a, k :: 0 <= a < |s| && k in s[a] ==> Good(s, s[a][k])
  }

  function Prop(s: Store, v: Val, key: string): Val {
    if v.Ref? && v.at < |s| && key in s[v.at] then s[v.at][key] else Undefined
  }

  function Write(s: Store, a: nat, key: string, v: Val): Store
    requires a < |s|
  {
    s[a := s[a][key := v]]
  }

  /** data[key] = {} */
  function NewObject(s: Store, a: nat, key: string): Store
    requires a < |s|
  {
    Write(s + [map[]], a, key, Ref(|s|))
  }

  function Move(v: Val, k: nat): Val { if v.Ref? then Ref(v.at + k) else v }

  function MoveAll(m: map<string, Val>, k: nat): map<string, Val> { map x | x in m :: Move(m[x], k) }

  /** A deep copy of everything, sharing included; what nobody refers to does not matter. */
  function Copy(s: Store): Store {
    s + seq(|s|, a requires 0 <= a < |s| => MoveAll(s[a], |s|))
  }

  /** data[key] = value, or a deep copy of value when it is an object. */
  function Assign(s: Store, a: nat, key: string, value: Val): Store
    requires a < |s|
  {
    if value.Ref? then Write(Copy(s), a, key, Move(value, |s|)) else Write(s, a, key, value)
  }

  // ---------------------------------------------------------------------------- path segments

  function TrimLeft(t: string): string {
    if t != "" && t[0] in {' ', '\t', '\n', '\r'} then TrimLeft(t[1..]) else t
  }

  predicate IsDigit(c: char) { '0' <= c <= '9' }

  function DigitsValue(t: string, acc: nat): nat
    decreases |t|
  {
    if t == "" || !IsDigit(t[0]) then acc else DigitsValue(t[1..], 10 * acc + (t[0] as int - '0' as int))
  }

  /** `parseInt(t, 10)` as a property key: the sign and leading digits in plain decimal; a text
      without leading digits stays as it is. */
  function Norm(t: string): (r: string)
    ensures r == "" <==> t == ""
  {
    var u := TrimLeft(t);
    var signed := u != "" && u[0] in {'+', '-'};
    var d := if signed then u[1..] else u;
    if d == "" || !IsDigit(d[0]) then t
    else
      var n := DigitsValue(d, 0);
      if signed && u[0] == '-' && n != 0 then "-" + Decimal(n) else Decimal(n)
  }

  predicate Canonical(keys: seq<string>) { forall i :: 0 <= i < |keys| ==> Norm(keys[i]) == keys[i] }

  function NormAll(keys: seq<string>): seq<string> {
    seq(|keys|, i requires 0 <= i < |keys| => Norm(keys[i]))
  }

  // -------------------------------------------------------------------------------- the loops

  /** The loop of `getAtPath`: it stops at a falsy value, an empty segment or the end. */
  function GetLoop(s: Store, data: Val, result: Val, locs: seq<string>): Val
    decreases |locs|
  {
    if !Truthy(data) || locs == [] || locs[0] == "" then result
    else
      var x := Prop(s, data, locs[0]);
      GetLoop(s, x, x, locs[1..])
  }

  datatype Out = Done(store: Store) | TypeError(store: Store)

  /** The loop of `setAtPath`: missing and falsy values on the way become objects; a primitive
      on the way cannot be written to. */
  function SetLoop(s: Store, data: Val, locs: seq<string>, value: Val): Out
    decreases |locs|
  {
    if locs == [] || locs[0] == "" then Done(s)
    else if !data.Ref? || data.at >= |s| then TypeError(s)
    else
      var a, key := data.at, Norm(locs[0]);
      if |locs| == 1 then Done(Assign(s, a, key, value))
      else
        var x := Prop(s, data, key);
        if Truthy(x) then SetLoop(s, x, locs[1..], value)
        else SetLoop(NewObject(s, a, key), Ref(|s|), locs[1..], value)
  }

  lemma AssignValid(s: Store, a: nat, key: string, value: Val)
    requires Valid(s) && a < |s| && Good(s, value)
    ensures Valid(Assign(s, a, key, value)) && Valid(NewObject(s, a, key))
  {
  }

  // ------------------------------------------------------------------------------- whole paths

  function Split(path: string): (r: seq<string>)
    ensures r != []
  {
    if path == "" then [""]
    else
      var rest := Split(path[1..]);
      if path[0] == '/' then [""] + rest else [[path[0]] + rest[0]] + rest[1..]
  }

  function GetAtPath(s: Store, data: Val, path: string): Val {
    var locs := Split(path);
    var rest := if locs[0] == "" then locs[1..] else locs;
    if rest == [""] then data else GetLoop(s, data, Undefined, rest)
  }

  /** The new store with the new root. */
  function SetAtPath(s: Store, data: Val, path: string, value: Val): (Out, Val) {
    var locs := Split(path);
    var front := if locs[|locs| - 1] == "" then locs[..|locs| - 1] else locs;
    var rest := if front != [] && front[0] == "" then front[1..] else front;
    if rest == [] then (if value.Ref? then (Done(Copy(s)), Move(value, |s|)) else (Done(s), value))
    else (SetLoop(s, data, rest, value), data)
  }

  predicate Plain(key: string) { key != "" && '/' !in key }

  function PathOf(keys: seq<string>): string {
    if keys == [] then "" else "/" + keys[0] + PathOf(keys[1..])
  }

  /** A key in front of the rest of a path is split off whole. */
  lemma {:induction false} SplitKey(key: string, rest: string)
    requires '/' !in key && (rest == "" || rest[0] == '/')
    ensures Split(key + rest) == [key] + (if rest == "" then [] else Split(rest[1..]))
    decreases |key|
  {
    if key == "" {
      assert key + rest == rest;
      if rest != "" {
        assert Split(rest) == [""] + Split(rest[1..]);
      }
    } else {
      var p := key + rest;
      assert p[1..] == key[1..] + rest && p[0] == key[0];
      assert forall c :: c in key[1..] ==> c in key;
      SplitKey(key[1..], rest);
      var tail := Split(p[1..]);
      assert tail[0] == key[1..] && [key[0]] + key[1..] == key;
      assert Split(p) == [[p[0]] + tail[0]] + tail[1..];
    }
  }

  lemma {:induction false} SplitPath(keys: seq<string>)
    requires forall i :: 0 <= i < |keys| ==> Plain(keys[i])
    ensures Split(PathOf(keys)) == [""] + keys
    decreases |keys|
  {
    if keys != [] {
      var p, rest := PathOf(keys), PathOf(keys[1..]);
      SplitPath(keys[1..]);
      SplitKey(keys[0], rest);
      assert p[0] == '/' && p[1..] == keys[0] + rest;
      assert Split(p) == [""] + Split(p[1..]);
      if rest != "" {
        assert Split(rest) == [""] + Split(rest[1..]);
        assert Split(rest)[1..] == Split(rest[1..]);
        assert ([""] + keys[1..])[1..] == keys[1..];
      } else {
        assert keys[1..] == [];
      }
      assert keys == [keys[0]] + keys[1..];
    }
  }

  /** On a path of plain segments the two functions are their loops. */
  lemma PlainPaths(s: Store, data: Val, keys: seq<string>, value: Val)
    requires keys != [] && forall i :: 0 <= i < |keys| ==> Plain(keys[i])
    ensures GetAtPath(s, data, PathOf(keys)) == GetLoop(s, data, Undefined, keys)
    ensures SetAtPath(s, data, PathOf(keys), value) == (SetLoop(s, data, keys, value), data)
  {
    SplitPath(keys);
    var locs := [""] + keys;
    assert locs[|locs| - 1] == keys[|keys| - 1];
    assert locs[1..] == keys;
  }

  lemma SlashFirst(x: string)
    ensures Split("/" + x) == [""] + Split(x) && Split("/" + x)[1..] == Split(x)
  {
    assert ("/" + x)[1..] == x;
  }

  lemma AfterSlash(x: string, parts: seq<string>)
    requires Split("/" + x) == [""] + parts
    ensures Split(x) == parts
  {
    SlashFirst(x);
    assert ([""] + parts)[1..] == parts;
  }

  /** The first key of a path with a slash at the end. */
  lemma SlashStep(key: string, more: string, keys: seq<string>)
    requires '/' !in key && Split("/" + more) == [""] + keys + [""]
    ensures Split("/" + (key + ("/" + more))) == [""] + ([key] + keys) + [""]
  {
    var rest := "/" + more;
    assert [""] + keys + [""] == [""] + (keys + [""]);
    AfterSlash(more, keys + [""]);
    SplitKey(key, rest);
    assert rest[1..] == more;
    SlashFirst(key + rest);
  }

  lemma {:induction false} SplitPathSlash(keys: seq<string>)
    requires forall i :: 0 <= i < |keys| ==> Plain(keys[i])
    ensures Split(PathOf(keys) + "/") == [""] + keys + [""]
    decreases |keys|
  {
    if keys == [] {
      SlashFirst("");
      assert "" + "/" == "/" + "";
    } else {
      SplitPathSlash(keys[1..]);
      var rest := PathOf(keys[1..]) + "/";
      FirstKey(keys);
      SlashAhead(keys[1..]);
      SlashStep(keys[0], rest[1..], keys[1..]);
      assert PathOf(keys) + "/" == "/" + (keys[0] + rest);
      assert [keys[0]] + keys[1..] == keys;
    }
  }

  lemma SlashAhead(keys: seq<string>)
    ensures var rest := PathOf(keys) + "/"; rest == "/" + rest[1..]
  {
    if keys != [] {
      FirstKey(keys);
    }
  }

  lemma FirstKey(keys: seq<string>)
    requires keys != []
    ensures PathOf(keys) == "/" + (keys[0] + PathOf(keys[1..]))
  {
  }

  /** An empty segment ends a read. */
  lemma {:induction false} EmptySegmentStops(s: Store, data: Val, result: Val, locs: seq<string>, more: seq<string>)
    ensures GetLoop(s, data, result, locs + [""] + more) == GetLoop(s, data, result, locs)
    decreases |locs|
  {
    if Truthy(data) && locs != [] && locs[0] != "" {
      var x := Prop(s, data, locs[0]);
      EmptySegmentStops(s, x, x, locs[1..], more);
      assert (locs + [""] + more)[1..] == locs[1..] + [""] + more;
    }
  }

  /** And keeps a write from assigning its value. */
  lemma {:induction false} EmptySegmentAssignsNothing(s: Store, data: Val, locs: seq<string>, more: seq<string>,
                                                      v: Val, w: Val)
    ensures SetLoop(s, data, locs + [""] + more, v) == SetLoop(s, data, locs + [""] + more, w)
    decreases |locs|
  {
    var all := locs + [""] + more;
    if locs != [] && locs[0] != "" && data.Ref? && data.at < |s| {
      var key := Norm(locs[0]);
      var x := Prop(s, data, key);
      assert all[1..] == locs[1..] + [""] + more && |all| > 1;
      EmptySegmentAssignsNothing(s, x, locs[1..], more, v, w);
      EmptySegmentAssignsNothing(NewObject(s, data.at, key), Ref(|s|), locs[1..], more, v, w);
    }
  }

  lemma GetByParts(s: Store, data: Val, keys: seq<string>, path: string, lead: bool, trail: bool)
    requires keys != [] && keys[0] != ""
    requires Split(path) == (if lead then [""] else []) + keys + (if trail then [""] else [])
    ensures GetAtPath(s, data, path) == GetLoop(s, data, Undefined, keys)
  {
    var rest := if trail then keys + [""] else keys;
    assert Split(path) == if lead then [""] + rest else rest;
    assert ([""] + rest)[1..] == rest && rest[0] == keys[0];
    EmptySegmentStops(s, data, Undefined, keys, []);
    assert keys + [""] + [] == keys + [""];
  }

  /** The segments that are left of a path that is written to. */
  function WrittenParts(locs: seq<string>): seq<string>
    requires locs != []
  {
    var front := if locs[|locs| - 1] == "" then locs[..|locs| - 1] else locs;
    if front != [] && front[0] == "" then front[1..] else front
  }

  lemma WrittenPartsAre(keys: seq<string>, lead: bool, trail: bool)
    requires keys != [] && keys[0] != "" && keys[|keys| - 1] != ""
    ensures WrittenParts((if lead then [""] else []) + keys + (if trail then [""] else [])) == keys
  {
    var front := if lead then [""] + keys else keys;
    assert (if lead then [""] else []) + keys + (if trail then [""] else []) == if trail then front + [""] else front;
    assert (front + [""])[..|front|] == front && front[|front| - 1] == keys[|keys| - 1];
    assert ([""] + keys)[1..] == keys;
  }

  lemma SetByParts(s: Store, data: Val, keys: seq<string>, value: Val, path: string)
    requires keys != [] && WrittenParts(Split(path)) == keys
    ensures SetAtPath(s, data, path, value) == (SetLoop(s, data, keys, value), data)
  {
  }

  /** The path without its leading slash. */
  function BarePath(keys: seq<string>): string
    requires keys != []
  {
    keys[0] + PathOf(keys[1..])
  }

  lemma BareParts(keys: seq<string>)
    requires keys != [] && forall i :: 0 <= i < |keys| ==> Plain(keys[i])
    ensures Split(BarePath(keys)) == keys
  {
    FirstKey(keys);
    SplitPath(keys);
    AfterSlash(BarePath(keys), keys);
  }

  lemma Reassociate(a: string, b: string, c: string)
    ensures a + b + c == a + (b + c)
  {
  }

  lemma BareSlashParts(keys: seq<string>)
    requires keys != [] && forall i :: 0 <= i < |keys| ==> Plain(keys[i])
    ensures Split(BarePath(keys) + "/") == keys + [""]
  {
    FirstKey(keys);
    SplitPathSlash(keys);
    Reassociate("/", BarePath(keys), "/");
    Shift(keys);
    AfterSlash(BarePath(keys) + "/", keys + [""]);
  }

  lemma Shift(keys: seq<string>)
    ensures [""] + keys + [""] == [""] + (keys + [""]) && [] + keys + [] == keys && [] + keys + [""] == keys + [""]
  {
  }

  /** Reading and writing by either path is the same. */
  predicate SamePaths(s: Store, data: Val, value: Val, p: string, q: string) {
    GetAtPath(s, data, p) == GetAtPath(s, data, q) && SetAtPath(s, data, p, value) == SetAtPath(s, data, q, value)
  }

  lemma SameByParts(s: Store, data: Val, keys: seq<string>, value: Val, path: string, lead: bool, trail: bool)
    requires keys != [] && forall i :: 0 <= i < |keys| ==> Plain(keys[i])
    requires Split(path) == (if lead then [""] else []) + keys + (if trail then [""] else [])
    ensures SamePaths(s, data, value, path, PathOf(keys))
  {
    PlainPaths(s, data, keys, value);
    GetByParts(s, data, keys, path, lead, trail);
    WrittenPartsAre(keys, lead, trail);
    SetByParts(s, data, keys, value, path);
  }

  /** A slash more or less at either end of a path makes no difference. */
  lemma OuterSlashes(s: Store, data: Val, keys: seq<string>, value: Val)
    requires keys != [] && forall i :: 0 <= i < |keys| ==> Plain(keys[i])
    ensures PathOf(keys) == "/" + BarePath(keys)
    ensures SamePaths(s, data, value, BarePath(keys), PathOf(keys))
    ensures SamePaths(s, data, value, PathOf(keys) + "/", PathOf(keys))
    ensures SamePaths(s, data, value, BarePath(keys) + "/", PathOf(keys))
  {
    FirstKey(keys);
    BareParts(keys);
    BareSlashParts(keys);
    SplitPathSlash(keys);
    Shift(keys);
    SameByParts(s, data, keys, value, BarePath(keys), false, false);
    SameByParts(s, data, keys, value, PathOf(keys) + "/", true, true);
    SameByParts(s, data, keys, value, BarePath(keys) + "/", false, true);
  }

  /** The empty path reads nothing and sets the root; the path "/" reads and sets the root. */
  lemma EmptyPaths(s: Store, data: Val, value: Val)
    ensures GetAtPath(s, data, "") == Undefined && GetAtPath(s, data, "/") == data
    ensures SetAtPath(s, data, "", value) == SetAtPath(s, data, "/", value)
    ensures !value.Ref? ==> SetAtPath(s, data, "", value) == (Done(s), value)
  {
    assert Split("/") == ["", ""];
  }
}
