/** Internet checksums as the kernel program computes them
    (kernel-offload/udp_kernel_offload.c), against the definitions of RFC 791 section 3.1,
    RFC 1071 sections 1 and 2 and RFC 1624 section 3. */
module Checksum {
  import opened Basics

  const BASE := 0x1_0000

  const ONES := 0xFFFF

  type Word = w: nat | w < 0x1_0000

  function Complement(w: Word): Word { ONES - w }

  // ------------------------------------------------------------------- ones' complement sums

  /** Addition with end-around carry. */
  function OnesAdd(a: Word, b: Word): Word {
    if a + b < BASE then a + b else a + b - ONES
  }

  function OnesSum(ws: seq<Word>): Word {
    if ws == [] then 0 else OnesAdd(ws[0], OnesSum(ws[1..]))
  }

  /** A header checks when the ones' complement sum of all its words, the checksum included,
      is all ones. */
  predicate Checks(ws: seq<Word>) { OnesSum(ws) == ONES }

  function Sum(ws: seq<Word>): nat {
    if ws == [] then 0 else ws[0] + Sum(ws[1..])
  }

  /** The ones' complement sum is the residue of the plain sum, all ones standing for a
      nonzero multiple of 65535. */
  lemma {:induction false} OnesSumIsResidue(ws: seq<Word>)
    ensures OnesSum(ws) % ONES == Sum(ws) % ONES
    ensures OnesSum(ws) == 0 <==> Sum(ws) == 0
  {
    if ws != [] {
      OnesSumIsResidue(ws[1..]);
    }
  }

  lemma ChecksIff(ws: seq<Word>)
    ensures Checks(ws) <==> Sum(ws) > 0 && Sum(ws) % ONES == 0
  {
    OnesSumIsResidue(ws);
  }

  lemma {:induction false} SumUpdate(ws: seq<Word>, i: nat, w: Word)
    requires i < |ws|
    ensures Sum(ws[i := w]) == Sum(ws) - ws[i] + w
    ensures Sum(ws) >= ws[i]
  {
    if i > 0 {
      SumUpdate(ws[1..], i - 1, w);
      assert ws[i := w][1..] == ws[1..][i - 1 := w];
    } else {
      assert ws[i := w][1..] == ws[1..];
    }
  }

  lemma {:induction false} SumAtLeast(ws: seq<Word>, i: nat, j: nat)
    requires i < j < |ws|
    ensures Sum(ws) - ws[i] >= ws[j]
  {
    if i == 0 {
      SumUpdate(ws[1..], j - 1, 0);
    } else {
      SumAtLeast(ws[1..], i - 1, j - 1);
    }
  }

  // ------------------------------------------------------------------------------ byte order

  function Swap(w: Word): Word {
    var high, low := w / 256, w % 256;
    assert high < 256 && low * 256 <= 255 * 256;
    low * 256 + high
  }

  function SwapAll(ws: seq<Word>): seq<Word> {
    seq(|ws|, i requires 0 <= i < |ws| => Swap(ws[i]))
  }

  lemma {:induction false} SwappedSum(ws: seq<Word>)
    ensures exists k: int :: Sum(SwapAll(ws)) == 256 * Sum(ws) - ONES * k
    ensures Sum(SwapAll(ws)) == 0 <==> Sum(ws) == 0
  {
    if ws == [] {
      assert Sum(SwapAll(ws)) == 256 * Sum(ws) - ONES * 0;
    } else {
      SwappedSum(ws[1..]);
      assert SwapAll(ws)[1..] == SwapAll(ws[1..]);
      var k: int :| Sum(SwapAll(ws[1..])) == 256 * Sum(ws[1..]) - ONES * k;
      assert Sum(SwapAll(ws)) == 256 * Sum(ws) - ONES * (k + ws[0] / 256);
    }
  }

  /** RFC 1071 section 2(B): whether a header checks does not depend on the byte order that
      its words are read in. */
  lemma ByteOrderIndependent(ws: seq<Word>)
    ensures Checks(SwapAll(ws)) <==> Checks(ws)
  {
    ChecksIff(ws);
    ChecksIff(SwapAll(ws));
    SwappedSum(ws);
    var k: int :| Sum(SwapAll(ws)) == 256 * Sum(ws) - ONES * k;
    Shifted(Sum(ws), Sum(SwapAll(ws)), k);
  }

  /** 256 is its own inverse modulo 65535. */
  lemma Shifted(s: int, t: int, k: int)
    requires t == 256 * s - ONES * k
    ensures t % ONES == 0 <==> s % ONES == 0
  {
    if s % ONES == 0 {
      Multiple(t, 256 * (s / 65535) - k);
    }
    if t % ONES == 0 {
      Multiple(s, 256 * (t / 65535) + 256 * k - s);
    }
  }

  lemma Multiple(x: int, m: int)
    requires x == 65535 * m
    ensures x % ONES == 0
  {
  }

  // --------------------------------------------------------------------------------- folding

  function FoldOnce(c: nat): nat {
    if c / BASE != 0 then c % BASE + c / BASE else c
  }

  function Fold(c: nat, times: nat): nat {
    if times == 0 then c else Fold(FoldOnce(c), times - 1)
  }

  const FOLDS := 4

  /** The cast to 16 bits after complementing. */
  function Finish(c: nat): Word { Complement(c % BASE) }

  method CsumFoldHelper(csum: nat) returns (r: Word)
    ensures r == Finish(Fold(csum, FOLDS))
  {
    var c: nat, i := csum, 0;
    while i < FOLDS
      invariant 0 <= i <= FOLDS
      invariant Fold(csum, FOLDS) == Fold(c, FOLDS - i)
    {
      if c / BASE != 0 {
        c := c % BASE + c / BASE;
      }
      i := i + 1;
    }
    r := Complement(c % BASE);
  }

  lemma FoldOnceKeeps(c: nat)
    ensures FoldOnce(c) % ONES == c % ONES
    ensures FoldOnce(c) == 0 <==> c == 0
  {
    assert c == c % BASE + c / BASE + ONES * (c / BASE);
  }

  /** Any number of folds keeps the residue modulo 65535 and nonzeroness. */
  lemma {:induction false} FoldKeeps(c: nat, times: nat)
    ensures Fold(c, times) % ONES == c % ONES
    ensures Fold(c, times) == 0 <==> c == 0
    decreases times
  {
    if times > 0 {
      FoldOnceKeeps(c);
      FoldKeeps(FoldOnce(c), times - 1);
    }
  }

  /** Four folds bring every 64-bit sum into 16 bits. */
  lemma FourFoldsSuffice(c: nat)
    requires c < U64
    ensures Fold(c, FOLDS) < BASE
  {
    var c1 := FoldOnce(c);
    assert c1 <= 0x1_0000_0000_FFFE by { assert c / BASE <= 0xFFFF_FFFF_FFFF; }
    var c2 := FoldOnce(c1);
    assert c2 <= 0x1_0000_FFFE;
    var c3 := FoldOnce(c2);
    assert c3 <= 0x1_FFFE;
    var c4 := FoldOnce(c3);
    assert c4 < BASE;
    assert Fold(c, 4) == Fold(c1, 3) == Fold(c2, 2) == Fold(c3, 1) == Fold(c4, 0);
  }

  /** Three do not. */
  lemma ThreeFoldsDoNot()
    ensures exists c: nat :: c < U64 && Fold(c, 3) >= BASE
  {
    var c := 0xFFFE_FFFF_0000_FFFF;
    var c1, c2, c3 := 0xFFFE_FFFF_0000 + 0xFFFF, 0xFFFE_FFFF + 0xFFFF, 0xFFFF + 0xFFFE;
    assert FoldOnce(c) == c1 && FoldOnce(c1) == c2;
    assert FoldOnce(c2) >= BASE;
    assert Fold(c, 3) == Fold(c1, 2) == Fold(c2, 1) == Fold(FoldOnce(c2), 0);
  }

  /** What the checksum of a 64-bit sum is: the complement of its residue, with 65535 for a
      nonzero multiple. */
  lemma FoldedSum(c: nat)
    requires c < U64
    ensures var r := Finish(Fold(c, FOLDS));
      && (r + c) % ONES == 0 && (r == ONES <==> c == 0)
  {
    FourFoldsSuffice(c);
    FoldKeeps(c, FOLDS);
    var f := Fold(c, FOLDS);
    assert ONES - f + c == 65535 * (1 + c / 65535 - f / 65535);
    assert f < BASE ==> (f % ONES == 0 <==> f == 0 || f == ONES);
  }

  // ---------------------------------------------------------------- recomputing the checksum

  /** What is assumed of `bpf_csum_diff` over the words ws: some 64-bit number with the residue
      of their sum, nonzero when the sum is. */
  predicate CsumDiff(diff: nat, ws: seq<Word>) {
    diff < U64 && diff % ONES == Sum(ws) % ONES && (Sum(ws) > 0 ==> diff > 0)
  }

  /** The checksum computed with the checksum field zero makes the header check. */
  lemma RecomputedChecks(ws: seq<Word>, i: nat, diff: nat)
    requires i < |ws| && ws[i] == 0 && Sum(ws) > 0 && CsumDiff(diff, ws)
    ensures Checks(ws[i := Finish(Fold(diff, FOLDS))])
  {
    var r := Finish(Fold(diff, FOLDS));
    FoldedSum(diff);
    SumUpdate(ws, i, r);
    ChecksIff(ws[i := r]);
    Congruent(diff, Sum(ws), r);
  }

  lemma Congruent(a: int, b: int, r: int)
    requires a % ONES == b % ONES
    ensures (r + a) % ONES == 0 <==> (r + b) % ONES == 0
  {
    var k := a / 65535 - b / 65535;
    assert r + a == r + b + 65535 * k;
  }

  // --------------------------------------------------------------------------------- the TTL

  /** `ip_decrease_ttl` on the raw 16 bits of the checksum, read on a little-endian host. */
  function DecreasedCheck(check: Word): Word {
    var c := check + 1;
    (if c >= 0xFFFF then c + 1 else c) % BASE
  }

  /** It adds one to the checksum modulo 65535, so that it never gives all ones. */
  lemma DecreasedCheckIs(check: Word)
    ensures DecreasedCheck(check) == (check + 1) % 65535
  {
  }

  function DecreasedTtl(ttl: nat): nat
    requires ttl < 256
  {
    if ttl == 0 then 255 else ttl - 1
  }

  /** In the word of TTL and protocol, the TTL is the low byte. */
  function TtlWord(ttl: nat, protocol: nat): Word
    requires ttl < 256 && protocol < 256
  {
    ttl + 256 * protocol
  }

  /** Lowering the TTL and raising the checksum by one keeps a header checking exactly when
      the TTL was at least 1: a TTL of 0 wraps to 255 and the checksum is then off by 256. */
  lemma TtlKeepsChecking(ws: seq<Word>, t: nat, c: nat, ttl: nat, protocol: nat)
    requires 0 < t < c < |ws| && ttl < 256 && protocol < 256
    requires ws[t] == TtlWord(ttl, protocol) && ws[0] > 0
    requires Checks(ws)
    ensures Checks(ws[t := TtlWord(DecreasedTtl(ttl), protocol)][c := DecreasedCheck(ws[c])]) <==> ttl >= 1
  {
    var w := TtlWord(DecreasedTtl(ttl), protocol);
    var vs := ws[t := w];
    var us := vs[c := DecreasedCheck(ws[c])];
    SumUpdate(ws, t, w);
    SumUpdate(vs, c, DecreasedCheck(ws[c]));
    SumUpdate(us, 0, 0);
    ChecksIff(ws);
    ChecksIff(us);
    var d := DecreasedCheck(ws[c]) - ws[c];
    assert d == 1 || d == 1 - ONES;
    assert Sum(us) == Sum(ws) + d + (if ttl == 0 then 255 else -1);
    OffBy(Sum(ws), Sum(us), d, ttl == 0);
  }

  lemma OffBy(s: nat, u: nat, d: int, wrapped: bool)
    requires s % ONES == 0 && (d == 1 || d == 1 - ONES)
    requires u == s + d + (if wrapped then 255 else -1)
    ensures u % ONES == if wrapped then 256 else 0
  {
    var m := s / ONES;
    var e := if d == 1 then 0 else -1;
    assert u == ONES * (m + e) + (if wrapped then 256 else 0);
  }

  // ---------------------------------------------------------------------- incremental update

  const U32 := 0x1_0000_0000

  /** `update_csum`: the complement of the old checksum, plus the complement of the old field,
      plus the new field, folded. */
  function UpdateSum(check: Word, before: nat, after: nat): nat
    requires before < U32 && after < U32
  {
    (ONES - check) + (U32 - 1 - before) + after
  }

  function UpdateCsum(check: Word, before: nat, after: nat): Word
    requires before < U32 && after < U32
  {
    Finish(Fold(UpdateSum(check, before, after), FOLDS))
  }

  /** The two halves of a 32-bit field, as words of the header. */
  function Halves(m: nat): nat
    requires m < U32
  {
    m / BASE + m % BASE
  }

  lemma HalvesAre(m: nat)
    requires m < U32
    ensures m == Halves(m) + ONES * (m / BASE)
  {
  }

  /** Eqn. 3 of RFC 1624: for a header whose other words sum to `rest` with the old field in
      them, the updated checksum is the one recomputed from scratch, except when it is all
      ones where recomputation gives zero; that happens for one combination of inputs only. */
  lemma UpdateIsRecomputation(check: Word, rest: nat, before: nat, after: nat)
    requires before < U32 && after < U32 && rest < U32 && rest >= Halves(before)
    requires (rest + check) % ONES == 0
    requires rest - Halves(before) + Halves(after) > 0
    ensures var full := Finish(Fold(rest - Halves(before) + Halves(after), FOLDS));
      var updated := UpdateCsum(check, before, after);
      && (updated == full <==> !(check == ONES && before == U32 - 1 && after == 0))
      && (updated != full ==> updated == ONES && full == 0)
  {
    var now := rest - Halves(before) + Halves(after);
    var sum := UpdateSum(check, before, after);
    FoldedSum(now);
    FoldedSum(sum);
    UpdateCongruent(check, rest, before, after);
    SameFinish(now, sum, Finish(Fold(now, FOLDS)), Finish(Fold(sum, FOLDS)));
  }

  lemma UpdateCongruent(check: Word, rest: nat, before: nat, after: nat)
    requires before < U32 && after < U32
    requires (rest + check) % ONES == 0
    ensures UpdateSum(check, before, after) % ONES == (rest - Halves(before) + Halves(after)) % ONES
  {
    var k := (rest + check) / 65535;
    HalvesAre(before);
    HalvesAre(after);
    var j := 1 - k + 65537 - before / BASE + after / BASE;
    assert UpdateSum(check, before, after) == rest - Halves(before) + Halves(after) + 65535 * j;
  }

  lemma SameFinish(a: nat, b: nat, r: Word, q: Word)
    requires a > 0 && a % ONES == b % ONES
    requires (r + a) % ONES == 0 && (r == ONES <==> a == 0)
    requires (q + b) % ONES == 0 && (q == ONES <==> b == 0)
    ensures q == r <==> b > 0
    ensures q != r ==> q == ONES && r == 0
  {
    var m, n, k := (r + a) / ONES, (q + b) / ONES, a / ONES - b / ONES;
    assert r - q == 65535 * (m - n - k);
  }
}
