/**
 The bech32m codec of pkg/address/bech32m.go (BIP-173 section "Bech32", BIP-350
 section "Bech32m"): checksum arithmetic over GF(2), and the text encoding.
 */
module Bech32m {
  import opened Collections
  import opened Gf2

  /** A 5-bit group. */
  type Symbol = v: int | 0 <= v < 32

  const CHARSET: string := "qpzry9x8gf2tvdw0s3jn54khce6mua7l"
  const BECH32M_CONST: nat := 0x2bc830a3
  const GENERATOR: seq<nat> := [0x3b6a57b2, 0x26508e6d, 0x1ea119fa, 0x3d4233dd, 0x2a1462b3]
  const MAX_LENGTH := 90

  datatype Error =
    | HrpCharacter
    | DataRange
    | TooLong
    | BadLength
    | MixedCase
    | SeparatorPosition
    | DataCharacter
    | BadChecksum

  type Result<T> = Collections.Result<T, Error>

  // ---------------------------------------------------------------------
  // Checksum polynomial
  // ---------------------------------------------------------------------

  function Pick(bit: bool, g: nat): nat {
    if bit then g else 0
  }

  /** The generators selected by the low n bits of b, added up. */
  function Feedback(b: nat, n: nat): nat
    requires n <= |GENERATOR|
  {
    if n == 0 then 0
    else Xor(Feedback(b, n - 1), Pick(Bit(b, n - 1), GENERATOR[n - 1]))
  }

  function Step(chk: nat, v: nat): nat {
    Xor(Xor(Shl(Low(chk, 25), 5), v), Feedback(Shr(chk, 25), |GENERATOR|))
  }

  /** The checksum register after shifting in values, starting from chk. */
  function Polymod(chk: nat, values: seq<nat>): nat {
    if values == [] then chk
    else Step(Polymod(chk, values[..|values| - 1]), values[|values| - 1])
  }

  /** The inner loop of the source's polymod. */
  method AddFeedback(shifted: nat, b: nat) returns (chk: nat)
    ensures chk == Xor(shifted, Feedback(b, |GENERATOR|))
  {
    chk := shifted;
    XorComm(shifted, 0);
    for i := 0 to |GENERATOR|
      invariant chk == Xor(shifted, Feedback(b, i))
    {
      ghost var before := Feedback(b, i);
      if Bit(b, i) {
        XorAssoc(shifted, before, GENERATOR[i]);
        chk := Xor(chk, GENERATOR[i]);
      }
      XorComm(before, 0);
    }
  }

  method ComputePolymod(values: seq<nat>) returns (chk: nat)
    ensures chk == Polymod(1, values)
  {
    chk := 1;
    for k := 0 to |values|
      invariant chk == Polymod(1, values[..k])
    {
      var b := Shr(chk, 25);
      assert values[..k + 1][..k] == values[..k];
      chk := AddFeedback(Xor(Shl(Low(chk, 25), 5), values[k]), b);
    }
    assert values[..|values|] == values;
  }

  lemma {:induction false} PolymodConcat(chk: nat, s: seq<nat>, t: seq<nat>)
    ensures Polymod(chk, s + t) == Polymod(Polymod(chk, s), t)
  {
    if t == [] {
      assert s + t == s;
    } else {
      var n := |t| - 1;
      PolymodConcat(chk, s, t[..n]);
      assert (s + t)[..|s + t| - 1] == s + t[..n];
    }
  }

  // ---------------------------------------------------------------------
  // The step is GF(2)-linear, and injective in the register
  // ---------------------------------------------------------------------

  lemma PickLinear(p: bool, q: bool, g: nat)
    ensures Pick(p != q, g) == Xor(Pick(p, g), Pick(q, g))
  {
    XorSelf(g);
    XorComm(0, g);
  }

  lemma FeedbackStep(x: nat, y: nat, p: bool, q: bool, g: nat)
    ensures Xor(Xor(x, y), Pick(p != q, g)) == Xor(Xor(x, Pick(p, g)), Xor(y, Pick(q, g)))
  {
    PickLinear(p, q, g);
    XorShuffle(x, y, Pick(p, g), Pick(q, g));
  }

  lemma {:induction false} FeedbackLinear(a: nat, b: nat, n: nat)
    requires n <= |GENERATOR|
    ensures Feedback(Xor(a, b), n) == Xor(Feedback(a, n), Feedback(b, n))
  {
    if n > 0 {
      FeedbackLinear(a, b, n - 1);
      XorBit(a, b, n - 1);
      FeedbackStep(Feedback(a, n - 1), Feedback(b, n - 1), Bit(a, n - 1), Bit(b, n - 1), GENERATOR[n - 1]);
    }
  }

  lemma StepLinear(a: nat, b: nat, u: nat, v: nat)
    ensures Step(Xor(a, b), Xor(u, v)) == Xor(Step(a, u), Step(b, v))
  {
    var p, q := Shl(Low(a, 25), 5), Shl(Low(b, 25), 5);
    var f, g := Feedback(Shr(a, 25), |GENERATOR|), Feedback(Shr(b, 25), |GENERATOR|);
    XorLow(a, b, 25);
    XorShl(Low(a, 25), Low(b, 25), 5);
    XorShr(a, b, 25);
    FeedbackLinear(Shr(a, 25), Shr(b, 25), |GENERATOR|);
    XorShuffle(p, q, u, v);
    XorShuffle(Xor(p, u), Xor(q, v), f, g);
  }

  lemma {:induction false} FeedbackFits(b: nat, n: nat)
    requires n <= |GENERATOR|
    ensures Fits(Feedback(b, n), 30)
  {
    ShrZero(30);
    if n > 0 {
      FeedbackFits(b, n - 1);
      Pow2Values();
      FitsIff(GENERATOR[n - 1], 30);
      XorFits(Feedback(b, n - 1), Pick(Bit(b, n - 1), GENERATOR[n - 1]), 30);
    }
  }

  lemma StepFits(chk: nat, v: nat)
    requires Fits(v, 30)
    ensures Fits(Step(chk, v), 30)
  {
    FeedbackFits(Shr(chk, 25), |GENERATOR|);
    LowFits(chk, 25);
    ShlFits(Low(chk, 25), 25, 5);
    XorFits(Shl(Low(chk, 25), 5), v, 30);
    XorFits(Xor(Shl(Low(chk, 25), 5), v), Feedback(Shr(chk, 25), |GENERATOR|), 30);
  }

  /** Output bit k of the feedback as a parity over the selected generators. */
  predicate Parity(b: nat, n: nat, k: nat)
    requires n <= |GENERATOR|
  {
    n > 0 && Parity(b, n - 1, k) != (Bit(b, n - 1) && Bit(GENERATOR[n - 1], k))
  }

  lemma {:induction false} FeedbackBit(b: nat, n: nat, k: nat)
    requires n <= |GENERATOR|
    ensures Bit(Feedback(b, n), k) == Parity(b, n, k)
  {
    ShrZero(k);
    if n > 0 {
      FeedbackBit(b, n - 1, k);
      XorBit(Feedback(b, n - 1), Pick(Bit(b, n - 1), GENERATOR[n - 1]), k);
    }
  }

  lemma ParityRow(b: nat, k: nat)
    ensures Parity(b, 5, k)
         == (((((Bit(b, 0) && Bit(GENERATOR[0], k)) != (Bit(b, 1) && Bit(GENERATOR[1], k)))
               != (Bit(b, 2) && Bit(GENERATOR[2], k))) != (Bit(b, 3) && Bit(GENERATOR[3], k)))
             != (Bit(b, 4) && Bit(GENERATOR[4], k)))
  {
    assert Parity(b, 1, k) == (Bit(b, 0) && Bit(GENERATOR[0], k));
    assert Parity(b, 3, k) == (Parity(b, 2, k) != (Bit(b, 2) && Bit(GENERATOR[2], k)));
  }

  /** The five lowest bits of a value are those of its residue modulo 32. */
  lemma LowBits(a: nat)
    ensures Bit(a, 0) == (a % 2 == 1) && Bit(a, 1) == (a / 2 % 2 == 1) && Bit(a, 2) == (a / 4 % 2 == 1)
    ensures Bit(a, 3) == (a / 8 % 2 == 1) && Bit(a, 4) == (a / 16 % 2 == 1)
  {
    ShrShr(a, 1, 1);
    ShrShr(a, 1, 2);
    ShrShr(a, 1, 3);
    ShrShr(a / 2, 1, 1);
    ShrShr(a / 2, 1, 2);
    ShrShr(a / 4, 1, 1);
    assert Shr(a, 1) == a / 2 && Shr(a / 2, 1) == a / 4 && Shr(a / 4, 1) == a / 8 && Shr(a / 8, 1) == a / 16;
  }

  lemma GeneratorBits(k: nat)
    requires k < 5
    ensures Bit(GENERATOR[0], k) == (k == 1 || k == 4)
    ensures Bit(GENERATOR[1], k) == (k == 0 || k == 2 || k == 3)
    ensures Bit(GENERATOR[2], k) == (k == 1 || k == 3 || k == 4)
  {
    LowBits(GENERATOR[0]);
    LowBits(GENERATOR[1]);
    LowBits(GENERATOR[2]);
  }

  lemma MoreGeneratorBits(k: nat)
    requires k < 5
    ensures Bit(GENERATOR[3], k) == (k == 0 || k == 2 || k == 3 || k == 4)
    ensures Bit(GENERATOR[4], k) == (k == 0 || k == 1 || k == 4)
  {
    LowBits(GENERATOR[3]);
    LowBits(GENERATOR[4]);
  }

  /** The generators are independent in their five lowest bits: only the zero selection cancels there. */
  lemma FeedbackKernel(b: nat)
    requires b < 32 && forall k :: 0 <= k < 5 ==> !Bit(Feedback(b, 5), k)
    ensures b == 0
  {
    forall k | 0 <= k < 5 ensures !Parity(b, 5, k) {
      FeedbackBit(b, 5, k);
    }
    ParityRow(b, 0); ParityRow(b, 1); ParityRow(b, 2); ParityRow(b, 3); ParityRow(b, 4);
    GeneratorBits(0); GeneratorBits(1); GeneratorBits(2); GeneratorBits(3); GeneratorBits(4);
    MoreGeneratorBits(0); MoreGeneratorBits(1); MoreGeneratorBits(2); MoreGeneratorBits(3); MoreGeneratorBits(4);
    assert !Bit(b, 4) && !Bit(b, 2) && !Bit(b, 0) && !Bit(b, 3) && !Bit(b, 1);
    LowBits(b);
  }

  lemma {:induction false} ShlBit(a: nat, j: nat, k: nat)
    requires k < j
    ensures !Bit(Shl(a, j), k)
  {
    assert Shl(a, j) == 2 * Shl(a, j - 1);
    if k > 0 {
      assert Shl(a, j) / 2 == Shl(a, j - 1);
      ShlBit(a, j - 1, k - 1);
    }
  }

  /** Shifting in zero loses nothing. */
  lemma StepKernel(a: nat)
    requires Fits(a, 30) && Step(a, 0) == 0
    ensures a == 0
  {
    var high, low := Shr(a, 25), Low(a, 25);
    var f := Feedback(high, |GENERATOR|);
    XorComm(Shl(low, 5), 0);
    XorZero(Shl(low, 5), f);
    forall k | 0 <= k < 5 ensures !Bit(f, k) {
      ShlBit(low, 5, k);
    }
    ShrShr(a, 25, 5);
    FitsIff(high, 5);
    Pow2Values();
    FeedbackKernel(high);
    FeedbackOfZero(|GENERATOR|);
    ShlZero(low, 5);
    LowFits(a, 25);
  }

  lemma {:induction false} FeedbackOfZero(n: nat)
    requires n <= |GENERATOR|
    ensures Feedback(0, n) == 0
  {
    if n > 0 {
      FeedbackOfZero(n - 1);
      ShrZero(n - 1);
    }
  }

  lemma StepInjective(a: nat, b: nat, v: nat)
    requires Fits(a, 30) && Fits(b, 30) && Step(a, v) == Step(b, v)
    ensures a == b
  {
    StepLinear(a, b, v, v);
    XorSelf(v);
    XorSelf(Step(a, v));
    XorFits(a, b, 30);
    StepKernel(Xor(a, b));
    XorZero(a, b);
  }

  predicate Words(values: seq<nat>) {
    forall i :: 0 <= i < |values| ==> Fits(values[i], 30)
  }

  lemma {:induction false} PolymodFits(chk: nat, values: seq<nat>)
    requires Fits(chk, 30) && Words(values)
    ensures Fits(Polymod(chk, values), 30)
  {
    if values != [] {
      var n := |values| - 1;
      PolymodFits(chk, values[..n]);
      StepFits(Polymod(chk, values[..n]), values[n]);
    }
  }

  /** Two registers that differ keep differing, whatever is shifted in after. */
  lemma {:induction false} DifferenceSurvives(a: nat, b: nat, tail: seq<nat>)
    requires Fits(a, 30) && Fits(b, 30) && Words(tail)
    ensures a != b ==> Polymod(a, tail) != Polymod(b, tail)
  {
    if tail != [] {
      var n := |tail| - 1;
      var x, y := Polymod(a, tail[..n]), Polymod(b, tail[..n]);
      DifferenceSurvives(a, b, tail[..n]);
      PolymodFits(a, tail[..n]);
      PolymodFits(b, tail[..n]);
      if Step(x, tail[n]) == Step(y, tail[n]) {
        StepInjective(x, y, tail[n]);
      }
    }
  }

  // ---------------------------------------------------------------------
  // Windows of at most six symbols
  // ---------------------------------------------------------------------

  predicate Small(values: seq<nat>) {
    forall i :: 0 <= i < |values| ==> Fits(values[i], 5)
  }

  lemma FitsMore(d: nat, j: nat, k: nat)
    requires j <= k && Fits(d, j)
    ensures Fits(d, k)
  {
    ShrShr(d, j, k - j);
    ShrZero(k - j);
  }

  /** Below the feedback threshold a step only appends the symbol. */
  lemma StepAppends(d: nat, e: nat, n: nat)
    requires n < 6 && Fits(d, 5 * n) && Fits(e, 5)
    ensures Step(d, e) == Shl(d, 5) + e
    ensures Fits(Shl(d, 5) + e, 5 * (n + 1))
    ensures Shl(d, 5) + e == 0 <==> d == 0 && e == 0
  {
    FitsMore(d, 5 * n, 25);
    LowFits(d, 25);
    FeedbackOfZero(|GENERATOR|);
    XorDisjoint(d, e, 5);
    XorComm(Shl(d, 5) + e, 0);
    AppendFits(d, e, n);
    ShlZero(d, 5);
    ShrZero(5);
  }

  lemma AppendFits(d: nat, e: nat, n: nat)
    requires Fits(d, 5 * n) && Fits(e, 5)
    ensures Fits(Shl(d, 5) + e, 5 * (n + 1))
  {
    SplitShl(d, e, 5);
    ShrShr(Shl(d, 5) + e, 5, 5 * n);
  }

  lemma GapStep(x: nat, y: nat, u: nat, v: nat, n: nat)
    requires n < 6 && Fits(Xor(x, y), 5 * n) && Fits(u, 5) && Fits(v, 5)
    ensures Fits(Xor(Step(x, u), Step(y, v)), 5 * (n + 1))
    ensures Step(x, u) == Step(y, v) <==> x == y && u == v
  {
    var d, e := Xor(x, y), Xor(u, v);
    XorFits(u, v, 5);
    StepAppends(d, e, n);
    StepLinear(x, y, u, v);
    XorZero(x, y);
    XorZero(u, v);
    XorZero(Step(x, u), Step(y, v));
  }

  /** The register difference over a window is the window difference, packed. */
  lemma {:induction false} WindowGap(chk: nat, s: seq<nat>, t: seq<nat>)
    requires |s| == |t| <= 6 && Small(s) && Small(t)
    ensures Fits(Xor(Polymod(chk, s), Polymod(chk, t)), 5 * |s|)
    ensures Polymod(chk, s) == Polymod(chk, t) <==> s == t
  {
    if s == [] {
      XorSelf(chk);
    } else {
      var n := |s| - 1;
      var x, y := Polymod(chk, s[..n]), Polymod(chk, t[..n]);
      WindowGap(chk, s[..n], t[..n]);
      GapStep(x, y, s[n], t[n], n);
      assert s == s[..n] + [s[n]] && t == t[..n] + [t[n]];
    }
  }

  /** Any change confined to six consecutive symbols changes the register. */
  lemma BurstChangesPolymod(chk: nat, front: seq<nat>, s: seq<nat>, t: seq<nat>, back: seq<nat>)
    requires Fits(chk, 30) && Words(front) && Words(back)
    requires |s| == |t| <= 6 && Small(s) && Small(t) && s != t
    ensures Polymod(chk, front + s + back) != Polymod(chk, front + t + back)
  {
    var c := Polymod(chk, front);
    WindowGap(c, s, t);
    PolymodConcat(chk, front, s);
    PolymodConcat(chk, front, t);
    PolymodConcat(chk, front + s, back);
    PolymodConcat(chk, front + t, back);
    SmallIsWords(s);
    SmallIsWords(t);
    PolymodFits(chk, front);
    PolymodFits(c, s);
    PolymodFits(c, t);
    DifferenceSurvives(Polymod(c, s), Polymod(c, t), back);
  }

  lemma SmallIsWords(s: seq<nat>)
    requires Small(s)
    ensures Words(s)
  {
    forall i | 0 <= i < |s| ensures Fits(s[i], 30) {
      FitsMore(s[i], 5, 30);
    }
  }

  // ---------------------------------------------------------------------
  // Human-readable part and checksum
  // ---------------------------------------------------------------------

  function HrpHigh(c: char): nat { c as int / 32 }

  function HrpLow(c: char): nat { c as int % 32 }

  function HrpExpand(hrp: string): seq<nat> {
    seq(|hrp|, i requires 0 <= i < |hrp| => HrpHigh(hrp[i])) + [0]
    + seq(|hrp|, i requires 0 <= i < |hrp| => HrpLow(hrp[i]))
  }

  method ExpandHrp(hrp: string) returns (ret: seq<nat>)
    ensures ret == HrpExpand(hrp)
  {
    ret := [];
    for k := 0 to |hrp|
      invariant ret == seq(k, i requires 0 <= i < k => HrpHigh(hrp[i]))
    {
      ret := ret + [hrp[k] as int / 32];
    }
    ret := ret + [0];
    ghost var front := ret;
    for k := 0 to |hrp|
      invariant ret == front + seq(k, i requires 0 <= i < k => HrpLow(hrp[i]))
    {
      ret := ret + [hrp[k] as int % 32];
    }
  }

  lemma HrpIsWords(hrp: string)
    ensures Words(HrpExpand(hrp))
  {
    Pow2Values();
    forall i | 0 <= i < |HrpExpand(hrp)| ensures Fits(HrpExpand(hrp)[i], 30) {
      FitsIff(HrpExpand(hrp)[i], 30);
    }
  }

  predicate VerifyChecksum(hrp: string, data: seq<Symbol>) {
    Polymod(1, HrpExpand(hrp) + data) == BECH32M_CONST
  }

  method CheckChecksum(hrp: string, data: seq<Symbol>) returns (ok: bool)
    ensures ok == VerifyChecksum(hrp, data)
  {
    var values := ExpandHrp(hrp);
    var chk := ComputePolymod(values + data);
    ok := chk == BECH32M_CONST;
  }

  const ZEROS: seq<nat> := [0, 0, 0, 0, 0, 0]

  /** The i-th of six 5-bit groups of m, most significant first. */
  function Digit(m: nat, i: nat): (v: Symbol)
    requires i < 6
  {
    LowIsRemainder(Shr(m, 5 * (5 - i)), 5);
    Pow2Values();
    Low(Shr(m, 5 * (5 - i)), 5)
  }

  function CreateChecksum(hrp: string, data: seq<Symbol>): (checksum: seq<Symbol>)
    ensures |checksum| == 6
  {
    var m := Xor(Polymod(1, HrpExpand(hrp) + data + ZEROS), BECH32M_CONST);
    seq(6, i requires 0 <= i < 6 => Digit(m, i))
  }

  method Digits(m: nat) returns (digits: seq<Symbol>)
    ensures digits == seq(6, i requires 0 <= i < 6 => Digit(m, i))
  {
    digits := [];
    for i := 0 to 6
      invariant digits == seq(i, j requires 0 <= j < i => Digit(m, j))
    {
      digits := digits + [Digit(m, i)];
    }
  }

  method ComputeChecksum(hrp: string, data: seq<Symbol>) returns (checksum: seq<Symbol>)
    ensures checksum == CreateChecksum(hrp, data)
  {
    var values: seq<nat> := ExpandHrp(hrp);
    values := values + data + [0, 0, 0, 0, 0, 0];
    var chk := ComputePolymod(values);
    checksum := Digits(Xor(chk, BECH32M_CONST));
  }

  /** A window written as one number, first symbol most significant. */
  function Pack(s: seq<nat>): nat {
    if s == [] then 0 else Shl(Pack(s[..|s| - 1]), 5) + s[|s| - 1]
  }

  lemma {:induction false} PolymodOfWindow(chk: nat, s: seq<nat>, zeros: seq<nat>)
    requires |s| == |zeros| <= 6 && Small(s)
    requires forall i :: 0 <= i < |zeros| ==> zeros[i] == 0
    ensures Xor(Polymod(chk, s), Polymod(chk, zeros)) == Pack(s)
    ensures Fits(Pack(s), 5 * |s|)
  {
    if s == [] {
      XorSelf(chk);
    } else {
      var n := |s| - 1;
      var x, y := Polymod(chk, s[..n]), Polymod(chk, zeros[..n]);
      PolymodOfWindow(chk, s[..n], zeros[..n]);
      StepAppends(Xor(x, y), s[n], n);
      StepLinear(x, y, s[n], 0);
      XorComm(s[n], 0);
    }
  }

  /** The first n digits of m are m without its low 5(6-n) bits. */
  lemma {:induction false} PackDigits(m: nat, digits: seq<nat>, n: nat)
    requires n <= 6 && |digits| == 6 && Fits(m, 30)
    requires forall i :: 0 <= i < 6 ==> digits[i] == Digit(m, i)
    ensures Pack(digits[..n]) == Shr(m, 30 - 5 * n)
  {
    if n > 0 {
      PackDigits(m, digits, n - 1);
      assert digits[..n][..n - 1] == digits[..n - 1];
      var rest := Shr(m, 30 - 5 * n);
      ShrShr(m, 30 - 5 * n, 5);
      LowIsRemainder(rest, 5);
      assert 5 * (5 - (n - 1)) == 30 - 5 * n;
    }
  }

  lemma SymbolsAreSmall(s: seq<Symbol>)
    ensures Small(s)
  {
    Pow2Values();
    forall i | 0 <= i < |s| ensures Fits(s[i], 5) {
      FitsIff(s[i], 5);
    }
  }

  lemma ChecksumWord(hrp: string, data: seq<Symbol>)
    ensures Fits(Polymod(1, HrpExpand(hrp) + data + ZEROS), 30) && Fits(BECH32M_CONST, 30)
  {
    HrpIsWords(hrp);
    SymbolsAreSmall(data);
    SmallIsWords(data);
    ShrZero(30);
    Pow2Values();
    FitsIff(1, 30);
    FitsIff(BECH32M_CONST, 30);
    PolymodFits(1, HrpExpand(hrp) + data + ZEROS);
  }

  lemma OwnChecksum(hrp: string, data: seq<Symbol>)
    ensures Polymod(Polymod(1, HrpExpand(hrp) + data), CreateChecksum(hrp, data)) == BECH32M_CONST
  {
    var front := HrpExpand(hrp) + data;
    var c := Polymod(1, front);
    var own: seq<nat> := CreateChecksum(hrp, data);
    var z := Polymod(c, ZEROS);
    PolymodConcat(1, front, ZEROS);
    ChecksumWord(hrp, data);
    XorFits(z, BECH32M_CONST, 30);
    PackDigits(Xor(z, BECH32M_CONST), own, 6);
    assert own[..6] == own;
    SymbolsAreSmall(own);
    PolymodOfWindow(c, own, ZEROS);
    XorCancel(Polymod(c, own), z, BECH32M_CONST);
  }

  lemma Assoc(a: seq<nat>, b: seq<nat>, c: seq<nat>)
    ensures a + (b + c) == (a + b) + c
  {
  }

  lemma ShiftFront(a: seq<nat>, b: seq<nat>, c: seq<nat>, d: seq<nat>)
    ensures a + (b + c + d) == (a + b) + c + d
  {
  }

  lemma SuffixRegister(h: seq<nat>, data: seq<nat>, suffix: seq<nat>)
    ensures Polymod(1, h + (data + suffix)) == Polymod(Polymod(1, h + data), suffix)
  {
    Assoc(h, data, suffix);
    PolymodConcat(1, h + data, suffix);
  }

  /** createChecksum yields the unique six-symbol suffix that verifies. */
  lemma ChecksumUnique(hrp: string, data: seq<Symbol>, suffix: seq<Symbol>)
    requires |suffix| == 6
    ensures VerifyChecksum(hrp, data + suffix) <==> suffix == CreateChecksum(hrp, data)
  {
    var own := CreateChecksum(hrp, data);
    OwnChecksum(hrp, data);
    SymbolsAreSmall(own);
    SymbolsAreSmall(suffix);
    SuffixRegister(HrpExpand(hrp), data, suffix);
    WindowGap(Polymod(1, HrpExpand(hrp) + data), suffix, own);
  }

  // ---------------------------------------------------------------------
  // Error detection
  // ---------------------------------------------------------------------

  /** s and t differ, and only inside the six symbols starting at w. */
  predicate Burst(s: seq<Symbol>, t: seq<Symbol>, w: nat) {
    && |s| == |t| && s != t
    && forall i :: 0 <= i < |s| && !(w <= i < w + 6) ==> s[i] == t[i]
  }

  /** Whatever verifies stops verifying under any burst of length at most six, at any data length. */
  lemma BurstDetected(hrp: string, s: seq<Symbol>, t: seq<Symbol>, w: nat)
    requires Burst(s, t, w) && VerifyChecksum(hrp, s)
    ensures !VerifyChecksum(hrp, t)
  {
    var lo := if w <= |s| then w else |s|;
    var hi := if lo + 6 <= |s| then lo + 6 else |s|;
    assert s[..lo] == t[..lo] && s[hi..] == t[hi..];
    assert s == s[..lo] + s[lo..hi] + s[hi..] && t == s[..lo] + t[lo..hi] + s[hi..];
    WindowDetected(hrp, s[..lo], s[lo..hi], t[lo..hi], s[hi..]);
  }

  lemma WindowDetected(hrp: string, front: seq<Symbol>, s: seq<Symbol>, t: seq<Symbol>, back: seq<Symbol>)
    requires |s| == |t| <= 6 && s != t
    ensures !(VerifyChecksum(hrp, front + s + back) && VerifyChecksum(hrp, front + t + back))
  {
    HrpIsWords(hrp);
    SymbolsAreSmall(front);
    SymbolsAreSmall(back);
    SymbolsAreSmall(s);
    SymbolsAreSmall(t);
    WindowChangesPolymod(HrpExpand(hrp), front, s, t, back);
  }

  lemma WindowChangesPolymod(h: seq<nat>, front: seq<nat>, s: seq<nat>, t: seq<nat>, back: seq<nat>)
    requires Words(h) && Small(front) && Small(back)
    requires |s| == |t| <= 6 && Small(s) && Small(t) && s != t
    ensures Polymod(1, h + (front + s + back)) != Polymod(1, h + (front + t + back))
  {
    SmallIsWords(front);
    SmallIsWords(back);
    Pow2Values();
    FitsIff(1, 30);
    BurstChangesPolymod(1, h + front, s, t, back);
    ShiftFront(h, front, s, back);
    ShiftFront(h, front, t, back);
  }

  lemma SubstitutionDetected(hrp: string, s: seq<Symbol>, i: nat, v: Symbol)
    requires i < |s| && v != s[i] && VerifyChecksum(hrp, s)
    ensures !VerifyChecksum(hrp, s[i := v])
  {
    assert s[i := v][i] != s[i];
    BurstDetected(hrp, s, s[i := v], i);
  }

  lemma AdjacentSwapDetected(hrp: string, s: seq<Symbol>, i: nat)
    requires i + 1 < |s| && s[i] != s[i + 1] && VerifyChecksum(hrp, s)
    ensures !VerifyChecksum(hrp, s[i := s[i + 1]][i + 1 := s[i]])
  {
    var t := s[i := s[i + 1]][i + 1 := s[i]];
    assert t[i] != s[i];
    BurstDetected(hrp, s, t, i);
  }

  /** The checksum covers the human-readable part: two expansions that differ within six consecutive places, and
      nowhere else, share no verifying data. */
  lemma ExpansionBurstDetected(hrp: string, hrp': string, data: seq<Symbol>, w: nat)
    requires |hrp| == |hrp'| && IsAscii(hrp) && IsAscii(hrp') && VerifyChecksum(hrp, data)
    requires HrpExpand(hrp) != HrpExpand(hrp')
    requires forall i :: 0 <= i < |HrpExpand(hrp)| && !(w <= i < w + 6) ==> HrpExpand(hrp)[i] == HrpExpand(hrp')[i]
    ensures !VerifyChecksum(hrp', data)
  {
    var s, t := HrpExpand(hrp), HrpExpand(hrp');
    AsciiIsSmall(hrp);
    AsciiIsSmall(hrp');
    SymbolsAreSmall(data);
    var lo := if w <= |s| then w else |s|;
    var hi := if lo + 6 <= |s| then lo + 6 else |s|;
    FrontBurst(s, t, data, lo, hi);
  }

  /** Two fronts of equal length that differ within a window of six, before the same data. */
  lemma FrontBurst(s: seq<nat>, t: seq<nat>, data: seq<nat>, lo: nat, hi: nat)
    requires Small(s) && Small(t) && Small(data) && |s| == |t| && s != t && lo <= hi <= |s| && hi <= lo + 6
    requires s[..lo] == t[..lo] && s[hi..] == t[hi..]
    ensures Polymod(1, s + data) != Polymod(1, t + data)
  {
    assert s == s[..lo] + s[lo..hi] + s[hi..] && t == s[..lo] + t[lo..hi] + s[hi..];
    assert Small(s[..lo]) && Small(s[lo..hi]) && Small(t[lo..hi]) && Small(s[hi..] + data);
    WindowChangesPolymod([], s[..lo], s[lo..hi], t[lo..hi], s[hi..] + data);
    Around(s, data, lo, hi);
    Around(t, data, lo, hi);
  }

  lemma AsciiIsSmall(hrp: string)
    requires IsAscii(hrp)
    ensures Small(HrpExpand(hrp))
  {
    Pow2Values();
    forall i | 0 <= i < |HrpExpand(hrp)| ensures Fits(HrpExpand(hrp)[i], 5) {
      FitsIff(HrpExpand(hrp)[i], 5);
    }
  }

  lemma Around(s: seq<nat>, data: seq<nat>, lo: nat, hi: nat)
    requires lo <= hi <= |s|
    ensures s + data == [] + (s[..lo] + s[lo..hi] + (s[hi..] + data))
  {
  }

  /** So re-labelled data is refused: whatever verifies under one human-readable part stops verifying under any other
      that differs from it in the low parts, or in the high parts, of at most six consecutive characters. */
  lemma RelabelDetected(hrp: string, hrp': string, data: seq<Symbol>, w: nat)
    requires |hrp| == |hrp'| && hrp != hrp' && IsAscii(hrp) && IsAscii(hrp') && VerifyChecksum(hrp, data)
    requires forall i :: 0 <= i < |hrp| && !(w <= i < w + 6) ==> hrp[i] == hrp'[i]
    requires || (forall i :: 0 <= i < |hrp| ==> HrpHigh(hrp[i]) == HrpHigh(hrp'[i]))
             || (forall i :: 0 <= i < |hrp| ==> HrpLow(hrp[i]) == HrpLow(hrp'[i]))
    ensures !VerifyChecksum(hrp', data)
  {
    var n := |hrp|;
    var k :| 0 <= k < n && hrp[k] != hrp'[k];
    assert hrp[k] as int == 32 * HrpHigh(hrp[k]) + HrpLow(hrp[k]);
    assert hrp'[k] as int == 32 * HrpHigh(hrp'[k]) + HrpLow(hrp'[k]);
    ExpandedAt(hrp, k);
    ExpandedAt(hrp', k);
    var low := forall i :: 0 <= i < n ==> HrpHigh(hrp[i]) == HrpHigh(hrp'[i]);
    forall i | 0 <= i < |HrpExpand(hrp)| && !((if low then n + 1 + w else w) <= i < (if low then n + 7 + w else w + 6))
      ensures HrpExpand(hrp)[i] == HrpExpand(hrp')[i]
    {
      if i != n {
        ExpandedAt(hrp, if i < n then i else i - n - 1);
        ExpandedAt(hrp', if i < n then i else i - n - 1);
      }
    }
    ExpansionBurstDetected(hrp, hrp', data, if low then n + 1 + w else w);
  }

  /** A character contributes its high part before the zero and its low part after it. */
  lemma ExpandedAt(hrp: string, i: nat)
    requires i < |hrp|
    ensures var e := HrpExpand(hrp);
            && |e| == 2 * |hrp| + 1 && e[|hrp|] == 0
            && 32 * e[i] + e[|hrp| + 1 + i] == hrp[i] as int && e[|hrp| + 1 + i] < 32
            && e[i] == HrpHigh(hrp[i]) && e[|hrp| + 1 + i] == HrpLow(hrp[i])
  {
  }

  // ---------------------------------------------------------------------
  // Text form. Text is ASCII, where Go's case mapping is the one below.
  // ---------------------------------------------------------------------

  predicate IsAscii(s: string) {
    forall i :: 0 <= i < |s| ==> s[i] < 128 as char
  }

  type Ascii = s: string | IsAscii(s)

  function LowerChar(c: char): char {
    if 'A' <= c <= 'Z' then (c as int + 32) as char else c
  }

  function UpperChar(c: char): char {
    if 'a' <= c <= 'z' then (c as int - 32) as char else c
  }

  function Lower(s: string): (r: string)
    ensures |r| == |s|
  {
    seq(|s|, i requires 0 <= i < |s| => LowerChar(s[i]))
  }

  function Upper(s: string): (r: string)
    ensures |r| == |s|
  {
    seq(|s|, i requires 0 <= i < |s| => UpperChar(s[i]))
  }

  predicate HasUpper(s: string) {
    exists i :: 0 <= i < |s| && 'A' <= s[i] <= 'Z'
  }

  predicate HrpText(hrp: string) {
    forall i :: 0 <= i < |hrp| ==> 33 as char <= hrp[i] <= 126 as char
  }

  /** strings.IndexRune over the charset. */
  function IndexFrom(c: char, k: nat): (r: int)
    requires k <= 32
    ensures r == -1 || (k <= r < 32 && CHARSET[r] == c)
    ensures r == -1 ==> forall j :: k <= j < 32 ==> CHARSET[j] != c
    decreases 32 - k
  {
    if k == 32 then -1 else if CHARSET[k] == c then k else IndexFrom(c, k + 1)
  }

  function IndexRune(c: char): (r: int)
    ensures r == -1 || (0 <= r < 32 && CHARSET[r] == c)
    ensures r == -1 ==> forall j :: 0 <= j < 32 ==> CHARSET[j] != c
  {
    IndexFrom(c, 0)
  }

  /** An independent inverse table, from which the charset's characters are seen to be distinct. */
  function Ordinal(c: char): int {
    if c == 'q' then 0 else if c == 'p' then 1 else if c == 'z' then 2 else if c == 'r' then 3
    else if c == 'y' then 4 else if c == '9' then 5 else if c == 'x' then 6 else if c == '8' then 7
    else if c == 'g' then 8 else if c == 'f' then 9 else if c == '2' then 10 else if c == 't' then 11
    else if c == 'v' then 12 else if c == 'd' then 13 else if c == 'w' then 14 else if c == '0' then 15
    else if c == 's' then 16 else if c == '3' then 17 else if c == 'j' then 18 else if c == 'n' then 19
    else if c == '5' then 20 else if c == '4' then 21 else if c == 'k' then 22 else if c == 'h' then 23
    else if c == 'c' then 24 else if c == 'e' then 25 else if c == '6' then 26 else if c == 'm' then 27
    else if c == 'u' then 28 else if c == 'a' then 29 else if c == '7' then 30 else if c == 'l' then 31
    else -1
  }

  lemma OrdinalOf(v: Symbol)
    ensures Ordinal(CHARSET[v]) == v
  {
    if v < 8 {
      assert v == 0 || v == 1 || v == 2 || v == 3 || v == 4 || v == 5 || v == 6 || v == 7;
    } else if v < 16 {
      assert v == 8 || v == 9 || v == 10 || v == 11 || v == 12 || v == 13 || v == 14 || v == 15;
    } else if v < 24 {
      assert v == 16 || v == 17 || v == 18 || v == 19 || v == 20 || v == 21 || v == 22 || v == 23;
    } else {
      assert v == 24 || v == 25 || v == 26 || v == 27 || v == 28 || v == 29 || v == 30 || v == 31;
    }
  }

  lemma OrdinalClass(c: char)
    requires Ordinal(c) >= 0
    ensures c != '1' && !('A' <= c <= 'Z') && 33 as char <= c <= 126 as char
  {
  }

  lemma CharsetChar(v: Symbol)
    ensures IndexRune(CHARSET[v]) == v
    ensures CHARSET[v] != '1' && !('A' <= CHARSET[v] <= 'Z') && 33 as char <= CHARSET[v] <= 126 as char
  {
    var r := IndexRune(CHARSET[v]);
    OrdinalOf(v);
    OrdinalClass(CHARSET[v]);
    assert CHARSET[r] == CHARSET[v];
    OrdinalOf(r);
  }

  function ToText(data: seq<Symbol>): (r: string)
    ensures |r| == |data|
  {
    seq(|data|, i requires 0 <= i < |data| => CHARSET[data[i]])
  }

  /** The charset index of every character, or an error at the first one outside it. */
  function FromText(s: string): (r: Result<seq<Symbol>>)
  {
    if forall i :: 0 <= i < |s| ==> IndexRune(s[i]) >= 0 then
      Ok(seq(|s|, i requires 0 <= i < |s| => IndexRune(s[i])))
    else Err(DataCharacter)
  }

  /** strings.LastIndex(s, "1"). */
  function LastOne(s: string): (r: int)
    ensures r == -1 || (0 <= r < |s| && s[r] == '1')
    ensures forall j :: r < j < |s| ==> s[j] != '1'
  {
    if s == [] then -1 else if s[|s| - 1] == '1' then |s| - 1 else LastOne(s[..|s| - 1])
  }

  function Encode(hrp: string, data: seq<int>): (r: Result<string>)
  {
    if !HrpText(hrp) then Err(HrpCharacter)
    else if exists i :: 0 <= i < |data| && !(0 <= data[i] < 32) then Err(DataRange)
    else
      var combined := data + CreateChecksum(hrp, data);
      var text := hrp + "1" + ToText(combined);
      if |text| > MAX_LENGTH then Err(TooLong) else Ok(text)
  }

  function Decode(s: Ascii): (r: Result<(string, seq<Symbol>)>)
  {
    if |s| < 8 || |s| > MAX_LENGTH then Err(BadLength)
    else if s != Lower(s) && s != Upper(s) then Err(MixedCase)
    else DecodeLower(Lower(s))
  }

  /** From the lower-case form on. */
  function DecodeLower(t: string): (r: Result<(string, seq<Symbol>)>)
    ensures r != Err(MixedCase)
  {
    var pos := LastOne(t);
    if pos < 1 || pos + 7 > |t| then Err(SeparatorPosition)
    else if !HrpText(t[..pos]) then Err(HrpCharacter)
    else
      match FromText(t[pos + 1..])
      case Err(_) => Err(DataCharacter)
      case Ok(values) =>
        if !VerifyChecksum(t[..pos], values) then Err(BadChecksum)
        else Ok((t[..pos], values[..|values| - 6]))
  }

  method RenderText(data: seq<Symbol>) returns (text: string)
    ensures text == ToText(data)
  {
    text := "";
    for i := 0 to |data|
      invariant text == ToText(data[..i])
    {
      text := text + [CHARSET[data[i]]];
      assert data[..i + 1] == data[..i] + [data[i]];
    }
    assert data[..|data|] == data;
  }

  method EncodeBech32m(hrp: string, data: seq<int>) returns (r: Result<string>)
    ensures r == Encode(hrp, data)
  {
    var valid := CheckHrp(hrp);
    if !valid {
      return Err(HrpCharacter);
    }
    for i := 0 to |data|
      invariant forall j :: 0 <= j < i ==> 0 <= data[j] < 32
    {
      if data[i] < 0 || data[i] > 31 {
        return Err(DataRange);
      }
    }
    var checksum := ComputeChecksum(hrp, data);
    var tail := RenderText(data + checksum);
    var text := hrp + "1" + tail;
    if |text| > MAX_LENGTH {
      return Err(TooLong);
    }
    return Ok(text);
  }

  method CheckHrp(hrp: string) returns (ok: bool)
    ensures ok == HrpText(hrp)
  {
    for i := 0 to |hrp|
      invariant forall j :: 0 <= j < i ==> 33 as char <= hrp[j] <= 126 as char
    {
      if hrp[i] < 33 as char || hrp[i] > 126 as char {
        return false;
      }
    }
    return true;
  }

  method ParseText(s: string) returns (r: Result<seq<Symbol>>)
    ensures r == FromText(s)
  {
    var values: seq<Symbol> := [];
    for i := 0 to |s|
      invariant |values| == i
      invariant forall j :: 0 <= j < i ==> values[j] == IndexRune(s[j]) >= 0
    {
      var idx := IndexRune(s[i]);
      if idx < 0 {
        return Err(DataCharacter);
      }
      values := values + [idx];
    }
    assert values == seq(|s|, i requires 0 <= i < |s| => IndexRune(s[i]));
    return Ok(values);
  }

  method DecodeBech32m(s: Ascii) returns (r: Result<(string, seq<Symbol>)>)
    ensures r == Decode(s)
  {
    if |s| < 8 || |s| > MAX_LENGTH {
      return Err(BadLength);
    }
    var lower := Lower(s);
    if s != lower && s != Upper(s) {
      return Err(MixedCase);
    }
    r := ReadLower(lower);
  }

  method ReadLower(lower: string) returns (r: Result<(string, seq<Symbol>)>)
    ensures r == DecodeLower(lower)
  {
    var pos := LastOne(lower);
    if pos < 1 || pos + 7 > |lower| {
      return Err(SeparatorPosition);
    }
    var hrp := lower[..pos];
    var valid := CheckHrp(hrp);
    if !valid {
      return Err(HrpCharacter);
    }
    var parsed := ParseText(lower[pos + 1..]);
    if parsed.Err? {
      return Err(parsed.error);
    }
    var values := parsed.value;
    var ok := CheckChecksum(hrp, values);
    if !ok {
      return Err(BadChecksum);
    }
    return Ok((hrp, values[..|values| - 6]));
  }

  // ---------------------------------------------------------------------
  // Inverses
  // ---------------------------------------------------------------------

  lemma TextRoundTrip(data: seq<Symbol>)
    ensures FromText(ToText(data)) == Ok(data)
    ensures forall i :: 0 <= i < |data| ==> ToText(data)[i] != '1'
    ensures Lower(ToText(data)) == ToText(data) && IsAscii(ToText(data))
  {
    forall i | 0 <= i < |data|
      ensures IndexRune(ToText(data)[i]) == data[i] && ToText(data)[i] != '1'
      ensures LowerChar(ToText(data)[i]) == ToText(data)[i] && ToText(data)[i] < 128 as char
    {
      CharsetChar(data[i]);
    }
    var text := ToText(data);
    assert seq(|text|, i requires 0 <= i < |text| => IndexRune(text[i])) == data;
  }

  lemma LastOneUnique(s: string, p: nat)
    requires p < |s| && s[p] == '1' && forall j :: p < j < |s| ==> s[j] != '1'
    ensures LastOne(s) == p
  {
    var r := LastOne(s);
    assert r >= p;
  }

  lemma SeparatorFound(hrp: string, tail: string)
    requires forall i :: 0 <= i < |tail| ==> tail[i] != '1'
    ensures LastOne(hrp + "1" + tail) == |hrp|
  {
    var s := hrp + "1" + tail;
    assert s[|hrp|] == '1' && s[|hrp| + 1..] == tail;
    forall j | |hrp| < j < |s| ensures s[j] != '1' {
      assert s[j] == s[|hrp| + 1..][j - (|hrp| + 1)];
    }
    LastOneUnique(s, |hrp|);
  }

  lemma LowerIdentity(s: string)
    ensures Lower(s) == s <==> !HasUpper(s)
  {
  }

  lemma EncodedIsAscii(hrp: string, data: seq<int>)
    requires Encode(hrp, data).Ok?
    ensures IsAscii(Encode(hrp, data).value)
  {
    var symbols: seq<Symbol> := data;
    TextRoundTrip(symbols + CreateChecksum(hrp, symbols));
  }

  lemma DecodePlain(hrp: string, data: seq<Symbol>, s: Ascii)
    requires hrp != "" && HrpText(hrp) && !HasUpper(hrp) && |s| <= MAX_LENGTH
    requires s == hrp + "1" + ToText(data + CreateChecksum(hrp, data))
    ensures Decode(s) == Ok((hrp, data))
  {
    var checksum := CreateChecksum(hrp, data);
    var combined := data + checksum;
    var tail := ToText(combined);
    TextRoundTrip(combined);
    LowerConcat(hrp, tail);
    SeparatorFound(hrp, tail);
    assert s[..|hrp|] == hrp && s[|hrp| + 1..] == tail;
    ChecksumUnique(hrp, data, checksum);
    assert combined[..|combined| - 6] == data;
  }

  lemma LowerConcat(hrp: string, tail: string)
    requires !HasUpper(hrp) && Lower(tail) == tail
    ensures Lower(hrp + "1" + tail) == hrp + "1" + tail
  {
    LowerIdentity(hrp);
    assert Lower(hrp + "1" + tail) == Lower(hrp) + "1" + Lower(tail);
  }

  lemma DecodedHrp(s: Ascii)
    ensures Decode(s).Ok? ==> Decode(s).value.0 != "" && !HasUpper(Decode(s).value.0)
  {
    if Decode(s).Ok? {
      var hrp := Decode(s).value.0;
      var t := Lower(s);
      assert hrp == t[..LastOne(t)];
      forall i | 0 <= i < |hrp| ensures !('A' <= hrp[i] <= 'Z') {
        assert hrp[i] == LowerChar(s[i]);
      }
    }
  }

  /** Decoding undoes encoding exactly for a nonempty human-readable part without upper-case letters. */
  lemma DecodeUndoesEncode(hrp: string, data: seq<int>)
    requires Encode(hrp, data).Ok?
    ensures IsAscii(Encode(hrp, data).value)
    ensures Decode(Encode(hrp, data).value) == Ok((hrp, data)) <==> hrp != "" && !HasUpper(hrp)
  {
    EncodedIsAscii(hrp, data);
    var s := Encode(hrp, data).value;
    if hrp != "" && !HasUpper(hrp) {
      DecodePlain(hrp, data, s);
    }
    DecodedHrp(s);
  }

  /** Re-encoding anything that decodes gives its lower-case form back. */
  lemma EncodeUndoesDecode(s: Ascii)
    ensures Decode(s).Ok? ==> Encode(Decode(s).value.0, Decode(s).value.1) == Ok(Lower(s))
  {
    if Decode(s).Ok? {
      var t := Lower(s);
      var pos := LastOne(t);
      var hrp, dataPart := t[..pos], t[pos + 1..];
      var values := FromText(dataPart).value;
      var data, suffix := values[..|values| - 6], values[|values| - 6..];
      assert values == data + suffix;
      ChecksumUnique(hrp, data, suffix);
      TextOfParsed(dataPart);
      AroundOne(t, pos);
    }
  }

  lemma AroundOne(t: string, pos: nat)
    requires pos < |t| && t[pos] == '1'
    ensures t == t[..pos] + "1" + t[pos + 1..]
  {
  }

  lemma TextOfParsed(s: string)
    requires FromText(s).Ok?
    ensures ToText(FromText(s).value) == s
  {
    var values := FromText(s).value;
    forall i | 0 <= i < |s| ensures ToText(values)[i] == s[i] {
      assert values[i] == IndexRune(s[i]);
    }
  }

  // ---------------------------------------------------------------------
  // Letter case
  // ---------------------------------------------------------------------

  predicate HasLower(s: string) {
    exists i :: 0 <= i < |s| && 'a' <= s[i] <= 'z'
  }

  lemma CaseForms(s: Ascii)
    ensures IsAscii(Upper(s)) && Lower(Upper(s)) == Lower(s) && Upper(Upper(s)) == Upper(s)
    ensures s == Lower(s) <==> !HasUpper(s)
    ensures s == Upper(s) <==> !HasLower(s)
  {
    if s == Upper(s) {
      forall i | 0 <= i < |s| ensures !('a' <= s[i] <= 'z') {
        assert Upper(s)[i] == s[i];
      }
    }
  }

  /** Text all in one case decodes alike in either; text of a possible length with letters of both is refused. */
  lemma CaseExactly(s: Ascii)
    ensures IsAscii(Upper(s))
    ensures !HasUpper(s) ==> Decode(Upper(s)) == Decode(s)
    ensures 8 <= |s| <= MAX_LENGTH ==> (Decode(s) == Err(MixedCase) <==> HasUpper(s) && HasLower(s))
  {
    CaseForms(s);
  }

  /** Encoding succeeds exactly for a printable human-readable part, symbols in range, and a text of at most 90
      characters, of which the separator and the checksum are seven. */
  lemma EncodesExactly(hrp: string, data: seq<int>)
    ensures Encode(hrp, data).Ok? <==>
              && (forall i :: 0 <= i < |hrp| ==> '!' <= hrp[i] <= '~')
              && (forall i :: 0 <= i < |data| ==> 0 <= data[i] < 32) && |hrp| + |data| + 7 <= 90
  {
  }

  /** Decoding is the inverse of encoding and nothing more: text decodes to a nonempty human-readable part and data
      exactly if it is in one letter case and they encode to its lower-case form. */
  lemma DecodesExactly(s: Ascii, hrp: string, data: seq<Symbol>)
    ensures Decode(s) == Ok((hrp, data)) <==>
              !(HasUpper(s) && HasLower(s)) && hrp != "" && Encode(hrp, data) == Ok(Lower(s))
  {
    CaseForms(s);
    if Decode(s) == Ok((hrp, data)) {
      EncodeUndoesDecode(s);
      DecodedHrp(s);
    } else if !(HasUpper(s) && HasLower(s)) && hrp != "" && Encode(hrp, data) == Ok(Lower(s)) {
      DecodesBack(s, hrp, data);
    }
  }

  lemma DecodesBack(s: Ascii, hrp: string, data: seq<Symbol>)
    requires !(HasUpper(s) && HasLower(s)) && hrp != "" && Encode(hrp, data) == Ok(Lower(s))
    ensures Decode(s) == Ok((hrp, data))
  {
    CaseForms(s);
    var t := Lower(s);
    assert IsAscii(t) && Lower(t) == t;
    assert t[..|hrp|] == hrp;
    forall i | 0 <= i < |hrp| ensures !('A' <= hrp[i] <= 'Z') {
      assert t[i] == hrp[i] && t[i] == LowerChar(s[i]);
    }
    DecodePlain(hrp, data, t);
  }
}
