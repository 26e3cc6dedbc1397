/**
 The shortest valid string of BIP-350, section "Test vectors for Bech32m", as a
 theorem about the codec: computed on registers written as six 5-bit symbols.
 */
module Bech32mVector {
  import opened Collections
  import opened Gf2
  import opened Bech32m

  // ---------------------------------------------------------------------
  // Exclusive or, symbol by symbol
  // ---------------------------------------------------------------------

  /** Symbols written one after the other, the last one least significant. */
  datatype Word = Empty | Then(front: Word, last: nat)

  function Six(a: nat, b: nat, c: nat, d: nat, e: nat, f: nat): Word {
    Then(Then(Then(Then(Then(Then(Empty, a), b), c), d), e), f)
  }

  function Length(w: Word): nat {
    match w
    case Empty => 0
    case Then(front, _) => Length(front) + 1
  }

  predicate Proper(w: Word) {
    match w
    case Empty => true
    case Then(front, last) => Proper(front) && last < 32
  }

  function Val(w: Word): nat {
    match w
    case Empty => 0
    case Then(front, last) => 32 * Val(front) + last
  }

  /** The last n bits of two numbers compared place by place. */
  function XorTo(u: nat, v: nat, n: nat): nat {
    if n == 0 then 0 else 2 * XorTo(u / 2, v / 2, n - 1) + (if u % 2 != v % 2 then 1 else 0)
  }

  /** The same for five bits, written out. */
  function XorSymbol(u: nat, v: nat): nat {
    (if u % 2 != v % 2 then 1 else 0) + (if u / 2 % 2 != v / 2 % 2 then 2 else 0)
    + (if u / 4 % 2 != v / 4 % 2 then 4 else 0) + (if u / 8 % 2 != v / 8 % 2 then 8 else 0)
    + (if u / 16 % 2 != v / 16 % 2 then 16 else 0)
  }

  function XorWord(w: Word, x: Word): (r: Word)
    requires Length(w) == Length(x)
  {
    match w
    case Empty => Empty
    case Then(front, last) => Then(XorWord(front, x.front), XorSymbol(last, x.last))
  }

  lemma {:induction false} XorToIs(u: nat, v: nat, n: nat)
    requires Fits(u, n) && Fits(v, n)
    ensures Xor(u, v) == XorTo(u, v, n)
  {
    if n > 0 {
      XorToIs(u / 2, v / 2, n - 1);
      XorBits(u, v);
    }
  }

  lemma XorSymbolIs(u: nat, v: nat, n: nat)
    requires n == 5
    ensures XorTo(u, v, n) == XorSymbol(u, v)
  {
    XorToNext(u, v, n);
    XorToNext(u / 2, v / 2, n - 1);
    XorToNext(u / 4, v / 4, n - 2);
    XorToNext(u / 8, v / 8, n - 3);
    XorToNext(u / 16, v / 16, n - 4);
    assert XorTo(u / 16 / 2, v / 16 / 2, n - 5) == 0;
    assert u / 2 / 2 == u / 4 && u / 4 / 2 == u / 8 && u / 8 / 2 == u / 16;
    assert v / 2 / 2 == v / 4 && v / 4 / 2 == v / 8 && v / 8 / 2 == v / 16;
  }

  lemma {:induction false} XorToNext(u: nat, v: nat, n: nat)
    requires n > 0
    ensures XorTo(u, v, n) == 2 * XorTo(u / 2, v / 2, n - 1) + (if u % 2 != v % 2 then 1 else 0)
  {
  }

  lemma {:induction false} AppendXor(a: nat, b: nat, u: nat, v: nat)
    requires u < 32 && v < 32
    ensures Xor(32 * a + u, 32 * b + v) == 32 * Xor(a, b) + Xor(u, v)
  {
    Pow2Values();
    FitsIff(u, 5);
    FitsIff(v, 5);
    ShlIsProduct(a, 5);
    ShlIsProduct(b, 5);
    ShlIsProduct(Xor(a, b), 5);
    AppendBits(a, b, u, v, 5);
  }

  lemma {:induction false} AppendBits(a: nat, b: nat, u: nat, v: nat, n: nat)
    requires Fits(u, n) && Fits(v, n)
    ensures Xor(Shl(a, n) + u, Shl(b, n) + v) == Shl(Xor(a, b), n) + Xor(u, v)
  {
    XorDisjoint(a, u, n);
    XorDisjoint(b, v, n);
    XorShuffle(Shl(a, n), u, Shl(b, n), v);
    XorShl(a, b, n);
    XorFits(u, v, n);
    XorDisjoint(Xor(a, b), Xor(u, v), n);
  }

  lemma {:induction false} XorVal(w: Word, x: Word)
    requires Length(w) == Length(x) && Proper(w) && Proper(x)
    ensures Xor(Val(w), Val(x)) == Val(XorWord(w, x))
  {
    if w.Then? {
      XorVal(w.front, x.front);
      SymbolXor(w.last, x.last, 5);
      XorThen(w.front, x.front, w.last, x.last, XorWord(w.front, x.front), XorSymbol(w.last, x.last));
    }
  }

  lemma {:induction false} XorThen(w: Word, x: Word, u: nat, v: nat, r: Word, s: nat)
    requires u < 32 && v < 32 && Xor(Val(w), Val(x)) == Val(r) && Xor(u, v) == s
    ensures Xor(Val(Then(w, u)), Val(Then(x, v))) == Val(Then(r, s))
  {
    AppendXor(Val(w), Val(x), u, v);
  }

  lemma {:induction false} SymbolXor(u: nat, v: nat, n: nat)
    requires n == 5 && u < 32 && v < 32
    ensures Xor(u, v) == XorSymbol(u, v)
  {
    Pow2Values();
    FitsIff(u, n);
    FitsIff(v, n);
    XorToIs(u, v, n);
    XorSymbolIs(u, v, n);
  }

  /** x and y are these words, and their exclusive or is the third. */
  lemma {:induction false} XorOf(x: nat, y: nat, w: Word, u: Word, r: Word)
    requires Length(w) == Length(u) == 6 && Proper(w) && Proper(u) && x == Val(w) && y == Val(u) && XorWord(w, u) == r
    ensures Xor(x, y) == Val(r)
  {
    XorVal(w, u);
  }

  // ---------------------------------------------------------------------
  // The sums of generators that occur
  // ---------------------------------------------------------------------

  lemma SumTwo(x: nat, y: nat)
    requires x == 0x26508e6d && y == 0x1ea119fa
    ensures Xor(x, y) == 0x38f19797
  {
    WordsSumTwo();
    XorOf(x, y, Six(19, 5, 1, 3, 19, 13), Six(15, 10, 2, 6, 15, 26), Six(28, 15, 3, 5, 28, 23));
  }

  lemma WordsSumTwo()
    ensures XorWord(Six(19, 5, 1, 3, 19, 13), Six(15, 10, 2, 6, 15, 26)) == Six(28, 15, 3, 5, 28, 23)
  {
  }

  lemma SumThree(x: nat, y: nat)
    requires x == 0x38f19797 && y == 0x3d4233dd
    ensures Xor(x, y) == 0x05b3a44a
  {
    WordsSumThree();
    XorOf(x, y, Six(28, 15, 3, 5, 28, 23), Six(30, 20, 4, 12, 30, 29), Six(2, 27, 7, 9, 2, 10));
  }

  lemma WordsSumThree()
    ensures XorWord(Six(28, 15, 3, 5, 28, 23), Six(30, 20, 4, 12, 30, 29)) == Six(2, 27, 7, 9, 2, 10)
  {
  }

  lemma SumFour(x: nat, y: nat)
    requires x == 0x05b3a44a && y == 0x2a1462b3
    ensures Xor(x, y) == 0x2fa7c6f9
  {
    WordsSumFour();
    XorOf(x, y, Six(2, 27, 7, 9, 2, 10), Six(21, 1, 8, 24, 21, 19), Six(23, 26, 15, 17, 23, 25));
  }

  lemma WordsSumFour()
    ensures XorWord(Six(2, 27, 7, 9, 2, 10), Six(21, 1, 8, 24, 21, 19)) == Six(23, 26, 15, 17, 23, 25)
  {
  }

  lemma SumEnds(x: nat, y: nat)
    requires x == 0x26508e6d && y == 0x2a1462b3
    ensures Xor(x, y) == 0x0c44ecde
  {
    WordsSumEnds();
    XorOf(x, y, Six(19, 5, 1, 3, 19, 13), Six(21, 1, 8, 24, 21, 19), Six(6, 4, 9, 27, 6, 30));
  }

  lemma WordsSumEnds()
    ensures XorWord(Six(19, 5, 1, 3, 19, 13), Six(21, 1, 8, 24, 21, 19)) == Six(6, 4, 9, 27, 6, 30)
  {
  }

  lemma {:induction false} FeedbackNext(b: nat, n: nat, f: nat, r: nat)
    requires n < 5 && Feedback(b, n) == f && r == if Bit(b, n) then Xor(f, GENERATOR[n]) else f
    ensures Feedback(b, n + 1) == r
  {
    XorComm(f, 0);
  }

  /** Feedback along the five generators, given the sums. */
  lemma {:induction false} FeedbackAlong(b: nat, fs: seq<nat>, n: nat)
    requires n <= 5 && |fs| == 6 && fs[0] == 0
    requires forall i :: 0 <= i < 5 ==> fs[i + 1] == if Bit(b, i) then Xor(fs[i], GENERATOR[i]) else fs[i]
    ensures Feedback(b, n) == fs[n]
  {
    if n > 0 {
      FeedbackAlong(b, fs, n - 1);
      FeedbackNext(b, n - 1, fs[n - 1], fs[n]);
    }
  }

  lemma BitsOf()
    ensures Bit(1, 0) && !Bit(1, 1) && !Bit(1, 2) && !Bit(1, 3) && !Bit(1, 4)
    ensures !Bit(30, 0) && Bit(30, 1) && Bit(30, 2) && Bit(30, 3) && Bit(30, 4)
    ensures !Bit(18, 0) && Bit(18, 1) && !Bit(18, 2) && !Bit(18, 3) && Bit(18, 4)
  {
  }

  lemma FeedbackOfOne(b: nat)
    requires b == 1
    ensures Feedback(b, 5) == 0x3b6a57b2
  {
    BitsOf();
    var g := GENERATOR[0];
    FeedbackAlong(b, [0, g, g, g, g, g], 5);
  }

  lemma FeedbackOfThirty(b: nat)
    requires b == 30
    ensures Feedback(b, 5) == 0x2fa7c6f9
  {
    BitsOf();
    SumTwo(GENERATOR[1], GENERATOR[2]);
    SumThree(0x38f19797, GENERATOR[3]);
    SumFour(0x05b3a44a, GENERATOR[4]);
    FeedbackAlong(b, [0, 0, GENERATOR[1], 0x38f19797, 0x05b3a44a, 0x2fa7c6f9], 5);
  }

  lemma FeedbackOfEighteen(b: nat)
    requires b == 18
    ensures Feedback(b, 5) == 0x0c44ecde
  {
    BitsOf();
    SumEnds(GENERATOR[1], GENERATOR[4]);
    var g := GENERATOR[1];
    FeedbackAlong(b, [0, 0, g, g, g, 0x0c44ecde], 5);
  }

  // ---------------------------------------------------------------------
  // The register
  // ---------------------------------------------------------------------

  lemma ShiftSix(x: nat, y: nat)
    requires x == 0x0600fc09 && y == 0x3b6a57b2
    ensures Xor(x, y) == 0x3d6aabbb
  {
    WordsShiftSix();
    XorOf(x, y, Six(3, 0, 1, 31, 0, 9), Six(29, 22, 20, 21, 29, 18), Six(30, 22, 21, 10, 29, 27));
  }

  lemma WordsShiftSix()
    ensures XorWord(Six(3, 0, 1, 31, 0, 9), Six(29, 22, 20, 21, 29, 18)) == Six(30, 22, 21, 10, 29, 27)
  {
  }

  lemma ShiftSeven(x: nat, y: nat)
    requires x == 0x2d557773 && y == 0x2fa7c6f9
    ensures Xor(x, y) == 0x02f2b18a
  {
    WordsShiftSeven();
    XorOf(x, y, Six(22, 21, 10, 29, 27, 19), Six(23, 26, 15, 17, 23, 25), Six(1, 15, 5, 12, 12, 10));
  }

  lemma WordsShiftSeven()
    ensures XorWord(Six(22, 21, 10, 29, 27, 19), Six(23, 26, 15, 17, 23, 25)) == Six(1, 15, 5, 12, 12, 10)
  {
  }

  lemma ShiftEight(x: nat, y: nat)
    requires x == 0x1e563151 && y == 0x3b6a57b2
    ensures Xor(x, y) == 0x253c66e3
  {
    WordsShiftEight();
    XorOf(x, y, Six(15, 5, 12, 12, 10, 17), Six(29, 22, 20, 21, 29, 18), Six(18, 19, 24, 25, 23, 3));
  }

  lemma WordsShiftEight()
    ensures XorWord(Six(15, 5, 12, 12, 10, 17), Six(29, 22, 20, 21, 29, 18)) == Six(18, 19, 24, 25, 23, 3)
  {
  }

  lemma ShiftNine(x: nat, y: nat)
    requires x == 0x278cdc7d && y == 0x0c44ecde
    ensures Xor(x, y) == 0x2bc830a3
  {
    WordsShiftNine();
    XorOf(x, y, Six(19, 24, 25, 23, 3, 29), Six(6, 4, 9, 27, 6, 30), Six(21, 28, 16, 12, 5, 3));
  }

  lemma WordsShiftNine()
    ensures XorWord(Six(19, 24, 25, 23, 3, 29), Six(6, 4, 9, 27, 6, 30)) == Six(21, 28, 16, 12, 5, 3)
  {
  }

  lemma {:induction false} StepOf(chk: nat, v: nat, hi: nat, rest: nat, shifted: nat, feedback: nat)
    requires Shr(chk, 25) == hi && Low(chk, 25) == rest
    requires Xor(Shl(rest, 5), v) == shifted && Feedback(hi, |GENERATOR|) == feedback
    ensures Step(chk, v) == Xor(shifted, feedback)
  {
  }

  lemma {:induction false} StepSplit(hi: nat, rest: nat, v: nat, k: nat)
    requires k == 25 && Fits(rest, k) && Fits(v, 5)
    ensures Step(Shl(hi, k) + rest, v) == Xor(Shl(rest, 5) + v, Feedback(hi, |GENERATOR|))
  {
    SplitShl(hi, rest, k);
    XorDisjoint(rest, v, 5);
    StepOf(Shl(hi, k) + rest, v, hi, rest, Shl(rest, 5) + v, Feedback(hi, |GENERATOR|));
  }

  /** A step drops the leading symbol, appends the new one and adds the feedback. */
  lemma {:induction false} StepNumber(hi: nat, rest: nat, v: nat, k: nat)
    requires k == 25 && rest < 0x2000000 && v < 32
    ensures Step(0x2000000 * hi + rest, v) == Xor(32 * rest + v, Feedback(hi, |GENERATOR|))
  {
    Pow2Values();
    FitsIff(rest, k);
    FitsIff(v, 5);
    ShlIsProduct(hi, k);
    ShlIsProduct(rest, 5);
    StepSplit(hi, rest, v, k);
  }

  lemma {:induction false} PolymodNext(v: seq<nat>, k: nat, before: nat, after: nat)
    requires k < |v| && Polymod(1, v[..k]) == before && Step(before, v[k]) == after
    ensures Polymod(1, v[..k + 1]) == after
  {
    assert v[..k + 1][..k] == v[..k];
  }

  lemma {:induction false} StepTo(chk: nat, v: nat, hi: nat, rest: nat, feedback: nat, r: nat)
    requires chk == 0x2000000 * hi + rest && rest < 0x2000000 && v < 32
    requires Feedback(hi, |GENERATOR|) == feedback && Xor(32 * rest + v, feedback) == r
    ensures Step(chk, v) == r
  {
    StepNumber(hi, rest, v, 25);
  }

  lemma {:induction false} RegisterNext(v: seq<nat>, k: nat, chk: nat, hi: nat, rest: nat, feedback: nat, r: nat)
    requires k < |v| && v[k] < 32 && Polymod(1, v[..k]) == chk == 0x2000000 * hi + rest && rest < 0x2000000
    requires Feedback(hi, |GENERATOR|) == feedback && Xor(32 * rest + v[k], feedback) == r
    ensures Polymod(1, v[..k + 1]) == r
  {
    StepTo(chk, v[k], hi, rest, feedback, r);
    PolymodNext(v, k, chk, r);
  }

  /** While the leading symbol is zero a value is only appended. */
  lemma {:induction false} Appends(v: seq<nat>, k: nat, before: nat)
    requires k < |v| && v[k] < 32 && before < 0x2000000 && Polymod(1, v[..k]) == before
    ensures Polymod(1, v[..k + 1]) == 32 * before + v[k]
  {
    FeedbackOfZero(|GENERATOR|);
    XorComm(32 * before + v[k], 0);
    RegisterNext(v, k, before, 0, before, 0, 32 * before + v[k]);
  }

  lemma VectorFront(v: seq<nat>)
    requires |v| == 9 && v[0] == 3 && v[1] == 0 && v[2] == 1 && v[3] == 31 && v[4] == 0
    ensures Polymod(1, v[..5]) == 36702176
  {
    Appends(v, 0, 1);
    Appends(v, 1, 35);
    Appends(v, 2, 1120);
    Appends(v, 3, 35841);
    Appends(v, 4, 1146943);
  }

  lemma RegisterSix(v: seq<nat>)
    requires |v| == 9 && v[5] == 9 && Polymod(1, v[..5]) == 0x023007e0
    ensures Polymod(1, v[..6]) == 0x3d6aabbb
  {
    FeedbackOfOne(1);
    ShiftSix(0x0600fc09, 0x3b6a57b2);
    RegisterNext(v, 5, 0x023007e0, 1, 0x03007e0, 0x3b6a57b2, 0x3d6aabbb);
  }

  lemma RegisterSeven(v: seq<nat>)
    requires |v| == 9 && v[6] == 19 && Polymod(1, v[..6]) == 0x3d6aabbb
    ensures Polymod(1, v[..7]) == 0x02f2b18a
  {
    FeedbackOfThirty(30);
    ShiftSeven(0x2d557773, 0x2fa7c6f9);
    RegisterNext(v, 6, 0x3d6aabbb, 30, 0x16aabbb, 0x2fa7c6f9, 0x02f2b18a);
  }

  lemma RegisterEight(v: seq<nat>)
    requires |v| == 9 && v[7] == 17 && Polymod(1, v[..7]) == 0x02f2b18a
    ensures Polymod(1, v[..8]) == 0x253c66e3
  {
    FeedbackOfOne(1);
    ShiftEight(0x1e563151, 0x3b6a57b2);
    RegisterNext(v, 7, 0x02f2b18a, 1, 0x0f2b18a, 0x3b6a57b2, 0x253c66e3);
  }

  lemma RegisterNine(v: seq<nat>)
    requires |v| == 9 && v[8] == 29 && Polymod(1, v[..8]) == 0x253c66e3
    ensures Polymod(1, v[..9]) == 0x2bc830a3
  {
    FeedbackOfEighteen(18);
    ShiftNine(0x278cdc7d, 0x0c44ecde);
    RegisterNext(v, 8, 0x253c66e3, 18, 0x13c66e3, 0x0c44ecde, 0x2bc830a3);
  }

  lemma VectorBack(v: seq<nat>)
    requires |v| == 9 && v[5] == 9 && v[6] == 19 && v[7] == 17 && v[8] == 29 && Polymod(1, v[..5]) == 36702176
    ensures Polymod(1, v[..9]) == 0x2bc830a3
  {
    RegisterSix(v);
    RegisterSeven(v);
    RegisterEight(v);
    RegisterNine(v);
  }

  lemma VectorRegister(v: seq<nat>)
    requires |v| == 9 && v[0] == 3 && v[1] == 0 && v[2] == 1 && v[3] == 31 && v[4] == 0
    requires v[5] == 9 && v[6] == 19 && v[7] == 17 && v[8] == 29
    ensures Polymod(1, v) == BECH32M_CONST
  {
    VectorFront(v);
    VectorBack(v);
    assert v[..9] == v;
  }

  lemma VectorVerifies(checksum: seq<Symbol>)
    requires checksum == [31, 0, 9, 19, 17, 29]
    ensures VerifyChecksum("a", [] + checksum)
  {
    var v := HrpExpand("a") + ([] + checksum);
    assert v == [3, 0, 1, 31, 0, 9, 19, 17, 29];
    VectorRegister(v);
  }

  lemma VectorText(checksum: seq<Symbol>)
    requires checksum == [31, 0, 9, 19, 17, 29]
    ensures ToText(checksum) == "lqfn3a"
  {
  }

  /** It pins the expansion, the generators, the constant and the charset at once. */
  lemma ShortestVector()
    ensures Decode("a1lqfn3a") == Ok(("a", []))
  {
    var checksum: seq<Symbol> := [31, 0, 9, 19, 17, 29];
    VectorVerifies(checksum);
    ChecksumUnique("a", [], checksum);
    VectorText(checksum);
    assert [] + CreateChecksum("a", []) == checksum;
    DecodePlain("a", [], "a1lqfn3a");
  }
}
