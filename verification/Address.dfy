/**
 Self-certifying ids (pkg/address/address.go): bit regrouping of a digest,
 derivation, normalization and the display form. The SHA-256 digest of the key
 is a parameter.
 */
module Address {
  import opened Collections
  import opened Gf2
  import opened Bech32m

  const CURRENT_VERSION := 0
  const VERSION_GROUP := 1
  const HASH_GROUP_COUNT := 14
  const ID_LENGTH := 21
  const KEY_SIZE := 32
  const TAG := "frz"

  datatype IdError = VersionRange | KeySize | IdLength | IdCharacter | IdChecksum | NoMarker

  datatype IdResult<T> = Id(value: T) | Invalid(error: IdError)

  // ---------------------------------------------------------------------
  // Bit fields
  // ---------------------------------------------------------------------

  /** Bit i of the byte string, counting from the most significant bit of the first byte. */
  function BitAt(data: Bytes, i: nat): (r: nat)
    requires i < 8 * |data|
    ensures r < 2
  {
    Shr(data[i / 8], 7 - i % 8) % 2
  }

  /** The n bits starting at bit lo, read as a binary number. */
  function Field(data: Bytes, lo: nat, n: nat): nat
    requires lo + n <= 8 * |data|
  {
    if n == 0 then 0 else 2 * Field(data, lo, n - 1) + BitAt(data, lo + n - 1)
  }

  lemma {:induction false} FieldFits(data: Bytes, lo: nat, n: nat)
    requires lo + n <= 8 * |data|
    ensures Fits(Field(data, lo, n), n)
  {
    if n > 0 {
      FieldFits(data, lo, n - 1);
      assert Field(data, lo, n) / 2 == Field(data, lo, n - 1);
    }
  }

  /** A field is its leading part followed by its trailing part. */
  lemma {:induction false} FieldSplit(data: Bytes, lo: nat, g: nat, c: nat)
    requires lo + g + c <= 8 * |data|
    ensures Field(data, lo, g + c) == Shl(Field(data, lo, g), c) + Field(data, lo + g, c)
  {
    if c > 0 {
      FieldSplit(data, lo, g, c - 1);
    }
  }

  /** The leading j bits of one byte. */
  lemma {:induction false} FieldOfByte(data: Bytes, i: nat, j: nat)
    requires i < |data| && j <= 8
    ensures Field(data, 8 * i, j) == Shr(data[i], 8 - j)
  {
    if j == 0 {
      Pow2Eight();
      FitsIff(data[i], 8);
    } else {
      FieldOfByte(data, i, j - 1);
      assert (8 * i + j - 1) / 8 == i && (8 * i + j - 1) % 8 == j - 1;
      ShrShr(data[i], 8 - j, 1);
      var x := Shr(data[i], 8 - j);
      assert Shr(x, 1) == x / 2;
    }
  }

  lemma Pow2Eight()
    ensures Pow2(8) == 256
  {
    assert Pow2(5) == 32;
  }

  lemma {:induction false} LowOfLow(a: nat, j: nat, k: nat)
    requires j <= k
    ensures Low(Low(a, k), j) == Low(a, j)
  {
    if j > 0 {
      LowOfLow(a / 2, j - 1, k - 1);
      assert Low(a, k) / 2 == Low(a / 2, k - 1) && Low(a, k) % 2 == a % 2;
    }
  }

  lemma {:induction false} LowAppend(a: nat, u: nat, j: nat, k: nat)
    requires Fits(u, k)
    ensures Low(Shl(a, k) + u, j + k) == Shl(Low(a, j), k) + u
  {
    if k > 0 {
      var x, y := Shl(a, k) + u, Shl(a, k - 1) + u / 2;
      assert x == 2 * y + u % 2;
      assert x / 2 == y && x % 2 == u % 2;
      LowAppend(a, u / 2, j, k - 1);
      assert Low(x, j + k) == 2 * Low(y, j + k - 1) + u % 2;
    }
  }

  lemma {:induction false} LowOfShr(a: nat, g: nat, c: nat)
    ensures Low(Shr(a, c), g) == Shr(Low(a, g + c), c)
  {
    if c > 0 {
      LowOfShr(a / 2, g, c - 1);
      assert Low(a, g + c) / 2 == Low(a / 2, g + c - 1);
    }
  }

  /** One byte shifted into the accumulator extends the pending field by eight bits. */
  lemma PushByte(data: Bytes, pos: nat, bits: nat, i: nat, acc: nat, keep: nat)
    requires i < |data| && pos + bits == 8 * i && bits + 8 <= keep
    requires Low(acc, bits) == Field(data, pos, bits)
    ensures Low(Low(Shl(acc, 8) + data[i], keep), bits + 8) == Field(data, pos, bits + 8)
  {
    var x := Shl(acc, 8) + data[i];
    Pow2Eight();
    FitsIff(data[i], 8);
    LowOfLow(x, bits + 8, keep);
    LowAppend(acc, data[i], bits, 8);
    FieldSplit(data, pos, bits, 8);
    FieldOfByte(data, i, 8);
  }

  /** Taking g leading bits of the pending field leaves the rest of it. */
  lemma TakeGroup(data: Bytes, pos: nat, acc: nat, g: nat, c: nat)
    requires pos + g + c <= 8 * |data| && Low(acc, g + c) == Field(data, pos, g + c)
    ensures Low(Shr(acc, c), g) == Field(data, pos, g)
    ensures Low(acc, c) == Field(data, pos + g, c)
  {
    FieldSplit(data, pos, g, c);
    FieldFits(data, pos + g, c);
    SplitShl(Field(data, pos, g), Field(data, pos + g, c), c);
    LowOfShr(acc, g, c);
    LowOfLow(acc, c, g + c);
  }

  /** Where group k starts: k times the group size. */
  function Start(k: nat, groupSize: nat): nat {
    if k == 0 then 0 else Start(k - 1, groupSize) + groupSize
  }

  /** Group k holds the groupSize bits from Start(k) on. */
  ghost predicate AreFields(data: Bytes, groups: seq<nat>, groupSize: nat) {
    forall k :: 0 <= k < |groups| ==> IsField(data, k, groupSize, groups[k])
  }

  ghost predicate IsField(data: Bytes, k: nat, groupSize: nat, v: nat) {
    Start(k, groupSize) + groupSize <= 8 * |data| && v == Field(data, Start(k, groupSize), groupSize)
  }

  /** n groups is all that was asked for, or all that the data holds. */
  ghost predicate Complete(data: Bytes, n: nat, numGroups: nat, groupSize: nat) {
    && n <= numGroups
    && (n < numGroups ==> data == [] || 8 * |data| < Start(n, groupSize) + groupSize)
    && (data == [] ==> n == 0)
  }

  /** The accumulator holds the bits of the data that no group has taken yet. */
  ghost predicate Pending(data: Bytes, groups: seq<nat>, groupSize: nat, acc: nat, bits: nat, i: nat) {
    && i <= |data| && AreFields(data, groups, groupSize)
    && Start(|groups|, groupSize) + bits == 8 * i
    && (groupSize > 0 ==> Low(acc, bits) == Field(data, Start(|groups|, groupSize), bits))
  }

  lemma PendingStep(data: Bytes, groups: seq<nat>, groupSize: nat, acc: nat, bits: nat, i: nat)
    requires Pending(data, groups, groupSize, acc, bits, i) && bits >= groupSize
    ensures Pending(data, groups + [Low(Shr(acc, bits - groupSize), groupSize)], groupSize, acc, bits - groupSize, i)
  {
    var pos := Start(|groups|, groupSize);
    if groupSize > 0 {
      TakeGroup(data, pos, acc, groupSize, bits - groupSize);
    }
    AppendField(data, groups, groupSize, Low(Shr(acc, bits - groupSize), groupSize));
  }

  lemma AppendField(data: Bytes, groups: seq<nat>, groupSize: nat, v: nat)
    requires AreFields(data, groups, groupSize)
    requires Start(|groups|, groupSize) + groupSize <= 8 * |data|
    requires v == Field(data, Start(|groups|, groupSize), groupSize)
    ensures AreFields(data, groups + [v], groupSize)
  {
    forall k | 0 <= k < |groups + [v]| ensures IsField(data, k, groupSize, (groups + [v])[k]) {
      if k < |groups| {
        assert (groups + [v])[k] == groups[k] && IsField(data, k, groupSize, groups[k]);
      }
    }
  }

  /** The inner loop: emit groups while enough bits are pending. */
  method DrainGroups(ghost data: Bytes, ghost i: nat, groups: seq<nat>, acc: nat, bits: nat, numGroups: nat,
                     groupSize: nat)
    returns (groups': seq<nat>, bits': nat)
    requires Pending(data, groups, groupSize, acc, bits, i) && |groups| <= numGroups
    ensures Pending(data, groups', groupSize, acc, bits', i) && |groups'| <= numGroups
    ensures |groups'| < numGroups ==> bits' < groupSize
  {
    groups', bits' := groups, bits;
    while bits' >= groupSize && |groups'| < numGroups
      invariant Pending(data, groups', groupSize, acc, bits', i) && |groups'| <= numGroups
      decreases numGroups - |groups'|
    {
      PendingStep(data, groups', groupSize, acc, bits', i);
      bits' := bits' - groupSize;
      groups' := groups' + [Low(Shr(acc, bits'), groupSize)];
    }
  }

  method LeadingBitGroups(data: Bytes, numGroups: nat, groupSize: nat) returns (groups: seq<nat>)
    ensures AreFields(data, groups, groupSize)
    ensures Complete(data, |groups|, numGroups, groupSize)
  {
    groups := [];
    var acc, bits: nat := 0, 0;
    var i := 0;
    while i < |data| && |groups| < numGroups
      invariant Pending(data, groups, groupSize, acc, bits, i) && |groups| <= numGroups
      invariant |groups| < numGroups ==> bits < groupSize || i == 0
      invariant i == 0 ==> groups == [] && bits == 0
      decreases |data| - i
    {
      if groupSize > 0 {
        PushByte(data, Start(|groups|, groupSize), bits, i, acc, 8 + groupSize - 1);
      }
      acc := Low(Shl(acc, 8) + data[i], 8 + groupSize - 1);
      i := i + 1;
      groups, bits := DrainGroups(data, i, groups, acc, bits + 8, numGroups, groupSize);
    }
  }

  // ---------------------------------------------------------------------
  // Derivation
  // ---------------------------------------------------------------------

  function Fields(data: Bytes, n: nat): (groups: seq<Symbol>)
    requires Start(n, 5) <= 8 * |data|
    ensures |groups| == n
  {
    if n == 0 then []
    else
      FieldFits(data, Start(n - 1, 5), 5);
      FitsIff(Field(data, Start(n - 1, 5), 5), 5);
      Pow2Values();
      Fields(data, n - 1) + [Field(data, Start(n - 1, 5), 5)]
  }

  lemma {:induction false} FieldsUnique(data: Bytes, groups: seq<nat>)
    requires AreFields(data, groups, 5) && Start(|groups|, 5) <= 8 * |data|
    ensures groups == Fields(data, |groups|)
  {
    if groups != [] {
      var n := |groups| - 1;
      FieldsUnique(data, groups[..n]);
      assert groups == groups[..n] + [groups[n]];
    }
  }

  lemma StartFourteen()
    ensures Start(HASH_GROUP_COUNT, 5) == 70
  {
    assert Start(7, 5) == 35;
  }

  /** Version marker and 70 leading digest bits, as fifteen symbols. */
  function Payload(version: Symbol, hash: Bytes): (payload: seq<Symbol>)
    requires |hash| == 32
    ensures |payload| == 15 && payload[0] == version
  {
    StartFourteen();
    [version] + Fields(hash, HASH_GROUP_COUNT)
  }

  function Derive(version: int, key: Bytes, hash: Bytes): (r: IdResult<string>)
    requires |hash| == 32
  {
    if version < 0 || version >= 32 then Invalid(VersionRange)
    else if |key| != KEY_SIZE then Invalid(KeySize)
    else
      var payload := Payload(version, hash);
      Id(ToText(payload + CreateChecksum(TAG, payload)))
  }

  method DeriveIDVersion(version: int, key: Bytes, hash: Bytes) returns (r: IdResult<string>)
    requires |hash| == 32
    ensures r == Derive(version, key, hash)
  {
    if version < 0 || version >= 32 {
      return Invalid(VersionRange);
    }
    if |key| != KEY_SIZE {
      return Invalid(KeySize);
    }
    var groups := LeadingBitGroups(hash, HASH_GROUP_COUNT, 5);
    DigestGroups(hash, groups);
    var payload: seq<Symbol> := [version] + groups;
    var checksum := ComputeChecksum(TAG, payload);
    var text := RenderText(payload + checksum);
    return Id(text);
  }

  lemma DigestGroups(hash: Bytes, groups: seq<nat>)
    requires |hash| == 32 && AreFields(hash, groups, 5) && Complete(hash, |groups|, HASH_GROUP_COUNT, 5)
    ensures Start(HASH_GROUP_COUNT, 5) <= 8 * |hash| && groups == Fields(hash, HASH_GROUP_COUNT)
  {
    StartMonotone(|groups| + 1, HASH_GROUP_COUNT);
    StartFourteen();
    FieldsUnique(hash, groups);
  }

  lemma {:induction false} StartMonotone(j: nat, k: nat)
    ensures j <= k ==> Start(j, 5) <= Start(k, 5)
  {
    if j < k {
      StartMonotone(j, k - 1);
    }
  }

  // ---------------------------------------------------------------------
  // What an id says about its digest
  // ---------------------------------------------------------------------

  lemma {:induction false} StartIs(n: nat)
    ensures Start(n, 5) == 5 * n
  {
    if n > 0 {
      StartIs(n - 1);
    }
  }

  lemma {:induction false} FieldsAt(data: Bytes, n: nat, k: nat)
    requires 5 * n <= 8 * |data| && k < n
    ensures Start(n, 5) == 5 * n && Fields(data, n)[k] == Field(data, 5 * k, 5)
  {
    StartIs(n);
    StartIs(n - 1);
    if k < n - 1 {
      FieldsAt(data, n - 1, k);
    }
  }

  lemma FieldsAgreeStep(s: Bytes, t: Bytes, m: nat, n: nat)
    requires m + n <= 8 * |s| && m + n <= 8 * |t|
    ensures Field(s, 0, m + n) == Field(t, 0, m + n) <==>
              Field(s, 0, m) == Field(t, 0, m) && Field(s, m, n) == Field(t, m, n)
  {
    FieldSplit(s, 0, m, n);
    FieldSplit(t, 0, m, n);
    FieldFits(s, m, n);
    FieldFits(t, m, n);
    SplitShl(Field(s, 0, m), Field(s, m, n), n);
    SplitShl(Field(t, 0, m), Field(t, m, n), n);
  }

  lemma FieldsNext(data: Bytes, n: nat)
    requires 5 * n + 5 <= 8 * |data|
    ensures Start(n, 5) == 5 * n && Start(n + 1, 5) == 5 * n + 5 && Field(data, 5 * n, 5) < 32
    ensures Fields(data, n + 1) == Fields(data, n) + [Field(data, 5 * n, 5)]
  {
    StartIs(n);
    StartIs(n + 1);
    FieldFits(data, 5 * n, 5);
    FitsIff(Field(data, 5 * n, 5), 5);
    Pow2Values();
  }

  lemma LastsAgree(p: seq<nat>, q: seq<nat>, u: nat, v: nat)
    requires |p| == |q|
    ensures p + [u] == q + [v] <==> p == q && u == v
  {
    assert (p + [u])[..|p|] == p && (q + [v])[..|q|] == q && (p + [u])[|p|] == u && (q + [v])[|q|] == v;
  }

  /** The groups of two byte strings agree exactly if the bits they are made of do. */
  lemma {:induction false} FieldsAgree(s: Bytes, t: Bytes, n: nat)
    requires 5 * n <= 8 * |s| && 5 * n <= 8 * |t|
    ensures Start(n, 5) == 5 * n
    ensures Fields(s, n) == Fields(t, n) <==> Field(s, 0, 5 * n) == Field(t, 0, 5 * n)
  {
    if n > 0 {
      var m := n - 1;
      FieldsAgree(s, t, m);
      FieldsAgreeStep(s, t, 5 * m, 5);
      FieldsNext(s, m);
      FieldsNext(t, m);
      LastsAgree(Fields(s, m), Fields(t, m), Field(s, 5 * m, 5), Field(t, 5 * m, 5));
    }
  }

  /** Character by character: the version, then each group of five digest bits, then the checksum. */
  lemma DerivedCharacters(version: int, key: Bytes, hash: Bytes, k: nat)
    requires |hash| == 32 && Derive(version, key, hash).Id? && k < HASH_GROUP_COUNT
    ensures var id := Derive(version, key, hash).value;
            && |id| == ID_LENGTH && 0 <= version < 32 && id[0] == CHARSET[version]
            && Field(hash, 5 * k, 5) < 32 && id[k + 1] == CHARSET[Field(hash, 5 * k, 5)]
  {
    FieldsAt(hash, HASH_GROUP_COUNT, k);
    var payload := Payload(version, hash);
    assert (payload + CreateChecksum(TAG, payload))[k + 1] == Fields(hash, HASH_GROUP_COUNT)[k];
  }

  lemma DerivedText(version: int, key: Bytes, hash: Bytes)
    requires |hash| == 32 && Derive(version, key, hash).Id?
    ensures 0 <= version < 32
    ensures FromText(Derive(version, key, hash).value)
            == Ok(Payload(version, hash) + CreateChecksum(TAG, Payload(version, hash)))
  {
    var payload := Payload(version, hash);
    TextRoundTrip(payload + CreateChecksum(TAG, payload));
  }

  lemma PayloadsAgree(version: Symbol, hash: Bytes, version': Symbol, hash': Bytes)
    requires |hash| == |hash'| == 32
    ensures Payload(version, hash) == Payload(version', hash') <==>
              version == version' && Field(hash, 0, 70) == Field(hash', 0, 70)
  {
    FieldsAgree(hash, hash', HASH_GROUP_COUNT);
    var p, q := Payload(version, hash), Payload(version', hash');
    assert p[1..] == Fields(hash, HASH_GROUP_COUNT) && q[1..] == Fields(hash', HASH_GROUP_COUNT);
    assert p == [p[0]] + p[1..] && q == [q[0]] + q[1..];
  }

  /** Two derived ids are equal exactly if their versions are and their digests agree in the leading 70 bits. */
  lemma DerivedIdsEqualExactly(version: int, key: Bytes, hash: Bytes, version': int, key': Bytes, hash': Bytes)
    requires |hash| == |hash'| == 32 && Derive(version, key, hash).Id? && Derive(version', key', hash').Id?
    ensures Derive(version, key, hash) == Derive(version', key', hash') <==>
              version == version' && Field(hash, 0, 70) == Field(hash', 0, 70)
  {
    DerivedText(version, key, hash);
    DerivedText(version', key', hash');
    PayloadsAgree(version, hash, version', hash');
    var p, q := Payload(version, hash), Payload(version', hash');
    assert (p + CreateChecksum(TAG, p))[..15] == p && (q + CreateChecksum(TAG, q))[..15] == q;
  }

  // ---------------------------------------------------------------------
  // Normalization and display
  // ---------------------------------------------------------------------

  predicate IsSeparator(c: char) {
    c == '-' || c == ' ' || c == '\t' || c == '\n' || c == '\r'
  }

  function Strip(s: string): (r: string)
    ensures |r| <= |s|
  {
    if s == "" then ""
    else
      var c := s[|s| - 1];
      Strip(s[..|s| - 1]) + (if IsSeparator(c) then "" else [LowerChar(c)])
  }

  method StripSeparators(id: Ascii) returns (r: string)
    ensures r == Strip(id)
  {
    r := "";
    for i := 0 to |id|
      invariant r == Strip(id[..i])
    {
      assert id[..i + 1][..i] == id[..i];
      if !IsSeparator(id[i]) {
        r := r + [LowerChar(id[i])];
      }
    }
    assert id[..|id|] == id;
  }

  /** The first n characters with a hyphen before every fifth one. */
  function Grouped(id: string, n: nat): string
    requires n <= |id|
  {
    if n == 0 then ""
    else Grouped(id, n - 1) + (if n - 1 > 0 && (n - 1) % 5 == 0 then "-" else "") + [id[n - 1]]
  }

  method FormatForDisplay(id: Ascii) returns (r: string)
    ensures r == Grouped(id, |id|)
  {
    r := "";
    for i := 0 to |id|
      invariant r == Grouped(id, i)
    {
      if i > 0 && i % 5 == 0 {
        r := r + "-";
      }
      r := r + [id[i]];
    }
  }

  function NormalForm(id: Ascii): (r: IdResult<string>) {
    var s := Strip(id);
    if |s| != ID_LENGTH then Invalid(IdLength)
    else
      match FromText(s)
      case Err(_) => Invalid(IdCharacter)
      case Ok(values) => if VerifyChecksum(TAG, values) then Id(s) else Invalid(IdChecksum)
  }

  method Normalize(id: Ascii) returns (r: IdResult<string>)
    ensures r == NormalForm(id)
  {
    var s := StripSeparators(id);
    if |s| != ID_LENGTH {
      return Invalid(IdLength);
    }
    var parsed := ParseText(s);
    if parsed.Err? {
      return Invalid(IdCharacter);
    }
    var ok := CheckChecksum(TAG, parsed.value);
    if !ok {
      return Invalid(IdChecksum);
    }
    return Id(s);
  }

  function VersionMarkerOf(idOrPrefix: string): (r: IdResult<int>) {
    var s := Strip(idOrPrefix);
    if s == "" then Invalid(NoMarker)
    else if IndexRune(s[0]) < 0 then Invalid(NoMarker)
    else Id(IndexRune(s[0]))
  }

  function VersionOf(id: Ascii): (r: IdResult<int>) {
    match NormalForm(id)
    case Invalid(e) => Invalid(e)
    case Id(s) => VersionMarkerOf(s)
  }

  /** An id is derived exactly for a 5-bit version and a 32-byte key; the version is looked at first. */
  lemma DeriveExactly(version: int, key: Bytes, hash: Bytes)
    requires |hash| == 32
    ensures var r := Derive(version, key, hash);
            && (r.Id? <==> 0 <= version < 32 && |key| == 32)
            && (r == Invalid(VersionRange) <==> !(0 <= version < 32))
  {
  }

  /** The marker of any text is the charset index of its first character that is no separator, in lower case, and there
      is none exactly if there is no such character or it is not in the charset. */
  lemma MarkerExactly(s: string, i: nat)
    requires i < |s| && !IsSeparator(s[i]) && forall k :: 0 <= k < i ==> IsSeparator(s[k])
    ensures var r := VersionMarkerOf(s);
            if exists v :: 0 <= v < 32 && CHARSET[v] == LowerChar(s[i])
            then r.Id? && 0 <= r.value < 32 && CHARSET[r.value] == LowerChar(s[i])
            else r == Invalid(NoMarker)
  {
    StripStart(s, i);
  }

  lemma {:induction false} StripStart(s: string, i: nat)
    requires i < |s| && !IsSeparator(s[i]) && forall k :: 0 <= k < i ==> IsSeparator(s[k])
    ensures Strip(s) != "" && Strip(s)[0] == LowerChar(s[i])
  {
    var n := |s| - 1;
    if i < n {
      StripStart(s[..n], i);
    } else {
      StripNothing(s[..n]);
    }
  }

  lemma {:induction false} StripNothing(s: string)
    requires forall k :: 0 <= k < |s| ==> IsSeparator(s[k])
    ensures Strip(s) == ""
  {
    if s != "" {
      StripNothing(s[..|s| - 1]);
      StripPush(s[..|s| - 1], s[|s| - 1]);
      assert s == s[..|s| - 1] + [s[|s| - 1]];
    }
  }

  lemma {:induction false} GroupedLength(id: string, q: nat, r: nat)
    requires r < 5 && 5 * q + r < |id|
    ensures |Grouped(id, 5 * q + r + 1)| == 6 * q + r + 1
    decreases q, r
  {
    var n := 5 * q + r;
    if r > 0 {
      GroupedLength(id, q, r - 1);
      assert n % 5 != 0;
    } else if q > 0 {
      GroupedLength(id, q - 1, 4);
      assert n % 5 == 0;
    }
  }

  lemma {:induction false} GroupedGrows(id: string, m: nat, n: nat)
    requires m <= n <= |id|
    ensures Grouped(id, m) <= Grouped(id, n)
  {
    if m < n {
      GroupedGrows(id, m, n - 1);
    }
  }

  /** The display form: character 5q + r of the id stands at place 6q + r, every place between two groups holds a
      hyphen, and there is nothing else. */
  lemma GroupedExactly(id: string, n: nat, q: nat, r: nat)
    requires n <= |id| && r < 5 && 5 * q + r < n
    ensures |Grouped(id, n)| > 6 * q + r && Grouped(id, n)[6 * q + r] == id[5 * q + r]
    ensures q > 0 ==> Grouped(id, n)[6 * q - 1] == '-'
    ensures 5 * q + r == n - 1 ==> |Grouped(id, n)| == 6 * q + r + 1
  {
    var m, g := 5 * q + r + 1, Grouped(id, n);
    GroupedLength(id, q, r);
    GroupedGrows(id, m, n);
    GroupedLast(id, m);
    assert g[6 * q + r] == Grouped(id, m)[6 * q + r];
    if q > 0 {
      GroupedHyphen(id, q);
      GroupedGrows(id, 5 * q + 1, n);
      GroupedLength(id, q, 0);
      assert g[6 * q - 1] == Grouped(id, 5 * q + 1)[6 * q - 1];
    }
  }

  lemma GroupedLast(id: string, m: nat)
    requires 0 < m <= |id|
    ensures Grouped(id, m) != "" && Grouped(id, m)[|Grouped(id, m)| - 1] == id[m - 1]
  {
  }

  lemma GroupedHyphen(id: string, q: nat)
    requires q > 0 && 5 * q < |id|
    ensures |Grouped(id, 5 * q + 1)| == 6 * q + 1 && Grouped(id, 5 * q + 1)[6 * q - 1] == '-'
  {
    GroupedLength(id, q, 0);
    GroupedLength(id, q - 1, 4);
    assert (5 * q) % 5 == 0;
    assert Grouped(id, 5 * q + 1) == Grouped(id, 5 * q) + "-" + [id[5 * q]];
  }

  lemma StripPush(s: string, c: char)
    ensures Strip(s + [c]) == Strip(s) + (if IsSeparator(c) then "" else [LowerChar(c)])
  {
    assert (s + [c])[..|s|] == s;
  }

  lemma StripHyphen(s: string)
    ensures Strip(s + "-") == Strip(s)
  {
    StripPush(s, '-');
    assert Strip(s) + "" == Strip(s);
  }

  /** The hyphens of the display form are exactly what stripping removes. */
  lemma {:induction false} StripGrouped(id: string, n: nat)
    requires n <= |id|
    ensures Strip(Grouped(id, n)) == Strip(id[..n])
  {
    if n > 0 {
      var front, c := Grouped(id, n - 1), id[n - 1];
      StripGrouped(id, n - 1);
      StripPush(id[..n - 1], c);
      assert id[..n] == id[..n - 1] + [c];
      if n - 1 > 0 && (n - 1) % 5 == 0 {
        StripHyphen(front);
        StripPush(front + "-", c);
      } else {
        StripPush(front, c);
        assert front + "" == front;
      }
    }
  }

  lemma {:induction false} GroupedIsAscii(id: string, n: nat)
    requires IsAscii(id) && n <= |id|
    ensures IsAscii(Grouped(id, n))
  {
    if n > 0 {
      GroupedIsAscii(id, n - 1);
    }
  }

  lemma {:induction false} StripPlain(s: string)
    requires forall i :: 0 <= i < |s| ==> !IsSeparator(s[i]) && LowerChar(s[i]) == s[i]
    ensures Strip(s) == s
  {
    if s != "" {
      StripPlain(s[..|s| - 1]);
    }
  }

  lemma SymbolText(data: seq<Symbol>)
    ensures Strip(ToText(data)) == ToText(data) && IsAscii(ToText(data))
  {
    TextRoundTrip(data);
    forall i | 0 <= i < |data|
      ensures !IsSeparator(ToText(data)[i]) && LowerChar(ToText(data)[i]) == ToText(data)[i]
    {
      CharsetChar(data[i]);
      OrdinalOf(data[i]);
      assert Ordinal('-') == -1;
    }
    StripPlain(ToText(data));
  }

  /** A derived id is its own normal form, survives the display form, and carries its version marker. */
  lemma DerivedIdIsCanonical(version: int, key: Bytes, hash: Bytes)
    requires |hash| == 32 && Derive(version, key, hash).Id?
    ensures var id := Derive(version, key, hash).value;
            && IsAscii(id) && IsAscii(Grouped(id, |id|))
            && NormalForm(id) == Id(id)
            && NormalForm(Grouped(id, |id|)) == Id(id)
            && VersionOf(id) == Id(version)
  {
    var id := Derive(version, key, hash).value;
    var payload := Payload(version, hash);
    var all := payload + CreateChecksum(TAG, payload);
    SymbolText(all);
    GroupedIsAscii(id, |id|);
    StripGrouped(id, |id|);
    assert id[..|id|] == id;
    TextRoundTrip(all);
    ChecksumUnique(TAG, payload, CreateChecksum(TAG, payload));
    assert id[0] == CHARSET[version];
    CharsetChar(version);
  }

  /** No account id is ever a group id, whatever the keys and digests. */
  lemma AccountIsNeverGroup(key: Bytes, hash: Bytes, key': Bytes, hash': Bytes)
    requires |hash| == 32 && |hash'| == 32 && |key| == KEY_SIZE && |key'| == KEY_SIZE
    ensures Derive(CURRENT_VERSION, key, hash) != Derive(VERSION_GROUP, key', hash')
  {
    DerivedIdIsCanonical(CURRENT_VERSION, key, hash);
    DerivedIdIsCanonical(VERSION_GROUP, key', hash');
  }

  /** Two normalized ids never differ in only six consecutive characters. */
  lemma IdTypoDetected(id: Ascii, id': Ascii, w: nat)
    requires NormalForm(id).Id? && NormalForm(id').Id? && Strip(id) != Strip(id')
    ensures exists i :: 0 <= i < ID_LENGTH && !(w <= i < w + 6) && Strip(id)[i] != Strip(id')[i]
  {
    var s, t := Strip(id), Strip(id');
    var a, b := FromText(s).value, FromText(t).value;
    TextOfParsed(s);
    TextOfParsed(t);
    if forall i :: 0 <= i < ID_LENGTH && !(w <= i < w + 6) ==> s[i] == t[i] {
      assert Burst(a, b, w);
      BurstDetected(TAG, a, b, w);
    }
  }
}
