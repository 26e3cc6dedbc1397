/**
 The attestation token (pkg/attest/attest.go): the byte layout every signature
 covers, its reader, and why the two are inverse. Text fields are bytes, times
 are whole Unix seconds; the base64 wrapping and Ed25519 are not part of this
 model.
 */
module Attest {
  import opened Collections

  const KEY_SIZE := 32
  const SIGNATURE_SIZE := 64
  const MAX16 := 0xffff
  const MAX8 := 0xff
  const MAX32 := 0xffff_ffff
  const TWO63: int := 0x8000_0000_0000_0000
  const TWO64: int := 0x1_0000_0000_0000_0000

  type Result<T> = Collections.Result<T, Error>

  datatype Error =
    | UnsupportedVersion
    | DomainLength
    | TierLength
    | SubjectLength
    | KeyLength
    | SignatureLength
    | Truncated
    | TrailingBytes

  datatype Attestation = Attestation(
    version: int, domain: Bytes, tier: Bytes, subject: Bytes, seats: nat,
    issuedAt: int, expiresAt: int, issuerKey: Bytes, signature: Bytes)

  // ---------------------------------------------------------------------
  // Big-endian numbers
  // ---------------------------------------------------------------------

  /** The k low bytes of n, most significant first. */
  function Big(n: nat, k: nat): (b: Bytes)
    ensures |b| == k
  {
    if k == 0 then [] else Big(n / 256, k - 1) + [(n % 256) as byte]
  }

  function Unbig(b: Bytes): nat {
    if b == [] then 0 else 256 * Unbig(b[..|b| - 1]) + b[|b| - 1] as nat
  }

  function Pow256(k: nat): nat {
    if k == 0 then 1 else 256 * Pow256(k - 1)
  }

  lemma {:induction false} UnbigBig(n: nat, k: nat)
    requires n < Pow256(k)
    ensures Unbig(Big(n, k)) == n
  {
    if k > 0 {
      UnbigBig(n / 256, k - 1);
      assert Big(n, k)[..k - 1] == Big(n / 256, k - 1);
    }
  }

  lemma {:induction false} BigUnbig(b: Bytes)
    ensures Big(Unbig(b), |b|) == b && Unbig(b) < Pow256(|b|)
  {
    if b != [] {
      BigUnbig(b[..|b| - 1]);
    }
  }

  lemma PowValues()
    ensures Pow256(1) == 0x100 && Pow256(2) == 0x1_0000 && Pow256(4) == 0x1_0000_0000 && Pow256(8) == TWO64
  {
    assert Pow256(4) == 256 * (256 * (256 * (256 * 1)));
    assert Pow256(8) == 256 * (256 * (256 * (256 * Pow256(4))));
  }

  /** uint64(t) and int64(u) */
  function Unsigned(t: int): (u: nat)
    requires -TWO63 <= t < TWO63
    ensures u < TWO64 && Signed(u) == t
  {
    if t < 0 then t + TWO64 else t
  }

  function Signed(u: nat): int {
    if u < TWO63 then u else u - TWO64
  }

  // ---------------------------------------------------------------------
  // The layout
  // ---------------------------------------------------------------------

  /** The ranges of the Go fields. */
  predicate Typed(a: Attestation) {
    && a.seats <= MAX32
    && -TWO63 <= a.issuedAt < TWO63
    && -TWO63 <= a.expiresAt < TWO63
  }

  function Prefixed(k: nat, data: Bytes): Bytes {
    Big(|data|, k) + data
  }

  function Time(t: int): (b: Bytes)
    requires -TWO63 <= t < TWO63
    ensures |b| == 8
  {
    Big(Unsigned(t), 8)
  }

  function Seats(a: Attestation): Bytes {
    if a.version >= 2 then Big(a.seats, 4) else []
  }

  function Texts(a: Attestation): Bytes {
    Prefixed(2, a.domain) + (Prefixed(1, a.tier) + Prefixed(2, a.subject))
  }

  function Window(a: Attestation): Bytes
    requires Typed(a)
  {
    Seats(a) + (Time(a.issuedAt) + Time(a.expiresAt))
  }

  /** What the signature covers. */
  function Layout(a: Attestation): Bytes
    requires Typed(a) && 1 <= a.version <= 2
  {
    [a.version as byte] + Covered(a)
  }

  function Covered(a: Attestation): Bytes
    requires Typed(a)
  {
    Texts(a) + (Window(a) + a.issuerKey)
  }

  /** What encoding refuses, in the order it looks. */
  function Fault(a: Attestation): Result<()> {
    if a.version != 1 && a.version != 2 then Err(UnsupportedVersion)
    else if |a.domain| == 0 || |a.domain| > MAX16 then Err(DomainLength)
    else if |a.tier| == 0 || |a.tier| > MAX8 then Err(TierLength)
    else if |a.subject| > MAX16 then Err(SubjectLength)
    else if |a.issuerKey| != KEY_SIZE then Err(KeyLength)
    else Ok(())
  }

  predicate Signable(a: Attestation) {
    Typed(a) && Fault(a).Ok?
  }

  predicate Encodable(a: Attestation) {
    Signable(a) && |a.signature| == SIGNATURE_SIZE
  }

  // ---------------------------------------------------------------------
  // Reading
  // ---------------------------------------------------------------------

  datatype Read<T> = Got(value: T, rest: Bytes) | Short

  function Take(s: Bytes, n: nat): Read<Bytes> {
    if |s| < n then Short else Got(s[..n], s[n..])
  }

  function TakePrefixed(s: Bytes, k: nat): Read<Bytes> {
    match Take(s, k)
    case Short => Short
    case Got(len, rest) => Take(rest, Unbig(len))
  }

  function TakeTime(s: Bytes): Read<int> {
    match Take(s, 8)
    case Short => Short
    case Got(b, rest) => Got(Signed(Unbig(b)), rest)
  }

  function TakeSeats(s: Bytes, version: int): Read<nat> {
    if version >= 2 then
      match Take(s, 4)
      case Short => Short
      case Got(b, rest) => Got(Unbig(b), rest)
    else Got(0, s)
  }

  /** Domain, tier and subject. */
  function TakeTexts(s: Bytes): Read<(Bytes, Bytes, Bytes)> {
    match TakePrefixed(s, 2)
    case Short => Short
    case Got(domain, s1) =>
      match TakePrefixed(s1, 1)
      case Short => Short
      case Got(tier, s2) =>
        match TakePrefixed(s2, 2)
        case Short => Short
        case Got(subject, s3) => Got((domain, tier, subject), s3)
  }

  /** Seats and the validity window. */
  function TakeWindow(s: Bytes, version: int): Read<(nat, int, int)> {
    match TakeSeats(s, version)
    case Short => Short
    case Got(seats, s1) =>
      match TakeTime(s1)
      case Short => Short
      case Got(issued, s2) =>
        match TakeTime(s2)
        case Short => Short
        case Got(expires, s3) => Got((seats, issued, expires), s3)
  }

  /** What is signed, after the version byte. */
  function TakeSigned(s: Bytes, version: int): Read<Attestation> {
    match TakeTexts(s)
    case Short => Short
    case Got(texts, s1) =>
      match TakeWindow(s1, version)
      case Short => Short
      case Got(window, s2) =>
        match Take(s2, KEY_SIZE)
        case Short => Short
        case Got(key, s3) =>
          Got(Attestation(version, texts.0, texts.1, texts.2, window.0, window.1, window.2, key, []), s3)
  }

  /** Everything after the version byte. */
  function TakeBody(s: Bytes, version: int): Read<Attestation> {
    match TakeSigned(s, version)
    case Short => Short
    case Got(a, s1) =>
      match Take(s1, SIGNATURE_SIZE)
      case Short => Short
      case Got(signature, s2) => Got(a.(signature := signature), s2)
  }

  function Parse(raw: Bytes): Result<Attestation> {
    if raw == [] then Err(Truncated)
    else if raw[0] != 1 && raw[0] != 2 then Err(UnsupportedVersion)
    else
      match TakeBody(raw[1..], raw[0] as int)
      case Short => Err(Truncated)
      case Got(a, rest) => if rest != [] then Err(TrailingBytes) else Ok(a)
  }

  // ---------------------------------------------------------------------
  // As the source does it
  // ---------------------------------------------------------------------

  class Buffer {
    var data: Bytes

    constructor ()
      ensures data == []
    {
      data := [];
    }

    method Write(b: Bytes)
      modifies this
      ensures data == old(data) + b
    {
      data := data + b;
    }

    method WritePrefixed(k: nat, b: Bytes)
      modifies this
      ensures data == old(data) + Prefixed(k, b)
    {
      Write(Big(|b|, k));
      Write(b);
    }

    method WriteUnixSeconds(t: int)
      requires -TWO63 <= t < TWO63
      modifies this
      ensures data == old(data) + Time(t)
    {
      Write(Big(Unsigned(t), 8));
    }

    method WriteTexts(a: Attestation)
      modifies this
      ensures data == old(data) + Texts(a)
    {
      WritePrefixed(2, a.domain);
      WritePrefixed(1, a.tier);
      WritePrefixed(2, a.subject);
      AssocLeft(old(data), Prefixed(2, a.domain), Prefixed(1, a.tier), Prefixed(2, a.subject));
    }

    method WriteWindow(a: Attestation)
      requires Typed(a)
      modifies this
      ensures data == old(data) + Window(a)
    {
      if a.version >= 2 {
        Write(Big(a.seats, 4));
      } else {
        assert data + [] == data;
      }
      WriteUnixSeconds(a.issuedAt);
      WriteUnixSeconds(a.expiresAt);
      AssocLeft(old(data), Seats(a), Time(a.issuedAt), Time(a.expiresAt));
    }
  }

  lemma AssocLeft(p: Bytes, q: Bytes, r: Bytes, t: Bytes)
    ensures ((p + q) + r) + t == p + (q + (r + t))
  {
  }

  method SigningBytes(a: Attestation) returns (r: Result<Bytes>)
    requires Typed(a)
    ensures r == if Fault(a).Ok? then Ok(Layout(a)) else Err(Fault(a).error)
  {
    if a.version != 1 && a.version != 2 {
      return Err(UnsupportedVersion);
    }
    if |a.domain| == 0 || |a.domain| > MAX16 {
      return Err(DomainLength);
    }
    if |a.tier| == 0 || |a.tier| > MAX8 {
      return Err(TierLength);
    }
    if |a.subject| > MAX16 {
      return Err(SubjectLength);
    }
    if |a.issuerKey| != KEY_SIZE {
      return Err(KeyLength);
    }
    var buf := new Buffer();
    buf.Write([a.version as byte]);
    buf.WriteTexts(a);
    buf.WriteWindow(a);
    buf.Write(a.issuerKey);
    assert [] + [a.version as byte] == [a.version as byte];
    AssocLeft([a.version as byte], Texts(a), Window(a), a.issuerKey);
    return Ok(buf.data);
  }

  method Encode(a: Attestation) returns (r: Result<Bytes>)
    requires Typed(a)
    ensures r.Ok? <==> Encodable(a)
    ensures r.Ok? ==> r.value == Layout(a) + a.signature
    ensures r.Err? ==> r.error == if Fault(a).Err? then Fault(a).error else SignatureLength
  {
    var body := SigningBytes(a);
    if body.Err? {
      return body;
    }
    if |a.signature| != SIGNATURE_SIZE {
      return Err(SignatureLength);
    }
    return Ok(body.value + a.signature);
  }

  /** A reader that hands out its bytes from the front. */
  class Reader {
    const raw: Bytes
    var pos: nat

    predicate Valid()
      reads this
    {
      pos <= |raw|
    }

    function Rest(): Bytes
      requires Valid()
      reads this
    {
      raw[pos..]
    }

    constructor (raw: Bytes)
      ensures Valid() && Rest() == raw
    {
      this.raw, pos := raw, 0;
    }

    method ReadFull(n: nat) returns (r: Read<Bytes>)
      requires Valid()
      modifies this
      ensures Valid() && r == Take(old(Rest()), n) && (r.Got? ==> r.rest == Rest())
    {
      if pos + n > |raw| {
        pos := |raw|;
        return Short;
      }
      var b := raw[pos..pos + n];
      assert b == Rest()[..n] && raw[pos + n..] == Rest()[n..];
      pos := pos + n;
      return Got(b, raw[pos..]);
    }

    method ReadPrefixed(k: nat) returns (r: Read<Bytes>)
      requires Valid()
      modifies this
      ensures Valid() && r == TakePrefixed(old(Rest()), k) && (r.Got? ==> r.rest == Rest())
    {
      var len := ReadFull(k);
      if len.Short? {
        return Short;
      }
      r := ReadFull(Unbig(len.value));
    }

    method ReadUnixSeconds() returns (r: Read<int>)
      requires Valid()
      modifies this
      ensures Valid() && r == TakeTime(old(Rest())) && (r.Got? ==> r.rest == Rest())
    {
      var b := ReadFull(8);
      if b.Short? {
        return Short;
      }
      return Got(Signed(Unbig(b.value)), b.rest);
    }

    method ReadTexts() returns (r: Read<(Bytes, Bytes, Bytes)>)
      requires Valid()
      modifies this
      ensures Valid() && r == TakeTexts(old(Rest())) && (r.Got? ==> r.rest == Rest())
    {
      var domain := ReadPrefixed(2);
      if domain.Short? {
        return Short;
      }
      var tier := ReadPrefixed(1);
      if tier.Short? {
        return Short;
      }
      var subject := ReadPrefixed(2);
      if subject.Short? {
        return Short;
      }
      return Got((domain.value, tier.value, subject.value), subject.rest);
    }

    method ReadWindow(version: int) returns (r: Read<(nat, int, int)>)
      requires Valid()
      modifies this
      ensures Valid() && r == TakeWindow(old(Rest()), version) && (r.Got? ==> r.rest == Rest())
    {
      var seats := 0;
      if version >= 2 {
        var b := ReadFull(4);
        if b.Short? {
          return Short;
        }
        seats := Unbig(b.value);
      }
      var issued := ReadUnixSeconds();
      if issued.Short? {
        return Short;
      }
      var expires := ReadUnixSeconds();
      if expires.Short? {
        return Short;
      }
      return Got((seats, issued.value, expires.value), expires.rest);
    }

    method ReadSigned(version: int) returns (r: Read<Attestation>)
      requires Valid()
      modifies this
      ensures Valid() && r == TakeSigned(old(Rest()), version) && (r.Got? ==> r.rest == Rest())
    {
      var texts := ReadTexts();
      if texts.Short? {
        return Short;
      }
      var window := ReadWindow(version);
      if window.Short? {
        return Short;
      }
      var key := ReadFull(KEY_SIZE);
      if key.Short? {
        return Short;
      }
      return Got(Attestation(version, texts.value.0, texts.value.1, texts.value.2,
                             window.value.0, window.value.1, window.value.2, key.value, []), key.rest);
    }
  }

  method Decode(raw: Bytes) returns (r: Result<Attestation>)
    ensures r == Parse(raw)
  {
    var reader := new Reader(raw);
    var version := reader.ReadFull(1);
    if version.Short? {
      return Err(Truncated);
    }
    var v := version.value[0];
    if v != 1 && v != 2 {
      return Err(UnsupportedVersion);
    }
    var signed := reader.ReadSigned(v as int);
    if signed.Short? {
      return Err(Truncated);
    }
    var signature := reader.ReadFull(SIGNATURE_SIZE);
    if signature.Short? {
      return Err(Truncated);
    }
    if signature.rest != [] {
      return Err(TrailingBytes);
    }
    return Ok(signed.value.(signature := signature.value));
  }

  // ---------------------------------------------------------------------
  // Field by field: what is written is read, and what is read was written
  // ---------------------------------------------------------------------

  lemma TakeWritten(b: Bytes, t: Bytes)
    ensures Take(b + t, |b|) == Got(b, t)
  {
  }

  lemma TakeConsumes(s: Bytes, n: nat)
    ensures Take(s, n).Got? ==> s == Take(s, n).value + Take(s, n).rest && |Take(s, n).value| == n
  {
  }

  lemma PrefixedWritten(k: nat, b: Bytes, t: Bytes)
    requires |b| < Pow256(k)
    ensures TakePrefixed(Prefixed(k, b) + t, k) == Got(b, t)
  {
    assert Prefixed(k, b) + t == Big(|b|, k) + (b + t);
    TakeWritten(Big(|b|, k), b + t);
    UnbigBig(|b|, k);
    TakeWritten(b, t);
  }

  lemma PrefixedConsumes(s: Bytes, k: nat)
    ensures var r := TakePrefixed(s, k); r.Got? ==> s == Prefixed(k, r.value) + r.rest && |r.value| < Pow256(k)
  {
    var len := Take(s, k);
    TakeConsumes(s, k);
    if len.Got? {
      var r := Take(len.rest, Unbig(len.value));
      BigUnbig(len.value);
      TakeConsumes(len.rest, Unbig(len.value));
      if r.Got? {
        Assoc3(len.value, r.value, r.rest);
      }
    }
  }

  lemma Assoc3(p: Bytes, q: Bytes, r: Bytes)
    ensures p + (q + r) == (p + q) + r
  {
  }

  lemma TimeWritten(time: int, t: Bytes)
    requires -TWO63 <= time < TWO63
    ensures TakeTime(Time(time) + t) == Got(time, t)
  {
    PowValues();
    TakeWritten(Time(time), t);
    UnbigBig(Unsigned(time), 8);
  }

  lemma TimeConsumes(s: Bytes)
    ensures var r := TakeTime(s); r.Got? ==> -TWO63 <= r.value < TWO63 && s == Time(r.value) + r.rest
  {
    PowValues();
    var b := Take(s, 8);
    TakeConsumes(s, 8);
    if b.Got? {
      BigUnbig(b.value);
    }
  }

  lemma TextsWritten(a: Attestation, t: Bytes)
    requires |a.domain| <= MAX16 && |a.tier| <= MAX8 && |a.subject| <= MAX16
    ensures TakeTexts(Texts(a) + t) == Got((a.domain, a.tier, a.subject), t)
  {
    PowValues();
    var s2 := Prefixed(2, a.subject) + t;
    var s1 := Prefixed(1, a.tier) + s2;
    assert Texts(a) + t == Prefixed(2, a.domain) + s1;
    PrefixedWritten(2, a.domain, s1);
    PrefixedWritten(1, a.tier, s2);
    PrefixedWritten(2, a.subject, t);
  }

  lemma TextsConsumes(s: Bytes, a: Attestation)
    requires TakeTexts(s).Got? && TakeTexts(s).value == (a.domain, a.tier, a.subject)
    ensures |a.domain| <= MAX16 && |a.tier| <= MAX8 && |a.subject| <= MAX16
    ensures s == Texts(a) + TakeTexts(s).rest
  {
    PowValues();
    PrefixedConsumes(s, 2);
    var s1 := TakePrefixed(s, 2).rest;
    PrefixedConsumes(s1, 1);
    PrefixedConsumes(TakePrefixed(s1, 1).rest, 2);
    Assoc4(Prefixed(2, a.domain), Prefixed(1, a.tier), Prefixed(2, a.subject), TakeTexts(s).rest);
  }

  lemma Assoc4(p: Bytes, q: Bytes, r: Bytes, t: Bytes)
    ensures p + (q + (r + t)) == (p + (q + r)) + t
  {
  }

  lemma WindowWritten(a: Attestation, t: Bytes)
    requires Typed(a)
    ensures TakeWindow(Window(a) + t, a.version) ==
            Got((if a.version >= 2 then a.seats else 0, a.issuedAt, a.expiresAt), t)
  {
    PowValues();
    var s2 := Time(a.expiresAt) + t;
    var s1 := Time(a.issuedAt) + s2;
    assert Window(a) + t == Seats(a) + s1;
    if a.version >= 2 {
      TakeWritten(Seats(a), s1);
      UnbigBig(a.seats, 4);
    } else {
      assert Seats(a) + s1 == s1;
    }
    TimeWritten(a.issuedAt, s2);
    TimeWritten(a.expiresAt, t);
  }

  lemma WindowConsumes(s: Bytes, a: Attestation)
    requires TakeWindow(s, a.version).Got? && TakeWindow(s, a.version).value == (a.seats, a.issuedAt, a.expiresAt)
    ensures Typed(a) && s == Window(a) + TakeWindow(s, a.version).rest && (a.version < 2 ==> a.seats == 0)
  {
    PowValues();
    var seats := TakeSeats(s, a.version);
    if a.version >= 2 {
      TakeConsumes(s, 4);
      BigUnbig(Take(s, 4).value);
    }
    assert s == Seats(a) + seats.rest;
    TimeConsumes(seats.rest);
    TimeConsumes(TakeTime(seats.rest).rest);
    Assoc4(Seats(a), Time(a.issuedAt), Time(a.expiresAt), TakeWindow(s, a.version).rest);
  }

  // ---------------------------------------------------------------------
  // The token
  // ---------------------------------------------------------------------

  /** What a decoded token can hold: version 1 carries no seats. */
  function Carried(a: Attestation): Attestation {
    if a.version >= 2 then a else a.(seats := 0)
  }

  /** Fields a token can carry; unlike encoding, decoding accepts an empty domain and an empty tier. */
  predicate Carriable(a: Attestation) {
    && Typed(a) && 1 <= a.version <= 2
    && |a.domain| <= MAX16 && |a.tier| <= MAX8 && |a.subject| <= MAX16
    && |a.issuerKey| == KEY_SIZE
  }

  function Content(a: Attestation): Attestation {
    Carried(a).(signature := [])
  }

  lemma CoveredWritten(a: Attestation, t: Bytes)
    requires Carriable(a)
    ensures TakeSigned(Covered(a) + t, a.version) == Got(Content(a), t)
  {
    var s2 := a.issuerKey + t;
    var s1 := Window(a) + s2;
    assert Covered(a) + t == Texts(a) + s1;
    TextsWritten(a, s1);
    WindowWritten(a, s2);
    TakeWritten(a.issuerKey, t);
    var seats := if a.version >= 2 then a.seats else 0;
    SignedFrom(Covered(a) + t, a.version, (a.domain, a.tier, a.subject), s1, (seats, a.issuedAt, a.expiresAt), s2,
      a.issuerKey, t);
  }

  /** The reader's fields in turn. */
  lemma SignedFrom(s: Bytes, version: int, texts: (Bytes, Bytes, Bytes), s1: Bytes, window: (nat, int, int), s2: Bytes,
                   key: Bytes, s3: Bytes)
    requires TakeTexts(s) == Got(texts, s1) && TakeWindow(s1, version) == Got(window, s2)
             && Take(s2, KEY_SIZE) == Got(key, s3)
    ensures TakeSigned(s, version)
         == Got(Attestation(version, texts.0, texts.1, texts.2, window.0, window.1, window.2, key, []), s3)
  {
  }

  lemma CoveredConsumes(s: Bytes, version: int)
    requires 1 <= version <= 2 && TakeSigned(s, version).Got?
    ensures var r := TakeSigned(s, version);
            Carriable(r.value) && Content(r.value) == r.value && r.value.version == version
              && s == Covered(r.value) + r.rest
  {
    var r := TakeSigned(s, version);
    var a := r.value;
    var s1 := TakeTexts(s).rest;
    TextsConsumes(s, a);
    WindowConsumes(s1, a);
    TakeConsumes(TakeWindow(s1, version).rest, KEY_SIZE);
    Assoc4(Texts(a), Window(a), a.issuerKey, r.rest);
  }

  function Token(a: Attestation): Bytes
    requires Typed(a) && 1 <= a.version <= 2
  {
    Layout(a) + a.signature
  }

  lemma Front(x: byte, b: Bytes, s: Bytes, t: Bytes)
    ensures var all := (([x] + b) + s) + t; all != [] && all[0] == x && all[1..] == b + (s + t)
  {
  }

  lemma TokenShape(a: Attestation, t: Bytes)
    requires Typed(a) && 1 <= a.version <= 2
    ensures var s := Token(a) + t; s != [] && s[0] == a.version as byte && s[1..] == Covered(a) + (a.signature + t)
  {
    Front(a.version as byte, Covered(a), a.signature, t);
  }

  /** What decoding says of a token followed by anything. */
  lemma ParseToken(a: Attestation, t: Bytes)
    requires Carriable(a) && |a.signature| == SIGNATURE_SIZE
    ensures Parse(Token(a) + t) == if t == [] then Ok(Carried(a)) else Err(TrailingBytes)
  {
    TokenShape(a, t);
    CoveredWritten(a, a.signature + t);
    TakeWritten(a.signature, t);
  }

  /** Decoding undoes encoding, for both versions; version 1 loses only its seats. */
  lemma DecodeUndoesEncode(a: Attestation)
    requires Encodable(a)
    ensures Parse(Token(a)) == Ok(Carried(a))
  {
    ParseToken(a, []);
    assert Token(a) + [] == Token(a);
  }

  /** A token is the encoding of what it decodes to; encoding takes that back exactly when domain and tier are not
      empty. */
  lemma EncodeUndoesDecode(raw: Bytes)
    requires Parse(raw).Ok?
    ensures var a := Parse(raw).value;
            && Carriable(a) && |a.signature| == SIGNATURE_SIZE && Token(a) == raw
            && (Encodable(a) <==> a.domain != [] && a.tier != [])
  {
    var version := raw[0] as int;
    BodyConsumes(raw[1..], version);
    Reassemble(Parse(raw).value, raw);
  }

  lemma BodyConsumes(s: Bytes, version: int)
    requires 1 <= version <= 2 && TakeBody(s, version).Got?
    ensures var r := TakeBody(s, version);
            && Carriable(r.value) && r.value.version == version && |r.value.signature| == SIGNATURE_SIZE
            && s == Covered(r.value) + (r.value.signature + r.rest)
  {
    CoveredConsumes(s, version);
    var signed := TakeSigned(s, version);
    TakeConsumes(signed.rest, SIGNATURE_SIZE);
    assert Covered(TakeBody(s, version).value) == Covered(signed.value);
  }

  lemma Reassemble(a: Attestation, raw: Bytes)
    requires Typed(a) && 1 <= a.version <= 2
    requires raw != [] && raw[0] == a.version as byte && raw[1..] == Covered(a) + (a.signature + [])
    ensures Token(a) == raw
  {
    TokenShape(a, []);
    SameFront(raw, Token(a) + []);
    assert Token(a) + [] == Token(a);
  }

  lemma SameFront(s: Bytes, t: Bytes)
    requires s != [] && t != [] && s[0] == t[0] && s[1..] == t[1..]
    ensures s == t
  {
    assert s == [s[0]] + s[1..] && t == [t[0]] + t[1..];
  }

  /** No extension of a token that decodes, and no strict prefix of one, decodes. */
  lemma TokensAreSelfDelimiting(raw: Bytes, tail: Bytes)
    requires tail != []
    ensures Parse(raw).Ok? ==> Parse(raw + tail) == Err(TrailingBytes)
    ensures Parse(raw + tail).Ok? ==> Parse(raw).Err?
  {
    if Parse(raw).Ok? {
      EncodeUndoesDecode(raw);
      ParseToken(Parse(raw).value, tail);
    }
  }

  /** Signed bytes are injective and prefix-free across versions: one begins another only when they are equal and
      the two attestations have the same signed content. */
  lemma SigningBytesPrefixFree(a: Attestation, b: Attestation, tail: Bytes)
    requires Signable(a) && Signable(b)
    ensures Layout(a) + tail == Layout(b) <==> tail == [] && Content(a) == Content(b)
  {
    if Layout(a) + tail == Layout(b) {
      assert (Layout(a) + tail)[0] == a.version as byte && (Layout(a) + tail)[1..] == Covered(a) + tail;
      assert Layout(b)[1..] == Covered(b) + [];
      CoveredWritten(a, tail);
      CoveredWritten(b, []);
    } else if Content(a) == Content(b) {
      SameContentSameBytes(a, b);
      assert Layout(a) + [] == Layout(a);
    }
  }

  lemma SameContentSameBytes(a: Attestation, b: Attestation)
    requires Typed(a) && Typed(b) && 1 <= a.version <= 2 && Content(a) == Content(b)
    ensures Layout(a) == Layout(b)
  {
  }
}
