/** Integers, signatures and JSON web keys as bytes: internal/upstream/device.go. */
module DeviceEncoding {
  import opened Basics

  // ---------------------------------------------------------------- big-endian integers

  /** big.Int's Bytes: big-endian, without leading zeros. */
  function Bytes(v: nat): (b: seq<Byte>)
    ensures b != [] ==> b[0] != 0
    ensures b == [] <==> v == 0
  {
    if v == 0 then [] else Bytes(v / 256) + [v % 256]
  }

  /** big.Int's SetBytes. */
  function SetBytes(b: seq<Byte>): nat {
    if b == [] then 0 else SetBytes(b[..|b| - 1]) * 256 + b[|b| - 1]
  }

  function Pow(base: nat, n: nat): nat {
    if n == 0 then 1 else Pow(base, n - 1) * base
  }

  function Zeros(n: nat): (z: seq<Byte>)
    ensures |z| == n && forall i | 0 <= i < n :: z[i] == 0
  {
    seq(n, i => 0)
  }

  lemma {:induction false} SetBytesOfBytes(v: nat)
    ensures SetBytes(Bytes(v)) == v
  {
    if v > 0 {
      SetBytesOfBytes(v / 256);
    }
  }

  /** Leading zeros do not count. */
  lemma {:induction false} SetBytesPadded(n: nat, b: seq<Byte>)
    ensures SetBytes(Zeros(n) + b) == SetBytes(b)
  {
    if b != [] {
      assert (Zeros(n) + b)[..n + |b| - 1] == Zeros(n) + b[..|b| - 1];
      SetBytesPadded(n, b[..|b| - 1]);
    } else if n > 0 {
      assert Zeros(n) + b == Zeros(n) && Zeros(n)[..n - 1] == Zeros(n - 1) + [];
      SetBytesPadded(n - 1, []);
    }
  }

  /** The first byte counts most: big-endian. */
  lemma {:induction false} FirstByteCountsMost(b: seq<Byte>)
    requires b != []
    ensures SetBytes(b) == b[0] * Pow(256, |b| - 1) + SetBytes(b[1..])
  {
    if |b| == 1 {
      assert b[..0] == [] && b[1..] == [];
    } else {
      var front := b[..|b| - 1];
      FirstByteCountsMost(front);
      assert b[1..][..|b[1..]| - 1] == front[1..];
      var p := Pow(256, |front| - 1);
      assert b[0] * (p * 256) == (b[0] * p) * 256;
    }
  }

  lemma {:induction false} SetBytesBounded(b: seq<Byte>)
    ensures SetBytes(b) < Pow(256, |b|)
  {
    if b != [] {
      SetBytesBounded(b[..|b| - 1]);
    }
  }

  /** A value takes at most `n` bytes exactly when it is below 256 to the `n`. */
  lemma {:induction false} BytesFit(v: nat, n: nat)
    ensures |Bytes(v)| <= n <==> v < Pow(256, n)
  {
    if v == 0 {
      PowPositive(256, n);
    } else if n > 0 {
      BytesFit(v / 256, n - 1);
    }
  }

  lemma {:induction false} PowPositive(base: nat, n: nat)
    requires base > 0
    ensures Pow(base, n) > 0
  {
    if n > 0 {
      PowPositive(base, n - 1);
    }
  }

  /** What `bits` bits can hold, ceil(bits/8) bytes can. */
  lemma {:induction false} BitsFit(bits: nat)
    ensures Pow(2, bits) <= Pow(256, (bits + 7) / 8)
  {
    if bits >= 8 {
      BitsFit(bits - 8);
      EightBits(bits - 8);
    } else if bits > 0 {
      assert Pow(256, 1) == Pow(256, 0) * 256;
      PowOfTwoBelow(bits, 8);
      EightBits(0);
    }
  }

  lemma EightBits(n: nat)
    ensures Pow(2, n + 8) == Pow(2, n) * 256
  {
    assert Pow(2, n + 2) == Pow(2, n + 1) * 2 == Pow(2, n) * 4;
    assert Pow(2, n + 4) == Pow(2, n + 3) * 2 == Pow(2, n + 2) * 4;
    assert Pow(2, n + 6) == Pow(2, n + 5) * 2 == Pow(2, n + 4) * 4;
    assert Pow(2, n + 8) == Pow(2, n + 7) * 2 == Pow(2, n + 6) * 4;
  }

  lemma {:induction false} PowOfTwoBelow(m: nat, n: nat)
    requires m <= n
    ensures Pow(2, m) <= Pow(2, n)
  {
    if m < n {
      PowOfTwoBelow(m, n - 1);
    }
  }

  // ---------------------------------------------------------------- raw signatures

  /** The value in exactly `size` bytes. */
  function Fixed(v: nat, size: nat): (b: seq<Byte>)
    requires |Bytes(v)| <= size
    ensures |b| == size
  {
    Zeros(size - |Bytes(v)|) + Bytes(v)
  }

  /** Go's copy, of a source that fits. */
  method Copy(dst: array<Byte>, from: nat, src: seq<Byte>)
    requires from + |src| <= dst.Length
    modifies dst
    ensures dst[..] == old(dst[..])[..from] + src + old(dst[..])[from + |src|..]
  {
    for i := 0 to |src|
      invariant dst[..from] == old(dst[..from])
      invariant dst[from..from + i] == src[..i]
      invariant dst[from + |src|..] == old(dst[from + |src|..])
    {
      dst[from + i] := src[i];
    }
    assert dst[..] == dst[..from] + dst[from..from + |src|] + dst[from + |src|..];
  }

  /** R || S in two fixed-width halves; None where a slice bound would be negative, which panics. An S wider than its
      half runs over R's. */
  function Signature(r: nat, s: nat, size: nat): Option<seq<Byte>> {
    if |Bytes(r)| > size || |Bytes(s)| > 2 * size then None
    else if |Bytes(s)| > size then Some(Fixed(r, size)[..2 * size - |Bytes(s)|] + Bytes(s))
    else Some(Fixed(r, size) + Fixed(s, size))
  }

  /** Copying R into zeros fills the first half. */
  lemma FirstHalf(out: seq<Byte>, r: nat, size: nat)
    requires out == Zeros(size * 2) && |Bytes(r)| <= size
    ensures out[..size - |Bytes(r)|] + Bytes(r) + out[size..] == Fixed(r, size) + Zeros(size)
  {
  }

  /** Copying S to the end leaves a padded second half, or runs over the first. */
  lemma SecondHalf(first: seq<Byte>, sb: seq<Byte>)
    requires |sb| <= 2 * |first|
    ensures
      var size := |first|;
      var out := first + Zeros(size);
      out[..size * 2 - |sb|] + sb + out[size * 2..]
      == if |sb| <= size then first + (Zeros(size - |sb|) + sb) else first[..2 * size - |sb|] + sb
  {
  }

  /** rawSignature. */
  method RawSignature(r: nat, s: nat, bits: nat) returns (signature: Option<seq<Byte>>)
    ensures signature == Signature(r, s, (bits + 7) / 8)
  {
    var size := (bits + 7) / 8;
    var out := new Byte[size * 2](i => 0);
    ghost var zeros := out[..];
    var rb := Bytes(r);
    var sb := Bytes(s);
    if size < |rb| || size * 2 < |sb| {
      return None;
    }
    Copy(out, size - |rb|, rb);
    FirstHalf(zeros, r, size);
    ghost var half := out[..];
    assert half == Fixed(r, size) + Zeros(size);
    Copy(out, size * 2 - |sb|, sb);
    SecondHalf(Fixed(r, size), sb);
    return Some(out[..]);
  }

  lemma FixedDecodes(v: nat, size: nat)
    requires |Bytes(v)| <= size
    ensures SetBytes(Fixed(v, size)) == v
  {
    SetBytesPadded(size - |Bytes(v)|, Bytes(v));
    SetBytesOfBytes(v);
  }

  /** There is none exactly where a bound of the copies would be negative: R too wide for its half, or S for both. */
  lemma SignaturePanics(r: nat, s: nat, size: nat)
    ensures Signature(r, s, size) == None <==> r >= Pow(256, size) || s >= Pow(256, 2 * size)
  {
    BytesFit(r, size);
    BytesFit(s, 2 * size);
  }

  /** A signature has twice `size` bytes, and its halves read big-endian as r and s exactly when s fits in its half. */
  lemma SignatureReadsBack(r: nat, s: nat, size: nat)
    requires Signature(r, s, size).Some?
    ensures
      var out := Signature(r, s, size).value;
      && |out| == 2 * size
      && (SetBytes(out[..size]) == r && SetBytes(out[size..]) == s <==> s < Pow(256, size))
  {
    var out := Signature(r, s, size).value;
    BytesFit(s, size);
    if |Bytes(s)| <= size {
      FixedDecodes(r, size);
      FixedDecodes(s, size);
      assert out[..size] == Fixed(r, size) && out[size..] == Fixed(s, size);
    } else {
      SetBytesBounded(out[size..]);
    }
  }

  /** Integers of at most `bits` bits always have a signature, of twice ceil(bits/8) bytes, and read back from it; so
      different pairs have different signatures. */
  lemma SignatureRoundTrip(r: nat, s: nat, bits: nat)
    requires r < Pow(2, bits) && s < Pow(2, bits)
    ensures
      var size := (bits + 7) / 8;
      var out := Signature(r, s, size);
      && out.Some? && |out.value| == 2 * size
      && SetBytes(out.value[..size]) == r && SetBytes(out.value[size..]) == s
  {
    var size := (bits + 7) / 8;
    BitsFit(bits);
    BytesFit(r, size);
    BytesFit(s, size);
    SignatureReadsBack(r, s, size);
  }

  lemma SignatureInjective(r: nat, s: nat, r': nat, s': nat, bits: nat)
    requires r < Pow(2, bits) && s < Pow(2, bits) && r' < Pow(2, bits) && s' < Pow(2, bits)
    ensures Signature(r, s, (bits + 7) / 8) == Signature(r', s', (bits + 7) / 8) <==> r == r' && s == s'
  {
    SignatureRoundTrip(r, s, bits);
    SignatureRoundTrip(r', s', bits);
  }

  // ---------------------------------------------------------------- base64url without padding

  type Sextet = x: int | 0 <= x < 64

  /** Three bytes make four sextets; one or two left over make two or three. */
  function Sextets(b: seq<Byte>): seq<Sextet> {
    if b == [] then []
    else if |b| == 1 then [b[0] / 4, b[0] % 4 * 16]
    else if |b| == 2 then [b[0] / 4, b[0] % 4 * 16 + b[1] / 16, b[1] % 16 * 4]
    else [b[0] / 4, b[0] % 4 * 16 + b[1] / 16, b[1] % 16 * 4 + b[2] / 64, b[2] % 64] + Sextets(b[3..])
  }

  function First(x: Sextet, y: Sextet): Byte {
    x * 4 + y / 16
  }

  function Second(y: Sextet, z: Sextet): Byte {
    y % 16 * 16 + z / 4
  }

  function Third(z: Sextet, w: Sextet): Byte {
    z % 4 * 64 + w
  }

  /** Back to bytes; bits left over are not looked at. */
  function FromSextets(x: seq<Sextet>): seq<Byte> {
    if |x| < 2 then []
    else if |x| == 2 then [First(x[0], x[1])]
    else if |x| == 3 then [First(x[0], x[1]), Second(x[1], x[2])]
    else [First(x[0], x[1]), Second(x[1], x[2]), Third(x[2], x[3])] + FromSextets(x[4..])
  }

  lemma BitsRegroup(a: Byte, b: Byte, c: Byte)
    ensures First(a / 4, a % 4 * 16 + b / 16) == a
    ensures Second(a % 4 * 16 + b / 16, b % 16 * 4 + c / 64) == b
    ensures Third(b % 16 * 4 + c / 64, c % 64) == c
  {
  }

  lemma {:induction false} SextetsRoundTrip(b: seq<Byte>)
    ensures FromSextets(Sextets(b)) == b
  {
    if |b| >= 3 {
      BitsRegroup(b[0], b[1], b[2]);
      SextetsRoundTrip(b[3..]);
      assert Sextets(b)[4..] == Sextets(b[3..]);
      assert b == [b[0], b[1], b[2]] + b[3..];
    } else if |b| == 2 {
      BitsRegroup(b[0], b[1], 0);
    } else if |b| == 1 {
      BitsRegroup(b[0], 0, 0);
    }
  }

  /** Whole bytes never leave a single sextet over. */
  lemma {:induction false} SextetsWhole(b: seq<Byte>)
    ensures |Sextets(b)| % 4 != 1 && (Sextets(b) == [] <==> b == [])
  {
    if |b| >= 3 {
      SextetsWhole(b[3..]);
    }
  }

  /** The alphabet: A to Z, a to z, 0 to 9, - and _. */
  function Digit(x: Sextet): char {
    if x < 26 then 'A' + x as char
    else if x < 52 then 'a' + (x - 26) as char
    else if x < 62 then '0' + (x - 52) as char
    else if x == 62 then '-' else '_'
  }

  function Value(c: char): Option<Sextet> {
    if 'A' <= c <= 'Z' then Some((c - 'A') as int)
    else if 'a' <= c <= 'z' then Some((c - 'a') as int + 26)
    else if '0' <= c <= '9' then Some((c - '0') as int + 52)
    else if c == '-' then Some(62)
    else if c == '_' then Some(63)
    else None
  }

  /** The digits in the order of their values. */
  lemma DigitTable(x: Sextet)
    ensures x < 26 ==> Digit(x) == "ABCDEFGHIJKLMNOPQRSTUVWXYZ"[x]
    ensures 26 <= x < 52 ==> Digit(x) == "abcdefghijklmnopqrstuvwxyz"[x - 26]
    ensures 52 <= x ==> Digit(x) == "0123456789-_"[x - 52]
  {
  }

  /** The first `n` of these digits as a number. */
  function Number(digits: seq<int>, n: nat, base: nat): int
    requires n <= |digits|
  {
    if n == 0 then 0 else Number(digits, n - 1, base) * base + digits[n - 1]
  }

  /** Four sextets hold the same 24 bits as their three bytes, most significant first; two or three hold one byte or
      two, followed by zero bits. */
  lemma SameBits(b: seq<Byte>)
    ensures
      var x := Sextets(b);
      && (|b| == 1 ==> |x| == 2 && Number(x, 2, 64) == Number(b, 1, 256) * 16)
      && (|b| == 2 ==> |x| == 3 && Number(x, 3, 64) == Number(b, 2, 256) * 4)
      && (|b| >= 3 ==> |x| >= 4 && x[4..] == Sextets(b[3..]) && Number(x, 4, 64) == Number(b, 3, 256))
  {
    var x := Sextets(b);
    if |b| == 1 {
      TwoPlaces(x, 64);
      OnePlace(b, 256);
    } else if |b| == 2 {
      ThreePlaces(x, 64);
      TwoPlaces(b, 256);
    } else if |b| >= 3 {
      FourPlaces(x, 64);
      ThreePlaces(b, 256);
    }
  }

  lemma OnePlace(d: seq<int>, base: nat)
    requires |d| >= 1
    ensures Number(d, 1, base) == d[0]
  {
    assert Number(d, 0, base) == 0;
  }

  lemma TwoPlaces(d: seq<int>, base: nat)
    requires |d| >= 2
    ensures Number(d, 2, base) == d[0] * base + d[1]
  {
    OnePlace(d, base);
  }

  lemma ThreePlaces(d: seq<int>, base: nat)
    requires |d| >= 3
    ensures Number(d, 3, base) == (d[0] * base + d[1]) * base + d[2]
  {
    TwoPlaces(d, base);
  }

  lemma FourPlaces(d: seq<int>, base: nat)
    requires |d| >= 4
    ensures Number(d, 4, base) == ((d[0] * base + d[1]) * base + d[2]) * base + d[3]
  {
    ThreePlaces(d, base);
  }

  /** Each sextet has a digit of its own, and nothing else is one. */
  lemma DigitsAreValues(x: Sextet, c: char)
    ensures Value(c) == Some(x) <==> c == Digit(x)
  {
  }

  /** base64.RawURLEncoding's EncodeToString. */
  function Encode(b: seq<Byte>): string {
    var x := Sextets(b);
    seq(|x|, i requires 0 <= i < |x| => Digit(x[i]))
  }

  /** The decoder skips line breaks wherever they are. */
  function WithoutBreaks(s: string): (r: string)
    ensures |r| <= |s|
  {
    if s == [] then []
    else if s[0] == '\n' || s[0] == '\r' then WithoutBreaks(s[1..])
    else [s[0]] + WithoutBreaks(s[1..])
  }

  predicate AllDigits(s: string) {
    forall i | 0 <= i < |s| :: Value(s[i]).Some?
  }

  function Values(s: string): seq<Sextet>
    requires AllDigits(s)
  {
    seq(|s|, i requires 0 <= i < |s| => Value(s[i]).value)
  }

  /** base64.RawURLEncoding's DecodeString: nothing but digits and line breaks, and not one digit too many. */
  function Decode(s: string): Option<seq<Byte>> {
    var digits := WithoutBreaks(s);
    if AllDigits(digits) && |digits| % 4 != 1 then Some(FromSextets(Values(digits))) else None
  }

  lemma {:induction false} DigitsKept(s: string)
    requires AllDigits(s)
    ensures WithoutBreaks(s) == s
  {
    if s != [] {
      assert Value(s[0]).Some?;
      assert forall i | 0 <= i < |s[1..]| :: s[1..][i] == s[i + 1];
      DigitsKept(s[1..]);
    }
  }

  lemma EncodeIsDigits(b: seq<Byte>)
    ensures AllDigits(Encode(b)) && Values(Encode(b)) == Sextets(b)
  {
    var x := Sextets(b);
    forall i | 0 <= i < |x|
      ensures Value(Encode(b)[i]) == Some(x[i])
    {
      DigitsAreValues(x[i], Digit(x[i]));
    }
  }

  /** Decoding what was encoded gives it back, whatever its length, and whatever line breaks were added. */
  lemma DecodeEncode(b: seq<Byte>, s: string)
    requires WithoutBreaks(s) == Encode(b)
    ensures Decode(s) == Some(b)
  {
    EncodeIsDigits(b);
    SextetsRoundTrip(b);
    SextetsWhole(b);
  }

  lemma EncodeUnbroken(b: seq<Byte>)
    ensures WithoutBreaks(Encode(b)) == Encode(b)
    ensures Encode(b) == "" <==> b == []
  {
    EncodeIsDigits(b);
    DigitsKept(Encode(b));
    SextetsRoundTrip(b);
    SextetsWhole(b);
  }

  /** Without line breaks, a text is refused exactly for a foreign character or a single digit left over. */
  lemma DecodeRefuses(s: string)
    requires '\n' !in s && '\r' !in s
    ensures Decode(s) == None <==>
      || |s| % 4 == 1
      || exists i | 0 <= i < |s| ::
           !('A' <= s[i] <= 'Z' || 'a' <= s[i] <= 'z' || '0' <= s[i] <= '9' || s[i] == '-' || s[i] == '_')
  {
    NoBreaksKept(s);
  }

  lemma {:induction false} NoBreaksKept(s: string)
    requires '\n' !in s && '\r' !in s
    ensures WithoutBreaks(s) == s
  {
    if s != [] {
      assert s[0] in s;
      NoBreaksKept(s[1..]);
    }
  }

  // ---------------------------------------------------------------- JSON web keys

  datatype Jwk = Jwk(kty: string, crv: string, x: string, y: string, d: string)

  datatype PublicKey = PublicKey(x: nat, y: nat)
  datatype PrivateKey = PrivateKey(public: PublicKey, d: nat)

  datatype KeyError = Unsupported | Corrupt | NoPrivatePart

  datatype Result<T> = Ok(value: T) | Err(error: KeyError)

  function JwkToEC(jwk: Jwk): Result<PublicKey> {
    if jwk.kty != "EC" || jwk.crv != "P-256" then Err(Unsupported)
    else
      var xb := Decode(jwk.x);
      if xb.None? then Err(Corrupt)
      else
        var yb := Decode(jwk.y);
        if yb.None? then Err(Corrupt) else Ok(PublicKey(SetBytes(xb.value), SetBytes(yb.value)))
  }

  function JwkToECPrivate(jwk: Jwk): Result<PrivateKey> {
    match JwkToEC(jwk)
    case Err(e) => Err(e)
    case Ok(public) =>
      if jwk.d == "" then Err(NoPrivatePart)
      else
        var db := Decode(jwk.d);
        if db.None? then Err(Corrupt) else Ok(PrivateKey(public, SetBytes(db.value)))
  }

  /** b64urlBig: the coordinate without leading zeros. */
  function EncodeInt(v: nat): string {
    Encode(Bytes(v))
  }

  /** The keys of a pair as GenerateDeviceKeyPair writes them. */
  function PublicJwk(x: nat, y: nat): Jwk {
    Jwk("EC", "P-256", EncodeInt(x), EncodeInt(y), "")
  }

  function PrivateJwk(x: nat, y: nat, d: nat): Jwk {
    PublicJwk(x, y).(d := EncodeInt(d))
  }

  /** A coordinate reads back whether it was written minimally, as b64urlBig does, or padded to any width. */
  lemma CoordinateRoundTrip(v: nat, padding: nat)
    ensures Decode(EncodeInt(v)) == Some(Bytes(v)) && SetBytes(Bytes(v)) == v
    ensures
      var padded := Zeros(padding) + Bytes(v);
      Decode(Encode(padded)) == Some(padded) && SetBytes(padded) == v
  {
    ReadsBack(Zeros(padding) + Bytes(v));
    ReadsBack(Bytes(v));
    SetBytesPadded(padding, Bytes(v));
    SetBytesOfBytes(v);
  }

  lemma ReadsBack(b: seq<Byte>)
    ensures Decode(Encode(b)) == Some(b)
  {
    EncodeUnbroken(b);
    DecodeEncode(b, Encode(b));
  }

  lemma EmptyIsZero(v: nat)
    ensures EncodeInt(v) == "" <==> v == 0
  {
    EncodeUnbroken(Bytes(v));
  }

  /** A key is refused as unsupported exactly if it is not one on P-256, and as corrupt exactly if it is but a
      coordinate does not decode. */
  lemma KeyRefusals(jwk: Jwk)
    ensures JwkToEC(jwk) == Err(Unsupported) <==> jwk.kty != "EC" || jwk.crv != "P-256"
    ensures JwkToEC(jwk) == Err(Corrupt) <==>
      jwk.kty == "EC" && jwk.crv == "P-256" && (Decode(jwk.x).None? || Decode(jwk.y).None?)
    ensures JwkToEC(jwk).Err? ==> JwkToECPrivate(jwk) == Err(JwkToEC(jwk).error)
    ensures JwkToEC(jwk).Ok? && jwk.d == "" ==> JwkToECPrivate(jwk) == Err(NoPrivatePart)
    ensures JwkToEC(jwk).Ok? && jwk.d != "" && Decode(jwk.d).None? ==> JwkToECPrivate(jwk) == Err(Corrupt)
  {
  }

  lemma PublicRoundTrip(jwk: Jwk, x: nat, y: nat)
    requires jwk.kty == "EC" && jwk.crv == "P-256" && jwk.x == EncodeInt(x) && jwk.y == EncodeInt(y)
    ensures JwkToEC(jwk) == Ok(PublicKey(x, y))
  {
    CoordinateRoundTrip(x, 0);
    CoordinateRoundTrip(y, 0);
  }

  /** A written public key reads back; a written private key does exactly when its secret is not zero, which is
      written as the empty string that stands for a missing one. */
  lemma KeyRoundTrip(x: nat, y: nat, d: nat)
    ensures JwkToEC(PublicJwk(x, y)) == Ok(PublicKey(x, y))
    ensures JwkToECPrivate(PrivateJwk(x, y, d)) == Ok(PrivateKey(PublicKey(x, y), d)) <==> d != 0
    ensures d == 0 ==> JwkToECPrivate(PrivateJwk(x, y, d)) == Err(NoPrivatePart)
  {
    PublicRoundTrip(PublicJwk(x, y), x, y);
    PublicRoundTrip(PrivateJwk(x, y, d), x, y);
    CoordinateRoundTrip(d, 0);
    EmptyIsZero(d);
  }
}
