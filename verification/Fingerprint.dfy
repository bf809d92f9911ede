/** ssh/tunnel.go:208-241: when the fingerprint the platform announces is taken
    for that of the host key, in the unpadded base64 of its SHA-256 digest
    (sections 3.2 and 4 of RFC 4648) or the hexadecimal of its MD5 digest. */
module Fingerprint {
  import opened GoStrings
  import opened Services

  type Byte = b: nat | b < 256

  function Base64Char(v: nat): (c: char)
    requires v < 64
    ensures Base64Value(c) == Some(v) && c != ':'
  {
    if v < 26 then 'A' + v as char
    else if v < 52 then 'a' + (v - 26) as char
    else if v < 62 then '0' + (v - 52) as char
    else if v == 62 then '+' else '/'
  }

  function Base64Value(c: char): (v: Option<nat>)
    ensures v.Some? ==> v.value < 64
  {
    if 'A' <= c <= 'Z' then Some(c as nat - 'A' as nat)
    else if 'a' <= c <= 'z' then Some(c as nat - 'a' as nat + 26)
    else if '0' <= c <= '9' then Some(c as nat - '0' as nat + 52)
    else if c == '+' then Some(62) else if c == '/' then Some(63) else None
  }

  /** The four characters of three bytes. */
  function Quartet(x: Byte, y: Byte, z: Byte): (s: string)
    ensures |s| == 4 && ':' !in s
  {
    [Base64Char(x / 4), Base64Char(x % 4 * 16 + y / 16), Base64Char(y % 16 * 4 + z / 64), Base64Char(z % 64)]
  }

  /** Three bytes become four characters; one or two left over become two or three. */
  function Base64(b: seq<Byte>): (s: string)
    ensures |s| == (4 * |b| + 2) / 3 && ':' !in s
  {
    if b == [] then ""
    else if |b| == 1 then
      [Base64Char(b[0] / 4), Base64Char(b[0] % 4 * 16)]
    else if |b| == 2 then
      [Base64Char(b[0] / 4), Base64Char(b[0] % 4 * 16 + b[1] / 16), Base64Char(b[1] % 16 * 4)]
    else
      Quartet(b[0], b[1], b[2]) + Base64(b[3..])
  }

  /** The bytes of two to four characters. */
  function Group(s: string): (b: Option<seq<Byte>>)
    requires 2 <= |s| <= 4
  {
    var v, w := Base64Value(s[0]), Base64Value(s[1]);
    if v.None? || w.None? then None
    else
      var first := v.value * 4 + w.value / 16;
      if |s| == 2 then Some([first])
      else
        var x := Base64Value(s[2]);
        if x.None? then None
        else
          var second := w.value % 16 * 16 + x.value / 4;
          if |s| == 3 then Some([first, second])
          else
            var y := Base64Value(s[3]);
            if y.None? then None else Some([first, second, x.value % 4 * 64 + y.value])
  }

  /** Decoding; no length of one over a multiple of four is possible. */
  function FromBase64(s: string): Option<seq<Byte>> {
    if s == "" then Some([])
    else if |s| == 1 then None
    else if |s| <= 4 then Group(s)
    else
      var front, rest := Group(s[..4]), FromBase64(s[4..]);
      if front.None? || rest.None? then None else Some(front.value + rest.value)
  }

  lemma Sextets(x: Byte, y: Byte, z: Byte)
    ensures (x % 4 * 16 + y / 16) / 16 == x % 4 && (x % 4 * 16 + y / 16) % 16 == y / 16 && x % 4 * 16 + y / 16 < 64
    ensures (y % 16 * 4 + z / 64) / 4 == y % 16 && (y % 16 * 4 + z / 64) % 4 == z / 64 && y % 16 * 4 + z / 64 < 64
  {
  }

  lemma OneByte(b: seq<Byte>)
    requires |b| == 1
    ensures Group(Base64(b)) == Some(b)
  {
    hide Base64Char, Base64Value;
    Sextets(b[0], 0, 0);
    assert b == [b[0]];
  }

  lemma TwoBytes(b: seq<Byte>)
    requires |b| == 2
    ensures Group(Base64(b)) == Some(b)
  {
    hide Base64Char, Base64Value;
    Sextets(b[0], b[1], 0);
    assert b == [b[0], b[1]];
  }

  lemma QuartetGroup(x: Byte, y: Byte, z: Byte)
    ensures Group(Quartet(x, y, z)) == Some([x, y, z])
  {
    hide Base64Char, Base64Value;
    Sextets(x, y, z);
  }

  lemma ThreeBytes(b: seq<Byte>)
    requires |b| == 3
    ensures Group(Base64(b)) == Some(b)
  {
    hide Quartet, Group;
    QuartetGroup(b[0], b[1], b[2]);
    assert b[3..] == [] && b == [b[0], b[1], b[2]];
    assert Base64(b) == Quartet(b[0], b[1], b[2]) + "" == Quartet(b[0], b[1], b[2]);
  }

  lemma {:induction false} Base64RoundTrip(b: seq<Byte>)
    ensures FromBase64(Base64(b)) == Some(b)
  {
    hide Group, Quartet, Base64Char;
    if |b| == 1 {
      OneByte(b);
    } else if |b| == 2 {
      TwoBytes(b);
    } else if |b| >= 3 {
      ThreeBytes(b[..3]);
      Base64RoundTrip(b[3..]);
      var s := Base64(b);
      assert b[..3][3..] == [];
      assert s[..4] == Base64(b[..3]) && s[4..] == Base64(b[3..]);
      assert b == b[..3] + b[3..];
      assert |b| == 3 ==> b[..3] == b && s[..4] == s;
    }
  }

  /** Table 1 of RFC 4648. */
  const BASE64_ALPHABET: string := CAPITALS + LETTERS + DIGITS + "+/"

  lemma Base64Table(v: nat)
    requires v < 64
    ensures |BASE64_ALPHABET| == 64 && Base64Char(v) == BASE64_ALPHABET[v]
  {
    LettersAt(if v < 26 then v else if v < 52 then v - 26 else 0);
    DigitsAt(if 52 <= v < 62 then v - 52 else 0);
  }

  /** The byte at `i`, and zero bits behind the last. */
  function At(b: seq<Byte>, i: nat): Byte {
    if i < |b| then b[i] else 0
  }

  /** Three bytes taken as one number of 24 bits. */
  function Group24(b: seq<Byte>, g: nat): nat {
    65536 * At(b, 3 * g) + 256 * At(b, 3 * g + 1) + At(b, 3 * g + 2)
  }

  /** The `k`-th group of 6 bits. */
  function SixBits(b: seq<Byte>, k: nat): (v: nat)
    ensures v < 64
  {
    var n := Group24(b, k / 4);
    match k % 4
    case 0 => n / 262144 % 64
    case 1 => n / 4096 % 64
    case 2 => n / 64 % 64
    case _ => n % 64
  }

  lemma SixBitsLater(b: seq<Byte>, k: nat)
    requires |b| >= 3 && k >= 4
    ensures SixBits(b, k) == SixBits(b[3..], k - 4)
  {
    var g := k / 4;
    assert (k - 4) / 4 == g - 1 && (k - 4) % 4 == k % 4;
    assert forall i: nat :: At(b, i + 3) == At(b[3..], i);
    assert 3 * g == 3 * (g - 1) + 3;
    assert Group24(b, g) == Group24(b[3..], g - 1);
  }

  lemma SixBitsOfThree(x: Byte, y: Byte, z: Byte)
    ensures var n := 65536 * x + 256 * y + z;
      && n / 262144 % 64 == x / 4 && n / 4096 % 64 == x % 4 * 16 + y / 16
      && n / 64 % 64 == y % 16 * 4 + z / 64 && n % 64 == z % 64
  {
    Sextets(x, y, z);
    var a, b, c, d := x / 4, x % 4 * 16 + y / 16, y % 16 * 4 + z / 64, z % 64;
    AsSextets(x, y, z);
    DigitsTo64(64 * (64 * a + b) + c, d);
    DigitsTo64(64 * a + b, c);
    DigitsTo64(a, b);
    ThriceBy64(65536 * x + 256 * y + z);
  }

  lemma AsSextets(x: Byte, y: Byte, z: Byte)
    ensures 65536 * x + 256 * y + z ==
      64 * (64 * (64 * (x / 4) + (x % 4 * 16 + y / 16)) + (y % 16 * 4 + z / 64)) + z % 64
  {
    assert x == 4 * (x / 4) + x % 4 && y == 16 * (y / 16) + y % 16 && z == 64 * (z / 64) + z % 64;
  }

  lemma DigitsTo64(high: nat, low: nat)
    requires low < 64
    ensures (64 * high + low) / 64 == high && (64 * high + low) % 64 == low
  {
  }

  lemma ThriceBy64(n: nat)
    ensures n / 4096 == n / 64 / 64 && n / 262144 == n / 64 / 64 / 64
  {
  }

  /** The characters are those of the alphabet for one group of 6 bits after another,
      as section 4 of RFC 4648 has it. */
  lemma {:induction false} Base64Spelled(b: seq<Byte>, k: nat)
    requires k < |Base64(b)|
    ensures Base64(b)[k] == BASE64_ALPHABET[SixBits(b, k)]
  {
    hide Base64Char, SixBits;
    Base64Table(SixBits(b, k));
    if k >= 4 {
      SixBitsLater(b, k);
      Base64Spelled(b[3..], k - 4);
      assert Base64(b)[k] == Base64(b[3..])[k - 4];
    } else {
      FirstSixBits(b, k);
    }
  }

  lemma FirstSixBits(b: seq<Byte>, k: nat)
    requires k < |Base64(b)| && k < 4
    ensures Base64(b)[k] == Base64Char(SixBits(b, k))
  {
    hide Base64Char, SixBits;
    FourGroups(b);
    if |b| >= 3 {
      assert Base64(b)[k] == Quartet(b[0], b[1], b[2])[k];
    }
  }

  lemma FourGroups(b: seq<Byte>)
    ensures SixBits(b, 0) == At(b, 0) / 4 && SixBits(b, 1) == At(b, 0) % 4 * 16 + At(b, 1) / 16
    ensures SixBits(b, 2) == At(b, 1) % 16 * 4 + At(b, 2) / 64 && SixBits(b, 3) == At(b, 2) % 64
  {
    hide At;
    SixBitsOfThree(At(b, 0), At(b, 1), At(b, 2));
    assert Group24(b, 0) == 65536 * At(b, 0) + 256 * At(b, 1) + At(b, 2);
  }

  function HexDigit(v: nat): (c: char)
    requires v < 16
    ensures HexValue(c) == Some(v) && c != ':' && c != 'M'
  {
    if v < 10 then '0' + v as char else 'a' + (v - 10) as char
  }

  function HexValue(c: char): Option<nat> {
    if '0' <= c <= '9' then Some(c as nat - '0' as nat)
    else if 'a' <= c <= 'f' then Some(c as nat - 'a' as nat + 10) else None
  }

  const HEX_DIGITS: string := "0123456789abcdef"

  lemma HexTable(v: nat)
    requires v < 16
    ensures |HEX_DIGITS| == 16 && HexDigit(v) == HEX_DIGITS[v]
  {
  }

  function HexPair(b: Byte): (s: string)
    ensures |s| == 2 && ':' !in s && 'M' !in s
  {
    [HexDigit(b / 16), HexDigit(b % 16)]
  }

  function Hex(b: seq<Byte>): (s: string)
    ensures |s| == 2 * |b|
  {
    if b == [] then "" else HexPair(b[0]) + Hex(b[1..])
  }

  /** Two digits for each byte, the high one first. */
  lemma {:induction false} HexSpelled(b: seq<Byte>, k: nat)
    requires k < |b|
    ensures Hex(b)[2 * k] == HEX_DIGITS[b[k] / 16] && Hex(b)[2 * k + 1] == HEX_DIGITS[b[k] % 16]
  {
    hide HexDigit;
    HexTable(b[k] / 16);
    HexTable(b[k] % 16);
    if k > 0 {
      HexSpelled(b[1..], k - 1);
      assert Hex(b)[2..] == Hex(b[1..]);
    }
  }

  lemma {:induction false} HexInjective(a: seq<Byte>, b: seq<Byte>)
    requires Hex(a) == Hex(b)
    ensures a == b
  {
    if a != [] {
      assert |Hex(b)| == 2 * |b|;
      var s := Hex(a);
      assert s[0] == HexDigit(a[0] / 16) == HexDigit(b[0] / 16) && s[1] == HexDigit(a[0] % 16) == HexDigit(b[0] % 16);
      assert a[0] == b[0];
      assert s[2..] == Hex(a[1..]) == Hex(b[1..]);
      HexInjective(a[1..], b[1..]);
      assert a == [a[0]] + a[1..] && b == [b[0]] + b[1..];
    }
  }

  /** The pairs of digits of the bytes. */
  function HexPairs(b: seq<Byte>): (ps: seq<string>)
    ensures |ps| == |b| && forall i | 0 <= i < |b| :: ps[i] == HexPair(b[i])
  {
    seq(|b|, i requires 0 <= i < |b| => HexPair(b[i]))
  }

  /** The text without its colons. */
  function WithoutColons(s: string): string {
    if s == "" then "" else (if s[0] == ':' then "" else [s[0]]) + WithoutColons(s[1..])
  }

  lemma {:induction false} WithoutColonsAppend(s: string, t: string)
    ensures WithoutColons(s + t) == WithoutColons(s) + WithoutColons(t)
  {
    if s == "" {
      assert s + t == t;
    } else {
      var front := if s[0] == ':' then "" else [s[0]];
      assert (s + t)[0] == s[0] && (s + t)[1..] == s[1..] + t;
      calc {
        WithoutColons(s + t);
        front + WithoutColons(s[1..] + t);
        { WithoutColonsAppend(s[1..], t); }
        front + (WithoutColons(s[1..]) + WithoutColons(t));
        (front + WithoutColons(s[1..])) + WithoutColons(t);
        WithoutColons(s) + WithoutColons(t);
      }
    }
  }

  lemma {:induction false} StripIsWithoutColons(s: string)
    ensures ReplaceAll(s, ":", "") == WithoutColons(s)
  {
    if s != "" {
      StripIsWithoutColons(s[1..]);
      assert ":" <= s <==> s[0] == ':';
    }
  }

  lemma {:induction false} NoColons(s: string)
    requires ':' !in s
    ensures WithoutColons(s) == s
  {
    if s != "" { NoColons(s[1..]); }
  }

  // ------------------------------------------------- the digests as printed

  /** `ssh.FingerprintSHA256`. */
  function FingerprintSHA256(digest: seq<Byte>): string {
    "SHA256:" + Base64(digest)
  }

  /** `ssh.FingerprintLegacyMD5`. */
  function FingerprintLegacyMD5(digest: seq<Byte>): string
    requires digest != []
  {
    Join(HexPairs(digest), ":")
  }

  lemma NextPair(b: seq<Byte>)
    requires |b| > 1
    ensures FingerprintLegacyMD5(b) == HexPair(b[0]) + (":" + FingerprintLegacyMD5(b[1..]))
  {
    hide HexPair;
    assert HexPairs(b)[1..] == HexPairs(b[1..]);
  }

  lemma OnePair(b: seq<Byte>)
    requires |b| == 1
    ensures FingerprintLegacyMD5(b) == HexPair(b[0]) == Hex(b)
  {
    hide HexPair;
    assert b[1..] == [];
  }

  lemma ColonInFront(s: string, t: string)
    ensures WithoutColons(s + (":" + t)) == WithoutColons(s) + WithoutColons(t)
  {
    WithoutColonsAppend(s, ":" + t);
    WithoutColonsAppend(":", t);
  }

  /** Two digits for each byte and a colon between one byte and the next. */
  lemma {:induction false} LegacyMD5Spelled(b: seq<Byte>, k: nat)
    requires k < |b|
    ensures var s := FingerprintLegacyMD5(b);
      && |s| == 3 * |b| - 1 && s[3 * k] == HEX_DIGITS[b[k] / 16] && s[3 * k + 1] == HEX_DIGITS[b[k] % 16]
      && (k + 1 < |b| ==> s[3 * k + 2] == ':')
  {
    hide HexPair, FingerprintLegacyMD5;
    HexPairSpelled(b[0]);
    if |b| == 1 {
      OnePair(b);
    } else {
      NextPair(b);
      LegacyMD5Spelled(b[1..], if k == 0 then 0 else k - 1);
      var s, rest := FingerprintLegacyMD5(b), FingerprintLegacyMD5(b[1..]);
      assert s == HexPair(b[0]) + (":" + rest) && s[3..] == rest && s[2] == ':';
    }
  }

  lemma HexPairSpelled(b: Byte)
    ensures HexPair(b)[0] == HEX_DIGITS[b / 16] && HexPair(b)[1] == HEX_DIGITS[b % 16]
  {
    hide HexDigit;
    HexTable(b / 16);
    HexTable(b % 16);
  }

  /** Colonised hexadecimal strips back to plain hexadecimal. */
  lemma {:induction false} ColonHexStrips(b: seq<Byte>)
    requires b != []
    ensures WithoutColons(FingerprintLegacyMD5(b)) == Hex(b) && 'M' !in FingerprintLegacyMD5(b)
  {
    hide HexPair, FingerprintLegacyMD5, WithoutColons;
    NoColons(HexPair(b[0]));
    if |b| == 1 {
      OnePair(b);
    } else {
      NextPair(b);
      ColonInFront(HexPair(b[0]), FingerprintLegacyMD5(b[1..]));
      ColonHexStrips(b[1..]);
    }
  }

  lemma ContainsNeeds(s: string, sub: string, c: char)
    requires c in sub && c !in s
    ensures !Contains(s, sub)
  {
    var k :| 0 <= k < |sub| && sub[k] == c;
    forall i | 0 <= i <= |s| ensures !OccursAt(s, sub, i) {
      if i + |sub| <= |s| { assert s[i..i + |sub|][k] == s[i + k]; }
    }
  }

  /** The verdict and the values that would have matched. */
  function CheckSSHFingerprint(sha256: seq<Byte>, md5: seq<Byte>, actual: string): (r: (bool, seq<string>))
    requires |sha256| == 32 && |md5| == 16
  {
    var actualWithoutColons := ReplaceAll(actual, ":", "");
    var sha256Sum := ReplaceAll(FingerprintSHA256(sha256), "SHA256:", "");
    var md5Sum := ReplaceAll(ReplaceAll(FingerprintLegacyMD5(md5), "MD5:", ""), ":", "");
    (sha256Sum == actualWithoutColons || md5Sum == actualWithoutColons, [sha256Sum, md5Sum])
  }

  predicate Accepts(sha256: seq<Byte>, md5: seq<Byte>, actual: string)
    requires |sha256| == 32 && |md5| == 16
  {
    CheckSSHFingerprint(sha256, md5, actual).0
  }

  /** The announced fingerprint is accepted exactly if without its colons it is
      the base64 of the one digest or the hexadecimal of the other. */
  lemma AcceptsIff(sha256: seq<Byte>, md5: seq<Byte>, actual: string)
    requires |sha256| == 32 && |md5| == 16
    ensures Accepts(sha256, md5, actual) <==>
      WithoutColons(actual) == Base64(sha256) || WithoutColons(actual) == Hex(md5)
    ensures CheckSSHFingerprint(sha256, md5, actual).1 == [Base64(sha256), Hex(md5)]
  {
    StripIsWithoutColons(actual);
    var s, t := FingerprintSHA256(sha256), FingerprintLegacyMD5(md5);
    assert "SHA256:" <= s && s[7..] == Base64(sha256);
    ContainsNeeds(Base64(sha256), "SHA256:", "SHA256:"[6]);
    ReplaceNone(Base64(sha256), "SHA256:", "");
    assert ReplaceAll(s, "SHA256:", "") == Base64(sha256);
    ColonHexStrips(md5);
    ContainsNeeds(t, "MD5:", "MD5:"[0]);
    ReplaceNone(t, "MD5:", "");
    StripIsWithoutColons(t);
  }

  /** The text has the 6-bit groups of the digest in the alphabet of base64. */
  predicate PrintsSHA256(s: string, digest: seq<Byte>) {
    |s| == 43 && forall k | 0 <= k < 43 :: s[k] == BASE64_ALPHABET[SixBits(digest, k)]
  }

  /** The text has two hexadecimal digits for each byte of the digest. */
  predicate PrintsMD5(s: string, digest: seq<Byte>) {
    && |digest| == 16 && |s| == 32
    && forall k | 0 <= k < 16 :: s[2 * k] == HEX_DIGITS[digest[k] / 16] && s[2 * k + 1] == HEX_DIGITS[digest[k] % 16]
  }

  lemma PrintedSHA256(s: string, digest: seq<Byte>)
    requires |digest| == 32
    ensures s == Base64(digest) <==> PrintsSHA256(s, digest)
  {
    hide Base64, SixBits;
    assert |Base64(digest)| == 43;
    forall k | 0 <= k < 43 ensures Base64(digest)[k] == BASE64_ALPHABET[SixBits(digest, k)] {
      Base64Spelled(digest, k);
    }
  }

  lemma PrintedMD5(s: string, digest: seq<Byte>)
    requires |digest| == 16
    ensures s == Hex(digest) <==> PrintsMD5(s, digest)
  {
    hide Hex;
    assert |Hex(digest)| == 32;
    forall k | 0 <= k < 16
      ensures Hex(digest)[2 * k] == HEX_DIGITS[digest[k] / 16] && Hex(digest)[2 * k + 1] == HEX_DIGITS[digest[k] % 16]
    {
      HexSpelled(digest, k);
    }
    if PrintsMD5(s, digest) {
      forall i | 0 <= i < 32 ensures s[i] == Hex(digest)[i] {
        var k := i / 2;
        assert digest[k] < 256 && (i == 2 * k || i == 2 * k + 1);
      }
    }
  }

  /** The announced fingerprint is accepted exactly if without its colons it spells
      one of the digests, digit by digit. */
  lemma AcceptsSpelledIff(sha256: seq<Byte>, md5: seq<Byte>, actual: string)
    requires |sha256| == 32 && |md5| == 16
    ensures Accepts(sha256, md5, actual) <==>
      PrintsSHA256(WithoutColons(actual), sha256) || PrintsMD5(WithoutColons(actual), md5)
  {
    AcceptsIff(sha256, md5, actual);
    PrintedSHA256(WithoutColons(actual), sha256);
    PrintedMD5(WithoutColons(actual), md5);
  }

  lemma ZeroBits(b: seq<Byte>, k: nat)
    requires |b| > 0 && b[0] == 248 && forall i | 1 <= i < |b| :: b[i] == 0
    ensures SixBits(b, k) == if k == 0 then 62 else 0
  {
    if k < 4 { FourGroups(b); }
    else { assert Group24(b, k / 4) == 0; }
  }

  /** A digest whose first 6 bits are 62 is announced with a plus sign. */
  lemma PlusIsAccepted(sha256: seq<Byte>, md5: seq<Byte>)
    requires |sha256| == 32 && |md5| == 16
    requires sha256[0] == 248 && forall i | 1 <= i < 32 :: sha256[i] == 0
    ensures Accepts(sha256, md5, "+AAAAAAAAAAAAAAAAAAAAAAAAAAAAAAAAAAAAAAAAAA")
  {
    hide SixBits, WithoutColons, Accepts;
    var s := "+AAAAAAAAAAAAAAAAAAAAAAAAAAAAAAAAAAAAAAAAAA";
    forall k | 0 <= k < 43 ensures SixBits(sha256, k) == if k == 0 then 62 else 0 { ZeroBits(sha256, k); }
    Base64Table(62);
    Base64Table(0);
    assert |s| == 43 && s[0] == '+' && forall k | 1 <= k < 43 :: s[k] == 'A';
    NoColons(s);
    AcceptsSpelledIff(sha256, md5, s);
  }

  lemma ColonIsStripped(before: string, after: string)
    ensures ReplaceAll(before + ":" + after, ":", "") == ReplaceAll(before + after, ":", "")
  {
    StripIsWithoutColons(before + ":" + after);
    StripIsWithoutColons(before + after);
    WithoutColonsAppend(before + ":", after);
    WithoutColonsAppend(before, ":");
    WithoutColonsAppend(before, after);
  }

  /** Colons never change the verdict, wherever they are put. */
  lemma ColonsDoNotMatter(sha256: seq<Byte>, md5: seq<Byte>, before: string, after: string)
    requires |sha256| == 32 && |md5| == 16
    ensures CheckSSHFingerprint(sha256, md5, before + ":" + after) == CheckSSHFingerprint(sha256, md5, before + after)
  {
    hide FingerprintSHA256, FingerprintLegacyMD5, ReplaceAll;
    ColonIsStripped(before, after);
  }

  /** Both announced forms of a key's own digests are accepted. */
  lemma AcceptsItself(sha256: seq<Byte>, md5: seq<Byte>)
    requires |sha256| == 32 && |md5| == 16
    ensures Accepts(sha256, md5, Base64(sha256)) && Accepts(sha256, md5, FingerprintLegacyMD5(md5))
  {
    AcceptsIff(sha256, md5, Base64(sha256));
    AcceptsIff(sha256, md5, FingerprintLegacyMD5(md5));
    NoColons(Base64(sha256));
    ColonHexStrips(md5);
  }

  /** Two keys for which the same text is accepted have the same SHA-256 digest,
      if it has 43 characters without its colons, and the same MD5 digest
      otherwise, when it has 32. */
  lemma AcceptedDigestIsUnique(sha: seq<Byte>, md: seq<Byte>, sha': seq<Byte>, md': seq<Byte>, actual: string)
    requires |sha| == |sha'| == 32 && |md| == |md'| == 16
    requires Accepts(sha, md, actual) && Accepts(sha', md', actual)
    ensures if |WithoutColons(actual)| == 43 then sha == sha' else |WithoutColons(actual)| == 32 && md == md'
  {
    AcceptsIff(sha, md, actual);
    AcceptsIff(sha', md', actual);
    if |WithoutColons(actual)| == 43 {
      Base64RoundTrip(sha);
      Base64RoundTrip(sha');
    } else {
      HexInjective(md, md');
    }
  }
}
