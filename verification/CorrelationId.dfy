/**
 `internal/middleware/correlationid.go`: the version 4 UUID text and the choice
 of one correlation ID per request. Machine bytes are
 `bv8`; the text is specified on the numbers below 256 they stand for.
 */
module CorrelationId {
  import opened Wrappers

  type Byte = b: int | 0 <= b < 256

  type Sixteen = b: seq<Byte> | |b| == 16 witness seq(16, _ => 0)

  // ---------- Bit operations on bytes ----------

  // The numbers a run of machine bytes stands for.
  ghost function Numbers(s: seq<bv8>): (r: seq<Byte>)
    ensures |r| == |s| && forall k :: 0 <= k < |s| ==> r[k] == s[k] as int
  {
    seq(|s|, k requires 0 <= k < |s| => s[k] as int)
  }

  lemma Nibbles(c: bv8)
    ensures (c >> 4) as int == (c as int) / 16
    ensures (c & 0x0f) as int == (c as int) % 16
  {}

  lemma VersionBits(c: bv8)
    ensures ((c & 0x0f) | 0x40) as int == (c as int) % 16 + 64
  {}

  lemma VariantBits(c: bv8)
    ensures ((c & 0x3f) | 0x80) as int == (c as int) % 64 + 128
  {}

  // The masks of RFC 4122, section 4.4: four free bits under the version, six
  // under the variant.
  method MaskVersion(c: bv8) returns (r: bv8)
    ensures r as int == (c as int) % 16 + 64
  {
    VersionBits(c);
    r := (c & 0x0f) | 0x40;
  }

  method MaskVariant(c: bv8) returns (r: bv8)
    ensures r as int == (c as int) % 64 + 128
  {
    VariantBits(c);
    r := (c & 0x3f) | 0x80;
  }

  method SplitByte(c: bv8) returns (high: Byte, low: Byte)
    ensures high == (c as int) / 16 && low == (c as int) % 16
  {
    Nibbles(c);
    high, low := (c >> 4) as int, (c & 0x0f) as int;
  }

  // ---------- Lowercase hexadecimal ----------

  function Digit(n: nat): char
    requires n < 16
  {
    if n < 10 then ('0' as int + n) as char else ('a' as int + n - 10) as char
  }

  predicate IsHex(c: char) {
    '0' <= c <= '9' || 'a' <= c <= 'f'
  }

  function DigitValue(c: char): nat
    requires IsHex(c)
  {
    if c <= '9' then c as int - '0' as int else c as int - 'a' as int + 10
  }

  function HexByte(b: Byte): (s: string)
    ensures |s| == 2
  {
    [Digit(b / 16), Digit(b % 16)]
  }

  function Hex(bytes: seq<Byte>): (s: string)
    ensures |s| == 2 * |bytes|
  {
    if bytes == [] then "" else HexByte(bytes[0]) + Hex(bytes[1..])
  }

  // Reads pairs of digits back; anything that is not a digit counts as zero.
  function Unhex(s: string): (bytes: seq<int>)
    requires |s| % 2 == 0
    ensures |bytes| == |s| / 2
  {
    if s == "" then [] else [Value(s[0]) * 16 + Value(s[1])] + Unhex(s[2..])
  }

  function Value(c: char): nat {
    if IsHex(c) then DigitValue(c) else 0
  }

  lemma DigitRoundTrip(n: nat)
    requires n < 16
    ensures IsHex(Digit(n)) && Value(Digit(n)) == n
  {}

  lemma {:induction false} HexRoundTrip(bytes: seq<Byte>)
    ensures Unhex(Hex(bytes)) == bytes
  {
    if bytes != [] {
      DigitRoundTrip(bytes[0] / 16);
      DigitRoundTrip(bytes[0] % 16);
      HexRoundTrip(bytes[1..]);
      assert Hex(bytes)[2..] == Hex(bytes[1..]);
    }
  }

  lemma {:induction false} HexIsHex(bytes: seq<Byte>, k: nat)
    requires k < 2 * |bytes|
    ensures IsHex(Hex(bytes)[k])
  {
    DigitRoundTrip(bytes[0] / 16);
    DigitRoundTrip(bytes[0] % 16);
    if 2 <= k {
      HexIsHex(bytes[1..], k - 2);
    }
  }

  lemma {:induction false} HexAppend(bytes: seq<Byte>, b: Byte)
    ensures Hex(bytes + [b]) == Hex(bytes) + HexByte(b)
  {
    if bytes == [] {
      assert [] + [b] == [b];
      assert Hex([b]) == HexByte(b) + Hex([]);
    } else {
      assert (bytes + [b])[1..] == bytes[1..] + [b];
      HexAppend(bytes[1..], b);
    }
  }

  // ---------- The UUID text ----------

  // Version 4 in byte 6, the RFC 4122 variant in byte 8.
  function Masked(b: Sixteen): Sixteen {
    b[6 := b[6] % 16 + 64][8 := b[8] % 64 + 128]
  }

  // The 8-4-4-4-12 text form.
  function Text(b: Sixteen): (s: string)
    ensures |s| == 36
  {
    Hyphenated(Hex(b[0..4]), Hex(b[4..6]), Hex(b[6..8]), Hex(b[8..10]), Hex(b[10..16]))
  }

  function Hyphenated(a: string, b: string, c: string, d: string, e: string): string {
    a + "-" + b + "-" + c + "-" + d + "-" + e
  }

  // The bytes that a text of 36 characters denotes, hyphens skipped.
  function Decode(s: string): seq<int>
    requires |s| == 36
  {
    Unhex(s[0..8]) + Unhex(s[9..13]) + Unhex(s[14..18]) + Unhex(s[19..23]) + Unhex(s[24..36])
  }

  const SENTINEL := "00000000-0000-4000-8000-000000000000"

  function Mint(random: Option<Sixteen>): string {
    if random.None? then SENTINEL else Text(Masked(random.value))
  }

  predicate IsHyphen(k: int) {
    k == 8 || k == 13 || k == 18 || k == 23
  }

  // Lowercase 8-4-4-4-12 with version nibble 4 and variant nibble 8, 9, a or b.
  predicate IsVersion4(s: string) {
    && |s| == 36
    && (forall k :: 0 <= k < 36 ==> if IsHyphen(k) then s[k] == '-' else IsHex(s[k]))
    && s[14] == '4'
    && s[19] in "89ab"
  }

  lemma HyphenatedParts(a: string, b: string, c: string, d: string, e: string)
    requires |a| == 8 && |b| == |c| == |d| == 4 && |e| == 12
    ensures var s := Hyphenated(a, b, c, d, e);
            && |s| == 36
            && s[0..8] == a && s[9..13] == b && s[14..18] == c && s[19..23] == d && s[24..36] == e
            && s[8] == s[13] == s[18] == s[23] == '-'
  {}

  lemma TextGroups(b: Sixteen)
    ensures var s := Text(b);
            && s[0..8] == Hex(b[0..4]) && s[9..13] == Hex(b[4..6]) && s[14..18] == Hex(b[6..8])
            && s[19..23] == Hex(b[8..10]) && s[24..36] == Hex(b[10..16])
            && s[8] == s[13] == s[18] == s[23] == '-'
  {
    HyphenatedParts(Hex(b[0..4]), Hex(b[4..6]), Hex(b[6..8]), Hex(b[8..10]), Hex(b[10..16]));
  }

  lemma TextDecodes(b: Sixteen)
    ensures Decode(Text(b)) == b
  {
    TextGroups(b);
    HexRoundTrip(b[0..4]);
    HexRoundTrip(b[4..6]);
    HexRoundTrip(b[6..8]);
    HexRoundTrip(b[8..10]);
    HexRoundTrip(b[10..16]);
    assert b[0..4] + b[4..6] + b[6..8] + b[8..10] + b[10..16] == b;
  }

  lemma InGroup(s: string, at: nat, group: seq<Byte>, k: nat)
    requires at <= k < at + 2 * |group| <= |s|
    requires s[at..at + 2 * |group|] == Hex(group)
    ensures IsHex(s[k])
  {
    HexIsHex(group, k - at);
    assert s[k] == s[at..at + 2 * |group|][k - at];
  }

  lemma TextIsHex(b: Sixteen, k: nat)
    requires k < 36
    ensures if IsHyphen(k) then Text(b)[k] == '-' else IsHex(Text(b)[k])
  {
    TextGroups(b);
    if k < 8 {
      InGroup(Text(b), 0, b[0..4], k);
    } else if 9 <= k < 13 {
      InGroup(Text(b), 9, b[4..6], k);
    } else if 14 <= k < 18 {
      InGroup(Text(b), 14, b[6..8], k);
    } else if 19 <= k < 23 {
      InGroup(Text(b), 19, b[8..10], k);
    } else if 24 <= k {
      InGroup(Text(b), 24, b[10..16], k);
    }
  }

  lemma NibblesShow(m: Sixteen)
    requires m[6] / 16 == 4 && 8 <= m[8] / 16 <= 11
    ensures Text(m)[14] == '4' && Text(m)[19] in "89ab"
  {
    var s := Text(m);
    TextGroups(m);
    assert s[14] == s[14..18][0] && s[19] == s[19..23][0];
    assert m[6..8][0] == m[6] && m[8..10][0] == m[8];
    assert Hex(m[6..8])[0] == Digit(4) && Hex(m[8..10])[0] == Digit(m[8] / 16);
  }

  // Every minted text is a well-formed version 4 UUID and decodes to the
  // masked random bytes.
  lemma MintedIsVersion4(b: Sixteen)
    ensures IsVersion4(Text(Masked(b)))
    ensures Decode(Text(Masked(b))) == Masked(b)
  {
    var m := Masked(b);
    TextDecodes(m);
    NibblesShow(m);
    forall k: nat | k < 36 ensures if IsHyphen(k) then Text(m)[k] == '-' else IsHex(Text(m)[k]) {
      TextIsHex(m, k);
    }
  }

  // Where the text shows byte `k`: two digits, after the hyphens before it.
  function Place(k: nat): nat {
    if k < 4 then 2 * k else if k < 6 then 2 * k + 1 else if k < 8 then 2 * k + 2
    else if k < 10 then 2 * k + 3 else 2 * k + 4
  }

  lemma DigitTable(n: nat)
    requires n < 16
    ensures Digit(n) == "0123456789abcdef"[n]
  {
    if n < 8 {
      assert Digit(n) == "01234567"[n];
    } else {
      assert Digit(n) == "89abcdef"[n - 8];
    }
  }

  lemma {:induction false} HexAt(bytes: seq<Byte>, k: nat)
    requires k < |bytes|
    ensures Hex(bytes)[2 * k] == Digit(bytes[k] / 16) && Hex(bytes)[2 * k + 1] == Digit(bytes[k] % 16)
  {
    if k != 0 {
      HexAt(bytes[1..], k - 1);
    }
  }

  lemma GroupAt(s: string, at: nat, group: seq<Byte>, k: nat)
    requires k < |group| && at + 2 * |group| <= |s| && s[at..at + 2 * |group|] == Hex(group)
    ensures s[at + 2 * k] == Digit(group[k] / 16) && s[at + 2 * k + 1] == Digit(group[k] % 16)
  {
    HexAt(group, k);
    assert s[at + 2 * k] == s[at..at + 2 * |group|][2 * k];
    assert s[at + 2 * k + 1] == s[at..at + 2 * |group|][2 * k + 1];
  }

  // Every byte is shown in its own place, high digit first.
  lemma TextAt(b: Sixteen, k: nat)
    requires k < 16
    ensures Text(b)[Place(k)] == Digit(b[k] / 16) && Text(b)[Place(k) + 1] == Digit(b[k] % 16)
  {
    var s := Text(b);
    TextGroups(b);
    if k < 4 {
      GroupAt(s, 0, b[0..4], k);
    } else if k < 6 {
      GroupAt(s, 9, b[4..6], k - 4);
    } else if k < 8 {
      GroupAt(s, 14, b[6..8], k - 6);
    } else if k < 10 {
      GroupAt(s, 19, b[8..10], k - 8);
    } else {
      GroupAt(s, 24, b[10..16], k - 10);
    }
  }

  // A minted text decodes to the drawn bytes, but for the version and the
  // variant in bytes 6 and 8.
  lemma MintedKeepsBytes(b: Sixteen)
    ensures var d := Decode(Mint(Some(b)));
            && |d| == 16
            && (forall k :: 0 <= k < 16 && k != 6 && k != 8 ==> d[k] == b[k])
            && d[6] == 64 + b[6] % 16 && d[8] == 128 + b[8] % 64
  {
    TextDecodes(Masked(b));
  }

  // The 122 bits that the masks leave free.
  predicate SameFreeBits(a: Sixteen, b: Sixteen) {
    && (forall k :: 0 <= k < 16 && k != 6 && k != 8 ==> a[k] == b[k])
    && a[6] % 16 == b[6] % 16
    && a[8] % 64 == b[8] % 64
  }

  // Two draws collide exactly when they agree on every free bit.
  lemma CollisionsAreFreeBitCollisions(a: Sixteen, b: Sixteen)
    ensures Mint(Some(a)) == Mint(Some(b)) <==> SameFreeBits(a, b)
  {
    TextDecodes(Masked(a));
    TextDecodes(Masked(b));
    MasksAgree(a, b);
  }

  lemma MasksAgree(a: Sixteen, b: Sixteen)
    ensures Masked(a) == Masked(b) <==> SameFreeBits(a, b)
  {
    var ma, mb := Masked(a), Masked(b);
    assert forall k :: 0 <= k < 16 && k != 6 && k != 8 ==> ma[k] == a[k] && mb[k] == b[k];
    if ma == mb {
      assert ma[6] == mb[6] && ma[8] == mb[8];
    }
  }

  lemma {:induction false} HexOfZeros(n: nat)
    ensures Hex(seq(n, _ => 0)) == seq(2 * n, _ => '0')
  {
    if n != 0 {
      HexOfZeros(n - 1);
      assert seq(n, _ => 0 as Byte)[1..] == seq(n - 1, _ => 0);
    }
  }

  lemma HexPair(b: Byte)
    ensures Hex([b, 0]) == HexByte(b) + "00"
  {
    HexAppend([b], 0);
    HexAppend([], b);
    assert [] + [b] == [b] && [b] + [0] == [b, 0];
  }

  lemma ZeroText(z: Sixteen)
    requires z == seq(16, _ => 0)
    ensures Text(Masked(z)) == Hyphenated(seq(8, _ => '0'), seq(4, _ => '0'), "4000", "8000", seq(12, _ => '0'))
  {
    var m := Masked(z);
    HexOfZeros(4);
    HexOfZeros(2);
    HexOfZeros(6);
    HexPair(64);
    HexPair(128);
    assert m[0..4] == seq(4, _ => 0) && m[4..6] == seq(2, _ => 0) && m[10..16] == seq(6, _ => 0);
    assert m[6..8] == [64, 0] && m[8..10] == [128, 0];
  }

  // The failure sentinel is the text of the all-zero draw.
  lemma SentinelIsZeroDraw()
    ensures SENTINEL == Mint(Some(seq(16, _ => 0)))
    ensures IsVersion4(SENTINEL)
  {
    var z: Sixteen := seq(16, _ => 0);
    ZeroText(z);
    SentinelText();
    MintedIsVersion4(z);
  }

  lemma SentinelText()
    ensures SENTINEL == Hyphenated(seq(8, _ => '0'), seq(4, _ => '0'), "4000", "8000", seq(12, _ => '0'))
  {
    var s := Hyphenated(seq(8, _ => '0'), seq(4, _ => '0'), "4000", "8000", seq(12, _ => '0'));
    assert |s| == |SENTINEL| == 36;
    assert forall k :: 0 <= k < 8 ==> SENTINEL[k] == '0';
    assert forall k :: 9 <= k < 13 ==> SENTINEL[k] == '0';
    assert forall k :: 24 <= k < 36 ==> SENTINEL[k] == '0';
  }

  // The resolved ID: the inbound header, or a minted one when it is blank.
  function Resolve(inbound: string, random: Option<Sixteen>): string {
    if inbound == "" then Mint(random) else inbound
  }

  lemma ResolvedIsNotBlank(inbound: string, random: Option<Sixteen>)
    ensures Resolve(inbound, random) != ""
    ensures inbound == "" ==> IsVersion4(Resolve(inbound, random))
    ensures inbound != "" ==> Resolve(inbound, random) == inbound
  {
    SentinelIsZeroDraw();
    if random.Some? {
      MintedIsVersion4(random.value);
    }
  }

  // ---------- newUUID, in place ----------

  method EncodeByte(dst: array<char>, j: nat, c: bv8)
    requires j + 2 <= dst.Length
    modifies dst
    ensures [dst[j], dst[j + 1]] == HexByte(c as int)
    ensures forall k :: 0 <= k < dst.Length && k != j && k != j + 1 ==> dst[k] == old(dst[k])
  {
    var high, low := SplitByte(c);
    dst[j], dst[j + 1] := Digit(high), Digit(low);
  }

  ghost predicate PairAt(s: seq<char>, at: nat, b: Byte) {
    at + 2 <= |s| && [s[at], s[at + 1]] == HexByte(b)
  }

  lemma {:induction false} PairsAreHex(s: string, bytes: seq<Byte>)
    requires |s| == 2 * |bytes|
    requires forall k :: 0 <= k < |bytes| ==> PairAt(s, 2 * k, bytes[k])
    ensures s == Hex(bytes)
  {
    if bytes != [] {
      forall k | 0 <= k < |bytes| - 1 ensures PairAt(s[2..], 2 * k, bytes[1..][k]) {
        assert PairAt(s, 2 * (k + 1), bytes[k + 1]);
      }
      PairsAreHex(s[2..], bytes[1..]);
      assert PairAt(s, 2 * 0, bytes[0]);
      assert s == [s[0], s[1]] + s[2..];
    }
  }

  // Encodes one group of bytes into the text, starting at index `at`.
  method HexEncode(dst: array<char>, at: nat, group: seq<bv8>)
    requires at + 2 * |group| <= dst.Length
    modifies dst
    ensures dst[at..at + 2 * |group|] == Hex(Numbers(group))
    ensures forall k :: 0 <= k < dst.Length && !(at <= k < at + 2 * |group|) ==> dst[k] == old(dst[k])
  {
    ghost var numbers := Numbers(group);
    for i := 0 to |group|
      invariant forall k :: 0 <= k < i ==> PairAt(dst[..], at + 2 * k, numbers[k])
      invariant forall k :: 0 <= k < dst.Length && !(at <= k < at + 2 * i) ==> dst[k] == old(dst[k])
    {
      EncodeByte(dst, at + 2 * i, group[i]);
    }
    var s := dst[at..at + 2 * |group|];
    forall k | 0 <= k < |group| ensures PairAt(s, 2 * k, numbers[k]) {
      assert PairAt(dst[..], at + 2 * k, numbers[k]);
    }
    PairsAreHex(s, numbers);
  }

  ghost function Drawn(random: Option<seq<bv8>>): Option<Sixteen>
    requires random.Some? ==> |random.value| == 16
  {
    if random.None? then None else Some(Numbers(random.value))
  }

  // `random` is what the random source delivered; `None` when it failed.
  method NewUUID(random: Option<seq<bv8>>) returns (id: string)
    requires random.Some? ==> |random.value| == 16
    ensures id == Mint(Drawn(random))
    ensures random.None? ==> id == "00000000-0000-4000-8000-000000000000"
    ensures random.Some? ==> |Decode(id)| == 16
    ensures random.Some? ==> forall k :: 0 <= k < 16 && k != 6 && k != 8 ==> Decode(id)[k] == random.value[k] as int
    ensures IsVersion4(id)
  {
    if random.None? {
      SentinelIsZeroDraw();
      return SENTINEL;
    }
    var b := new bv8[16];
    Fill(b, random.value);
    var version := MaskVersion(b[6]);
    b[6] := version;
    var variant := MaskVariant(b[8]);
    b[8] := variant;
    assert Numbers(b[..]) == Masked(Numbers(random.value));
    id := Format(b);
    MintedIsVersion4(Numbers(random.value));
    MintedKeepsBytes(Numbers(random.value));
  }

  // A successful read of the random source.
  method Fill(b: array<bv8>, drawn: seq<bv8>)
    requires b.Length == |drawn|
    modifies b
    ensures b[..] == drawn
  {
    forall k | 0 <= k < b.Length {
      b[k] := drawn[k];
    }
  }

  method Format(b: array<bv8>) returns (id: string)
    requires b.Length == 16
    ensures id == Text(Numbers(b[..]))
  {
    var dst := new char[36](_ => '-');
    HexEncode(dst, 0, b[0..4]);
    ghost var g0 := dst[0..8];
    dst[8] := '-';
    HexEncode(dst, 9, b[4..6]);
    ghost var g1 := dst[9..13];
    dst[13] := '-';
    HexEncode(dst, 14, b[6..8]);
    ghost var g2 := dst[14..18];
    dst[18] := '-';
    HexEncode(dst, 19, b[8..10]);
    ghost var g3 := dst[19..23];
    dst[23] := '-';
    HexEncode(dst, 24, b[10..16]);
    id := dst[..];
    assert id[0..8] == g0 && id[9..13] == g1 && id[14..18] == g2 && id[19..23] == g3;
    assert id[24..36] == dst[24..36];
    NumbersOfGroups(b[..]);
    PartsAreHyphenated(id);
  }

  lemma NumbersOfGroups(b: seq<bv8>)
    requires |b| == 16
    ensures forall i, j :: 0 <= i <= j <= 16 ==> Numbers(b[i..j]) == Numbers(b)[i..j]
  {}

  lemma PartsAreHyphenated(s: string)
    requires |s| == 36 && s[8] == s[13] == s[18] == s[23] == '-'
    ensures s == Hyphenated(s[0..8], s[9..13], s[14..18], s[19..23], s[24..36])
  {}
}
