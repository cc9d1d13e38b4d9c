/** The badge locking script: its printer, its parser, and the proof that they are inverse. */
module Script {
  import opened Int64

  type byte = b: int | 0 <= b < 256

  datatype Option<+T> = None | Some(value: T)

  datatype BadgeVout = BadgeVout(address: seq<byte>, value: int)

  const BADGE_CODE_PART_HEX_PREFIX: string := "5101400100015101b101b26114"
  const BADGE_CODE_PART_HEX_SUFFIX: string :=
    "005179517a7561587905" + "626164676587695979a9" + "517987695a795a79ac77" + "77777777777777777777"
  const BADGE_DATA_PART_HEX_PREFIX: string := "6a08"
  const PUBKEY_HASH_LEN := 20
  const HEX_PUBKEY_HASH_LEN := 2 * PUBKEY_HASH_LEN
  const BADGE_DATA_LEN := 8
  const BADGE_CODE_PART_LEN :=
    |BADGE_CODE_PART_HEX_PREFIX| / 2 + |BADGE_CODE_PART_HEX_SUFFIX| / 2 + PUBKEY_HASH_LEN
  const BADGE_DATA_PART_LEN := |BADGE_DATA_PART_HEX_PREFIX| / 2 + BADGE_DATA_LEN
  const BADGE_LOCKING_SCRIPT_LEN := BADGE_CODE_PART_LEN + BADGE_DATA_PART_LEN

  const OP_RETURN: byte := 0x6a
  const OP_DATA_8: byte := 0x08

  // ----- hexadecimal text

  function HexDigit(n: int): char
    requires 0 <= n < 16
  {
    if n < 10 then '0' + n as char else 'a' + (n - 10) as char
  }

  function HexValue(c: char): (v: int)
    ensures -1 <= v < 16
  {
    if '0' <= c <= '9' then (c - '0') as int
    else if 'a' <= c <= 'f' then (c - 'a') as int + 10
    else if 'A' <= c <= 'F' then (c - 'A') as int + 10
    else -1
  }

  /** hex.EncodeToString */
  function HexEncode(s: seq<byte>): (h: string)
    ensures |h| == 2 * |s|
  {
    seq(2 * |s|, i requires 0 <= i < 2 * |s| =>
      HexDigit(if i % 2 == 0 then s[i / 2] / 16 else s[i / 2] % 16))
  }

  predicate IsHex(h: string) {
    |h| % 2 == 0 && forall i | 0 <= i < |h| :: HexValue(h[i]) >= 0
  }

  /** hex.DecodeString */
  function HexDecode(h: string): (r: Option<seq<byte>>)
    ensures r.Some? <==> IsHex(h)
    ensures r.Some? ==> |r.value| == |h| / 2
  {
    if IsHex(h) then
      Some(seq(|h| / 2, i requires 0 <= i < |h| / 2 => 16 * HexValue(h[2 * i]) + HexValue(h[2 * i + 1])))
    else None
  }

  lemma HexDigitValue(n: int)
    requires 0 <= n < 16
    ensures HexValue(HexDigit(n)) == n
  {
  }

  lemma HexEncodeAt(s: seq<byte>, i: nat)
    requires i < |s|
    ensures HexEncode(s)[2 * i] == HexDigit(s[i] / 16)
    ensures HexEncode(s)[2 * i + 1] == HexDigit(s[i] % 16)
  {
    assert (2 * i) / 2 == i && (2 * i + 1) / 2 == i;
  }

  /** Two bytes whose hexadecimal texts agree are equal. */
  lemma HexEncodeByte(s: seq<byte>, t: seq<byte>, i: nat, j: nat)
    requires i < |s| && j < |t|
    requires HexEncode(s)[2 * i] == HexEncode(t)[2 * j]
    requires HexEncode(s)[2 * i + 1] == HexEncode(t)[2 * j + 1]
    ensures s[i] == t[j]
  {
    HexEncodeAt(s, i);
    HexEncodeAt(t, j);
    HexDigitValue(s[i] / 16);
    HexDigitValue(s[i] % 16);
    HexDigitValue(t[j] / 16);
    HexDigitValue(t[j] % 16);
  }

  lemma HexDecodeEncode(h: string)
    requires IsLowerHex(h)
    ensures IsHex(h)
    ensures HexEncode(HexDecode(h).value) == h
  {
    LowerHexIsHex(h);
    var s := HexDecode(h).value;
    forall i | 0 <= i < |h| ensures HexEncode(s)[i] == h[i] {
      var k := i / 2;
      var hi, lo := HexValue(h[2 * k]), HexValue(h[2 * k + 1]);
      assert s[k] == 16 * hi + lo && s[k] / 16 == hi && s[k] % 16 == lo;
      HexEncodeAt(s, k);
      LowerHexDigit(h[i]);
      assert i == if i % 2 == 0 then 2 * k else 2 * k + 1;
    }
  }

  lemma LowerHexIsHex(h: string)
    requires IsLowerHex(h)
    ensures IsHex(h)
  {
    forall i | 0 <= i < |h| ensures HexValue(h[i]) >= 0 {
      LowerHexDigit(h[i]);
    }
  }

  lemma LowerHexDigit(c: char)
    requires IsLowerHexDigit(c)
    ensures HexValue(c) >= 0 && HexDigit(HexValue(c)) == c
  {
  }

  lemma HexEncodeSlice(s: seq<byte>, lo: nat, hi: nat)
    requires lo <= hi <= |s|
    ensures HexEncode(s)[2 * lo..2 * hi] == HexEncode(s[lo..hi])
  {
    hide HexEncode;
    var whole, part := HexEncode(s), HexEncode(s[lo..hi]);
    forall i | 0 <= i < 2 * (hi - lo) ensures whole[2 * lo + i] == part[i] {
      HexEncodeShift(s, lo, hi, i / 2);
      assert i == 2 * (i / 2) || i == 2 * (i / 2) + 1;
    }
  }

  lemma HexEncodeShift(s: seq<byte>, lo: nat, hi: nat, k: nat)
    requires lo <= hi <= |s| && k < hi - lo
    ensures HexEncode(s)[2 * lo + 2 * k] == HexEncode(s[lo..hi])[2 * k]
    ensures HexEncode(s)[2 * lo + 2 * k + 1] == HexEncode(s[lo..hi])[2 * k + 1]
  {
    hide HexEncode, HexDigit;
    HexEncodeAt(s, lo + k);
    HexEncodeAt(s[lo..hi], k);
  }

  lemma HexEncodeInjective(s: seq<byte>, t: seq<byte>)
    requires HexEncode(s) == HexEncode(t)
    ensures s == t
  {
    assert |HexEncode(s)| == 2 * |s| && |HexEncode(t)| == 2 * |t|;
    forall i | 0 <= i < |s| ensures s[i] == t[i] {
      HexEncodeByte(s, t, i, i);
    }
  }

  predicate IsLowerHexDigit(c: char) {
    '0' <= c <= '9' || 'a' <= c <= 'f'
  }

  predicate IsLowerHex(h: string) {
    |h| % 2 == 0 && forall i | 0 <= i < |h| :: IsLowerHexDigit(h[i])
  }

  lemma PrefixIsHex()
    ensures IsLowerHex(BADGE_CODE_PART_HEX_PREFIX) && |BADGE_CODE_PART_HEX_PREFIX| == 26
  {
  }

  lemma SuffixIsHex()
    ensures IsLowerHex(BADGE_CODE_PART_HEX_SUFFIX) && |BADGE_CODE_PART_HEX_SUFFIX| == 80
  {
    var a, b, c, d := "005179517a7561587905", "626164676587695979a9", "517987695a795a79ac77", "77777777777777777777";
    QuartersAreHex();
    hide IsLowerHex;
    LowerHexConcat(a, b);
    LowerHexConcat(a + b, c);
    LowerHexConcat(a + b + c, d);
  }

  lemma QuartersAreHex()
    ensures IsLowerHex("005179517a7561587905") && IsLowerHex("626164676587695979a9")
    ensures IsLowerHex("517987695a795a79ac77") && IsLowerHex("77777777777777777777")
  {
  }

  lemma LowerHexConcat(a: string, b: string)
    requires IsLowerHex(a) && IsLowerHex(b)
    ensures IsLowerHex(a + b)
  {
  }

  /** A slice of a hexadecimal text is a given lower-case text exactly when the bytes are its decoding. */
  lemma HexSliceIs(s: seq<byte>, lo: nat, hi: nat, h: string)
    requires lo <= hi <= |s| && IsLowerHex(h) && |h| == 2 * (hi - lo)
    ensures IsHex(h)
    ensures HexEncode(s)[2 * lo..2 * hi] == h <==> s[lo..hi] == HexDecode(h).value
  {
    HexDecodeEncode(h);
    HexEncodeSlice(s, lo, hi);
    if HexEncode(s)[2 * lo..2 * hi] == h {
      HexEncodeInjective(s[lo..hi], HexDecode(h).value);
    }
  }

  // ----- strings.Index

  predicate OccursAt(s: string, sub: string, i: int) {
    0 <= i && i + |sub| <= |s| && s[i..i + |sub|] == sub
  }

  /** strings.Index from position `i` on: the first occurrence, or -1. */
  function IndexFrom(s: string, sub: string, i: nat): (r: int)
    ensures r == -1 ==> forall k | i <= k :: !OccursAt(s, sub, k)
    ensures r != -1 ==> i <= r && OccursAt(s, sub, r) && forall k | i <= k < r :: !OccursAt(s, sub, k)
    decreases |s| - i
  {
    if OccursAt(s, sub, i) then i
    else if i >= |s| then -1
    else IndexFrom(s, sub, i + 1)
  }

  function Index(s: string, sub: string): int {
    IndexFrom(s, sub, 0)
  }

  /** "00" occurs in the suffix only at its start. */
  lemma SuffixHasNoLaterZeros(k: int)
    requires 0 < k < 79
    ensures BADGE_CODE_PART_HEX_SUFFIX[k] != '0' || BADGE_CODE_PART_HEX_SUFFIX[k + 1] != '0'
  {
  }

  /** Two overlapping occurrences of `sub` give it a border. */
  lemma OverlapIsBorder(h: string, sub: string, i: int, j: int, m: nat)
    requires OccursAt(h, sub, i) && OccursAt(h, sub, j) && i < j && j - i + m < |sub|
    ensures sub[j - i + m] == sub[m]
  {
    assert h[i..i + |sub|][j - i + m] == h[j + m] == h[j..j + |sub|][m];
  }

  /** The suffix has no proper border, so two of its occurrences never overlap. */
  lemma SuffixOccurrencesDoNotOverlap(h: string, i: int, j: int)
    requires OccursAt(h, BADGE_CODE_PART_HEX_SUFFIX, i)
    requires OccursAt(h, BADGE_CODE_PART_HEX_SUFFIX, j)
    requires i < j
    ensures i + 80 <= j
  {
    SuffixEnds();
    if j - i < 80 {
      OverlapIsBorder(h, BADGE_CODE_PART_HEX_SUFFIX, i, j, 0);
      if j - i < 79 {
        OverlapIsBorder(h, BADGE_CODE_PART_HEX_SUFFIX, i, j, 1);
        SuffixHasNoLaterZeros(j - i);
      }
    }
  }

  lemma SuffixEnds()
    ensures |BADGE_CODE_PART_HEX_SUFFIX| == 80
    ensures BADGE_CODE_PART_HEX_SUFFIX[0] == '0' && BADGE_CODE_PART_HEX_SUFFIX[1] == '0'
    ensures BADGE_CODE_PART_HEX_SUFFIX[79] == '7'
  {
  }

  // ----- little-endian integers

  function LittleEndian(v: int, n: nat): (s: seq<byte>)
    ensures |s| == n
    decreases n
  {
    if n == 0 then [] else [v % 256] + LittleEndian(v / 256, n - 1)
  }

  function FromLittleEndian(s: seq<byte>): (v: nat) {
    if s == [] then 0 else s[0] + 256 * FromLittleEndian(s[1..])
  }

  function Pow256(n: nat): (p: nat) {
    if n == 0 then 1 else 256 * Pow256(n - 1)
  }

  lemma Pow256Of8()
    ensures Pow256(8) == TWO_64
  {
    assert Pow256(4) == 0x1_0000_0000;
    assert Pow256(8) == 256 * (256 * (256 * (256 * Pow256(4))));
  }

  lemma {:induction false} LittleEndianRoundTrip(v: int, n: nat)
    requires 0 <= v < Pow256(n)
    ensures FromLittleEndian(LittleEndian(v, n)) == v
  {
    if n > 0 {
      LittleEndianRoundTrip(v / 256, n - 1);
    }
  }

  lemma {:induction false} FromLittleEndianRoundTrip(s: seq<byte>)
    ensures FromLittleEndian(s) < Pow256(|s|)
    ensures LittleEndian(FromLittleEndian(s), |s|) == s
  {
    if s != [] {
      FromLittleEndianRoundTrip(s[1..]);
      assert FromLittleEndian(s) / 256 == FromLittleEndian(s[1..]);
    }
  }

  // ----- the printer and the parser

  /** binary.Write of an int64 in little-endian order. */
  function Int64ToBytes(num: int): seq<byte> {
    LittleEndian(num, 8)
  }

  /** hex.DecodeString of the two code-part constants; neither can fail. */
  function CodePrefix(): (s: seq<byte>)
    ensures |s| == 13
  {
    PrefixIsHex();
    HexDecodeEncode(BADGE_CODE_PART_HEX_PREFIX);
    HexDecode(BADGE_CODE_PART_HEX_PREFIX).value
  }

  function CodeSuffix(): (s: seq<byte>)
    ensures |s| == 40
  {
    SuffixIsHex();
    HexDecodeEncode(BADGE_CODE_PART_HEX_SUFFIX);
    HexDecode(BADGE_CODE_PART_HEX_SUFFIX).value
  }

  /** CreateBadgeLockScript; `None` is the "error value" error. */
  function CreateBadgeLockScript(address: seq<byte>, value: int): (r: Option<seq<byte>>) {
    if value < 0 then None
    else Some(CodePrefix() + address + CodeSuffix() + [OP_RETURN, OP_DATA_8] + Int64ToBytes(value))
  }

  /** The checks of ParseBadgeVoutScript on length and hexadecimal text. */
  predicate PassesTextChecks(script: seq<byte>) {
    && |script| == BADGE_LOCKING_SCRIPT_LEN
    && var hexScript := HexEncode(script);
       && BADGE_CODE_PART_HEX_PREFIX <= hexScript
       && Index(hexScript, BADGE_CODE_PART_HEX_SUFFIX) == |BADGE_CODE_PART_HEX_PREFIX| + HEX_PUBKEY_HASH_LEN
       && hexScript[146] == '6' && hexScript[147] == 'a' && hexScript[148] == '0' && hexScript[149] == '8'
  }

  /** ParseBadgeVoutScript; `None` is any of its errors. */
  function ParseBadgeVoutScript(script: seq<byte>): (r: Option<BadgeVout>) {
    if !PassesTextChecks(script) then None else
    var at := |BADGE_CODE_PART_HEX_PREFIX| / 2;
    var value := Wrap(FromLittleEndian(script[(|BADGE_CODE_PART_HEX_PREFIX| + HEX_PUBKEY_HASH_LEN
      + |BADGE_CODE_PART_HEX_SUFFIX| + |BADGE_DATA_PART_HEX_PREFIX|) / 2..]));
    if value < 0 then None else Some(BadgeVout(script[at..at + PUBKEY_HASH_LEN], value))
  }

  /** The byte layout behind the parser's textual checks. */
  predicate HasBadgeLayout(script: seq<byte>) {
    && |script| == 83
    && script[..13] == CodePrefix()
    && script[33..73] == CodeSuffix()
    && script[73] == OP_RETURN && script[74] == OP_DATA_8
  }

  lemma DataPushText(script: seq<byte>)
    requires |script| == 83
    ensures var h := HexEncode(script);
            h[146] == '6' && h[147] == 'a' && h[148] == '0' && h[149] == '8' <==>
            script[73] == OP_RETURN && script[74] == OP_DATA_8
  {
    ByteText(script, 73, OP_RETURN);
    ByteText(script, 74, OP_DATA_8);
    assert HexDigit(6) == '6' && HexDigit(10) == 'a' && HexDigit(0) == '0' && HexDigit(8) == '8';
  }

  lemma ByteText(s: seq<byte>, i: nat, b: byte)
    requires i < |s|
    ensures HexEncode(s)[2 * i] == HexDigit(b / 16) && HexEncode(s)[2 * i + 1] == HexDigit(b % 16) <==> s[i] == b
  {
    HexEncodeAt(s, i);
    HexDigitValue(s[i] / 16);
    HexDigitValue(s[i] % 16);
    HexDigitValue(b / 16);
    HexDigitValue(b % 16);
  }

  /** Whatever the hash bytes are, `strings.Index` finds the suffix at its place and nowhere earlier. */
  lemma SuffixIndex(script: seq<byte>)
    requires |script| == 83
    ensures Index(HexEncode(script), BADGE_CODE_PART_HEX_SUFFIX) == 66 <==> script[33..73] == CodeSuffix()
  {
    var h, suffix := HexEncode(script), BADGE_CODE_PART_HEX_SUFFIX;
    SuffixIsHex();
    HexSliceIs(script, 33, 73, suffix);
    if OccursAt(h, suffix, 66) {
      forall k | 0 <= k < 66 ensures !OccursAt(h, suffix, k) {
        if OccursAt(h, suffix, k) {
          SuffixOccurrencesDoNotOverlap(h, k, 66);
        }
      }
    }
  }

  lemma PrefixText(script: seq<byte>)
    requires |script| == 83
    ensures BADGE_CODE_PART_HEX_PREFIX <= HexEncode(script) <==> script[..13] == CodePrefix()
  {
    PrefixIsHex();
    HexSliceIs(script, 0, 13, BADGE_CODE_PART_HEX_PREFIX);
    var h := HexEncode(script);
    assert h[0..26] == h[..26] && script[0..13] == script[..13];
  }

  lemma ScriptLengths()
    ensures |BADGE_CODE_PART_HEX_PREFIX| == 26 && |BADGE_CODE_PART_HEX_SUFFIX| == 80
    ensures |BADGE_DATA_PART_HEX_PREFIX| == 4 && BADGE_LOCKING_SCRIPT_LEN == 83
  {
  }

  lemma TextChecksLayout(script: seq<byte>)
    ensures PassesTextChecks(script) <==> HasBadgeLayout(script)
  {
    ScriptLengths();
    if |script| == 83 {
      PrefixText(script);
      SuffixIndex(script);
      DataPushText(script);
    }
  }

  lemma ParserChecksLayout(script: seq<byte>)
    ensures ParseBadgeVoutScript(script) ==
            if HasBadgeLayout(script) && Wrap(FromLittleEndian(script[75..])) >= 0
            then Some(BadgeVout(script[13..33], Wrap(FromLittleEndian(script[75..])))) else None
  {
    TextChecksLayout(script);
    if HasBadgeLayout(script) {
      LayoutIsRead(script);
    }
  }

  lemma LayoutIsRead(script: seq<byte>)
    requires |script| == 83 && PassesTextChecks(script)
    ensures ParseBadgeVoutScript(script) ==
            var value := Wrap(FromLittleEndian(script[75..]));
            if value < 0 then None else Some(BadgeVout(script[13..33], value))
  {
    hide PassesTextChecks, HexEncode, Wrap, FromLittleEndian;
    ScriptLengths();
  }

  /** A printed script has the layout exactly when the hash has 20 bytes. */
  lemma PrinterLayout(address: seq<byte>, value: int)
    requires 0 <= value && |address| == PUBKEY_HASH_LEN
    ensures var s := CreateBadgeLockScript(address, value).value;
            HasBadgeLayout(s) && s[13..33] == address && s[75..] == Int64ToBytes(value)
  {
    hide CodePrefix, CodeSuffix, Int64ToBytes;
    IntLength(value);
  }

  lemma IntLength(value: int)
    ensures |Int64ToBytes(value)| == BADGE_DATA_LEN
  {
  }

  lemma LayoutIsPrinted(script: seq<byte>)
    requires HasBadgeLayout(script)
    ensures script == CodePrefix() + script[13..33] + CodeSuffix() + [OP_RETURN, OP_DATA_8] + script[75..]
  {
    hide CodePrefix, CodeSuffix;
    assert script[73..75] == [OP_RETURN, OP_DATA_8];
    assert script == script[..13] + script[13..33] + script[33..73] + script[73..75] + script[75..];
  }

  /**
   * Printer and parser are inverse: the parser accepts a script and reads (hash, value) from it
   * exactly when the hash has 20 bytes, the value is a non-negative int64, and the script is the
   * one the printer makes of them.
   */
  lemma ParserInvertsPrinter(script: seq<byte>, address: seq<byte>, value: int)
    ensures ParseBadgeVoutScript(script) == Some(BadgeVout(address, value)) <==>
            && |address| == PUBKEY_HASH_LEN
            && 0 <= value <= MAX_INT64
            && CreateBadgeLockScript(address, value) == Some(script)
  {
    ParserChecksLayout(script);
    Pow256Of8();
    if |address| == PUBKEY_HASH_LEN && 0 <= value <= MAX_INT64
       && CreateBadgeLockScript(address, value) == Some(script)
    {
      PrinterLayout(address, value);
      LittleEndianRoundTrip(value, 8);
    }
    if HasBadgeLayout(script) && Wrap(FromLittleEndian(script[75..])) >= 0 {
      var n := FromLittleEndian(script[75..]);
      FromLittleEndianRoundTrip(script[75..]);
      assert 0 <= n < TWO_64 && Wrap(n) == n by { WrapOfUnsigned(n); }
      LayoutIsPrinted(script);
    }
  }

  lemma WrapOfUnsigned(n: int)
    requires 0 <= n < TWO_64 && Wrap(n) >= 0
    ensures Wrap(n) == n <= MAX_INT64
  {
  }

  /** Only 20-byte hashes survive the round trip: any other length is not a badge output. */
  lemma OtherHashLengthsAreNotBadges(address: seq<byte>, value: int)
    requires value >= 0 && |address| != PUBKEY_HASH_LEN
    ensures ParseBadgeVoutScript(CreateBadgeLockScript(address, value).value) == None
  {
    SuffixIsHex();
    PrefixIsHex();
  }

  // ----- the script in full

  lemma HexEncodeConcat(s: seq<byte>, t: seq<byte>)
    ensures HexEncode(s + t) == HexEncode(s) + HexEncode(t)
  {
    HexEncodeSlice(s + t, 0, |s|);
    HexEncodeSlice(s + t, |s|, |s + t|);
    hide HexEncode;
    assert (s + t)[0..|s|] == s && (s + t)[|s|..|s + t|] == t;
    var h := HexEncode(s + t);
    assert h == h[2 * 0..2 * |s|] + h[2 * |s|..2 * |s + t|];
  }

  /** The hexadecimal text of every printed script, character by character. */
  lemma PrintedText(address: seq<byte>, value: int)
    requires value >= 0
    ensures HexEncode(CreateBadgeLockScript(address, value).value) ==
            "5101400100015101b101b26114" + HexEncode(address)
            + ("005179517a7561587905" + "626164676587695979a9" + "517987695a795a79ac77" + "77777777777777777777")
            + "6a08" + HexEncode(Int64ToBytes(value))
  {
    PrefixIsHex();
    SuffixIsHex();
    HexDecodeEncode(BADGE_CODE_PART_HEX_PREFIX);
    HexDecodeEncode(BADGE_CODE_PART_HEX_SUFFIX);
    var op: seq<byte> := [OP_RETURN, OP_DATA_8];
    PushText();
    hide HexEncode, HexDecode, Int64ToBytes, IsLowerHex;
    HexEncodeConcat(CodePrefix(), address);
    HexEncodeConcat(CodePrefix() + address, CodeSuffix());
    HexEncodeConcat(CodePrefix() + address + CodeSuffix(), op);
    HexEncodeConcat(CodePrefix() + address + CodeSuffix() + op, Int64ToBytes(value));
  }

  lemma PushText()
    ensures HexEncode([OP_RETURN, OP_DATA_8]) == "6a08"
  {
    assert HexDigit(6) == '6' && HexDigit(10) == 'a' && HexDigit(0) == '0' && HexDigit(8) == '8';
  }
}
