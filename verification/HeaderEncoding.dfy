/**
 * How an argument value becomes an HTTP field value: as it is when that is safe, otherwise as the Base64 of its UTF-8
 * bytes between two sentinels. A `char` here is a Unicode scalar value, so a `string` is a well-formed Unicode string.
 */
module HeaderEncoding {
  import opened Options
  import opened Text

  const SENTINEL_PREFIX := "=?base64?"
  const SENTINEL_SUFFIX := "?="

  type Byte = b: int | 0 <= b < 256

  // ----- UTF-8, section 3 of RFC 3629 -----

  function Utf8Char(c: char): seq<Byte> {
    var n := c as int;
    if n < 0x80 then [n]
    else if n < 0x800 then [0xC0 + n / 64, 0x80 + n % 64]
    else if n < 0x1_0000 then [0xE0 + n / 4096, 0x80 + n / 64 % 64, 0x80 + n % 64]
    else [0xF0 + n / 262144, 0x80 + n / 4096 % 64, 0x80 + n / 64 % 64, 0x80 + n % 64]
  }

  function Utf8(s: string): seq<Byte> {
    if s == "" then [] else Utf8Char(s[0]) + Utf8(s[1..])
  }

  predicate IsScalar(n: int) {
    0 <= n < 0xD800 || 0xE000 <= n < 0x11_0000
  }

  predicate IsContinuation(b: Byte) {
    0x80 <= b < 0xC0
  }

  /** The length of the sequence a lead byte announces; zero when it cannot lead. */
  function SequenceLength(b: Byte): nat {
    if b < 0x80 then 1
    else if 0xC2 <= b < 0xE0 then 2
    else if 0xE0 <= b < 0xF0 then 3
    else if 0xF0 <= b < 0xF5 then 4
    else 0
  }

  function Payload(b: Byte): int {
    b - 0x80
  }

  /** The number a sequence of 1 to 4 bytes spells. */
  function Assemble(bytes: seq<Byte>): int
    requires 1 <= |bytes| <= 4
  {
    if |bytes| == 1 then bytes[0]
    else if |bytes| == 2 then (bytes[0] as int - 0xC0) * 64 + Payload(bytes[1])
    else if |bytes| == 3 then (bytes[0] as int - 0xE0) * 4096 + Payload(bytes[1]) * 64 + Payload(bytes[2])
    else (bytes[0] as int - 0xF0) * 262144 + Payload(bytes[1]) * 4096 + Payload(bytes[2]) * 64 + Payload(bytes[3])
  }

  /** The smallest number each length may spell. */
  function Smallest(len: nat): int {
    if len == 3 then 0x800 else if len == 4 then 0x1_0000 else 0
  }

  /** Reads one scalar value: no stray or missing continuation, no overlong form, no surrogate. */
  function DecodeChar(bytes: seq<Byte>): Option<(char, nat)>
    requires bytes != []
  {
    var len := SequenceLength(bytes[0]);
    if len == 0 || |bytes| < len || (exists i | 1 <= i < len :: !IsContinuation(bytes[i])) then None else
    var n := Assemble(bytes[..len]);
    if IsScalar(n) && Smallest(len) <= n then Some((n as char, len)) else None
  }

  function DecodeUtf8(bytes: seq<Byte>): Option<string>
    decreases |bytes|
  {
    if bytes == [] then Some("") else
    var first := DecodeChar(bytes);
    if first.None? || first.value.1 == 0 || first.value.1 > |bytes| then None else
    var rest := DecodeUtf8(bytes[first.value.1..]);
    if rest.None? then None else Some([first.value.0] + rest.value)
  }

  lemma Utf8CharShape(c: char)
    ensures
      var bytes := Utf8Char(c);
      && 1 <= |bytes| <= 4
      && SequenceLength(bytes[0]) == |bytes|
      && (forall i | 1 <= i < |bytes| :: IsContinuation(bytes[i]))
  {
  }

  lemma AssembleInverts(c: char)
    ensures Assemble(Utf8Char(c)) == c as int && Smallest(|Utf8Char(c)|) <= c as int
  {
    var n := c as int;
    assert n / 4096 == n / 64 / 64 && n / 262144 == n / 64 / 64 / 64;
  }

  lemma DecodeCharInverts(c: char, rest: seq<Byte>)
    ensures DecodeChar(Utf8Char(c) + rest) == Some((c, |Utf8Char(c)|))
  {
    var head := Utf8Char(c);
    Utf8CharShape(c);
    AssembleInverts(c);
    assert (head + rest)[..|head|] == head;
  }

  lemma {:induction false} Utf8RoundTrip(s: string)
    ensures DecodeUtf8(Utf8(s)) == Some(s)
  {
    if s != "" {
      DecodeCharInverts(s[0], Utf8(s[1..]));
      Utf8CharShape(s[0]);
      var head, tail := Utf8Char(s[0]), Utf8(s[1..]);
      assert Utf8(s) == head + tail && (head + tail)[|head|..] == tail;
      Utf8RoundTrip(s[1..]);
      assert s == [s[0]] + s[1..];
    }
  }

  /** The bits of a scalar value in its bytes, as the table of section 3 of RFC 3629 lays them out. */
  lemma Utf8Layout(c: char)
    ensures
      var n, b := c as int, Utf8Char(c);
      && (n <= 0x7F ==> |b| == 1 && b[0] == n)
      && (0x80 <= n <= 0x7FF ==> |b| == 2 && 0xC0 <= b[0] < 0xE0 && n == (b[0] as int - 0xC0) * 64 + Payload(b[1]))
      && (0x800 <= n <= 0xFFFF ==>
            |b| == 3 && 0xE0 <= b[0] < 0xF0 && n == (b[0] as int - 0xE0) * 4096 + Payload(b[1]) * 64 + Payload(b[2]))
      && (0x1_0000 <= n ==>
            && |b| == 4 && 0xF0 <= b[0] < 0xF8
            && n == (b[0] as int - 0xF0) * 262144 + Payload(b[1]) * 4096 + Payload(b[2]) * 64 + Payload(b[3]))
      && forall i | 1 <= i < |b| :: 0x80 <= b[i] < 0xC0
  {
    Utf8CharShape(c);
    AssembleInverts(c);
  }

  // ----- Base64, section 4 of RFC 4648 -----

  function Char64(i: int): char
    requires 0 <= i < 64
  {
    if i < 26 then ('A' as int + i) as char
    else if i < 52 then ('a' as int + (i - 26)) as char
    else if i < 62 then ('0' as int + (i - 52)) as char
    else if i == 62 then '+' else '/'
  }

  function Value64(c: char): Option<int>
    ensures Value64(c).Some? ==> 0 <= Value64(c).value < 64
  {
    if 'A' <= c <= 'Z' then Some(c as int - 'A' as int)
    else if 'a' <= c <= 'z' then Some(c as int - 'a' as int + 26)
    else if '0' <= c <= '9' then Some(c as int - '0' as int + 52)
    else if c == '+' then Some(62)
    else if c == '/' then Some(63)
    else None
  }

  function Base64(bytes: seq<Byte>): string
    decreases |bytes|
  {
    if bytes == [] then ""
    else if |bytes| == 1 then
      [Char64(bytes[0] / 4), Char64(bytes[0] % 4 * 16), '=', '=']
    else if |bytes| == 2 then
      [Char64(bytes[0] / 4), Char64(bytes[0] % 4 * 16 + bytes[1] / 16), Char64(bytes[1] % 16 * 4), '=']
    else
      [Char64(bytes[0] / 4), Char64(bytes[0] % 4 * 16 + bytes[1] / 16),
       Char64(bytes[1] % 16 * 4 + bytes[2] / 64), Char64(bytes[2] % 64)] + Base64(bytes[3..])
  }

  /** Four characters to three bytes; padding ends the text. */
  function DecodeBase64(s: string): Option<seq<Byte>>
    decreases |s|
  {
    if s == "" then Some([])
    else if |s| < 4 then None else
    var a, b, c, d := Value64(s[0]), Value64(s[1]), Value64(s[2]), Value64(s[3]);
    if a.None? || b.None? then None
    else if s[2] == '=' && s[3] == '=' && |s| == 4 then
      if b.value % 16 == 0 then Some([a.value * 4 + b.value / 16]) else None
    else if c.None? then None
    else if s[3] == '=' && |s| == 4 then
      if c.value % 4 == 0 then Some([a.value * 4 + b.value / 16, b.value % 16 * 16 + c.value / 4]) else None
    else if d.None? then None else
    var rest := DecodeBase64(s[4..]);
    if rest.None? then None else
    Some([a.value * 4 + b.value / 16, b.value % 16 * 16 + c.value / 4, c.value % 4 * 64 + d.value] + rest.value)
  }

  lemma Value64Inverts(i: int)
    requires 0 <= i < 64
    ensures Value64(Char64(i)) == Some(i) && Char64(i) != '='
  {
  }

  lemma DecodePadded1(a: int, b: int)
    requires 0 <= a < 64 && 0 <= b < 64 && b % 16 == 0
    ensures DecodeBase64([Char64(a), Char64(b), '=', '=']) == Some([a * 4 + b / 16])
  {
    Value64Inverts(a);
    Value64Inverts(b);
  }

  lemma DecodePadded2(a: int, b: int, c: int)
    requires 0 <= a < 64 && 0 <= b < 64 && 0 <= c < 64 && c % 4 == 0
    ensures DecodeBase64([Char64(a), Char64(b), Char64(c), '=']) == Some([a * 4 + b / 16, b % 16 * 16 + c / 4])
  {
    Value64Inverts(a);
    Value64Inverts(b);
    Value64Inverts(c);
  }

  lemma DecodeGroup(a: int, b: int, c: int, d: int, rest: string)
    requires 0 <= a < 64 && 0 <= b < 64 && 0 <= c < 64 && 0 <= d < 64
    requires DecodeBase64(rest).Some?
    ensures
      DecodeBase64([Char64(a), Char64(b), Char64(c), Char64(d)] + rest) ==
      Some([a * 4 + b / 16, b % 16 * 16 + c / 4, c % 4 * 64 + d] + DecodeBase64(rest).value)
  {
    Value64Inverts(a);
    Value64Inverts(b);
    Value64Inverts(c);
    Value64Inverts(d);
    assert ([Char64(a), Char64(b), Char64(c), Char64(d)] + rest)[4..] == rest;
  }

  /** Three bytes cut into four sextets and put together again. */
  lemma SextetsInvert(x: int, y: int, z: int)
    requires 0 <= x < 256 && 0 <= y < 256 && 0 <= z < 256
    ensures
      var a, b, c, d := x / 4, x % 4 * 16 + y / 16, y % 16 * 4 + z / 64, z % 64;
      && 0 <= a < 64 && 0 <= b < 64 && 0 <= c < 64 && 0 <= d < 64
      && (a * 4 + b / 16 == x && b % 16 * 16 + c / 4 == y && c % 4 * 64 + d == z)
      && (y == 0 ==> b % 16 == 0) && (z == 0 ==> c % 4 == 0)
  {
  }

  lemma LastByteRoundTrip(x: Byte, a: int, b: int)
    requires a == x / 4 && b == x % 4 * 16
    ensures 0 <= a < 64 && 0 <= b < 64 && DecodeBase64([Char64(a), Char64(b), '=', '=']) == Some([x])
  {
    SextetsInvert(x, 0, 0);
    DecodePadded1(a, b);
  }

  lemma LastTwoRoundTrip(x: Byte, y: Byte, a: int, b: int, c: int)
    requires a == x / 4 && b == x % 4 * 16 + y / 16 && c == y % 16 * 4
    ensures 0 <= a < 64 && 0 <= b < 64 && 0 <= c < 64
    ensures DecodeBase64([Char64(a), Char64(b), Char64(c), '=']) == Some([x, y])
  {
    SextetsInvert(x, y, 0);
    DecodePadded2(a, b, c);
  }

  /** `a`, `b`, `c` and `d` are the sextets of the first three bytes. */
  predicate AreSextets(a: int, b: int, c: int, d: int, bytes: seq<Byte>) {
    && |bytes| >= 3 && 0 <= a < 64 && 0 <= b < 64 && 0 <= c < 64 && 0 <= d < 64
    && a * 4 + b / 16 == bytes[0] && b % 16 * 16 + c / 4 == bytes[1] && c % 4 * 64 + d == bytes[2]
  }

  lemma GroupText(bytes: seq<Byte>) returns (a: int, b: int, c: int, d: int)
    requires |bytes| >= 3
    ensures AreSextets(a, b, c, d, bytes)
    ensures Base64(bytes) == [Char64(a), Char64(b), Char64(c), Char64(d)] + Base64(bytes[3..])
  {
    var x, y, z := bytes[0], bytes[1], bytes[2];
    SextetsInvert(x, y, z);
    a, b, c, d := x / 4, x % 4 * 16 + y / 16, y % 16 * 4 + z / 64, z % 64;
  }

  lemma GroupRoundTrip(bytes: seq<Byte>, a: int, b: int, c: int, d: int, text: string)
    requires AreSextets(a, b, c, d, bytes) && DecodeBase64(text) == Some(bytes[3..])
    ensures DecodeBase64([Char64(a), Char64(b), Char64(c), Char64(d)] + text) == Some(bytes)
  {
    DecodeGroup(a, b, c, d, text);
    assert bytes == [bytes[0], bytes[1], bytes[2]] + bytes[3..];
  }

  lemma ShortRoundTrip(bytes: seq<Byte>)
    requires |bytes| < 3
    ensures DecodeBase64(Base64(bytes)) == Some(bytes)
  {
    if |bytes| == 1 {
      LastByteRoundTrip(bytes[0], bytes[0] / 4, bytes[0] % 4 * 16);
      assert bytes == [bytes[0]];
    } else if |bytes| == 2 {
      var x, y := bytes[0], bytes[1];
      LastTwoRoundTrip(x, y, x / 4, x % 4 * 16 + y / 16, y % 16 * 4);
      assert bytes == [x, y];
    }
  }

  lemma {:induction false} Base64RoundTrip(bytes: seq<Byte>)
    ensures DecodeBase64(Base64(bytes)) == Some(bytes)
    decreases |bytes|
  {
    if |bytes| < 3 {
      ShortRoundTrip(bytes);
    } else {
      Base64RoundTrip(bytes[3..]);
      var a, b, c, d := GroupText(bytes);
      GroupRoundTrip(bytes, a, b, c, d, Base64(bytes[3..]));
    }
  }

  /** Table 1 of RFC 4648: capitals, small letters, digits, plus and slash, in order. */
  lemma AlphabetIsTheTable(i: int)
    requires 0 <= i < 64
    ensures
      var c := Char64(i) as int;
      && (i <= 25 ==> c == 65 + i) && (26 <= i <= 51 ==> c == 97 + i - 26) && (52 <= i <= 61 ==> c == 48 + i - 52)
      && (i == 62 ==> c == 43) && (i == 63 ==> c == 47)
  {
  }

  /** Two of the examples in section 10 of RFC 4648: "foob" and "foo". */
  lemma ExamplesOfTheStandard()
    ensures Base64([0x66, 0x6F, 0x6F, 0x62]) == "Zm9vYg=="
    ensures Base64([0x66, 0x6F, 0x6F]) == "Zm9v"
  {
    var four: seq<Byte>, three: seq<Byte> := [0x66, 0x6F, 0x6F, 0x62], [0x66, 0x6F, 0x6F];
    assert four[3..] == [0x62] && three[3..] == [];
    assert Base64([0x62]) == "Yg==";
  }

  /** Twenty-four bits read as four sextets instead of three bytes, first bits first. */
  lemma SextetsAreTheBits(bytes: seq<Byte>) returns (a: int, b: int, c: int, d: int)
    requires |bytes| >= 3
    ensures 0 <= a < 64 && 0 <= b < 64 && 0 <= c < 64 && 0 <= d < 64
    ensures a * 262144 + b * 4096 + c * 64 + d == bytes[0] as int * 65536 + bytes[1] as int * 256 + bytes[2]
    ensures Base64(bytes) == [Char64(a), Char64(b), Char64(c), Char64(d)] + Base64(bytes[3..])
  {
    a, b, c, d := GroupText(bytes);
  }

  /** Sixteen bits left over make three characters and a pad, eight make two and two; missing bits are zeros. */
  lemma PaddingIsTheBits(bytes: seq<Byte>) returns (a: int, b: int, c: int)
    requires 1 <= |bytes| <= 2
    ensures 0 <= a < 64 && 0 <= b < 64 && 0 <= c < 64
    ensures
      if |bytes| == 1
      then Base64(bytes) == [Char64(a), Char64(b), '=', '='] && a * 64 + b == bytes[0] as int * 16
      else
        && Base64(bytes) == [Char64(a), Char64(b), Char64(c), '=']
        && a * 4096 + b * 64 + c == (bytes[0] as int * 256 + bytes[1]) * 4
  {
    a, b, c := bytes[0] / 4, bytes[0] % 4 * 16, 0;
    if |bytes| == 2 {
      b, c := bytes[0] % 4 * 16 + bytes[1] / 16, bytes[1] % 16 * 4;
    }
  }

  predicate IsBase64Char(c: char) {
    Value64(c).Some? || c == '='
  }

  lemma {:induction false} Base64Alphabet(bytes: seq<Byte>)
    ensures forall c <- Base64(bytes) :: IsBase64Char(c)
    decreases |bytes|
  {
    if |bytes| >= 3 {
      Base64Alphabet(bytes[3..]);
    }
  }

  // ----- The field value -----

  predicate StartsWith(s: string, prefix: string) {
    |prefix| <= |s| && s[..|prefix|] == prefix
  }

  predicate EndsWith(s: string, suffix: string) {
    |suffix| <= |s| && s[|s| - |suffix|..] == suffix
  }

  predicate IsSentinelShaped(s: string) {
    StartsWith(s, SENTINEL_PREFIX) && EndsWith(s, SENTINEL_SUFFIX)
  }

  predicate IsFieldChar(c: char) {
    c as int == 9 || 32 <= c as int <= 126
  }

  method NeedsBase64(s: string) returns (needed: bool)
    ensures needed <==> !IsFieldValue(s) || IsSentinelShaped(s)
  {
    if |s| == 0 {
      return true;
    }
    if StartsWith(s, SENTINEL_PREFIX) && EndsWith(s, SENTINEL_SUFFIX) {
      return true;
    }
    if !IsTrimmed(s) {
      assert s[0] in s && s[|s| - 1] in s;
      return true;
    }
    for i := 0 to |s|
      invariant forall j | 0 <= j < i :: IsFieldChar(s[j])
    {
      var c := s[i] as int;
      if c == 9 || (c >= 32 && c <= 126) {
        continue;
      }
      assert s[i] in s;
      return true;
    }
    return false;
  }

  /** A plain field value of section 5.5 of RFC 9110: visible ASCII, with spaces and tabs only inside. */
  predicate IsFieldValue(s: string) {
    && s != ""
    && (forall c <- s :: IsFieldChar(c))
    && s[0] !in {' ', '\t'} && s[|s| - 1] !in {' ', '\t'}
  }

  function Encode(value: string): string {
    if !IsFieldValue(value) || IsSentinelShaped(value)
    then SENTINEL_PREFIX + Base64(Utf8(value)) + SENTINEL_SUFFIX
    else value
  }

  method EncodeMcpParamValue(value: string) returns (encoded: string)
    ensures encoded == Encode(value)
  {
    var needed := NeedsBase64(value);
    encoded := if needed then SENTINEL_PREFIX + Base64(Utf8(value)) + SENTINEL_SUFFIX else value;
  }

  /** How a receiver reads a field value back. */
  function Decode(field: string): Option<string> {
    var inner := |field| - |SENTINEL_PREFIX| - |SENTINEL_SUFFIX|;
    if !(IsSentinelShaped(field) && 0 <= inner) then Some(field) else
    var bytes := DecodeBase64(field[|SENTINEL_PREFIX|..|SENTINEL_PREFIX| + inner]);
    if bytes.None? then None else DecodeUtf8(bytes.value)
  }

  /** Every well-formed Unicode string survives the header. */
  lemma EncodeRoundTrip(value: string)
    ensures Decode(Encode(value)) == Some(value)
  {
    if !IsFieldValue(value) || IsSentinelShaped(value) {
      var body := Base64(Utf8(value));
      var field := SENTINEL_PREFIX + body + SENTINEL_SUFFIX;
      assert field[..|SENTINEL_PREFIX|] == SENTINEL_PREFIX;
      assert field[|field| - |SENTINEL_SUFFIX|..] == SENTINEL_SUFFIX;
      assert field[|SENTINEL_PREFIX|..|SENTINEL_PREFIX| + |body|] == body;
      Base64RoundTrip(Utf8(value));
      Utf8RoundTrip(value);
    }
  }

  /** Two values never share a header. */
  lemma EncodeInjective(a: string, b: string)
    requires Encode(a) == Encode(b)
    ensures a == b
  {
    EncodeRoundTrip(a);
    EncodeRoundTrip(b);
  }

  lemma {:induction false} Utf8Grows(s: string)
    ensures |s| <= |Utf8(s)|
  {
    if s != "" {
      Utf8Grows(s[1..]);
    }
  }

  lemma {:induction false} Base64Grows(bytes: seq<Byte>)
    ensures |bytes| <= |Base64(bytes)|
    decreases |bytes|
  {
    if |bytes| >= 3 {
      Base64Grows(bytes[3..]);
    }
  }

  lemma EncodingGrows(s: string)
    ensures |s| <= |Base64(Utf8(s))|
  {
    Utf8Grows(s);
    Base64Grows(Utf8(s));
  }

  /**
   * Whatever the value, the header carries a legal field value that parsing will not trim; a safe value goes out as
   * it is.
   */
  lemma EncodeIsLegal(value: string)
    ensures IsFieldValue(Encode(value))
    ensures Encode(value) == value <==> IsFieldValue(value) && !IsSentinelShaped(value)
  {
    var body := Base64(Utf8(value));
    Base64Alphabet(Utf8(value));
    WrappedIsLegal(body);
    EncodingGrows(value);
  }

  lemma WrappedIsLegal(body: string)
    requires forall c <- body :: IsBase64Char(c)
    ensures IsFieldValue(SENTINEL_PREFIX + body + SENTINEL_SUFFIX)
  {
    var field := SENTINEL_PREFIX + body + SENTINEL_SUFFIX;
    assert forall c <- SENTINEL_PREFIX :: IsFieldChar(c);
    assert forall c <- SENTINEL_SUFFIX :: IsFieldChar(c);
    assert forall c :: IsBase64Char(c) ==> IsFieldChar(c);
    assert field[0] == '=' && field[|field| - 1] == '=';
  }
}
