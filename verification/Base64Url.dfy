/**
 The unpadded base64url pair of section 5 of RFC 4648: the encoder strips the padding, the decoders
 restore it and hand the text to the interpreter's lenient scanner.
 */
module Base64Url {
  import opened Common

  type Byte = b: int | 0 <= b < 256

  type Sextet = v: int | 0 <= v < 64

  // ---------------------------------------------------------------------------
  // The alphabet
  // ---------------------------------------------------------------------------

  /** The URL-safe alphabet: A-Z a-z 0-9 - _ */
  function Symbol(v: Sextet): char {
    if v < 26 then ('A' as int + v) as char
    else if v < 52 then ('a' as int + v - 26) as char
    else if v < 62 then ('0' as int + v - 52) as char
    else if v == 62 then '-'
    else '_'
  }

  predicate IsSymbol(c: char) {
    'A' <= c <= 'Z' || 'a' <= c <= 'z' || '0' <= c <= '9' || c == '-' || c == '_'
  }

  /** Table 2 of section 5 of RFC 4648: where its three runs begin and end, what follows them, and each run letter by letter. */
  lemma SymbolsAreTheAlphabet(v: Sextet)
    ensures v in {0, 26, 52, 62, 63} ==>
              Symbol(v) == if v == 0 then 'A' else if v == 26 then 'a' else if v == 52 then '0' else if v == 62 then '-' else '_'
    ensures v in {25, 51, 61} ==> Symbol(v) == if v == 25 then 'Z' else if v == 51 then 'z' else '9'
    ensures v < 63 && v !in {25, 51, 61, 62} ==> Symbol(v + 1) as int == Symbol(v) as int + 1
  {
  }

  /** What the scanner takes a character for; translating - and _ leaves + and / readable as well. */
  function Value(c: char): Option<Sextet> {
    if 'A' <= c <= 'Z' then Some(c as int - 'A' as int)
    else if 'a' <= c <= 'z' then Some(c as int - 'a' as int + 26)
    else if '0' <= c <= '9' then Some(c as int - '0' as int + 52)
    else if c == '-' || c == '+' then Some(62)
    else if c == '_' || c == '/' then Some(63)
    else None
  }

  lemma ValueOfSymbol(v: Sextet)
    ensures Value(Symbol(v)) == Some(v) && IsSymbol(Symbol(v)) && Symbol(v) as int < 128
  {
  }

  lemma SymbolOfValue(c: char)
    requires IsSymbol(c)
    ensures Value(c).Some? && Symbol(Value(c).value) == c
  {
  }

  // ---------------------------------------------------------------------------
  // Encoding
  // ---------------------------------------------------------------------------

  /** The sextets of a group of three bytes. */
  function Quad(x: Byte, y: Byte, z: Byte): (q: seq<Sextet>)
    ensures |q| == 4
  {
    [x / 4, x % 4 * 16 + y / 16, y % 16 * 4 + z / 64, z % 64]
  }

  function Text(q: seq<Sextet>): string {
    if q == [] then "" else [Symbol(q[0])] + Text(q[1..])
  }

  /** base64.urlsafe_b64encode: the last group is filled up with zero bits and '='. */
  function PaddedEncode(raw: seq<Byte>): string {
    if raw == [] then ""
    else if |raw| == 1 then Text(Quad(raw[0], 0, 0)[..2]) + "=="
    else if |raw| == 2 then Text(Quad(raw[0], raw[1], 0)[..3]) + "="
    else Text(Quad(raw[0], raw[1], raw[2])) + PaddedEncode(raw[3..])
  }

  /** rstrip("="). */
  function StripPadding(s: string): string {
    if s != "" && s[|s| - 1] == '=' then StripPadding(s[..|s| - 1]) else s
  }

  function Encode(raw: seq<Byte>): string {
    StripPadding(PaddedEncode(raw))
  }

  // ---------------------------------------------------------------------------
  // Decoding
  // ---------------------------------------------------------------------------

  /**
   The scanner behind base64.urlsafe_b64decode, from a position within a quad on.  Foreign characters are
   skipped; '=' counts only from the third place of a quad on, and enough of them end the text; what a
   quad holds left over must be padded.
   */
  function Scan(s: string, quad: nat, left: nat, pads: nat): Option<seq<Byte>>
    requires quad < 4 && left < 64 && (quad == 2 ==> left < 16) && (quad == 3 ==> left < 4)
  {
    if s == "" then if quad == 0 then Some([]) else None
    else if s[0] == '=' then
      if quad >= 2 && quad + pads + 1 >= 4 then Some([])
      else Scan(s[1..], quad, left, if quad >= 2 then pads + 1 else pads)
    else
      var value := Value(s[0]);
      if value.None? then Scan(s[1..], quad, left, pads)
      else
        var v := value.value;
        if quad == 0 then Scan(s[1..], 1, v, 0)
        else if quad == 1 then Then(left * 4 + v / 16, Scan(s[1..], 2, v % 16, 0))
        else if quad == 2 then Then(left * 16 + v / 4, Scan(s[1..], 3, v % 4, 0))
        else Then(left * 64 + v, Scan(s[1..], 0, 0, 0))
  }

  function Then(b: Byte, rest: Option<seq<Byte>>): Option<seq<Byte>> {
    if rest.Some? then Some([b] + rest.value) else None
  }

  function Repeat(n: nat): string {
    if n == 0 then "" else "=" + Repeat(n - 1)
  }

  /** "=" * (-len(v) % 4), with the floor modulus. */
  function Padding(n: nat): nat {
    (-(n as int)) % 4
  }

  predicate IsAscii(v: string) {
    forall k | 0 <= k < |v| :: v[k] as int < 128
  }

  /** The common part of _decode_b64url_32 and _decode_b64url; None is the ValueError. */
  function Decode(v: string): Option<seq<Byte>> {
    var padded := v + Repeat(Padding(|v|));
    if !IsAscii(padded) then None else Scan(padded, 0, 0, 0)
  }

  /** _decode_b64url with its length bounds. */
  function DecodeBetween(v: string, minLength: nat, maxLength: nat): Option<seq<Byte>> {
    var raw := Decode(v);
    if raw.Some? && minLength <= |raw.value| <= maxLength then raw else None
  }

  /** A request field: its text length is bounded and it decodes within its byte bounds. */
  function Field(v: string, maxText: nat, minLength: nat, maxLength: nat): Option<seq<Byte>> {
    if 1 <= |v| <= maxText then DecodeBetween(v, minLength, maxLength) else None
  }

  function Ciphertext(v: string): Option<seq<Byte>> { Field(v, 131072, 1, 65536) }
  function Nonce(v: string): Option<seq<Byte>> { Field(v, 32, 12, 12) }
  function PublicKey(v: string): Option<seq<Byte>> { Field(v, 128, 32, 32) }

  // ---------------------------------------------------------------------------
  // Round trip
  // ---------------------------------------------------------------------------

  /** The sextets of a byte string, and the whole bytes of a string of sextets. */
  function Sextets(raw: seq<Byte>): seq<Sextet> {
    if raw == [] then []
    else if |raw| == 1 then Quad(raw[0], 0, 0)[..2]
    else if |raw| == 2 then Quad(raw[0], raw[1], 0)[..3]
    else Quad(raw[0], raw[1], raw[2]) + Sextets(raw[3..])
  }

  function Bytes(q: seq<Sextet>): seq<Byte> {
    if |q| < 2 then []
    else if |q| == 2 then [First(q[0], q[1])]
    else if |q| == 3 then [First(q[0], q[1]), Second(q[1], q[2])]
    else Group(q[0], q[1], q[2], q[3]) + Bytes(q[4..])
  }

  function First(a: Sextet, b: Sextet): (x: Byte)
    ensures x / 4 == a && x % 4 == b / 16
  {
    a * 4 + b / 16
  }

  function Second(b: Sextet, c: Sextet): (y: Byte)
    ensures y / 16 == b % 16 && y % 16 == c / 4
  {
    b % 16 * 16 + c / 4
  }

  function Third(c: Sextet, d: Sextet): (z: Byte)
    ensures z / 64 == c % 4 && z % 64 == d
  {
    c % 4 * 64 + d
  }

  lemma Split4(q: int, r: int)
    requires 0 <= r < 4
    ensures (q * 4 + r) / 4 == q && (q * 4 + r) % 4 == r
  {
  }

  lemma Split16(q: int, r: int)
    requires 0 <= r < 16
    ensures (q * 16 + r) / 16 == q && (q * 16 + r) % 16 == r
  {
  }

  lemma Rejoin(b: Sextet, c: Sextet)
    ensures b / 16 * 16 + b % 16 == b && c / 4 * 4 + c % 4 == c
  {
  }

  /** Six bits and two, four and four, two and six. */
  lemma QuadFromParts(x: Byte, y: Byte, z: Byte, a: Sextet, b: Sextet, c: Sextet, d: Sextet)
    requires x / 4 == a && x % 4 == b / 16
    requires y / 16 == b % 16 && y % 16 == c / 4
    requires z / 64 == c % 4 && z % 64 == d
    ensures Quad(x, y, z) == [a, b, c, d]
  {
    Rejoin(b, c);
  }

  lemma QuadOfBytes(a: Sextet, b: Sextet, c: Sextet, d: Sextet)
    ensures Quad(First(a, b), Second(b, c), Third(c, d)) == [a, b, c, d]
  {
    QuadFromParts(First(a, b), Second(b, c), Third(c, d), a, b, c, d);
  }

  lemma BytesOfQuad(x: Byte, y: Byte, z: Byte)
    ensures var q := Quad(x, y, z);
            First(q[0], q[1]) == x && Second(q[1], q[2]) == y && Third(q[2], q[3]) == z
  {
  }

  /** The bits of the last sextet that no byte takes are zero. */
  predicate ZeroTail(q: seq<Sextet>) {
    && (|q| % 4 == 2 ==> q[|q| - 1] % 16 == 0)
    && (|q| % 4 == 3 ==> q[|q| - 1] % 4 == 0)
  }

  /** The bytes of a whole group, as a function so that equal groups are seen to have equal bytes. */
  function Group(a: Sextet, b: Sextet, c: Sextet, d: Sextet): seq<Byte> {
    [First(a, b), Second(b, c), Third(c, d)]
  }

  lemma BytesOfGroup(x: Byte, y: Byte, z: Byte, rest: seq<Sextet>)
    ensures Bytes(Quad(x, y, z) + rest) == [x, y, z] + Bytes(rest)
  {
    BytesOfQuad(x, y, z);
    var quad := Quad(x, y, z);
    assert (quad + rest)[4..] == rest;
    assert Group(quad[0], quad[1], quad[2], quad[3]) == [x, y, z];
  }

  lemma TailBehindAGroup(quad: seq<Sextet>, rest: seq<Sextet>)
    requires |quad| == 4 && |rest| % 4 != 1 && ZeroTail(rest)
    ensures ZeroTail(quad + rest)
  {
    if rest != [] {
      assert (quad + rest)[|quad + rest| - 1] == rest[|rest| - 1];
      assert |quad + rest| % 4 == |rest| % 4;
    }
  }

  lemma {:induction false} SextetsLength(raw: seq<Byte>)
    ensures |Sextets(raw)| == (4 * |raw| + 2) / 3 && |Sextets(raw)| % 4 != 1
  {
    if |raw| >= 3 {
      SextetsLength(raw[3..]);
    }
  }

  lemma FirstOfParts(x: Byte, a: Sextet, b: Sextet)
    requires a == x / 4 && b / 16 == x % 4
    ensures First(a, b) == x
  {
  }

  lemma SecondOfParts(y: Byte, b: Sextet, c: Sextet)
    requires b % 16 == y / 16 && c / 4 == y % 16
    ensures Second(b, c) == y
  {
  }

  lemma BytesOfOne(x: Byte, q: seq<Sextet>)
    requires q == [x / 4, x % 4 * 16]
    ensures Bytes(q) == [x] && q[1] % 16 == 0
  {
    Split16(x % 4, 0);
    FirstOfParts(x, q[0], q[1]);
  }

  lemma BytesOfTwo(x: Byte, y: Byte, q: seq<Sextet>)
    requires q == [x / 4, x % 4 * 16 + y / 16, y % 16 * 4]
    ensures Bytes(q) == [x, y] && q[2] % 4 == 0
  {
    Split16(x % 4, y / 16);
    Split4(y % 16, 0);
    FirstOfParts(x, q[0], q[1]);
    SecondOfParts(y, q[1], q[2]);
  }

  lemma {:induction false} SextetsKeepTheBytes(raw: seq<Byte>)
    ensures Bytes(Sextets(raw)) == raw
  {
    if |raw| >= 3 {
      SextetsKeepTheBytes(raw[3..]);
      BytesOfGroup(raw[0], raw[1], raw[2], Sextets(raw[3..]));
      assert raw == [raw[0], raw[1], raw[2]] + raw[3..];
    } else if |raw| == 2 {
      BytesOfTwo(raw[0], raw[1], Sextets(raw));
    } else if |raw| == 1 {
      BytesOfOne(raw[0], Sextets(raw));
    }
  }

  lemma {:induction false} SextetsEndInZeros(raw: seq<Byte>)
    ensures ZeroTail(Sextets(raw))
  {
    if |raw| >= 3 {
      SextetsEndInZeros(raw[3..]);
      SextetsLength(raw[3..]);
      TailBehindAGroup(Quad(raw[0], raw[1], raw[2]), Sextets(raw[3..]));
    } else if |raw| == 2 {
      BytesOfTwo(raw[0], raw[1], Sextets(raw));
    } else if |raw| == 1 {
      BytesOfOne(raw[0], Sextets(raw));
    }
  }

  lemma SextetsOfGroup(a: Sextet, b: Sextet, c: Sextet, d: Sextet, rest: seq<Byte>)
    ensures Sextets(Group(a, b, c, d) + rest) == [a, b, c, d] + Sextets(rest)
  {
    QuadOfBytes(a, b, c, d);
    var group := Group(a, b, c, d);
    assert (group + rest)[3..] == rest;
    assert Quad(group[0], group[1], group[2]) == [a, b, c, d];
  }

  /** Bytes forget only the bits of an incomplete byte. */
  lemma {:induction false} SextetsOfBytes(q: seq<Sextet>)
    requires |q| % 4 != 1 && ZeroTail(q)
    ensures Sextets(Bytes(q)) == q
  {
    if |q| >= 4 {
      assert |q[4..]| % 4 == |q| % 4;
      SextetsOfBytes(q[4..]);
      SextetsOfGroup(q[0], q[1], q[2], q[3], Bytes(q[4..]));
      assert q == [q[0], q[1], q[2], q[3]] + q[4..];
    } else if |q| == 3 {
      QuadFromParts(First(q[0], q[1]), Second(q[1], q[2]), 0, q[0], q[1], q[2], 0);
    } else if |q| == 2 {
      QuadFromParts(First(q[0], q[1]), 0, 0, q[0], q[1], 0, 0);
    }
  }

  // ---------------------------------------------------------------------------
  // Text
  // ---------------------------------------------------------------------------

  predicate AllSymbols(v: string) {
    forall k | 0 <= k < |v| :: IsSymbol(v[k])
  }

  function Values(v: string): seq<Sextet>
    requires AllSymbols(v)
  {
    if v == "" then []
    else
      SymbolOfValue(v[0]);
      [Value(v[0]).value] + Values(v[1..])
  }

  lemma {:induction false} TextOfValues(v: string)
    requires AllSymbols(v)
    ensures |Values(v)| == |v| && Text(Values(v)) == v
  {
    if v != "" {
      SymbolOfValue(v[0]);
      TextOfValues(v[1..]);
      assert Values(v)[1..] == Values(v[1..]);
    }
  }

  lemma {:induction false} TextShape(q: seq<Sextet>)
    ensures |Text(q)| == |q| && AllSymbols(Text(q)) && IsAscii(Text(q)) && Values(Text(q)) == q
  {
    if q != [] {
      TextShape(q[1..]);
      ValueOfSymbol(q[0]);
      assert Text(q)[1..] == Text(q[1..]);
    }
  }

  lemma {:induction false} TextOfConcat(a: seq<Sextet>, b: seq<Sextet>)
    ensures Text(a + b) == Text(a) + Text(b)
  {
    if a == [] {
      assert a + b == b;
    } else {
      assert (a + b)[1..] == a[1..] + b;
      TextOfConcat(a[1..], b);
    }
  }

  lemma {:induction false} RepeatIsPadding(n: nat)
    ensures |Repeat(n)| == n && forall k | 0 <= k < n :: Repeat(n)[k] == '='
  {
    if n > 0 {
      RepeatIsPadding(n - 1);
    }
  }

  lemma ShortRepeats()
    ensures Repeat(0) == "" && Repeat(1) == "=" && Repeat(2) == "=="
  {
    assert Repeat(1) == "=";
  }

  lemma {:induction false} StrippingRepeats(v: string, n: nat)
    requires AllSymbols(v)
    ensures StripPadding(v + Repeat(n)) == v
  {
    RepeatIsPadding(n);
    if n > 0 {
      RepeatIsPadding(n - 1);
      var s := v + Repeat(n);
      assert s[..|s| - 1] == v + Repeat(n - 1);
      StrippingRepeats(v, n - 1);
    } else {
      assert v + Repeat(0) == v;
      if v != "" { assert IsSymbol(v[|v| - 1]); }
    }
  }

  lemma {:induction false} PaddedIsTextAndPadding(raw: seq<Byte>)
    ensures PaddedEncode(raw) == Text(Sextets(raw)) + Repeat(Padding(|Sextets(raw)|))
  {
    ShortRepeats();
    if |raw| >= 3 {
      PaddedIsTextAndPadding(raw[3..]);
      PaddingAfterAGroup(Quad(raw[0], raw[1], raw[2]), Sextets(raw[3..]));
    }
  }

  lemma PaddingAfterAGroup(quad: seq<Sextet>, rest: seq<Sextet>)
    requires |quad| == 4
    ensures Text(quad) + (Text(rest) + Repeat(Padding(|rest|))) == Text(quad + rest) + Repeat(Padding(|quad + rest|))
  {
    TextOfConcat(quad, rest);
    assert Padding(4 + |rest|) == Padding(|rest|);
  }

  /** The encoder's text: symbols only, four for every three bytes, rounded up, and never one over a multiple of four. */
  lemma EncodeShape(raw: seq<Byte>)
    ensures Encode(raw) == Text(Sextets(raw)) && AllSymbols(Encode(raw))
    ensures |Encode(raw)| == (4 * |raw| + 2) / 3 && |Encode(raw)| % 4 != 1
  {
    PaddedIsTextAndPadding(raw);
    SextetsLength(raw);
    TextShape(Sextets(raw));
    StrippingRepeats(Text(Sextets(raw)), Padding(|Sextets(raw)|));
  }

  // ---------------------------------------------------------------------------
  // Scanning
  // ---------------------------------------------------------------------------

  /** One symbol of a quad. */
  lemma ScanSymbol(v: Sextet, s: string, quad: nat, left: nat, pads: nat)
    requires quad < 4 && left < 64 && (quad == 2 ==> left < 16) && (quad == 3 ==> left < 4)
    ensures Scan([Symbol(v)] + s, quad, left, pads) ==
            (if quad == 0 then Scan(s, 1, v, 0)
             else if quad == 1 then Then(left * 4 + v / 16, Scan(s, 2, v % 16, 0))
             else if quad == 2 then Then(left * 16 + v / 4, Scan(s, 3, v % 4, 0))
             else Then(left * 64 + v, Scan(s, 0, 0, 0)))
  {
    ValueOfSymbol(v);
    var t := [Symbol(v)] + s;
    assert t[0] == Symbol(v) && t[1..] == s;
    assert t[0] != '=';
  }

  /** Two symbols of a quad are its first byte. */
  lemma ScanTwo(q: seq<Sextet>, s: string)
    requires |q| >= 2
    ensures Scan(Text(q) + s, 0, 0, 0) == Then(First(q[0], q[1]), Scan(Text(q[2..]) + s, 2, q[1] % 16, 0))
  {
    assert q[1..][1..] == q[2..];
    assert Text(q) + s == [Symbol(q[0])] + ([Symbol(q[1])] + (Text(q[2..]) + s));
    ScanSymbol(q[0], [Symbol(q[1])] + (Text(q[2..]) + s), 0, 0, 0);
    ScanSymbol(q[1], Text(q[2..]) + s, 1, q[0], 0);
  }

  lemma ScanThird(q: seq<Sextet>, s: string, b: Sextet)
    requires |q| >= 1
    ensures Scan(Text(q) + s, 2, b % 16, 0) == Then(Second(b, q[0]), Scan(Text(q[1..]) + s, 3, q[0] % 4, 0))
  {
    assert Text(q) + s == [Symbol(q[0])] + (Text(q[1..]) + s);
    ScanSymbol(q[0], Text(q[1..]) + s, 2, b % 16, 0);
  }

  lemma ScanFourth(q: seq<Sextet>, s: string, c: Sextet)
    requires |q| >= 1
    ensures Scan(Text(q) + s, 3, c % 4, 0) == Then(Third(c, q[0]), Scan(Text(q[1..]) + s, 0, 0, 0))
  {
    assert Text(q) + s == [Symbol(q[0])] + (Text(q[1..]) + s);
    ScanSymbol(q[0], Text(q[1..]) + s, 3, c % 4, 0);
  }

  /** What the scanner makes of padded symbols: their whole bytes, or nothing when one symbol stands alone. */
  lemma {:induction false} ScanText(q: seq<Sextet>)
    ensures Scan(Text(q) + Repeat(Padding(|q|)), 0, 0, 0) == if |q| % 4 == 1 then None else Some(Bytes(q))
  {
    var s := Repeat(Padding(|q|));
    if q == [] {
      assert Text(q) + s == "";
    } else if |q| == 1 {
      LoneSymbol(q[0]);
      assert Text(q) == [Symbol(q[0])];
    } else if |q| < 4 {
      ScanTail(q);
    } else {
      PaddingRepeats(|q|);
      ScanText(q[4..]);
      ScanOneMore(q, s);
    }
  }

  lemma PaddingRepeats(n: nat)
    requires n >= 4
    ensures Padding(n - 4) == Padding(n) && (n - 4) % 4 == n % 4
  {
  }

  lemma ScanOneMore(q: seq<Sextet>, s: string)
    requires |q| >= 4
    ensures Scan(Text(q) + s, 0, 0, 0) ==
            var rest := Scan(Text(q[4..]) + s, 0, 0, 0);
            if rest.Some? then Some(Group(q[0], q[1], q[2], q[3]) + rest.value) else None
  {
    ScanGroup(q, s);
    ThenThree(q[0], q[1], q[2], q[3], Scan(Text(q[4..]) + s, 0, 0, 0));
  }

  lemma ScanGroup(q: seq<Sextet>, s: string)
    requires |q| >= 4
    ensures Scan(Text(q) + s, 0, 0, 0) ==
            Then(First(q[0], q[1]), Then(Second(q[1], q[2]), Then(Third(q[2], q[3]), Scan(Text(q[4..]) + s, 0, 0, 0))))
  {
    ScanTwo(q, s);
    ScanThird(q[2..], s, q[1]);
    assert q[2..][1..] == q[3..];
    ScanFourth(q[3..], s, q[2]);
    assert q[3..][1..] == q[4..];
  }

  lemma ThenThree(a: Sextet, b: Sextet, c: Sextet, d: Sextet, rest: Option<seq<Byte>>)
    ensures Then(First(a, b), Then(Second(b, c), Then(Third(c, d), rest))) ==
            if rest.Some? then Some(Group(a, b, c, d) + rest.value) else None
  {
    if rest.Some? {
      assert [First(a, b)] + ([Second(b, c)] + ([Third(c, d)] + rest.value)) == Group(a, b, c, d) + rest.value;
    }
  }

  lemma ScanTail(q: seq<Sextet>)
    requires 2 <= |q| <= 3
    ensures Scan(Text(q) + Repeat(Padding(|q|)), 0, 0, 0) == Some(Bytes(q))
  {
    ShortRepeats();
    if |q| == 2 {
      ScanPair(q);
    } else {
      ScanTriple(q);
    }
  }

  lemma ScanPair(q: seq<Sextet>)
    requires |q| == 2
    ensures Scan(Text(q) + "==", 0, 0, 0) == Some([First(q[0], q[1])])
  {
    ScanTwo(q, "==");
    assert q[2..] == [] && Text([]) + "==" == "==";
    PadsEnd(q[1] % 16);
    assert [First(q[0], q[1])] + [] == [First(q[0], q[1])];
  }

  lemma ScanTriple(q: seq<Sextet>)
    requires |q| == 3
    ensures Scan(Text(q) + "=", 0, 0, 0) == Some([First(q[0], q[1]), Second(q[1], q[2])])
  {
    ScanTwo(q, "=");
    ScanThird(q[2..], "=", q[1]);
    assert q[2..][1..] == [] && Text([]) + "=" == "=";
    PadEnds(q[2] % 4);
    assert [First(q[0], q[1])] + ([Second(q[1], q[2])] + []) == [First(q[0], q[1]), Second(q[1], q[2])];
  }

  lemma PadsEnd(left: nat)
    requires left < 16
    ensures Scan("==", 2, left, 0) == Some([])
  {
    assert "=="[1..] == "=";
    assert Scan("=", 2, left, 1) == Some([]);
  }

  lemma PadEnds(left: nat)
    requires left < 4
    ensures Scan("=", 3, left, 0) == Some([])
  {
  }

  lemma LoneSymbol(v: Sextet)
    ensures Scan([Symbol(v)] + Repeat(3), 0, 0, 0) == None
  {
    ScanSymbol(v, Repeat(3), 0, 0, 0);
    PadsAreSkipped(3, v);
  }

  lemma {:induction false} PadsAreSkipped(n: nat, left: Sextet)
    ensures Scan(Repeat(n), 1, left, 0) == None
  {
    if n > 0 {
      assert Repeat(n)[1..] == Repeat(n - 1);
      PadsAreSkipped(n - 1, left);
    }
  }

  // ---------------------------------------------------------------------------
  // Results
  // ---------------------------------------------------------------------------

  lemma DecodeText(q: seq<Sextet>)
    ensures Decode(Text(q)) == if |q| % 4 == 1 then None else Some(Bytes(q))
  {
    TextShape(q);
    RepeatIsPadding(Padding(|q|));
    ScanText(q);
  }

  /** A text without padding or foreign characters decodes exactly when no symbol stands alone, to its whole bytes. */
  lemma SymbolsDecodeToTheirBytes(v: string)
    requires AllSymbols(v)
    ensures Decode(v) == if |v| % 4 == 1 then None else Some(Bytes(Values(v)))
  {
    TextOfValues(v);
    DecodeText(Values(v));
  }

  /** Decoding undoes encoding, for every byte string. */
  lemma DecodeUndoesEncode(raw: seq<Byte>)
    ensures Decode(Encode(raw)) == Some(raw)
  {
    EncodeShape(raw);
    SymbolsDecodeToTheirBytes(Encode(raw));
    TextShape(Sextets(raw));
    SextetsKeepTheBytes(raw);
  }

  lemma EncodeIsInjective(a: seq<Byte>, b: seq<Byte>)
    requires Encode(a) == Encode(b)
    ensures a == b
  {
    DecodeUndoesEncode(a);
    DecodeUndoesEncode(b);
  }

  /** Symbols only, none alone, and no stray bits in the last one. */
  predicate Canonical(v: string) {
    AllSymbols(v) && |v| % 4 != 1 && ZeroTail(Values(v))
  }

  /** The converse holds on exactly the canonical texts; every other text the decoder accepts comes back changed. */
  lemma EncodeUndoesDecodeExactlyOnCanonicalText(v: string)
    ensures Decode(v).Some? && Encode(Decode(v).value) == v <==> Canonical(v)
  {
    if Canonical(v) {
      SymbolsDecodeToTheirBytes(v);
      TextOfValues(v);
      SextetsOfBytes(Values(v));
      EncodeShape(Bytes(Values(v)));
    } else if Decode(v).Some? {
      var raw := Decode(v).value;
      EncodeShape(raw);
      SextetsEndInZeros(raw);
      TextShape(Sextets(raw));
    }
  }

  /** The decoder is lenient: texts that differ in the unused bits of their last symbol are one byte string. */
  lemma UnusedBitsAreIgnored(p: seq<Sextet>, q: seq<Sextet>)
    requires |p| == |q| == 2 && p[0] == q[0] && p[1] != q[1] && p[1] / 16 == q[1] / 16
    ensures Text(p) != Text(q) && Decode(Text(p)) == Decode(Text(q)) != None
  {
    DecodeText(p);
    DecodeText(q);
    assert First(p[0], p[1]) == First(q[0], q[1]);
    TextShape(p);
    TextShape(q);
  }

  /** Every payload the fields allow has an encoding the fields allow, and it decodes to the payload. */
  lemma FieldsAcceptEveryPayload(raw: seq<Byte>)
    ensures 1 <= |raw| <= 65536 ==> Ciphertext(Encode(raw)) == Some(raw)
    ensures |raw| == 12 ==> Nonce(Encode(raw)) == Some(raw)
    ensures |raw| == 32 ==> PublicKey(Encode(raw)) == Some(raw)
  {
    EncodeShape(raw);
    DecodeUndoesEncode(raw);
  }

  // ---------------------------------------------------------------------------
  // Bit by bit
  // ---------------------------------------------------------------------------

  /** The number that sextets stand for, the first being the most significant. */
  function Number(q: seq<Sextet>): nat {
    if q == [] then 0 else Number(q[..|q| - 1]) * 64 + q[|q| - 1]
  }

  lemma NumberOfTwo(q: seq<Sextet>)
    requires |q| == 2
    ensures Number(q) == q[0] as int * 64 + q[1]
  {
    assert q[..1] == [q[0]] && [q[0]][..0] == [];
    assert Number([q[0]]) == q[0] as int;
  }

  lemma NumberOfThree(q: seq<Sextet>)
    requires |q| == 3
    ensures Number(q) == (q[0] as int * 64 + q[1]) * 64 + q[2]
  {
    NumberOfTwo(q[..2]);
  }

  lemma NumberOfFour(q: seq<Sextet>)
    requires |q| == 4
    ensures Number(q) == ((q[0] as int * 64 + q[1]) * 64 + q[2]) * 64 + q[3]
  {
    NumberOfThree(q[..3]);
  }

  lemma ThreeBytes(x: Byte, y: Byte, z: Byte)
    ensures Number(Quad(x, y, z)) == (x as int * 256 + y) * 256 + z
  {
    NumberOfFour(Quad(x, y, z));
  }

  lemma TwoBytes(x: Byte, y: Byte)
    ensures Number(Quad(x, y, 0)[..3]) == (x as int * 256 + y) * 4
  {
    NumberOfThree(Quad(x, y, 0)[..3]);
  }

  lemma OneByte(x: Byte)
    ensures Number(Quad(x, 0, 0)[..2]) == x as int * 16
  {
    NumberOfTwo(Quad(x, 0, 0)[..2]);
  }

  lemma {:induction false} TextAt(q: seq<Sextet>, k: nat)
    requires k < |q|
    ensures |Text(q)| == |q| && Text(q)[k] == Symbol(q[k])
  {
    TextShape(q);
    if k > 0 {
      TextAt(q[1..], k - 1);
    }
  }

  lemma {:induction false} SextetsAt(raw: seq<Byte>, g: nat)
    requires 3 * g + 3 <= |raw|
    ensures 4 * g + 4 <= |Sextets(raw)| && Sextets(raw)[4 * g..4 * g + 4] == Quad(raw[3 * g], raw[3 * g + 1], raw[3 * g + 2])
  {
    if g > 0 {
      SextetsAt(raw[3..], g - 1);
      assert Sextets(raw)[4..] == Sextets(raw[3..]);
      assert Sextets(raw)[4 * g..4 * g + 4] == Sextets(raw)[4..][4 * (g - 1)..4 * (g - 1) + 4];
    }
  }

  /** The sextets of what whole groups leave over. */
  function Left(raw: seq<Byte>): seq<Sextet>
    requires |raw| % 3 != 0
  {
    if |raw| % 3 == 1 then Quad(raw[|raw| - 1], 0, 0)[..2] else Quad(raw[|raw| - 2], raw[|raw| - 1], 0)[..3]
  }

  lemma EndOfConcat(front: seq<Sextet>, back: seq<Sextet>, n: nat)
    requires n <= |back|
    ensures (front + back)[|front + back| - n..] == back[|back| - n..]
  {
  }

  lemma {:induction false} LastSextets(raw: seq<Byte>)
    requires |raw| % 3 != 0
    ensures |Left(raw)| <= |Sextets(raw)| && Sextets(raw)[|Sextets(raw)| - |Left(raw)|..] == Left(raw)
  {
    if |raw| >= 3 {
      LastSextets(raw[3..]);
      assert Left(raw) == Left(raw[3..]);
      EndOfConcat(Quad(raw[0], raw[1], raw[2]), Sextets(raw[3..]), |Left(raw)|);
    }
  }

  /** The text spells the sextets in the alphabet. */
  predicate Spells(v: string, q: seq<Sextet>) {
    |v| == |q| && forall k | 0 <= k < |v| :: v[k] == Symbol(q[k])
  }

  lemma EncodeSpells(raw: seq<Byte>)
    ensures Spells(Encode(raw), Sextets(raw))
  {
    var q := Sextets(raw);
    EncodeShape(raw);
    TextShape(q);
    forall k | 0 <= k < |q|
      ensures Text(q)[k] == Symbol(q[k])
    {
      TextAt(q, k);
    }
  }

  /** Each three bytes are four letters of the alphabet that spell the same number, most significant first. */
  lemma EncodedGroup(raw: seq<Byte>, g: nat) returns (q: seq<Sextet>)
    requires 3 * g + 3 <= |raw|
    ensures 4 * g + 4 <= |Encode(raw)| && Spells(Encode(raw)[4 * g..4 * g + 4], q)
    ensures Number(q) == (raw[3 * g] as int * 256 + raw[3 * g + 1]) * 256 + raw[3 * g + 2]
  {
    EncodeSpells(raw);
    SextetsAt(raw, g);
    q := Sextets(raw)[4 * g..4 * g + 4];
    ThreeBytes(raw[3 * g], raw[3 * g + 1], raw[3 * g + 2]);
  }

  lemma EncodedEnd(raw: seq<Byte>)
    requires |raw| % 3 != 0
    ensures |Left(raw)| <= |Encode(raw)| && Spells(Encode(raw)[|Encode(raw)| - |Left(raw)|..], Left(raw))
  {
    EncodeSpells(raw);
    LastSextets(raw);
  }

  /** One byte left over is two letters, two are three; zero bits fill them up. */
  lemma EncodedTail(raw: seq<Byte>) returns (q: seq<Sextet>)
    requires |raw| % 3 != 0
    ensures |q| == |raw| % 3 + 1 <= |Encode(raw)| && Spells(Encode(raw)[|Encode(raw)| - |q|..], q)
    ensures |raw| % 3 == 1 ==> Number(q) == raw[|raw| - 1] as int * 16
    ensures |raw| % 3 == 2 ==> Number(q) == (raw[|raw| - 2] as int * 256 + raw[|raw| - 1]) * 4
  {
    EncodedEnd(raw);
    q := Left(raw);
    OneByte(raw[|raw| - 1]);
    if |raw| % 3 == 2 { TwoBytes(raw[|raw| - 2], raw[|raw| - 1]); }
  }

  lemma {:induction false} BytesLength(q: seq<Sextet>)
    ensures |Bytes(q)| == if |q| % 4 == 1 then |q| / 4 * 3 else |q| * 3 / 4
  {
    if |q| >= 4 {
      BytesLength(q[4..]);
    }
  }

  /** Of the texts without padding or foreign characters the fields accept exactly those of these lengths. */
  lemma FieldsAcceptExactly(v: string)
    requires AllSymbols(v)
    ensures Nonce(v).Some? <==> |v| == 16
    ensures PublicKey(v).Some? <==> |v| == 43
    ensures Ciphertext(v).Some? <==> 2 <= |v| <= 87382 && |v| % 4 != 1
  {
    SymbolsDecodeToTheirBytes(v);
    TextOfValues(v);
    BytesLength(Values(v));
  }
}
