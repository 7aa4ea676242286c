/** Unpadded base64url (section 5 of RFC 4648) as Go's RawURLEncoding reads and
    writes it: the decoder skips line breaks and ignores the spare bits of the
    last character. */
module Base64Url {
  import opened Readings

  type Byte = x: int | 0 <= x < 256
  type Bytes = seq<Byte>
  type Sextet = x: int | 0 <= x < 64

  function EncodeChar(v: Sextet): char {
    if v < 26 then 'A' + v as char
    else if v < 52 then 'a' + (v - 26) as char
    else if v < 62 then '0' + (v - 52) as char
    else if v == 62 then '-' else '_'
  }

  /** The URL and filename safe alphabet (table 2 of RFC 4648): the capitals, the small
      letters and the digits, each in order, then the hyphen and the underscore. */
  lemma AlphabetIsUrlSafe(v: Sextet)
    ensures EncodeChar(0) == 'A' && EncodeChar(25) == 'Z' && EncodeChar(26) == 'a' && EncodeChar(51) == 'z'
    ensures EncodeChar(52) == '0' && EncodeChar(61) == '9' && EncodeChar(62) == '-' && EncodeChar(63) == '_'
    ensures v < 25 || 26 <= v < 51 || 52 <= v < 61 ==> EncodeChar(v + 1) as int == EncodeChar(v) as int + 1
  {
  }

  function DecodeChar(c: char): Option<Sextet> {
    if 'A' <= c <= 'Z' then Some((c - 'A') as int)
    else if 'a' <= c <= 'z' then Some((c - 'a') as int + 26)
    else if '0' <= c <= '9' then Some((c - '0') as int + 52)
    else if c == '-' then Some(62)
    else if c == '_' then Some(63)
    else None
  }

  /** The sextets of up to three bytes. */
  function FirstSextet(x: Byte): Sextet {
    x / 4
  }

  function SecondSextet(x: Byte, y: Byte): Sextet {
    x % 4 * 16 + y / 16
  }

  function ThirdSextet(y: Byte, z: Byte): Sextet {
    y % 16 * 4 + z / 64
  }

  function FourthSextet(z: Byte): Sextet {
    z % 64
  }

  function Encode(b: Bytes): string {
    if |b| == 0 then ""
    else if |b| == 1 then [EncodeChar(FirstSextet(b[0])), EncodeChar(SecondSextet(b[0], 0))]
    else if |b| == 2 then
      [EncodeChar(FirstSextet(b[0])), EncodeChar(SecondSextet(b[0], b[1])), EncodeChar(ThirdSextet(b[1], 0))]
    else
      [EncodeChar(FirstSextet(b[0])), EncodeChar(SecondSextet(b[0], b[1])), EncodeChar(ThirdSextet(b[1], b[2])),
       EncodeChar(FourthSextet(b[2]))] + Encode(b[3..])
  }

  function WithoutBreaks(s: string): string {
    if s == "" then ""
    else if s[0] == '\r' || s[0] == '\n' then WithoutBreaks(s[1..])
    else [s[0]] + WithoutBreaks(s[1..])
  }

  /** The sextets of a text, when every character has one. */
  function Sextets(s: string): Option<seq<Sextet>> {
    if s == "" then Some([])
    else
      var first, rest := DecodeChar(s[0]), Sextets(s[1..]);
      if first.Some? && rest.Some? then Some([first.value] + rest.value) else None
  }

  function FirstByte(p: Sextet, q: Sextet): Byte {
    p * 4 + q / 16
  }

  function SecondByte(q: Sextet, r: Sextet): Byte {
    q % 16 * 16 + r / 4
  }

  function ThirdByte(r: Sextet, t: Sextet): Byte {
    r % 4 * 64 + t
  }

  /** A last group of one sextet cannot hold a byte. */
  function Join(v: seq<Sextet>): Option<Bytes> {
    if |v| == 0 then Some([])
    else if |v| == 1 then None
    else if |v| == 2 then Some([FirstByte(v[0], v[1])])
    else if |v| == 3 then Some([FirstByte(v[0], v[1]), SecondByte(v[1], v[2])])
    else
      var rest := Join(v[4..]);
      if rest.None? then None
      else Some([FirstByte(v[0], v[1]), SecondByte(v[1], v[2]), ThirdByte(v[2], v[3])] + rest.value)
  }

  function Decode(s: string): Option<Bytes> {
    var v := Sextets(WithoutBreaks(s));
    if v.None? then None else Join(v.value)
  }

  // ----- Round trip

  function Split(b: Bytes): seq<Sextet> {
    if |b| == 0 then []
    else if |b| == 1 then [FirstSextet(b[0]), SecondSextet(b[0], 0)]
    else if |b| == 2 then [FirstSextet(b[0]), SecondSextet(b[0], b[1]), ThirdSextet(b[1], 0)]
    else [FirstSextet(b[0]), SecondSextet(b[0], b[1]), ThirdSextet(b[1], b[2]), FourthSextet(b[2])] + Split(b[3..])
  }

  /** Three bytes and their four sextets are one 24-bit number, most significant first. */
  lemma GroupIsOneNumber(x: Byte, y: Byte, z: Byte)
    ensures x * 0x1_0000 + y * 0x100 + z
      == FirstSextet(x) * 0x4_0000 + SecondSextet(x, y) * 0x1000 + ThirdSextet(y, z) * 0x40 + FourthSextet(z)
  {
  }

  lemma ByteParts(x: Byte, y: Byte, z: Byte)
    ensures FirstByte(FirstSextet(x), SecondSextet(x, y)) == x
    ensures SecondByte(SecondSextet(x, y), ThirdSextet(y, z)) == y
    ensures ThirdByte(ThirdSextet(y, z), FourthSextet(z)) == z
  {
    assert SecondSextet(x, y) / 16 == x % 4 && SecondSextet(x, y) % 16 == y / 16;
    assert ThirdSextet(y, z) / 4 == y % 16 && ThirdSextet(y, z) % 4 == z / 64;
  }

  lemma JoinGroup(p: Sextet, q: Sextet, r: Sextet, t: Sextet, v: seq<Sextet>)
    requires Join(v).Some?
    ensures Join([p, q, r, t] + v) == Some([FirstByte(p, q), SecondByte(q, r), ThirdByte(r, t)] + Join(v).value)
  {
    assert ([p, q, r, t] + v)[4..] == v;
  }

  lemma JoinOne(x: Byte, y: Byte)
    ensures Join([FirstSextet(x), SecondSextet(x, y)]) == Some([x])
  {
    ByteParts(x, y, y);
  }

  lemma JoinTwo(x: Byte, y: Byte, z: Byte)
    ensures Join([FirstSextet(x), SecondSextet(x, y), ThirdSextet(y, z)]) == Some([x, y])
  {
    ByteParts(x, y, z);
  }

  lemma JoinThree(x: Byte, y: Byte, z: Byte, rest: Bytes)
    requires Join(Split(rest)) == Some(rest)
    ensures Join([FirstSextet(x), SecondSextet(x, y), ThirdSextet(y, z), FourthSextet(z)] + Split(rest)) == Some([x, y, z] + rest)
  {
    ByteParts(x, y, z);
    JoinGroup(FirstSextet(x), SecondSextet(x, y), ThirdSextet(y, z), FourthSextet(z), Split(rest));
  }

  lemma {:induction false} JoinSplit(b: Bytes)
    ensures Join(Split(b)) == Some(b)
    decreases |b|
  {
    if |b| == 1 {
      JoinOne(b[0], 0);
      assert b == [b[0]];
    } else if |b| == 2 {
      JoinTwo(b[0], b[1], 0);
      assert b == [b[0], b[1]];
    } else if |b| >= 3 {
      var rest := b[3..];
      JoinSplit(rest);
      JoinThree(b[0], b[1], b[2], rest);
      assert b == [b[0], b[1], b[2]] + rest;
    }
  }

  lemma PrependSextet(v: Sextet, s: string)
    requires Sextets(s).Some?
    ensures Sextets([EncodeChar(v)] + s) == Some([v] + Sextets(s).value)
  {
    assert ([EncodeChar(v)] + s)[1..] == s;
  }

  lemma {:induction false} SextetsOfEncode(b: Bytes)
    ensures Sextets(Encode(b)) == Some(Split(b))
  {
    if |b| == 1 {
      var c := SecondSextet(b[0], 0);
      PrependSextet(c, "");
      PrependSextet(FirstSextet(b[0]), [EncodeChar(c)] + "");
      assert Encode(b) == [EncodeChar(FirstSextet(b[0]))] + ([EncodeChar(c)] + "");
      assert Split(b) == [FirstSextet(b[0])] + ([c] + []);
    } else if |b| == 2 {
      var c, d := SecondSextet(b[0], b[1]), ThirdSextet(b[1], 0);
      PrependSextet(d, "");
      PrependSextet(c, [EncodeChar(d)] + "");
      PrependSextet(FirstSextet(b[0]), [EncodeChar(c)] + ([EncodeChar(d)] + ""));
      assert Encode(b) == [EncodeChar(FirstSextet(b[0]))] + ([EncodeChar(c)] + ([EncodeChar(d)] + ""));
      assert Split(b) == [FirstSextet(b[0])] + ([c] + ([d] + []));
    } else if |b| >= 3 {
      SextetsOfEncode(b[3..]);
      SextetsOfGroup(FirstSextet(b[0]), SecondSextet(b[0], b[1]), ThirdSextet(b[1], b[2]), FourthSextet(b[2]), Encode(b[3..]));
    }
  }

  lemma SextetsOfGroup(p: Sextet, q: Sextet, r: Sextet, t: Sextet, s: string)
    requires Sextets(s).Some?
    ensures Sextets([EncodeChar(p), EncodeChar(q), EncodeChar(r), EncodeChar(t)] + s) == Some([p, q, r, t] + Sextets(s).value)
  {
    var s1 := [EncodeChar(t)] + s;
    var s2 := [EncodeChar(r)] + s1;
    var s3 := [EncodeChar(q)] + s2;
    PrependSextet(t, s);
    PrependSextet(r, s1);
    PrependSextet(q, s2);
    PrependSextet(p, s3);
    assert [EncodeChar(p), EncodeChar(q), EncodeChar(r), EncodeChar(t)] + s == [EncodeChar(p)] + s3;
    assert [p] + ([q] + ([r] + ([t] + Sextets(s).value))) == [p, q, r, t] + Sextets(s).value;
  }

  /** A text whose characters all have sextets holds no line break and no dot. */
  lemma {:induction false} AlphabetIsClean(s: string)
    requires Sextets(s).Some?
    ensures WithoutBreaks(s) == s && '.' !in s
  {
    if s != "" {
      AlphabetIsClean(s[1..]);
      assert s == [s[0]] + s[1..];
    }
  }

  /** Decoding an encoding gives the bytes back. */
  lemma DecodeEncode(b: Bytes)
    ensures Decode(Encode(b)) == Some(b)
    ensures '.' !in Encode(b)
  {
    SextetsOfEncode(b);
    AlphabetIsClean(Encode(b));
    JoinSplit(b);
  }

  /** Different bytes have different encodings. */
  lemma EncodeInjective(a: Bytes, b: Bytes)
    requires Encode(a) == Encode(b)
    ensures a == b
  {
    DecodeEncode(a);
    DecodeEncode(b);
  }
}
