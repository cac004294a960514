/** Base64 with padding, as in section 4 of RFC 4648, and the two decoders the program
    uses: the strict one of browsers and the lenient one of Node's Buffer. */
module Base64 {
  import opened Wrappers

  type Byte = b: int | 0 <= b < 256
  type Bytes = seq<Byte>
  type Sextet = v: int | 0 <= v < 64

  function Digit(v: Sextet): char {
    if v < 26 then ('A' as int + v) as char
    else if v < 52 then ('a' as int + v - 26) as char
    else if v < 62 then ('0' as int + v - 52) as char
    else if v == 62 then '+' else '/'
  }

  function Value(c: char): Option<Sextet> {
    if 'A' <= c <= 'Z' then Some(c as int - 'A' as int)
    else if 'a' <= c <= 'z' then Some(c as int - 'a' as int + 26)
    else if '0' <= c <= '9' then Some(c as int - '0' as int + 52)
    else if c == '+' then Some(62)
    else if c == '/' then Some(63)
    else None
  }

  lemma DigitsHaveTheirValue(v: Sextet)
    ensures Value(Digit(v)) == Some(v)
  {
  }

  function Digits(sextets: seq<Sextet>): string {
    if sextets == [] then "" else [Digit(sextets[0])] + Digits(sextets[1..])
  }

  function FirstSextet(a: Byte): Sextet {
    a / 4
  }

  function SecondSextet(a: Byte, b: Byte): Sextet {
    a % 4 * 16 + b / 16
  }

  function ThirdSextet(b: Byte, c: Byte): Sextet {
    b % 16 * 4 + c / 64
  }

  function FourthSextet(c: Byte): Sextet {
    c % 64
  }

  /** The sextets of a byte string; the last one is filled up with zero bits. */
  function Sextets(bytes: Bytes): seq<Sextet> {
    if bytes == [] then []
    else if |bytes| == 1 then [FirstSextet(bytes[0]), SecondSextet(bytes[0], 0)]
    else if |bytes| == 2 then [FirstSextet(bytes[0]), SecondSextet(bytes[0], bytes[1]), ThirdSextet(bytes[1], 0)]
    else
      [FirstSextet(bytes[0]), SecondSextet(bytes[0], bytes[1]),
       ThirdSextet(bytes[1], bytes[2]), FourthSextet(bytes[2])] +
      Sextets(bytes[3..])
  }

  function FirstByte(a: Sextet, b: Sextet): Byte {
    a * 4 + b / 16
  }

  function SecondByte(b: Sextet, c: Sextet): Byte {
    b % 16 * 16 + c / 4
  }

  function ThirdByte(c: Sextet, d: Sextet): Byte {
    c % 4 * 64 + d
  }

  /** The bytes that whole groups of sextets spell; spare bits are dropped. */
  function Join(sextets: seq<Sextet>): Bytes {
    if |sextets| < 2 then []
    else if |sextets| == 2 then [FirstByte(sextets[0], sextets[1])]
    else if |sextets| == 3 then [FirstByte(sextets[0], sextets[1]), SecondByte(sextets[1], sextets[2])]
    else
      [FirstByte(sextets[0], sextets[1]), SecondByte(sextets[1], sextets[2]), ThirdByte(sextets[2], sextets[3])] +
      Join(sextets[4..])
  }

  function Padding(length: nat): string {
    match length % 3
    case 0 => ""
    case 1 => "=="
    case 2 => "="
  }

  function Encode(bytes: Bytes): string {
    Digits(Sextets(bytes)) + Padding(|bytes|)
  }

  /** Three bytes cut into four sextets and put together again. */
  lemma GroupsJoin(a: Byte, b: Byte, c: Byte)
    ensures FirstByte(FirstSextet(a), SecondSextet(a, b)) == a
    ensures SecondByte(SecondSextet(a, b), ThirdSextet(b, c)) == b
    ensures ThirdByte(ThirdSextet(b, c), FourthSextet(c)) == c
  {
  }

  lemma {:induction false} JoinSextets(bytes: Bytes)
    ensures Join(Sextets(bytes)) == bytes
  {
    hide FirstByte, SecondByte, ThirdByte, FirstSextet, SecondSextet, ThirdSextet, FourthSextet;
    if bytes != [] {
      GroupsJoin(bytes[0], if |bytes| > 1 then bytes[1] else 0, if |bytes| > 2 then bytes[2] else 0);
    }
    if |bytes| >= 3 {
      JoinSextets(bytes[3..]);
      var sextets := Sextets(bytes);
      assert sextets[4..] == Sextets(bytes[3..]);
      assert Join(sextets) == [bytes[0], bytes[1], bytes[2]] + bytes[3..];
    }
  }

  /** A last group of one or two bytes makes two or three sextets. */
  lemma {:induction false} SextetCount(bytes: Bytes)
    ensures |Sextets(bytes)| % 4 == (if |bytes| % 3 == 0 then 0 else |bytes| % 3 + 1)
  {
    if |bytes| >= 3 {
      SextetCount(bytes[3..]);
    }
  }

  predicate IsSpace(c: char) {
    c == '\t' || c == '\n' || c == 0xc as char || c == '\r' || c == ' '
  }

  function StripSpace(s: string): string {
    if s == "" then "" else if IsSpace(s[0]) then StripSpace(s[1..]) else [s[0]] + StripSpace(s[1..])
  }

  /** Remove up to two closing '=' from a string of whole groups. */
  function Unpad(s: string): string {
    if |s| % 4 != 0 || s == "" || s[|s| - 1] != '=' then s
    else if s[|s| - 2] == '=' then s[..|s| - 2]
    else s[..|s| - 1]
  }

  function Values(s: string): Option<seq<Sextet>> {
    if s == "" then Some([])
    else match (Value(s[0]), Values(s[1..]))
      case (Some(v), Some(rest)) => Some([v] + rest)
      case _ => None
  }

  /** atob: spaces are allowed, anything else outside the alphabet is an error. */
  function StrictDecode(s: string): Option<Bytes> {
    var body := Unpad(StripSpace(s));
    if |body| % 4 == 1 then None
    else match Values(body)
      case Some(sextets) => Some(Join(sextets))
      case None => None
  }

  /** Node also reads the URL alphabet. */
  function LenientValue(c: char): Option<Sextet> {
    if c == '-' then Some(62) else if c == '_' then Some(63) else Value(c)
  }

  /** Node stops at the first '=' and skips what it cannot read. */
  function LenientValues(s: string): seq<Sextet> {
    if s == "" || s[0] == '=' then []
    else match LenientValue(s[0])
      case Some(v) => [v] + LenientValues(s[1..])
      case None => LenientValues(s[1..])
  }

  /** Buffer.from(s, 'base64'): never an error. */
  function LenientDecode(s: string): Bytes {
    Join(LenientValues(s))
  }

  predicate OnlyPadding(s: string) {
    forall i :: 0 <= i < |s| ==> s[i] == '='
  }

  lemma {:induction false} ValuesOfDigits(sextets: seq<Sextet>)
    ensures Values(Digits(sextets)) == Some(sextets) && |Digits(sextets)| == |sextets|
  {
    if sextets != [] {
      DigitsHaveTheirValue(sextets[0]);
      ValuesOfDigits(sextets[1..]);
      assert Digits(sextets)[0] == Digit(sextets[0]) && Digits(sextets)[1..] == Digits(sextets[1..]);
      assert sextets == [sextets[0]] + sextets[1..];
    }
  }

  /** Padding and digits are not spaces. */
  lemma {:induction false} NothingToStrip(s: string, pad: string)
    requires Values(s).Some? && OnlyPadding(pad)
    ensures StripSpace(s + pad) == s + pad
  {
    if s == "" {
      assert s + pad == pad;
      if pad != "" {
        NothingToStrip("", pad[1..]);
        assert "" + pad[1..] == pad[1..];
      }
    } else {
      NothingToStrip(s[1..], pad);
      assert (s + pad)[1..] == s[1..] + pad;
    }
  }

  lemma {:induction false} NoPaddingInside(s: string, i: nat)
    requires Values(s).Some? && i < |s|
    ensures s[i] != '='
  {
    if i > 0 {
      NoPaddingInside(s[1..], i - 1);
    }
  }

  lemma UnpadRemovesPadding(s: string, length: nat)
    requires Values(s).Some? && |s| % 4 == (if length % 3 == 0 then 0 else length % 3 + 1)
    ensures Unpad(s + Padding(length)) == s
  {
    hide Values;
    var padded := s + Padding(length);
    if s != "" {
      NoPaddingInside(s, |s| - 1);
    }
    if length % 3 == 1 {
      assert padded[..|padded| - 2] == s;
    } else if length % 3 == 2 {
      assert padded[|padded| - 2] == s[|s| - 1];
      assert padded[..|padded| - 1] == s;
    }
  }

  /** What is encoded decodes strictly. */
  lemma StrictRoundTrip(bytes: Bytes)
    ensures StrictDecode(Encode(bytes)) == Some(bytes)
  {
    var sextets := Sextets(bytes);
    JoinSextets(bytes);
    SextetCount(bytes);
    ValuesOfDigits(sextets);
    NothingToStrip(Digits(sextets), Padding(|bytes|));
    UnpadRemovesPadding(Digits(sextets), |bytes|);
  }

  /** Up to padding and spaces, the lenient decoder reads the same sextets. */
  lemma {:induction false} LenientReads(s: string, body: string, pad: string)
    requires Values(body).Some? && OnlyPadding(pad) && StripSpace(s) == body + pad
    ensures Some(LenientValues(s)) == Values(body)
  {
    if s == "" {
      assert body == "";
    } else if IsSpace(s[0]) {
      LenientReads(s[1..], body, pad);
    } else if body == "" {
      assert s[0] == (body + pad)[0] == pad[0];
    } else {
      assert s[0] == (body + pad)[0] == body[0];
      assert StripSpace(s[1..]) == (body + pad)[1..] == body[1..] + pad;
      LenientReads(s[1..], body[1..], pad);
    }
  }

  lemma UnpadSplits(s: string)
    ensures |Unpad(s)| <= |s| && s == Unpad(s) + s[|Unpad(s)|..] && OnlyPadding(s[|Unpad(s)|..])
  {
  }

  /** Whatever the strict decoder accepts, the lenient one reads alike. */
  lemma DecodersAgree(s: string)
    requires StrictDecode(s).Some?
    ensures LenientDecode(s) == StrictDecode(s).value
  {
    var stripped := StripSpace(s);
    UnpadSplits(stripped);
    LenientReads(s, Unpad(stripped), stripped[|Unpad(stripped)|..]);
  }

  lemma LenientRoundTrip(bytes: Bytes)
    ensures LenientDecode(Encode(bytes)) == bytes
  {
    StrictRoundTrip(bytes);
    DecodersAgree(Encode(bytes));
  }
}
