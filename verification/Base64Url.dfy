/**
 Unpadded URL-safe base64 (sections 5 and 3.2 of RFC 4648), as cursors use it:
 padding is stripped when encoding and put back before decoding.
 */
module Base64Url {
  import opened Wrappers

  newtype Byte = x: int | 0 <= x < 256

  /** The character for six bits, by the ranges of the alphabet. */
  function Digit(v: nat): char
    requires v < 64
  {
    if v < 26 then ('A' as int + v) as char
    else if v < 52 then ('a' as int + v - 26) as char
    else if v < 62 then ('0' as int + v - 52) as char
    else if v == 62 then '-'
    else '_'
  }

  function DigitValue(c: char): Option<nat> {
    if 'A' <= c <= 'Z' then Some(c as int - 'A' as int)
    else if 'a' <= c <= 'z' then Some(c as int - 'a' as int + 26)
    else if '0' <= c <= '9' then Some(c as int - '0' as int + 52)
    else if c == '-' then Some(62)
    else if c == '_' then Some(63)
    else None
  }

  /** Six bits have one character and come back from it. */
  lemma DigitRoundTrip(v: nat)
    requires v < 64
    ensures DigitValue(Digit(v)) == Some(v) && Digit(v) != '='
  {
  }

  // ---------------------------------------------------------------- groups of three bytes

  function EncodeGroup(a: int, b: int, c: int): string
    requires 0 <= a < 256 && 0 <= b < 256 && 0 <= c < 256
  {
    [Digit(a / 4), Digit(a % 4 * 16 + b / 16), Digit(b % 16 * 4 + c / 64), Digit(c % 64)]
  }

  /** `urlsafe_b64encode`, padded. */
  function EncodePadded(data: seq<Byte>): string {
    if data == [] then ""
    else if |data| == 1 then EncodeGroup(data[0] as int, 0, 0)[..2] + "=="
    else if |data| == 2 then EncodeGroup(data[0] as int, data[1] as int, 0)[..3] + "="
    else EncodeGroup(data[0] as int, data[1] as int, data[2] as int) + EncodePadded(data[3..])
  }

  /** `.rstrip(b"=")` */
  function StripPadding(text: string): string {
    if text != "" && text[|text| - 1] == '=' then StripPadding(text[..|text| - 1]) else text
  }

  /** The byte layer of `encode_cursor`. */
  function Encode(data: seq<Byte>): string {
    StripPadding(EncodePadded(data))
  }

  function Padding(n: nat): string {
    if n == 0 then "" else "=" + Padding(n - 1)
  }

  /** Python's `-n % 4`, whose remainder is never negative. */
  function Missing(n: nat): (m: nat)
    ensures m < 4
  {
    (4 - n % 4) % 4
  }

  /** `cursor + "=" * (-len(cursor) % 4)` */
  function AddPadding(text: string): string {
    text + Padding(Missing(|text|))
  }

  function DecodeGroup(w: nat, x: nat, y: nat, z: nat): seq<Byte>
    requires w < 64 && x < 64 && y < 64 && z < 64
  {
    [(w * 4 + x / 16) as Byte, (x % 16 * 16 + y / 4) as Byte, (y % 4 * 64 + z) as Byte]
  }

  /** `urlsafe_b64decode` of text in groups of four; `None` where it raises. */
  function DecodePadded(text: string): Option<seq<Byte>> {
    if text == "" then Some([])
    else if |text| < 4 then None
    else
      var w, x := DigitValue(text[0]), DigitValue(text[1]);
      var y, z := DigitValue(text[2]), DigitValue(text[3]);
      if w.None? || x.None? then None
      else if |text| == 4 && text[2] == '=' && text[3] == '=' then Some(DecodeGroup(w.value, x.value, 0, 0)[..1])
      else if y.None? then None
      else if |text| == 4 && text[3] == '=' then Some(DecodeGroup(w.value, x.value, y.value, 0)[..2])
      else if z.None? then None
      else
        var rest := DecodePadded(text[4..]);
        if rest.None? then None else Some(DecodeGroup(w.value, x.value, y.value, z.value) + rest.value)
  }

  /** The byte layer of `decode_cursor`, for text of the cursor alphabet. */
  function Decode(cursor: string): Option<seq<Byte>> {
    DecodePadded(AddPadding(cursor))
  }

  // ---------------------------------------------------------------- the round trip

  lemma GroupRoundTrip(a: int, b: int, c: int)
    requires 0 <= a < 256 && 0 <= b < 256 && 0 <= c < 256
    ensures
      var t := EncodeGroup(a, b, c);
      && |t| == 4 && (forall i :: 0 <= i < 4 ==> DigitValue(t[i]).Some? && DigitValue(t[i]).value < 64 && t[i] != '=')
      && DecodeGroup(DigitValue(t[0]).value, DigitValue(t[1]).value, DigitValue(t[2]).value, DigitValue(t[3]).value)
         == [a as Byte, b as Byte, c as Byte]
  {
    hide Digit, DigitValue;
    var p, q, r, s := a / 4, a % 4 * 16 + b / 16, b % 16 * 4 + c / 64, c % 64;
    DigitRoundTrip(p);
    DigitRoundTrip(q);
    DigitRoundTrip(r);
    DigitRoundTrip(s);
    Bits(a, b, c);
  }

  lemma Bits(a: int, b: int, c: int)
    requires 0 <= a < 256 && 0 <= b < 256 && 0 <= c < 256
    ensures
      var p, q, r, s := a / 4, a % 4 * 16 + b / 16, b % 16 * 4 + c / 64, c % 64;
      p < 64 && q < 64 && r < 64 && p * 4 + q / 16 == a && q % 16 * 16 + r / 4 == b && r % 4 * 64 + s == c
  {
  }

  lemma OneByte(a: Byte)
    ensures DecodePadded(EncodePadded([a])) == Some([a])
  {
    hide Digit, DigitValue, EncodeGroup, DecodeGroup;
    var t, text := EncodeGroup(a as int, 0, 0), EncodePadded([a]);
    GroupRoundTrip(a as int, 0, 0);
    assert text[0] == t[0] && text[1] == t[1] && text[2] == text[3] == '=' && |text| == 4;
    assert [a, 0, 0][..1] == [a];
    FirstBytes(DigitValue(t[0]).value, DigitValue(t[1]).value, DigitValue(t[2]).value, DigitValue(t[3]).value);
  }

  lemma TwoBytes(a: Byte, b: Byte)
    ensures DecodePadded(EncodePadded([a, b])) == Some([a, b])
  {
    hide Digit, DigitValue, EncodeGroup, DecodeGroup;
    var t, text := EncodeGroup(a as int, b as int, 0), EncodePadded([a, b]);
    GroupRoundTrip(a as int, b as int, 0);
    assert text[0] == t[0] && text[1] == t[1] && text[2] == t[2] && text[3] == '=' && |text| == 4;
    assert [a, b, 0][..2] == [a, b];
    FirstBytes(DigitValue(t[0]).value, DigitValue(t[1]).value, DigitValue(t[2]).value, DigitValue(t[3]).value);
  }

  /** The first byte needs two digits, the second a third. */
  lemma FirstBytes(w: nat, x: nat, y: nat, z: nat)
    requires w < 64 && x < 64 && y < 64 && z < 64
    ensures DecodeGroup(w, x, 0, 0)[..1] == DecodeGroup(w, x, y, z)[..1]
    ensures DecodeGroup(w, x, y, 0)[..2] == DecodeGroup(w, x, y, z)[..2]
  {
  }

  /** A full group is decoded, and then what follows it. */
  lemma GroupThenRest(group: string, rest: string)
    requires |group| == 4 && forall i :: 0 <= i < 4 ==> DigitValue(group[i]).Some? && DigitValue(group[i]).value < 64 && group[i] != '='
    requires DecodePadded(rest).Some?
    ensures
      DecodePadded(group + rest)
      == Some(DecodeGroup(DigitValue(group[0]).value, DigitValue(group[1]).value, DigitValue(group[2]).value, DigitValue(group[3]).value)
              + DecodePadded(rest).value)
  {
    hide DigitValue, DecodeGroup;
    var text := group + rest;
    assert text[4..] == rest;
    assert text[0] == group[0] && text[1] == group[1] && text[2] == group[2] && text[3] == group[3];
  }

  lemma FirstThree(data: seq<Byte>)
    requires |data| >= 3
    ensures [data[0] as int as Byte, data[1] as int as Byte, data[2] as int as Byte] + data[3..] == data
  {
  }

  lemma {:induction false} PaddedRoundTrip(data: seq<Byte>)
    ensures DecodePadded(EncodePadded(data)) == Some(data)
  {
    if |data| >= 3 {
      hide Digit, DigitValue, EncodeGroup, DecodeGroup, DecodePadded;
      var a, b, c := data[0] as int, data[1] as int, data[2] as int;
      var group, rest := EncodeGroup(a, b, c), EncodePadded(data[3..]);
      GroupRoundTrip(a, b, c);
      PaddedRoundTrip(data[3..]);
      GroupThenRest(group, rest);
      FirstThree(data);
    } else if |data| == 2 {
      assert data == [data[0], data[1]];
      TwoBytes(data[0], data[1]);
    } else if |data| == 1 {
      assert data == [data[0]];
      OneByte(data[0]);
    }
  }

  lemma {:induction false} StrippingPadding(text: string, n: nat)
    requires text == "" || text[|text| - 1] != '='
    ensures StripPadding(text + Padding(n)) == text
  {
    if n == 0 {
      assert text + "" == text;
    } else {
      PaddingEnds(n);
      var all := text + Padding(n);
      assert all[..|all| - 1] == text + Padding(n - 1);
      StrippingPadding(text, n - 1);
    }
  }

  lemma {:induction false} PaddingEnds(n: nat)
    ensures |Padding(n)| == n
    ensures n > 0 ==> Padding(n)[n - 1] == '=' && Padding(n)[..n - 1] == Padding(n - 1)
  {
    if n > 1 {
      PaddingEnds(n - 1);
      assert Padding(n)[..n - 1] == "=" + Padding(n - 1)[..n - 2];
    }
  }

  lemma ShortPaddings()
    ensures Padding(1) == "=" && Padding(2) == "=="
  {
    assert Padding(2) == "=" + Padding(1);
  }

  lemma FourMore(n: nat)
    ensures Missing(n + 4) == Missing(n)
  {
  }

  /** A group in front changes neither the padding nor the last character. */
  lemma GroupInFront(group: string, rest: string)
    requires |group| == 4 && group[3] != '=' && (rest == "" || rest[|rest| - 1] != '=')
    ensures group + (rest + Padding(Missing(|rest|))) == (group + rest) + Padding(Missing(|group + rest|))
    ensures (group + rest)[|group + rest| - 1] != '='
  {
    hide Padding, Missing;
    FourMore(|rest|);
    Regroup(group, rest, Padding(Missing(|rest|)));
    if rest != "" {
      assert (group + rest)[|group + rest| - 1] == rest[|rest| - 1];
    }
  }

  lemma Regroup(a: string, b: string, c: string)
    ensures a + (b + c) == (a + b) + c
  {
  }

  /** Encoded text is unpadded text and as much padding as its length asks for. */
  lemma {:induction false} EncodedShape(data: seq<Byte>) returns (text: string)
    ensures EncodePadded(data) == text + Padding(Missing(|text|))
    ensures text == "" || text[|text| - 1] != '='
    ensures forall i :: 0 <= i < |text| ==> DigitValue(text[i]).Some?
  {
    hide Digit, DigitValue, EncodeGroup;
    if data == [] {
      text := "";
    } else if |data| <= 2 {
      text := ShortShape(data);
    } else {
      hide Padding;
      var group := EncodeGroup(data[0] as int, data[1] as int, data[2] as int);
      GroupRoundTrip(data[0] as int, data[1] as int, data[2] as int);
      var rest := EncodedShape(data[3..]);
      text := group + rest;
      GroupInFront(group, rest);
    }
  }

  lemma ShortShape(data: seq<Byte>) returns (text: string)
    requires 1 <= |data| <= 2
    ensures EncodePadded(data) == text + Padding(Missing(|text|))
    ensures text != "" && text[|text| - 1] != '='
    ensures forall i :: 0 <= i < |text| ==> DigitValue(text[i]).Some?
  {
    hide Digit, DigitValue, EncodeGroup, Padding;
    ShortPaddings();
    var group := EncodeGroup(data[0] as int, if |data| == 1 then 0 else data[1] as int, 0);
    GroupRoundTrip(data[0] as int, if |data| == 1 then 0 else data[1] as int, 0);
    text := group[..|data| + 1];
    assert forall i :: 0 <= i < |text| ==> text[i] == group[i];
  }

  /** Every byte string survives the cursor encoding, which uses only the URL-safe alphabet and no padding. */
  lemma CursorRoundTrip(data: seq<Byte>)
    ensures Decode(Encode(data)) == Some(data)
    ensures forall i :: 0 <= i < |Encode(data)| ==> UrlSafe(Encode(data)[i])
  {
    var text := EncodedShape(data);
    StrippingPadding(text, Missing(|text|));
    PaddedRoundTrip(data);
    forall i | 0 <= i < |text|
      ensures UrlSafe(text[i])
    {
      DigitsAreUrlSafe(text[i]);
    }
  }

  /** Letters, digits, and the two characters that need no escaping in a URL. */
  predicate UrlSafe(c: char) {
    'A' <= c <= 'Z' || 'a' <= c <= 'z' || '0' <= c <= '9' || c == '-' || c == '_'
  }

  lemma DigitsAreUrlSafe(c: char)
    ensures DigitValue(c).Some? <==> UrlSafe(c)
  {
  }

  /** Four digits are, in base 64, the number that their three bytes are in base 256. */
  lemma GroupIsNumber(a: int, b: int, c: int)
    requires 0 <= a < 256 && 0 <= b < 256 && 0 <= c < 256
    ensures
      var t := EncodeGroup(a, b, c);
      && (forall i :: 0 <= i < 4 ==> DigitValue(t[i]).Some?)
      && DigitValue(t[0]).value * 262144 + DigitValue(t[1]).value * 4096 + DigitValue(t[2]).value * 64 + DigitValue(t[3]).value
         == a * 65536 + b * 256 + c
  {
    hide Digit, DigitValue;
    DigitRoundTrip(a / 4);
    DigitRoundTrip(a % 4 * 16 + b / 16);
    DigitRoundTrip(b % 16 * 4 + c / 64);
    DigitRoundTrip(c % 64);
  }
}
