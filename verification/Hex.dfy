/** Hexadecimal text for binary values: either letter case is read, lower case is written. */
module Hex {
  import opened Basics

  const DIGITS: string := "0123456789abcdef"

  function DigitValue(c: char): Option<byte> {
    if '0' <= c <= '9' then Some(c as int as byte - 48)
    else if 'a' <= c <= 'f' then Some(c as int as byte - 87)
    else if 'A' <= c <= 'F' then Some(c as int as byte - 55)
    else None
  }

  function Encode(bs: bytes): (s: string)
    ensures |s| == 2 * |bs|
  {
    if bs == [] then "" else [DIGITS[bs[0] / 16], DIGITS[bs[0] % 16]] + Encode(bs[1..])
  }

  function Decode(s: string): (r: Option<bytes>)
    ensures r.Some? ==> 2 * |r.value| == |s|
  {
    if s == "" then Some([])
    else if |s| == 1 then None
    else
      match (DigitValue(s[0]), DigitValue(s[1]), Decode(s[2..]))
      case (Some(high), Some(low), Some(rest)) =>
        Some([(16 * high as int + low as int) as byte] + rest)
      case _ => None
  }

  lemma DigitRoundTrip(d: byte)
    requires d < 16
    ensures DigitValue(DIGITS[d]) == Some(d)
  {
    assert DIGITS[..10] == "0123456789" && DIGITS[10..] == "abcdef";
  }

  lemma DecodePair(high: byte, low: byte, rest: string, tail: bytes)
    requires high < 16 && low < 16 && Decode(rest) == Some(tail)
    ensures Decode([DIGITS[high], DIGITS[low]] + rest) == Some([(16 * high as int + low as int) as byte] + tail)
  {
    var s := [DIGITS[high], DIGITS[low]] + rest;
    DigitRoundTrip(high);
    DigitRoundTrip(low);
    assert s[0] == DIGITS[high] && s[1] == DIGITS[low] && s[2..] == rest;
  }

  // ----- What hexadecimal text is -----

  predicate HexDigit(c: char) {
    '0' <= c <= '9' || 'a' <= c <= 'f' || 'A' <= c <= 'F'
  }

  /** The value of a digit: its distance from 0, or ten more than its distance from A in its letter case. */
  function Weight(c: char): int
    requires HexDigit(c)
  {
    if c <= '9' then c as int - '0' as int
    else if c <= 'F' then 10 + (c as int - 'A' as int)
    else 10 + (c as int - 'a' as int)
  }

  /** The text spells the bytes, two digits each, the high one first. */
  ghost predicate IsHexOf(s: string, bs: bytes) {
    && |s| == 2 * |bs|
    && (forall i :: 0 <= i < |s| ==> HexDigit(s[i]))
    && (forall k :: 0 <= k < |bs| ==> bs[k] as int == 16 * Weight(s[2 * k]) + Weight(s[2 * k + 1]))
  }

  lemma DigitValueIff(c: char)
    ensures DigitValue(c).Some? <==> HexDigit(c)
    ensures HexDigit(c) ==> DigitValue(c).value as int == Weight(c) && Weight(c) < 16
  {
  }

  lemma TailIsHex(s: string, bs: bytes)
    requires |s| >= 2 && |bs| > 0
    ensures IsHexOf(s, bs) <==>
            && HexDigit(s[0]) && HexDigit(s[1]) && bs[0] as int == 16 * Weight(s[0]) + Weight(s[1])
            && IsHexOf(s[2..], bs[1..])
  {
    if IsHexOf(s, bs) {
      forall k | 0 <= k < |bs[1..]|
        ensures bs[1..][k] as int == 16 * Weight(s[2..][2 * k]) + Weight(s[2..][2 * k + 1])
      {
        assert bs[1..][k] == bs[k + 1] && s[2..][2 * k] == s[2 * (k + 1)] && s[2..][2 * k + 1] == s[2 * (k + 1) + 1];
      }
    }
    if HexDigit(s[0]) && HexDigit(s[1]) && IsHexOf(s[2..], bs[1..]) {
      forall i | 0 <= i < |s|
        ensures HexDigit(s[i])
      {
        assert i >= 2 ==> s[i] == s[2..][i - 2];
      }
      forall k | 1 <= k < |bs|
        ensures bs[k] as int == 16 * Weight(s[2 * k]) + Weight(s[2 * k + 1])
      {
        assert bs[k] == bs[1..][k - 1] && s[2 * k] == s[2..][2 * (k - 1)] && s[2 * k + 1] == s[2..][2 * (k - 1) + 1];
      }
    }
  }

  lemma TailIsDecoded(s: string, bs: bytes)
    requires |s| >= 2 && |bs| > 0
    ensures Decode(s) == Some(bs) <==>
            && HexDigit(s[0]) && HexDigit(s[1]) && bs[0] as int == 16 * Weight(s[0]) + Weight(s[1])
            && Decode(s[2..]) == Some(bs[1..])
  {
    DigitValueIff(s[0]);
    DigitValueIff(s[1]);
    var rest := Decode(s[2..]);
    if HexDigit(s[0]) && HexDigit(s[1]) && rest.Some? {
      var first := (16 * Weight(s[0]) + Weight(s[1])) as byte;
      assert Decode(s) == Some([first] + rest.value);
      FirstAndRest(first, rest.value, bs);
    } else {
      assert Decode(s).None?;
    }
  }

  lemma FirstAndRest(first: byte, rest: bytes, bs: bytes)
    requires |bs| > 0
    ensures [first] + rest == bs <==> first == bs[0] && rest == bs[1..]
  {
    assert ([first] + rest)[1..] == rest && bs == [bs[0]] + bs[1..];
  }

  /** Decoding accepts exactly the texts of digits of either case, in pairs, and gives the bytes they spell. */
  lemma {:induction false} DecodeIff(s: string, bs: bytes)
    ensures Decode(s) == Some(bs) <==> IsHexOf(s, bs)
  {
    if |s| >= 2 && |bs| > 0 {
      DecodeIff(s[2..], bs[1..]);
      TailIsHex(s, bs);
      TailIsDecoded(s, bs);
    } else {
      assert |s| != 2 * |bs| || (s == "" && bs == []);
    }
  }

  predicate IsHex(s: string) {
    |s| % 2 == 0 && forall i :: 0 <= i < |s| ==> HexDigit(s[i])
  }

  lemma {:induction false} DecodesIff(s: string)
    ensures Decode(s).Some? <==> IsHex(s)
  {
    if |s| >= 2 {
      DigitValueIff(s[0]);
      DigitValueIff(s[1]);
      DecodesIff(s[2..]);
      assert IsHex(s) <==> HexDigit(s[0]) && HexDigit(s[1]) && IsHex(s[2..]) by {
        assert forall i :: 2 <= i < |s| ==> s[i] == s[2..][i - 2];
      }
    }
  }

  /** Whatever was encoded can be decoded. */
  lemma {:induction false} RoundTrip(bs: bytes)
    ensures Decode(Encode(bs)) == Some(bs)
  {
    if bs != [] {
      RoundTrip(bs[1..]);
      DecodePair(bs[0] / 16, bs[0] % 16, Encode(bs[1..]), bs[1..]);
      assert 16 * ((bs[0] / 16) as int) + (bs[0] % 16) as int == bs[0] as int;
      assert [bs[0]] + bs[1..] == bs;
    }
  }
}
