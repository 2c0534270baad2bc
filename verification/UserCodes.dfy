/** User codes: 24 random bits written as eight base-32 characters, four and four. */
module UserCodes {
  import opened Basics

  const CHARSET: string := "ABCDEFGHJKLMNPQRSTUVWXYZ23456789"

  function Random24(b: bytes): nat
    requires |b| == 3
  {
    b[0] as int * 0x10000 + b[1] as int * 0x100 + b[2] as int
  }

  // ----- Digits over an alphabet of 32 characters -----

  /** The `len` lowest base-32 digits of `n`, most significant first. */
  function Digits(cs: string, n: nat, len: nat): (s: string)
    requires |cs| == 32
    ensures |s| == len
  {
    if len == 0 then "" else Digits(cs, n / 32, len - 1) + [cs[n % 32]]
  }

  function DigitValue(cs: string, c: char): (v: Option<nat>)
    requires |cs| == 32
    ensures v.Some? ==> v.value < 32 && cs[v.value] == c
    ensures v.None? ==> c !in cs
  {
    DigitValueFrom(cs, c, 0)
  }

  function DigitValueFrom(cs: string, c: char, i: nat): (v: Option<nat>)
    requires |cs| == 32 && i <= 32
    ensures v.Some? ==> i <= v.value < 32 && cs[v.value] == c
    ensures v.None? ==> forall j :: i <= j < 32 ==> cs[j] != c
    decreases 32 - i
  {
    if i == 32 then None else if cs[i] == c then Some(i) else DigitValueFrom(cs, c, i + 1)
  }

  /** Reads a digit string back as a number. */
  function Value(cs: string, s: string): (v: Option<nat>)
    requires |cs| == 32
  {
    if s == "" then Some(0) else
    match (Value(cs, s[..|s| - 1]), DigitValue(cs, s[|s| - 1]))
    case (Some(high), Some(low)) => Some(32 * high + low)
    case _ => None
  }

  predicate Distinct(cs: string) {
    forall i, j :: 0 <= i < |cs| && 0 <= j < |cs| && cs[i] == cs[j] ==> i == j
  }

  /** What `len` digits leave of a number. */
  function Rest(n: nat, len: nat): nat {
    if len == 0 then n else Rest(n / 32, len - 1)
  }

  /** One more digit of a number in front of some text. */
  lemma DigitsNext(cs: string, n: nat, len: nat, rest: string)
    requires |cs| == 32
    ensures Digits(cs, n, len + 1) + rest == Digits(cs, n / 32, len) + ([cs[n % 32]] + rest)
  {
  }

  lemma ValueOfLonger(cs: string, high: nat, low: nat, s: string)
    requires |cs| == 32 && Distinct(cs) && low < 32 && Value(cs, s) == Some(high)
    ensures Value(cs, s + [cs[low]]) == Some(32 * high + low)
  {
    assert (s + [cs[low]])[..|s|] == s;
  }

  lemma ValueOfNext(cs: string, n: nat, len: nat)
    requires |cs| == 32 && Distinct(cs) && Value(cs, Digits(cs, n / 32, len)) == Some(n / 32)
    ensures Value(cs, Digits(cs, n, len + 1)) == Some(n)
  {
    var high, low, digits := n / 32, n % 32, Digits(cs, n / 32, len);
    assert n == 32 * high + low && Digits(cs, n, len + 1) == digits + [cs[low]];
    ValueOfLonger(cs, high, low, digits);
  }

  lemma {:induction false} ValueOfDigits(cs: string, n: nat, len: nat)
    requires |cs| == 32 && Distinct(cs) && Rest(n, len) == 0
    ensures Value(cs, Digits(cs, n, len)) == Some(n)
  {
    if len > 0 {
      ValueOfDigits(cs, n / 32, len - 1);
      ValueOfNext(cs, n, len - 1);
    }
  }

  // ----- User codes -----

  function UserCode(n: nat): string {
    Digits(CHARSET, n, 8)[..4] + "-" + Digits(CHARSET, n, 8)[4..]
  }

  lemma CharsetAt(i: nat)
    requires i < 32
    ensures CHARSET[i] as int == if i < 8 then 65 + i else if i < 13 then 66 + i else if i < 24 then 67 + i else 26 + i
  {
  }

  /** Letters and digits that are not easily taken for another one: no I, O, 0 or 1. */
  predicate Readable(c: char) {
    ('A' <= c <= 'Z' && c != 'I' && c != 'O') || '2' <= c <= '9'
  }

  lemma {:induction false} DigitsAreReadable(n: nat, len: nat)
    ensures forall i :: 0 <= i < len ==> Readable(Digits(CHARSET, n, len)[i])
  {
    if len > 0 {
      DigitsAreReadable(n / 32, len - 1);
      CharsetAt(n % 32);
      assert Readable(CHARSET[n % 32]);
    }
  }

  lemma CharsetIsDistinct()
    ensures Distinct(CHARSET)
  {
    forall i, j | 0 <= i < 32 && 0 <= j < 32 && CHARSET[i] == CHARSET[j]
      ensures i == j
    {
      CharsetAt(i);
      CharsetAt(j);
    }
  }

  lemma RestOfRandom24(n: nat)
    requires n < 0x1_000_000
    ensures Rest(n, 8) == 0
  {
    var m := n / 32 / 32 / 32;
    assert Rest(n, 8) == Rest(n / 32, 7) == Rest(n / 32 / 32, 6) == Rest(m, 5);
    assert m < 512 && Rest(m, 5) == Rest(m / 32, 4) == Rest(m / 32 / 32, 3);
    assert Rest(0, 3) == Rest(0, 2) == Rest(0, 1) == Rest(0, 0);
  }

  /** The code is made of characters that are easily told apart, and the random bits can be read back from it, so no
      two draws share a code. */
  lemma UserCodeRoundTrip(b: bytes)
    requires |b| == 3
    ensures var code := UserCode(Random24(b));
            && |code| == 9 && code[4] == '-' && (forall i :: 0 <= i < 9 && i != 4 ==> Readable(code[i]))
            && Value(CHARSET, code[..4] + code[5..]) == Some(Random24(b))
  {
    var n := Random24(b);
    RestOfRandom24(n);
    CharsetIsDistinct();
    DigitsAreReadable(n, 8);
    ValueOfDigits(CHARSET, n, 8);
    var code := UserCode(n);
    assert code[..4] + code[5..] == Digits(CHARSET, n, 8);
  }

  method GenerateUserCode(b: bytes) returns (code: string)
    requires |b| == 3
    ensures code == UserCode(Random24(b))
  {
    var n: nat := b[0] as int * 0x10000 + b[1] as int * 0x100 + b[2] as int;
    var out := FillDigits(CHARSET, n);
    code := out[..4] + "-" + out[4..];
  }

  /** The digit loop, from the low digit up. */
  method FillDigits(cs: string, n0: nat) returns (digits: string)
    requires |cs| == 32
    ensures digits == Digits(cs, n0, 8)
  {
    var n := n0;
    var out := new char[8];
    var i := 7;
    while i >= 0
      invariant -1 <= i <= 7
      invariant Digits(cs, n0, 8) == Digits(cs, n, i + 1) + out[i + 1..]
    {
      DigitsNext(cs, n, i, out[i + 1..]);
      out[i] := cs[n % 32];
      assert out[i..] == [cs[n % 32]] + out[i + 1..];
      n := n / 32;
      i := i - 1;
    }
    digits := out[..];
  }
}
