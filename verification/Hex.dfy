// Lower-case hexadecimal text of byte strings (encoding/hex).
module Hex {
  import opened Common

  type Byte = x: nat | x < 256

  function Digit(n: nat): (c: char)
    requires n < 16
  {
    if n < 10 then '0' + n as char else 'a' + (n - 10) as char
  }

  /** The value of a digit in either case, as hex.DecodeString reads it. */
  function Value(c: char): (v: Option<nat>)
    ensures v.Some? ==> v.value < 16
  {
    if '0' <= c <= '9' then Some(c as nat - '0' as nat)
    else if 'a' <= c <= 'f' then Some(c as nat - 'a' as nat + 10)
    else if 'A' <= c <= 'F' then Some(c as nat - 'A' as nat + 10)
    else None
  }

  function High(b: Byte): nat { b / 16 }
  function Low(b: Byte): nat { b % 16 }

  /** The byte that two digits write, if both are digits. */
  function Pair(c: char, d: char): Option<Byte> {
    if Value(c).None? || Value(d).None? then None else Some(16 * Value(c).value + Value(d).value)
  }

  function Encode(bs: seq<Byte>): (s: string)
    ensures |s| == 2 * |bs|
  {
    if bs == [] then "" else [Digit(High(bs[0])), Digit(Low(bs[0]))] + Encode(bs[1..])
  }

  function Decode(s: string): (r: Option<seq<Byte>>)
    ensures r.Some? ==> |s| == 2 * |r.value|
  {
    if s == "" then Some([])
    else if |s| == 1 then None
    else Cons(Pair(s[0], s[1]), Decode(s[2..]))
  }

  function Cons(b: Option<Byte>, rest: Option<seq<Byte>>): Option<seq<Byte>> {
    if b.None? || rest.None? then None else Some([b.value] + rest.value)
  }

  predicate IsLowerDigit(c: char) {
    '0' <= c <= '9' || 'a' <= c <= 'f'
  }

  predicate IsLower(s: string) {
    forall i | 0 <= i < |s| :: IsLowerDigit(s[i])
  }

  predicate IsHex(s: string) {
    forall i | 0 <= i < |s| :: Value(s[i]).Some?
  }

  lemma PairOfDigits(b: Byte)
    ensures Pair(Digit(High(b)), Digit(Low(b))) == Some(b)
    ensures IsLowerDigit(Digit(High(b))) && IsLowerDigit(Digit(Low(b)))
  {
    assert b == 16 * High(b) + Low(b);
  }

  lemma DigitsOfPair(c: char, d: char)
    requires IsLowerDigit(c) && IsLowerDigit(d)
    ensures Pair(c, d).Some? && Digit(High(Pair(c, d).value)) == c && Digit(Low(Pair(c, d).value)) == d
  {
    var h, l := Value(c).value, Value(d).value;
    assert (16 * h + l) / 16 == h && (16 * h + l) % 16 == l;
  }

  lemma {:induction false} DecodeEncode(bs: seq<Byte>)
    ensures Decode(Encode(bs)) == Some(bs) && IsLower(Encode(bs))
  {
    if bs != [] {
      DecodeEncode(bs[1..]);
      PairOfDigits(bs[0]);
      var h := Encode(bs);
      assert h[2..] == Encode(bs[1..]) && Pair(h[0], h[1]) == Some(bs[0]);
      assert bs == [bs[0]] + bs[1..];
      forall i | 0 <= i < |h| ensures IsLowerDigit(h[i]) {
        if i >= 2 { assert h[i] == h[2..][i - 2]; }
      }
    }
  }

  /** Lower-case text of even length decodes, and encoding the bytes gives it back. */
  lemma {:induction false} EncodeDecode(s: string)
    requires IsLower(s) && |s| % 2 == 0
    ensures Decode(s).Some? && Encode(Decode(s).value) == s
  {
    if s != "" {
      EncodeDecode(s[2..]);
      DigitsOfPair(s[0], s[1]);
      assert Decode(s).value[1..] == Decode(s[2..]).value;
    }
  }

  /** Exactly the even-length digit strings, in either case, decode. */
  lemma {:induction false} DecodesExactly(s: string)
    ensures Decode(s).Some? <==> |s| % 2 == 0 && IsHex(s)
  {
    if |s| > 1 {
      DecodesExactly(s[2..]);
      assert forall i | 2 <= i < |s| :: s[i] == s[2..][i - 2];
      assert forall i | 0 <= i < |s[2..]| :: s[2..][i] == s[i + 2];
    }
  }
}
