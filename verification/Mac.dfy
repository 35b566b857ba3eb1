// 48-bit MAC arithmetic on hexadecimal text (internal/api/handlers/admin.go, cmd/seedinventory/main.go).
module Mac {
  import opened Common
  import Hex

  const TWO48: nat := 0x1_0000_0000_0000
  const TWO64: nat := 0x1_0000_0000_0000_0000

  // ---------- big-endian numbers ----------

  function Pow256(n: nat): (p: nat)
    ensures p > 0
  {
    if n == 0 then 1 else 256 * Pow256(n - 1)
  }

  function ValueOf(bs: seq<Hex.Byte>): nat {
    if bs == [] then 0 else 256 * ValueOf(bs[..|bs| - 1]) + bs[|bs| - 1]
  }

  /** The n low bytes of v, most significant first. */
  function BytesOf(v: nat, n: nat): (bs: seq<Hex.Byte>)
    ensures |bs| == n
  {
    if n == 0 then [] else BytesOf(v / 256, n - 1) + [v % 256]
  }

  lemma ModSplit(v: nat, p: nat)
    requires p > 0
    ensures v % (256 * p) == 256 * ((v / 256) % p) + v % 256
  {
    var q, r := (v / 256) / p, (v / 256) % p;
    assert v / 256 == p * q + r;
    assert v == 256 * (p * q + r) + v % 256;
    assert 256 * (p * q) == (256 * p) * q;
    ModUnique(v, 256 * p, q, 256 * r + v % 256);
  }

  lemma AtLeast(d: nat, k: nat)
    requires k >= 1
    ensures d * k >= d
  {
  }

  lemma ModUnique(v: nat, d: nat, q: nat, r: nat)
    requires d > 0 && v == d * q + r && r < d
    ensures v % d == r
  {
    var q', r' := v / d, v % d;
    assert v == d * q' + r';
    assert d * q - d * q' == d * (q - q') && d * q' - d * q == d * (q' - q);
    if q' < q { AtLeast(d, q - q'); }
    if q < q' { AtLeast(d, q' - q); }
  }

  lemma {:induction false} ValueOfBytes(v: nat, n: nat)
    ensures ValueOf(BytesOf(v, n)) == v % Pow256(n)
  {
    if n > 0 {
      ValueOfBytes(v / 256, n - 1);
      assert BytesOf(v, n)[..n - 1] == BytesOf(v / 256, n - 1);
      ModSplit(v, Pow256(n - 1));
    }
  }

  lemma {:induction false} BytesOfValue(bs: seq<Hex.Byte>)
    ensures ValueOf(bs) < Pow256(|bs|) && BytesOf(ValueOf(bs), |bs|) == bs
  {
    if bs != [] {
      var init := bs[..|bs| - 1];
      BytesOfValue(init);
      assert ValueOf(bs) / 256 == ValueOf(init) && ValueOf(bs) % 256 == bs[|bs| - 1];
      assert bs == init + [bs[|bs| - 1]];
    }
  }

  lemma {:induction false} LowBytes(v: nat, n: nat, k: nat)
    requires k <= n
    ensures BytesOf(v, n)[k..] == BytesOf(v, n - k)
  {
    if k < n { LowBytes(v / 256, n - 1, k); }
  }

  lemma {:induction false} BytesOfMod(v: nat, w: nat, n: nat)
    requires v % Pow256(n) == w % Pow256(n)
    ensures BytesOf(v, n) == BytesOf(w, n)
  {
    if n > 0 {
      ModSplit(v, Pow256(n - 1));
      ModSplit(w, Pow256(n - 1));
      BytesOfMod(v / 256, w / 256, n - 1);
    }
  }

  lemma Powers()
    ensures Pow256(6) == TWO48 && Pow256(8) == TWO64
  {
    assert Pow256(3) == 0x100_0000;
    assert Pow256(6) == TWO48;
  }

  // ---------- the helper and what it denotes ----------

  /** Six bytes in hexadecimal, either case. */
  predicate IsMac(mac: string) {
    |mac| == 12 && Hex.IsHex(mac)
  }

  /** The number a MAC writes. */
  function Denotes(mac: string): nat
    requires IsMac(mac)
  {
    Hex.DecodesExactly(mac);
    ValueOf(Hex.Decode(mac).value)
  }

  function PlusN(mac: string, n: nat): string {
    var b := Hex.Decode(mac);
    if b.None? || |b.value| != 6 then ""
    else Hex.Encode(BytesOf((ValueOf(b.value) + n) % TWO64, 8)[2..])
  }

  lemma {:induction false} PlusNBytes(mac: string, n: nat)
    requires IsMac(mac)
    ensures PlusN(mac, n) == Hex.Encode(BytesOf(Denotes(mac) + n, 6))
  {
    Hex.DecodesExactly(mac);
    var v := Denotes(mac) + n;
    LowBytes(v % TWO64, 8, 2);
    Powers();
    Mod64Then48(v);
    BytesOfMod(v % TWO64, v, 6);
  }

  lemma Mod64Then48(v: nat)
    ensures (v % TWO64) % TWO48 == v % TWO48
  {
    var q, r := v / TWO64, v % TWO64;
    var q', r' := r / TWO48, r % TWO48;
    assert v == TWO48 * (0x1_0000 * q + q') + r';
    ModUnique(v, TWO48, 0x1_0000 * q + q', r');
  }

  /** Adding n means adding modulo 2^48, and the result is twelve lower-case digits again. */
  lemma {:induction false} PlusNAdds(mac: string, n: nat)
    requires IsMac(mac)
    ensures IsMac(PlusN(mac, n)) && Hex.IsLower(PlusN(mac, n))
    ensures Denotes(PlusN(mac, n)) == (Denotes(mac) + n) % TWO48
  {
    var bs := BytesOf(Denotes(mac) + n, 6);
    PlusNBytes(mac, n);
    Hex.DecodeEncode(bs);
    Hex.DecodesExactly(Hex.Encode(bs));
    ValueOfBytes(Denotes(mac) + n, 6);
    Powers();
  }

  /** Two MACs that write the same number are the same up to letter case. */
  lemma {:induction false} DenotesInjective(a: string, b: string)
    requires IsMac(a) && IsMac(b) && Hex.IsLower(a) && Hex.IsLower(b) && Denotes(a) == Denotes(b)
    ensures a == b
  {
    Hex.EncodeDecode(a);
    Hex.EncodeDecode(b);
    BytesOfValue(Hex.Decode(a).value);
    BytesOfValue(Hex.Decode(b).value);
  }

  /** For fixed n, different MACs stay different. */
  lemma {:induction false} PlusNInjective(a: string, b: string, n: nat)
    requires IsMac(a) && IsMac(b) && Hex.IsLower(a) && Hex.IsLower(b) && PlusN(a, n) == PlusN(b, n)
    ensures a == b
  {
    PlusNAdds(a, n);
    PlusNAdds(b, n);
    Below48(a);
    Below48(b);
    SameRemainder(Denotes(a), Denotes(b), n);
    DenotesInjective(a, b);
  }

  lemma SameRemainder(x: nat, y: nat, n: nat)
    requires x < TWO48 && y < TWO48 && (x + n) % TWO48 == (y + n) % TWO48
    ensures x == y
  {
    assert x + n == TWO48 * ((x + n) / TWO48) + (x + n) % TWO48;
    assert y + n == TWO48 * ((y + n) / TWO48) + (y + n) % TWO48;
  }

  /** Two addresses above is another address. */
  lemma NotItself(x: nat)
    requires x < TWO48
    ensures (x + 2) % TWO48 != x
  {
  }

  lemma Below48(mac: string)
    requires IsMac(mac)
    ensures Denotes(mac) < TWO48
  {
    Hex.DecodesExactly(mac);
    BytesOfValue(Hex.Decode(mac).value);
    Powers();
  }

  /** Increments compose, whatever the uint64 sum wraps to. */
  lemma {:induction false} PlusNComposes(mac: string, a: nat, b: nat)
    requires IsMac(mac)
    ensures PlusN(PlusN(mac, a), b) == PlusN(mac, (a + b) % TWO64)
  {
    PlusNAdds(mac, a);
    PlusNBytes(PlusN(mac, a), b);
    PlusNBytes(mac, (a + b) % TWO64);
    var v := Denotes(mac);
    var q1, r1 := (v + a) / TWO48, (v + a) % TWO48;
    var q2, r2 := (a + b) / TWO64, (a + b) % TWO64;
    assert v + a == TWO48 * q1 + r1 && a + b == TWO48 * (0x1_0000 * q2) + r2;
    SameMod(r1 + b, v + r2, q1, 0x1_0000 * q2);
    Powers();
    BytesOfMod(r1 + b, v + r2, 6);
  }

  lemma SameMod(x: nat, y: nat, p: nat, q: nat)
    requires x + TWO48 * p == y + TWO48 * q
    ensures x % TWO48 == y % TWO48
  {
    ModUnique(x + TWO48 * p, TWO48, x / TWO48 + p, x % TWO48);
    ModUnique(y + TWO48 * q, TWO48, y / TWO48 + q, y % TWO48);
  }

  // ---------- the byte buffer ----------

  /** Eight zeroed bytes with six copied behind the first two. */
  method Pad(bs: seq<Hex.Byte>) returns (padded: array<Hex.Byte>)
    requires |bs| == 6
    ensures fresh(padded) && padded[..] == [0, 0] + bs
  {
    padded := new Hex.Byte[8](_ => 0);
    var i := 0;
    while i < 6
      invariant 0 <= i <= 6 && padded[0] == 0 && padded[1] == 0
      invariant forall k | 0 <= k < i :: padded[2 + k] == bs[k]
    {
      padded[2 + i] := bs[i];
      i := i + 1;
    }
    assert forall k | 0 <= k < 6 :: padded[..][2 + k] == bs[k];
  }

  /** Eight bytes of a zeroed buffer, the MAC copied behind two of them, one 64-bit addition. */
  method PlusNInPlace(mac: string, n: nat) returns (r: string)
    requires n < TWO64
    ensures r == PlusN(mac, n)
  {
    var b := Hex.Decode(mac);
    if b.None? || |b.value| != 6 { return ""; }
    var padded := Pad(b.value);
    var val := ReadUint64(padded);
    LeadingZeros(b.value);
    WriteUint64(padded, (val + n) % TWO64);
    return Hex.Encode(padded[2..]);
  }

  lemma {:induction false} LeadingZeros(bs: seq<Hex.Byte>)
    ensures ValueOf([0, 0] + bs) == ValueOf(bs)
  {
    if bs == [] {
      assert [0, 0] + bs == [0, 0] && [0, 0][..1] == [0];
      assert ValueOf([0]) == 0;
    } else {
      LeadingZeros(bs[..|bs| - 1]);
      assert ([0, 0] + bs)[..|bs| + 1] == [0, 0] + bs[..|bs| - 1];
    }
  }

  /** binary.BigEndian.Uint64. */
  method ReadUint64(a: array<Hex.Byte>) returns (v: nat)
    requires a.Length == 8
    ensures v == ValueOf(a[..])
  {
    v := 0;
    for i := 0 to 8
      invariant v == ValueOf(a[..i])
    {
      assert a[..i + 1][..i] == a[..i];
      v := 256 * v + a[i];
    }
    assert a[..8] == a[..];
  }

  /** binary.BigEndian.PutUint64. */
  method WriteUint64(a: array<Hex.Byte>, v: nat)
    requires a.Length == 8
    modifies a
    ensures a[..] == BytesOf(v, 8)
  {
    var rest := v;
    var i := 8;
    while i > 0
      invariant 0 <= i <= 8
      invariant BytesOf(v, 8) == BytesOf(rest, i) + a[i..]
    {
      i := i - 1;
      a[i] := rest % 256;
      assert a[i..] == [a[i]] + a[i + 1..];
      rest := rest / 256;
    }
  }

  // ---------- the copy in cmd/seedinventory ----------

  /** The bytes hex.DecodeString returns beside an error: the pairs before the first bad one. */
  function DecodedPrefix(s: string): seq<Hex.Byte> {
    if |s| < 2 || Hex.Pair(s[0], s[1]).None? then [] else [Hex.Pair(s[0], s[1]).value] + DecodedPrefix(s[2..])
  }

  /** That copy ignores the error and slices the buffer from the right; None is its panic. */
  function SeedPlusN(mac: string, n: nat): Option<string> {
    var b := DecodedPrefix(mac);
    if |b| > 8 then None
    else Some(Hex.Encode(BytesOf((ValueOf(b) + n) % TWO64, 8)[2..]))
  }

  lemma {:induction false} PrefixIsDecode(s: string)
    ensures Hex.Decode(s).Some? ==> DecodedPrefix(s) == Hex.Decode(s).value
  {
    if |s| >= 2 { PrefixIsDecode(s[2..]); }
  }

  /** The two copies give the same answer exactly on valid MACs. */
  lemma {:induction false} CopiesAgreeExactly(mac: string, n: nat)
    ensures SeedPlusN(mac, n) == Some(PlusN(mac, n)) <==> IsMac(mac)
  {
    Hex.DecodesExactly(mac);
    PrefixIsDecode(mac);
    if !IsMac(mac) && SeedPlusN(mac, n).Some? { assert |SeedPlusN(mac, n).value| == 12; }
  }
}
