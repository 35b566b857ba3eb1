// The work list of a manufacturing batch: MACs normalised, validated and de-duplicated
// (internal/api/handlers/admin.go).
module WorkList {
  import opened Common
  import Hex
  import Mac
  import opened Text

  // ---------- normMAC ----------

  function Strip(s: string): string {
    if s == "" then ""
    else if s[0] == ':' || s[0] == '-' then Strip(s[1..])
    else [s[0]] + Strip(s[1..])
  }

  function Norm(s: string): string {
    Lower(Strip(Trim(s)))
  }

  /** The pattern ^[0-9a-f]{12}$. */
  predicate IsValid(m: string) {
    |m| == 12 && Hex.IsLower(m)
  }

  lemma {:induction false} StripKeeps(s: string)
    requires Hex.IsLower(s)
    ensures Strip(s) == s
  {
    if s != "" { StripKeeps(s[1..]); }
  }

  /** A stored MAC is its own normal form, so every handler finds it under the text it was stored with. */
  lemma {:induction false} NormKeepsValid(m: string)
    requires IsValid(m)
    ensures Norm(m) == m && Mac.IsMac(m)
  {
    assert Hex.IsLowerDigit(m[0]) && Hex.IsLowerDigit(m[11]);
    assert Trim(m) == m;
    StripKeeps(m);
    assert forall i | 0 <= i < |m| :: Hex.IsLowerDigit(m[i]);
    assert Lower(m) == m;
  }

  // ---------- the list ----------

  /** Err carries the first text that is not a MAC. */
  function WorkOf(raws: seq<string>): Result<seq<string>, string> {
    if raws == [] then Ok([]) else
      var n := |raws| - 1;
      match WorkOf(raws[..n])
      case Err(raw) => Err(raw)
      case Ok(macs) =>
        if !IsValid(Norm(raws[n])) then Err(raws[n])
        else if Norm(raws[n]) in macs then Ok(macs)
        else Ok(macs + [Norm(raws[n])])
  }

  function Norms(raws: seq<string>): (ms: seq<string>)
    ensures |ms| == |raws|
  {
    seq(|raws|, i requires 0 <= i < |raws| => Norm(raws[i]))
  }

  predicate AllValid(ms: seq<string>) {
    forall m | m in ms :: IsValid(m)
  }

  predicate Distinct(macs: seq<string>) {
    forall i, j | 0 <= i < j < |macs| :: macs[i] != macs[j]
  }

  /** x occurs before the first y. */
  ghost predicate Before(ms: seq<string>, x: string, y: string) {
    exists k | 0 <= k < |ms| :: ms[k] == x && y !in ms[..k + 1]
  }

  ghost predicate InOrder(ms: seq<string>, macs: seq<string>) {
    forall i, j | 0 <= i < j < |macs| :: Before(ms, macs[i], macs[j])
  }

  /** What de-duplication promises: the same MACs, each once, in order of first occurrence. */
  ghost predicate IsWorkList(ms: seq<string>, macs: seq<string>) {
    Distinct(macs) && (forall m :: m in macs <==> m in ms) && InOrder(ms, macs)
  }

  lemma {:induction false} WorkOfExactly(raws: seq<string>)
    ensures WorkOf(raws).Ok? <==> AllValid(Norms(raws))
    ensures WorkOf(raws).Ok? ==> IsWorkList(Norms(raws), WorkOf(raws).value)
  {
    if raws != [] {
      var n := |raws| - 1;
      WorkOfExactly(raws[..n]);
      assert Norms(raws) == Norms(raws[..n]) + [Norm(raws[n])];
      if WorkOf(raws[..n]).Ok? { Extend(Norms(raws[..n]), Norm(raws[n]), WorkOf(raws[..n]).value); }
    }
  }

  lemma BeforeExtends(ms: seq<string>, m: string, x: string, y: string)
    requires Before(ms, x, y) || (x in ms && y !in ms)
    ensures Before(ms + [m], x, y)
  {
    var k :| 0 <= k < |ms| && ms[k] == x && y !in ms[..k + 1];
    assert (ms + [m])[..k + 1] == ms[..k + 1] && (ms + [m])[k] == x;
  }

  lemma {:induction false} Extend(ms: seq<string>, m: string, macs: seq<string>)
    requires IsWorkList(ms, macs)
    ensures IsWorkList(ms + [m], if m in macs then macs else macs + [m])
  {
    var all := if m in macs then macs else macs + [m];
    assert forall x :: x in all <==> x in ms + [m];
    forall i, j | 0 <= i < j < |all| ensures Before(ms + [m], all[i], all[j]) {
      assert macs[i] in macs;
      BeforeExtends(ms, m, all[i], all[j]);
    }
  }

  /** The refused text is the first that is not a MAC. */
  lemma {:induction false} RefusesTheFirst(raws: seq<string>)
    requires WorkOf(raws).Err?
    ensures exists i | 0 <= i < |raws| ::
      raws[i] == WorkOf(raws).error && !IsValid(Norm(raws[i])) && AllValid(Norms(raws[..i]))
  {
    var n := |raws| - 1;
    var init := raws[..n];
    WorkOfExactly(init);
    if WorkOf(init).Err? {
      RefusesTheFirst(init);
      var i :| 0 <= i < n && init[i] == WorkOf(init).error && !IsValid(Norm(init[i])) && AllValid(Norms(init[..i]));
      assert raws[..i] == init[..i];
    }
  }

  /** The three promises leave no choice: the work list is the only such sequence. */
  lemma {:induction false} WorkListIsUnique(ms: seq<string>, a: seq<string>, b: seq<string>)
    requires IsWorkList(ms, a) && IsWorkList(ms, b)
    ensures a == b
  {
    PrefixIsUnique(ms, a, b, |a|);
    PrefixIsUnique(ms, b, a, |b|);
    assert a[..|a|] == a && b[..|b|] == b;
  }

  lemma BeforeIsOneWay(ms: seq<string>, x: string, y: string)
    requires Before(ms, x, y)
    ensures !Before(ms, y, x)
  {
    var k :| 0 <= k < |ms| && ms[k] == x && y !in ms[..k + 1];
    assert forall l | 0 <= l <= k :: ms[..k + 1][l] == ms[l];
    forall l | 0 <= l < |ms| && ms[l] == y ensures x in ms[..l + 1] {
      assert l > k;
      assert ms[..l + 1][k] == x;
    }
  }

  /** Two lists in order cannot each hold the other's p-th MAC later on. */
  lemma Crossed(ms: seq<string>, a: seq<string>, b: seq<string>, p: nat, i: nat, j: nat)
    requires InOrder(ms, a) && InOrder(ms, b) && p <= i < |a| && p <= j < |b| && a[i] == b[p] && b[j] == a[p]
    ensures i == p || j == p
  {
    if p < i { BeforeIsOneWay(ms, a[p], b[p]); }
  }

  lemma {:induction false} PrefixIsUnique(ms: seq<string>, a: seq<string>, b: seq<string>, n: nat)
    requires IsWorkList(ms, a) && IsWorkList(ms, b) && n <= |a|
    ensures n <= |b| && a[..n] == b[..n]
  {
    if n > 0 {
      PrefixIsUnique(ms, a, b, n - 1);
      assert forall k | 0 <= k < n - 1 :: a[k] == a[..n - 1][k] && b[k] == b[..n - 1][k];
      var x := a[n - 1];
      assert x in b;
      var j :| 0 <= j < |b| && b[j] == x;
      assert j >= n - 1;
      assert b[n - 1] in a;
      var i :| 0 <= i < |a| && a[i] == b[n - 1];
      assert i >= n - 1;
      Crossed(ms, a, b, n - 1, i, j);
    }
  }

  /** The loop over the requested MACs with its `seen` set. */
  method Build(raws: seq<string>) returns (r: Result<seq<string>, string>)
    ensures r == WorkOf(raws)
  {
    var macs: seq<string>, seen: set<string> := [], {};
    for i := 0 to |raws|
      invariant WorkOf(raws[..i]) == Ok(macs)
      invariant forall m :: m in seen <==> m in macs
    {
      assert raws[..i + 1][..i] == raws[..i];
      var nm := Norm(raws[i]);
      if !IsValid(nm) {
        StopsAt(raws, i + 1);
        return Err(raws[i]);
      }
      if nm !in seen {
        seen := seen + {nm};
        macs := macs + [nm];
      }
    }
    assert raws[..|raws|] == raws;
    return Ok(macs);
  }

  /** Once a prefix is refused the whole list is, with the same text. */
  lemma {:induction false} StopsAt(raws: seq<string>, n: nat)
    requires n <= |raws| && WorkOf(raws[..n]).Err?
    ensures WorkOf(raws) == WorkOf(raws[..n])
  {
    if n < |raws| {
      assert raws[..|raws| - 1][..n] == raws[..n];
      StopsAt(raws[..|raws| - 1], n);
    } else {
      assert raws[..n] == raws;
    }
  }
}
