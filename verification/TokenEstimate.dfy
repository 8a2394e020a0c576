/**
 The token estimator: four ASCII bytes count as one token, and so does every other character. It works on
 bytes; a lead byte claims the continuation bytes it announces without looking at them.
 */
module TokenEstimate {

  newtype byte = x: int | 0 < x < 256 witness 1

  /** How many bytes a non-ASCII lead byte claims after itself. */
  function Extra(c: byte): nat {
    if c >= 0xF0 then 3 else if c >= 0xE0 then 2 else if c >= 0xC0 then 1 else 0
  }

  function Skip(t: seq<byte>): (n: nat)
    requires t != []
    ensures 1 <= n <= |t|
  {
    if Extra(t[0]) + 1 <= |t| then Extra(t[0]) + 1 else |t|
  }

  function Quarter(run: nat): nat {
    (run + 3) / 4
  }

  /** The estimate for t after `run` ASCII bytes that have not been counted yet. */
  function EstimateFrom(t: seq<byte>, run: nat): nat
    decreases |t|
  {
    if t == [] then Quarter(run)
    else if t[0] < 0x80 then
      if run + 1 == 4 then 1 + EstimateFrom(t[1..], 0) else EstimateFrom(t[1..], run + 1)
    else Quarter(run) + 1 + EstimateFrom(t[Skip(t)..], 0)
  }

  function Estimate(t: seq<byte>): nat {
    EstimateFrom(t, 0)
  }

  method TokenEstimate(text: seq<byte>) returns (tokens: nat)
    ensures tokens == Estimate(text)
  {
    tokens := 0;
    var run := 0;
    var p := 0;
    assert text[0..] == text;
    while p < |text|
      invariant 0 <= p <= |text| && 0 <= run < 4
      invariant tokens + EstimateFrom(text[p..], run) == Estimate(text)
      decreases |text| - p
    {
      var c := text[p];
      assert text[p..][0] == c && text[p..][1..] == text[p + 1..];
      if c < 0x80 {
        run := run + 1;
        if run == 4 { tokens, run := tokens + 1, 0; }
        p := p + 1;
      } else {
        if run > 0 { tokens, run := tokens + (run + 3) / 4, 0; }
        var extra := Extra(c);
        ghost var start := p;
        while extra > 0 && p + 1 < |text|
          invariant start <= p < |text| && 0 <= extra
          invariant p - start + extra == Extra(c)
          decreases extra
        {
          p, extra := p + 1, extra - 1;
        }
        tokens := tokens + 1;
        p := p + 1;
        assert p - start == Skip(text[start..]);
        assert text[start..][p - start..] == text[p..];
      }
    }
    assert text[p..] == [];
    if run > 0 { tokens := tokens + (run + 3) / 4; }
  }

  // ---- what the estimate means -----------------------------------------------------------------

  /** The number of ASCII bytes at the front. */
  function Lead(t: seq<byte>): (n: nat)
    ensures n <= |t|
    ensures n < |t| ==> t[n] >= 0x80
  {
    if t == [] || t[0] >= 0x80 then 0 else 1 + Lead(t[1..])
  }

  /** One token per four bytes of every maximal ASCII run, rounded up, and one per other character. */
  function RunSum(t: seq<byte>): nat
    decreases |t|
  {
    var n := Lead(t);
    Quarter(n) + if n == |t| then 0 else 1 + RunSum(t[n..][Skip(t[n..])..])
  }

  /** What follows the front run. */
  function Rest(t: seq<byte>): nat {
    var n := Lead(t);
    if n == |t| then 0 else 1 + Estimate(t[n..][Skip(t[n..])..])
  }

  lemma {:induction false} EstimateSplits(t: seq<byte>, run: nat)
    requires run < 4
    ensures EstimateFrom(t, run) == Quarter(run + Lead(t)) + Rest(t)
    decreases |t|
  {
    if t == [] {
    } else if t[0] < 0x80 {
      var n := Lead(t);
      EstimateSplits(t[1..], if run + 1 == 4 then 0 else run + 1);
      assert t[1..][n - 1..] == t[n..];
      assert Rest(t) == Rest(t[1..]);
    } else {
      assert t[0..] == t;
    }
  }

  lemma {:induction false} EstimateIsRunSum(t: seq<byte>)
    ensures Estimate(t) == RunSum(t)
    decreases |t|
  {
    EstimateSplits(t, 0);
    var n := Lead(t);
    if n < |t| { EstimateIsRunSum(t[n..][Skip(t[n..])..]); }
  }

  // ---- additivity ------------------------------------------------------------------------------

  /** How many bytes the last character of t still claims. */
  function Missing(t: seq<byte>): nat
    decreases |t|
  {
    if t == [] then 0
    else if t[0] < 0x80 then Missing(t[1..])
    else if Extra(t[0]) + 1 > |t| then Extra(t[0]) + 1 - |t|
    else Missing(t[Extra(t[0]) + 1..])
  }

  /** t ends at a character boundary. */
  predicate Whole(t: seq<byte>) {
    Missing(t) == 0
  }

  lemma RunShift(t: seq<byte>, run: nat)
    requires run < 4
    ensures Estimate(t) + Quarter(run) - 1 <= EstimateFrom(t, run) <= Estimate(t) + Quarter(run)
    ensures Estimate(t) <= EstimateFrom(t, run)
  {
    EstimateSplits(t, 0);
    EstimateSplits(t, run);
  }

  lemma {:induction false} WholeAdds(a: seq<byte>, b: seq<byte>, run: nat)
    requires Whole(a) && run < 4
    ensures EstimateFrom(a, run) + Estimate(b) - 1 <= EstimateFrom(a + b, run) <= EstimateFrom(a, run) + Estimate(b)
    decreases |a|
  {
    if a == [] {
      assert a + b == b;
      RunShift(b, run);
    } else if a[0] < 0x80 {
      assert (a + b)[1..] == a[1..] + b;
      WholeAdds(a[1..], b, if run + 1 == 4 then 0 else run + 1);
    } else {
      var n := Skip(a);
      assert (a + b)[n..] == a[n..] + b;
      WholeAdds(a[n..], b, 0);
    }
  }

  lemma {:induction false} BrokenSwallows(a: seq<byte>, b: seq<byte>, run: nat)
    requires 0 < Missing(a) <= |b| && run < 4
    ensures EstimateFrom(a + b, run) == EstimateFrom(a, run) + Estimate(b[Missing(a)..])
    decreases |a|
  {
    if a[0] < 0x80 {
      assert (a + b)[1..] == a[1..] + b;
      BrokenSwallows(a[1..], b, if run + 1 == 4 then 0 else run + 1);
    } else if Extra(a[0]) + 1 > |a| {
      assert (a + b)[Skip(a + b)..] == b[Missing(a)..];
      assert a[Skip(a)..] == [];
    } else {
      var n := Skip(a);
      assert (a + b)[n..] == a[n..] + b;
      BrokenSwallows(a[n..], b, 0);
    }
  }

  lemma {:induction false} MissingBound(a: seq<byte>)
    ensures Missing(a) <= 3
    decreases |a|
  {
    if a != [] {
      if a[0] < 0x80 { MissingBound(a[1..]); }
      else if Extra(a[0]) + 1 <= |a| { MissingBound(a[Extra(a[0]) + 1..]); }
    }
  }

  /** A continuation that an unfinished character of a spoils. */
  function Witness(missing: nat): seq<byte> {
    if missing == 1 then [0xE0, 0x80, 0x80] else if missing == 2 then [0x80, 0x80] else [0x80, 0x80, 0x80]
  }

  lemma WitnessEstimates()
    ensures Estimate(Witness(1)) == 1 && Estimate(Witness(1)[1..]) == 2
    ensures Estimate(Witness(2)) == 2 && Estimate(Witness(2)[2..]) == 0
    ensures Estimate(Witness(3)) == 3 && Estimate(Witness(3)[3..]) == 0
  {
    var w: seq<byte> := [0xE0, 0x80, 0x80];
    var x: seq<byte> := [0x80];
    assert w[3..] == [] && w[1..] == x + x && (x + x)[1..] == x && x[1..] == [];
    assert Estimate(x) == 1;
    var y: seq<byte> := [0x80, 0x80];
    assert y[1..] == x;
    assert Estimate(y) == 2;
    var z: seq<byte> := [0x80, 0x80, 0x80];
    assert z[1..] == y;
    assert Estimate(z) == 3;
  }

  ghost predicate Additive(a: seq<byte>, b: seq<byte>) {
    Estimate(a) + Estimate(b) - 1 <= Estimate(a + b) <= Estimate(a) + Estimate(b)
  }

  /** The estimate is additive to within one token for every continuation exactly at character boundaries. */
  lemma AdditiveIffBoundary(a: seq<byte>)
    ensures Whole(a) <==> forall b :: Additive(a, b)
  {
    if Whole(a) {
      forall b
        ensures Additive(a, b)
      {
        WholeAdds(a, b, 0);
      }
    } else {
      MissingBound(a);
      var m := Missing(a);
      var b := Witness(m);
      BrokenSwallows(a, b, 0);
      WitnessEstimates();
      assert !Additive(a, b);
    }
  }
}
