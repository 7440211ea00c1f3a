/** The default timeout of a bus transfer (lib/hal/detail/actions.hpp). */
module Timeouts {
  import opened Arithmetic
  import opened Clock
  import opened Record

  const LEAST: nat := 10000
  const MARGIN: nat := 1000
  const FACTOR: nat := 4

  // How an action measures: whether it is well formed and repeats until matched,
  // its bits on the wire and its pause.
  datatype Measured = Measured(valid: bool, polls: bool, bits: nat, pause: nat)

  // The checked product.
  method Multiply(value: nat, amount: nat) returns (r: Option<nat>)
    ensures r == if value * amount <= LAST then Some(value * amount) else None
  {
    Natural(value, amount);
    if amount != 0 {
      DivAtLeast(LAST, amount, value);
      if value > LAST / amount {
        return None;
      }
    }
    r := Some(value * amount);
  }

  lemma Natural(a: nat, b: nat)
    ensures a * b >= 0
  {}

  function Bits(actions: seq<Measured>): nat {
    if actions == [] then 0 else Bits(actions[..|actions| - 1]) + actions[|actions| - 1].bits
  }

  function Pauses(actions: seq<Measured>): nat {
    if actions == [] then 0 else Pauses(actions[..|actions| - 1]) + actions[|actions| - 1].pause
  }

  // The least number of whole microseconds that carry the bits.
  ghost predicate Ceiling(bits: nat, rate: nat, wire: nat)
    requires rate > 0
  {
    Mul(wire, rate) >= Mul(bits, MILLION) && (wire > 0 ==> Mul(wire - 1, rate) < Mul(bits, MILLION))
  }

  lemma CeilingUnique(bits: nat, rate: nat, a: nat, b: nat)
    requires rate > 0 && Ceiling(bits, rate, a) && Ceiling(bits, rate, b)
    ensures a == b
  {
    if a < b {
      MulMonotone(a, b - 1, rate);
    } else if b < a {
      MulMonotone(b, a - 1, rate);
    }
  }

  // Dividing before multiplying loses nothing.
  lemma SplitCeiling(bits: nat, rate: nat, q: nat, r: nat, up: nat)
    requires rate > 0 && bits == Mul(q, rate) + r && r < rate && up == (r * MILLION + rate - 1) / rate
    ensures Ceiling(bits, rate, q * MILLION + up)
  {
    var part := r * MILLION;
    DivBounds(part + rate - 1, rate);
    assert Mul(up, rate) >= part && Mul(up, rate) < part + rate;
    var wire := q * MILLION + up;
    assert wire * rate == (q * MILLION) * rate + up * rate;
    assert (q * MILLION) * rate == (q * rate) * MILLION;
    assert bits * MILLION == (q * rate) * MILLION + part;
    assert (wire - 1) * rate == wire * rate - rate;
  }

  ghost predicate Acceptable(actions: seq<Measured>, requested: bool) {
    forall i :: 0 <= i < |actions| ==> actions[i].valid && (actions[i].polls ==> requested)
  }

  function Max(a: nat, b: nat): nat { if a >= b then a else b }

  // What the timeout must be.
  ghost predicate Expected(actions: seq<Measured>, rate: nat, requested: Option<nat>, t: nat)
    requires rate > 0
  {
    if requested.Some? then t == requested.value
    else exists wire: nat ::
      Ceiling(Bits(actions), rate, wire) && t == Max(LEAST, FACTOR * wire + MARGIN) + Pauses(actions)
  }

  lemma BitsGrow(actions: seq<Measured>, i: nat)
    requires i < |actions|
    ensures Bits(actions[..i + 1]) == Bits(actions[..i]) + actions[i].bits
    ensures Pauses(actions[..i + 1]) == Pauses(actions[..i]) + actions[i].pause
  {
    assert actions[..i + 1][..i] == actions[..i];
  }

  lemma {:induction false} PrefixBelow(actions: seq<Measured>, i: nat)
    requires i <= |actions|
    ensures Bits(actions[..i]) <= Bits(actions) && Pauses(actions[..i]) <= Pauses(actions)
    decreases |actions| - i
  {
    if i < |actions| {
      PrefixBelow(actions, i + 1);
      BitsGrow(actions, i);
    } else {
      assert actions[..i] == actions;
    }
  }

  ghost predicate Summable(actions: seq<Measured>) { Bits(actions) <= LAST && Pauses(actions) <= LAST }

  method SumActions(actions: seq<Measured>, requested: bool) returns (r: Option<(nat, nat)>)
    ensures r.Some? <==> Acceptable(actions, requested) && Summable(actions)
    ensures r.Some? ==> r.value == (Bits(actions), Pauses(actions))
  {
    var bits, pauses := 0, 0;
    for i := 0 to |actions|
      invariant Acceptable(actions[..i], requested)
      invariant bits == Bits(actions[..i]) <= LAST && pauses == Pauses(actions[..i]) <= LAST
    {
      BitsGrow(actions, i);
      PrefixBelow(actions, i + 1);
      if !actions[i].valid || (actions[i].polls && !requested) {
        return None;
      }
      var b := Add(bits, actions[i].bits);
      var p := Add(pauses, actions[i].pause);
      if b.None? || p.None? {
        return None;
      }
      bits, pauses := b.value, p.value;
    }
    assert actions[..|actions|] == actions;
    r := Some((bits, pauses));
  }

  /** The timeout of a transfer: the requested one, or four times the wire time
      rounded up to a microsecond plus a margin, at least ten milliseconds, plus all
      pauses. It is refused exactly for malformed actions, a zero rate, or a value
      that does not fit; no intermediate value exceeds 64 bits. */
  method Timeout(actions: seq<Measured>, rate: nat, requested: Option<nat>) returns (r: Option<nat>)
    requires rate < 0x1_0000_0000 && (requested.Some? ==> requested.value <= LAST)
    ensures r.Some? ==> actions != [] && rate > 0 && Acceptable(actions, requested.Some?) && Summable(actions)
                        && Expected(actions, rate, requested, r.value) && r.value <= LAST
    ensures r.None? ==> actions == [] || rate == 0 || !Acceptable(actions, requested.Some?) || !Summable(actions)
                        || forall t: nat :: Expected(actions, rate, requested, t) ==> t > LAST
  {
    if actions == [] || rate == 0 {
      return None;
    }
    var sums := SumActions(actions, requested.Some?);
    if sums.None? {
      return None;
    }
    if requested.Some? {
      return requested;
    }
    var bits, pauses := sums.value.0, sums.value.1;
    var seconds, remainder := bits / rate, bits % rate;
    DivBounds(bits, rate);
    var up := (remainder * MILLION + rate - 1) / rate;
    assert remainder * MILLION + rate - 1 <= LAST;
    DivBounds(remainder * MILLION + rate - 1, rate);
    SplitCeiling(bits, rate, seconds, remainder, up);
    ghost var exact := seconds * MILLION + up;
    OnlyExpected(actions, rate, exact);
    var wire := Multiply(seconds, MILLION);
    if wire.None? { return None; }
    wire := Add(wire.value, up);
    if wire.None? { return None; }
    wire := Multiply(wire.value, FACTOR);
    if wire.None? { return None; }
    wire := Add(wire.value, MARGIN);
    if wire.None? { return None; }
    r := Add(Max(LEAST, wire.value), pauses);
  }

  lemma OnlyExpected(actions: seq<Measured>, rate: nat, wire: nat)
    requires rate > 0 && Ceiling(Bits(actions), rate, wire)
    ensures forall t: nat :: Expected(actions, rate, None, t) <==>
      t == Max(LEAST, FACTOR * wire + MARGIN) + Pauses(actions)
  {
    forall t: nat | Expected(actions, rate, None, t) ensures t == Max(LEAST, FACTOR * wire + MARGIN) + Pauses(actions) {
      var w: nat :| Ceiling(Bits(actions), rate, w) && t == Max(LEAST, FACTOR * w + MARGIN) + Pauses(actions);
      CeilingUnique(Bits(actions), rate, w, wire);
    }
  }
}
