/**
 The 16-LED bar driven by the accelerometer: a window of three adjacent
 lit LEDs that wraps around the ends of the bar, and the position byte
 that each call moves by a signed number of steps.
 */
module LedBar {

  /** The number of LEDs on the bar. */
  const Width: nat := 16

  /** Position of the bar before the first call. */
  const InitialPos: nat := 2

  /** Two byte values for dir: one step up, and one step down as (uint8)-1. */
  const Up: nat := 1
  const Down: nat := 255

  /** The result of one call: the LED pattern sent to the driver and the new position. */
  datatype Move = Move(ledOn: bv16, pos: nat)

  /** Whether LED i is lit in a pattern. */
  predicate Lit(m: bv16, i: nat)
    requires i < Width
  {
    (m >> i) & 1 == 1
  }

  /** The three LEDs the window at pos covers: pos and the two below it, wrapping past 0 to 15 and 14. */
  predicate InWindow(pos: nat, i: nat)
  {
    i == pos || i == (pos + Width - 1) % Width || i == (pos + Width - 2) % Width
  }

  /** The pattern for the window at pos: a 16-bit mask with the wrapped cases spelled out. */
  function Window(pos: nat): (m: bv16)
    requires pos < Width
    ensures forall i :: 0 <= i < Width ==> (Lit(m, i) <==> InWindow(pos, i))
  {
    if pos == 0 then 1 | (3 << 14)
    else if pos == 1 then 3 | (1 << 15)
    else 7 << (pos - 2)
  }

  /** Removing multiples of 16 does not change a position on the bar. */
  lemma ModMultiple(x: int, q: int)
    ensures (x - 16 * q) % 16 == x % 16
  {
  }

  /** Reducing to a byte first does not change the position on the bar, as 16 divides 256. */
  lemma ByteMod(x: nat)
    ensures (x % 256) % Width == x % Width
  {
    var q := x / 256;
    assert x % 256 == x - 16 * (16 * q);
    ModMultiple(x, 16 * q);
  }

  /**
   moveBar: light the window at the current position, then move the
   position by dir*steps in byte arithmetic and keep it on the bar. The
   truncation to a byte cannot change the result modulo 16, since 16
   divides 256.
   */
  function MoveBar(pos: nat, steps: nat, dir: nat): (r: Move)
    requires pos < Width && steps < 256 && dir < 256
    ensures r.pos < Width
    ensures r.pos == (pos + dir * steps) % Width
    ensures forall i :: 0 <= i < Width ==> (Lit(r.ledOn, i) <==> InWindow(pos, i))
  {
    var next := (pos + dir * steps) % 256;
    ByteMod(pos + dir * steps);
    Move(Window(pos), next % Width)
  }

  /** The LEDs a pattern lights. */
  function LitSet(m: bv16): set<nat>
  {
    set i: nat | i < Width && Lit(m, i)
  }

  /** Three distinct elements make a set of three. */
  lemma ThreeDistinct(a: nat, b: nat, c: nat)
    requires a != b && b != c && a != c
    ensures |{a, b, c}| == 3
  {
    assert {a, b, c} == {a} + {b} + {c};
    assert |{a} + {b}| == 2;
  }

  /** Every pattern the bar shows has exactly three LEDs lit: the window and nothing else. */
  lemma ThreeLit(pos: nat)
    requires pos < Width
    ensures LitSet(Window(pos)) == {pos, (pos + Width - 1) % Width, (pos + Width - 2) % Width}
    ensures |LitSet(Window(pos))| == 3
  {
    var a, b, c := pos, (pos + Width - 1) % Width, (pos + Width - 2) % Width;
    var m := Window(pos);
    var lit := LitSet(m);
    forall i: nat | i in lit ensures i in {a, b, c} {
      assert i < Width && Lit(m, i);
    }
    forall i: nat | i in {a, b, c} ensures i in lit {
      assert i < Width && InWindow(pos, i);
    }
    ThreeDistinct(a, b, c);
  }

  /** dir = (uint8)-1 moves the bar down by steps, wrapping below 0 to the top. */
  lemma MoveDown(pos: nat, steps: nat)
    requires pos < Width && steps < 256
    ensures MoveBar(pos, steps, Down).pos == (pos - steps) % Width
  {
    var x := pos + Down * steps;
    assert x - 16 * (16 * steps) == pos - steps;
    ModMultiple(x, 16 * steps);
  }

  /** dir = 1 moves the bar up by steps, wrapping above 15 to the bottom. */
  lemma MoveUp(pos: nat, steps: nat)
    requires pos < Width && steps < 256
    ensures MoveBar(pos, steps, Up).pos == (pos + steps) % Width
  {
  }

  lemma AddSubMod(pos: nat, steps: nat)
    requires pos < Width
    ensures ((pos + steps) % Width - steps) % Width == pos
  {
    var q := (pos + steps) / 16;
    assert (pos + steps) % Width == pos + steps - 16 * q;
    ModMultiple(pos, q);
  }

  /** Moving up and then down by the same number of steps returns the bar to where it was. */
  lemma UpThenDown(pos: nat, steps: nat)
    requires pos < Width && steps < 256
    ensures MoveBar(MoveBar(pos, steps, Up).pos, steps, Down).pos == pos
  {
    var mid := MoveBar(pos, steps, Up).pos;
    MoveUp(pos, steps);
    MoveDown(mid, steps);
    AddSubMod(pos, steps);
  }

  /** One call of moveBar from the main loop: how many steps, in which direction (a byte, 1 or (uint8)-1 in practice). */
  datatype Call = Call(steps: nat, dir: nat)

  /** The arguments fit in the bytes moveBar takes. */
  predicate ByteArgs(calls: seq<Call>)
  {
    forall k :: 0 <= k < |calls| ==> calls[k].steps < 256 && calls[k].dir < 256
  }

  /** The bar stays on the LEDs from any position on the bar, whatever sequence of calls main makes. */
  function Run(pos: nat, calls: seq<Call>): (r: nat)
    requires pos < Width && ByteArgs(calls)
    ensures r < Width
    decreases |calls|
  {
    if calls == [] then pos
    else Run(MoveBar(pos, calls[0].steps, calls[0].dir).pos, calls[1..])
  }

  /** Total displacement: the sum of dir*steps over the calls, before any truncation. */
  function Net(calls: seq<Call>): nat
  {
    if calls == [] then 0 else calls[0].dir * calls[0].steps + Net(calls[1..])
  }

  /** Byte truncation and wrapping at every call lose nothing: after any run the bar is at the start plus the total displacement, modulo 16. */
  lemma {:induction false} RunNet(pos: nat, calls: seq<Call>)
    requires pos < Width && ByteArgs(calls)
    ensures Run(pos, calls) == (pos + Net(calls)) % Width
    decreases |calls|
  {
    if calls != [] {
      var d := calls[0].dir * calls[0].steps;
      var p1 := MoveBar(pos, calls[0].steps, calls[0].dir).pos;
      RunNet(p1, calls[1..]);
      var n := Net(calls[1..]);
      assert Net(calls) == d + n;
      var q := (pos + d) / 16;
      assert p1 == pos + d - 16 * q;
      ModMultiple(pos + d + n, q);
    }
  }

  /** From the position the firmware starts at, the bar is at 2 plus the total displacement, modulo 16, and never leaves the bar. */
  lemma FromInitial(calls: seq<Call>)
    requires ByteArgs(calls)
    ensures Run(InitialPos, calls) == (2 + Net(calls)) % Width
    ensures Run(InitialPos, calls) < Width
  {
    RunNet(InitialPos, calls);
  }
}
