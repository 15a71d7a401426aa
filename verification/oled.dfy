/**
 The joystick-driven drawing cursor on the OLED: a centre press clears the
 screen; any other press advances a rate limiter, and every fourth such
 press may move the cursor one pixel per axis, clamped to the screen, and
 plots it if it stands somewhere new.

 The screen size and the joystick bit masks come from driver headers and
 are parameters here; the screen calls are recorded as events.
 */
module Oled {

  /** Screen size and joystick flags as the driver headers define them. */
  datatype Config = Config(width: nat, height: nat,
                           center: bv8, up: bv8, down: bv8, left: bv8, right: bv8)

  /** A flag with exactly one bit set. */
  predicate SingleBit(f: bv8)
  {
    f != 0 && f & (f - 1) == 0
  }

  /** Five distinct one-bit joystick flags. */
  predicate DistinctFlags(c: Config)
  {
    && SingleBit(c.center) && SingleBit(c.up) && SingleBit(c.down)
    && SingleBit(c.left) && SingleBit(c.right)
    && c.center != c.up && c.center != c.down && c.center != c.left && c.center != c.right
    && c.up != c.down && c.up != c.left && c.up != c.right
    && c.down != c.left && c.down != c.right
    && c.left != c.right
  }

  /** A screen whose coordinates fit in a byte. */
  predicate FitsBytes(c: Config)
  {
    0 < c.width <= 256 && 0 < c.height <= 256
  }

  const InitialX: nat := 48
  const InitialY: nat := 32

  /** The static variables of drawOled: the rate-limit counter, the cursor, and the last plotted point. */
  datatype Cursor = Cursor(wait: int, x: nat, y: nat, lastX: nat, lastY: nat)

  /** Their values before the first call. */
  const Initial: Cursor := Cursor(0, InitialX, InitialY, 0, 0)

  /** The coordinates are bytes. */
  predicate Bytes(s: Cursor)
  {
    s.x < 256 && s.y < 256 && s.lastX < 256 && s.lastY < 256
  }

  /** The cursor is on the screen. */
  predicate OnScreen(c: Config, s: Cursor)
  {
    s.x < c.width && s.y < c.height
  }

  datatype Screen = ClearScreen | PutPixel(x: nat, y: nat)

  /** The result of one call: the new static state and the screen calls made. */
  datatype Step = Step(state: Cursor, events: seq<Screen>)

  predicate Pressed(joy: bv8, flag: bv8)
  {
    joy & flag != 0
  }

  /** The cursor position of a state. */
  function Position(s: Cursor): (nat, nat)
  {
    (s.x, s.y)
  }

  /** One byte-arithmetic increment. */
  function Inc(v: nat): nat
  {
    (v + 1) % 256
  }

  /**
   Vertical move: up first, then down, each only away from the edge it would
   cross. With both held the two cancel, except on the top row, where up is
   blocked and down still moves the cursor one row.
   */
  function MoveY(c: Config, y: nat, joy: bv8): (r: nat)
    ensures FitsBytes(c) && y < c.height ==> r < c.height && Near(r, y)
    ensures FitsBytes(c) && y < c.height && !Pressed(joy, c.up) && !Pressed(joy, c.down) ==> r == y
    ensures FitsBytes(c) && y < c.height && Pressed(joy, c.up) && !Pressed(joy, c.down) ==>
      r == (if y > 0 then y - 1 else y)
    ensures FitsBytes(c) && y < c.height && !Pressed(joy, c.up) && Pressed(joy, c.down) ==>
      r == (if y < c.height - 1 then y + 1 else y)
    ensures FitsBytes(c) && y < c.height && Pressed(joy, c.up) && Pressed(joy, c.down) ==>
      r == (if y == 0 && 1 < c.height then 1 else y)
  {
    var y1 := if Pressed(joy, c.up) && y > 0 then y - 1 else y;
    if Pressed(joy, c.down) && y1 < c.height - 1 then Inc(y1) else y1
  }

  /**
   Horizontal move: right first, then left, each only away from the edge it
   would cross. With both held the two cancel, except on the right-most
   column, where right is blocked and left still moves the cursor one column.
   */
  function MoveX(c: Config, x: nat, joy: bv8): (r: nat)
    ensures FitsBytes(c) && x < c.width ==> r < c.width && Near(r, x)
    ensures FitsBytes(c) && x < c.width && !Pressed(joy, c.right) && !Pressed(joy, c.left) ==> r == x
    ensures FitsBytes(c) && x < c.width && Pressed(joy, c.right) && !Pressed(joy, c.left) ==>
      r == (if x < c.width - 1 then x + 1 else x)
    ensures FitsBytes(c) && x < c.width && !Pressed(joy, c.right) && Pressed(joy, c.left) ==>
      r == (if x > 0 then x - 1 else x)
    ensures FitsBytes(c) && x < c.width && Pressed(joy, c.right) && Pressed(joy, c.left) ==>
      r == (if x == c.width - 1 && x > 0 then x - 1 else x)
  {
    var x1 := if Pressed(joy, c.right) && x < c.width - 1 then Inc(x) else x;
    if Pressed(joy, c.left) && x1 > 0 then x1 - 1 else x1
  }

  /** drawOled for one joystick reading. */
  function DrawOled(c: Config, s: Cursor, joy: bv8): (r: Step)
    requires Bytes(s)
    ensures Bytes(r.state)
    ensures Pressed(joy, c.center) ==> r.state == s && r.events == [ClearScreen]
    ensures !Pressed(joy, c.center) && s.wait < 3 ==> r.state == s.(wait := s.wait + 1) && r.events == []
    ensures !Pressed(joy, c.center) && s.wait >= 3 ==>
      && r.state.wait == 0
      && Position(r.state) == (MoveX(c, s.x, joy), MoveY(c, s.y, joy))
      && Position(r.state) == (r.state.lastX, r.state.lastY)
      && (r.events == [PutPixel(r.state.x, r.state.y)] <==> Position(r.state) != (s.lastX, s.lastY))
      && (r.events == [] <==> Position(r.state) == (s.lastX, s.lastY))
  {
    if Pressed(joy, c.center) then
      Step(s, [ClearScreen])
    else if s.wait < 3 then
      Step(s.(wait := s.wait + 1), [])
    else
      var y := MoveY(c, s.y, joy);
      var x := MoveX(c, s.x, joy);
      if s.lastX != x || s.lastY != y then
        Step(Cursor(0, x, y, x, y), [PutPixel(x, y)])
      else
        Step(Cursor(0, x, y, s.lastX, s.lastY), [])
  }

  /** A bounded step of one coordinate: at most one pixel either way. */
  predicate Near(a: nat, b: nat)
  {
    a <= b + 1 && b <= a + 1
  }

  /** The cursor stays on the screen and moves at most one pixel per axis per call. */
  lemma StaysOnScreen(c: Config, s: Cursor, joy: bv8)
    requires FitsBytes(c)
    requires Bytes(s) && OnScreen(c, s)
    ensures OnScreen(c, DrawOled(c, s, joy).state)
    ensures Near(DrawOled(c, s, joy).state.x, s.x) && Near(DrawOled(c, s, joy).state.y, s.y)
  {
  }

  /** The cursor moves only on a call that is not a centre press and finds the counter at 3 or more. */
  lemma MovesOnlyWhenDue(c: Config, s: Cursor, joy: bv8)
    requires Bytes(s)
    requires Position(DrawOled(c, s, joy).state) != Position(s)
    ensures !Pressed(joy, c.center) && s.wait >= 3
  {
  }

  /** Flags with single bits that differ share no bit. */
  lemma DisjointFlags(a: bv8, b: bv8)
    requires SingleBit(a) && SingleBit(b) && a != b
    ensures !Pressed(a, b) && !Pressed(b, a)
  {
  }

  /** A reading that is exactly one direction flag shows that direction and no other flag. */
  lemma ExactlyOne(c: Config, joy: bv8)
    requires DistinctFlags(c)
    requires joy == c.up || joy == c.down || joy == c.left || joy == c.right
    ensures !Pressed(joy, c.center)
    ensures Pressed(joy, c.up) <==> joy == c.up
    ensures Pressed(joy, c.down) <==> joy == c.down
    ensures Pressed(joy, c.left) <==> joy == c.left
    ensures Pressed(joy, c.right) <==> joy == c.right
  {
    assert Pressed(joy, joy);
    DisjointFlags(c.center, c.up);
    DisjointFlags(c.center, c.down);
    DisjointFlags(c.center, c.left);
    DisjointFlags(c.center, c.right);
    DisjointFlags(c.up, c.down);
    DisjointFlags(c.up, c.left);
    DisjointFlags(c.up, c.right);
    DisjointFlags(c.down, c.left);
    DisjointFlags(c.down, c.right);
    DisjointFlags(c.left, c.right);
  }

  /** A due call with one direction held moves the cursor one pixel that way, unless it is at the edge, and leaves the other axis alone. */
  lemma OneDirection(c: Config, s: Cursor, joy: bv8)
    requires DistinctFlags(c) && FitsBytes(c) && Bytes(s) && OnScreen(c, s) && s.wait >= 3
    requires joy == c.up || joy == c.down || joy == c.left || joy == c.right
    ensures joy == c.up ==> Position(DrawOled(c, s, joy).state) == (s.x, if s.y > 0 then s.y - 1 else s.y)
    ensures joy == c.down ==> Position(DrawOled(c, s, joy).state) == (s.x, if s.y < c.height - 1 then s.y + 1 else s.y)
    ensures joy == c.left ==> Position(DrawOled(c, s, joy).state) == (if s.x > 0 then s.x - 1 else s.x, s.y)
    ensures joy == c.right ==> Position(DrawOled(c, s, joy).state) == (if s.x < c.width - 1 then s.x + 1 else s.x, s.y)
  {
    ExactlyOne(c, joy);
  }

  /** The states a sequence of calls passes through, starting with s. */
  function States(c: Config, s: Cursor, joys: seq<bv8>): (r: seq<Cursor>)
    requires Bytes(s)
    ensures |r| == |joys| + 1 && r[0] == s
    ensures forall k :: 0 <= k < |r| ==> Bytes(r[k])
    ensures forall k :: 0 <= k < |joys| ==> r[k + 1] == DrawOled(c, r[k], joys[k]).state
    decreases |joys|
  {
    if joys == [] then [s]
    else [s] + States(c, DrawOled(c, s, joys[0]).state, joys[1..])
  }

  /**
   The rate limiter over a run of presses none of which is the centre:
   from a counter w in 0..3 the counter after k calls is (w + k) mod 4, so
   the cursor can move only on the calls where it stood at 3 — every
   fourth call.
   */
  lemma {:induction false} EveryFourth(c: Config, s: Cursor, joys: seq<bv8>)
    requires Bytes(s) && 0 <= s.wait <= 3
    requires forall k :: 0 <= k < |joys| ==> !Pressed(joys[k], c.center)
    ensures forall k :: 0 <= k < |States(c, s, joys)| ==> States(c, s, joys)[k].wait == (s.wait + k) % 4
    ensures forall k :: 0 <= k < |joys| && Position(States(c, s, joys)[k + 1]) != Position(States(c, s, joys)[k])
              ==> (s.wait + k) % 4 == 3
    decreases |joys|
  {
    var r := States(c, s, joys);
    if joys != [] {
      var s1 := r[1];
      assert s1.wait == (s.wait + 1) % 4;
      EveryFourth(c, s1, joys[1..]);
      var r1 := States(c, s1, joys[1..]);
      assert r[1..] == r1;
      forall k | 0 <= k < |r|
        ensures r[k].wait == (s.wait + k) % 4
      {
        if k > 0 {
          assert r[k] == r1[k - 1];
          assert r1[k - 1].wait == (s1.wait + (k - 1)) % 4;
          if s.wait == 3 {
            assert s1.wait == 0;
            assert s.wait + k == (k - 1) + 4;
          } else {
            assert s1.wait == s.wait + 1;
          }
        }
      }
      forall k | 0 <= k < |joys| && Position(r[k + 1]) != Position(r[k])
        ensures (s.wait + k) % 4 == 3
      {
        MovesOnlyWhenDue(c, r[k], joys[k]);
      }
    }
  }

  /** Starting from the initial state, the first three non-centre calls never move the cursor: it stays where it started until the fourth call. */
  lemma FirstMoveOnFourthCall(c: Config, joys: seq<bv8>)
    requires forall k :: 0 <= k < |joys| ==> !Pressed(joys[k], c.center)
    ensures var r := States(c, Initial, joys);
      forall k :: 0 <= k < |r| && k <= 3 ==> Position(r[k]) == Position(Initial)
  {
    EveryFourth(c, Initial, joys);
    var r := States(c, Initial, joys);
    if 0 < |joys| {
      assert Position(r[1]) == Position(r[0]);
    }
    if 1 < |joys| {
      assert Position(r[2]) == Position(r[1]);
    }
    if 2 < |joys| {
      assert Position(r[3]) == Position(r[2]);
    }
  }
}
