/**
 The tone half of the buzzer driver: the fixed note table, the three
 character lookups a tune is written in (note, duration, pause), and the
 busy-wait square-wave generator that plays one note on the speaker pin.

 Pin writes and the two timer waits are not executed; they are recorded as
 events of a trace, in the order the firmware performs them.
 */
module Sound {

  /** Unsigned 32-bit arithmetic wraps modulo this value. */
  const U32: nat := 0x1_0000_0000

  /** Periods in microseconds: 'A'..'G' at indices 0..6, 'a'..'g' at 7..13. */
  const Notes: seq<nat> := [2272, 2024, 3816, 3401, 3030, 2865, 2551,
                            1136, 1012, 1912, 1703, 1517, 1432, 1275]

  /** The longest period in the table (note C, 262 Hz). */
  const MaxPeriod: nat := 3816

  /** The longest duration a duration character can ask for. */
  const MaxDurationMs: nat := 1800

  predicate IsUpperNote(ch: char) { 'A' <= ch <= 'G' }

  predicate IsLowerNote(ch: char) { 'a' <= ch <= 'g' }

  predicate IsNoteLetter(ch: char) { IsUpperNote(ch) || IsLowerNote(ch) }

  predicate IsDigit(ch: char) { '0' <= ch <= '9' }

  /** The letter whose table entry sits at index i. */
  function NoteLetter(i: nat): (ch: char)
    requires i < |Notes|
    ensures IsNoteLetter(ch)
  {
    if i < 7 then ('A' as int + i) as char else ('a' as int + i - 7) as char
  }

  /** The table index a note letter selects. */
  function NoteIndex(ch: char): (i: nat)
    requires IsNoteLetter(ch)
    ensures i < |Notes|
  {
    if IsUpperNote(ch) then ch as int - 'A' as int else ch as int - 'a' as int + 7
  }

  /** The period of a note character; 0 (a rest) for anything that is not a note letter. */
  function GetNote(ch: char): (r: nat)
    ensures r == 0 <==> !IsNoteLetter(ch)
    ensures r != 0 ==> r in Notes
    ensures r <= MaxPeriod
  {
    if IsUpperNote(ch) then Notes[ch as int - 'A' as int]
    else if IsLowerNote(ch) then Notes[ch as int - 'a' as int + 7]
    else 0
  }

  /** The digit character for a value 0..9. */
  function DigitChar(d: nat): (ch: char)
    requires d < 10
    ensures IsDigit(ch)
  {
    ('0' as int + d) as char
  }

  /** The duration in milliseconds a duration character asks for; 400 for a non-digit. */
  function GetDuration(ch: char): (r: nat)
    ensures r <= MaxDurationMs && r % 200 == 0
    ensures !IsDigit(ch) ==> r == 400
  {
    if ch < '0' || ch > '9' then 400 else (ch as int - '0' as int) * 200
  }

  /** The pause in milliseconds after a note; 5 for an unknown pause character. */
  function GetPause(ch: char): (r: nat)
    ensures r == 0 || r == 5 || r == 20 || r == 30
    ensures r == 0 <==> ch == '+'
    ensures r == 20 <==> ch == '.'
    ensures r == 30 <==> ch == '_'
  {
    match ch
    case '+' => 0
    case ',' => 5
    case '.' => 20
    case '_' => 30
    case _ => 5
  }

  /** Reading the table back: each letter selects its own entry, and letters and indices correspond one to one. */
  lemma NoteLetterRoundTrip(i: nat)
    requires i < |Notes|
    ensures NoteIndex(NoteLetter(i)) == i
    ensures GetNote(NoteLetter(i)) == Notes[i]
  {
  }

  /** Every note letter is the letter of its own index. */
  lemma NoteIndexRoundTrip(ch: char)
    requires IsNoteLetter(ch)
    ensures NoteLetter(NoteIndex(ch)) == ch
    ensures GetNote(ch) == Notes[NoteIndex(ch)]
  {
  }

  /** The fourteen periods are pairwise distinct, so no two note letters sound the same. */
  lemma GetNoteInjective(a: char, b: char)
    requires IsNoteLetter(a) && IsNoteLetter(b) && a != b
    ensures GetNote(a) != GetNote(b)
  {
    NoteIndexRoundTrip(a);
    NoteIndexRoundTrip(b);
  }

  /** A digit asks for 200 ms per unit. */
  lemma DurationOfDigit(d: nat)
    requires d < 10
    ensures GetDuration(DigitChar(d)) == 200 * d
  {
  }

  /** Pin and timer operations, in the order they are performed. */
  datatype Event =
    | High(us: nat)    // pin set, then held for us microseconds
    | Low(us: nat)     // pin cleared, then held for us microseconds
    | WaitMs(ms: nat)  // millisecond wait with the pin untouched

  /** One pass of the tone loop: the pin high for half the period, then low for half the period. */
  function Cycle(period: nat): seq<Event>
  {
    [High(period / 2), Low(period / 2)]
  }

  /** count passes of the tone loop back to back: the pin alternates high and low, half a period each. */
  function Cycles(period: nat, count: nat): (r: seq<Event>)
    ensures |r| == 2 * count
    ensures forall i :: 0 <= i < |r| ==> r[i] == (if i % 2 == 0 then High(period / 2) else Low(period / 2))
  {
    if count == 0 then [] else Cycle(period) + Cycles(period, count - 1)
  }

  /** The loop bound durationMs*1000, computed in 32-bit arithmetic as the firmware does. */
  function Limit(durationMs: nat): nat
  {
    (durationMs * 1000) % U32
  }

  /**
   The tone loop from elapsed count t: while t is below the limit, one
   cycle, then t advances by a full period in 32-bit arithmetic.
   */
  function Toggle(period: nat, limit: nat, t: nat): (r: seq<Event>)
    requires 0 < period && limit + period <= U32
    ensures |r| % 2 == 0
    ensures r == [] <==> t >= limit
    ensures forall i :: 0 <= i < |r| ==> r[i] == (if i % 2 == 0 then High(period / 2) else Low(period / 2))
    decreases limit - t
  {
    if t < limit then Cycle(period) + Toggle(period, limit, (t + period) % U32) else []
  }

  /** How many cycles the tone loop performs from t. */
  function ToggleCount(period: nat, limit: nat, t: nat): nat
    requires 0 < period && limit + period <= U32
  {
    |Toggle(period, limit, t)| / 2
  }

  /**
   The tone loop from t performs n cycles, where n is the least number of
   whole periods that carries t to the limit or past it; from the limit or
   beyond it performs none.
   */
  predicate LeastCycles(period: nat, limit: nat, t: nat)
    requires 0 < period && limit + period <= U32
  {
    && Toggle(period, limit, t) == Cycles(period, ToggleCount(period, limit, t))
    && (t < limit ==> limit <= t + ToggleCount(period, limit, t) * period < limit + period)
    && (t >= limit ==> ToggleCount(period, limit, t) == 0)
  }

  /** From every counter value, the tone loop performs the least number of cycles that reaches the limit. */
  lemma {:induction false} ToggleCycles(period: nat, limit: nat, t: nat)
    requires 0 < period && limit + period <= U32
    ensures LeastCycles(period, limit, t)
    decreases limit - t
  {
    if t < limit {
      ToggleCycles(period, limit, t + period);
      ToggleStep(period, limit, t);
    }
  }

  /** One pass of the loop: what holds from t + period holds from t. */
  lemma ToggleStep(period: nat, limit: nat, t: nat)
    requires 0 < period && limit + period <= U32 && t < limit
    requires LeastCycles(period, limit, t + period)
    ensures LeastCycles(period, limit, t)
  {
    var next := (t + period) % U32;
    assert next == t + period;
    var m := ToggleCount(period, limit, next);
    assert Toggle(period, limit, t) == Cycle(period) + Cycles(period, m);
    assert ToggleCount(period, limit, t) == m + 1;
    assert (m + 1) * period == m * period + period;
  }

  /**
   Whether playNote can run for these arguments: both are 32-bit values and
   the elapsed counter never wraps past the loop bound (otherwise the
   firmware's loop need not stop).
   */
  predicate CanPlay(note: nat, durationMs: nat)
  {
    note < U32 && durationMs < U32 && Limit(durationMs) + note <= U32
  }

  /**
   The trace of playNote. A rest is a single wait of the whole duration. A
   nonzero period gives n high/low cycles and nothing else, where n is the
   bound durationMs*1000 divided by the period, rounded up.
   */
  function PlayNote(note: nat, durationMs: nat): (r: seq<Event>)
    requires CanPlay(note, durationMs)
    ensures note == 0 ==> r == [WaitMs(durationMs)]
    ensures note > 0 ==> r == Cycles(note, |r| / 2)
    ensures note > 0 ==> Limit(durationMs) <= |r| / 2 * note < Limit(durationMs) + note
  {
    if note > 0 then
      ToggleCycles(note, Limit(durationMs), 0);
      Toggle(note, Limit(durationMs), 0)
    else
      [WaitMs(durationMs)]
  }

  lemma MulMono(a: int, b: int, p: nat)
    requires a <= b
    ensures a * p <= b * p
  {
    assert b * p - a * p == (b - a) * p;
  }

  /** Integer division is the unique quotient: n*p <= x < (n+1)*p pins x / p to n. */
  lemma DivBetween(x: nat, p: nat, n: nat)
    requires p > 0 && n * p <= x < (n + 1) * p
    ensures x / p == n
  {
    var q, r := x / p, x % p;
    assert x == q * p + r;
    if q < n {
      MulMono(q + 1, n, p);
    } else if q > n {
      MulMono(n + 1, q, p);
    }
  }

  /** The number of high/low cycles of a note is durationMs*1000 over the period, rounded up. */
  lemma PlayNoteCycleCount(note: nat, durationMs: nat)
    requires CanPlay(note, durationMs) && note > 0
    ensures |PlayNote(note, durationMs)| == 2 * ((Limit(durationMs) + note - 1) / note)
  {
    var l := Limit(durationMs);
    var n := |PlayNote(note, durationMs)| / 2;
    assert (n + 1) * note == n * note + note;
    DivBetween(l + note - 1, note, n);
  }

  /** Every period the table holds, with every duration a character can give, can be played without overflow. */
  lemma TableNotesCanPlay(note: nat, durationMs: nat)
    requires note <= MaxPeriod && durationMs <= MaxDurationMs
    ensures CanPlay(note, durationMs)
    ensures Limit(durationMs) == durationMs * 1000
  {
  }

  /** Microseconds the pin spends high or low over a trace. */
  function PinTime(trace: seq<Event>): nat
  {
    if trace == [] then 0
    else (match trace[0]
          case High(us) => us
          case Low(us) => us
          case WaitMs(_) => 0) + PinTime(trace[1..])
  }

  /** Each cycle keeps the pin busy for the period rounded down to an even number of microseconds. */
  lemma {:induction false} CyclesPinTime(period: nat, count: nat)
    ensures PinTime(Cycles(period, count)) == count * (period - period % 2)
  {
    if count > 0 {
      var h := period / 2;
      var rest := Cycles(period, count - 1);
      CyclesPinTime(period, count - 1);
      var r := Cycles(period, count);
      assert r == [High(h)] + ([Low(h)] + rest);
      assert r[1..] == [Low(h)] + rest;
      assert r[1..][1..] == rest;
      assert PinTime(r) == h + h + PinTime(rest);
      assert count * (period - period % 2) == (count - 1) * (period - period % 2) + (period - period % 2);
    }
  }

  /** n cycles of period p lose one microsecond each when p is odd. */
  lemma EvenPart(n: nat, p: nat)
    ensures n * (p - p % 2) == n * p - (if p % 2 == 1 then n else 0)
  {
    if p % 2 == 1 {
      assert n * (p - 1) == n * p - n;
    }
  }

  /**
   How long a note sounds: the loop counts one full period per cycle, so
   the pin is busy for about the requested time, short by at
   most one microsecond per cycle for an odd period and long by less than
   one period.
   */
  lemma PlayNoteDuration(note: nat, durationMs: nat)
    requires CanPlay(note, durationMs) && note > 0
    ensures var r := PlayNote(note, durationMs);
      var n := |r| / 2;
      && PinTime(r) == n * (note - note % 2)
      && Limit(durationMs) - n <= PinTime(r) < Limit(durationMs) + note
  {
    var r := PlayNote(note, durationMs);
    var n := |r| / 2;
    CyclesPinTime(note, n);
    EvenPart(n, note);
  }

  /** A rest never touches the pin. */
  lemma RestIsSilent(durationMs: nat)
    requires CanPlay(0, durationMs)
    ensures forall i :: 0 <= i < |PlayNote(0, durationMs)| ==> PlayNote(0, durationMs)[i].WaitMs?
    ensures PinTime(PlayNote(0, durationMs)) == 0
  {
  }

  /** A zero duration plays no cycle at all. */
  lemma ZeroDurationIsSilent(note: nat)
    requires note > 0 && CanPlay(note, 0)
    ensures PlayNote(note, 0) == []
  {
  }
}
