/**
 The tune player: a tune is a NUL-terminated character string read three
 characters at a time (note, duration, pause). Each complete triplet plays
 its note and then waits for its pause; an incomplete trailing triplet is
 dropped unplayed.
 */
module Song {
  import opened Sound

  /** One complete triplet, already looked up. */
  datatype Tone = Tone(period: nat, durationMs: nat, pauseMs: nat)

  /** The values a triplet can hold, all of which playNote accepts. */
  predicate Playable(t: Tone)
  {
    t.period <= MaxPeriod && t.durationMs <= MaxDurationMs
  }

  /** Tones as the lookups produce them. */
  type PlayableTone = t: Tone | Playable(t) witness Tone(0, 0, 0)

  /** The string the firmware reads: everything before the first NUL, or the whole sequence when it has none. */
  function Terminated(s: seq<char>): (r: seq<char>)
    ensures r <= s
    ensures '\0' !in r
    ensures |r| < |s| ==> s[|r|] == '\0'
  {
    if s == [] || s[0] == '\0' then [] else [s[0]] + Terminated(s[1..])
  }

  /** The character under the cursor; past the end of the sequence the cursor reads NUL. */
  function At(s: seq<char>, i: nat): char
  {
    if i < |s| then s[i] else '\0'
  }

  /** The triplet that starts at position i of a terminated string. */
  function TripletAt(p: seq<char>, i: nat): PlayableTone
    requires i + 3 <= |p|
  {
    Tone(GetNote(p[i]), GetDuration(p[i + 1]), GetPause(p[i + 2]))
  }

  /**
   The reading loop of playSong with the cursor at i: stop on a NUL in any
   of the three positions, otherwise take the triplet and go on three
   characters later.
   */
  function Parse(s: seq<char>, i: nat): seq<PlayableTone>
    decreases |s| - i
  {
    if At(s, i) == '\0' then []
    else if At(s, i + 1) == '\0' then []
    else if At(s, i + 2) == '\0' then []
    else [Tone(GetNote(At(s, i)), GetDuration(At(s, i + 1)), GetPause(At(s, i + 2)))] + Parse(s, i + 3)
  }

  /** Under the cursor, the raw sequence and its terminated prefix read alike. */
  lemma AtTerminated(s: seq<char>, j: nat)
    ensures j < |Terminated(s)| ==> At(s, j) == Terminated(s)[j] && At(s, j) != '\0'
    ensures j == |Terminated(s)| ==> At(s, j) == '\0'
  {
  }

  /** With a whole triplet ahead of the cursor, the loop takes it and moves on. */
  lemma ParseStep(s: seq<char>, i: nat)
    requires i + 3 <= |Terminated(s)|
    ensures Parse(s, i) == [TripletAt(Terminated(s), i)] + Parse(s, i + 3)
  {
    AtTerminated(s, i);
    AtTerminated(s, i + 1);
    AtTerminated(s, i + 2);
  }

  /** With fewer than three characters before the terminator, the loop stops. */
  lemma ParseStop(s: seq<char>, i: nat)
    requires i <= |Terminated(s)| < i + 3
    ensures Parse(s, i) == []
  {
    var n := |Terminated(s)|;
    AtTerminated(s, n);
    if i < n {
      AtTerminated(s, i);
    }
    if i + 1 < n {
      AtTerminated(s, i + 1);
    }
  }

  /**
   From cursor i, the loop yields one tone per complete triplet that remains
   before the NUL, each built from its own three characters.
   */
  predicate TripletsFrom(s: seq<char>, i: nat)
  {
    && i + 3 * |Parse(s, i)| <= |Terminated(s)| < i + 3 * |Parse(s, i)| + 3
    && forall k :: 0 <= k < |Parse(s, i)| ==> Parse(s, i)[k] == TripletAt(Terminated(s), i + 3 * k)
  }

  /** From every cursor inside the terminated string, the loop yields exactly its remaining triplets. */
  lemma {:induction false} ParseTriplets(s: seq<char>, i: nat)
    requires i <= |Terminated(s)|
    ensures TripletsFrom(s, i)
    decreases |Terminated(s)| - i
  {
    if i + 3 <= |Terminated(s)| {
      ParseTriplets(s, i + 3);
      ParseCons(s, i);
    } else {
      ParseStop(s, i);
    }
  }

  /** One turn of the loop: what holds of the tones from i + 3 holds of the tones from i. */
  lemma ParseCons(s: seq<char>, i: nat)
    requires i + 3 <= |Terminated(s)|
    requires TripletsFrom(s, i + 3)
    ensures TripletsFrom(s, i)
  {
    ParseStep(s, i);
    ConsTriplets(Terminated(s), i, Parse(s, i + 3));
  }

  /** Putting the triplet at i in front of the tones from i + 3 gives the tones from i. */
  lemma ConsTriplets(p: seq<char>, i: nat, rest: seq<PlayableTone>)
    requires i + 3 + 3 * |rest| <= |p|
    requires forall k :: 0 <= k < |rest| ==> rest[k] == TripletAt(p, i + 3 + 3 * k)
    ensures forall k :: 0 <= k < |rest| + 1 ==> ([TripletAt(p, i)] + rest)[k] == TripletAt(p, i + 3 * k)
  {
    var r := [TripletAt(p, i)] + rest;
    forall k | 0 <= k < |r|
      ensures r[k] == TripletAt(p, i + 3 * k)
    {
      if k > 0 {
        assert r[k] == rest[k - 1];
      }
    }
  }

  /**
   The tones playSong plays: exactly one per complete triplet of the
   terminated string (|r| is its length divided by 3, rounded down), tone k built from characters 3k, 3k+1 and 3k+2, in
   string order; a one- or two-character tail yields nothing.
   */
  function Tones(s: seq<char>): (r: seq<PlayableTone>)
    ensures 3 * |r| <= |Terminated(s)| < 3 * |r| + 3
    ensures forall k :: 0 <= k < |r| ==> r[k] == TripletAt(Terminated(s), 3 * k)
  {
    ParseTriplets(s, 0);
    Parse(s, 0)
  }

  /** A string without NUL is read whole. */
  lemma {:induction false} TerminatedWhole(p: seq<char>)
    requires '\0' !in p
    ensures Terminated(p) == p
  {
    if p != [] {
      TerminatedWhole(p[1..]);
      assert [p[0]] + p[1..] == p;
    }
  }

  /** Whatever follows the first NUL is never read. */
  lemma {:induction false} TerminatedStops(p: seq<char>, q: seq<char>)
    requires '\0' !in p
    ensures Terminated(p + ['\0'] + q) == p
  {
    if p == [] {
      assert (p + ['\0'] + q)[0] == '\0';
    } else {
      assert (p + ['\0'] + q)[1..] == p[1..] + ['\0'] + q;
      TerminatedStops(p[1..], q);
      assert [p[0]] + p[1..] == p;
    }
  }

  /** Two strings that read alike up to their NULs yield the same tones. */
  lemma SameTones(s: seq<char>, u: seq<char>)
    requires Terminated(s) == Terminated(u)
    ensures Tones(s) == Tones(u)
  {
    var a, b := Tones(s), Tones(u);
    assert |a| == |b|;
    forall k | 0 <= k < |a|
      ensures a[k] == b[k]
    {
    }
  }

  /** playSong stops at the first NUL: characters after it never sound. */
  lemma StopsAtNul(p: seq<char>, q: seq<char>)
    requires '\0' !in p
    ensures PlaySong(p + ['\0'] + q) == PlaySong(p)
  {
    TerminatedStops(p, q);
    TerminatedWhole(p);
    SameTones(p + ['\0'] + q, p);
  }

  /** What one tone does: its note, then its pause. */
  function ToneTrace(t: PlayableTone): (r: seq<Event>)
    ensures |r| >= 1
    ensures t.period == 0 ==> r == [WaitMs(t.durationMs), WaitMs(t.pauseMs)]
  {
    TableNotesCanPlay(t.period, t.durationMs);
    PlayNote(t.period, t.durationMs) + [WaitMs(t.pauseMs)]
  }

  /** Playing tones one after the other. */
  function Perform(ts: seq<PlayableTone>): (r: seq<Event>)
    ensures |r| >= |ts|
  {
    if ts == [] then [] else ToneTrace(ts[0]) + Perform(ts[1..])
  }

  /** Every tone leaves a trace: the tones play nothing only when there are none. */
  lemma {:induction false} PerformEmpty(ts: seq<PlayableTone>)
    ensures Perform(ts) == [] <==> ts == []
  {
    if ts != [] {
      assert |ToneTrace(ts[0])| > 0;
    }
  }

  /** The trace of playSong; it is empty exactly when the tune has no complete triplet. */
  function PlaySong(s: seq<char>): (r: seq<Event>)
    ensures r == [] <==> |Terminated(s)| < 3
  {
    PerformEmpty(Tones(s));
    Perform(Tones(s))
  }

  /** Playing two runs of tones back to back is playing their concatenation: tones sound in order, none is skipped or repeated. */
  lemma {:induction false} PerformAppend(a: seq<PlayableTone>, b: seq<PlayableTone>)
    ensures Perform(a + b) == Perform(a) + Perform(b)
  {
    if a == [] {
      assert a + b == b;
    } else {
      assert (a + b)[0] == a[0];
      assert (a + b)[1..] == a[1..] + b;
      PerformAppend(a[1..], b);
      calc {
        Perform(a + b);
        ToneTrace(a[0]) + Perform(a[1..] + b);
        ToneTrace(a[0]) + (Perform(a[1..]) + Perform(b));
      }
    }
  }

  /**
   The song trace splits at every tone: what the tones before tone k play,
   then tone k's note followed by exactly its pause, then the rest.
   */
  lemma {:induction false} PerformAt(ts: seq<PlayableTone>, k: nat)
    requires k < |ts|
    ensures Perform(ts) == Perform(ts[..k]) + PlayNote(ts[k].period, ts[k].durationMs)
                           + [WaitMs(ts[k].pauseMs)] + Perform(ts[k + 1..])
  {
    PerformSplit(ts, k);
    ToneParts(ts[k]);
    Assoc(Perform(ts[..k]), PlayNote(ts[k].period, ts[k].durationMs), [WaitMs(ts[k].pauseMs)], Perform(ts[k + 1..]));
  }

  /** The trace splits at tone k into the earlier tones, tone k, and the later tones. */
  lemma {:induction false} PerformSplit(ts: seq<PlayableTone>, k: nat)
    requires k < |ts|
    ensures Perform(ts) == Perform(ts[..k]) + (ToneTrace(ts[k]) + Perform(ts[k + 1..]))
  {
    var pre, t, post := ts[..k], ts[k], ts[k + 1..];
    assert ts == pre + ([t] + post);
    PerformAppend(pre, [t] + post);
    assert ([t] + post)[0] == t && ([t] + post)[1..] == post;
  }

  /** A tone is its note followed by one wait of its pause. */
  lemma ToneParts(t: PlayableTone)
    ensures CanPlay(t.period, t.durationMs)
    ensures ToneTrace(t) == PlayNote(t.period, t.durationMs) + [WaitMs(t.pauseMs)]
  {
    TableNotesCanPlay(t.period, t.durationMs);
  }

  /** Regrouping four trace pieces. */
  lemma Assoc(a: seq<Event>, b: seq<Event>, c: seq<Event>, d: seq<Event>)
    ensures a + ((b + c) + d) == a + b + c + d
  {
  }

  /**
   Tone k of a tune, in place: between what the earlier and the later tones
   play, the note and duration of characters 3k and 3k+1 sound, followed by
   exactly one wait of the pause of character 3k+2.
   */
  lemma SongTone(s: seq<char>, k: nat)
    requires 3 * k + 3 <= |Terminated(s)|
    ensures var p := Terminated(s);
      var ts := Tones(s);
      && k < |ts|
      && PlaySong(s) == Perform(ts[..k]) + PlayNote(GetNote(p[3 * k]), GetDuration(p[3 * k + 1]))
                        + [WaitMs(GetPause(p[3 * k + 2]))] + Perform(ts[k + 1..])
  {
    PerformAt(Tones(s), k);
  }

  /** Whether a trace ever sets the pin. */
  predicate Sounds(trace: seq<Event>)
  {
    exists i :: 0 <= i < |trace| && trace[i].High?
  }

  /** Whether some tone has both a pitch and a duration. */
  predicate Audible(ts: seq<PlayableTone>)
  {
    exists k :: 0 <= k < |ts| && ts[k].period > 0 && ts[k].durationMs > 0
  }

  lemma SoundsAppend(a: seq<Event>, b: seq<Event>)
    ensures Sounds(a + b) <==> Sounds(a) || Sounds(b)
  {
    if Sounds(a + b) {
      var i :| 0 <= i < |a + b| && (a + b)[i].High?;
      if i >= |a| {
        assert b[i - |a|].High?;
      }
    }
    if Sounds(a) {
      var i :| 0 <= i < |a| && a[i].High?;
      assert (a + b)[i] == a[i];
    }
    if Sounds(b) {
      var i :| 0 <= i < |b| && b[i].High?;
      assert (a + b)[|a| + i] == b[i];
    }
  }

  /** One tone sets the pin exactly when it has a pitch and a duration. */
  lemma ToneSounds(t: PlayableTone)
    ensures Sounds(ToneTrace(t)) <==> t.period > 0 && t.durationMs > 0
  {
    TableNotesCanPlay(t.period, t.durationMs);
    var note := PlayNote(t.period, t.durationMs);
    var head := ToneTrace(t);
    assert head == note + [WaitMs(t.pauseMs)];
    if t.period > 0 && t.durationMs > 0 {
      assert head[0] == note[0];
    }
    if Sounds(head) {
      var i :| 0 <= i < |head| && head[i].High?;
      assert i < |note|;
      assert note[i] == head[i];
    }
  }

  /** A song sets the pin exactly when one of its tones has a nonzero period and a nonzero duration. */
  lemma {:induction false} PerformSounds(ts: seq<PlayableTone>)
    ensures Sounds(Perform(ts)) <==> Audible(ts)
  {
    if ts != [] {
      PerformSounds(ts[1..]);
      ToneSounds(ts[0]);
      SoundsAppend(ToneTrace(ts[0]), Perform(ts[1..]));
      if Audible(ts) {
        var k :| 0 <= k < |ts| && ts[k].period > 0 && ts[k].durationMs > 0;
        if k > 0 {
          assert ts[1..][k - 1] == ts[k];
        }
      }
      if Audible(ts[1..]) {
        var k :| 0 <= k < |ts[1..]| && ts[1..][k].period > 0 && ts[1..][k].durationMs > 0;
        assert ts[k + 1] == ts[1..][k];
      }
    }
  }

  /** The empty tune plays nothing. */
  lemma EmptySong()
    ensures Tones("") == [] && PlaySong("") == []
  {
  }

  /** "C2." is one tone: note C for 400 ms, then a 20 ms pause. */
  lemma OneTriplet()
    ensures Tones("C2.") == [Tone(3816, 400, 20)]
    ensures PlaySong("C2.") == PlayNote(3816, 400) + [WaitMs(20)]
  {
    TerminatedWhole("C2.");
    assert Tones("C2.")[0] == TripletAt("C2.", 0);
  }

  /** A dangling note character after a complete triplet is never played. */
  lemma DanglingNote()
    ensures Tones("C2.C") == [Tone(3816, 400, 20)]
    ensures PlaySong("C2.C") == PlaySong("C2.")
  {
    TerminatedWhole("C2.C");
    assert Tones("C2.C")[0] == TripletAt("C2.C", 0);
    OneTriplet();
  }

  /** A rest of 400 ms keeps the pin still for its whole duration before the pause. */
  lemma RestSong()
    ensures PlaySong("x2,") == [WaitMs(400), WaitMs(5)]
  {
    TerminatedWhole("x2,");
    assert Tones("x2,")[0] == TripletAt("x2,", 0);
  }
}
