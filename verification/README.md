# Base-board demo firmware: tune player, LED bar and OLED cursor

A Dafny model of the three pieces of logic in the LPC17xx base-board demo
(`main.c`) that compute something rather than talk to hardware:

- **Tone sequencer** (`Sound`, `Song`): the 14-entry note table, the three
  character lookups a tune is written in (`getNote`, `getDuration`,
  `getPause`), the busy-wait square-wave loop `playNote`, and the tune
  reader `playSong`, which consumes a NUL-terminated string in
  (note, duration, pause) triplets. Pin writes and timer waits are recorded
  as a trace of events: `High(us)`, `Low(us)`, `WaitMs(ms)`.
- **LED bar** (`LedBar`): `moveBar`, which lights a three-LED window that
  wraps around the 16-LED bar and then moves the byte `barPos` by
  `dir*steps`, modulo 16.
- **OLED cursor** (`Oled`): `drawOled`, a small state machine over its static
  variables `wait`, `currX`, `currY`, `lastX`, `lastY`: a centre press clears
  the screen, other presses pass a divide-by-four rate limiter, the cursor
  moves at most one pixel per axis and stays on the screen, and a pixel is
  plotted only where the cursor has not just been plotted. Screen calls are
  recorded as `ClearScreen` and `PutPixel(x, y)` events.

Modelling choices:

- Tune characters are Dafny `char`s standing for the bytes of the string;
  the end of the Dafny sequence reads as the NUL terminator.
- 32-bit and 8-bit arithmetic is written out where it occurs: the loop bound
  `durationMs*1000` is reduced modulo 2^32 (`Sound.Limit`), the tone counter
  advances modulo 2^32, `barPos` is reduced to a byte before `% 16`, and
  `currX++`/`currY++` wrap at 256.
- `OLED_DISPLAY_WIDTH`, `OLED_DISPLAY_HEIGHT` and the `JOYSTICK_*` masks are
  defined in driver headers that are not part of this model; they are the
  fields of `Oled.Config` (positive dimensions, distinct one-bit flags).
- The note table holds full periods (2272 µs is 440 Hz). Each pass of the
  tone loop holds the pin high, then low, for `note/2` µs and advances the
  counter by `note`, so the pin is busy for about `durationMs` ms
  (`Sound.PlayNoteDuration`).
- A one- or two-character tail of a tune is dropped, because the reading
  loop breaks before `playNote` (`Song.DanglingNote`).

## Model

| member | source | states |
|---|---|---|
| Sound.GetNote | main.c:137-146 | the period is 0 exactly for characters outside 'A'-'G' and 'a'-'g'; every nonzero period is one of the table entries and at most 3816 µs |
| Sound.NoteLetterRoundTrip | main.c:95-110 | table index i and its letter ('A'+i, or 'a'+i-7) correspond one to one, and that letter looks up entry i |
| Sound.NoteIndexRoundTrip | main.c:137-146 | every note letter looks up the entry at its own index (ch-'A', or ch-'a'+7) |
| Sound.GetNoteInjective | main.c:95-110 | no two note letters share a period |
| Sound.GetDuration | main.c:148-156 | every duration is a multiple of 200 ms and at most 1800 ms; a non-digit gives 400 ms |
| Sound.DurationOfDigit | main.c:148-156 | digit d gives 200*d ms |
| Sound.GetPause | main.c:158-172 | the pause is 0, 5, 20 or 30 ms; it is 0 exactly for '+', 20 exactly for '.', 30 exactly for '_', and 5 for everything else |
| Sound.Cycles | main.c:118-128 | n passes of the tone loop are 2n events alternating High and Low, each of period/2 µs |
| Sound.Toggle | main.c:116-128 | the loop from counter t emits an even number of events, alternating High and Low of period/2 µs each, and emits nothing exactly when t is already at or past the bound |
| Sound.ToggleCycles | main.c:118-128 | from counter t below the bound, the loop performs the least number of whole periods that carries t to the bound, and nothing else; at or past the bound it performs nothing |
| Sound.ToggleStep | main.c:118-128 | one pass of the loop below the bound adds one cycle and one period to the count, so the least-cycles property carries over from counter t + period to t |
| Sound.PlayNote | main.c:112-135 | a rest is a single wait of the duration and never touches the pin; a nonzero period gives only High/Low cycles, and their number n is the least with n*period >= durationMs*1000 (32-bit) |
| Sound.PlayNoteCycleCount | main.c:114-128 | the number of High/Low pairs is (durationMs*1000) / period rounded up |
| Sound.TableNotesCanPlay | main.c:118 | every table period with every duration a digit can give fits the 32-bit bound and counter, so the loop terminates and the bound is exactly durationMs*1000 |
| Sound.CyclesPinTime | main.c:119-127 | n cycles keep the pin busy for n*(period - period mod 2) µs |
| Sound.PlayNoteDuration | main.c:114-128 | a note keeps the pin busy for at least durationMs*1000 minus one µs per cycle and less than durationMs*1000 plus one period |
| Sound.RestIsSilent | main.c:131-134 | a rest trace holds only waits and no pin time |
| Sound.ZeroDurationIsSilent | main.c:116-118 | a note with a nonzero period and duration 0 produces no events (a rest of duration 0 is still one wait of 0 ms) |
| Song.Terminated | main.c:186 | the string read is the longest NUL-free prefix: it is a prefix, holds no NUL, and is followed by a NUL when shorter than the input |
| Song.Parse | main.c:186-197 | the reading loop itself, with the cursor at i: it stops on a NUL in any of the three positions and otherwise takes the looked-up triplet and continues three characters on; its behaviour is stated by Song.ParseStep, Song.ParseStop and Song.ParseTriplets |
| Song.ParseStep | main.c:186-197 | with three characters before the NUL, the loop takes the triplet (getNote, getDuration, getPause) and continues three characters later |
| Song.ParseStop | main.c:186-192 | with fewer than three characters before the NUL, the loop stops with nothing played |
| Song.ParseTriplets | main.c:186-199 | from any cursor position, the loop yields one tone per complete remaining triplet, tone k built from the characters at i+3k, i+3k+1, i+3k+2 |
| Song.ParseCons | main.c:186-197 | one turn of the reading loop: if the tones from cursor i + 3 are exactly the remaining triplets, so are the tones from i |
| Song.Tones | main.c:174-200 | a tune of n characters before its NUL plays n/3 (rounded down) tones, tone k from characters 3k, 3k+1, 3k+2, in string order |
| Song.TerminatedStops | main.c:186 | the reader stops at the first NUL and never sees what follows |
| Song.StopsAtNul | main.c:186-199 | characters after the first NUL never sound |
| Song.ToneTrace | main.c:195-197 | one tone emits at least one event; a rest tone is exactly a wait of its duration followed by a wait of its pause |
| Song.Perform | main.c:186-199 | n tones emit at least n events |
| Song.PerformEmpty | main.c:193-197 | every tone emits at least one event |
| Song.PlaySong | main.c:174-200 | the song trace is empty exactly when fewer than three characters precede the NUL |
| Song.PerformAppend | main.c:186-199 | playing two runs of tones one after the other is playing their concatenation: order is kept, nothing skipped or repeated |
| Song.PerformAt | main.c:193-197 | the trace splits at every tone into the earlier tones, that tone's note followed by exactly one wait of its pause, and the later tones |
| Song.PerformSplit | main.c:186-199 | the trace splits at tone k into what the earlier tones play, what tone k plays, and what the later tones play |
| Song.ToneParts | main.c:195-197 | one tone is its note followed by exactly one wait of its pause, and every tone meets the 32-bit bounds of playNote |
| Song.SongTone | main.c:186-199 | tone k of a tune plays the note and duration of characters 3k and 3k+1, then waits the pause of character 3k+2, between the earlier and the later tones |
| Song.SoundsAppend | main.c:195 | a concatenated trace sets the pin exactly when one of its parts does |
| Song.ToneSounds | main.c:195 | one tone sets the pin exactly when its period and duration are both nonzero |
| Song.PerformSounds | main.c:186-199 | a song sets the pin exactly when one of its tones has a nonzero period and a nonzero duration |
| Song.EmptySong | main.c:186 | the empty tune plays nothing |
| Song.OneTriplet | main.c:186-199 | "C2." plays C (3816 µs) for 400 ms and then waits 20 ms |
| Song.DanglingNote | main.c:186-189 | "C2.C" plays the same as "C2.": the dangling note is dropped |
| Song.RestSong | main.c:131-134 | the rest "x2," waits 400 ms with the pin untouched, then 5 ms |
| LedBar.Window | main.c:31-38 | LED i is lit exactly when it is pos, pos-1 or pos-2 modulo 16, including the wrapped patterns for pos 0 and 1 |
| LedBar.MoveBar | main.c:29-44 | the new position is below 16 and equals (pos + dir*steps) mod 16; the pattern sent lights exactly the old position and the two LEDs below it |
| LedBar.ThreeLit | main.c:31-38 | every pattern lights exactly three LEDs: pos, (pos-1) mod 16 and (pos-2) mod 16 |
| LedBar.ByteMod | main.c:40-41 | the truncation of barPos to a byte does not change its value mod 16 |
| LedBar.MoveDown | main.c:40-41 | dir = (uint8)-1 = 255 moves the bar down by steps, wrapping below 0 |
| LedBar.MoveUp | main.c:40-41 | dir = 1 moves the bar up by steps, wrapping above 15 |
| LedBar.UpThenDown | main.c:40-41 | a move up followed by a move down of the same size returns to the starting position |
| LedBar.Run | main.c:25-44 | after any sequence of calls the position is still below 16 |
| LedBar.RunNet | main.c:40-41 | after any sequence of calls the position is the start plus the sum of dir*steps over the calls, mod 16 |
| LedBar.FromInitial | main.c:25-41 | from the starting position 2, after any sequence of calls the bar is at 2 plus the sum of dir*steps, mod 16, and still on the bar |
| Oled.DrawOled | main.c:47-86 | a centre press only clears the screen and changes no state; before the fourth call only the counter advances; on a due call the counter resets, the cursor goes to (MoveX, MoveY) of the reading, last equals the cursor afterwards, and a pixel is plotted at the cursor exactly when it differs from the last plotted point |
| Oled.MoveY | main.c:65-71 | on a screen of at most 256 rows the new row stays on the screen and differs by at most one; up alone moves up unless on row 0, down alone moves down unless on the last row, neither leaves it, and both together leave it except on row 0, where down still moves it to row 1 |
| Oled.MoveX | main.c:73-79 | on a screen of at most 256 columns the new column stays on the screen and differs by at most one; right alone moves right unless on the last column, left alone moves left unless on column 0, neither leaves it, and both together leave it except on the last column, where left still moves it back one |
| Oled.StaysOnScreen | main.c:65-79 | the cursor stays within [0, W-1] x [0, H-1] and each coordinate changes by at most 1 per call |
| Oled.MovesOnlyWhenDue | main.c:55-63 | the cursor moves only on a call that is not a centre press and finds the counter at 3 or more |
| Oled.OneDirection | main.c:65-79 | with exactly one direction pressed on a due call, the cursor moves one pixel that way unless at the edge, and the other axis stays |
| Oled.EveryFourth | main.c:49-63 | over non-centre presses from a counter w in 0..3, the counter after k calls is (w+k) mod 4 and the cursor can move only on calls where it stood at 3 |
| Oled.States | main.c:47-86 | the states a run of calls passes through: one more than the calls, starting at the given state, each the result of drawOled on the previous state and its reading, all with byte coordinates |
| Oled.FirstMoveOnFourthCall | main.c:49-63 | from the initial state the cursor cannot move during the first three non-centre calls |

## Left out

- `init_i2c`, `init_ssp`, `init_GPIO` and the speaker pin setup in `main`: pin-mux and peripheral register configuration through driver libraries.
- `SysTick_Handler` and `getTicks`: an interrupt-driven tick counter.
- The `main` polling loop: sensor reads, `printf`/`sprintf` with floating point, 7-segment and OLED text output, and the accelerometer rule that chooses `dir` and the call rate of `moveBar` (it depends on sensor values and int8 negation). The rule that chooses `dir` is left out; `LedBar.MoveBar` takes any byte `dir`, and `LedBar.MoveUp`/`LedBar.MoveDown` state the two values `main` passes, 1 and (uint8)-1.
- `check_failed`: an infinite loop with nothing to state.
- The real timing of `Timer0_us_Wait`/`Timer0_Wait` and the GPIO writes behind `NOTE_PIN_HIGH`/`NOTE_PIN_LOW`: they are events in a trace.
- The demo tune `song` and the commented-out call of `playSong` in `main`.
- Sound.PlayNote: requires that the 32-bit counter `t += note` cannot wrap before reaching the bound (`CanPlay`); otherwise the firmware's loop need not terminate. Every note and duration a tune can produce meets it (`Sound.TableNotesCanPlay`).
- LedBar.MoveBar: requires `barPos < 16`, which holds initially (`LedBar.InitialPos`, 2) and after every call (`LedBar.Run`, `LedBar.FromInitial`); for larger values the C shift `0x07 << (barPos-2)` would overflow.
- Oled.StaysOnScreen: assumes a screen of at most 256 pixels per side, since the coordinates are bytes.
- Oled.MoveX, Oled.MoveY: state the result only for a screen of at most 256 pixels per side, for the same reason; on a larger screen `currX++`/`currY++` would wrap at 256.
- Song.Perform, Song.ToneTrace: their own contracts only bound the trace length and fix the rest case; the order of notes and pauses is stated by `Song.PerformAppend`, `Song.PerformAt` and `Song.SongTone`, which keeps each proof small.
- Song.Parse: carries no contract of its own; `Song.ParseTriplets` states what it yields (one tone per complete triplet, never reading past the NUL), and keeping the bound off the function keeps that induction small.
