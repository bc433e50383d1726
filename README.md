# Reaction Pro, modelled in Dafny

Reaction Pro is a browser reaction-time game. A round starts from a click.
The screen then waits a random delay, taken from a pool of ten delays
pre-computed for the chosen difficulty, and then shows the stimulus. A click
on the stimulus measures the reaction time. That time is shown with a verdict
and put at the head of a ten-entry history. It also replaces the all-time
best time when it beats it, and the best time is written through to local
storage. A click before the stimulus loses the round. A side panel fetches
three news headlines from a search service and cleans them up. Starting a
round, clicking while waiting or on the stimulus, changing the difficulty,
opening the settings and resetting the best time each play a short
synthesised sound chosen from one of three sound packs. The stimulus timer,
closing the settings and fetching the news play none.

The modules follow the source files. `App.tsx` is split into three modules:
`App` for the game screen, `DelayPool` for the pool of delays, and
`Headlines` for the headline parsing. Each component file and the audio
utility has one module. `Types` holds the enums of `types.ts`. Only
`JsBuiltins` is shared, and it models the JavaScript built-ins the others
use.

- `types.dfy` (`Types`): the enums and the attempt record of `types.ts`, and
  the `Option` and `Outcome` wrappers for nullable values and failures.
- `js_builtins.dfy` (`JsBuiltins`): the JavaScript built-ins the logic relies
  on, stated over unbounded integers and strings:
  - `Math.floor(Math.random() * n)`, with a random draw as a fraction below 1;
  - `Math.round` of a quotient;
  - `Number#toString` and `parseInt` for integers;
  - `String#trim`, `String#split` and `Array#filter`.
- `delay_pool.dfy` (`DelayPool`): the pool of stimulus delays and the choice
  of a delay for a round.
- `headlines.dfy` (`Headlines`): the headline parsing of `fetchNews`. It
  covers the line filter and the ordinal and citation regular expressions,
  each against a declarative description of what it matches, as well as the
  fallback link and the error messages.
- `reaction_area.dfy` (`ReactionArea`): the verdict bands and the texts of
  each phase.
- `stats.dfy` (`Stats`): the session average and the highlighted entry.
- `audio.dfy` (`Audio`): the sound table and a class `AudioManager` with the
  manager's three settings.
- `app.dfy` (`App`): a class `ReactionApp` holding the state of the game
  screen. Each handler is a method that names in `modifies` the fields it may
  change. The class invariant `Valid` covers the following:
  - the pool has ten entries, all in the difficulty's window;
  - a timer is pending exactly while waiting;
  - the history holds at most ten entries;
  - the best time is the running minimum since the load or the last reset,
    and storage holds its decimal text exactly when it is present.

Time, randomness and I/O are parameters:

- A value of `Math.random()` is a fraction `num / den` with `num < den`.
- `performance.now()` is an integer number of microseconds, so a reaction is
  `Math.round((end - start) / 1000)` milliseconds. `Date.now()` is an integer
  number of milliseconds.
- Durations are in milliseconds. Amplitudes and the master volume are in
  thousandths, so the peak gain is in millionths.
- The search service's reply is an input: either its text and the URIs of its
  grounding chunks, or the message of the error it threw.
- A handler returns the sound cue it asks the audio manager for, rather than
  calling the manager.

Choosing the difficulty already selected keeps the pool: the pool is an
effect that depends on `difficulty`, so it is redrawn only when the
difficulty actually changes. `setVolume` stores its value as given, without
clamping, so a negative volume gives a negative peak.

## Model

| member | source | states |
|---|---|---|
| `JsBuiltins.ScaleDraw` | App.tsx:146 | `Math.floor(u * n)` of a draw below 1 is the whole number k with k ≤ u·n < k+1, and it is below n |
| `JsBuiltins.ScaleDrawSlice` | App.tsx:194 | each of the n equal slices [i/n, (i+1)/n) of the draws scales to its own index i |
| `JsBuiltins.RoundDiv` | components/Stats.tsx:14-16 | `Math.round(num / den)` lies within half a unit of the quotient, a half rounding up |
| `JsBuiltins.RoundDivUnique` | components/Stats.tsx:14-16 | no other integer lies within half a unit of the quotient, so the rounding is determined |
| `JsBuiltins.RoundDivWithin` | App.tsx:214-215 | a quotient lying in [lo, hi] rounds into [lo, hi] |
| `JsBuiltins.TrimStart` | App.tsx:110 | drops exactly the leading white space: the result is a suffix, all that is dropped is white space, and it does not start with white space |
| `JsBuiltins.TrimEnd` | App.tsx:110 | drops exactly the trailing white space |
| `JsBuiltins.Trim` | App.tsx:105 | the result occurs in the input with only white space around it, and has none at either end |
| `JsBuiltins.FilterMembers` | App.tsx:105 | the filter keeps exactly the elements that pass the test |
| `JsBuiltins.FilterAppend` | App.tsx:105 | the filter keeps the order: filtering a concatenation concatenates the filtered parts |
| `JsBuiltins.Split` | App.tsx:105 | splitting gives at least one piece and no piece holds the separator |
| `JsBuiltins.JoinSplit` | App.tsx:105 | joining the pieces with the separator gives back the text |
| `JsBuiltins.SplitJoin` | App.tsx:105 | splitting joined separator-free pieces gives back the pieces |
| `JsBuiltins.NatToDecimal` | App.tsx:154 | a non-empty run of digits without a leading zero |
| `JsBuiltins.IntToDecimal` | App.tsx:154 | non-empty, and starts with a minus sign exactly for a negative number |
| `JsBuiltins.LeadingDigitCount` | App.tsx:64 | the length of the maximal run of digits at the front |
| `JsBuiltins.ParseIntNaN` | App.tsx:64-65 | `parseInt` gives NaN exactly when no digit follows the leading white space and an optional sign, so `LoadBest` drops a stored value such as "abc", "-" or "   " |
| `JsBuiltins.MinusSign` | App.tsx:64 | `parseInt` of a minus sign and digits is the digits' value negated |
| `JsBuiltins.DecimalPrefixParses` | App.tsx:64 | `parseInt` of a number's text followed by text not starting with a digit is the number |
| `JsBuiltins.DecimalRoundTrip` | App.tsx:64 | `parseInt(n.toString())` is n for every integer n |
| `DelayPool.Windows` | App.tsx:127-143 | the delay windows are Easy [1000, 2000), Medium [1500, 3000) and Hard [1000, 4000) |
| `DelayPool.DrawDelay` | App.tsx:146 | every drawn delay lies in its difficulty's window |
| `DelayPool.EveryDelayDrawable` | App.tsx:146 | every delay of the window is drawn by some value of `Math.random()` |
| `DelayPool.GeneratePool` | App.tsx:145-147 | the pool has exactly ten delays, each in the difficulty's window |
| `DelayPool.ChooseDelay` | App.tsx:193-195 | the delay of a round is an entry of the pool, or 2000 ms when the pool is empty |
| `DelayPool.EveryEntryChoosable` | App.tsx:193-195 | every pool entry is picked by its own equal share of the draws |
| `DelayPool.ChosenDelayInWindow` | App.tsx:193-195 | a delay chosen from a generated pool lies in the difficulty's window |
| `Headlines.StripOrdinal` | App.tsx:110 | removing the ordinal leaves a suffix of the line |
| `Headlines.StripOrdinalRemovesMarker` | App.tsx:110 | a line without a leading `digits.` is left alone; from one with it, exactly a whole `digits.` plus white-space marker is removed, and what is left does not start with white space |
| `Headlines.GreedyClose` | App.tsx:110 | finds the last `]` reachable without crossing a line terminator, and none exists when it finds nothing |
| `Headlines.FindSpan` | App.tsx:110 | finds the leftmost bracketed span, extended to its longest; when it finds nothing there is no span |
| `Headlines.StripBracket` | App.tsx:110 | removes the leftmost, longest `[...]` span on one line, and leaves a text without one unchanged |
| `Headlines.CleanTitle` | App.tsx:110 | a title neither starts nor ends with white space |
| `Headlines.UrlFor` | App.tsx:108-111 | an item's link is never empty: it is the fallback `https://news.google.com` or the URI of the chunk at that index, and it is that URI whenever the chunk has a non-empty one |
| `Headlines.KeptLines` | App.tsx:105 | for the line filter `KeepLong`, every kept line is a line of the reply longer than ten characters once trimmed, and nothing is kept exactly when no line is that long |
| `Headlines.MakeItems` | App.tsx:107-113 | at most three items, the k-th made of the k-th kept line and the k-th chunk |
| `Headlines.ParseHeadlines` | App.tsx:104-115 | an error "No headlines found." exactly when no line is long enough; otherwise exactly min(3, number of long lines) items, the k-th made of the k-th long line of the reply |
| `Headlines.FetchOutcome` | App.tsx:89-119 | a missing or empty API key fails with its message; a thrown error gives its message, or the generic one when it has none; with a key, an answered reply gives exactly the parsed headlines or their error |
| `Headlines.MissingKeyMakesNoRequest` | App.tsx:90-93 | without an API key the outcome does not depend on the reply |
| `ReactionArea.Band` | components/ReactionArea.tsx:92-99 | every time falls in one of the six bands |
| `ReactionArea.ReactionMessage` | components/ReactionArea.tsx:92-99 | the verdict is the message of the time's band |
| `ReactionArea.BandThresholds` | components/ReactionArea.tsx:93-98 | the bands are below 150, [150, 200), [200, 250), [250, 300), [300, 400) and from 400 |
| `ReactionArea.BandMonotone` | components/ReactionArea.tsx:93-98 | a slower time never gets a better band |
| `ReactionArea.MessagesDistinct` | components/ReactionArea.tsx:93-98 | the six messages differ, so each time has exactly one |
| `ReactionArea.ResultTextParses` | components/ReactionArea.tsx:70 | the text "`<result>` ms" reads back through `parseInt` as the result, and "null ms" as no number |
| `ReactionArea.Styles` | components/ReactionArea.tsx:36-89 | in the result phase the title reads back as the result and the description is the verdict on that time, a missing one judged as 0 |
| `ReactionArea.ButtonTextIdentifiesPhase` | components/ReactionArea.tsx:43-83 | the five button labels differ, whatever the result |
| `ReactionArea.MissingResultJudgedAsZero` | components/ReactionArea.tsx:70-71 | a missing result is titled "null ms" and judged as a time of 0 |
| `Stats.SessionAverage` | components/Stats.tsx:12-16 | no average for an empty history; otherwise the integer nearest the mean of the times, whose sum is `SumTimes`, a half rounding up |
| `Stats.AverageOfOne` | components/Stats.tsx:14-16 | the average of one attempt is its time |
| `Stats.AverageWithinRange` | components/Stats.tsx:14-16 | the average lies between the fastest and the slowest time |
| `Stats.Highlighted` | components/Stats.tsx:43-48 | the entry at index 0 is the highlighted one, and there is one exactly when the history is not empty |
| `Stats.NewestHighlighted` | components/Stats.tsx:43-48 | an attempt just recorded at the head of the history is the highlighted entry |
| `Audio.ToneFor` | utils/audio.ts:56-106 | every entry has a positive frequency, duration and amplitude; ticks do not glide; start tones glide upward |
| `Audio.GlidingEntries` | utils/audio.ts:56-106 | the entries without a glide are exactly the ticks and the Classic error |
| `Audio.Render` | utils/audio.ts:38-46 | the waveform, frequency and duration are kept; the frequency glides exactly when a non-zero end frequency is given; the peak is the table amplitude times the master volume, so it is zero when either is zero and positive when both are positive |
| `Audio.PeakMonotoneInVolume` | utils/audio.ts:45 | a louder master volume never gives a quieter peak |
| `Audio.AudioManager.constructor` | utils/audio.ts:4-7 | the manager starts enabled, at volume 0.5, with the Classic pack |
| `Audio.AudioManager.Toggle` | utils/audio.ts:18-20 | sets the enabled flag and changes nothing else |
| `Audio.AudioManager.SetVolume` | utils/audio.ts:22-24 | sets the volume and changes nothing else |
| `Audio.AudioManager.SetSoundPack` | utils/audio.ts:26-28 | sets the pack and changes nothing else |
| `Audio.AudioManager.PlayTone` | utils/audio.ts:30-54 | no sound exactly when disabled; otherwise the tone shaped by the master volume |
| `Audio.AudioManager.Play` | utils/audio.ts:56-106 | the current pack's entry for the cue, played through `PlayTone` |
| `App.Record` | App.tsx:219-223 | the new history holds at most ten attempts: the new one first, then the previous ones in order |
| `App.RecordAllKeepsNewest` | App.tsx:223 | after any run of attempts the history is the newest ten, newest first, then as much of the earlier history as fits |
| `App.Improve` | App.tsx:224 | the new best time is present, no slower than the reaction or the old best, and is one of the two |
| `App.BestIsMinimum` | App.tsx:224 | the best time is the minimum of the starting best and every reaction since |
| `App.BestOfStep` | App.tsx:224 | one more reaction updates the running minimum by itself |
| `App.Persist` | App.tsx:152-158 | the best-time key is present exactly when there is a best time and holds its decimal text; no other key changes |
| `App.LoadBest` | App.tsx:62-66 | a missing or empty stored value loads no best time |
| `App.PersistThenLoad` | App.tsx:152-158 | the best time written to storage is the one loaded back |
| `App.ReactionApp.constructor` | App.tsx:22-66 | starts idle at Medium difficulty with an empty history, the stored best time loaded and written back, and a Medium pool |
| `App.ReactionApp.AdvanceIntro` | App.tsx:48-51 | an intro timer advances the stage by one, up to 3 |
| `App.ReactionApp.SetDifficulty` | App.tsx:363 | sets the difficulty, draws a new pool when it changed, and plays a tick |
| `App.ReactionApp.OpenSettings` | App.tsx:315 | opens the dialog, which locks the game, and plays a tick |
| `App.ReactionApp.CloseSettings` | App.tsx:431 | closes the dialog |
| `App.ReactionApp.Start` | App.tsx:186-204 | locked (`Locked`: the settings are open or the intro has not reached stage 3), changes nothing; otherwise the round waits for a timer set with a pool delay and the result is cleared |
| `App.ReactionApp.TimerFire` | App.tsx:197-200 | the stimulus shows and the clock starts at the firing time |
| `App.ReactionApp.Click` | App.tsx:206-228 | locked (`Locked`), changes nothing; while waiting, the round is lost and nothing is recorded; on the stimulus, the rounded reaction is shown, recorded and kept as best when it beats it; otherwise a round starts |
| `App.ReactionApp.Abort` | App.tsx:209-212 | the round is lost and the timer cleared |
| `App.ReactionApp.Finish` | App.tsx:213-224 | the reaction is shown, put at the head of the history and kept as best when it beats it; it is not negative when the end follows the start |
| `App.ReactionApp.ShowResult` | App.tsx:214-223 | the result phase with the reaction, and the history with it at the head |
| `App.ReactionApp.KeepBest` | App.tsx:224 | the best time improves by the reaction and storage follows it |
| `App.ReactionApp.ResetBest` | App.tsx:178-184 | the best time is cleared, its key removed and the history untouched |
| `App.ReactionApp.FetchNews` | App.tsx:86-123 | loading ends; on success the items replace the news, on failure the news stays and the error is kept |
| `App.ReactionApp.ShowNews` | App.tsx:116-122 | loading ends; a success replaces the news with its items, a failure keeps the news and records the error message |

## Left out

- Rendering: JSX, class strings, icons, animations and the theme colours
  (`colorConfig`, the theme maps of the reaction area and the colour buttons
  with their stored choice). They are presentation only.
- The settings dialog and the news panel components, and `handleUpdateSettings`
  and `toggleSound`. They pass values on to the audio manager, whose setters
  are modelled.
- The settings and theme loads on mount (App.tsx:68-79). The stored volume
  and sound pack reach the audio manager through `SetVolume` and
  `SetSoundPack`, which are modelled. The `JSON.parse` that reads them is not
  modelled. `SoundPack` has only its three values, so a stored pack outside
  them cannot be represented. Such a pack would hit the `default:` branches
  of utils/audio.ts and play the Classic tones.
- The Web Audio API: the lazily created audio context, its resume, the
  oscillator and gain nodes and their exponential ramps. A sound is
  described, not played.
- Floating point. Reactions, durations and gains are integers in fixed
  units. A reaction is rounded from microseconds, which is exact for a clock
  of microsecond resolution only.
- Numbers too large for a double, and their exponent notation in
  `Number#toString`. Integers here are unbounded, and `IntToDecimal` always
  writes plain digits. The negative zero `parseInt("-0")` gives is 0 here.
- Strings are sequences of Unicode scalar values, not UTF-16 code units, so
  a length compared with 10 counts characters.
- Timers run only through explicit events. `TimerFire` needs a pending timer
  and `AdvanceIntro` moves the intro forward one stage at a time, in the
  order the three intro timers fire. Timer cleanup on unmount is not
  modelled.
- `window.confirm`: `ResetBest` is the confirmed branch. A cancelled confirm
  changes nothing.
- The fatal error path of `handleStart` (`appError` and its screen). The
  modelled steps cannot throw.
- The network call. `FetchOutcome` takes the reply as an input. A reply whose
  text is missing would throw inside the parsing; that is not modelled.
- `App.ReactionApp.FetchNews`: the loading flag is set and cleared within one
  call. A render between the request and the reply, with the flag set, is not
  modelled.
- `App.ReactionApp.SetDifficulty` requires the idle phase, because the
  difficulty buttons are drawn only then (App.tsx:349).
- `App.ReactionApp.Start` requires the idle, result or too-soon phase,
  because `handleStart` is only called from a click in those phases
  (App.tsx:225-226).
