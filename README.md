# worldwebclock: countdown and alert-sound model

This project models the countdown timer and its audio handle inside the
`ClockTimerApp` React component of worldwebclock (`src/App.js`). The rules it
models:

- The component keeps a list that holds at most one countdown record. A record has
  an `id` (its creation time), `time` (seconds left), `running`, `message` and
  `animate`.
- `addCountdown` creates a record only when the list is empty, and asks for the
  alert sound.
- The one-second interval ticks every record. A record that is not running, or
  has no time left, stays as it is. Any other record loses one second. The record
  that reaches zero stops, shows "⏰ Time's up!", turns on its animation and asks
  for the sound.
- `resetCountdown(id)` and `deleteCountdown(id)` first stop and clear the audio
  handle `voiceRef.current`. Reset then asks for the sound and restarts the
  records with that id. Delete filters those records out.
- `playSound` has an overlap guard. It does nothing while the handle refers to an
  audio that is not paused. Otherwise it creates a new audio, stores it in the
  handle before starting it, and clears the handle when the audio ends.
- `formatTime` writes the seconds in decimal, padded with zeros to two characters.

Layout:

- `countdowns.dfy`, module `Countdowns`: the record, its two states (running and
  finished), and the pure tick, reset and delete updates of the list.
- `time_format.dfy`, module `TimeFormat`: `formatTime`, built from `toString` and
  `padStart`, with a proof that its output reads back as the number.
- `audio.dfy`, module `Audio`: the handle and the audio objects as a value
  (`Player`). Audio objects are numbered in creation order. `audios[k]` is the
  `paused` flag of audio `k`, and `current` is the number the handle refers to.
  `Consistent` states that the only audio that may be playing is the one the
  handle refers to. So, in every state the class `ClockTimerApp` reaches, at
  most one alert sound plays at a time. The class reaches only such states
  because its "ended" handler clears the handle only for its own audio; the
  source's handler, modelled as `Audio.Ended`, does not, see "## Findings".
- `app.dfy`, module `App`: the component's state as a value (`Widget`). It has
  one transition function per handler, which the lemmas reason about. The class
  `ClockTimerApp` holds the same state in fields (`countdowns`, `voice`, `audios`,
  `playRequests`). Its methods update those fields in place, and each method is
  proved to follow its transition function and to keep the invariant.

Host inputs become parameters or methods:

- `Date.now()` is the `id` parameter of `Add`.
- The interval firing is a call of `Tick`.
- The browser's "ended" event is a call of `OnEnded`.
- A `play()` the host does not allow, which leaves the audio paused, is a call of `OnRejected`.

## Model

| member | source | states |
|---|---|---|
| `Countdowns.Start` | src/App.js:104-112 | a new countdown has the given id, 10 seconds left, is running, and shows no message or animation |
| `Countdowns.TickOne` | src/App.js:69-86 | a record that is not running or has no time left is unchanged; otherwise time drops by exactly one; above zero every other field is kept; at zero the record is finished (time 0, not running, "⏰ Time's up!", animating); id always kept; a valid record stays valid and its time never rises and never goes below 0 |
| `Countdowns.TickAll` | src/App.js:68-87 | the tick's map keeps the list length and applies the one-record update at every position |
| `Countdowns.FinishCount` | src/App.js:74-75 | the number of sound requests a tick makes is at most the list length, and is non-zero exactly when some record reaches zero on that tick |
| `Countdowns.Restarted` | src/App.js:127 | a restarted record equals a freshly started countdown with the same id |
| `Countdowns.ResetAll` | src/App.js:124-130 | reset keeps the list length; every record with the id becomes the start state under that id, and every other record is unchanged |
| `Countdowns.DeleteAll` | src/App.js:140 | delete keeps every copy of every record whose id differs and no copy of a record with the id (as multisets), and the survivors keep their original order; so a record survives exactly when its id differs, the list never grows, and a list without the id comes back unchanged |
| `Countdowns.ListValidPreserved` | src/App.js:68-140 | tick, reset and delete keep at most one record in the list, each running with 1 to 10 seconds left or finished at 0 |
| `TimeFormat.NatToString` | src/App.js:94 | `toString` of a natural number is a non-empty run of digits with no leading zero, one digit exactly below 10 |
| `TimeFormat.IntToString` | src/App.js:94 | `toString` of a non-negative number is digits without a leading zero that read back as the number; of a negative number, a minus sign followed by such digits reading back as its magnitude |
| `TimeFormat.PadStart` | src/App.js:94 | `padStart` yields the longer of the input and the width, ending in the input, with the fill character everywhere in front |
| `TimeFormat.FormatTime` | src/App.js:93-95 | the display is at least two characters, all digits for a non-negative count |
| `TimeFormat.NatToStringValue` | src/App.js:94 | the decimal digits of `n` read back as `n` |
| `TimeFormat.LeadingZerosValue` | src/App.js:94 | the zeros `padStart` puts in front do not change the value read back |
| `TimeFormat.FormatTimeRoundTrip` | src/App.js:93-95 | for every non-negative count the display reads back as the count |
| `TimeFormat.FormatCountdownTime` | src/App.js:93-95 | for 0 to 9 the display is "0" followed by the digit; for 10 it is "10"; both are two characters |
| `Audio.Play` | src/App.js:18-38 | every call counts as a request; while the handle's audio plays nothing else changes; otherwise a new audio, never used before, is created, starts playing and becomes the handle; afterwards the guard is up, and, from a consistent state, at most one audio plays |
| `Audio.Stop` | src/App.js:116-119 | for a handle that is null or refers to an existing audio: the handle is cleared, its audio is paused, every other audio keeps its flag, and no request is made; from a consistent state no audio plays afterwards |
| `Audio.Ended` | src/App.js:30-32 | `onended` as written: the ended audio no longer plays, every other audio keeps its paused flag, and the handle is cleared whatever it refers to; so on a late event the newer audio keeps playing with no handle; when the ended audio was the one playing, nothing plays afterwards and consistency is kept |
| `Audio.LateEndedOverlap` | src/App.js:20-32 | as written, an "ended" event handled after a reset clears the handle of the newer audio; the next stop finds no handle, and the request after it starts a second audio playing beside the first |
| `Audio.EndedOwn` | src/App.js:30-32 | the corrected handler: the ended audio no longer plays, the handle is cleared only if it refers to that audio, other audios are untouched, consistency is kept for every audio, and on the audio that was playing it agrees with `Audio.Ended` |
| `Audio.LateEndedOwnGuarded` | src/App.js:20-32 | with the corrected handler the late event leaves the newer audio as the handle, so the next request meets the guard and starts nothing |
| `Audio.Rejected` | src/App.js:34-37 | a play the host does not allow leaves that audio paused, the handle set and every other audio as it was; nothing plays afterwards |
| `Audio.OnePlaying` | src/App.js:20-27 | in a consistent state two playing audios are the same audio; that every reachable state is consistent is the `Consistent(p) ==> Consistent(r)` clause of `Audio.Play`, `Audio.Stop`, `Audio.EndedOwn` and `Audio.Rejected` (`Audio.Ended` keeps it only when the ended audio was the one playing) |
| `Audio.PlayTwice` | src/App.js:20-23 | two requests in quick succession leave the same single handle as one request |
| `Audio.PlayAfterRejected` | src/App.js:20-34 | after a play the host did not allow, which left the audio paused, the guard lets the next request through, and that request installs a fresh handle |
| `Audio.PlayTimesOnce` | src/App.js:20-23 | any positive number of requests in a row acts as one request, apart from the request count |
| `Audio.PlayTimes` | src/App.js:74-75 | requests made in a row (as a tick makes one per finishing record) add one to the count each and keep at most one audio playing |
| `App.AddStep` | src/App.js:98-113 | with a record present nothing changes and no sound is requested; with an empty list the list becomes exactly the new countdown and one request is made; the invariant is kept |
| `App.TickStep` | src/App.js:66-88 | a tick keeps the list length and the ids, makes one sound request per record reaching zero, keeps the invariant, and never raises a time or takes it below 0 |
| `App.ResetStep` | src/App.js:115-131 | reset makes exactly one request, even when no record matches; the request always starts a new audio because the old handle was cleared first; the handle's audio is stopped and every other earlier audio keeps its flag, so from a consistent state every earlier audio is stopped; matching records restart under the same id; the others and the list length are unchanged |
| `App.DeleteStep` | src/App.js:133-141 | delete clears the handle, stops the handle's audio, leaves every other audio and the number of audios as they were, and makes no request, so from a consistent state all sound stops; it removes every copy of the records with the id, keeps every copy of the others, and keeps their order |
| `App.TicksOnRunning` | src/App.js:68-86 | a running countdown with `t` seconds left shows `t - n` after `n < t` ticks; from tick `t` on it is finished; over any number of ticks it requests the sound exactly once, on tick `t` |
| `App.StartScenario` | src/App.js:98-113 | from mount, start and 3 ticks leave 7 seconds running; 10 ticks leave the countdown finished, with the sound requested twice (start and finish) |
| `App.DeleteThenAdd` | src/App.js:133-141 | after the only countdown is deleted, adding one succeeds and creates the new id |
| `App.LateEndedResetOverlap` | src/App.js:98-131 | as written, start, reset, a late "ended" event of the first audio and a second reset leave two audios playing, with the countdown restarted |
| `App.ResetFinished` | src/App.js:115-131 | reset of a finished countdown restores `{time: 10, running: true, message: "", animate: false}` under the same id and leaves a fresh audio playing |
| `App.ClockTimerApp.constructor` | src/App.js:4-11 | on mount the list is empty, the handle is null and no audio exists |
| `App.ClockTimerApp.PlaySound` | src/App.js:18-38 | updates the handle fields in place as `Audio.Play` prescribes and leaves the list alone |
| `App.ClockTimerApp.StopVoice` | src/App.js:116-119 | pauses and clears the handle in place as `Audio.Stop` prescribes |
| `App.ClockTimerApp.Add` | src/App.js:98-113 | the new state is `AddStep` of the old one; the invariant is kept |
| `App.ClockTimerApp.Tick` | src/App.js:67-88 | walks the list, calls `PlaySound` for each record reaching zero, then replaces the list; the new state is `TickStep` of the old one |
| `App.ClockTimerApp.Reset` | src/App.js:115-131 | stops, plays, then maps the list; the new state is `ResetStep` of the old one |
| `App.ClockTimerApp.Delete` | src/App.js:133-141 | stops, then filters the list; the new state is `DeleteStep` of the old one |
| `App.ClockTimerApp.OnEnded` | src/App.js:30-32 | the ended audio is paused and the handle cleared if it refers to that audio, as the corrected `Audio.EndedOwn` prescribes, also for a late event; the invariant is kept |
| `App.ClockTimerApp.OnRejected` | src/App.js:34-37 | the audio the host did not allow to play stays paused and the handle is kept, as `Audio.Rejected` prescribes |

## Left out

- Rendering, styling, the dark-mode colours, clock-size scaling and the pulse in the last three seconds (src/App.js:146-384): these are presentation only.
- Preference persistence through `localStorage` (src/App.js:6-15, 40-54): this is browser storage I/O, and the clock size goes through `parseFloat`.
- The wall clock and the timezone list (`toLocaleTimeString`, `Intl.supportedValuesOf`): these are host locale APIs.
- AdSense injection (src/App.js:56-64): it is a third-party global.
- The `setInterval` scheduling: each firing is a call of `Tick`. Drift and teardown on unmount are not modelled.
- The `Audio` object itself: only its `paused` flag is kept. Its playback rate of 2.2, its rewind to position 0 and the actual sound are not modelled.
- Asynchrony of `play()`: its outcome is a later `OnRejected` call or no call. `OnRejected` stands only for a play the host does not allow, which leaves the audio paused; it requires the audio to be playing in the model, where `play()` was started. A rejection caused by `pause()` in reset or delete (src/App.js:117, 135) reaches the catch for an audio already paused and no longer the handle; it only logs, so it is no call. A failed load also rejects but leaves the audio unpaused, so the guard stays up; it too is no call. `OnEnded` accepts any audio created so far, since its event may be handled after a stop.
- App.ClockTimerApp.OnEnded: follows the corrected handler `Audio.EndedOwn`, not the source's `onended`, which clears the handle unconditionally (see "## Findings"); the as-written behaviour is `Audio.Ended`.
- React's deferred state updates: `addCountdown` reads the list of the last render. The model reads the current list, which is the same whenever handlers do not race within one render.
- Uniqueness of ids: `Date.now()` is a parameter, so `DeleteThenAdd` says that the new record carries the id given, not that this id differs from the old one.
- The unused `newCountdown` state and `countdownRef` (src/App.js:5, 10).
- Audio.Stop: requires the handle to be null or to refer to an audio that exists, which holds in every state the source reaches, since the handle is only ever set to a newly created audio. It stops only the handle's audio; an audio left playing without a handle by a late "ended" event keeps playing, as in the source.
- App.ResetStep: requires the same of the handle, for the same reason as `Audio.Stop`, which it calls.
- App.DeleteStep: requires the same of the handle, for the same reason as `Audio.Stop`, which it calls.
- App.ClockTimerApp: keeps `Consistent` as its invariant, which the source does not keep after a late "ended" event; that state is reached only through the source's handler, and the class follows the corrected one (see `App.ClockTimerApp.OnEnded`).
- TimeFormat.FormatTime: seconds are modelled as an unbounded integer, whereas the source holds them in a double. From 1e21 on `toString` switches to exponent form ("1e+21"), and integers above 2^53 are not held exactly; neither is modelled. The component only ever passes a countdown's time, 0 to 10 (src/App.js:334), where the two agree.
- TimeFormat.NatToString: agrees with `toString` only below 1e21, for the reason given under `TimeFormat.FormatTime`.
- TimeFormat.FormatTimeRoundTrip: holds of the source only for counts below 2^53, for the reason given under `TimeFormat.FormatTime`.

## Findings

| source | as written | input that shows it | evidently intended | confidence | as-written member | corrected member |
|---|---|---|---|---|---|---|
| src/App.js:30-32 | `onended` sets `voiceRef.current = null` whatever audio the handle holds by then | audio 0 reaches its end; a reset is handled before its "ended" event, stopping audio 0 and starting audio 1; the event then clears the handle while audio 1 plays; a second reset skips the stop and starts audio 2, so two audios play | clear the handle only while it still refers to the audio that ended, keeping the overlap guard | medium: depends on the "ended" event being queued before a `pause()` and fired after it; not executed | `Audio.LateEndedOverlap`, `App.LateEndedResetOverlap` | `Audio.EndedOwn` |
