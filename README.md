# Timer widget model

A Dafny model of the logic in `javascript/timer.js`, a small browser add-on
that puts a timer, a mute button, an NSFW-blur button and a link into a web
UI. Three parts of the script carry logic, and the model covers all of them:

- **Locale choice** (`Locale`). The record of display strings is chosen from
  the primary subtag of the browser's language tag (the text before the first
  `-`). Only `en` and `ru` exist; any other tag gets English.
- **The timer** (`Clock`, `IntParsing`, `Timing`). `Timing.Timer` is a class
  with the fields the script updates in place:
  - the label text (`display`);
  - `startTime`;
  - a pending-tick flag in place of the `setTimeout` handle;
  - the Pinggy-tunnel mode (`isPinggy`).

  `refresh()` is split at its `await`: `RefreshBegin` runs before the request
  and `RefreshComplete` gets the settled fetch as an input. A ghost `phase`
  (Idle, Connecting, Running, Stopped, Expired, Errored) names the states of
  the state machine. `Valid()` ties the phase to the real fields.
- **The two toggles** (`Toggles`). Each button keeps one bit: the audio
  element's `muted`, or the button's `nsfw_blurred` class. A click flips the
  bit and recomputes the tooltip, border colour, background colour and icon
  from the new value. The blur toggle also sets or clears `anxety_blur` on
  both gallery containers.

Time is integer. `nowMs` is `Date.now()` in milliseconds and the start stamp
is whole seconds, as `parseInt` returns it. So the script's
`Date.now() / 1000 - startTime` is taken as `nowMs - 1000 * start`
milliseconds divided by 1000. `Clock.TimeText` writes out lines 75-77 on
that value: `Math.floor` is Dafny's `/` by a positive divisor, and
JavaScript's truncating `%` is spelled out. `Clock.Hms` is the reference on
whole seconds: hours `d / 3600` (not capped), minutes `d / 60 % 60`, seconds
`d % 60`, each padded to two characters. `Clock.TimeTextWholeSeconds` proves
that the two agree whenever the difference is not negative. A negative
elapsed difference (start stamp in the future) is modelled as the script
computes it, e.g. `"-1:-1:-1"` half a second early
(`Clock.TimeTextHalfSecondEarly`).

The fetch body is read by `IntParsing.ParseInt`, which models ECMAScript's
`parseInt` without a radix (section 19.2.5 of ECMA-262):
- leading white space is skipped;
- one sign is read;
- `0x` selects radix 16;
- the longest digit prefix is the value;
- no digits gives NaN (`None`).

Behaviours of the code that are easy to miss:
- `parseInt` reads any numeric prefix: `"12abc"` gives 12.
- `startTime` holds NaN after a body that does not parse, because the value
  is stored before it is tested (timer.js:98); the model's `startTime` then
  is `NotANumber`.
- The language tag is split at the first `-` and the first part is looked
  up, so `ru-RU` and `ru` choose the same record.
- `response.ok` is not an input: it holds exactly for a status from 200 to
  299 (`Outcome.Ok`).

## Model

| member | source | states |
|---|---|---|
| Locale.SelectOfUserLanguage | javascript/timer.js:36-37 | a non-empty `navigator.language` alone decides the record; an empty one hands over to `navigator.userLanguage`; Russian exactly when the primary subtag of the field used is `ru` |
| Text.BeforeFirst | javascript/timer.js:36 | `split('-')[0]` is a prefix of the tag without `-`, followed by `-` or the end of the tag |
| Locale.Select | javascript/timer.js:36-37 | the result is the table entry of the primary subtag if there is one, else English; it is always English or Russian |
| Locale.SelectRussianIff | javascript/timer.js:36-37 | Russian exactly when the primary subtag is `ru`; English exactly when it is not |
| Locale.SelectIgnoresRegion | javascript/timer.js:36-37 | `p-anything` selects the same record as `p` when `p` has no `-` |
| Locale.SelectExamples | javascript/timer.js:36-37 | `ru-RU` gives Russian; `en-US`, `de-DE` and the empty tag give English |
| Text.Contains | javascript/timer.js:89 | `url.includes(host)`, defined by trying each start position; characterized by `Text.ContainsIff` |
| Text.ContainsIff | javascript/timer.js:89 | `url.includes(host)` holds exactly when the host occurs at some index of the URL |
| Numerals.Digits | javascript/timer.js:75-77 | `String(n)` of a non-negative integer is at least one decimal digit, without a leading zero, one digit exactly below 10 |
| Numerals.ValueOfDigits | javascript/timer.js:75-77 | the digits of `String(n)` read back as n |
| Numerals.IntString | javascript/timer.js:75-77 | `String(k)` of any integer below 1e21 in magnitude: a minus sign exactly for negative k, then the digits of the magnitude (also used for the status at line 95) |
| Numerals.PadStart2 | javascript/timer.js:75-77 | `padStart(2, '0')` keeps the string as a suffix, adds only zeros in front, and gives length max(2, old length) |
| Clock.Field | javascript/timer.js:75-77 | one field, `String(v).padStart(2, '0')`; pinned down by `Numerals.PadStart2`, `Numerals.Digits` and, for the three fields of the label, `Clock.HmsFields` |
| Clock.Trunc | javascript/timer.js:76-77 | the quotient behind JavaScript's `%`: the remainder `a - b*q` has the sign of `a` and is smaller than `b` in magnitude |
| Clock.TimeText | javascript/timer.js:75-79 | the label formula on a millisecond difference: floor of hours, and floor of the truncating `%` for minutes and seconds; characterized by `Clock.TimeTextWholeSeconds` and `Clock.TimeTextHalfSecondEarly` |
| Clock.TimeTextWholeSeconds | javascript/timer.js:66-79 | for a non-negative difference the label computed with floor and JS `%` is `Hms` of the whole seconds |
| Clock.TimeTextHalfSecondEarly | javascript/timer.js:67-79 | an elapsed difference of -0.5 s is shown as `-1:-1:-1` |
| Clock.HmsFields | javascript/timer.js:75-79 | the text has three `:`-separated fields; hours are d div 3600 padded to at least 2 digits and never cut; minutes (d div 60) mod 60 and seconds d mod 60 are two digits below 60; hh*3600+mm*60+ss = d |
| Clock.HmsRoundTrip | javascript/timer.js:75-79 | reading the label back gives d, so different durations never show the same text |
| IntParsing.TrimStart | javascript/timer.js:98 | what `parseInt` skips leaves no white space at the front |
| IntParsing.DigitRun | javascript/timer.js:98 | the digit prefix `parseInt` reads is all digits of the radix and is followed by a non-digit or the end |
| IntParsing.ParseInt | javascript/timer.js:98 | `parseInt(text)`: skip white space, read a sign, a `0x` prefix selects radix 16, the longest digit run is the value, none gives NaN; characterized by the ParseIntOf lemmas below |
| IntParsing.ParseIntOfNumeral | javascript/timer.js:98 | a body holding `String(n)`, after any white space and before a line break or other non-alphanumeric text, parses to n |
| IntParsing.ParseIntOfLetters | javascript/timer.js:98-101 | `"abc"` and the empty body parse to NaN |
| IntParsing.ParseIntOfHex | javascript/timer.js:98 | `" 0x1A"` parses to 26, as `parseInt` reads a `0x` prefix in radix 16 |
| Timing.TimeLeftMs | javascript/timer.js:66-67 | the difference in milliseconds: target minus now on a Pinggy tunnel, now minus start otherwise |
| Timing.Tick | javascript/timer.js:65-81 | one update schedules again exactly unless in Pinggy mode with the target reached; if it does not, the label is the tunnel message; if it does with a non-negative difference, the label is `Hms` of the whole seconds |
| Timing.StatusMessage | javascript/timer.js:95 | the message thrown for a response that is not ok: prefix, `String(status)`, a space, the status text; characterized by `Timing.StatusMessageNamesStatus` |
| Timing.StatusMessageNamesStatus | javascript/timer.js:94-96 | the error of a response that is not ok contains the HTTP status code |
| Timing.NotFoundShowsStatus | javascript/timer.js:92-106 | after a fetch settles with a 404 response the label contains `404`, no tick is pending and the timer is Errored |
| Timing.Timer.constructor | javascript/timer.js:54-59 | a new timer has no start, no pending tick and no fetch in flight, and keeps the element's text |
| Timing.Timer.Start | javascript/timer.js:61-63 | `start()` is a refresh |
| Timing.Timer.Update | javascript/timer.js:65-82 | the label and the pending flag are those of `Tick`; the timer is Running or, in an expired countdown, Expired with no tick pending; the start and the mode are unchanged |
| Timing.Timer.RefreshBegin | javascript/timer.js:84-90 | cancels the tick, shows the connecting text, sets the mode to whether the URL contains `a.free.pinggy.link`, and returns the Pinggy timer file exactly in that mode |
| Timing.Timer.RefreshComplete | javascript/timer.js:92-106 | rejection, a response that is not ok (status outside 200-299), or a NaN body shows the error prefix and the message with no tick pending (NaN is also stored as the start); a number becomes the start and the state is exactly that after `update()` |
| Timing.Timer.Stop | javascript/timer.js:109-111 | no tick is pending; label, start and mode are unchanged; on a timer with no tick pending it changes nothing, so two calls equal one |
| Toggles.MuteLook | javascript/timer.js:132-135 | tooltip, border colour, background colour and icon chosen from `audio.muted`: unmute tooltip, `#FF005D` and the cancelled bell when muted, the other four otherwise; used by `Toggles.MuteButton.Toggle` and `Toggles.MuteTwice` |
| Toggles.BlurLook | javascript/timer.js:143-146 | tooltip, border colour, background colour and icon chosen from the blurred bit: unblur tooltip, `#FF005D` and the cancelled eye when blurred, the other four otherwise; used by `Toggles.BlurButton.Toggle` and `Toggles.BlurTwice` |
| Toggles.MuteButton.constructor | javascript/timer.js:195-201 | the button starts with the not-muted look, whatever the audio element's flag is |
| Toggles.MuteButton.Toggle | javascript/timer.js:126-136 | `muted` is negated; the look is that of the new value; playback is started exactly when no longer muted |
| Toggles.MuteTwice | javascript/timer.js:126-136 | two clicks on a consistent button restore the flag and every derived field |
| Toggles.BlurButton.constructor | javascript/timer.js:205-211 | the button starts with class `gr-box` and the not-blurred look |
| Toggles.BlurButton.Toggle | javascript/timer.js:138-150 | the `nsfw_blurred` class is toggled and its new presence is returned; the look is that of the new value; both galleries gain or lose `anxety_blur` to match; nothing else changes |
| Toggles.BlurTwice | javascript/timer.js:138-150 | two clicks on a consistent button restore its classes, its look and both galleries |

## Left out

- The DOM itself: element creation, event wiring, the favicon, the blur stylesheet and the insertion of the widget (timer.js:1-6, 114-123, 153-246). They are browser side effects.
- `fetch`, `await` and the response object. The settled fetch is the `Outcome` argument of `RefreshComplete`. A failing `response.text()` counts as a rejection.
- Real `setTimeout`/`clearTimeout`. They are the `pending` flag. A tick is a call of `Update` while it is set.
- `audio.play()`, resetting `audio.currentTime`, `window.open` and `console.error`. They are foreign calls with no result the script uses. `MuteButton.Toggle` only reports whether `play()` is called.
- Timing.Timer.RefreshComplete: completions are modelled only after a matching `RefreshBegin`. If two refreshes wait on the network at once, only the latest one is modelled. In the script both settle, each can schedule a tick, and the older handle is never cleared, so two tick chains can run.
- Timing.Timer.Update: the `setTimeout` handle is one flag, so the model cannot show leaked tick chains.
- Timing.Tick: for a negative elapsed difference only the example `Clock.TimeTextHalfSecondEarly` is proved; the general negative case is defined by `Clock.TimeText` but has no lemma.
- Floating point: the script's `Date.now() / 1000` difference is taken as the exact rational milliseconds / 1000. Rounding of the double is not modelled.
- IntParsing.ParseInt: the result is an unbounded integer, and `Numerals.IntString` writes plain digits for every integer, where JavaScript's `String` switches to exponent notation (`1e+21`) from 1e21 on. The script's `parseInt` returns a double, which loses precision beyond 2^53 and becomes Infinity for huge numerals.
- Locale.Select: a tag whose primary subtag names an `Object.prototype` member (such as `constructor`) would give that member in the script. The model gives English. Browsers do not report such tags.
- `Locale.UserLanguage` has no row of its own; `Locale.SelectOfUserLanguage` states what it decides. An undefined `navigator.userLanguage` with an empty `navigator.language` makes the script throw. The model returns the empty tag.
- The toggles assume both gallery containers exist. If one is missing, `querySelector` returns null and the script throws. Class lists are sets, so the order of tokens is not modelled.
