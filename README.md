# WBBMTT pointer tracker and renderer, in Dafny

A Dafny model of the core of `pointer.api.js`, the browser multi-touch tester
WBBMTT ("Web Browser Based Multi Touch Tester"). The model covers:

- **The pointer tracker** (module `Tracker`). `_activePointers` is a JavaScript
  `Map` from `pointerId` to the record `storePointer` builds, and it keeps its
  keys in insertion order. Here it is a sequence of `(id, record)` pairs with
  unique keys. `Map.set`, `Map.delete` and `Map.has` become `MapSet`,
  `MapDelete` and `Has`. `_pointerHandler`'s effect on the map is `ApplyEvent`.
  `ActiveSetIsLive` proves that the tracked ids are exactly the contacts that
  went down and have not come up or been cancelled since.
- **The render pipeline** (module `Render`). A canvas is a `Canvas` object: its
  size and the list of drawing commands issued on it, which only grows.
  `_drawTouches` and the functions it calls append commands to that list.
  `Frame` is the reference description of one repaint:
  - background, then grid;
  - one marker per pointer, then, when touch properties are shown, one text
    line per pointer;
  - the idle message when nothing is tracked.

  Lemmas prove what a frame shows:
  - labels 1..N in key order;
  - text line i in colour i, starting with the number i + 1;
  - the idle message exactly when the tracker is empty;
  - grid lines at the multiples of the span below the canvas size.
- **The text helpers** (modules `Format` and `Decimal`):
  - `ordinalStr`;
  - `numberToPadedFixed`, including `Number.prototype.toFixed` and
    `String.prototype.padStart`;
  - `formatTouch` and `touchColor`.

  Lemmas read the texts back where they encode a number:
  - an ordinal word reads back as ordinal + 1, and different ordinals get
    different words;
  - a `toFixed` text reads back as the number rounded half up at the p-th
    decimal place, so within half a unit of that place;
  - of a `formatTouch` line, the leading ordinal word reads back; the other
    fields are placed by column.

  `touchColor` has no reader: it cycles through the eight palette colours,
  and two pointers share a colour exactly when their ordinals agree modulo 8.
- **`debounce`** (module `Debounce`). This is a closure with a timer handle,
  modelled as a state machine on a virtual clock: a call re-arms the timer,
  and a clock tick at or after the deadline runs the wrapped function once.
  Over whole input traces, a burst of calls fires exactly once, with the last
  call's arguments, once the clock reaches `wait` after that call. The
  application object uses two debouncers:
  - redraw after a resize, 300 ms;
  - clear after a shake, 1000 ms, only with `shakeClearMode` and a squared
    acceleration above 300.
- **The query helpers** (module `Query`): `queryValue`, `queryValueCheckbox`,
  and the display settings the constructor derives from them.
- **The application object** (module `App`). Class `Wbbmtt` holds the settings,
  the tracker, the canvas and the two debouncers. Its handlers are methods
  whose contracts state the new tracker and the commands appended to the
  canvas.

Three behaviours of the code are easy to mistake, and the model keeps them as
the code has them:
- `numberToPadedFixed(3.5, 7, 2)` pads to `width + precision + 1` = 10
  columns, giving `"      3.50"`.
- Only a falsy (empty) background colour clears the canvas. Any other string,
  `"none"` included, is recorded as the colour of a full-canvas `FillRect`
  command. What a canvas does with a colour it cannot parse (it keeps its
  previous fill style) is not modelled.
- An unknown pointer event type changes nothing in the tracker, but the canvas
  is still repainted.

## Model

| member | source | states |
|---|---|---|
| `Tracker.IndexOf` | pointer.api.js:347-351 | the ordinal loop's count: the first position holding the id (no earlier key equals it), or the map size when the id is absent |
| `Tracker.HasIsMember` | pointer.api.js:463 | `Map.has` holds exactly when the id is among the keys |
| `Tracker.MapSetKeepsOrdinals` | pointer.api.js:240-251 | `Map.set` never moves a stored contact: a repeated pointerdown or a move keeps every key's ordinal, and a new key gets the ordinal after all others |
| `Tracker.MapSetKeys` | pointer.api.js:241 | the keys after `Map.set` are the old keys plus the set one |
| `Tracker.MapDeleteKeys` | pointer.api.js:476 | the keys after `Map.delete` are the old keys without the deleted one |
| `Tracker.MapSetLookup` | pointer.api.js:240-251 | after `storePointer` the keys stay unique, the id looks up the new record, and every other id looks up what it did before |
| `Tracker.MapDeleteLookup` | pointer.api.js:470-480 | after a delete the keys stay unique, the id is absent, and every other id looks up what it did before |
| `Tracker.ApplyEventLookup` | pointer.api.js:440-486 | for one event and any id: the tracker stays well formed; a touch pointerdown stores the event's record; a touch pointerup or pointercancel removes the id; a touch pointermove refreshes only an id already present; non-touch events and other ids are untouched |
| `Tracker.ActiveSetIsLive` | pointer.api.js:435-492 | from an empty tracker, after any event sequence, an id is tracked exactly when a touch pointerdown for it has not been followed by a touch pointerup or pointercancel for it |
| `Tracker.OrdinalAfterDelete` | pointer.api.js:347-351 | releasing the contact at position j moves every later contact one ordinal down and keeps earlier contacts' ordinals |
| `App.Wbbmtt.constructor` | pointer.api.js:161-195 | the settings are those of the query object (mark sizes 22, 14 and 6 times the scale), `preventDefaultNonPointer` is the negated `noPreventDefault` flag, `manualClearMode` and `useShakeOperation` are the `shakeClearMode` flag, and the tracker is empty |
| `App.Wbbmtt.StorePointer` | pointer.api.js:240-251 | the tracker becomes `Map.set` of the event's record under its pointerId |
| `App.Wbbmtt.PointerHandler` | pointer.api.js:435-492 | the tracker becomes `ApplyEvent` of the old one; a non-touch event leaves the canvas untouched; a touch event, of any type, appends exactly one frame of the new tracker and keeps the canvas size |
| `App.Wbbmtt.RemoveReleased` | pointer.api.js:467-481 | pointerup or pointercancel deletes a present id in both `manualClearMode` branches; an absent id changes nothing |
| `App.Wbbmtt.DrawTouchPoint` | pointer.api.js:315-353 | appends crosshair and disc in the pointer's colour, the black ring, and a label that is one more than the number of keys before the pointer |
| `App.Wbbmtt.DrawTouches` | pointer.api.js:391-432 | without a canvas nothing happens; otherwise exactly one `Frame` of the tracker is appended and the size is kept |
| `App.Wbbmtt.DrawMarkers` | pointer.api.js:411-416 | the first loop appends the markers of all pointers in key order, the i-th in colour i |
| `App.Wbbmtt.DrawTexts` | pointer.api.js:418-427 | the second loop appends every pointer's text line when touch properties are shown and nothing otherwise, and reports whether any entry exists |
| `App.Wbbmtt.ClearTouches` | pointer.api.js:581-585 | the tracker becomes empty and one frame of the empty tracker, the idle screen, is appended |
| `App.Wbbmtt.ResizeCanvasHandler` | pointer.api.js:370-375 | a resize event is a call to the 300 ms debouncer |
| `App.Wbbmtt.ResizeCanvas` | pointer.api.js:377-389 | the canvas takes the viewport size; it is repainted with one frame at the new size exactly when the size changed |
| `App.Wbbmtt.ResizeTimerTick` | pointer.api.js:370-389 | a clock tick runs the resize debouncer; when it fires the canvas is resized and repainted as `ResizeCanvas` states, otherwise size and commands are kept |
| `App.Wbbmtt.DevicemotionHandler` | pointer.api.js:562-579 | a motion event with acceleration, while shake clearing is on, whose squared magnitude exceeds 300 calls the 1000 ms debouncer; any other motion event changes nothing |
| `App.Wbbmtt.ShakeTimerTick` | pointer.api.js:573-585 | a clock tick runs the shake debouncer; when it fires the tracker is cleared and the idle frame appended at the same size, otherwise tracker, size and commands are kept |
| `Render.StopCountBound` | pointer.api.js:304 | grid line k is drawn exactly when k times the span is below the limit |
| `Render.GridVertical` | pointer.api.js:304-307 | the grid begins with a vertical line at every multiple of the span below the canvas width, and the next multiple is not below it |
| `Render.GridHorizontal` | pointer.api.js:308-311 | after the vertical lines come horizontal lines at every multiple of the span below the canvas height, and nothing else |
| `Render.DrawGrid` | pointer.api.js:300-313 | the two stepping loops append exactly `Grid` of the canvas size and keep the size |
| `Render.MarkerAt` | pointer.api.js:411-416 | command j of block i of the markers is command j of pointer i's marker in colour i |
| `Render.DrawnMarker` | pointer.api.js:315-353 | in a well-formed tracker, pointer i's block is the crosshair and disc in `COLORS[i % 8]`, the ring, and label i + 1 at its position |
| `Render.LabelAfterRelease` | pointer.api.js:347-352 | releasing a contact lowers the label of every later contact by one and keeps earlier contacts' labels |
| `Render.FrameLabels` | pointer.api.js:411-416 | the labels of a frame are 1, 2, ..., N in key order, each at its pointer's page position |
| `Render.FrameTexts` | pointer.api.js:418-427 | with touch properties shown, text line i describes pointer i in `COLORS[i % 8]` at (10, 18i + 30) and its string starts with the number i + 1; with properties hidden a frame has no text |
| `Render.FrameIdle` | pointer.api.js:429-431 | a frame holds the idle message, in palette colour 2, exactly when the tracker is empty |
| `Render.DrawTouchString` | pointer.api.js:356-360 | appends one text line for the pointer at (10, 18 * ordinal + 30) in its colour |
| `Render.DrawIdleMessage` | pointer.api.js:362-367 | appends the idle message in the given colour |
| `Format.OrdinalStrNumber` | pointer.api.js:257-268 | the ordinal word is at least three characters long, is the numeral of ordinal + 1 followed by a non-digit, ends in st, nd, rd or th, and reads back as ordinal + 1 |
| `Format.OrdinalStrInjective` | pointer.api.js:257-268 | different ordinals never get the same word |
| `Format.PadStartShape` | pointer.api.js:271 | `padStart` keeps the text as the suffix and fills everything before it with spaces |
| `Format.NumberToPaddedFixed` | pointer.api.js:270-277 | an undefined number gives " N/A" padded to width + precision + 1 columns; otherwise the `toFixed` text padded to that many columns |
| `Format.PrependSpaces` | pointer.api.js:273-275 | the padding loop equals `padStart`: spaces are prepended until the target length, and a longer text is unchanged |
| `Format.PaddedFixedExamples` | pointer.api.js:270-277 | 3.5 in a 7.2 field is "      3.50", and an undefined value is right-aligned " N/A" |
| `Format.CoordinateFieldWidth` | pointer.api.js:281-283 | a coordinate in (-100000, 1000000) fills exactly ten columns |
| `Format.FormatTouchNumber` | pointer.api.js:280-293 | the number at the start of a diagnostic line is its pointer's 1-based ordinal, whatever the options |
| `Format.FormatTouchColumns` | pointer.api.js:281-283 | with in-range coordinates the line starts with the ordinal word, and " X:" and " Y:" sit 0 and 13 columns after it |
| `Format.FormatTouchTail` | pointer.api.js:284-291 | with in-range coordinates, the radius part starts 26 columns after the ordinal word only with showRadius; the type part, present only when asked for and non-empty, ends the line; without radius nothing else follows |
| `Format.TouchColor` | pointer.api.js:295-298 | the colour of pointer i is a palette colour |
| `Format.TouchColorCycle` | pointer.api.js:295-298 | two pointers share a colour exactly when their ordinals agree modulo 8 |
| `Decimal.ParseNatToString` | pointer.api.js:266 | the numeral `(ordinal + 1) + "th"` starts with reads back as its number |
| `Decimal.NatToStringLength` | pointer.api.js:266 | a numeral has at most k digits exactly when its number is below 10^k |
| `Decimal.ToFixedRoundTrip` | pointer.api.js:272 | `toFixed(p)` text always parses back, to a value within half a unit of the p-th decimal place of the number |
| `Decimal.ParseToFixed` | pointer.api.js:272 | `toFixed(p)` parses back to the signed, half-up rounded magnitude it prints |
| `Debounce.Debouncer.constructor` | pointer.api.js:32-35 | a fresh closure has no pending timer and no stored arguments |
| `Debounce.Debouncer.Call` | pointer.api.js:40-47 | a call stores its arguments and replaces any pending timer by one due `wait` later |
| `Debounce.Debouncer.Tick` | pointer.api.js:36-39 | when the clock reaches a pending deadline the handle is cleared and the stored arguments are handed to the wrapped function; otherwise nothing happens |
| `Debounce.BurstOutcome` | pointer.api.js:32-48 | for a time-ordered burst of calls, after every prefix nothing has run before the first tick at least `wait` after the last call; that tick runs the function once with the last call's arguments; the timer stays pending until it |
| `Debounce.FiresOnceAfterQuiet` | pointer.api.js:32-48 | when the clock reaches exactly `wait` after a burst's last call, the function has run exactly once, at that time, with that call's arguments |
| `Debounce.QuietUntilDue` | pointer.api.js:32-48 | before the clock reaches `wait` after the last call nothing has run and the timer is pending for the last call's arguments |
| `Query.QueryValueDefined` | pointer.api.js:235-237 | with a defined default the lookup never yields undefined or null; it yields the default or the stored value, and is idempotent when its result is used as the default |
| `Query.LookupsIgnoreOtherKeys` | pointer.api.js:230-237 | both lookups read only their own key: storing any other key changes neither result |
| `Query.QueryValueCheckbox` | pointer.api.js:230-233 | a true default always wins; an absent key gives the default; a bare flag switches the option on; the texts "false" and "0" give the default |
| `Query.SettingsIgnoreOtherKeys` | pointer.api.js:164-182 | query keys other than the four display options leave the derived settings unchanged |
| `Query.DefaultSettings` | pointer.api.js:161-182 | with no query options the background is black, touch properties are shown, and radius and pointer type are hidden |

## Left out

- DrawGrid (`Render.DrawGrid`): lines are placed at the exact multiples k * span. The source accumulates `x += span` in double precision. For a span that a double cannot represent exactly, the rounded sum can stay below the limit one step longer and draw one more line (span 1.1 on a width of 11).
- NumberToPaddedFixed (`Format.NumberToPaddedFixed`, and `Decimal.ToFixed` beneath it): numbers are exact reals, so `toFixed` rounds the exact decimal value half up. A JavaScript double is the nearest binary value: 1.005 is stored below 1.005 and prints "1.00", not "1.01". The exponent form `toFixed` uses for magnitudes of 1e21 and above is not modelled, and neither are NaN or the infinities.
- ToFixedRoundTrip (`Decimal.ToFixedRoundTrip`): stated for exact reals, with the same exclusions as NumberToPaddedFixed.
- Wbbmtt constructor (`App.Wbbmtt.constructor`): `markSizeScale` and `gridSpan` are taken as reals already converted. `Number(queryValue(...))` is not modelled: a non-numeric text gives NaN, which in the source means no grid (`0 < NaN` is false) and NaN mark sizes.
- Wbbmtt constructor (`App.Wbbmtt.constructor`): the two debounced handlers exist from construction. In the source they are created on first use, as `x = x || debounce(...)`, which behaves the same because the first use arms a fresh closure.
- Wbbmtt constructor (`App.Wbbmtt.constructor`): `start` turns `useShakeOperation` off when `DeviceMotionEvent` is missing. That step is part of `start`, which is not modelled, so the object invariant does not tie `useShakeOperation` to `manualClearMode`. Only the constructor states that they start equal.
- Call (`Debounce.Debouncer.Call`): the saved `this` (`orgThis`) and the `arguments` object are collapsed into one argument value; the application passes none, so it uses `()`.
- PointerHandler (`App.Wbbmtt.PointerHandler`): the `currentEvent` field, set before handling and reset to null after, is not modelled; nothing else reads it. The empty `preventDefaultNonPointer` branch and the warning logged for an unknown event type have no effect and are left out.
- DrawTouchPoint (`App.Wbbmtt.DrawTouchPoint`): arcs, stroke styles, line widths, fonts and the centred alignment of the label are recorded only as command parameters. No pixel geometry is modelled.
- DrawIdleMessage (`Render.DrawIdleMessage`): the horizontal centring by measured text width is not modelled; the command records only the message and its colour.
- DrawTouchString (`Render.DrawTouchString`): the text command records `formatTouch`'s arguments; its string is `Render.LineText` of the command. The font is not modelled.
- The `Divlog` on-screen logger, console logging, `methodAdapter`, `startAfterLoad` and the DOM wiring in `start` are left out: they register listeners and write logs, and change no state the model has.
- `decodeQueryString` is left out; the model starts from the decoded query object. A bare key becomes the value `Flag`, which as a text option reads as "true".
- The PC debug handlers (`_clickHandler`, `_keydownHandler`) are left out: `PC_DEBUG` is a constant false.
- The browser's clearing of a canvas bitmap when its size is assigned is not modelled: the command list keeps the earlier commands, and a resize is followed by a full repaint anyway.
