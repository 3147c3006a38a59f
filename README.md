# GPS tracker relay: RMC decoding and viewer dispatch

A Dafny model of the core of `track.js`, a BeagleBone tracker that reads NMEA 0183
sentences from a GNSS receiver on a UART. The program does two things on its own:

1. **Sentence decoding** (`readGPSData`). A `$GNRMC` line is split on commas. The line is
   rejected as an invalid line unless its first field is `$GNRMC` and it has at least 7
   fields. It is rejected as incomplete data when latitude, latitude hemisphere, longitude
   or longitude hemisphere (fields 3 to 6) is empty. Otherwise the `ddmm.mmmm` and
   `dddmm.mmmm` fields become decimal degrees: the fixed-width degree prefix plus the rest
   divided by 60. The latitude is negated unless its flag is exactly `N`, and the longitude
   unless its flag is exactly `E`.
2. **Viewer slot and dispatch.** Each new WebSocket connection overwrites the single
   "current viewer" slot, so the last connection wins. Every 20 seconds one line is read,
   with a 5 second timeout. A failed read or decode sends nothing. A location is pushed to
   the viewer if one is registered, and the latitude alone is submitted to the remote
   time-series channel (`field1`).

Files and modules:

- `wrappers.dfy` (`Wrappers`): `Option` and `Result`.
- `strings.dfy` (`Strings`): JavaScript's `split(',')` and `slice`, with `Join` as the
  inverse of `Split`.
- `decimal.dfy` (`Decimal`): digit strings, and `parseFloat` on unsigned decimal literals,
  read as exact reals. `Num` is a JavaScript number as the model's decoder can produce one:
  finite, or NaN. The source's decoder can also produce an infinity and negative zero; see
  the `Decimal.ParseFloat` and negative-zero lines under "Left out".
- `rmc.dfy` (`Rmc`): the decoder. `DecodeAsWritten` makes the source's checks and its
  degree-minute arithmetic, NaN included, with magnitudes read by the strict `ParseFloat`. `Decode` is the corrected decoder (see Findings). `Format` writes a sentence from
  its parts, so that decoding can be stated as a round trip.
- `relay.dfy` (`Relay`): the `Tracker` class, which holds the viewer slot and the log of
  what has been sent. `Dispatch`, `Step` and `Replay` specify the ticks, and `Run` performs
  a whole run of connections and ticks.

The system's design description and its code disagree in two places. In both, the model
follows the code:

- A decoded position is described as always lying within ±90° / ±180°. The code checks no
  range, and `Rmc.NoRangeCheck` shows a latitude of 90° or more being decoded as it stands.
- A non-numeric magnitude is described as a decode failure. The code lets `parseFloat`
  produce NaN and dispatches it. This is recorded under Findings. The tracker's ticks use
  the corrected decoder.

## Model

| member | source | states |
|---|---|---|
| `Strings.Split` | track.js:70 | `line.split(',')` yields at least one field, no field contains a comma, and joining the fields with commas gives back the line |
| `Strings.SplitJoin` | track.js:70 | splitting a line built by joining comma-free fields gives back exactly those fields |
| `Strings.Take` | track.js:82 | `s.slice(0, n)` has min(n, \|s\|) characters, and followed by `s.slice(n)` it rebuilds s |
| `Strings.Drop` | track.js:84 | `s.slice(n)` has \|s\| − n characters, or none when s is shorter than n |
| `Strings.TakeDropAppend` | track.js:82-84 | slicing a + b at \|a\| gives back a and b |
| `Decimal.DigitsValue` | track.js:82 | a string of k digits denotes a number below 10^k |
| `Decimal.ParseDecimal` | track.js:82-84 | a literal that reads as a number is never negative |
| `Decimal.ParseDigits` | track.js:82 | a non-empty run of digits such as "48" reads as the number it denotes |
| `Decimal.ParsePointed` | track.js:82-84 | "w.f" reads as w + f / 10^\|f\|, e.g. "07.038" as 7.038 |
| `Decimal.ParsedIsLiteral` | track.js:82-84 | a string that reads as a number holds only digits and points |
| `Decimal.ParseRejects` | track.js:82-84 | the strict reader reads nothing (NaN) from a string holding any character other than a digit or a point |
| `Decimal.FractionBelowOne` | track.js:82-84 | the fractional part of a literal adds less than one |
| `Decimal.ParseFloat` | track.js:82-84 | every finite result of `parseFloat` on receiver text is non-negative |
| `Rmc.Magnitude` | track.js:82-84 | the degree-minute conversion of a field is never negative when it is a number |
| `Rmc.DecodeAsWritten` | track.js:68-99 | the source's decoder never reports a malformed number, and it resolves only for a `$GNRMC` line with 7 or more fields and non-empty fields 3 to 6 |
| `Rmc.Decode` | track.js:68-99 | the corrected decoder agrees with the source's on every line, except that a location with NaN in it becomes `MalformedNumber`, and it becomes that exactly when the source's location holds a NaN |
| `Rmc.RejectsUnrecognised` | track.js:73-97 | a line whose first field is not exactly `$GNRMC`, or that has fewer than 7 fields, is an invalid line and never yields a location |
| `Rmc.RejectsIncomplete` | track.js:80-94 | a `$GNRMC` line with 7 or more fields and an empty field among 3 to 6 is incomplete data |
| `Rmc.DecodeFields` | track.js:73-92 | a complete `$GNRMC` line resolves with the hemisphere-signed degree-minute values of fields 3 and 5 |
| `Rmc.Classification` | track.js:73-98 | every line lands in exactly one outcome, and the sentence test is made before the emptiness test |
| `Rmc.IsRmc` | track.js:73 | the sentence test: first field exactly `$GNRMC` and at least 7 fields. A predicate without a contract of its own; `Rmc.Classification` and `Rmc.RejectsUnrecognised` give its meaning for the decoder |
| `Rmc.HasPosition` | track.js:80 | the presence test: fields 3 to 6 all non-empty. A predicate without a contract of its own; `Rmc.Classification` and `Rmc.RejectsIncomplete` give its meaning for the decoder |
| `Rmc.Signed` | track.js:88-89 | the hemisphere rule: keep the magnitude when the flag is exactly the positive one, negate it otherwise. No contract of its own; `Rmc.HemisphereSign` and `Rmc.DecodeFormat` state its effect on decoded positions |
| `Rmc.HemisphereSign` | track.js:87-90 | latitude is non-negative when field 4 is exactly "N" and non-positive for any other flag; longitude likewise with "E" |
| `Rmc.MagnitudeNaN` | track.js:82-84 | a degree prefix or minutes part that opens with a character no number can begin with (not white space, a sign, "I", a digit or a point) makes the magnitude NaN |
| `Rmc.MagnitudeWithoutMinutes` | track.js:82-84 | a field no longer than its degree prefix has empty minutes, so its magnitude is NaN |
| `Rmc.AsWrittenResolvesNaN` | track.js:80-92 | as written, a complete line whose latitude or longitude has a degree prefix or minutes opening with such a character still resolves, with NaN in that coordinate |
| `Rmc.RejectsMalformed` | track.js:80-92 | the corrected decoder rejects such a line as `MalformedNumber` |
| `Rmc.NaNExample` | track.js:80-92 | the line `$GNRMC,,,48,N,01131.000,E` resolves with a NaN latitude as written, and the corrected decoder rejects it |
| `Rmc.MagnitudeOfAngle` | track.js:82-84 | the conversion recovers a written angle: degrees + minutes / 60 |
| `Rmc.DecodeAsWrittenFormat` | track.js:70-92 | as written, a well-formed sentence resolves with finite coordinates |
| `Rmc.DecodeFormat` | track.js:70-92 | round trip: decoding a well-formed sentence gives its two angles in decimal degrees, each positive exactly when its flag is "N" (resp. "E") and negated otherwise |
| `Rmc.DecodeInRange` | track.js:82-90 | fewer than 90 (resp. 180) degrees and fewer than 60 whole minutes decode strictly within ±90 (resp. ±180) |
| `Rmc.NoRangeCheck` | track.js:82-90 | a northern latitude field of 90 degrees or more is decoded as it stands, to 90 or beyond |
| `Rmc.ExampleAngles` | track.js:82-84 | the angles 48° 07.038′ and 11° 31.000′ are 48 + 7.038/60 and 11 + 31/60 decimal degrees |
| `Rmc.ExampleLatitude` | track.js:82 | the latitude field "4807.038" converts to 48 + 7.038/60 |
| `Rmc.ExampleLongitude` | track.js:84 | the longitude field "01131.000" converts to 11 + 31/60 |
| `Rmc.ReceiverExample` | track.js:70-92 | `$GNRMC,123519,A,4807.038,N,01131.000,E,022.4,084.4,230394,003.1,W` decodes to (48 + 7.038/60, 11 + 31/60) |
| `Relay.Acquire` | track.js:64-99 | a timed-out read is a timeout error; a line the source's decoder rejects carries that decoder's error; a location is produced exactly when the source's decoder resolves with two finite coordinates, and it is those coordinates; a resolved line with a NaN in it is `MalformedNumber` |
| `Relay.Dispatch` | track.js:106-131 | a failure sends nothing; a location sends a push to the registered viewer first, if there is one and only to it, and then exactly one submission carrying the latitude alone, so two actions with a viewer and one without |
| `Relay.PushesGoToCurrentViewer` | track.js:111-113 | while no connection arrives, the slot keeps its viewer, what was sent stays sent, and every new push goes to that viewer |
| `Relay.LastViewerWins` | track.js:56-113 | after viewers v1 then v2 connect, every later push goes to v2 only |
| `Relay.FailedTickIsSilent` | track.js:129-131 | a tick whose read times out or whose line does not decode changes nothing |
| `Relay.Tracker.constructor` | track.js:52-53 | at start-up no viewer is registered and nothing has been sent |
| `Relay.Tracker.RegisterViewer` | track.js:56-59 | a connection replaces the registered viewer and sends nothing |
| `Relay.Tracker.OnInterval` | track.js:104-133 | a tick keeps the viewer, returns exactly the actions `Dispatch` specifies, and appends them to what was sent |
| `Relay.Run` | track.js:53-133 | a run of connections and ticks from start-up sends exactly what `Replay` specifies |

## Left out

- GPIO pin configuration through `exec` / `config-pin` is shell I/O.
- The HTTPS server, TLS certificates, Express routes and static files are transport.
- Opening the serial port and splitting its stream on `\r\n` is device I/O. A line reaches
  the model already without its terminator.
- The 5 s timeout racing the serial parser's `once('data')` is not modelled, and neither
  is the 20 s interval. A read is an already-resolved `Read` (`Timeout` or `Line`), and each
  tick runs to completion before the next event.
- The `axios.get` request, its asynchronous outcome and the API key are a foreign,
  fire-and-forget call. A tick records only a `Submit` action carrying `field1`, the
  latitude.
- `JSON.stringify` and `WebSocket.send` are library serialisation and transport. A push is
  a `Push` action carrying the location.
- Closing a WebSocket connection is not modelled; the source does not clear the slot on
  close either.
- Console logging of every outcome is left out.
- `lastSentLocation` is declared but never used.
- Strings are sequences of Unicode code points, while JavaScript's `split` and `slice`
  count UTF-16 code units. The two agree on text with no character above U+FFFF, which
  includes the printable ASCII of NMEA 0183. A field such as "1😀2x" is sliced differently.
- IEEE double rounding is left out: the arithmetic is exact over the reals. So is negative
  zero: `-0` for a zero magnitude with an "S" or "W" flag is 0 here.
- `Decimal.ParseFloat`: reads only unsigned decimal literals (digits, an optional point,
  more digits). `parseFloat` also reads a sign, leading white space, an exponent,
  `Infinity`, and the numeric prefix of a string with trailing garbage. The model reads all
  of those as NaN.
- `Decimal.ParseRejects`: holds of the strict reader only. `parseFloat` reads a numeric
  prefix, so "48x" is 48 in the source and NaN here.
- `Rmc.DecodeAsWritten`: inherits the strict reader. It agrees with the source when each
  part of a magnitude is a decimal literal, or opens with a character no number can begin
  with. A part with a numeric prefix and trailing junk ("4807.0x8", where the source reads
  48 + 7/60) or with leading white space (" 807.038") is NaN here, so `Rmc.Decode` rejects
  that line as `MalformedNumber`.
- `Relay.Acquire`: for a line whose location holds a NaN, the source resolves, pushes
  `{latitude: NaN, …}` to the viewer (`null` once serialised as JSON) and submits
  `field1=NaN`. The model's tick instead rejects the line as `MalformedNumber` and sends
  nothing (see Findings).

## Findings

| source | as written | input that shows it | evidently intended | confidence | as-written member | corrected member |
|---|---|---|---|---|---|---|
| track.js:82-92 | A magnitude that `parseFloat` cannot read makes that coordinate NaN, yet the promise resolves. The NaN is then pushed to the viewer and submitted remotely. Examples: a latitude of "48" (no minutes, so `slice(2)` is ""), or one whose minutes open with a character no number can begin with ("48x7.038"). | `$GNRMC,,,48,N,01131.000,E` | reject the line as malformed and dispatch nothing | medium, not executed | `Rmc.NaNExample` | `Rmc.RejectsMalformed` |
