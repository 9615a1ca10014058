# IoT dashboard core, in Dafny

This project models the logic of the `Dashboard` React component, leaving out rendering.
The component listens to an MQTT broker for five topics of an ESP32 device:

- LED status and LED control;
- the raw MQ-7 analog reading;
- the carbon-monoxide reading in ppm;
- a CO alert.

From these messages it keeps the dashboard's state:

- the LED status;
- the latest analog and ppm readings and their two charts of at most twenty points;
- an alert banner that clears itself after five seconds;
- the time of the last message;
- an online/offline verdict that a three-second watchdog recomputes.

The user can toggle the LED, which publishes a command only when the client is connected. The component also derives a danger flag (above 100 ppm), which the display uses, and two values it computes but never renders: `dangerLevel` (the reading as a percentage of 200 ppm, capped at 100) and a "has sensor data" flag.

Modules:

- `Wrappers` (`wrappers.dfy`): the `Option` type.
- `JsNumber` (`js_number.dfy`): the JavaScript conversions the message handler relies on: `parseInt` without a radix, `parseFloat`, the `Number(string)` coercion that `>` and `/` apply to the ppm text, and `toFixed(2)`. These follow ECMA-262 (sections 19.2.5, 19.2.4, 7.1.4.1.1 and 21.1.3.3), with exact rationals in place of IEEE doubles.
- `History` (`history.dfy`): the chart update `[...prev.slice(-19), sample]`.
- `Liveness` (`liveness.dfy`): the watchdog verdict and the schedule of its ticks, as written and as intended (see Findings).
- `Dashboard` (`dashboard.dfy`): the component state as a class. It has the message handler, the watchdog tick, the alert timers and `toggleLED`. The derived flags and `dangerLevel` are functions of the state.

Notes on the model:

- `sensorData.ppm` keeps the source's mixed type. It is the number 0 until the first ppm message and afterwards a string (`PpmField`). So `sensorData.ppm !== 0` is false only before that first message, and `isDanger` / `dangerLevel` read the string back through `Number(...)`.
- `sensorData.analog` is `Option<int>`, where `None` is the NaN that `parseInt` gives for text without digits. A NaN analog reading counts as "data" for `hasSensorData`.
- Time is integer milliseconds. `Date.now()` is the `now` parameter of each method, and the chart time label is that same integer.
- Events reach the component in time order. The field `clock` holds the time of the latest one; each of `OnMessage`, `Tick` and `RunDueAlertTimers` requires `now` to be no earlier and sets `clock` to it.
- `setTimeout(() => setAlert(""), 5000)` is a pending deadline in `alertDeadlines`. `RunDueAlertTimers(now)` runs every timer that is due by `now` and leaves only later ones pending.
- A timer runs at or after its deadline, whenever the environment calls `RunDueAlertTimers`. `setTimeout` promises only a minimum delay, so a message may arrive while an overdue timer is still pending (`LateTimerClearsNewerAlert`).
- The watchdog interval's body is `Tick(now)`. When ticks happen is modelled on its own in `Liveness`.

Where the rest of the component expects more than the handler does, the model follows the handler:

- The LED panel only sends "on" and "off" and tests only `ledStatus === "on"` and `ledStatus === "off"` (src/Dashboard.jsx:137-164). With any other payload both buttons are enabled while the device is online. Payloads of the LED topics are still stored verbatim, with no check that they are "on" or "off".
- The cards show the readings as numbers (src/Dashboard.jsx:208 and 219). Sensor payloads are still not validated and never dropped: non-numeric text gives NaN, which is stored, shown and charted.
- Each alert starts its own five-second timer (src/Dashboard.jsx:90), which suggests every alert is shown for five seconds. A new alert does not restart the countdown, though. Timers of earlier alerts are never cancelled, so a later alert can be cleared early (`AlertClearedEarly`).
- The offline banner and the disabled LED buttons (src/Dashboard.jsx:120, 155 and 162) expect the verdict to follow the traffic. As written, a message does not bring the verdict back to online at the next tick while messages keep arriving (see Findings).

## Model

| member | source | states |
|---|---|---|
| History.Append | src/Dashboard.jsx:77-80 | The new chart has one more point than before until it holds 20, then stays at 20. Its last point is the new sample, and the points before it are the newest min(19, n) old points in their old order. |
| History.AppendToFull | src/Dashboard.jsx:84-87 | On a full chart, an append drops exactly the oldest point and keeps the others in order (FIFO). |
| History.AppendAllKeepsNewest | src/Dashboard.jsx:77-80 | After any run of appends to a chart of at most 20 points, the chart is the newest 20 of the old points and the new ones together, in arrival order. |
| History.LastTwentyAppended | src/Dashboard.jsx:84-87 | After at least 20 appends, the chart holds exactly the last 20 samples appended, whatever it held before. |
| JsNumber.ParseInt | src/Dashboard.jsx:75 | `parseInt(msg)` with no radix. It skips leading white space and reads one optional sign. A "0x" or "0X" prefix then selects base 16. It reads the longest run of digits and ignores the rest. With no digit the result is NaN, here `None`. |
| JsNumber.ParseFloat | src/Dashboard.jsx:82 | `parseFloat(msg)`. It skips leading white space and reads the longest prefix that is a decimal literal. That is an optional sign, then "Infinity" or digits with an optional '.' and fraction and an optional exponent. The rest is ignored. With no such prefix the result is NaN. |
| JsNumber.StringToNumber | src/Dashboard.jsx:106-107 | `Number(text)`, which `>` and `/` apply to the ppm text. White space at both ends is ignored and the empty text is 0. Otherwise the whole text must be one decimal literal, or the result is NaN. |
| JsNumber.ToFixed2 | src/Dashboard.jsx:82 | `x.toFixed(2)`. NaN and the infinities print by name. A finite value prints '-' when it is negative, then its magnitude in hundredths rounded half up, with exactly two decimals. So -0.001 prints "-0.00". |
| JsNumber.TrimStartDropsOnlyWhiteSpace | src/Dashboard.jsx:75 | The white space `parseInt`/`parseFloat` skip is a prefix made only of white-space and line-terminator code points. |
| JsNumber.TrimEndDropsOnlyWhiteSpace | src/Dashboard.jsx:106 | The trailing text that `Number(...)` ignores is made only of white space. |
| JsNumber.TrimStartSkipsWhiteSpace | src/Dashboard.jsx:82 | Leading white space never changes what is read. |
| JsNumber.DigitRunIsLongest | src/Dashboard.jsx:75 | `parseInt` reads the longest run of digits: every character of it is a digit, and the next one is not. |
| JsNumber.NatText | src/Dashboard.jsx:82 | The decimal text of a natural number is nonempty, is all digits, starts with '0' only for zero, and its digits are worth the number. |
| JsNumber.ParseUnsignedIntReadsNatText | src/Dashboard.jsx:75 | The digits of a natural number, followed by non-digit text, read back as that number. |
| JsNumber.ParseIntReadsIntText | src/Dashboard.jsx:75 | `parseInt` reads back the decimal text of any integer whatever non-digit text follows it. The one exception is an 'x' or 'X' after "0", which would be a hex prefix. |
| JsNumber.Cents | src/Dashboard.jsx:82 | The count of hundredths `toFixed(2)` prints is the magnitude of v times 100, rounded to the nearest integer, ties upward. |
| JsNumber.RoundToCents | src/Dashboard.jsx:82 | Rounding to hundredths keeps NaN as NaN and each infinity as itself, and moves a finite value by at most 0.005. |
| JsNumber.ScanMantissaOfFixedText | src/Dashboard.jsx:86 | The digits, '.', and two decimals of a `toFixed(2)` text are read as one mantissa worth q·100+f hundredths. |
| JsNumber.FixedTextOfFinite | src/Dashboard.jsx:82 | The text `toFixed(2)` prints for a finite number is one whole decimal literal, worth that number rounded to hundredths. |
| JsNumber.ToFixed2RoundTrip | src/Dashboard.jsx:86 | `parseFloat` and `Number` read back from the `toFixed(2)` text exactly the number rounded to hundredths, including NaN and ±Infinity. |
| Liveness.OnlineAt | src/Dashboard.jsx:34-39 | The tick's verdict: online unless more than 10000 ms passed since `lastMessageTime`. Exactly 10000 ms still counts as online. |
| Liveness.LastMessageBefore | src/Dashboard.jsx:70 | The `lastMessageTime` in force just before t: the newest message before t, or the mount time (its initial value, line 29) when there is none. The result is the mount time or a message that arrived before t. |
| Liveness.TickAsWritten | src/Dashboard.jsx:32-43 | When the code as written ticks. Every message restarts the interval, so a tick comes at t exactly when t is a whole positive number of 3 s periods after the `lastMessageTime` in force just before t. |
| Liveness.LastMessageBeforeIsNewest | src/Dashboard.jsx:70 | With messages in arrival order, the `lastMessageTime` in force at t is the newest message before t. |
| Liveness.AsWrittenReportsSilenceAtFourthTick | src/Dashboard.jsx:32-43 | As written, a tick comes a whole number (at least one) of 3 s periods after the message its interval started with. It reports online exactly at the first three such ticks, so silence shows as offline 12 s after the last message. |
| Liveness.NoTickWhileMessagesFlow | src/Dashboard.jsx:32-43 | As written, while messages arrive less than 3 s apart, no tick runs from the first message until 3 s after the last. |
| Liveness.OfflineShownWhileMessagesArrive | src/Dashboard.jsx:32-43 | A concrete schedule. Offline is reported at 12 s, and then no tick runs during messages every second from 12.5 s to 16.5 s, until 19.5 s. |
| Liveness.NextFixedTick | src/Dashboard.jsx:33-40 | On a fixed 3 s cadence from mount, the next tick after any moment comes within 3 s. |
| Liveness.FixedCadenceRecovers | src/Dashboard.jsx:32-43 | On the fixed cadence, the first tick after a message, at most 3 s later, reports online. |
| Liveness.FixedCadenceReportsSilence | src/Dashboard.jsx:32-43 | On the fixed cadence, take a message after which no other message arrives before the first tick more than 10 s later. That tick comes at most 13 s after the message, and the `lastMessageTime` it reads makes it report offline. |
| Liveness.FixedCadenceScenario | src/Dashboard.jsx:32-43 | In the concrete schedule above on the fixed cadence, the tick at 15 s already reports online. |
| Dashboard.RouteOf | src/Dashboard.jsx:72-91 | The handler's chain of topic tests, in its order. The two LED topics go to the LED branch, then mq7, ppm and alert each go to their own branch. Any other topic goes to none. |
| Dashboard.HandledIffSubscribed | src/Dashboard.jsx:58-91 | A message takes a branch of the handler exactly when its topic is one of the five subscribed topics. Any other topic only stamps `lastMessageTime`. |
| Dashboard.PpmNumber | src/Dashboard.jsx:106-107 | The number `sensorData.ppm` is as an operand of `>` or `/`. Before the first ppm message it is the number 0, and afterwards it is `Number` of the text. |
| Dashboard.IsDanger | src/Dashboard.jsx:106 | `isDanger`: that number is greater than 100. NaN is never greater. |
| Dashboard.HasSensorData | src/Dashboard.jsx:108 | `hasSensorData`: online, some ppm text received (even "0.00", since a string is never `!==`-equal to 0), and the analog reading is not the number 0. A NaN analog reading counts as data. |
| Dashboard.DangerLevel | src/Dashboard.jsx:107 | `dangerLevel` is NaN exactly when the reading is NaN and is never above 100. For a finite reading x it is x/2 below 200 and 100 from 200 on. For +Infinity it is 100, and -Infinity is kept. |
| Dashboard.DangerIffLevelAboveHalf | src/Dashboard.jsx:106-107 | `isDanger` holds exactly when `dangerLevel` is more than 50. |
| Dashboard.DangerLevelMonotone | src/Dashboard.jsx:107 | A higher finite reading never gives a lower `dangerLevel`. |
| Dashboard.CentsAboveHundred | src/Dashboard.jsx:82 | A value rounded as `toFixed(2)` rounds it exceeds 100 exactly when the value is at least 100.005. |
| Dashboard.DangerAfterPpmMessage | src/Dashboard.jsx:106 | After a ppm message whose payload reads as v, `isDanger` holds exactly when v ≥ 100.005, because the flag reads the rounded text. |
| Dashboard.PpmAppendAgrees | src/Dashboard.jsx:83-87 | Charting the number the new ppm text reads as keeps the chart's newest point equal to the number that `isDanger` and `dangerLevel` use. |
| Dashboard.SubscribedTopicsRouted | src/Dashboard.jsx:58-64 | Each of the five subscribed topics reaches a branch of the message handler: both LED topics the LED branch, then mq7, ppm and alert one each. No subscribed topic is ignored. |
| Dashboard.AnalogAppendAgrees | src/Dashboard.jsx:76-80 | Charting the new analog reading keeps the card equal to the chart's newest point, or to the initial 0 while the chart is empty. |
| Dashboard.Dashboard.constructor | src/Dashboard.jsx:22-30 | The initial state: LED "off", analog and ppm 0, empty charts, no alert, `lastMessageTime` is the mount time, online, no client. |
| Dashboard.Dashboard.ClientCreated | src/Dashboard.jsx:53-54 | The mount effect stores a client. |
| Dashboard.Dashboard.Connected | src/Dashboard.jsx:56-65 | On `connect`, the client is connected and the five topics are subscribed again, in order. |
| Dashboard.Dashboard.Disconnected | src/Dashboard.jsx:100 | The `client.connected` flag that `toggleLED` tests becomes false. The drop itself is an event of the MQTT library that the component does not handle. |
| Dashboard.Dashboard.OnMessage | src/Dashboard.jsx:67-92 | Events come in time order. Alert timers may still be pending, even overdue ones. The topic is matched by the handler's chain of comparisons. Any message sets `lastMessageTime` and the clock to the receive time. LED topics set `ledStatus` to the payload verbatim. mq7 sets `analog` to `parseInt(payload)` and charts it. ppm sets the text to `parseFloat(payload).toFixed(2)` and charts the rounded number. Alert sets the banner and adds a deadline 5000 ms later. No other field changes. The chart invariants are kept. |
| Dashboard.Dashboard.RecordAnalog | src/Dashboard.jsx:74-80 | The mq7 branch: the card and the analog chart take `parseInt(payload)`, and the chart stays within 20 points with its newest point equal to the card. |
| Dashboard.Dashboard.RecordPpm | src/Dashboard.jsx:81-87 | The ppm branch: the card shows the `toFixed(2)` text, and the chart takes the reading rounded to hundredths, which is that text read back. |
| Dashboard.Dashboard.Tick | src/Dashboard.jsx:33-40 | A tick at a time no earlier than the last event sets `espOnline` to false exactly when more than 10000 ms passed since `lastMessageTime`, and to true otherwise. Nothing else changes except the clock. |
| Dashboard.Dashboard.RunDueAlertTimers | src/Dashboard.jsx:88-90 | When any pending clear-timer is due, the banner becomes "" whichever alert started that timer. Otherwise the banner is unchanged. Exactly the timers not yet due stay pending, so none is overdue afterwards. The clock moves forward to now. |
| Dashboard.Dashboard.ToggleLED | src/Dashboard.jsx:99-104 | With a client that is connected, the status is published to `iot/led/control` and shown at once. Otherwise nothing is published and nothing changes. |
| Dashboard.DueTimer | src/Dashboard.jsx:90 | Some pending timer is due exactly when one of the deadlines is at or before now. |
| Dashboard.PendingMembers | src/Dashboard.jsx:90 | A timer stays pending exactly when it was pending and its deadline is later than now. |
| Dashboard.SensorDataMeansCharted | src/Dashboard.jsx:108 | In a valid state, `hasSensorData` holds only once a ppm point and an analog point were charted. |
| Dashboard.ChartAgreesWithDanger | src/Dashboard.jsx:106 | In a valid state, `isDanger` is the newest ppm chart point compared with 100. |
| Dashboard.AlertClearedEarly | src/Dashboard.jsx:88-90 | Alert "A" at 0 s and alert "B" at 3 s: "B" is shown at 4 s and cleared at 5 s by the timer of "A". |
| Dashboard.LateTimerClearsNewerAlert | src/Dashboard.jsx:88-90 | A timer may run late. Alert "B" arrives at 5.5 s while the timer of "A", due at 5 s, is still pending. It is shown until that timer runs at 6 s and clears it. |
| Dashboard.ToggleNeedsConnection | src/Dashboard.jsx:99-104 | A toggle before a client is connected publishes nothing. Once connected, it publishes the status and shows it. |

## Left out

- The MQTT connection itself: `mqtt.connect`, the random client id, connect options, `subscribe`, `publish` and `end()` are library calls over the network. Here they are the `hasClient` and `connected` flags and the `subscribed` and `published` sequences.
- `message.toString()`: payloads arrive here already as strings. Byte decoding is not modelled.
- Strings are sequences of Unicode code points, not UTF-16 code units.
- IEEE doubles: numbers are exact rationals. In particular:
  - `toFixed(2)` is modelled on the exact value, so "100.005" rounds to 100.01. With doubles it rounds the nearest double instead, which can lie just below 100.005 and print "100.00".
  - `(x / 200) * 100` is exact.
  - `parseInt` results of more than 2^53 are not rounded.
  - Literals too large for a double do not become Infinity.
- JsNumber.ToFixed2: values of 1e21 and above, which `toFixed` prints in exponential form, are printed in fixed notation.
- JsNumber.StringToNumber: the "0x", "0o" and "0b" forms that `Number(...)` accepts are not read. The text it is applied to here always comes from `toFixed(2)`, which never prints them.
- The connection's `close`, `offline` and `error` events: the component registers no handler for them. `Disconnected` only models the library clearing `client.connected`, which `toggleLED` reads.
- `Date.now()` is taken as non-decreasing: each event's `now` is no earlier than the last (`clock`). The wall clock can step back, and such traces are not modelled.
- `console.log` calls.
- `toLocaleTimeString()`: the chart time label is the integer receive time.
- React scheduling:
  - `useState` updates are applied at once, in handler order.
  - `useEffect`, `setInterval` and `setTimeout` are replaced by the methods `Tick` and `RunDueAlertTimers`, which the environment calls.
  - Which times the ticks come at is modelled separately in `Liveness`.
- The `ppm` / `setPPM` state at line 28, which is never read or written after its declaration.
- Rendering (JSX, icons, charts and styles).
- The login page, the router and the not-found page: user-interface and routing code outside this core.

## Findings

| source | as written | input that shows it | evidently intended | confidence | as-written member | corrected member |
|---|---|---|---|---|---|---|
| src/Dashboard.jsx:32-43 | The interval's effect depends on `lastMessageTime`, so every message clears the interval and starts a new one. That interval first fires 3 s later. | Mount at 0 with no messages: the tick at 12 s reports offline. Messages then arrive at 12.5, 13.5, 14.5, 15.5 and 16.5 s. No tick runs before 19.5 s, so offline stays up for 7 s after the device starts sending again. | A watchdog on a fixed 3 s cadence that reads the newest `lastMessageTime`. Its first tick after a message, within 3 s, reports online, and it still reports silence within 13 s. | medium, not executed | Liveness.OfflineShownWhileMessagesArrive | Liveness.FixedCadenceRecovers |
