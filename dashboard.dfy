/** The dashboard component: the state it keeps, how an MQTT message changes
    it, the LED toggle, the alert that clears itself, the liveness tick, and
    the values derived from the state for display. */
module Dashboard {
  import opened Wrappers
  import opened JsNumber
  import opened History
  import opened Liveness

  const LedStatusTopic := "iot/led/status"
  const LedControlTopic := "iot/led/control"
  const AnalogTopic := "iot/sensor/mq7"
  const PpmTopic := "iot/sensor/ppm"
  const AlertTopic := "iot/alert/mq7"

  /** The topics subscribed to on every `connect` event, in this order. */
  const Subscriptions := [LedStatusTopic, LedControlTopic, AnalogTopic, PpmTopic, AlertTopic]

  /** How long an alert message stays up before its timer clears it. */
  const AlertClearDelayMs := 5000

  /** `sensorData.ppm`: the number 0 until the first ppm message, afterwards the
      text `toFixed(2)` produced. */
  datatype PpmField = Zero | Text(text: string)

  /** One MQTT publish the dashboard made. */
  datatype Publish = Publish(topic: string, payload: string)

  /** Which branch of the message handler a topic takes. */
  datatype Route = Led | Analog | Ppm | Alert | Ignored

  /** The handler's chain of topic comparisons, in its order. */
  function RouteOf(topic: string): Route
  {
    if topic == LedControlTopic || topic == LedStatusTopic then Led
    else if topic == AnalogTopic then Analog
    else if topic == PpmTopic then Ppm
    else if topic == AlertTopic then Alert
    else Ignored
  }

  /** Each subscribed topic reaches its own branch of the handler: both LED topics the LED
      branch, and the sensor and alert topics one branch each; no subscribed topic is ignored. */
  lemma SubscribedTopicsRouted()
    ensures seq(|Subscriptions|, i requires 0 <= i < |Subscriptions| => RouteOf(Subscriptions[i]))
            == [Led, Led, Analog, Ppm, Alert]
  {
    assert RouteOf(LedStatusTopic) == Led;
    assert RouteOf(AnalogTopic) == Analog by {
      assert AnalogTopic[4] != LedControlTopic[4] && AnalogTopic[4] != LedStatusTopic[4];
    }
    assert RouteOf(PpmTopic) == Ppm by {
      assert PpmTopic[4] != LedControlTopic[4] && PpmTopic[4] != LedStatusTopic[4];
      assert PpmTopic[11] != AnalogTopic[11];
    }
    assert RouteOf(AlertTopic) == Alert by {
      assert AlertTopic[4] != LedControlTopic[4] && AlertTopic[4] != LedStatusTopic[4];
      assert AlertTopic[4] != AnalogTopic[4] && AlertTopic[4] != PpmTopic[4];
    }
  }

  /** A message is handled exactly when its topic is one of the subscribed
      topics; any other topic only refreshes the time of the last message. */
  lemma HandledIffSubscribed(topic: string)
    ensures RouteOf(topic) != Ignored <==> topic in Subscriptions
  {
  }

  /** The number JavaScript compares and divides when `sensorData.ppm` is an
      operand of `>` or `/`. */
  function PpmNumber(ppm: PpmField): Number
  {
    match ppm
    case Zero => Finite(0.0)
    case Text(t) => StringToNumber(t)
  }

  /** `isDanger`: the reading is above 100 ppm. */
  predicate IsDanger(ppm: PpmField)
  {
    GreaterThan(PpmNumber(ppm), 100.0)
  }

  /** `dangerLevel`: the reading as a percentage of 200 ppm, capped at 100
      (`Math.min`, which yields NaN when either operand is NaN). */
  function DangerLevel(ppm: PpmField): (d: Number)
    ensures d.NaN? <==> PpmNumber(ppm).NaN?
    ensures d.Finite? ==> d.value <= 100.0
    ensures PpmNumber(ppm).Finite? ==>
              var x := PpmNumber(ppm).value;
              d == Finite(if x < 200.0 then x / 2.0 else 100.0)
    ensures PpmNumber(ppm).Infinity? ==>
              d == if PpmNumber(ppm).negative then PpmNumber(ppm) else Finite(100.0)
  {
    match PpmNumber(ppm)
    case NaN => NaN
    case Infinity(negative) => if negative then Infinity(true) else Finite(100.0)
    case Finite(x) =>
      var percent := x / 200.0 * 100.0;
      Finite(if percent < 100.0 then percent else 100.0)
  }

  /** `hasSensorData`: the device is online, a ppm message was received (the
      text is never `!== 0`-equal to the number 0, whatever it says) and the
      analog reading is not the number 0 (NaN counts as data). */
  predicate HasSensorData(espOnline: bool, ppm: PpmField, analog: Option<int>)
  {
    espOnline && ppm.Text? && analog != Some(0)
  }

  /** The danger flag and `dangerLevel` agree: the reading is dangerous exactly
      when the level is more than half. */
  lemma {:induction false} DangerIffLevelAboveHalf(ppm: PpmField)
    ensures IsDanger(ppm) <==> GreaterThan(DangerLevel(ppm), 50.0)
  {
    match PpmNumber(ppm)
    case NaN =>
    case Infinity(negative) =>
    case Finite(x) =>
      assert DangerLevel(ppm) == Finite(if x < 200.0 then x / 2.0 else 100.0);
  }

  /** `dangerLevel` never goes down as the reading goes up. */
  lemma {:induction false} DangerLevelMonotone(p: PpmField, q: PpmField)
    requires PpmNumber(p).Finite? && PpmNumber(q).Finite?
    requires PpmNumber(p).value <= PpmNumber(q).value
    ensures DangerLevel(p).value <= DangerLevel(q).value
  {
    var x, y := PpmNumber(p).value, PpmNumber(q).value;
    assert DangerLevel(p) == Finite(if x < 200.0 then x / 2.0 else 100.0);
    assert DangerLevel(q) == Finite(if y < 200.0 then y / 2.0 else 100.0);
  }

  /** After a ppm message whose payload reads as the finite number `v`, the
      danger flag is up exactly when `v` is at least 100.005: the flag is
      computed from the text rounded to hundredths, not from `v`. */
  lemma {:induction false} DangerAfterPpmMessage(payload: string, v: real)
    requires ParseFloat(payload) == Finite(v)
    ensures IsDanger(Text(ToFixed2(ParseFloat(payload)))) <==> v >= 100.005
  {
    ToFixed2RoundTrip(ParseFloat(payload));
    CentsAboveHundred(v);
  }

  /** Rounded to hundredths (half up on the magnitude, sign kept), `v` exceeds
      100 exactly when `v >= 100.005`. */
  lemma {:induction false} CentsAboveHundred(v: real)
    ensures GreaterThan(RoundToCents(Finite(v)), 100.0) <==> v >= 100.005
  {
    var n := Cents(v);
    var magnitude := n as real / 100.0;
    assert RoundToCents(Finite(v)) == Finite(if v < 0.0 then -magnitude else magnitude);
    if v >= 100.005 {
      assert n as real + 0.5 > 10000.5;
    }
  }

  /** The analog chart holds at most twenty points, and the card shows its
      newest value, or the initial 0 while it is empty. */
  predicate AnalogChartAgrees(analog: Option<int>, history: seq<Sample<Option<int>>>)
  {
    |history| <= Capacity
    && if history == [] then analog == Some(0) else history[|history| - 1].value == analog
  }

  /** The ppm chart holds at most twenty points, it is empty exactly while no
      ppm text was received, and its newest point is the number that text reads as. */
  predicate PpmChartAgrees(ppm: PpmField, history: seq<Sample<Number>>)
  {
    |history| <= Capacity
    && (ppm.Zero? <==> history == [])
    && (ppm.Text? ==> history[|history| - 1].value == StringToNumber(ppm.text))
  }

  /** Charting an analog point keeps the card showing the chart's newest point. */
  lemma {:induction false} AnalogAppendAgrees(history: seq<Sample<Option<int>>>, point: Sample<Option<int>>)
    requires |history| <= Capacity
    ensures AnalogChartAgrees(point.value, Append(history, point))
  {
    var h := Append(history, point);
    assert h[|h| - 1] == point;
  }

  /** Charting a point that reads as the new ppm text keeps the chart and the text in step. */
  lemma {:induction false} PpmAppendAgrees(history: seq<Sample<Number>>, text: string, point: Sample<Number>)
    requires |history| <= Capacity && point.value == StringToNumber(text)
    ensures PpmChartAgrees(Text(text), Append(history, point))
  {
    var h := Append(history, point);
    assert h[|h| - 1] == point;
  }

  /** A state of the dashboard component.  The fields are its React state
      (`client` reduced to whether it exists and is connected), plus the
      pending alert-clearing timers, the subscriptions made, the messages
      published, and the time of the latest event delivered to it. */
  class Dashboard {
    var ledStatus: string
    /** `sensorData.analog`: the last `parseInt` result, `None` for NaN. */
    var analog: Option<int>
    var ppm: PpmField
    var analogHistory: seq<Sample<Option<int>>>
    var ppmHistory: seq<Sample<Number>>
    var alert: string
    /** When each pending `setAlert("")` timer is due, oldest first. */
    var alertDeadlines: seq<int>
    var lastMessageTime: int
    var espOnline: bool
    var hasClient: bool
    var connected: bool
    var subscribed: seq<string>
    var published: seq<Publish>
    /** `Date.now()` at the latest event; events are delivered in time order. */
    var clock: int

    /** The charts never hold more than twenty points, and their newest point
        is the value the cards show and `isDanger` and `dangerLevel` read. */
    predicate Valid()
      reads this`analog, this`analogHistory, this`ppm, this`ppmHistory
    {
      AnalogChartAgrees(analog, analogHistory) && PpmChartAgrees(ppm, ppmHistory)
    }

    /** The state at mount, `Date.now()` being `mountTime`. */
    constructor(mountTime: int)
      ensures Valid() && clock == mountTime
      ensures ledStatus == "off" && analog == Some(0) && ppm == Zero
      ensures analogHistory == [] && ppmHistory == []
      ensures alert == "" && alertDeadlines == []
      ensures lastMessageTime == mountTime && espOnline
      ensures !hasClient && !connected && subscribed == [] && published == []
    {
      ledStatus := "off";
      analog := Some(0);
      ppm := Zero;
      analogHistory := [];
      ppmHistory := [];
      alert := "";
      alertDeadlines := [];
      lastMessageTime := mountTime;
      espOnline := true;
      hasClient := false;
      connected := false;
      subscribed := [];
      published := [];
      clock := mountTime;
    }

    /** The mount effect creates the MQTT client and stores it. */
    method ClientCreated()
      modifies this`hasClient
      ensures hasClient
    {
      hasClient := true;
    }

    /** The client's `connect` event: it is connected and subscribes to the five
        topics again. */
    method Connected()
      requires hasClient
      modifies this`connected, this`subscribed
      ensures connected && subscribed == old(subscribed) + Subscriptions
    {
      connected := true;
      subscribed := subscribed + Subscriptions;
    }

    /** The client lost its connection. */
    method Disconnected()
      modifies this`connected
      ensures !connected
    {
      connected := false;
    }

    /** The `message` handler: every message refreshes `lastMessageTime`; the
        topic then decides which one part of the state changes. */
    method OnMessage(topic: string, payload: string, now: int)
      requires Valid() && clock <= now
      modifies this`clock, this`lastMessageTime, this`ledStatus, this`analog, this`analogHistory,
               this`ppm, this`ppmHistory, this`alert, this`alertDeadlines
      ensures Valid()
      ensures clock == now && lastMessageTime == now
      ensures ledStatus == if RouteOf(topic) == Led then payload else old(ledStatus)
      ensures if RouteOf(topic) == Analog
              then analog == ParseInt(payload)
                   && analogHistory == Append(old(analogHistory), Sample(now, ParseInt(payload)))
              else analog == old(analog) && analogHistory == old(analogHistory)
      ensures if RouteOf(topic) == Ppm
              then ppm == Text(ToFixed2(ParseFloat(payload)))
                   && ppmHistory == Append(old(ppmHistory), Sample(now, RoundToCents(ParseFloat(payload))))
              else ppm == old(ppm) && ppmHistory == old(ppmHistory)
      ensures if RouteOf(topic) == Alert
              then alert == payload && alertDeadlines == old(alertDeadlines) + [now + AlertClearDelayMs]
              else alert == old(alert) && alertDeadlines == old(alertDeadlines)
    {
      clock := now;
      lastMessageTime := now;
      match RouteOf(topic)
      case Led =>
        ledStatus := payload;
      case Analog =>
        RecordAnalog(payload, now);
      case Ppm =>
        RecordPpm(payload, now);
      case Alert =>
        alert := payload;
        alertDeadlines := alertDeadlines + [now + AlertClearDelayMs];
      case Ignored =>
    }

    /** The `iot/sensor/mq7` branch: the card and the analog chart take
        `parseInt(payload)`. */
    method RecordAnalog(payload: string, now: int)
      requires Valid()
      modifies this`analog, this`analogHistory
      ensures Valid()
      ensures analog == ParseInt(payload)
      ensures analogHistory == Append(old(analogHistory), Sample(now, ParseInt(payload)))
    {
      ShowAnalog(Sample(now, ParseInt(payload)));
    }

    /** Show the analog reading of `point` on the card and chart it. */
    method ShowAnalog(point: Sample<Option<int>>)
      requires Valid()
      modifies this`analog, this`analogHistory
      ensures Valid()
      ensures analog == point.value && analogHistory == Append(old(analogHistory), point)
    {
      var charted := Append(analogHistory, point);
      AnalogAppendAgrees(analogHistory, point);
      assert PpmChartAgrees(ppm, ppmHistory);
      analog := point.value;
      analogHistory := charted;
    }

    /** The `iot/sensor/ppm` branch: the card shows `parseFloat(payload).toFixed(2)`
        and the ppm chart takes that text read back, which is the reading
        rounded to hundredths. */
    method RecordPpm(payload: string, now: int)
      requires Valid()
      modifies this`ppm, this`ppmHistory
      ensures Valid()
      ensures ppm == Text(ToFixed2(ParseFloat(payload)))
      ensures ppmHistory == Append(old(ppmHistory), Sample(now, RoundToCents(ParseFloat(payload))))
    {
      var text := ToFixed2(ParseFloat(payload));
      ToFixed2RoundTrip(ParseFloat(payload));
      ShowPpm(text, Sample(now, ParseFloat(text)));
    }

    /** Show the ppm text on the card and chart `point`, which is what the text reads as. */
    method ShowPpm(text: string, point: Sample<Number>)
      requires Valid() && point.value == StringToNumber(text)
      modifies this`ppm, this`ppmHistory
      ensures Valid()
      ensures ppm == Text(text) && ppmHistory == Append(old(ppmHistory), point)
    {
      var charted := Append(ppmHistory, point);
      PpmAppendAgrees(ppmHistory, text, point);
      assert AnalogChartAgrees(analog, analogHistory);
      ppm := Text(text);
      ppmHistory := charted;
    }

    /** One tick of the liveness interval at time `now`. */
    method Tick(now: int)
      requires clock <= now
      modifies this`clock, this`espOnline
      ensures clock == now && espOnline == OnlineAt(now, lastMessageTime)
    {
      clock := now;
      if now - lastMessageTime > OfflineAfterMs {
        espOnline := false;
      } else {
        espOnline := true;
      }
    }

    /** The clock reaches `now`: every alert timer that is due runs its
        `setAlert("")`, whichever message started it. */
    method RunDueAlertTimers(now: int) returns (fired: bool)
      requires clock <= now
      modifies this`clock, this`alert, this`alertDeadlines
      ensures clock == now
      ensures fired <==> exists i :: 0 <= i < |old(alertDeadlines)| && old(alertDeadlines)[i] <= now
      ensures alert == if fired then "" else old(alert)
      ensures alertDeadlines == Pending(old(alertDeadlines), now)
      ensures forall i :: 0 <= i < |alertDeadlines| ==> alertDeadlines[i] > now
    {
      clock := now;
      fired := DueTimer(alertDeadlines, now);
      if fired {
        alert := "";
      }
      alertDeadlines := Pending(alertDeadlines, now);
      forall i | 0 <= i < |alertDeadlines|
        ensures alertDeadlines[i] > now
      {
        PendingMembers(old(alertDeadlines), now, alertDeadlines[i]);
      }
    }

    /** `toggleLED`: with a connected client, publish the wanted status on the
        control topic and show it at once; otherwise do nothing. */
    method ToggleLED(status: string)
      modifies this`published, this`ledStatus
      ensures if old(hasClient && connected)
              then published == old(published) + [Publish(LedControlTopic, status)] && ledStatus == status
              else published == old(published) && ledStatus == old(ledStatus)
    {
      if hasClient && connected {
        published := published + [Publish(LedControlTopic, status)];
        ledStatus := status;
      }
    }
  }

  /** Some timer in `deadlines` is due at `now`. */
  function DueTimer(deadlines: seq<int>, now: int): (due: bool)
    ensures due <==> exists i :: 0 <= i < |deadlines| && deadlines[i] <= now
    decreases |deadlines|
  {
    if deadlines == [] then false
    else if deadlines[0] <= now then true
    else
      var rest := DueTimer(deadlines[1..], now);
      assert rest ==> exists i :: 0 <= i < |deadlines| && deadlines[i] <= now by {
        if rest {
          var i :| 0 <= i < |deadlines| - 1 && deadlines[1..][i] <= now;
          assert deadlines[i + 1] <= now;
        }
      }
      rest
  }

  /** The timers of `deadlines` still waiting at `now`, in their order. */
  function Pending(deadlines: seq<int>, now: int): (rest: seq<int>)
    ensures |rest| <= |deadlines|
    decreases |deadlines|
  {
    if deadlines == [] then []
    else if deadlines[0] <= now then Pending(deadlines[1..], now)
    else [deadlines[0]] + Pending(deadlines[1..], now)
  }

  /** A timer stays pending exactly when it was pending and is not yet due. */
  lemma {:induction false} PendingMembers(deadlines: seq<int>, now: int, d: int)
    ensures d in Pending(deadlines, now) <==> d in deadlines && d > now
    decreases |deadlines|
  {
    if deadlines != [] {
      PendingMembers(deadlines[1..], now, d);
      assert deadlines == [deadlines[0]] + deadlines[1..];
    }
  }

  /** While the dashboard state is valid, `hasSensorData` holds only once a ppm
      point and an analog point were charted. */
  lemma SensorDataMeansCharted(d: Dashboard)
    requires d.Valid()
    ensures HasSensorData(d.espOnline, d.ppm, d.analog) ==> d.ppmHistory != [] && d.analogHistory != []
  {
  }

  /** While the dashboard state is valid, the danger flag reads the newest
      point of the ppm chart. */
  lemma ChartAgreesWithDanger(d: Dashboard)
    requires d.Valid() && d.ppmHistory != []
    ensures IsDanger(d.ppm) <==> GreaterThan(d.ppmHistory[|d.ppmHistory| - 1].value, 100.0)
  {
  }

  /** A later alert is cleared early by the timer of an earlier one: alert "A"
      at 0 s and alert "B" at 3 s; at 5 s the timer of "A" clears "B", which
      was shown for two seconds, not five. */
  method AlertClearedEarly() returns (shownAt4s: string, shownAt5s: string)
    ensures shownAt4s == "B" && shownAt5s == ""
  {
    var dashboard := new Dashboard(0);
    dashboard.OnMessage(AlertTopic, "A", 0);
    dashboard.OnMessage(AlertTopic, "B", 3000);
    var fired := dashboard.RunDueAlertTimers(4000);
    shownAt4s := dashboard.alert;
    fired := dashboard.RunDueAlertTimers(5000);
    shownAt5s := dashboard.alert;
  }

  /** A timer may run late: alert "A" at 0 s, alert "B" at 5.5 s while the timer of
      "A", due at 5 s, is still pending; when that timer runs at 6 s it clears "B"
      half a second after it appeared. */
  method LateTimerClearsNewerAlert() returns (shownAt5500: string, shownAt6s: string)
    ensures shownAt5500 == "B" && shownAt6s == ""
  {
    var dashboard := new Dashboard(0);
    dashboard.OnMessage(AlertTopic, "A", 0);
    dashboard.OnMessage(AlertTopic, "B", 5500);
    shownAt5500 := dashboard.alert;
    var fired := dashboard.RunDueAlertTimers(6000);
    shownAt6s := dashboard.alert;
  }

  /** Without a connected client a toggle changes nothing; once connected it
      publishes the status and shows it. */
  method ToggleNeedsConnection() returns (before: seq<Publish>, after: seq<Publish>, shown: string)
    ensures before == [] && after == [Publish(LedControlTopic, "on")] && shown == "on"
  {
    var dashboard := new Dashboard(0);
    dashboard.ToggleLED("on");
    before := dashboard.published;
    dashboard.ClientCreated();
    dashboard.Connected();
    dashboard.ToggleLED("on");
    after := dashboard.published;
    shown := dashboard.ledStatus;
  }
}
