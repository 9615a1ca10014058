/** The device-liveness watchdog of the dashboard.  Every tick compares the
    clock with the time of the last MQTT message and shows the device offline
    once more than ten seconds passed.  Times are integer milliseconds. */
module Liveness {

  /** Silence longer than this marks the device offline. */
  const OfflineAfterMs := 10000

  /** The period of the watchdog interval. */
  const TickPeriodMs := 3000

  /** What one tick decides: online unless more than ten seconds went by since
      `lastMessageTime`.  Exactly ten seconds still counts as online. */
  predicate OnlineAt(now: int, lastMessageTime: int)
  {
    !(now - lastMessageTime > OfflineAfterMs)
  }

  /** Message arrival times, strictly increasing. */
  predicate Ascending(msgs: seq<int>)
  {
    forall i, j :: 0 <= i < j < |msgs| ==> msgs[i] < msgs[j]
  }

  /** Consecutive messages arrive less than one tick period apart. */
  predicate GapsBelowTick(msgs: seq<int>)
  {
    forall i :: 0 <= i < |msgs| - 1 ==> msgs[i + 1] - msgs[i] < TickPeriodMs
  }

  /** The value of `lastMessageTime` just before time `t`: the newest message that
      arrived before `t`, or the mount time when none did. */
  function LastMessageBefore(mount: int, msgs: seq<int>, t: int): (c: int)
    ensures c == mount || (c in msgs && c < t)
    decreases |msgs|
  {
    if msgs == [] then mount
    else if msgs[|msgs| - 1] < t then msgs[|msgs| - 1]
    else LastMessageBefore(mount, msgs[..|msgs| - 1], t)
  }

  /** With messages in arrival order, no message before `t` is newer than the
      one `LastMessageBefore` picks. */
  lemma {:induction false} LastMessageBeforeIsNewest(mount: int, msgs: seq<int>, t: int, i: int)
    requires Ascending(msgs) && 0 <= i < |msgs| && msgs[i] < t
    ensures msgs[i] <= LastMessageBefore(mount, msgs, t)
    decreases |msgs|
  {
    var n := |msgs| - 1;
    if msgs[n] >= t {
      assert i < n;
      LastMessageBeforeIsNewest(mount, msgs[..n], t, i);
    }
  }

  // ---------------------------------------------------------------------------
  // The watchdog as written: the effect that owns the interval depends on
  // `lastMessageTime`, so every message clears the interval and starts a new
  // one, which first fires three seconds later.

  /** A tick of the interval fires at `t`: `t` lies a whole number of periods
      after the moment the current interval was started. */
  predicate TickAsWritten(mount: int, msgs: seq<int>, t: int)
  {
    var c := LastMessageBefore(mount, msgs, t);
    c < t && (t - c) % TickPeriodMs == 0
  }

  /** Each tick as written reads the `lastMessageTime` its interval was started
      with, so silence is reported at the fourth tick, twelve seconds after the
      last message, and the three ticks before it report online. */
  lemma {:induction false} AsWrittenReportsSilenceAtFourthTick(mount: int, msgs: seq<int>, t: int)
    requires TickAsWritten(mount, msgs, t)
    ensures var c := LastMessageBefore(mount, msgs, t);
            t - c >= TickPeriodMs && (OnlineAt(t, c) <==> t - c < 4 * TickPeriodMs)
  {
    var c := LastMessageBefore(mount, msgs, t);
    var k := (t - c) / TickPeriodMs;
    assert t - c == k * TickPeriodMs;
    assert k >= 1;
  }

  /** While messages keep arriving less than three seconds apart, the interval
      is replaced before it ever fires: no tick runs from the first message
      until three seconds after the last one. */
  lemma {:induction false} NoTickWhileMessagesFlow(mount: int, msgs: seq<int>, t: int)
    requires |msgs| > 0 && GapsBelowTick(msgs)
    requires msgs[0] < t < msgs[|msgs| - 1] + TickPeriodMs
    ensures !TickAsWritten(mount, msgs, t)
    decreases |msgs|
  {
    var n := |msgs| - 1;
    if msgs[n] >= t {
      assert n > 0;
      var prefix := msgs[..n];
      assert msgs[n] - prefix[n - 1] < TickPeriodMs;
      assert GapsBelowTick(prefix) by {
        forall i | 0 <= i < |prefix| - 1
          ensures prefix[i + 1] - prefix[i] < TickPeriodMs
        {
          assert prefix[i + 1] == msgs[i + 1] && prefix[i] == msgs[i];
        }
      }
      NoTickWhileMessagesFlow(mount, prefix, t);
    }
  }

  /** The offline banner as written stays up while the device is talking: mounted
      at 0 with no message, the tick at 12 s reports offline; messages then arrive
      every second from 12.5 s to 16.5 s, yet no tick runs before 19.5 s, so
      offline stays up for seven seconds after the device starts sending again. */
  lemma OfflineShownWhileMessagesArrive()
    ensures var msgs := [12500, 13500, 14500, 15500, 16500];
            TickAsWritten(0, msgs, 12000) && !OnlineAt(12000, LastMessageBefore(0, msgs, 12000))
            && (forall t :: 12000 < t < 19500 ==> !TickAsWritten(0, msgs, t))
            && TickAsWritten(0, msgs, 19500)
  {
    var msgs := [12500, 13500, 14500, 15500, 16500];
    assert LastMessageBefore(0, msgs, 12000) == 0;
    forall t | 12000 < t < 19500
      ensures !TickAsWritten(0, msgs, t)
    {
      if t <= 12500 {
        assert LastMessageBefore(0, msgs, t) == 0;
        assert t / TickPeriodMs == 4;
      } else {
        assert GapsBelowTick(msgs);
        NoTickWhileMessagesFlow(0, msgs, t);
      }
    }
    assert LastMessageBefore(0, msgs, 19500) == 16500;
  }

  // ---------------------------------------------------------------------------
  // The intended watchdog: one interval started at mount, ticking on a fixed
  // three-second cadence and reading the newest `lastMessageTime` each time.

  /** A tick of the fixed-cadence interval fires at `t`. */
  predicate TickFixedCadence(mount: int, t: int)
  {
    mount < t && (t - mount) % TickPeriodMs == 0
  }

  /** The first fixed-cadence tick strictly after `m`. */
  function NextFixedTick(mount: int, m: int): (t: int)
    requires mount <= m
    ensures m < t <= m + TickPeriodMs && TickFixedCadence(mount, t)
  {
    var t := mount + ((m - mount) / TickPeriodMs + 1) * TickPeriodMs;
    assert t - mount == ((m - mount) / TickPeriodMs + 1) * TickPeriodMs;
    t
  }

  /** On the fixed cadence, a message is seen by the very next tick, at most three
      seconds later, which reports the device online. */
  lemma {:induction false} FixedCadenceRecovers(mount: int, msgs: seq<int>, i: int)
    requires Ascending(msgs) && 0 <= i < |msgs| && mount <= msgs[i]
    ensures var t := NextFixedTick(mount, msgs[i]);
            t <= msgs[i] + TickPeriodMs && OnlineAt(t, LastMessageBefore(mount, msgs, t))
  {
    var t := NextFixedTick(mount, msgs[i]);
    LastMessageBeforeIsNewest(mount, msgs, t, i);
  }

  /** On the fixed cadence, silence after the message `msgs[i]` is still
      reported: when no later message arrives before the first tick more than
      ten seconds after it, that tick, at most thirteen seconds after it,
      reports the device offline. */
  lemma {:induction false} FixedCadenceReportsSilence(mount: int, msgs: seq<int>, i: int)
    requires Ascending(msgs) && 0 <= i < |msgs| && mount <= msgs[i]
    requires i + 1 < |msgs| ==> NextFixedTick(mount, msgs[i] + OfflineAfterMs) <= msgs[i + 1]
    ensures var t := NextFixedTick(mount, msgs[i] + OfflineAfterMs);
            t <= msgs[i] + OfflineAfterMs + TickPeriodMs && !OnlineAt(t, LastMessageBefore(mount, msgs, t))
  {
    var t := NextFixedTick(mount, msgs[i] + OfflineAfterMs);
    var c := LastMessageBefore(mount, msgs, t);
    if c != mount {
      var j :| 0 <= j < |msgs| && msgs[j] == c;
      assert msgs[j] <= msgs[i];
    }
  }

  /** The scenario of `OfflineShownWhileMessagesArrive` on the fixed cadence: the
      tick at 15 s already sees the message of 14.5 s and reports online. */
  lemma FixedCadenceScenario()
    ensures var msgs := [12500, 13500, 14500, 15500, 16500];
            TickFixedCadence(0, 12000) && !OnlineAt(12000, LastMessageBefore(0, msgs, 12000))
            && TickFixedCadence(0, 15000) && OnlineAt(15000, LastMessageBefore(0, msgs, 15000))
  {
    var msgs := [12500, 13500, 14500, 15500, 16500];
    assert LastMessageBefore(0, msgs, 12000) == 0;
    assert LastMessageBefore(0, msgs, 15000) == 14500;
  }
}
