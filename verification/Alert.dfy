/** Threshold alerts with hysteresis (alert.c), over real temperatures. */
module Alerts {

  datatype Event = NoEvent | Breach | Recovered

  datatype Model = Model(threshold: real, hysteresis: real, lastValue: real, breached: bool, breachCount: nat)

  function Init(threshold: real, hysteresis: real): Model {
    Model(threshold, if hysteresis > 0.0 then hysteresis else 0.0, 0.0, false, 0)
  }

  function Next(m: Model, value: real): (Model, Event) {
    var n := m.(lastValue := value);
    if !m.breached then
      if value > m.threshold then (n.(breached := true, breachCount := m.breachCount + 1), Breach)
      else (n, NoEvent)
    else if value <= m.threshold - m.hysteresis then (n.(breached := false), Recovered)
    else (n, NoEvent)
  }

  /** hwsense_alert_t */
  class Alert {
    var threshold: real
    var hysteresis: real
    var lastValue: real
    var breached: bool
    var breachCount: nat

    ghost function View(): Model
      reads this
    {
      Model(threshold, hysteresis, lastValue, breached, breachCount)
    }

    /** hwsense_alert_init */
    constructor (threshold: real, hysteresis: real)
      ensures View() == Init(threshold, hysteresis)
    {
      this.threshold := threshold;
      this.hysteresis := if hysteresis > 0.0 then hysteresis else 0.0;
      lastValue, breached, breachCount := 0.0, false, 0;
    }

    /** hwsense_alert_step */
    method Step(value: real) returns (event: Event)
      modifies this
      ensures (View(), event) == Next(old(View()), value)
    {
      lastValue := value;
      if !breached {
        if value > threshold {
          breached := true;
          breachCount := breachCount + 1;
          return Breach;
        }
        return NoEvent;
      }
      if value <= threshold - hysteresis {
        breached := false;
        return Recovered;
      }
      return NoEvent;
    }
  }

  /** hwsense_temp_result_t */
  datatype Reading = Failed | Celsius(value: real)

  /** A caller's callback, which remembers its calls. */
  class Callback {
    var calls: seq<(Event, real)>

    method Call(event: Event, value: real)
      modifies this
      ensures calls == old(calls) + [(event, value)]
    {
      calls := calls + [(event, value)];
    }
  }

  /** What one check does to the alert, and the callback it owes. */
  function Check(m: Model, r: Reading): (Model, seq<(Event, real)>) {
    if r.Failed? then (m, [])
    else
      var (n, event) := Next(m, r.value);
      (n, if event == NoEvent then [] else [(event, r.value)])
  }

  /** hwsense_check_temp_alert, where temp is what hwsense_cpu_package_temp returns; a missing
      context behaves like a failed read. */
  method CheckTempAlert(alert: Alert?, temp: Reading, callback: Callback?) returns (event: Event)
    modifies alert, callback
    ensures alert == null ==> event == NoEvent && (callback != null ==> callback.calls == old(callback.calls))
    ensures alert != null ==>
              var (m, owed) := Check(old(alert.View()), temp);
              && alert.View() == m
              && event == (if owed == [] then NoEvent else owed[0].0)
              && (callback != null ==> callback.calls == old(callback.calls) + owed)
  {
    if alert == null || temp.Failed? {
      return NoEvent;
    }
    event := alert.Step(temp.value);
    if event != NoEvent && callback != null {
      callback.Call(event, temp.value);
    }
  }

  // ---- Runs --------------------------------------------------------------------------

  /** The alert and all callbacks after a run of checks. */
  function Checks(m: Model, rs: seq<Reading>): (Model, seq<(Event, real)>) {
    if rs == [] then (m, [])
    else
      var (n, calls) := Checks(m, rs[..|rs| - 1]);
      var (last, owed) := Check(n, rs[|rs| - 1]);
      (last, calls + owed)
  }

  function Values(rs: seq<Reading>): seq<real> {
    if rs == [] then []
    else Values(rs[..|rs| - 1]) + if rs[|rs| - 1].Failed? then [] else [rs[|rs| - 1].value]
  }

  /** The alert and its events after a run of readings that all succeed. */
  function Run(m: Model, vs: seq<real>): (Model, seq<(Event, real)>) {
    if vs == [] then (m, [])
    else
      var v := vs[|vs| - 1];
      var (n, events) := Run(m, vs[..|vs| - 1]);
      var (last, event) := Next(n, v);
      (last, if event == NoEvent then events else events + [(event, v)])
  }

  /** A sensor that drops out changes nothing: a run with failed reads leaves the alert and the
      callback trace exactly as the run without them. */
  lemma {:induction false} FailedReadsDoNotCount(m: Model, rs: seq<Reading>)
    ensures Checks(m, rs) == Run(m, Values(rs))
  {
    if rs != [] {
      FailedReadsDoNotCount(m, rs[..|rs| - 1]);
      var vs := Values(rs);
      if rs[|rs| - 1].Celsius? {
        assert vs[..|vs| - 1] == Values(rs[..|rs| - 1]) && vs[|vs| - 1] == rs[|rs| - 1].value;
        assert Checks(m, rs[..|rs| - 1]).1 + [] == Checks(m, rs[..|rs| - 1]).1;
      } else {
        assert vs == Values(rs[..|rs| - 1]);
      }
    }
  }

  /** Reading k exceeded the threshold and every later one stayed above it less the margin. */
  ghost predicate HeldSince(threshold: real, margin: real, vs: seq<real>, k: nat) {
    k < |vs| && vs[k] > threshold && forall j :: k < j < |vs| ==> vs[j] > threshold - margin
  }

  lemma {:induction false} Unchanged(m: Model, vs: seq<real>)
    ensures Run(m, vs).0.threshold == m.threshold && Run(m, vs).0.hysteresis == m.hysteresis
    ensures Run(m, vs).0.lastValue == if vs == [] then m.lastValue else vs[|vs| - 1]
  {
    if vs != [] {
      Unchanged(m, vs[..|vs| - 1]);
    }
  }

  /** The state depends on the readings alone, in closed form. */
  lemma {:induction false} BreachedIffHeld(m: Model, vs: seq<real>)
    requires !m.breached && m.hysteresis >= 0.0
    ensures Run(m, vs).0.breached <==> exists k :: HeldSince(m.threshold, m.hysteresis, vs, k)
  {
    if vs != [] {
      var before, v := vs[..|vs| - 1], vs[|vs| - 1];
      BreachedIffHeld(m, before);
      Unchanged(m, before);
      if k :| HeldSince(m.threshold, m.hysteresis, before, k) {
        if v > m.threshold - m.hysteresis {
          assert HeldSince(m.threshold, m.hysteresis, vs, k);
        } else {
          forall i ensures !HeldSince(m.threshold, m.hysteresis, vs, i) {
          }
        }
      } else if v > m.threshold {
        assert HeldSince(m.threshold, m.hysteresis, vs, |vs| - 1);
      } else {
        forall i ensures !HeldSince(m.threshold, m.hysteresis, vs, i) {
          assert HeldSince(m.threshold, m.hysteresis, vs, i) ==> HeldSince(m.threshold, m.hysteresis, before, i);
        }
      }
    }
  }

  /** The distance below the threshold at which an alert recovers: none for a negative hysteresis */
  function Margin(hysteresis: real): real {
    if hysteresis < 0.0 then 0.0 else hysteresis
  }

  /** hwsense_alert_init, then any readings */
  lemma {:induction false} StateIsHistory(threshold: real, hysteresis: real, vs: seq<real>)
    ensures Run(Init(threshold, hysteresis), vs).0.breached
            <==> exists k :: HeldSince(threshold, Margin(hysteresis), vs, k)
  {
    BreachedIffHeld(Init(threshold, hysteresis), vs);
    assert Init(threshold, hysteresis).hysteresis == Margin(hysteresis);
  }

  /** An event carries the reading it is about: a breach one above the threshold, a recovery one at least
      the margin below it. */
  predicate Carries(threshold: real, margin: real, vs: seq<real>, e: (Event, real)) {
    && e.1 in vs
    && match e.0
       case NoEvent => false
       case Breach => e.1 > threshold
       case Recovered => e.1 <= threshold - margin
  }

  lemma {:induction false} EventsCarryReadings(threshold: real, hysteresis: real, vs: seq<real>)
    ensures forall e :: e in Run(Init(threshold, hysteresis), vs).1 ==> Carries(threshold, Margin(hysteresis), vs, e)
  {
    if vs != [] {
      var before, v := vs[..|vs| - 1], vs[|vs| - 1];
      EventsCarryReadings(threshold, hysteresis, before);
      Unchanged(Init(threshold, hysteresis), before);
      assert v in vs && forall x :: x in before ==> x in vs;
    }
  }

  /** Events strictly alternate, a breach first. */
  predicate Alternates(events: seq<(Event, real)>) {
    forall k :: 0 <= k < |events| ==> events[k].0 == if k % 2 == 0 then Breach else Recovered
  }

  /** The number of Recovered events */
  function Recoveries(events: seq<(Event, real)>): nat {
    if events == [] then 0
    else Recoveries(events[..|events| - 1]) + if events[|events| - 1].0 == Recovered then 1 else 0
  }

  lemma {:induction false} RecoveriesAdd(events: seq<(Event, real)>, e: (Event, real))
    ensures Recoveries(events + [e]) == Recoveries(events) + if e.0 == Recovered then 1 else 0
  {
    assert (events + [e])[..|events|] == events;
  }

  /** Events alternate, and the breach counter agrees with them. */
  predicate Tally(m: Model, events: seq<(Event, real)>) {
    && Alternates(events)
    && m.breached == (|events| % 2 == 1)
    && m.breachCount == Recoveries(events) + if m.breached then 1 else 0
  }

  lemma TallyStep(m: Model, events: seq<(Event, real)>, v: real)
    requires Tally(m, events)
    ensures var (n, event) := Next(m, v);
            Tally(n, if event == NoEvent then events else events + [(event, v)])
  {
    hide Recoveries;
    RecoveriesAdd(events, (Next(m, v).1, v));
  }

  lemma {:induction false} EventsAlternate(threshold: real, hysteresis: real, vs: seq<real>)
    ensures Tally(Run(Init(threshold, hysteresis), vs).0, Run(Init(threshold, hysteresis), vs).1)
  {
    if vs != [] {
      EventsAlternate(threshold, hysteresis, vs[..|vs| - 1]);
      var (n, events) := Run(Init(threshold, hysteresis), vs[..|vs| - 1]);
      TallyStep(n, events, vs[|vs| - 1]);
    }
  }

  /** The total downward movement of the readings */
  function Descent(vs: seq<real>): (d: real)
    ensures d >= 0.0
  {
    if |vs| < 2 then 0.0
    else
      var drop := vs[|vs| - 2] - vs[|vs| - 1];
      Descent(vs[..|vs| - 1]) + if drop > 0.0 then drop else 0.0
  }

  function Cost(recoveries: nat, hysteresis: real): real {
    recoveries as real * hysteresis
  }

  /** The readings have fallen by enough to pay for the recoveries; while breached, by enough to pay
      for the distance below the threshold on top. */
  predicate Paid(m: Model, recoveries: nat, descent: real) {
    var paid := Cost(recoveries, m.hysteresis);
    && paid <= descent
    && (recoveries > 0 ==> paid < descent)
    && (m.breached ==> paid + (m.threshold - m.lastValue) < descent)
  }

  lemma PaidStep(m: Model, recoveries: nat, descent: real, v: real)
    requires m.hysteresis >= 0.0 && Paid(m, recoveries, descent)
    ensures var (n, event) := Next(m, v);
            Paid(n, recoveries + if event == Recovered then 1 else 0,
                 descent + if m.lastValue > v then m.lastValue - v else 0.0)
  {
    hide Cost;
    OneMore(recoveries, m.hysteresis);
  }

  lemma OneMore(r: nat, h: real)
    ensures Cost(r + 1, h) == Cost(r, h) + h
  {
  }

  lemma PaidAtFirst(m: Model, v: real)
    requires m.hysteresis >= 0.0 && !m.breached
    ensures Paid(Next(m, v).0, 0, 0.0)
  {
  }

  lemma {:induction false} RecoveriesCostDescent(m: Model, vs: seq<real>)
    requires m.hysteresis >= 0.0 && !m.breached && vs != []
    ensures Paid(Run(m, vs).0, Recoveries(Run(m, vs).1), Descent(vs))
  {
    hide Paid, Next;
    var before, v := vs[..|vs| - 1], vs[|vs| - 1];
    var (n, events) := Run(m, before);
    RecoveriesAdd(events, (Next(n, v).1, v));
    if before == [] {
      PaidAtFirst(m, v);
      FirstNotRecovered(m, v);
    } else {
      RecoveriesCostDescent(m, before);
      Unchanged(m, before);
      PaidStep(n, Recoveries(events), Descent(before), v);
    }
  }

  lemma FirstNotRecovered(m: Model, v: real)
    requires !m.breached
    ensures Next(m, v).1 != Recovered
  {
  }

  /** No flapping: n recoveries need the readings to fall by more than n times the hysteresis. */
  lemma NoFlapping(threshold: real, hysteresis: real, vs: seq<real>)
    ensures var n := Recoveries(Run(Init(threshold, hysteresis), vs).1);
            && n as real * Margin(hysteresis) <= Descent(vs)
            && (n > 0 ==> n as real * Margin(hysteresis) < Descent(vs))
  {
    hide Next;
    if vs != [] {
      RecoveriesCostDescent(Init(threshold, hysteresis), vs);
      Unchanged(Init(threshold, hysteresis), vs);
    }
  }
}
