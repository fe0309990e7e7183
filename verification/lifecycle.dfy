/** The table over a run of requests and device lines, one at a time: every
    handler keeps the table's invariant, ids are never reused, alert times only
    move forward, and an end-to-end alerting scenario. */
module Lifecycle {
  import opened Numbers
  import opened Plants
  import opened Ingestion
  import opened Sources
  import Payload
  import Thresholds

  /** One thing that can happen to the table. */
  datatype Event =
    | Add(name: string, soil: string)
    | Delete(pid: nat)
    | Water(pid: nat, stamp: Stamp)
    | Push(data: Payload.Json, now: real)
    | Line(line: string, now: real)

  datatype Outcome = Outcome(store: Store, code: int, sent: seq<Notification>)

  /** Handling one event. The table's invariant survives; the counter never
      goes back; a plant id that appears is a fresh one; and a plant that
      stays keeps an alert time at least as late as before. */
  function Step(s: Store, e: Event): (r: Outcome)
    requires Valid(s)
    ensures Valid(r.store)
    ensures r.store.counter >= s.counter
    ensures forall id :: id in r.store.plants && id !in s.plants ==> id >= s.counter
    ensures forall id :: id in s.plants && id in r.store.plants ==>
      r.store.plants[id].lastAlert >= s.plants[id].lastAlert
    ensures r.sent != [] ==> e.Push? || e.Line?
  {
    match e
    case Add(name, soil) => Outcome(AddPlant(s, name, soil), Ok, [])
    case Delete(pid) => Outcome(DeletePlant(s, pid), Ok, [])
    case Water(pid, stamp) =>
      var w := WaterPlant(s, pid, stamp);
      Outcome(w.store, w.code, [])
    case Push(data, now) =>
      var p := UpdateSensor(s, data, now);
      Outcome(p.store, p.code, p.sent)
    case Line(line, now) =>
      var a := SerialStep(s, line, now);
      Outcome(a.store, Ok, a.sent)
  }

  /** The table after a sequence of events. */
  function Run(s: Store, events: seq<Event>): (r: Store)
    requires Valid(s)
    ensures Valid(r)
    ensures r.counter >= s.counter
    decreases |events|
  {
    if |events| == 0 then s else Run(Step(s, events[0]).store, events[1..])
  }

  /** An id that is not in use and lies below the counter (a deleted plant's
      id, say) never comes back, whatever happens next. */
  lemma {:induction false} IdsNeverReused(s: Store, events: seq<Event>, id: nat)
    requires Valid(s)
    requires id < s.counter && id !in s.plants
    ensures id !in Run(s, events).plants
    decreases |events|
  {
    if |events| > 0 {
      var next := Step(s, events[0]).store;
      IdsNeverReused(next, events[1..], id);
    }
  }

  /** A plant's alert time never moves back over any run in which it survives. */
  lemma {:induction false} LastAlertMonotone(s: Store, events: seq<Event>, id: nat)
    requires Valid(s)
    requires id in s.plants
    ensures id in Run(s, events).plants ==>
      Run(s, events).plants[id].lastAlert >= s.plants[id].lastAlert
    decreases |events|
  {
    if |events| > 0 {
      var next := Step(s, events[0]).store;
      if id in next.plants {
        LastAlertMonotone(next, events[1..], id);
      } else {
        IdsNeverReused(next, events[1..], id);
      }
    }
  }

  /** No notification went out exactly when no plant was notified. */
  lemma NoSentIdsNoneSent(sent: seq<Notification>)
    ensures SentIds(sent) == {} <==> sent == []
  {
    if |sent| > 0 {
      assert sent[0].id in SentIds(sent);
    }
  }

  /** The two plants of the scenario, A on loamy soil and B on sandy soil,
      neither of which has ever alerted. */
  function ScenarioStart(): (s: Store)
    ensures Valid(s)
    ensures s.plants.Keys == {1, 2}
    ensures s.plants[1].soil == "Loamy" && s.plants[2].soil == "Sandy"
    ensures s.plants[1].lastAlert == 0.0 && s.plants[2].lastAlert == 0.0
  {
    Store(map[1 := NewPlant("A", "Loamy"), 2 := NewPlant("B", "Sandy")], 3)
  }

  /** A reading of 8 is at or below both cutoffs (25 and 10): both plants
      alert, each notification carrying the new reading. */
  lemma ScenarioFirstReading(t: real, dry: SensorData)
    requires t > 3600.0 && dry.soilMoisture == 8
    ensures var r := ApplySample(ScenarioStart(), dry, t);
      && SentIds(r.sent) == {1, 2}
      && (forall k :: 0 <= k < |r.sent| ==> r.sent[k].reading == dry)
      && r.store.plants[1].lastAlert == t && r.store.plants[2].lastAlert == t
  {
    var s0 := ScenarioStart();
    var r := ApplySample(s0, dry, t);
    assert ShouldAlert(s0.plants[1], 8, t) && ShouldAlert(s0.plants[2], 8, t);
    assert SentIds(r.sent) == {1, 2};
  }

  /** Right after both alerted, the same dry reading alerts neither. */
  lemma ScenarioRepeat(s: Store, t: real, dry: SensorData)
    requires Valid(s) && s.plants.Keys == {1, 2}
    requires s.plants[1].lastAlert == t && s.plants[2].lastAlert == t
    ensures ApplySample(s, dry, t).sent == []
  {
    var r := ApplySample(s, dry, t);
    assert SentIds(r.sent) == {};
    NoSentIdsNoneSent(r.sent);
  }

  /** A reading of 50 is above both cutoffs: no alert however long it has
      been, yet both plants take the reading. */
  lemma ScenarioWet(s: Store, t: real, wet: SensorData)
    requires Valid(s) && s.plants.Keys == {1, 2}
    requires s.plants[1].soil == "Loamy" && s.plants[2].soil == "Sandy"
    requires wet.soilMoisture == 50
    ensures var r := ApplySample(s, wet, t);
      r.sent == [] && r.store.plants[1].sensorData == wet && r.store.plants[2].sensorData == wet
  {
    var r := ApplySample(s, wet, t);
    assert !ShouldAlert(s.plants[1], 50, t) && !ShouldAlert(s.plants[2], 50, t);
    assert SentIds(r.sent) == {};
    NoSentIdsNoneSent(r.sent);
  }

  /** The whole scenario: alert both, then neither at once, then neither an
      hour and a second later on a wet reading that still reaches both. */
  lemma EndToEndScenario(t: real, temp: Float, hum: Float)
    requires t > 3600.0
    ensures
      var dry, wet := SensorData(8, temp, hum), SensorData(50, temp, hum);
      var r1 := ApplySample(ScenarioStart(), dry, t);
      var r2 := ApplySample(r1.store, dry, t);
      var r3 := ApplySample(r2.store, wet, t + 3601.0);
      && SentIds(r1.sent) == {1, 2}
      && r2.sent == []
      && r3.sent == []
      && r3.store.plants[1].sensorData == wet
      && r3.store.plants[2].sensorData == wet
  {
    var dry, wet := SensorData(8, temp, hum), SensorData(50, temp, hum);
    ScenarioFirstReading(t, dry);
    var r1 := ApplySample(ScenarioStart(), dry, t);
    ScenarioRepeat(r1.store, t, dry);
    var r2 := ApplySample(r1.store, dry, t);
    ScenarioWet(r2.store, t + 3601.0, wet);
  }
}
