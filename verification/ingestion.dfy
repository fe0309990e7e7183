/** What both sample sources do with a reading once it has converted: write
    it into every plant, then walk the plants and alert each dry one whose
    cooldown has run out. The notifier is modelled as the emitted sequence of
    notifications; the clock is the parameter `now`. */
module Ingestion {
  import opened Plants
  import Thresholds

  /** Minimum seconds between two alerts for the same plant. */
  const CooldownSeconds: real := 3600.0

  /** Moisture at or below the soil's cutoff is dry. */
  predicate IsDry(moisture: int, soil: string) {
    moisture <= Thresholds.DryThreshold(soil)
  }

  /** Strictly more than the cooldown has passed since the last alert. */
  predicate CooldownOver(lastAlert: real, now: real) {
    now - lastAlert > CooldownSeconds
  }

  /** The alert condition for one plant. */
  predicate ShouldAlert(p: Plant, moisture: int, now: real) {
    IsDry(moisture, p.soil) && CooldownOver(p.lastAlert, now)
  }

  /** What the notifier is handed: the plant as it stands when the alert fires. */
  datatype Notification = Notification(id: nat, name: string, soil: string, reading: SensorData)

  /** The ids the notifications went to. */
  function SentIds(sent: seq<Notification>): set<nat> {
    set k | 0 <= k < |sent| :: sent[k].id
  }

  lemma SentIdsCons(note: Notification, rest: seq<Notification>)
    ensures SentIds([note] + rest) == {note.id} + SentIds(rest)
  {
    var sent := [note] + rest;
    forall id | id in SentIds(rest) ensures id in SentIds(sent) {
      var k :| 0 <= k < |rest| && rest[k].id == id;
      assert sent[k + 1] == rest[k];
    }
    assert sent[0] == note;
  }

  predicate Ascending(ids: seq<nat>) {
    forall i, j :: 0 <= i < j < |ids| ==> ids[i] < ids[j]
  }

  predicate SentAscending(sent: seq<Notification>) {
    forall i, j :: 0 <= i < j < |sent| ==> sent[i].id < sent[j].id
  }

  /** Reference definition of one plant's evaluation, on its own: it takes the
      sample, and its alert time moves to `now` exactly when it alerts. */
  function Evaluated(p: Plant, sample: SensorData, now: real): (q: Plant)
    ensures q.sensorData == sample
    ensures q.name == p.name && q.soil == p.soil
    ensures q.lastWatered == p.lastWatered && q.wateringLogs == p.wateringLogs
    ensures q.lastAlert == (if ShouldAlert(p, sample.soilMoisture, now) then now else p.lastAlert)
  {
    var current := p.(sensorData := sample);
    if ShouldAlert(current, sample.soilMoisture, now) then current.(lastAlert := now) else current
  }

  /** The ids in use below `n`, in ascending order. Ids are handed out by an
      increasing counter and never re-inserted, so this is also the order in
      which the table iterates its plants. */
  function IdsBelow(plants: map<nat, Plant>, n: nat): (ids: seq<nat>)
    ensures Ascending(ids)
    ensures forall k :: 0 <= k < |ids| ==> ids[k] < n
    ensures forall id :: id in ids <==> id in plants && id < n
    decreases n
  {
    if n == 0 then []
    else IdsBelow(plants, n - 1) + (if n - 1 in plants then [n - 1] else [])
  }

  /** The first loop: every plant's reading is overwritten with the same sample. */
  function OverwriteAll(plants: map<nat, Plant>, sample: SensorData): (r: map<nat, Plant>)
    ensures r.Keys == plants.Keys
    ensures forall id :: id in r ==> r[id] == plants[id].(sensorData := sample)
  {
    map id | id in plants :: plants[id].(sensorData := sample)
  }

  datatype Pass = Pass(plants: map<nat, Plant>, sent: seq<Notification>)

  /** The second loop, one plant at a time in table order: a plant that should
      alert is handed to the notifier and then has its alert time set, whatever
      became of the delivery. */
  function AlertLoop(plants: map<nat, Plant>, ids: seq<nat>, moisture: int, now: real): (r: Pass)
    requires forall k :: 0 <= k < |ids| ==> ids[k] in plants
    ensures r.plants.Keys == plants.Keys
    decreases |ids|
  {
    if |ids| == 0 then Pass(plants, [])
    else
      var id := ids[0];
      var p := plants[id];
      if ShouldAlert(p, moisture, now) then
        var rest := AlertLoop(plants[id := p.(lastAlert := now)], ids[1..], moisture, now);
        Pass(rest.plants, [Notification(id, p.name, p.soil, p.sensorData)] + rest.sent)
      else
        AlertLoop(plants, ids[1..], moisture, now)
  }

  /** The loop evaluates each listed plant on its own: a listed plant ends up
      with its alert time moved to `now` exactly when it should alert, and a
      plant not listed is untouched. */
  lemma {:induction false} AlertLoopPlants(plants: map<nat, Plant>, ids: seq<nat>, moisture: int, now: real)
    requires forall k :: 0 <= k < |ids| ==> ids[k] in plants
    requires Ascending(ids)
    ensures var r := AlertLoop(plants, ids, moisture, now);
      && (forall id :: id in plants && id !in ids ==> r.plants[id] == plants[id])
      && (forall id :: id in plants && id in ids ==>
            r.plants[id] == (if ShouldAlert(plants[id], moisture, now) then plants[id].(lastAlert := now) else plants[id]))
    decreases |ids|
  {
    if |ids| > 0 {
      var id := ids[0];
      var p := plants[id];
      var next := if ShouldAlert(p, moisture, now) then plants[id := p.(lastAlert := now)] else plants;
      assert id !in ids[1..];
      AlertLoopPlants(next, ids[1..], moisture, now);
      assert forall x :: x in ids <==> x == id || x in ids[1..];
    }
  }

  /** The loop notifies exactly the listed plants that should alert, each with
      the plant as it stood, in list order. */
  lemma {:induction false} AlertLoopSent(plants: map<nat, Plant>, ids: seq<nat>, moisture: int, now: real)
    requires forall k :: 0 <= k < |ids| ==> ids[k] in plants
    requires Ascending(ids)
    ensures var r := AlertLoop(plants, ids, moisture, now);
      && (forall id :: id in SentIds(r.sent) <==> id in ids && ShouldAlert(plants[id], moisture, now))
      && (forall k :: 0 <= k < |r.sent| ==>
            var id := r.sent[k].id;
            id in plants && r.sent[k] == Notification(id, plants[id].name, plants[id].soil, plants[id].sensorData))
    decreases |ids|
  {
    if |ids| > 0 {
      var id := ids[0];
      var p := plants[id];
      assert id !in ids[1..];
      assert forall x :: x in ids <==> x == id || x in ids[1..];
      if ShouldAlert(p, moisture, now) {
        var next := plants[id := p.(lastAlert := now)];
        AlertLoopSent(next, ids[1..], moisture, now);
        var rest := AlertLoop(next, ids[1..], moisture, now);
        var note := Notification(id, p.name, p.soil, p.sensorData);
        var sent := [note] + rest.sent;
        assert AlertLoop(plants, ids, moisture, now).sent == sent;
        SentIdsCons(note, rest.sent);
        assert forall k :: 0 < k < |sent| ==> sent[k] == rest.sent[k - 1];
      } else {
        AlertLoopSent(plants, ids[1..], moisture, now);
      }
    }
  }

  /** The notifications of one pass come out in the order of the ids walked,
      none before the first of them. */
  lemma {:induction false} AlertLoopOrder(plants: map<nat, Plant>, ids: seq<nat>, moisture: int, now: real)
    requires forall k :: 0 <= k < |ids| ==> ids[k] in plants
    requires Ascending(ids)
    ensures var r := AlertLoop(plants, ids, moisture, now);
      && SentAscending(r.sent)
      && (forall k :: 0 <= k < |r.sent| ==> ids[0] <= r.sent[k].id)
    decreases |ids|
  {
    if |ids| > 0 {
      var id := ids[0];
      var p := plants[id];
      if ShouldAlert(p, moisture, now) {
        var next := plants[id := p.(lastAlert := now)];
        AlertLoopOrder(next, ids[1..], moisture, now);
        var rest := AlertLoop(next, ids[1..], moisture, now);
        var sent := [Notification(id, p.name, p.soil, p.sensorData)] + rest.sent;
        assert AlertLoop(plants, ids, moisture, now).sent == sent;
        assert forall k :: 0 < k < |sent| ==> sent[k] == rest.sent[k - 1];
        if |ids| == 1 {
          assert rest.sent == [];
        }
      } else {
        AlertLoopOrder(plants, ids[1..], moisture, now);
        if |ids| == 1 {
          assert AlertLoop(plants, ids[1..], moisture, now).sent == [];
        }
      }
    }
  }

  /** Store and notifications after one sample has been applied. */
  datatype Applied = Applied(store: Store, sent: seq<Notification>)

  /** Applying a converted sample: every plant ends up with exactly this sample
      and with what its own evaluation gives, whatever the other plants are;
      no plant appears or disappears; a notification goes out, in table order,
      for exactly the plants that were dry and out of cooldown, carrying the
      new sample, and each of those plants has its alert time set to `now`. */
  function ApplySample(s: Store, sample: SensorData, now: real): (r: Applied)
    requires Valid(s)
    ensures Valid(r.store)
    ensures r.store.counter == s.counter
    ensures r.store.plants.Keys == s.plants.Keys
    ensures forall id :: id in s.plants ==> r.store.plants[id] == Evaluated(s.plants[id], sample, now)
    ensures forall id :: id in s.plants ==>
      (id in SentIds(r.sent) <==> ShouldAlert(s.plants[id], sample.soilMoisture, now))
    ensures SentIds(r.sent) <= s.plants.Keys
    ensures SentAscending(r.sent)
    ensures forall k :: 0 <= k < |r.sent| ==>
      var id := r.sent[k].id;
      && id in s.plants
      && r.sent[k] == Notification(id, s.plants[id].name, s.plants[id].soil, sample)
      && r.store.plants[id].lastAlert == now
  {
    var current := OverwriteAll(s.plants, sample);
    var ids := IdsBelow(s.plants, s.counter);
    var pass := AlertLoop(current, ids, sample.soilMoisture, now);
    AlertLoopPlants(current, ids, sample.soilMoisture, now);
    AlertLoopSent(current, ids, sample.soilMoisture, now);
    AlertLoopOrder(current, ids, sample.soilMoisture, now);
    Applied(Store(pass.plants, s.counter), pass.sent)
  }

  /** Every plant holds the very same reading afterwards, whatever its soil. */
  lemma SameReadingEverywhere(s: Store, sample: SensorData, now: real, a: nat, b: nat)
    requires Valid(s)
    requires a in s.plants && b in s.plants
    ensures var t := ApplySample(s, sample, now).store;
      t.plants[a].sensorData == t.plants[b].sensorData == sample
  {
  }

  /** The edges of the alert rule: moisture equal to the cutoff is dry; an
      elapsed time of exactly the cooldown does not alert, a moment more does. */
  lemma AlertBoundaries(p: Plant, now: real)
    ensures IsDry(Thresholds.DryThreshold(p.soil), p.soil)
    ensures !IsDry(Thresholds.DryThreshold(p.soil) + 1, p.soil)
    ensures !ShouldAlert(p.(lastAlert := now - 3600.0), Thresholds.DryThreshold(p.soil), now)
    ensures ShouldAlert(p.(lastAlert := now - 3600.5), Thresholds.DryThreshold(p.soil), now)
  {
  }

  /** A plant that has never alerted (alert time 0) alerts on its first dry
      reading, for any clock reading past the first hour of the epoch. */
  lemma FirstDryReadingAlerts(s: Store, sample: SensorData, now: real, id: nat)
    requires Valid(s)
    requires id in s.plants && s.plants[id].lastAlert == 0.0
    requires sample.soilMoisture <= Thresholds.DryThreshold(s.plants[id].soil)
    requires now > 3600.0
    ensures var r := ApplySample(s, sample, now);
      id in SentIds(r.sent) && r.store.plants[id].lastAlert == now
  {
  }

  /** An alert time only moves forward: it changes only when more than the
      cooldown has passed since it, so the new value is later. */
  lemma LastAlertNeverDecreases(s: Store, sample: SensorData, now: real, id: nat)
    requires Valid(s)
    requires id in s.plants
    ensures ApplySample(s, sample, now).store.plants[id].lastAlert >= s.plants[id].lastAlert
  {
  }

  /** One plant's outcome depends on that plant alone: two tables holding the
      same record under an id give that id the same record and the same
      notification decision, however their other plants differ. */
  lemma AlertsIndependent(s1: Store, s2: Store, sample: SensorData, now: real, id: nat)
    requires Valid(s1) && Valid(s2)
    requires id in s1.plants && id in s2.plants && s1.plants[id] == s2.plants[id]
    ensures var r1, r2 := ApplySample(s1, sample, now), ApplySample(s2, sample, now);
      && r1.store.plants[id] == r2.store.plants[id]
      && (id in SentIds(r1.sent) <==> id in SentIds(r2.sent))
  {
  }

  /** The cooldown: once a plant has alerted at `t1`, a later dry sample
      within the hour (elapsed time at most 3600 s) does not alert it again,
      while one more than an hour later does. */
  lemma CooldownBetweenSamples(s: Store, first: SensorData, second: SensorData, t1: real, t2: real, id: nat)
    requires Valid(s)
    requires id in s.plants
    requires id in SentIds(ApplySample(s, first, t1).sent)
    requires IsDry(second.soilMoisture, s.plants[id].soil)
    ensures var mid := ApplySample(s, first, t1).store;
      var r := ApplySample(mid, second, t2);
      (id in SentIds(r.sent) <==> t2 - t1 > 3600.0)
  {
  }
}
