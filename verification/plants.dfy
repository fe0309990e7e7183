/** The in-memory plant table (`plants` and `plant_id_counter`) and the three
    handlers that change it directly: add, delete and water. */
module Plants {
  import opened Wrappers
  import opened Numbers

  /** One reading, `new_data` in the handlers: moisture is an int, the other two floats. */
  datatype SensorData = SensorData(soilMoisture: int, temperature: Float, humidity: Float)

  /** The reading a plant starts with. */
  const ZeroReading: SensorData := SensorData(0, Finite(0.0), Finite(0.0))

  /** A watering time as the handler formats it ("%Y-%m-%d %H:%M:%S"), whole seconds. */
  type Stamp = string

  /** A plant record. `wateringLogs` maps a stamp to the entry written under it;
      `lastAlert` is the clock reading (seconds) of the last dryness alert. */
  datatype Plant = Plant(
    name: string,
    soil: string,
    sensorData: SensorData,
    lastWatered: Option<Stamp>,
    wateringLogs: map<Stamp, Stamp>,
    lastAlert: real)

  /** The table of plants by id together with the next id to hand out. */
  datatype Store = Store(plants: map<nat, Plant>, counter: nat)

  /** The table's invariant: every id in use was handed out by the counter, so
      it lies below it; hence ids grow in insertion order and a fresh id is
      never in use. */
  ghost predicate Valid(s: Store) {
    forall id :: id in s.plants ==> id < s.counter
  }

  /** HTTP status codes the handlers answer with. */
  const Ok: int := 200
  const BadRequest: int := 400
  const NotFound: int := 404

  /** The record a new plant starts with. */
  function NewPlant(name: string, soil: string): Plant {
    Plant(name, soil, ZeroReading, None, map[], 0.0)
  }

  /** The table the program starts with: one demo plant under id 1, counter at 2. */
  function Initial(): (s: Store)
    ensures Valid(s)
    ensures s.plants.Keys == {1} && s.counter == 2
  {
    Store(map[1 := NewPlant("Demo Plant", "Loamy")], 2)
  }

  /** `add_plant`: the new plant goes under the current counter, the counter
      moves up by exactly one, and every other plant is left as it was. */
  function AddPlant(s: Store, name: string, soil: string): (r: Store)
    ensures r.counter == s.counter + 1
    ensures r.plants.Keys == s.plants.Keys + {s.counter}
    ensures s.counter in r.plants
    ensures r.plants[s.counter].name == name && r.plants[s.counter].soil == soil
    ensures r.plants[s.counter].sensorData == SensorData(0, Finite(0.0), Finite(0.0))
    ensures r.plants[s.counter].lastWatered == None
    ensures r.plants[s.counter].wateringLogs == map[]
    ensures r.plants[s.counter].lastAlert == 0.0
    ensures forall id :: id in s.plants && id != s.counter ==> r.plants[id] == s.plants[id]
    ensures Valid(s) ==> Valid(r) && s.counter !in s.plants && |r.plants| == |s.plants| + 1
  {
    Store(s.plants[s.counter := NewPlant(name, soil)], s.counter + 1)
  }

  /** `delete_plant`: the id is gone afterwards; an absent id changes nothing;
      the counter never moves back, so the id is not handed out again. */
  function DeletePlant(s: Store, pid: nat): (r: Store)
    ensures r.counter == s.counter
    ensures r.plants.Keys == s.plants.Keys - {pid}
    ensures forall id :: id in r.plants ==> r.plants[id] == s.plants[id]
    ensures pid !in s.plants ==> r == s
    ensures Valid(s) ==> Valid(r)
  {
    Store(s.plants - {pid}, s.counter)
  }

  datatype Watered = Watered(store: Store, code: int)

  /** `water_plant`: 404 and no change for an absent id; otherwise the log gets
      an entry under the stamp, which is also the last watering time, and no
      other plant or field changes. The log is keyed by the stamp, so two
      waterings within one second leave one entry. */
  function WaterPlant(s: Store, pid: nat, now: Stamp): (r: Watered)
    ensures pid !in s.plants ==> r.code == NotFound && r.store == s
    ensures pid in s.plants ==> r.code == Ok
    ensures r.store.counter == s.counter && r.store.plants.Keys == s.plants.Keys
    ensures forall id :: id in s.plants && id != pid ==> r.store.plants[id] == s.plants[id]
    ensures pid in s.plants ==>
      var p, q := s.plants[pid], r.store.plants[pid];
      && q.lastWatered == Some(now)
      && now in q.wateringLogs && q.wateringLogs[now] == now
      && q.wateringLogs.Keys == p.wateringLogs.Keys + {now}
      && (forall t :: t in p.wateringLogs && t != now ==> q.wateringLogs[t] == p.wateringLogs[t])
      && |q.wateringLogs| == |p.wateringLogs| + (if now in p.wateringLogs then 0 else 1)
      && q == p.(lastWatered := q.lastWatered, wateringLogs := q.wateringLogs)
    ensures Valid(s) ==> Valid(r.store)
  {
    if pid !in s.plants then Watered(s, NotFound)
    else
      var p := s.plants[pid];
      var logs := p.wateringLogs[now := now];
      Watered(Store(s.plants[pid := p.(wateringLogs := logs, lastWatered := Some(now))], s.counter), Ok)
  }

  /** Watering twice within the same second leaves what one watering leaves. */
  lemma WaterSameSecondCollapses(s: Store, pid: nat, now: Stamp)
    ensures WaterPlant(WaterPlant(s, pid, now).store, pid, now).store == WaterPlant(s, pid, now).store
  {
    if pid in s.plants {
      var once := WaterPlant(s, pid, now).store;
      var p := once.plants[pid];
      assert p.wateringLogs[now := now] == p.wateringLogs;
      assert once.plants[pid := p] == once.plants;
    }
  }
}
