/**
 * The control endpoints of routes/api.py as one state machine: a registry of
 * controls keyed by document id and an append-only audit log, changed by a
 * single toggle, a bulk mode change and an emergency stop, and read by the
 * state listing. Each handler is one atomic step.
 */
module ControlApi {
  import opened Wrappers
  import opened Models
  import opened Interlocks

  type Registry = map<string, ControlStatus>

  datatype ToggleResult =
    | Toggled(newState: bool)
    | Blocked(message: string)
    | NotFound
    | ServerError   // an exception escaped the handler

  /** The HTTP status the handler answers with. */
  function StatusCode(r: ToggleResult): (code: int)
    ensures code == 200 <==> r.Toggled?
    ensures code == 403 <==> r.Blocked?
    ensures code == 404 <==> r.NotFound?
  {
    match r
    case Toggled(_) => 200
    case Blocked(_) => 403
    case NotFound => 404
    case ServerError => 500
  }

  /** Every document holds the control named by its id (controls are seeded with `document(name)`). */
  ghost predicate Registered(controls: Registry) {
    forall k :: k in controls ==> controls[k].name == k && controls[k].id == k
  }

  /** The two pH dosers are never on together. */
  ghost predicate NoSimultaneousDosing(controls: Registry) {
    !("ph_up_pump" in controls && "ph_down_pump" in controls
      && controls["ph_up_pump"].isOn && controls["ph_down_pump"].isOn)
  }

  /** `sensor_val`: the latest reading's dictionary, or `{}` when there is none. */
  function SensorValues(latest: Option<SensorData>): (d: map<string, Value>)
    ensures latest == None ==> d == map[]
    ensures latest.Some? ==> d == SensorToDict(latest.value)
  {
    match latest
    case None => map[]
    case Some(s) => SensorToDict(s)
  }

  /** The answer to a toggle request. */
  function ToggleOutcome(controls: Registry, name: string, state: bool, latest: Option<SensorData>): (r: ToggleResult)
    ensures r == NotFound <==> name !in controls
    ensures r.Toggled? ==> r.newState == state
    ensures r.Toggled? <==> name in controls && Evaluate(controls, name, state, SensorValues(latest)) == Allow
    ensures r == ServerError <==> name in controls && Evaluate(controls, name, state, SensorValues(latest)) == Fault
    ensures r.Blocked? <==> name in controls && Evaluate(controls, name, state, SensorValues(latest)).Deny?
    ensures r.Blocked? ==> r.message == Evaluate(controls, name, state, SensorValues(latest)).message
  {
    if name !in controls then NotFound
    else match Evaluate(controls, name, state, SensorValues(latest))
      case Allow => Toggled(state)
      case Deny(_, message) => Blocked(message)
      case Fault => ServerError
  }

  /** The log entry of an accepted toggle. */
  function ToggleEntry(name: string, state: bool, now: Timestamp): (l: ControlLog)
    ensures l.controlName == name && l.trigger == "manual"
    ensures l.action == "ON" <==> state
    ensures l.action == "OFF" <==> !state
  {
    NewControlLog(now, name, if state then "ON" else "OFF", "manual", Some("User toggled via UI"))
  }

  /** The registry and log after a toggle request. */
  function ToggleStep(controls: Registry, log: seq<ControlLog>, name: string, state: bool,
                      latest: Option<SensorData>, now: Timestamp): (r: (Registry, seq<ControlLog>))
    ensures r.0.Keys == controls.Keys
    ensures forall k :: k in controls && k != name ==> r.0[k] == controls[k]
    ensures |r.1| == |log| + 1 <==> ToggleOutcome(controls, name, state, latest).Toggled?
    ensures |log| <= |r.1| <= |log| + 1 && r.1[..|log|] == log
  {
    if ToggleOutcome(controls, name, state, latest).Toggled? then
      var c := controls[name];
      (controls[name := c.(isOn := state, lastActive := if state then Some(now) else c.lastActive)],
       log + [ToggleEntry(name, state, now)])
    else (controls, log)
  }

  /** A refused, unknown or failed request changes neither the registry nor the log. */
  lemma RefusedToggleChangesNothing(controls: Registry, log: seq<ControlLog>, name: string, state: bool,
                                    latest: Option<SensorData>, now: Timestamp)
    requires !ToggleOutcome(controls, name, state, latest).Toggled?
    ensures ToggleStep(controls, log, name, state, latest, now) == (controls, log)
  {
  }

  /**
   * An accepted toggle sets `is_on`, stamps `last_active` only when switching
   * on, touches no other field and no other control, and appends exactly one
   * log entry naming the control and the applied action.
   */
  lemma AcceptedToggleEffect(controls: Registry, log: seq<ControlLog>, name: string, state: bool,
                             latest: Option<SensorData>, now: Timestamp)
    requires ToggleOutcome(controls, name, state, latest).Toggled?
    ensures var (controls', log') := ToggleStep(controls, log, name, state, latest, now);
      && controls'.Keys == controls.Keys
      && controls'[name].isOn == state
      && controls'[name].lastActive == (if state then Some(now) else controls[name].lastActive)
      && controls'[name].(isOn := controls[name].isOn, lastActive := controls[name].lastActive) == controls[name]
      && (forall k :: k in controls && k != name ==> controls'[k] == controls[k])
      && |log'| == |log| + 1 && log'[..|log|] == log
      && log'[|log|].controlName == name
      && log'[|log|].action == (if state then "ON" else "OFF")
      && log'[|log|].trigger == "manual"
  {
  }

  /** A locked control that is off stays off through any toggle request, on it or on another control. */
  lemma LockedStaysOff(controls: Registry, log: seq<ControlLog>, name: string, state: bool,
                       latest: Option<SensorData>, now: Timestamp, k: string)
    requires k in controls && controls[k].locked && !controls[k].isOn
    ensures var (controls', _) := ToggleStep(controls, log, name, state, latest, now);
      k in controls' && !controls'[k].isOn
  {
  }

  /** No toggle request can leave both pH dosers on. */
  lemma ToggleKeepsDosersExclusive(controls: Registry, log: seq<ControlLog>, name: string, state: bool,
                                   latest: Option<SensorData>, now: Timestamp)
    requires NoSimultaneousDosing(controls)
    ensures NoSimultaneousDosing(ToggleStep(controls, log, name, state, latest, now).0)
  {
    DosersArePaired();
  }

  /** Toggling keeps every document under its own name. */
  lemma ToggleKeepsRegistered(controls: Registry, log: seq<ControlLog>, name: string, state: bool,
                              latest: Option<SensorData>, now: Timestamp)
    requires Registered(controls)
    ensures Registered(ToggleStep(controls, log, name, state, latest, now).0)
  {
  }

  /** Every control with `mode` set to the given value (the value is not validated). */
  function WithMode(controls: Registry, mode: Value): (r: Registry)
    ensures r.Keys == controls.Keys
    ensures forall k :: k in r ==> r[k].mode == mode && r[k].(mode := controls[k].mode) == controls[k]
  {
    map k | k in controls :: controls[k].(mode := mode)
  }

  /** The names of the controls that are on. */
  function OnNames(controls: Registry): (s: set<string>)
    ensures forall k :: k in s <==> k in controls && controls[k].isOn
  {
    set k | k in controls && controls[k].isOn
  }

  /** Every control off; nothing else changes. */
  function StopAll(controls: Registry): (r: Registry)
    ensures r.Keys == controls.Keys
    ensures forall k :: k in r ==> !r[k].isOn && r[k].(isOn := controls[k].isOn) == controls[k]
  {
    map k | k in controls :: controls[k].(isOn := false)
  }

  function StopEntry(name: string, now: Timestamp): (l: ControlLog)
    ensures l.controlName == name && l.action == "OFF" && l.trigger == "emergency"
  {
    NewControlLog(now, name, "OFF", "emergency", Some("Emergency Stop Triggered"))
  }

  /** The emergency-stop log entries for `names`, in that order. */
  function StopEntries(names: seq<string>, now: Timestamp): (ls: seq<ControlLog>)
    ensures |ls| == |names|
  {
    if names == [] then []
    else StopEntries(names[..|names| - 1], now) + [StopEntry(names[|names| - 1], now)]
  }

  /** Entry i of the emergency-stop log is the OFF/emergency record of the i-th stopped control. */
  lemma {:induction false} StopEntriesAt(names: seq<string>, now: Timestamp, i: nat)
    requires i < |names|
    ensures StopEntries(names, now)[i] == StopEntry(names[i], now)
  {
    if i < |names| - 1 {
      StopEntriesAt(names[..|names| - 1], now, i);
    }
  }

  predicate NoDups(s: seq<string>) {
    forall i, j :: 0 <= i < j < |s| ==> s[i] != s[j]
  }

  function Elems(s: seq<string>): set<string> {
    set x | x in s
  }

  lemma ElemsSnoc(s: seq<string>, x: string)
    ensures Elems(s + [x]) == Elems(s) + {x}
  {
  }

  lemma StopEntriesSnoc(names: seq<string>, x: string, now: Timestamp)
    ensures StopEntries(names + [x], now) == StopEntries(names, now) + [StopEntry(x, now)]
  {
    assert (names + [x])[..|names|] == names;
  }

  /** The registry with the controls in `names` switched off. */
  function StopSome(controls: Registry, names: set<string>): Registry {
    map k | k in controls :: if k in names then controls[k].(isOn := false) else controls[k]
  }

  lemma StopSomeAdd(controls: Registry, names: set<string>, k: string)
    requires k in controls && k !in names
    ensures k in StopSome(controls, names)
    ensures StopSome(controls, names + {k})
         == StopSome(controls, names)[k := StopSome(controls, names)[k].(isOn := false)]
  {
  }

  /** Switching off exactly the controls that are on is switching off every control. */
  lemma StopSomeActive(controls: Registry)
    ensures StopSome(controls, OnNames(controls)) == StopAll(controls)
  {
  }

  lemma NoDupsSnoc(s: seq<string>, x: string)
    requires NoDups(s) && x !in Elems(s)
    ensures NoDups(s + [x])
  {
  }

  /** One step of the emergency-stop sweep keeps its loop invariant. */
  lemma StopStep(controls: Registry, stopped: seq<string>, active: set<string>, k: string, now: Timestamp)
    requires active !! Elems(stopped) && active + Elems(stopped) == OnNames(controls)
    requires NoDups(stopped) && k in active
    ensures (active - {k}) !! Elems(stopped + [k]) && (active - {k}) + Elems(stopped + [k]) == OnNames(controls)
    ensures NoDups(stopped + [k])
    ensures k in StopSome(controls, Elems(stopped))
    ensures StopSome(controls, Elems(stopped + [k]))
         == StopSome(controls, Elems(stopped))[k := StopSome(controls, Elems(stopped))[k].(isOn := false)]
    ensures StopEntries(stopped + [k], now) == StopEntries(stopped, now) + [StopEntry(k, now)]
  {
    ElemsSnoc(stopped, k);
    NoDupsSnoc(stopped, k);
    StopSomeAdd(controls, Elems(stopped), k);
    StopEntriesSnoc(stopped, k, now);
  }

  /** A list without repetitions has as many elements as its set. */
  lemma {:induction false} NoDupsCard(s: seq<string>)
    requires NoDups(s)
    ensures |Elems(s)| == |s|
  {
    if s != [] {
      var t := s[..|s| - 1];
      assert NoDups(t);
      NoDupsCard(t);
      assert Elems(s) == Elems(t) + {s[|s| - 1]};
      assert s[|s| - 1] !in Elems(t);
    }
  }

  /** Stopping leaves nothing on, so a second emergency stop finds nothing to stop. */
  lemma StopAllLeavesNothingOn(controls: Registry)
    ensures OnNames(StopAll(controls)) == {}
    ensures StopAll(StopAll(controls)) == StopAll(controls)
  {
  }

  /** Neither bulk operation can leave both pH dosers on or move a control to another key. */
  lemma BulkKeepsInvariants(controls: Registry, mode: Value)
    requires NoSimultaneousDosing(controls) && Registered(controls)
    ensures NoSimultaneousDosing(WithMode(controls, mode)) && Registered(WithMode(controls, mode))
    ensures NoSimultaneousDosing(StopAll(controls)) && Registered(StopAll(controls))
  {
  }

  /**
   * The toggle as written: the sensor query names `firestore`, which the
   * module never imports, so every request that gets past the lock check
   * ends in a NameError.
   */
  function ToggleOutcomeAsWritten(controls: Registry, name: string, state: bool): (r: ToggleResult)
    ensures !r.Toggled?
    ensures r == NotFound <==> name !in controls
    ensures r == ServerError <==> name in controls && !LockFires(controls[name], state)
    ensures r.Blocked? ==> name in controls && r.message == LockMessageAsWritten(controls[name])
  {
    if name !in controls then NotFound
    else if LockFires(controls[name], state) then Blocked(LockMessageAsWritten(controls[name]))
    else ServerError
  }

  /** A pump with plenty of water cannot be switched on as written; the model with the reading as input allows it. */
  lemma SensorQueryFinding(now: Timestamp)
    ensures var controls := map["n_pump" := NewControlStatus("n_pump")];
      var latest := Some(NewSensorData(now, map["water_level" := Num(50.0)]));
      && ToggleOutcomeAsWritten(controls, "n_pump", true) == ServerError
      && ToggleOutcome(controls, "n_pump", true, latest) == Toggled(true)
  {
    var controls := map["n_pump" := NewControlStatus("n_pump")];
    var sensorVal := SensorValues(Some(NewSensorData(now, map["water_level" := Num(50.0)])));
    assert WaterLevel(sensorVal) == Some(50.0);
    assert !IsPhDoser("n_pump") by {
      ContainsIffOccurs("n_pump", "ph");
      forall i | 0 <= i < 5 ensures !OccursAt("n_pump", "ph", i) {
        assert "n_pump"[i..i + 2] == ["n_pump"[i], "n_pump"[i + 1]];
      }
    }
  }

  /** A control locked without a reason shows "None" as written, the default message in the model. */
  lemma LockReasonFinding(name: string, latest: Option<SensorData>)
    ensures var controls := map[name := NewControlStatus(name, locked := true)];
      && ToggleOutcomeAsWritten(controls, name, true) == Blocked("Action Blocked: None")
      && ToggleOutcome(controls, name, true, latest) == Blocked("Action Blocked: Safety Lock Active")
  {
    var c := NewControlStatus(name, locked := true);
    var controls := map[name := c];
    LockMessageAsWrittenIgnoresDefault(c);
    assert ToggleOutcomeAsWritten(controls, name, true) == Blocked(LockMessageAsWritten(c));
    assert Evaluate(controls, name, true, SensorValues(latest)) == Deny(LockRule, LockMessage(c));
    assert LockMessage(c) == BlockedPrefix + DefaultLockReason == "Action Blocked: Safety Lock Active";
  }

  /**
   * The emergency-stop sweep: visits the controls that are on (the
   * `is_on == True` query), stages `is_on = False` for each in a batch and
   * records one log entry per control, counting them.
   */
  method StopActive(controls: Registry, now: Timestamp)
    returns (batch: Registry, entries: seq<ControlLog>, count: nat, ghost stopped: seq<string>)
    ensures batch == StopAll(controls)
    ensures count == |OnNames(controls)| && count == |entries|
    ensures NoDups(stopped) && Elems(stopped) == OnNames(controls)
    ensures entries == StopEntries(stopped, now)
  {
    batch := controls;
    entries := [];
    var active := OnNames(controls);
    count := 0;
    stopped := [];
    while active != {}
      invariant active !! Elems(stopped) && active + Elems(stopped) == OnNames(controls)
      invariant NoDups(stopped) && count == |stopped|
      invariant batch == StopSome(controls, Elems(stopped))
      invariant entries == StopEntries(stopped, now)
      decreases active
    {
      var k :| k in active;
      StopStep(controls, stopped, active, k, now);
      batch := batch[k := batch[k].(isOn := false)];
      entries := entries + [StopEntry(k, now)];
      count := count + 1;
      stopped := stopped + [k];
      active := active - {k};
    }
    NoDupsCard(stopped);
    StopSomeActive(controls);
  }

  /** The registry and audit log behind the control endpoints. */
  class ControlService {
    var controls: Registry
    var log: seq<ControlLog>

    constructor (controls: Registry, log: seq<ControlLog>)
      ensures this.controls == controls && this.log == log
    {
      this.controls := controls;
      this.log := log;
    }

    /**
     * POST /api/controls: look the control up, run the lock, run-dry and pH
     * checks in that order, then apply the change and log it.
     */
    method Toggle(name: string, state: bool, latest: Option<SensorData>, now: Timestamp) returns (r: ToggleResult)
      modifies this
      ensures r == ToggleOutcome(old(controls), name, state, latest)
      ensures (controls, log) == ToggleStep(old(controls), old(log), name, state, latest, now)
    {
      if name !in controls {
        return NotFound;
      }
      var c := controls[name];
      if c.locked && state {
        return Blocked(LockMessage(c));
      }
      var sensorVal := SensorValues(latest);
      if IsPump(name) {
        var level := WaterLevel(sensorVal);
        if level.None? {
          return ServerError;
        }
        if level.value < LowWaterLevel {
          return Blocked(RunDryMessage);
        }
      }
      if IsPhDoser(name) {
        var opposite := Opposite(name);
        if opposite in controls && controls[opposite].isOn && state {
          return Blocked(DosingMessage);
        }
      }
      var updated := c.(isOn := state);
      if state {
        updated := updated.(lastActive := Some(now));
      }
      controls := controls[name := updated];
      log := log + [ToggleEntry(name, state, now)];
      r := Toggled(state);
    }

    /** GET /api/controls: each document's `name` mapped to its `is_on`. */
    method States() returns (res: map<string, bool>)
      ensures forall k :: k in controls ==> controls[k].name in res
      ensures forall n :: n in res ==> exists k :: k in controls && controls[k].name == n && controls[k].isOn == res[n]
      ensures Registered(controls) ==> res == map k | k in controls :: controls[k].isOn
    {
      res := map[];
      var pending := controls.Keys;
      while pending != {}
        invariant pending <= controls.Keys
        invariant forall k :: k in controls && k !in pending ==> controls[k].name in res
        invariant forall n :: n in res ==>
          exists k :: k in controls && k !in pending && controls[k].name == n && controls[k].isOn == res[n]
        invariant Registered(controls) ==> res.Keys == controls.Keys - pending
        decreases pending
      {
        var k :| k in pending;
        var d := ControlToDict(controls[k]);
        assert d["name"] == Str(controls[k].name) && d["is_on"] == Bool(controls[k].isOn);
        ghost var prev := res;
        res := res[d["name"].s := d["is_on"].b];
        pending := pending - {k};
        forall n | n in res
          ensures exists k' :: k' in controls && k' !in pending && controls[k'].name == n && controls[k'].isOn == res[n]
        {
          if n == controls[k].name {
            assert k !in pending;
          } else {
            assert n in prev && res[n] == prev[n];
          }
        }
      }
    }

    /** POST /api/controls/mode: every control gets `mode`; the log is untouched. */
    method SetAllModes(mode: Value)
      modifies this
      ensures controls == WithMode(old(controls), mode)
      ensures log == old(log)
    {
      var pending := controls.Keys;
      while pending != {}
        invariant controls.Keys == old(controls).Keys && pending <= controls.Keys
        invariant forall k :: k in controls ==>
          controls[k] == if k in pending then old(controls)[k] else old(controls)[k].(mode := mode)
        invariant log == old(log)
        decreases pending
      {
        var k :| k in pending;
        controls := controls[k := controls[k].(mode := mode)];
        pending := pending - {k};
      }
    }

    /**
     * POST /api/controls/emergency-stop: every control that is on is switched
     * off, bypassing all interlocks, with one `OFF`/`emergency` log entry each;
     * `count` is how many were stopped and `stopped` the order they were visited.
     */
    method EmergencyStop(now: Timestamp) returns (count: nat, ghost stopped: seq<string>)
      modifies this
      ensures controls == StopAll(old(controls))
      ensures count == |OnNames(old(controls))|
      ensures NoDups(stopped) && Elems(stopped) == OnNames(old(controls))
      ensures log == old(log) + StopEntries(stopped, now)
    {
      var batch, entries;
      batch, entries, count, stopped := StopActive(controls, now);
      controls := batch;
      log := log + entries;
    }
  }
}
