/**
 * The records the control engine reads and writes (models.py): a control's
 * status document, an audit-log entry and a sensor reading, with the
 * constructors' defaults and the field-to-dictionary mappings.
 */
module Models {
  import opened Wrappers

  /** An instant from `datetime.utcnow()`; the model only compares instants for equality. */
  type Timestamp = int

  /** A value held in a stored document (what `to_dict` puts in a dictionary). */
  datatype Value =
    | Null
    | Bool(b: bool)
    | Num(r: real)
    | Str(s: string)
    | Time(t: Timestamp)
    | Dict(d: map<string, Value>)

  /** A named actuator. `mode` is whatever the caller sent: the source does not validate it. */
  datatype ControlStatus = ControlStatus(
    id: string,
    name: string,
    isOn: bool,
    settings: map<string, Value>,
    mode: Value,
    locked: bool,
    lockedReason: Option<string>,
    lastActive: Option<Timestamp>)

  /** One audit-log record. */
  datatype ControlLog = ControlLog(
    timestamp: Timestamp,
    controlName: string,
    action: string,
    trigger: string,
    details: Option<string>)

  /** A sensor reading: its arrival time and the raw measurement dictionary. */
  datatype SensorData = SensorData(timestamp: Timestamp, data: map<string, Value>)

  const DefaultMode: Value := Str("manual")
  const DefaultTrigger: string := "manual"

  /** The keys `ControlStatus.to_dict` writes; `id` is not among them. */
  const ControlFields: set<string> :=
    {"name", "is_on", "settings", "mode", "locked", "locked_reason", "last_active"}

  /** The keys `ControlLog.to_dict` writes. */
  const LogFields: set<string> := {"timestamp", "control_name", "action", "trigger", "details"}

  function TextValue(t: Option<string>): Value {
    match t
    case None => Null
    case Some(s) => Str(s)
  }

  function TimeValue(t: Option<Timestamp>): Value {
    match t
    case None => Null
    case Some(s) => Time(s)
  }

  /**
   * `ControlStatus(name, id=None, is_on=False, settings=None, mode='manual',
   * locked=False, locked_reason=None, last_active=None)`. An absent or empty
   * id falls back to the name (`id or name`), an absent settings dictionary
   * becomes `{}` (`settings or {}`).
   */
  function NewControlStatus(
    name: string,
    id: Option<string> := None,
    isOn: bool := false,
    settings: Option<map<string, Value>> := None,
    mode: Value := DefaultMode,
    locked: bool := false,
    lockedReason: Option<string> := None,
    lastActive: Option<Timestamp> := None): (c: ControlStatus)
    ensures c.name == name
    ensures id == None || id == Some("") ==> c.id == name
    ensures forall s :: id == Some(s) && s != "" ==> c.id == s
    ensures settings == None ==> c.settings == map[]
    ensures forall m :: settings == Some(m) ==> c.settings == m
    ensures c.isOn == isOn && c.mode == mode && c.locked == locked
    ensures c.lockedReason == lockedReason && c.lastActive == lastActive
  {
    ControlStatus(
      if id.Some? && id.value != "" then id.value else name,
      name, isOn, settings.GetOr(map[]), mode, locked, lockedReason, lastActive)
  }

  /** `ControlStatus.to_dict`. */
  function ControlToDict(c: ControlStatus): (d: map<string, Value>)
    ensures d.Keys == ControlFields
    ensures "id" !in d
  {
    map[
      "name" := Str(c.name),
      "is_on" := Bool(c.isOn),
      "settings" := Dict(c.settings),
      "mode" := c.mode,
      "locked" := Bool(c.locked),
      "locked_reason" := TextValue(c.lockedReason),
      "last_active" := TimeValue(c.lastActive)]
  }

  // Keyword-argument decoding: None when Python would raise, or when a value
  // has a type the record above cannot hold.

  function BoolArg(d: map<string, Value>, k: string, default: bool): Option<bool> {
    if k !in d then Some(default)
    else if d[k].Bool? then Some(d[k].b)
    else None
  }

  function SettingsArg(d: map<string, Value>): Option<Option<map<string, Value>>> {
    if "settings" !in d then Some(None)
    else match d["settings"]
      case Null => Some(None)
      case Dict(m) => Some(Some(m))
      case _ => None
  }

  function TextArg(d: map<string, Value>, k: string): Option<Option<string>> {
    if k !in d then Some(None)
    else match d[k]
      case Null => Some(None)
      case Str(s) => Some(Some(s))
      case _ => None
  }

  function TimeArg(d: map<string, Value>, k: string): Option<Option<Timestamp>> {
    if k !in d then Some(None)
    else match d[k]
      case Null => Some(None)
      case Time(t) => Some(Some(t))
      case _ => None
  }

  /**
   * `ControlStatus(**d, id=id)`, the rebuild used when controls are listed.
   * Python raises when `d` holds `id` again, a key that is not a parameter,
   * or no `name`.
   */
  function ControlFromKwargs(d: map<string, Value>, id: Option<string>): (r: Option<ControlStatus>)
    ensures r.Some? ==> d.Keys <= ControlFields && "name" in d && d["name"] == Str(r.value.name)
    ensures "id" in d ==> r == None
  {
    if !(d.Keys <= ControlFields) || "name" !in d || !d["name"].Str? then None
    else
      var isOn := BoolArg(d, "is_on", false);
      var settings := SettingsArg(d);
      var locked := BoolArg(d, "locked", false);
      var reason := TextArg(d, "locked_reason");
      var lastActive := TimeArg(d, "last_active");
      if isOn.None? || settings.None? || locked.None? || reason.None? || lastActive.None? then None
      else Some(NewControlStatus(
        d["name"].s, id, isOn.value, settings.value,
        if "mode" in d then d["mode"] else DefaultMode,
        locked.value, reason.value, lastActive.value))
  }

  /** A control rebuilt from its own dictionary under its own document id is the same control. */
  lemma ControlRoundTrip(c: ControlStatus)
    requires c.id != ""
    ensures ControlFromKwargs(ControlToDict(c), Some(c.id)) == Some(c)
  {
    var d := ControlToDict(c);
    assert d["locked_reason"] == TextValue(c.lockedReason);
    assert d["last_active"] == TimeValue(c.lastActive);
  }

  /** A control created with only a name: the documented defaults, and the name as id. */
  lemma ControlDefaults(name: string)
    ensures NewControlStatus(name)
         == ControlStatus(name, name, false, map[], Str("manual"), false, None, None)
  {
  }

  /** `ControlLog(control_name, action, trigger='manual', details=None)`, stamped `now`. */
  function NewControlLog(
    now: Timestamp,
    controlName: string,
    action: string,
    trigger: string := DefaultTrigger,
    details: Option<string> := None): (l: ControlLog)
    ensures l.timestamp == now && l.controlName == controlName && l.action == action
    ensures l.trigger == trigger && l.details == details
  {
    ControlLog(now, controlName, action, trigger, details)
  }

  lemma LogDefaults(now: Timestamp, controlName: string, action: string)
    ensures NewControlLog(now, controlName, action).trigger == "manual"
    ensures NewControlLog(now, controlName, action).details == None
  {
  }

  /** `ControlLog.to_dict`. */
  function LogToDict(l: ControlLog): (d: map<string, Value>)
    ensures d.Keys == LogFields
  {
    map[
      "timestamp" := Time(l.timestamp),
      "control_name" := Str(l.controlName),
      "action" := Str(l.action),
      "trigger" := Str(l.trigger),
      "details" := TextValue(l.details)]
  }

  /** Reads a log entry back from its dictionary; None when a field is missing or ill-typed. */
  function LogFromDict(d: map<string, Value>): Option<ControlLog> {
    if !(LogFields <= d.Keys) then None
    else if !d["timestamp"].Time? || !d["control_name"].Str? || !d["action"].Str?
         || !d["trigger"].Str? then None
    else match TextArg(d, "details")
      case None => None
      case Some(details) =>
        Some(ControlLog(d["timestamp"].t, d["control_name"].s, d["action"].s, d["trigger"].s, details))
  }

  /** `to_dict` carries every field of a log entry unchanged. */
  lemma LogRoundTrip(l: ControlLog)
    ensures LogFromDict(LogToDict(l)) == Some(l)
  {
    var d := LogToDict(l);
    assert LogFields <= d.Keys;
    assert d["details"] == TextValue(l.details);
  }

  /** `SensorData(data_dict)`, stamped `now`. */
  function NewSensorData(now: Timestamp, data: map<string, Value>): (s: SensorData)
    ensures s.data == data && s.timestamp == now
  {
    SensorData(now, data)
  }

  /**
   * `SensorData.to_dict`: the timestamp merged with the reading. The reading
   * is spread after `timestamp`, so a reading key `timestamp` wins.
   */
  function SensorToDict(s: SensorData): (d: map<string, Value>)
    ensures d.Keys == s.data.Keys + {"timestamp"}
    ensures forall k :: k in s.data ==> d[k] == s.data[k]
    ensures "timestamp" !in s.data ==> d["timestamp"] == Time(s.timestamp)
  {
    map["timestamp" := Time(s.timestamp)] + s.data
  }
}
