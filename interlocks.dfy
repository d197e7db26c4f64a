/**
 * The safety interlocks a toggle request passes before it is applied
 * (routes/api.py, update_control): the operator lock, run-dry protection for
 * pumps, and mutual exclusion of the two pH-dosing pumps, checked in that
 * order; the first rule that fires decides.
 */
module Interlocks {
  import opened Wrappers
  import opened Models

  /** Python's `sub in s` on strings. */
  predicate Contains(s: string, sub: string)
    decreases |s|
  {
    |sub| <= |s| && (s[..|sub|] == sub || Contains(s[1..], sub))
  }

  /** `sub` occurs at position `i` of `s`. */
  ghost predicate OccursAt(s: string, sub: string, i: int) {
    0 <= i && i + |sub| <= |s| && s[i..i + |sub|] == sub
  }

  /** Contains is exactly "occurs somewhere". */
  lemma {:induction false} ContainsIffOccurs(s: string, sub: string)
    ensures Contains(s, sub) <==> exists i :: OccursAt(s, sub, i)
    decreases |s|
  {
    if |sub| <= |s| && s[..|sub|] != sub {
      ContainsIffOccurs(s[1..], sub);
      if Contains(s[1..], sub) {
        var i :| OccursAt(s[1..], sub, i);
        assert s[i + 1..i + 1 + |sub|] == s[1..][i..i + |sub|];
        assert OccursAt(s, sub, i + 1);
      } else if exists i :: OccursAt(s, sub, i) {
        var i :| OccursAt(s, sub, i);
        assert i != 0;
        assert s[1..][i - 1..i - 1 + |sub|] == s[i..i + |sub|];
        assert OccursAt(s[1..], sub, i - 1);
        assert false;
      }
    } else if |sub| <= |s| {
      assert OccursAt(s, sub, 0);
    }
  }

  /** A control is treated as a pump when its name contains "pump". */
  function IsPump(name: string): (b: bool)
    ensures b <==> exists i :: OccursAt(name, "pump", i)
  {
    ContainsIffOccurs(name, "pump");
    Contains(name, "pump")
  }

  /** A control is treated as a pH doser when its name contains "ph". */
  function IsPhDoser(name: string): (b: bool)
    ensures b <==> exists i :: OccursAt(name, "ph", i)
  {
    ContainsIffOccurs(name, "ph");
    Contains(name, "ph")
  }

  /** The doser that must not run together with `name`. */
  function Opposite(name: string): (o: string)
    ensures o == "ph_down_pump" <==> Contains(name, "up")
    ensures o == "ph_up_pump" <==> !Contains(name, "up")
    ensures IsPump(o) && IsPhDoser(o)
    ensures o != name
  {
    UpDoserNamed();
    DownDoserNamed();
    if Contains(name, "up") then "ph_down_pump" else "ph_up_pump"
  }

  const LowWaterLevel: real := 15.0
  /** The level assumed when the latest reading has no `water_level`. */
  const MissingWaterLevel: real := 100.0

  const BlockedPrefix: string := "Action Blocked: "
  const DefaultLockReason: string := "Safety Lock Active"
  const RunDryMessage: string := "Action Blocked: Low Water Level (Run Dry Protection)"
  const DosingMessage: string := "Action Blocked: Cannot dose pH Up and Down simultaneously."

  /**
   * `sensor_val.get('water_level', 100)` as the comparison with 15.0 sees it:
   * a number, a boolean (an int in Python), 100 when absent, and None when the
   * comparison would raise a TypeError.
   */
  function WaterLevel(sensorVal: map<string, Value>): (w: Option<real>)
    ensures "water_level" !in sensorVal ==> w == Some(MissingWaterLevel)
    ensures forall r :: "water_level" in sensorVal && sensorVal["water_level"] == Num(r) ==> w == Some(r)
    ensures forall b :: "water_level" in sensorVal && sensorVal["water_level"] == Bool(b) ==>
      w == Some(if b then 1.0 else 0.0)
    ensures "water_level" in sensorVal && !sensorVal["water_level"].Num? && !sensorVal["water_level"].Bool? ==>
      w == None
  {
    if "water_level" !in sensorVal then Some(MissingWaterLevel)
    else match sensorVal["water_level"]
      case Num(r) => Some(r)
      case Bool(b) => Some(if b then 1.0 else 0.0)
      case _ => None
  }

  /** The message shown for a locked control: its stored reason, or the default when it has none. */
  function LockMessage(c: ControlStatus): (m: string)
    ensures |m| >= |BlockedPrefix| && m[..|BlockedPrefix|] == BlockedPrefix
    ensures c.lockedReason == None ==> m == BlockedPrefix + DefaultLockReason
    ensures forall s :: c.lockedReason == Some(s) ==> m == BlockedPrefix + s
  {
    BlockedPrefix + match c.lockedReason
      case Some(s) => s
      case None => DefaultLockReason
  }

  /**
   * The lock message as the handler builds it: `get('locked_reason', default)`
   * on the stored dictionary, which always holds the key, so a missing reason
   * prints as "None" and the default is never used.
   */
  function LockMessageAsWritten(c: ControlStatus): (m: string)
    ensures forall s :: c.lockedReason == Some(s) ==> m == BlockedPrefix + s
    ensures c.lockedReason == None ==> m == BlockedPrefix + "None"
    ensures c.lockedReason.Some? ==> m == LockMessage(c)
  {
    var d := ControlToDict(c);
    var v := if "locked_reason" in d then d["locked_reason"] else Str(DefaultLockReason);
    BlockedPrefix + if v.Str? then v.s else "None"
  }

  /** The stored reason is never replaced by the default. */
  lemma LockMessageAsWrittenIgnoresDefault(c: ControlStatus)
    requires c.locked && c.lockedReason == None
    ensures LockMessageAsWritten(c) == "Action Blocked: None"
    ensures LockMessageAsWritten(c) != LockMessage(c)
  {
    assert LockMessageAsWritten(c) == BlockedPrefix + "None";
    assert |LockMessage(c)| == |BlockedPrefix| + |DefaultLockReason| != |LockMessageAsWritten(c)|;
  }

  // The three rules, each on its own.

  /** The operator lock stops only requests to switch on, and only on a locked control. */
  function LockFires(c: ControlStatus, state: bool): (b: bool)
    ensures b ==> state
    ensures !c.locked ==> !b
    ensures c.locked && state ==> b
  {
    c.locked && state
  }

  /** Does not look at the requested state: turning a pump off is refused too. */
  function RunDryFires(name: string, sensorVal: map<string, Value>): (b: bool)
    ensures b ==> IsPump(name)
    ensures "water_level" !in sensorVal ==> !b
    ensures forall r :: "water_level" in sensorVal && sensorVal["water_level"] == Num(r) ==>
      (b <==> IsPump(name) && r < LowWaterLevel)
  {
    IsPump(name) && WaterLevel(sensorVal).Some? && WaterLevel(sensorVal).value < LowWaterLevel
  }

  /** Only an ON request on a pH doser, while its opposite (never the doser itself) is on. */
  function DosingFires(controls: map<string, ControlStatus>, name: string, state: bool): (b: bool)
    ensures b ==> state && IsPhDoser(name) && Opposite(name) != name
    ensures b <==> state && IsPhDoser(name) && Opposite(name) in controls && controls[Opposite(name)].isOn
  {
    IsPhDoser(name) && Opposite(name) in controls && controls[Opposite(name)].isOn && state
  }

  datatype Rule = LockRule | RunDryRule | DosingRule

  datatype Decision =
    | Allow
    | Deny(rule: Rule, message: string)
    | Fault   // the water-level comparison raised

  /** The checks of a toggle of `name` to `state`, in the handler's order. */
  function Evaluate(controls: map<string, ControlStatus>, name: string, state: bool,
                    sensorVal: map<string, Value>): (d: Decision)
    requires name in controls
    ensures d == Allow <==>
      !LockFires(controls[name], state) && !(IsPump(name) && WaterLevel(sensorVal).None?)
      && !RunDryFires(name, sensorVal) && !DosingFires(controls, name, state)
    ensures d.Deny? && d.rule == LockRule <==> LockFires(controls[name], state)
    ensures d.Deny? && d.rule == RunDryRule <==>
      !LockFires(controls[name], state) && RunDryFires(name, sensorVal)
    ensures d.Deny? && d.rule == DosingRule <==>
      !LockFires(controls[name], state) && !(IsPump(name) && WaterLevel(sensorVal).None?)
      && !RunDryFires(name, sensorVal) && DosingFires(controls, name, state)
    ensures d.Deny? ==> d.message == match d.rule
      case LockRule => LockMessage(controls[name])
      case RunDryRule => RunDryMessage
      case DosingRule => DosingMessage
  {
    var c := controls[name];
    if LockFires(c, state) then Deny(LockRule, LockMessage(c))
    else if IsPump(name) && WaterLevel(sensorVal).None? then Fault
    else if RunDryFires(name, sensorVal) then Deny(RunDryRule, RunDryMessage)
    else if DosingFires(controls, name, state) then Deny(DosingRule, DosingMessage)
    else Allow
  }

  /** A locked control is never switched on, whatever the sensors say. */
  lemma LockedOnRequestDenied(controls: map<string, ControlStatus>, name: string, sensorVal: map<string, Value>)
    requires name in controls && controls[name].locked
    ensures Evaluate(controls, name, true, sensorVal) == Deny(LockRule, LockMessage(controls[name]))
  {
  }

  /** An OFF request is refused only by run-dry protection: neither the lock nor the pH rule stops it. */
  lemma OffRequestOnlyRunDry(controls: map<string, ControlStatus>, name: string, sensorVal: map<string, Value>)
    requires name in controls
    ensures Evaluate(controls, name, false, sensorVal).Deny? <==> RunDryFires(name, sensorVal)
    ensures Evaluate(controls, name, false, sensorVal).Deny? ==>
      Evaluate(controls, name, false, sensorVal) == Deny(RunDryRule, RunDryMessage)
  {
  }

  /** Below 15.0 every pump request is refused unless the lock refused it first, ON and OFF alike. */
  lemma LowWaterDeniesPump(controls: map<string, ControlStatus>, name: string, state: bool,
                           sensorVal: map<string, Value>, level: real)
    requires name in controls && IsPump(name) && !LockFires(controls[name], state)
    requires "water_level" in sensorVal && sensorVal["water_level"] == Num(level) && level < LowWaterLevel
    ensures Evaluate(controls, name, state, sensorVal) == Deny(RunDryRule, RunDryMessage)
  {
  }

  /** The boundary is exclusive: a level of exactly 15.0, or no level at all, passes the rule. */
  lemma WaterBoundaryPasses(name: string, sensorVal: map<string, Value>)
    requires "water_level" !in sensorVal || sensorVal["water_level"] == Num(15.0)
    ensures !RunDryFires(name, sensorVal)
  {
  }

  /** The seeded dosing pumps are each other's opposite, and both count as pumps. */
  lemma DosersArePaired()
    ensures Opposite("ph_up_pump") == "ph_down_pump"
    ensures Opposite("ph_down_pump") == "ph_up_pump"
    ensures IsPhDoser("ph_up_pump") && IsPhDoser("ph_down_pump")
    ensures IsPump("ph_up_pump") && IsPump("ph_down_pump")
  {
    UpDoserNamed();
    DownDoserNamed();
  }

  lemma UpDoserNamed()
    ensures Contains("ph_up_pump", "up")
    ensures Contains("ph_up_pump", "ph")
    ensures Contains("ph_up_pump", "pump")
  {
    ContainsAt("ph_up_pump", "up", 3);
    ContainsAt("ph_up_pump", "ph", 0);
    ContainsAt("ph_up_pump", "pump", 6);
  }

  lemma DownDoserNamed()
    ensures !Contains("ph_down_pump", "up")
    ensures Contains("ph_down_pump", "ph")
    ensures Contains("ph_down_pump", "pump")
  {
    NotContainsUp("ph_down_pump");
    DownDoserIsPump();
    ContainsAt("ph_down_pump", "ph", 0);
  }

  lemma DownDoserIsPump()
    ensures Contains("ph_down_pump", "pump")
  {
    ContainsAt("ph_down_pump", "pump", 8);
  }

  lemma ContainsAt(s: string, sub: string, i: nat)
    requires i + |sub| <= |s| && s[i..i + |sub|] == sub
    ensures Contains(s, sub)
  {
    assert OccursAt(s, sub, i);
    ContainsIffOccurs(s, sub);
  }

  lemma NotContainsUp(s: string)
    requires s == "ph_down_pump"
    ensures !Contains(s, "up")
  {
    forall i | 0 <= i < |s| - 1
      ensures !OccursAt(s, "up", i)
    {
      assert s[i..i + 2] == [s[i], s[i + 1]];
    }
    ContainsIffOccurs(s, "up");
  }

  /**
   * With one dosing pump on, switching the other on is refused (when neither
   * the lock nor run-dry protection refused it already); with it off, the pH
   * rule lets the request through.
   */
  lemma DosingExclusion(controls: map<string, ControlStatus>, name: string, sensorVal: map<string, Value>)
    requires name == "ph_up_pump" || name == "ph_down_pump"
    requires name in controls && !controls[name].locked
    requires WaterLevel(sensorVal).Some? && WaterLevel(sensorVal).value >= LowWaterLevel
    ensures Evaluate(controls, name, true, sensorVal) == Deny(DosingRule, DosingMessage) <==>
      Opposite(name) in controls && controls[Opposite(name)].isOn
    ensures Evaluate(controls, name, true, sensorVal) == Allow <==>
      !(Opposite(name) in controls && controls[Opposite(name)].isOn)
  {
    DosersArePaired();
  }
}
