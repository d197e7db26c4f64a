/**
 * The pure parts of the dashboard's alert logic (static/js/main.js):
 * classifying a reading against its ideal range, the suggested action per
 * sensor, the badge text and the "time ago" label.
 */
module Alerts {
  import opened Wrappers
  import opened Text

  /** An entry of the ideal-range table: bounds and display unit. */
  datatype IdealRange = IdealRange(min: real, max: real, unit: string)

  datatype Severity = Critical | Warning

  datatype Alert = High | Low | TrendingHigh | TrendingLow

  function SeverityOf(a: Alert): Severity {
    match a
    case High => Critical
    case Low => Critical
    case TrendingHigh => Warning
    case TrendingLow => Warning
  }

  function SeverityName(s: Severity): string {
    match s
    case Critical => "critical"
    case Warning => "warning"
  }

  /** The word after the key in a notification's title. */
  function AlertType(a: Alert): string {
    match a
    case High => "HIGH"
    case Low => "LOW"
    case TrendingHigh => "TRENDING HIGH"
    case TrendingLow => "TRENDING LOW"
  }

  /**
   * Above the maximum is critical HIGH; otherwise below the minimum is
   * critical LOW; otherwise within 10% of a bound (above 0.9 * max, or below
   * 1.1 * min) is a warning, TRENDING HIGH when above 0.9 * max; otherwise
   * no alert.
   */
  function Classify(val: real, range: IdealRange): (a: Option<Alert>)
    ensures a == Some(High) <==> val > range.max
    ensures a == Some(Low) <==> val <= range.max && val < range.min
    ensures a.Some? && SeverityOf(a.value) == Warning ==> range.min <= val <= range.max
    ensures a == Some(TrendingHigh) ==> val > range.max * 0.9
    ensures a == Some(TrendingLow) ==> val <= range.max * 0.9 && val < range.min * 1.1
    ensures (a.Some? && SeverityOf(a.value) == Warning)
        <==> range.min <= val <= range.max && (val > range.max * 0.9 || val < range.min * 1.1)
    ensures a == Some(TrendingHigh) <==> range.min <= val <= range.max && val > range.max * 0.9
    ensures a == Some(TrendingLow)
        <==> range.min <= val <= range.max && val <= range.max * 0.9 && val < range.min * 1.1
    ensures a == None <==> range.min <= val <= range.max && range.min * 1.1 <= val <= range.max * 0.9
  {
    if val > range.max then Some(High)
    else if val < range.min then Some(Low)
    else if val > range.max * 0.9 || val < range.min * 1.1 then
      Some(if val > range.max * 0.9 then TrendingHigh else TrendingLow)
    else None
  }

  /** A reading is critical exactly when it lies outside [min, max]. */
  lemma CriticalIffOutOfRange(val: real, range: IdealRange)
    ensures (Classify(val, range).Some? && SeverityOf(Classify(val, range).value) == Critical)
        <==> (val < range.min || val > range.max)
  {
  }

  /**
   * For a range with non-negative bounds, no alert is raised exactly on the
   * band [1.1 * min, 0.9 * max].
   */
  lemma NormalBand(val: real, range: IdealRange)
    requires 0.0 <= range.min && 0.0 <= range.max
    ensures Classify(val, range) == None <==> range.min * 1.1 <= val <= range.max * 0.9
  {
  }

  const DefaultAction: string := "Check system controls"

  /** The suggested action per sensor key and direction. */
  const Actions: map<string, map<string, string>> := map[
    "temperature" := map["high" := "Turn ON Environmental Fan", "low" := "Increase Heater Power"],
    "ph" := map["high" := "Run pH-Down Pump", "low" := "Run pH-Up Pump"],
    "tds" := map["high" := "Dilute with Fresh Water", "low" := "Run Nutrient Pumps"],
    "humidity" := map["high" := "Increase Ventilation", "low" := "Run Humidifier"],
    "water_level" := map["low" := "Refill Reservoir"],
    "gas" := map["high" := "\U{26A0}\U{FE0F} EVACUATE / VENTILATE"]]

  /**
   * The table's entry for (key, state), or the default suggestion; the
   * default comes back exactly when there is no entry (no entry spells it).
   */
  function GetActionSuggestion(key: string, state: string): (s: string)
    ensures key in Actions && state in Actions[key] ==> s == Actions[key][state]
    ensures s == DefaultAction <==> !(key in Actions && state in Actions[key])
    ensures |s| > 0
  {
    if key in Actions && state in Actions[key] then
      assert key in {"temperature", "ph", "tds", "humidity", "water_level", "gas"};
      Actions[key][state]
    else DefaultAction
  }

  /** The badge: hidden (None) with nothing unread, the count up to 9, then "9+". */
  function BadgeText(count: nat): (t: Option<string>)
    ensures t == None <==> count == 0
    ensures count > 9 ==> t == Some("9+")
    ensures 0 < count <= 9 ==> t.Some? && |t.value| == 1 && AllDigits(t.value) && ParseDigits(t.value) == count
  {
    if count == 0 then None
    else if count > 9 then Some("9+")
    else
      ParseNatToString(count);
      Some(NatToString(count))
  }

  /**
   * `timeAgo`: whole seconds since `date` (times in milliseconds, floored);
   * under a minute "Just now", under an hour the whole minutes, otherwise the
   * whole hours.
   */
  function TimeAgo(nowMs: int, dateMs: int): (text: string)
    ensures text == "Just now" <==> nowMs - dateMs < 60000
  {
    var seconds := (nowMs - dateMs) / 1000;
    if seconds < 60 then "Just now"
    else
      var minutes := seconds / 60;
      var text := if minutes < 60 then NatToString(minutes) + "m ago" else NatToString(minutes / 60) + "h ago";
      assert text[|text| - 1] == 'o';
      text
  }

  /** Whole minutes of whole seconds are whole minutes of the milliseconds. */
  lemma SecondsToMinutes(d: int)
    ensures d / 1000 / 60 == d / 60000
  {
  }

  /** Whole hours of whole minutes are whole hours of the milliseconds. */
  lemma MinutesToHours(d: int)
    ensures d / 60000 / 60 == d / 3600000
  {
  }

  /**
   * The label depends only on the elapsed milliseconds: "Just now" below
   * 60 000, whole minutes (1 to 59) below 3 600 000, whole hours beyond.
   */
  lemma TimeAgoBuckets(nowMs: int, dateMs: int)
    ensures var d := nowMs - dateMs;
      && (d < 60000 <==> TimeAgo(nowMs, dateMs) == "Just now")
      && (60000 <= d < 3600000 ==> 1 <= d / 60000 < 60 && TimeAgo(nowMs, dateMs) == NatToString(d / 60000) + "m ago")
      && (3600000 <= d ==> TimeAgo(nowMs, dateMs) == NatToString(d / 3600000) + "h ago")
  {
    var d := nowMs - dateMs;
    SecondsToMinutes(d);
    MinutesToHours(d);
    if d >= 60000 {
      assert d / 1000 >= 60;
      var s := TimeAgo(nowMs, dateMs);
      assert s[|s| - 1] == 'o';
    }
  }

  /** Equal labels with the same suffix have equal counts in front. */
  lemma SuffixCancel(a: string, b: string, suffix: string)
    requires a + suffix == b + suffix
    ensures a == b
  {
    assert |a| == |b|;
    assert a == (a + suffix)[..|a|];
    assert b == (b + suffix)[..|b|];
  }

  /** Two ages with different whole minutes (under an hour) or different whole hours get different labels. */
  lemma TimeAgoSeparates(now1: int, date1: int, now2: int, date2: int)
    ensures var d1, d2 := now1 - date1, now2 - date2;
      60000 <= d1 < 3600000 && 60000 <= d2 < 3600000 && d1 / 60000 != d2 / 60000 ==>
        TimeAgo(now1, date1) != TimeAgo(now2, date2)
    ensures var d1, d2 := now1 - date1, now2 - date2;
      3600000 <= d1 && 3600000 <= d2 && d1 / 3600000 != d2 / 3600000 ==>
        TimeAgo(now1, date1) != TimeAgo(now2, date2)
  {
    var d1, d2 := now1 - date1, now2 - date2;
    TimeAgoBuckets(now1, date1);
    TimeAgoBuckets(now2, date2);
    if 60000 <= d1 < 3600000 && 60000 <= d2 < 3600000 && TimeAgo(now1, date1) == TimeAgo(now2, date2) {
      SuffixCancel(NatToString(d1 / 60000), NatToString(d2 / 60000), "m ago");
      NatToStringInjective(d1 / 60000, d2 / 60000);
    }
    if 3600000 <= d1 && 3600000 <= d2 && TimeAgo(now1, date1) == TimeAgo(now2, date2) {
      SuffixCancel(NatToString(d1 / 3600000), NatToString(d2 / 3600000), "h ago");
      NatToStringInjective(d1 / 3600000, d2 / 3600000);
    }
  }
}
