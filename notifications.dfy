/**
 * The dashboard's notification list (static/js/main.js, NotificationManager):
 * most recent first, one entry per id, at most 20 entries, with an unread
 * flag per entry that feeds the badge.
 */
module Notifications {
  import opened Wrappers
  import opened Text
  import opened Alerts

  /** A `Date`, as milliseconds since the epoch. */
  type Millis = int

  /**
   * One alert shown to the user. `value` and `range` hold the numbers the
   * source renders as text (`toFixed(1)` and the unit).
   */
  datatype Notification = Notification(
    id: string,
    key: string,
    title: string,
    value: real,
    range: IdealRange,
    severity: Severity,
    action: string,
    timestamp: Millis,
    unread: bool)

  /** One entry of the sensor payload; `value` is None where `parseFloat` gives NaN. */
  datatype Reading = Reading(key: string, value: Option<real>)

  const MaxNotifications: nat := 20

  /** `${key}_${severity}`. */
  function NotificationId(key: string, severity: Severity): (id: string)
    ensures |id| > |key| && id[..|key|] == key && id[|key|] == '_' && id[|key| + 1..] == SeverityName(severity)
  {
    key + "_" + SeverityName(severity)
  }

  /** Different (key, severity) pairs never share an id. */
  lemma NotificationIdInjective(k1: string, s1: Severity, k2: string, s2: Severity)
    requires NotificationId(k1, s1) == NotificationId(k2, s2)
    ensures k1 == k2 && s1 == s2
  {
    var id := NotificationId(k1, s1);
    assert id[|id| - 1] == SeverityName(s1)[|SeverityName(s1)| - 1] == SeverityName(s2)[|SeverityName(s2)| - 1];
    var n := |SeverityName(s1)| + 1;
    assert k1 == id[..|id| - n] == k2;
  }

  ghost predicate UniqueIds(l: seq<Notification>) {
    forall i, j :: 0 <= i < j < |l| ==> l[i].id != l[j].id
  }

  predicate HasId(l: seq<Notification>, id: string) {
    exists n :: n in l && n.id == id
  }

  /** `findIndex(n => n.id === id)`: the first position holding `id`, or -1. */
  function IndexOf(l: seq<Notification>, id: string): (r: int)
    ensures -1 <= r < |l|
    ensures r == -1 <==> !HasId(l, id)
    ensures r >= 0 ==> l[r].id == id && forall j :: 0 <= j < r ==> l[j].id != id
  {
    if l == [] then -1
    else if l[0].id == id then 0
    else
      var r := IndexOf(l[1..], id);
      assert forall n :: n in l && n != l[0] ==> n in l[1..];
      if r < 0 then -1 else r + 1
  }

  /** The position search of `addNotification`. */
  method FindIndex(l: seq<Notification>, id: string) returns (i: int)
    ensures i == IndexOf(l, id)
    ensures i == -1 <==> forall j :: 0 <= j < |l| ==> l[j].id != id
  {
    i := 0;
    while i < |l|
      invariant 0 <= i <= |l|
      invariant forall j :: 0 <= j < i ==> l[j].id != id
    {
      if l[i].id == id {
        return;
      }
      i := i + 1;
    }
    i := -1;
  }

  /**
   * `addNotification`: an id already listed gets the new value and timestamp
   * in place (false); a new one goes to the front, dropping the last entry
   * once the list exceeds 20 (true).
   */
  function Added(l: seq<Notification>, n: Notification): (r: (seq<Notification>, bool))
    ensures r.1 <==> !HasId(l, n.id)
    ensures HasId(r.0, n.id)
    ensures |r.0| <= |l| + 1
    ensures |l| <= MaxNotifications ==> |r.0| <= MaxNotifications
  {
    var i := IndexOf(l, n.id);
    if i >= 0 then
      var l' := l[i := l[i].(value := n.value, timestamp := n.timestamp)];
      assert l'[i] in l';
      (l', false)
    else
      var m := [n] + l;
      var l' := if |m| > MaxNotifications then m[..|m| - 1] else m;
      assert l'[0] in l';
      (l', true)
  }

  /**
   * Re-adding a listed id changes only that entry's value and timestamp (its
   * unread flag too stays as it was); the order and length stay.
   */
  lemma AddExisting(l: seq<Notification>, n: Notification)
    requires HasId(l, n.id)
    ensures var (l', isNew) := Added(l, n);
      && !isNew && |l'| == |l|
      && (forall j :: 0 <= j < |l| ==> l'[j].id == l[j].id)
      && (forall j :: 0 <= j < |l| && l[j].id != n.id ==> l'[j] == l[j])
      && (forall j :: 0 <= j < |l| && l[j].id == n.id && (forall p :: 0 <= p < j ==> l[p].id != n.id) ==>
            l'[j] == l[j].(value := n.value, timestamp := n.timestamp))
  {
  }

  /** A new id is put first, the rest keeps its order, and a list of at most 20 stays at most 20. */
  lemma AddNew(l: seq<Notification>, n: Notification)
    requires !HasId(l, n.id)
    ensures var (l', isNew) := Added(l, n);
      && isNew && l'[0] == n
      && |l'| == (if |l| + 1 > MaxNotifications then |l| else |l| + 1)
      && l'[1..] == l[..|l'| - 1]
      && (|l| <= MaxNotifications ==> |l'| <= MaxNotifications)
  {
  }

  lemma AddedKeepsUniqueIds(l: seq<Notification>, n: Notification)
    requires UniqueIds(l)
    ensures UniqueIds(Added(l, n).0)
  {
    var (l', _) := Added(l, n);
    if !HasId(l, n.id) {
      assert forall j :: 0 <= j < |l| ==> l[j].id != n.id by {
        forall j | 0 <= j < |l| ensures l[j].id != n.id {
          assert l[j] in l;
        }
      }
      assert forall j :: 1 <= j < |l'| ==> l'[j] == l[j - 1];
    }
  }

  /** `notifications.filter(n => n.id !== id)`. */
  function Without(l: seq<Notification>, id: string): (r: seq<Notification>)
    ensures |r| <= |l|
    ensures forall n :: n in r ==> n in l && n.id != id
  {
    if l == [] then []
    else if l[0].id == id then Without(l[1..], id)
    else [l[0]] + Without(l[1..], id)
  }

  /** Filtering keeps every entry with another id. */
  lemma {:induction false} WithoutKeepsOthers(l: seq<Notification>, id: string, n: Notification)
    requires n in l && n.id != id
    ensures n in Without(l, id)
  {
    if l[0] != n {
      WithoutKeepsOthers(l[1..], id, n);
    }
  }

  /** Filtering respects concatenation, so the entries kept stay in their relative order. */
  lemma {:induction false} WithoutAppend(a: seq<Notification>, b: seq<Notification>, id: string)
    ensures Without(a + b, id) == Without(a, id) + Without(b, id)
  {
    if a != [] {
      assert (a + b)[1..] == a[1..] + b;
      WithoutAppend(a[1..], b, id);
    } else {
      assert a + b == b;
    }
  }

  /** Removing an id that is not listed changes nothing. */
  lemma {:induction false} WithoutAbsent(l: seq<Notification>, id: string)
    requires !HasId(l, id)
    ensures Without(l, id) == l
  {
    if l != [] {
      assert l[0] in l;
      assert !HasId(l[1..], id) by {
        forall n | n in l[1..] ensures n.id != id {
          assert n in l;
        }
      }
      WithoutAbsent(l[1..], id);
    }
  }

  lemma {:induction false} WithoutKeepsUniqueIds(l: seq<Notification>, id: string)
    requires UniqueIds(l)
    ensures UniqueIds(Without(l, id))
  {
    if l != [] {
      WithoutKeepsUniqueIds(l[1..], id);
      if l[0].id != id {
        var r := Without(l[1..], id);
        forall j | 0 <= j < |r| ensures r[j].id != l[0].id {
          assert r[j] in l[1..];
          var p :| 0 <= p < |l[1..]| && l[1..][p] == r[j];
          assert l[p + 1] == r[j];
        }
      }
    }
  }

  /** Every entry marked read. */
  function AllRead(l: seq<Notification>): (r: seq<Notification>)
    ensures |r| == |l|
    ensures forall i :: 0 <= i < |l| ==> r[i] == l[i].(unread := false)
  {
    seq(|l|, i requires 0 <= i < |l| => l[i].(unread := false))
  }

  /** The number of unread entries, as the badge counts them. */
  function UnreadCount(l: seq<Notification>): (c: nat)
    ensures c <= |l|
    ensures c == 0 <==> forall i :: 0 <= i < |l| ==> !l[i].unread
  {
    if l == [] then 0
    else
      var rest := UnreadCount(l[1..]);
      assert forall i :: 1 <= i < |l| ==> l[i] == l[1..][i - 1];
      (if l[0].unread then 1 else 0) + rest
  }

  /** After marking all as read there is nothing unread, and the list is otherwise the same. */
  lemma AllReadLeavesNothingUnread(l: seq<Notification>)
    ensures UnreadCount(AllRead(l)) == 0
    ensures forall i :: 0 <= i < |l| ==> AllRead(l)[i].id == l[i].id
  {
  }

  /** An ASCII upper-case copy of `s` (`toUpperCase` on the sensor keys). */
  function Upper(s: string): (r: string)
    ensures |r| == |s|
  {
    seq(|s|, i requires 0 <= i < |s| => if 'a' <= s[i] <= 'z' then (s[i] as int - 32) as char else s[i])
  }

  /** The notification `generateAlerts` builds for an alert on `key`. */
  function MakeNotification(key: string, val: real, range: IdealRange, a: Alert, now: Millis): (n: Notification)
    ensures n.id == NotificationId(key, SeverityOf(a)) && n.key == key && n.unread
    ensures n.value == val && n.range == range && n.severity == SeverityOf(a) && n.timestamp == now
    ensures n.title == Upper(key) + " " + AlertType(a)
    ensures n.action == match a
      case High => GetActionSuggestion(key, "high")
      case Low => GetActionSuggestion(key, "low")
      case _ => "Monitor closely"
  {
    Notification(
      NotificationId(key, SeverityOf(a)), key, Upper(key) + " " + AlertType(a), val, range,
      SeverityOf(a),
      match a
      case High => GetActionSuggestion(key, "high")
      case Low => GetActionSuggestion(key, "low")
      case _ => "Monitor closely",
      now, true)
  }

  /** Both alerts of `key` removed: what a reading back in the normal band does. */
  function Cleared(l: seq<Notification>, key: string): (r: seq<Notification>)
    ensures !HasId(r, NotificationId(key, Critical)) && !HasId(r, NotificationId(key, Warning))
    ensures forall n :: n in r ==> n in l
  {
    Without(Without(l, NotificationId(key, Critical)), NotificationId(key, Warning))
  }

  /** One iteration of `generateAlerts`: the new list and whether a new alert was added. */
  function AlertStep(l: seq<Notification>, r: Reading, ideals: map<string, IdealRange>, now: Millis)
    : (step: (seq<Notification>, bool))
    ensures r.key !in ideals || r.value.None? ==> step == (l, false)
    ensures step.1 ==> |step.0| >= 1 && step.0[0].key == r.key && step.0[0].unread && !HasId(l, step.0[0].id)
    ensures |step.0| <= |l| + 1
    ensures r.key in ideals && r.value.Some? && Classify(r.value.value, ideals[r.key]).Some? ==>
      var id := NotificationId(r.key, SeverityOf(Classify(r.value.value, ideals[r.key]).value));
      HasId(step.0, id) && (step.1 <==> !HasId(l, id))
  {
    if r.key !in ideals || r.value.None? then (l, false)
    else match Classify(r.value.value, ideals[r.key])
      case Some(a) => Added(l, MakeNotification(r.key, r.value.value, ideals[r.key], a, now))
      case None => (Cleared(l, r.key), false)
  }

  /** `generateAlerts` over the readings in payload order. */
  function Generated(l: seq<Notification>, rs: seq<Reading>, ideals: map<string, IdealRange>, now: Millis)
    : (g: (seq<Notification>, bool))
    ensures |g.0| <= |l| + |rs|
    ensures (forall i :: 0 <= i < |rs| ==> rs[i].key !in ideals) ==> g == (l, false)
  {
    if rs == [] then (l, false)
    else
      assert forall i :: 0 <= i < |rs| - 1 ==> rs[..|rs| - 1][i] == rs[i];
      var (prev, anyNew) := Generated(l, rs[..|rs| - 1], ideals, now);
      var (next, isNew) := AlertStep(prev, rs[|rs| - 1], ideals, now);
      (next, anyNew || isNew)
  }

  /**
   * A reading back in the normal band removes both alerts of its key and
   * keeps every notification of any other key.
   */
  lemma NormalReadingClears(l: seq<Notification>, r: Reading, ideals: map<string, IdealRange>, now: Millis,
                            other: Notification, otherKey: string, otherSeverity: Severity)
    requires r.key in ideals && r.value.Some? && Classify(r.value.value, ideals[r.key]) == None
    requires other in l && other.id == NotificationId(otherKey, otherSeverity) && otherKey != r.key
    ensures var l' := AlertStep(l, r, ideals, now).0;
      && !HasId(l', NotificationId(r.key, Critical))
      && !HasId(l', NotificationId(r.key, Warning))
      && other in l'
  {
    var c := NotificationId(r.key, Critical);
    var w := NotificationId(r.key, Warning);
    if other.id == c {
      NotificationIdInjective(otherKey, otherSeverity, r.key, Critical);
    }
    if other.id == w {
      NotificationIdInjective(otherKey, otherSeverity, r.key, Warning);
    }
    WithoutKeepsOthers(l, c, other);
    WithoutKeepsOthers(Without(l, c), w, other);
    var l' := Without(Without(l, c), w);
    assert forall n :: n in l' ==> n in Without(l, c);
  }

  /** A critical alert does not remove a warning of the same key (unless the cap drops it from a full list). */
  lemma CriticalKeepsWarning(l: seq<Notification>, r: Reading, ideals: map<string, IdealRange>, now: Millis,
                             warning: Notification)
    requires r.key in ideals && r.value.Some?
    requires Classify(r.value.value, ideals[r.key]).Some?
    requires SeverityOf(Classify(r.value.value, ideals[r.key]).value) == Critical
    requires warning in l && warning.id == NotificationId(r.key, Warning) && |l| < MaxNotifications
    ensures HasId(AlertStep(l, r, ideals, now).0, NotificationId(r.key, Warning))
  {
    var a := Classify(r.value.value, ideals[r.key]).value;
    var n := MakeNotification(r.key, r.value.value, ideals[r.key], a, now);
    var i :| 0 <= i < |l| && l[i] == warning;
    if n.id == warning.id {
      NotificationIdInjective(r.key, Critical, r.key, Warning);
    }
    if HasId(l, n.id) {
      var j := IndexOf(l, n.id);
      assert Added(l, n).0[i].id == warning.id;
      assert Added(l, n).0[i] in Added(l, n).0;
    } else {
      assert Added(l, n).0[i + 1] == warning;
    }
  }

  /** One step keeps the ids unique and a list of at most 20 at most 20. */
  lemma AlertStepKeeps(l: seq<Notification>, r: Reading, ideals: map<string, IdealRange>, now: Millis)
    requires UniqueIds(l) && |l| <= MaxNotifications
    ensures UniqueIds(AlertStep(l, r, ideals, now).0)
    ensures |AlertStep(l, r, ideals, now).0| <= MaxNotifications
  {
    if r.key in ideals && r.value.Some? {
      match Classify(r.value.value, ideals[r.key])
      case Some(a) =>
        var n := MakeNotification(r.key, r.value.value, ideals[r.key], a, now);
        AddedKeepsUniqueIds(l, n);
        if HasId(l, n.id) { AddExisting(l, n); } else { AddNew(l, n); }
      case None =>
        WithoutKeepsUniqueIds(l, NotificationId(r.key, Critical));
        WithoutKeepsUniqueIds(Without(l, NotificationId(r.key, Critical)), NotificationId(r.key, Warning));
    }
  }

  /** A whole round of alerts keeps the ids unique and the list within 20 entries. */
  lemma {:induction false} GeneratedKeeps(l: seq<Notification>, rs: seq<Reading>, ideals: map<string, IdealRange>,
                                          now: Millis)
    requires UniqueIds(l) && |l| <= MaxNotifications
    ensures UniqueIds(Generated(l, rs, ideals, now).0)
    ensures |Generated(l, rs, ideals, now).0| <= MaxNotifications
  {
    if rs != [] {
      GeneratedKeeps(l, rs[..|rs| - 1], ideals, now);
      AlertStepKeeps(Generated(l, rs[..|rs| - 1], ideals, now).0, rs[|rs| - 1], ideals, now);
    }
  }

  /** The manager's list of notifications; storage and rendering are left to the page. */
  class NotificationManager {
    var notifications: seq<Notification>

    /** `stored` is what local storage held (the empty list when nothing was saved). */
    constructor (stored: seq<Notification>)
      ensures notifications == stored
    {
      notifications := stored;
    }

    method AddNotification(n: Notification) returns (isNew: bool)
      modifies this
      ensures (notifications, isNew) == Added(old(notifications), n)
    {
      var index := FindIndex(notifications, n.id);
      if index != -1 {
        notifications := notifications[index := notifications[index].(value := n.value, timestamp := n.timestamp)];
        return false;
      }
      notifications := [n] + notifications;
      if |notifications| > MaxNotifications {
        notifications := notifications[..|notifications| - 1];
      }
      return true;
    }

    method RemoveNotification(id: string)
      modifies this
      ensures notifications == Without(old(notifications), id)
    {
      notifications := Without(notifications, id);
    }

    method MarkAllAsRead()
      modifies this
      ensures notifications == AllRead(old(notifications))
    {
      var i := 0;
      while i < |notifications|
        invariant |notifications| == |old(notifications)| && 0 <= i <= |notifications|
        invariant forall j :: 0 <= j < i ==> notifications[j] == old(notifications)[j].(unread := false)
        invariant forall j :: i <= j < |notifications| ==> notifications[j] == old(notifications)[j]
      {
        notifications := notifications[i := notifications[i].(unread := false)];
        i := i + 1;
      }
    }

    method ClearAll()
      modifies this
      ensures notifications == []
    {
      notifications := [];
    }

    /** The badge of `updateBadge`: None hides it. */
    method Badge() returns (badge: Option<string>)
      ensures badge == BadgeText(UnreadCount(notifications))
    {
      var count := 0;
      var i := 0;
      while i < |notifications|
        invariant 0 <= i <= |notifications|
        invariant count == UnreadCount(notifications[..i])
      {
        UnreadCountSnoc(notifications[..i], notifications[i]);
        assert notifications[..i + 1] == notifications[..i] + [notifications[i]];
        if notifications[i].unread {
          count := count + 1;
        }
        i := i + 1;
      }
      assert notifications[..i] == notifications;
      badge := BadgeText(count);
    }

    /**
     * `generateAlerts`: classify each reading and add or clear its alerts;
     * the result says whether any new alert was added (the bell animation).
     */
    method GenerateAlerts(data: seq<Reading>, ideals: map<string, IdealRange>, now: Millis)
      returns (newAlerts: bool)
      modifies this
      ensures (notifications, newAlerts) == Generated(old(notifications), data, ideals, now)
    {
      newAlerts := false;
      var i := 0;
      while i < |data|
        invariant 0 <= i <= |data|
        invariant (notifications, newAlerts) == Generated(old(notifications), data[..i], ideals, now)
      {
        var r := data[i];
        ghost var before := notifications;
        GeneratedSnoc(old(notifications), data[..i], r, ideals, now);
        assert data[..i + 1] == data[..i] + [r];
        if r.key in ideals && r.value.Some? {
          var val := r.value.value;
          var range := ideals[r.key];
          var a := Classify(val, range);
          if a.Some? {
            var n := MakeNotification(r.key, val, range, a.value, now);
            assert AlertStep(before, r, ideals, now) == Added(before, n);
            var added := AddNotification(n);
            if added {
              newAlerts := true;
            }
          } else {
            assert AlertStep(before, r, ideals, now) == (Cleared(before, r.key), false);
            RemoveNotification(NotificationId(r.key, Critical));
            RemoveNotification(NotificationId(r.key, Warning));
          }
        }
        i := i + 1;
      }
      assert data[..i] == data;
    }
  }

  /** One more reading is one more step of `Generated`. */
  lemma GeneratedSnoc(l: seq<Notification>, rs: seq<Reading>, r: Reading, ideals: map<string, IdealRange>,
                      now: Millis)
    ensures Generated(l, rs + [r], ideals, now)
         == (AlertStep(Generated(l, rs, ideals, now).0, r, ideals, now).0,
             Generated(l, rs, ideals, now).1 || AlertStep(Generated(l, rs, ideals, now).0, r, ideals, now).1)
  {
    assert (rs + [r])[..|rs + [r]| - 1] == rs;
  }

  lemma UnreadCountSnoc(l: seq<Notification>, n: Notification)
    ensures UnreadCount(l + [n]) == UnreadCount(l) + (if n.unread then 1 else 0)
  {
    if l != [] {
      assert (l + [n])[1..] == l[1..] + [n];
      UnreadCountSnoc(l[1..], n);
    }
  }
}
