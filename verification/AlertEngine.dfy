/** alert_engine.c: thresholds, and the array of the 100 most recent alerts over an unbounded history. */
module AlertEngine {
  import opened CStrings
  import Decimals
  import Packing

  const MAX_ALERTS: nat := 100

  datatype Level = Warning | Critical

  /** The threshold record as later code reads it. */
  datatype Threshold = Threshold(ty: string, limit: real, level: Level, condition: string, active: bool)

  /** What a triggered threshold reports. */
  datatype Alarm = Alarm(id: string, ty: string, value: real, level: Level, message: string)

  datatype Alert = Alert(alarm: Alarm, stamp: int, resolved: bool)

  /** The C records, with their character fields. */
  datatype ThresholdRecord = ThresholdRecord(ty: seq<char>, limit: real, level: Level, condition: seq<char>,
                                             isActive: bool, lastTriggered: int, message: seq<char>)

  datatype AlertRecord = AlertRecord(id: seq<char>, ty: seq<char>, value: real, level: Level,
                                     stamp: int, message: seq<char>, isResolved: bool)

  predicate ThresholdFields(t: ThresholdRecord) {
    Field(t.ty, 16) && Field(t.condition, 8) && Field(t.message, 256)
  }

  predicate AlertFields(a: AlertRecord) {
    Field(a.id, 32) && Field(a.ty, 16) && Field(a.message, 256)
  }

  function ReadThreshold(t: ThresholdRecord): Threshold {
    Threshold(CStr(t.ty), t.limit, t.level, CStr(t.condition), t.isActive)
  }

  function ReadAlert(a: AlertRecord): Alert {
    Alert(Alarm(CStr(a.id), CStr(a.ty), a.value, a.level, CStr(a.message)), a.stamp, a.isResolved)
  }

  function ReadThresholds(s: seq<ThresholdRecord>): (r: seq<Threshold>)
    ensures |r| == |s| && forall i :: 0 <= i < |s| ==> r[i] == ReadThreshold(s[i])
  {
    seq(|s|, i requires 0 <= i < |s| => ReadThreshold(s[i]))
  }

  function ReadAlerts(s: seq<AlertRecord>): (r: seq<Alert>)
    ensures |r| == |s| && forall i :: 0 <= i < |s| ==> r[i] == ReadAlert(s[i])
  {
    seq(|s|, i requires 0 <= i < |s| => ReadAlert(s[i]))
  }

  // ---------- when a threshold fires ----------

  function CheckCondition(value: real, limit: real, condition: string): bool {
    if condition == ">" then value > limit
    else if condition == "<" then value < limit
    else if condition == ">=" then value >= limit
    else if condition == "<=" then value <= limit
    else false
  }

  /** strncmp over 15 characters. */
  predicate SameType(a: string, b: string) {
    Take(a, 15) == Take(b, 15)
  }

  predicate Fires(t: Threshold, ty: string, value: real) {
    t.active && SameType(t.ty, ty) && CheckCondition(value, t.limit, t.condition)
  }

  /** What it means that a reading breaks a rule: the rule is active, for the same type up to the 15
      characters of a field, and the value is on the wrong side of the limit. */
  predicate Breaks(t: Threshold, ty: string, value: real) {
    && t.active && Take(t.ty, 15) == Take(ty, 15)
    && (|| (t.condition == ">" && value > t.limit)
        || (t.condition == "<" && value < t.limit)
        || (t.condition == ">=" && value >= t.limit)
        || (t.condition == "<=" && value <= t.limit))
  }

  lemma FiresIff(t: Threshold, ty: string, value: real)
    ensures Fires(t, ty, value) <==> Breaks(t, ty, value)
  {
    assert ">"[0] == '>' && "<"[0] == '<' && ">="[0] == '>' && "<="[0] == '<';
  }

  function Message(t: Threshold, ty: string, value: real): (text: string)
    ensures |text| <= 255
  {
    Snprintf(256, ty + ": " + Decimals.Print(value, 2) + " " + t.condition + " " + Decimals.Print(t.limit, 2))
  }

  function AlarmOf(t: Threshold, id: string, ty: string, value: real): Alarm {
    Alarm(Take(id, 31), Take(ty, 15), value, t.level, Message(t, ty, value))
  }

  /** What an alarm says about the rule and the reading that raised it. */
  predicate Reports(alarm: Alarm, t: Threshold, id: string, ty: string, value: real) {
    && alarm.id == Take(id, 31) && alarm.ty == Take(ty, 15) && alarm.value == value && alarm.level == t.level
    && alarm.message <= ty + ": " + Decimals.Print(value, 2) + " " + t.condition + " " + Decimals.Print(t.limit, 2)
    && (|alarm.message| < 255 ==>
          alarm.message == ty + ": " + Decimals.Print(value, 2) + " " + t.condition + " " + Decimals.Print(t.limit, 2))
  }

  lemma AlarmReports(t: Threshold, id: string, ty: string, value: real)
    ensures Reports(AlarmOf(t, id, ty, value), t, id, ty, value)
  {
  }

  /** The alarms of one checked measurement: one per firing threshold, in registration order. */
  function Block(ts: seq<Threshold>, id: string, ty: string, value: real): seq<Alarm> {
    if ts == [] then [] else
      var before := Block(ts[..|ts| - 1], id, ty, value);
      var t := ts[|ts| - 1];
      if Fires(t, ty, value) then before + [AlarmOf(t, id, ty, value)] else before
  }

  /** Alarms as they enter the history, the k-th stamped with the k-th clock reading. */
  function Stamped(alarms: seq<Alarm>, clock: int -> int): (r: seq<Alert>)
    ensures |r| == |alarms|
    ensures forall k :: 0 <= k < |alarms| ==> r[k] == Alert(alarms[k], clock(k), false)
  {
    seq(|alarms|, k requires 0 <= k < |alarms| => Alert(alarms[k], clock(k), false))
  }

  /** The entries of the history that are still visible. */
  function Window(history: seq<Alert>): (w: seq<Alert>)
    ensures |w| == if |history| <= MAX_ALERTS then |history| else MAX_ALERTS
    ensures w == history[|history| - |w|..]
  {
    if |history| <= MAX_ALERTS then history else history[|history| - MAX_ALERTS..]
  }

  predicate Pending(a: Alert, id: string) {
    a.alarm.id == id && !a.resolved
  }

  /** Every matching entry marked, however old. */
  function Resolved(h: seq<Alert>, id: string): (r: seq<Alert>)
    ensures |r| == |h|
    ensures forall i :: 0 <= i < |h| ==> r[i] == if h[i].alarm.id == id then h[i].(resolved := true) else h[i]
  {
    seq(|h|, i requires 0 <= i < |h| => if h[i].alarm.id == id then h[i].(resolved := true) else h[i])
  }

  function CountPending(h: seq<Alert>, id: string): nat {
    if h == [] then 0 else
      CountPending(h[..|h| - 1], id) + if Pending(h[|h| - 1], id) then 1 else 0
  }

  // ---------- the list of active alerts ----------

  function Item(a: Alert): string {
    Snprintf(512, a.alarm.id + "," + a.alarm.ty + "," + Decimals.Print(a.alarm.value, 2) + ","
                  + (if a.alarm.level.Warning? then "WARNING" else "CRITICAL") + ","
                  + Decimals.Integer(a.stamp) + "," + a.alarm.message + ";")
  }

  predicate Listed(a: Alert) {
    !a.resolved && a.alarm.id != ""
  }

  function Items(h: seq<Alert>): seq<string> {
    if h == [] then [] else
      var before := Items(h[..|h| - 1]);
      if Listed(h[|h| - 1]) then before + [Item(h[|h| - 1])] else before
  }

  lemma ItemsStep(h: seq<Alert>, i: nat)
    requires i < |h|
    ensures Items(h[..i + 1]) == if Listed(h[i]) then Items(h[..i]) + [Item(h[i])] else Items(h[..i])
  {
    assert h[..i + 1][..i] == h[..i];
  }

  lemma BlockStep(ts: seq<Threshold>, i: nat, id: string, ty: string, value: real)
    requires i < |ts|
    ensures Block(ts[..i + 1], id, ty, value) ==
            if Fires(ts[i], ty, value) then Block(ts[..i], id, ty, value) + [AlarmOf(ts[i], id, ty, value)]
            else Block(ts[..i], id, ty, value)
  {
    assert ts[..i + 1][..i] == ts[..i];
  }

  /** The pending alerts of a sensor, by their places. */
  function PendingAt(h: seq<Alert>, id: string): set<nat> {
    set i: nat | i < |h| && h[i].alarm.id == id && !h[i].resolved
  }

  lemma {:induction false} CountIsPending(h: seq<Alert>, id: string)
    ensures CountPending(h, id) == |PendingAt(h, id)|
  {
    if h != [] {
      var n := |h| - 1;
      CountIsPending(h[..n], id);
      assert PendingAt(h, id) == PendingAt(h[..n], id) + if Pending(h[n], id) then {n} else {};
    }
  }

  lemma CountStep(h: seq<Alert>, i: nat, id: string)
    requires i < |h|
    ensures CountPending(h[..i + 1], id) == CountPending(h[..i], id) + if Pending(h[i], id) then 1 else 0
  {
    assert h[..i + 1][..i] == h[..i];
  }

  /** The visible alerts after room was made for one more. */
  function Shifted(w: seq<Alert>): seq<Alert> {
    if |w| == MAX_ALERTS then w[1..] else w
  }

  /** Shift left when full, then append. */
  function Push(w: seq<Alert>, a: Alert): seq<Alert> {
    Shifted(w) + [a]
  }

  /** The eviction step: shifting left when full and appending is the window of the longer history. */
  lemma WindowAppend(h: seq<Alert>, a: Alert)
    ensures Window(h + [a]) == Push(Window(h), a)
  {
  }

  /** Marking the visible entries shows the window of the fully marked history. */
  lemma WindowResolved(h: seq<Alert>, id: string)
    ensures Window(Resolved(h, id)) == Resolved(Window(h), id)
  {
  }

  /** The fields written into a threshold slot. */
  function FilledThreshold(t: ThresholdRecord, ty: string, limit: real, level: Level, condition: string, message: string)
    : ThresholdRecord
    requires ThresholdFields(t)
  {
    ThresholdRecord(Strncpy(t.ty, ty, 15), limit, level, Strncpy(t.condition, condition, 7), true, 0,
                    Strncpy(t.message, message, 255))
  }

  lemma FilledReads(t: ThresholdRecord, ty: string, limit: real, level: Level, condition: string, message: string)
    requires ThresholdFields(t) && NulFree(ty) && NulFree(condition) && NulFree(message)
    ensures ThresholdFields(FilledThreshold(t, ty, limit, level, condition, message))
    ensures ReadThreshold(FilledThreshold(t, ty, limit, level, condition, message))
         == Threshold(Take(ty, 15), limit, level, Take(condition, 7), true)
  {
    StrncpyField(t.ty, ty, 16);
    StrncpyField(t.condition, condition, 8);
    StrncpyField(t.message, message, 256);
  }

  /** How a newly added alert reads. */
  function Fresh(id: string, ty: string, value: real, level: Level, message: string, now: int): Alert {
    Alert(Alarm(Take(id, 31), Take(ty, 15), value, level, Take(message, 255)), now, false)
  }

  /** The fields written into a slot, whatever it held before. */
  function Overwrite(a: AlertRecord, id: string, ty: string, value: real, level: Level, message: string, now: int)
    : AlertRecord
    requires AlertFields(a)
  {
    AlertRecord(Strncpy(a.id, id, 31)[31 := NUL], Strncpy(a.ty, ty, 15)[15 := NUL], value, level, now,
                Strncpy(a.message, message, 255)[255 := NUL], false)
  }

  lemma OverwriteReads(a: AlertRecord, id: string, ty: string, value: real, level: Level, message: string, now: int)
    requires AlertFields(a) && NulFree(id) && NulFree(ty) && NulFree(message)
    ensures AlertFields(Overwrite(a, id, ty, value, level, message, now))
    ensures ReadAlert(Overwrite(a, id, ty, value, level, message, now))
         == Fresh(id, ty, value, level, message, now)
  {
    StrncpyTerminated(a.id, id, 32);
    StrncpyTerminated(a.ty, ty, 16);
    StrncpyTerminated(a.message, message, 256);
  }

  /** One more threshold of a check, on the history. */
  lemma HistoryStep(h: seq<Alert>, rules: seq<Threshold>, i: nat, id: string, ty: string, value: real, clock: int -> int)
    requires i < |rules|
    ensures var b, c := Block(rules[..i], id, ty, value), Block(rules[..i + 1], id, ty, value);
            if Fires(rules[i], ty, value)
            then |c| == |b| + 1 && h + Stamped(c, clock)
                 == h + Stamped(b, clock) + [Alert(AlarmOf(rules[i], id, ty, value), clock(|b|), false)]
            else c == b
  {
    BlockStep(rules, i, id, ty, value);
    var b, alarm := Block(rules[..i], id, ty, value), AlarmOf(rules[i], id, ty, value);
    StampedStep(b, alarm, clock);
    AppendLast(h, Stamped(b, clock), Alert(alarm, clock(|b|), false));
  }

  lemma AppendLast(h: seq<Alert>, b: seq<Alert>, x: Alert)
    ensures h + (b + [x]) == h + b + [x]
  {
  }

  lemma StampedStep(alarms: seq<Alarm>, a: Alarm, clock: int -> int)
    ensures Stamped(alarms + [a], clock) == Stamped(alarms, clock) + [Alert(a, clock(|alarms|), false)]
  {
  }

  lemma ReadShifted(records: seq<AlertRecord>)
    requires |records| == MAX_ALERTS
    ensures ReadAlerts(records[1..]) == ReadAlerts(records)[1..]
  {
  }

  /** An alert after everything of sensor `id` was resolved. */
  function Marked(a: Alert, id: string): Alert {
    if Pending(a, id) then a.(resolved := true) else a
  }

  /** A scan that has passed the first i of the alerts that read `w` at its start. */
  ghost predicate Marking(visible: seq<Alert>, w: seq<Alert>, id: string, i: nat, resolved: nat) {
    && i <= |w| == |visible| && resolved == CountPending(w[..i], id)
    && forall j :: 0 <= j < |w| ==> visible[j] == if j < i then Marked(w[j], id) else w[j]
  }

  lemma MarkingStarts(w: seq<Alert>, id: string)
    ensures Marking(w, w, id, 0, 0)
  {
  }

  lemma MarkingStep(visible: seq<Alert>, w: seq<Alert>, id: string, i: nat, resolved: nat)
    requires Marking(visible, w, id, i, resolved) && i < |w|
    ensures visible[i] == w[i]
    ensures Marking(visible[i := Marked(w[i], id)], w, id, i + 1, if Pending(w[i], id) then resolved + 1 else resolved)
  {
    CountStep(w, i, id);
  }

  lemma MarkingEnds(visible: seq<Alert>, w: seq<Alert>, id: string, resolved: nat)
    requires Marking(visible, w, id, |w|, resolved)
    ensures visible == Resolved(w, id) && resolved == CountPending(w, id)
  {
    assert w[..|w|] == w;
  }

  class Engine {
    const thresholds: array<ThresholdRecord>
    const alerts: array<AlertRecord>
    var thresholdCount: nat
    var alertCount: nat
    /** Every alert ever added, with its present mark. */
    ghost var history: seq<Alert>

    ghost predicate ThresholdsSound()
      reads this`thresholdCount, thresholds
    {
      thresholdCount <= MAX_ALERTS == thresholds.Length &&
      forall i :: 0 <= i < MAX_ALERTS ==> ThresholdFields(thresholds[i])
    }

    ghost predicate AlertsSound()
      reads this`alertCount, alerts
    {
      alertCount <= MAX_ALERTS == alerts.Length &&
      forall i :: 0 <= i < MAX_ALERTS ==> AlertFields(alerts[i])
    }

    ghost function Visible(): seq<Alert>
      reads this`alertCount, alerts
      requires alertCount <= alerts.Length
    {
      ReadAlerts(alerts[..alertCount])
    }

    /** The array always shows exactly the most recent part of the history. */
    ghost predicate Valid()
      reads this, thresholds, alerts
    {
      ThresholdsSound() && AlertsSound() && Visible() == Window(history)
    }

    ghost function Rules(): seq<Threshold>
      reads this`thresholdCount, thresholds
      requires thresholdCount <= thresholds.Length
    {
      ReadThresholds(thresholds[..thresholdCount])
    }

    constructor ()
      ensures Valid() && fresh(thresholds) && fresh(alerts)
      ensures Rules() == [] && history == []
    {
      var t := ThresholdRecord(Nuls(16), 0.0, Warning, Nuls(8), false, 0, Nuls(256));
      var a := AlertRecord(Nuls(32), Nuls(16), 0.0, Warning, 0, Nuls(256), false);
      thresholds := new ThresholdRecord[MAX_ALERTS](_ => t);
      alerts := new AlertRecord[MAX_ALERTS](_ => a);
      thresholdCount := 0;
      alertCount := 0;
      history := [];
    }

    method RegisterThreshold(ty: string, limit: real, level: Level, condition: string, message: string)
      returns (result: int)
      requires Valid() && NulFree(ty) && NulFree(condition) && NulFree(message)
      modifies this`thresholdCount, thresholds
      ensures Valid() && history == old(history)
      ensures result == if |old(Rules())| < 100 && ty != "" then 0 else -1
      ensures Rules() == if result == 0
                         then old(Rules()) + [Threshold(Take(ty, 15), limit, level, Take(condition, 7), true)]
                         else old(Rules())
    {
      if thresholdCount >= MAX_ALERTS {
        return -1;
      }
      if ty == "" {
        return -1;
      }
      StoreThreshold(ty, limit, level, condition, message);
      return 0;
    }

    method StoreThreshold(ty: string, limit: real, level: Level, condition: string, message: string)
      requires ThresholdsSound() && thresholdCount < MAX_ALERTS
      requires NulFree(ty) && NulFree(condition) && NulFree(message)
      modifies this`thresholdCount, thresholds
      ensures ThresholdsSound()
      ensures Rules() == old(Rules()) + [Threshold(Take(ty, 15), limit, level, Take(condition, 7), true)]
    {
      var slot := thresholds[thresholdCount];
      FilledReads(slot, ty, limit, level, condition, message);
      thresholds[thresholdCount] := FilledThreshold(slot, ty, limit, level, condition, message);
      thresholdCount := thresholdCount + 1;
      assert Rules()[..thresholdCount - 1] == old(Rules());
    }

    /** memmove of the entries 1..99 onto 0..98. */
    method ShiftLeft()
      requires alerts.Length == MAX_ALERTS
      modifies alerts
      ensures alerts[..MAX_ALERTS - 1] == old(alerts[1..])
      ensures alerts[MAX_ALERTS - 1] == old(alerts[MAX_ALERTS - 1])
    {
      for i := 0 to MAX_ALERTS - 1
        invariant forall j :: 0 <= j < i ==> alerts[j] == old(alerts[j + 1])
        invariant forall j :: i <= j < MAX_ALERTS ==> alerts[j] == old(alerts[j])
      {
        alerts[i] := alerts[i + 1];
      }
    }

    /** Drops the oldest visible alert when the array is full. */
    method MakeRoom()
      requires AlertsSound()
      modifies this`alertCount, alerts
      ensures AlertsSound() && alertCount < MAX_ALERTS
      ensures Visible() == Shifted(old(Visible()))
    {
      if alertCount >= MAX_ALERTS {
        ghost var before := alerts[..];
        ShiftLeft();
        alertCount := MAX_ALERTS - 1;
        assert alerts[..alertCount] == before[1..];
        forall i | 0 <= i < alertCount ensures AlertFields(alerts[i]) {
          assert alerts[i] == alerts[..alertCount][i] == before[1..][i] == before[i + 1];
        }
        assert before == before[..MAX_ALERTS];
        ReadShifted(before);
      }
    }

    method Store(a: AlertRecord)
      requires AlertsSound() && alertCount < MAX_ALERTS && AlertFields(a)
      modifies this`alertCount, alerts
      ensures AlertsSound() && Visible() == old(Visible()) + [ReadAlert(a)]
    {
      alerts[alertCount] := a;
      alertCount := alertCount + 1;
      assert alerts[..alertCount] == old(alerts[..alertCount]) + [a];
    }

    method WriteSlot(id: string, ty: string, value: real, level: Level, message: string, now: int)
      requires AlertsSound() && alertCount < MAX_ALERTS && NulFree(id) && NulFree(ty) && NulFree(message)
      modifies this`alertCount, alerts
      ensures AlertsSound()
      ensures Visible() == old(Visible()) + [Fresh(id, ty, value, level, message, now)]
    {
      var slot := alerts[alertCount];
      OverwriteReads(slot, id, ty, value, level, message, now);
      Store(Overwrite(slot, id, ty, value, level, message, now));
    }

    method AddActiveAlert(id: string, ty: string, value: real, level: Level, message: string, now: int)
      requires Valid() && NulFree(id) && NulFree(ty) && NulFree(message)
      modifies this`alertCount, this`history, alerts
      ensures Valid()
      ensures history == old(history) + [Fresh(id, ty, value, level, message, now)]
    {
      PushAlert(id, ty, value, level, message, now);
      WindowAppend(history, Fresh(id, ty, value, level, message, now));
      history := history + [Fresh(id, ty, value, level, message, now)];
    }

    method PushAlert(id: string, ty: string, value: real, level: Level, message: string, now: int)
      requires AlertsSound() && NulFree(id) && NulFree(ty) && NulFree(message)
      modifies this`alertCount, alerts
      ensures AlertsSound()
      ensures Visible() == Push(old(Visible()), Fresh(id, ty, value, level, message, now))
    {
      MakeRoom();
      WriteSlot(id, ty, value, level, message, now);
    }

    method Touch(i: nat, now: int)
      requires Valid() && i < thresholdCount
      modifies thresholds
      ensures Valid() && Rules() == old(Rules())
    {
      thresholds[i] := thresholds[i].(lastTriggered := now);
    }

    /** The body of the scan for one threshold. */
    method CheckThreshold(i: nat, id: string, ty: string, value: real, now: int, later: int) returns (fired: bool)
      requires Valid() && NulFree(id) && NulFree(ty) && i < thresholdCount
      modifies this`alertCount, this`history, alerts, thresholds
      ensures Valid() && Rules() == old(Rules())
      ensures fired == Breaks(Rules()[i], ty, value)
      ensures history == if fired then old(history) + [Alert(AlarmOf(Rules()[i], id, ty, value), now, false)]
                         else old(history)
    {
      var t := ReadThreshold(thresholds[i]);
      FiresIff(t, ty, value);
      fired := false;
      if t.active && SameType(t.ty, ty) {
        if CheckCondition(value, t.limit, t.condition) {
          MessageIsText(t, ty, value, thresholds[i]);
          AddActiveAlert(id, ty, value, t.level, Message(t, ty, value), now);
          fired := true;
          Touch(i, later);
        }
      }
    }

    /** One iteration of the scan, on the history that the check started from. */
    method ScanOne(i: nat, id: string, ty: string, value: real, clock: int -> int, count: nat, ghost start: seq<Alert>)
      returns (triggered: nat)
      requires Valid() && NulFree(id) && NulFree(ty) && i < thresholdCount
      requires history == start + Stamped(Block(Rules()[..i], id, ty, value), clock)
      requires count == |Block(Rules()[..i], id, ty, value)|
      modifies this`alertCount, this`history, alerts, thresholds
      ensures Valid() && Rules() == old(Rules())
      ensures history == start + Stamped(Block(old(Rules())[..i + 1], id, ty, value), clock)
      ensures triggered == |Block(old(Rules())[..i + 1], id, ty, value)|
    {
      HistoryStep(start, Rules(), i, id, ty, value, clock);
      FiresIff(Rules()[i], ty, value);
      var fired := CheckThreshold(i, id, ty, value, clock(count), clock(count + 1));
      triggered := if fired then count + 1 else count;
    }

    /** `clock(k)` is what time() answers for the k-th alert of this call. */
    method CheckMeasurement(id: string, ty: string, value: real, clock: int -> int) returns (triggered: nat)
      requires Valid() && NulFree(id) && NulFree(ty)
      modifies this`alertCount, this`history, alerts, thresholds
      ensures Valid() && Rules() == old(Rules())
      ensures history == old(history) + Stamped(Block(old(Rules()), id, ty, value), clock)
      ensures triggered == |Block(old(Rules()), id, ty, value)|
    {
      triggered := 0;
      ghost var rules, start := Rules(), history;
      assert start + Stamped([], clock) == start;
      for i := 0 to thresholdCount
        invariant Valid() && Rules() == rules
        invariant triggered == |Block(rules[..i], id, ty, value)|
        invariant history == start + Stamped(Block(rules[..i], id, ty, value), clock)
      {
        triggered := ScanOne(i, id, ty, value, clock, triggered, start);
      }
      assert rules[..thresholdCount] == rules;
    }

    method GetActiveAlerts(size: nat) returns (result: int, output: string)
      requires Valid()
      ensures result == if size > 0 then 0 else -1
      ensures size > 0 ==> output == Packing.Pack(Items(Window(history)), size)
    {
      output := "";
      if size == 0 {
        return -1, output;
      }
      for i := 0 to alertCount
        invariant output == Packing.Pack(Items(Window(history)[..i]), size)
      {
        ItemsStep(Window(history), i);
        var a := ReadAlert(alerts[i]);
        assert a == Window(history)[i];
        if Listed(a) {
          var temp := Item(a);
          Packing.PackStep(Items(Window(history)[..i]), temp, size);
          if |output| + |temp| < size {
            output := output + temp;
          }
        }
      }
      assert Window(history)[..alertCount] == Window(history);
      result := 0;
    }

    /** One step of the scan over the entries that read `w` at its start. */
    method MarkIfPending(i: nat, id: string, resolved: nat, ghost w: seq<Alert>) returns (count: nat)
      requires AlertsSound() && i < alertCount == |w| && NulFree(id)
      requires Marking(Visible(), w, id, i, resolved)
      modifies alerts
      ensures AlertsSound() && Marking(Visible(), w, id, i + 1, count)
    {
      ghost var before := Visible();
      MarkingStep(before, w, id, i, resolved);
      count := resolved;
      if CStr(alerts[i].id) == id && !alerts[i].isResolved {
        alerts[i] := alerts[i].(isResolved := true);
        count := resolved + 1;
      }
      assert Visible() == before[i := Marked(w[i], id)];
    }

    method MarkPending(id: string) returns (resolved: nat)
      requires AlertsSound() && NulFree(id)
      modifies alerts
      ensures AlertsSound()
      ensures Visible() == Resolved(old(Visible()), id)
      ensures resolved == CountPending(old(Visible()), id)
    {
      resolved := 0;
      ghost var w := Visible();
      MarkingStarts(w, id);
      for i := 0 to alertCount
        invariant AlertsSound() && Marking(Visible(), w, id, i, resolved)
      {
        resolved := MarkIfPending(i, id, resolved, w);
      }
      MarkingEnds(Visible(), w, id, resolved);
    }

    /** Marks the visible alerts of a sensor; evicted ones are marked in the history only. */
    method ResolveAlert(id: string) returns (resolved: nat)
      requires Valid() && NulFree(id)
      modifies this`history, alerts
      ensures Valid()
      ensures history == Resolved(old(history), id)
      ensures resolved == |PendingAt(Window(old(history)), id)|
    {
      resolved := MarkPending(id);
      CountIsPending(Window(history), id);
      WindowResolved(history, id);
      history := Resolved(history, id);
    }

    method Cleanup()
      requires Valid()
      modifies this, thresholds, alerts
      ensures Valid() && Rules() == [] && history == []
    {
      var t := ThresholdRecord(Nuls(16), 0.0, Warning, Nuls(8), false, 0, Nuls(256));
      var a := AlertRecord(Nuls(32), Nuls(16), 0.0, Warning, 0, Nuls(256), false);
      thresholdCount := 0;
      alertCount := 0;
      forall i | 0 <= i < thresholds.Length {
        thresholds[i] := t;
      }
      forall i | 0 <= i < alerts.Length {
        alerts[i] := a;
      }
      history := [];
    }
  }

  lemma PrintIsText(value: real)
    ensures NulFree(Decimals.Print(value, 2))
  {
    Decimals.PrintCharacters(value, 2);
  }

  /** The formatted message is a C string. */
  lemma MessageIsText(t: Threshold, ty: string, value: real, record: ThresholdRecord)
    requires NulFree(ty) && t == ReadThreshold(record)
    ensures NulFree(Message(t, ty, value))
  {
    CStrIsNulFree(record.condition);
    var v, l := Decimals.Print(value, 2), Decimals.Print(t.limit, 2);
    PrintIsText(value);
    PrintIsText(t.limit);
    NulFreeAppend(ty, ": ");
    NulFreeAppend(ty + ": ", v);
    NulFreeAppend(ty + ": " + v, " ");
    NulFreeAppend(ty + ": " + v + " ", t.condition);
    NulFreeAppend(ty + ": " + v + " " + t.condition, " ");
    NulFreeAppend(ty + ": " + v + " " + t.condition + " ", l);
    NulFreePrefix(Message(t, ty, value), ty + ": " + v + " " + t.condition + " " + l);
  }
}
