/** The two list responses, from the stores to the bytes: when they end their line. */
module ListResponses {
  import opened Protocol
  import opened Packing
  import Decimals
  import S = SensorManager
  import A = AlertEngine
  import Runs = AlertRuns
  import R = RegistryRuns
  import O = OperatorClient

  function SensorList(r: seq<S.Entry>): string {
    Pack(S.Items(r), 1024)
  }

  function AlertList(h: seq<A.Alert>): string {
    Pack(A.Items(h), 1024)
  }

  lemma {:induction false} SensorItemsShort(r: seq<S.Entry>)
    ensures forall i :: 0 <= i < |S.Items(r)| ==> |S.Items(r)[i]| <= 127
  {
    if r != [] {
      SensorItemsShort(r[..|r| - 1]);
    }
  }

  lemma {:induction false} AlertItemsShort(h: seq<A.Alert>)
    ensures forall i :: 0 <= i < |A.Items(h)| ==> |A.Items(h)[i]| <= 511
  {
    if h != [] {
      AlertItemsShort(h[..|h| - 1]);
    }
  }

  /** GET_SENSORS answers with a complete line exactly when all active entries together have at most
      501 characters; the list buffer of 1024 does not help. */
  lemma SensorListFramedIff(r: seq<S.Entry>)
    ensures BuildSensorsList(SensorList(r)) == "SENSORS " + SensorList(r) + "\r\n" <==> |Concat(S.Items(r))| <= 501
  {
    SensorItemsShort(r);
    PackWholeOrFull(S.Items(r), 1024, 127);
    ListFramedIff(SensorList(r));
  }

  /** GET_ALERTS: at most 502 characters. */
  lemma AlertListFramedIff(h: seq<A.Alert>)
    ensures BuildAlertsList(AlertList(h)) == "ALERTS " + AlertList(h) + "\r\n" <==> |Concat(A.Items(h))| <= 502
  {
    AlertItemsShort(h);
    PackWholeOrFull(A.Items(h), 1024, 511);
    assert |"ALERTS " + AlertList(h)| == 7 + |AlertList(h)|;
  }

  // ---------- when the operator client sees a line at all ----------

  predicate HasLineEnd(text: string) {
    '\r' in text || '\n' in text
  }

  lemma {:induction false} PlainItemsClean(r: seq<S.Entry>, c: char)
    requires (c == '\r' || c == '\n') && forall i :: 0 <= i < |r| ==> O.PlainEntry(r[i])
    ensures forall i :: 0 <= i < |S.Items(r)| ==> c !in S.Items(r)[i]
  {
    if r != [] {
      PlainItemsClean(r[..|r| - 1], c);
      O.BodyIsClean(r[|r| - 1]);
    }
  }

  lemma PlainListClean(r: seq<S.Entry>)
    requires forall i :: 0 <= i < |r| ==> O.PlainEntry(r[i])
    ensures !HasLineEnd(SensorList(r))
  {
    PlainItemsClean(r, '\r');
    PlainItemsClean(r, '\n');
    PackIsClean(S.Items(r), 1024, '\r');
    PackIsClean(S.Items(r), 1024, '\n');
  }

  lemma CutLine(list: string)
    requires !HasLineEnd(list)
    ensures HasLineEnd(BuildSensorsList(list)) <==> |list| <= 502
  {
    var line := "SENSORS " + list;
    var response := BuildSensorsList(list);
    if |list| <= 502 {
      assert response[|line|] == '\r';
    } else {
      assert response == line[..511];
      assert forall c :: c in response ==> c in line;
    }
  }

  /** A sensor list contains a line ending, so that a line-based client gets to see it, exactly when the
      entries have at most 502 characters: at 502 only the line feed is cut off. */
  lemma SensorListEndsIff(r: seq<S.Entry>)
    requires forall i :: 0 <= i < |r| ==> O.PlainEntry(r[i])
    ensures HasLineEnd(BuildSensorsList(SensorList(r))) <==> |Concat(S.Items(r))| <= 502
  {
    SensorItemsShort(r);
    PackWholeOrFull(S.Items(r), 1024, 127);
    PlainListClean(r);
    CutLine(SensorList(r));
  }

  // ---------- a list that is too long ----------

  function Filler(n: nat): (s: string)
    ensures |s| == n && forall i :: 0 <= i < n ==> s[i] == 'x'
  {
    seq(n, _ => 'x')
  }

  const TYPE := Filler(15)

  /** Ten different ids of 31 characters. */
  function LongId(i: nat): string
    requires i < 10
  {
    [Decimals.Digit(i)] + Filler(30)
  }

  function Registrations(n: nat): seq<R.Op>
    requires n <= 10
  {
    if n == 0 then [] else Registrations(n - 1) + [R.Register(TYPE, LongId(n - 1), 0)]
  }

  function LongEntry(i: nat): S.Entry
    requires i < 10
  {
    S.Entry(LongId(i), TYPE, 0.0, "", 0, true)
  }

  function LongEntries(n: nat): (r: seq<S.Entry>)
    requires n <= 10
    ensures |r| == n && forall i :: 0 <= i < n ==> r[i] == LongEntry(i)
  {
    seq(n, i requires 0 <= i < n => LongEntry(i))
  }

  lemma OneMoreRegistered(n: nat)
    requires n < 10
    ensures S.Accepts(LongEntries(n), LongId(n))
    ensures S.AfterRegister(LongEntries(n), TYPE, LongId(n), 0) == LongEntries(n + 1)
  {
    forall i | 0 <= i < n ensures LongEntries(n)[i].id != LongId(n) {
      assert LongId(i)[0] == Decimals.DIGITS[i] != Decimals.DIGITS[n] == LongId(n)[0];
    }
    R.IndexIs(LongEntries(n), LongId(n), n);
    assert |LongId(n)| == 31 && |TYPE| == 15;
  }

  lemma {:induction false} RegistrationsReplay(n: nat)
    requires n <= 10
    ensures |Registrations(n)| == n && R.Replay(Registrations(n)) == LongEntries(n)
    ensures forall k: nat :: k < n ==> R.RegisteredAt(Registrations(n), k)
  {
    if n > 0 {
      var before, ops := Registrations(n - 1), Registrations(n);
      RegistrationsReplay(n - 1);
      assert ops[..n - 1] == before;
      OneMoreRegistered(n - 1);
      forall k: nat | k < n ensures R.RegisteredAt(ops, k) {
        if k < n - 1 {
          assert R.RegisteredAt(before, k);
          assert ops[..k] == before[..k];
        }
      }
    }
  }

  lemma ZeroText()
    ensures |Decimals.Print(0.0, 2)| == 4
  {
    assert Decimals.Pow10(2) == 100 by {
      assert Decimals.Pow10(1) == 10;
    }
    Decimals.NearestOfInteger(0);
    assert Decimals.Natural(0) == "0";
  }

  lemma LongIdIsPlain(i: nat)
    requires i < 10
    ensures O.Plain(LongId(i)) && |LongId(i)| == 31
  {
    assert Decimals.IsDigit(LongId(i)[0]);
  }

  lemma LongBody(i: nat)
    requires i < 10
    ensures |O.Body(LongEntry(i))| == 53
  {
    ZeroText();
    LongIdIsPlain(i);
  }

  lemma LongItem(i: nat)
    requires i < 10
    ensures |S.Item(LongEntry(i))| == 54 && O.PlainEntry(LongEntry(i))
  {
    LongBody(i);
    LongIdIsPlain(i);
    assert O.Plain(TYPE);
    O.BodyIsClean(LongEntry(i));
  }

  lemma {:induction false} LongListLength(n: nat)
    requires n <= 10
    ensures |Concat(S.Items(LongEntries(n)))| == 54 * n
  {
    if n > 0 {
      var r := LongEntries(n);
      assert r[..n - 1] == LongEntries(n - 1) && r[..n] == r;
      LongListLength(n - 1);
      S.ItemsStep(r, n - 1);
      ConcatStep(S.Items(r[..n - 1]), S.Item(r[n - 1]));
      LongItem(n - 1);
    }
  }

  /** After ten accepted registrations the list has 540 characters and its response no line end. */
  lemma LongListUnfinished()
    ensures var ops := Registrations(10); var r := R.Replay(ops);
            && |ops| == 10 && (forall k: nat :: k < 10 ==> R.RegisteredAt(ops, k))
            && |Concat(S.Items(r))| == 540
            && !HasLineEnd(BuildSensorsList(SensorList(r)))
  {
    RegistrationsReplay(10);
    LongListLength(10);
    forall i | 0 <= i < 10 ensures O.PlainEntry(LongEntries(10)[i]) {
      LongItem(i);
    }
    SensorListEndsIff(LongEntries(10));
  }

  // ---------- an alert list that is too long ----------

  const RULES := [A.Threshold(TYPE, 30.0, A.Warning, ">", true)]

  const CLOCK: int -> int := _ => 0

  function Check(): Runs.Op {
    Runs.Check(LongId(0), TYPE, 31.0, CLOCK)
  }

  function Repeated(op: Runs.Op, n: nat): seq<Runs.Op> {
    if n == 0 then [] else Repeated(op, n - 1) + [op]
  }

  function LongAlert(): A.Alert {
    A.Alert(A.AlarmOf(RULES[0], LongId(0), TYPE, 31.0), 0, false)
  }

  lemma OneAlarm()
    ensures A.Block(RULES, LongId(0), TYPE, 31.0) == [A.AlarmOf(RULES[0], LongId(0), TYPE, 31.0)]
  {
    assert RULES[..0] == [];
    assert A.Fires(RULES[0], TYPE, 31.0);
  }

  function Copies(a: A.Alert, n: nat): (h: seq<A.Alert>)
    ensures |h| == n && forall i :: 0 <= i < n ==> h[i] == a
  {
    if n == 0 then [] else Copies(a, n - 1) + [a]
  }

  lemma OneMoreAlert(h: seq<A.Alert>)
    ensures Runs.After(h, RULES, Check()) == h + [LongAlert()]
  {
    OneAlarm();
    assert A.Stamped([A.AlarmOf(RULES[0], LongId(0), TYPE, 31.0)], CLOCK) == [LongAlert()];
  }

  lemma {:induction false} RepeatedHistory(ts: seq<A.Threshold>, op: Runs.Op, a: A.Alert, n: nat)
    requires forall h :: Runs.After(h, ts, op) == h + [a]
    ensures |Repeated(op, n)| == n && Runs.History(ts, Repeated(op, n)) == Copies(a, n)
  {
    if n > 0 {
      RepeatedHistory(ts, op, a, n - 1);
      Runs.HistoryAppend(ts, Repeated(op, n - 1), op);
    }
  }

  lemma LongMessage()
    ensures |A.Message(RULES[0], TYPE, 31.0)| >= 15
  {
  }

  /** An alert of a sensor with a long id and type takes at least 61 characters of the list. */
  lemma LongAlertItem()
    ensures A.Listed(LongAlert()) && |A.Item(LongAlert())| >= 61
  {
    LongMessage();
    assert |LongId(0)| == 31;
  }

  lemma {:induction false} LongAlertsLength(h: seq<A.Alert>)
    requires forall i :: 0 <= i < |h| ==> h[i] == LongAlert()
    ensures |Concat(A.Items(h))| >= 61 * |h|
  {
    if h != [] {
      var n := |h| - 1;
      LongAlertsLength(h[..n]);
      LongAlertItem();
      A.ItemsStep(h, n);
      assert h[..n + 1] == h;
      ConcatStep(A.Items(h[..n]), A.Item(h[n]));
    }
  }

  /** After ten checks that each raise one alert, the response to GET_ALERTS is not whole. */
  lemma LongAlertsUnfinished()
    ensures var h := Runs.History(RULES, Repeated(Check(), 10));
            && |h| == 10 && |Concat(A.Items(A.Window(h)))| >= 610
            && BuildAlertsList(AlertList(A.Window(h))) != "ALERTS " + AlertList(A.Window(h)) + "\r\n"
  {
    forall h ensures Runs.After(h, RULES, Check()) == h + [LongAlert()] {
      OneMoreAlert(h);
    }
    RepeatedHistory(RULES, Check(), LongAlert(), 10);
    var h := Copies(LongAlert(), 10);
    LongAlertsLength(h);
    AlertListFramedIff(h);
  }
}
