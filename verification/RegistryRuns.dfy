/** Whole runs of the sensor registry: which registrations are stored, what later lookups see,
    and the insertion-ordered map that the array refines. */
module RegistryRuns {
  import opened CStrings
  import opened SensorManager

  datatype Op =
    | Register(ty: string, id: string, now: int)
    | Measure(id: string, value: real, unit: string, now: int)

  function Apply(r: seq<Entry>, op: Op): seq<Entry> {
    match op
    case Register(ty, id, now) => AfterRegister(r, ty, id, now)
    case Measure(id, value, unit, now) => AfterMeasure(r, id, value, unit, now)
  }

  /** The registry after a run that starts empty. */
  function Replay(ops: seq<Op>): seq<Entry> {
    if ops == [] then [] else Apply(Replay(ops[..|ops| - 1]), ops[|ops| - 1])
  }

  /** Operation k is a registration answered 0. */
  predicate RegisteredAt(ops: seq<Op>, k: nat) {
    k < |ops| && ops[k].Register? && Accepts(Replay(ops[..k]), ops[k].id)
  }

  /** Operation k is a measurement of `id` answered 0. */
  predicate MeasuredAt(ops: seq<Op>, k: nat, id: string) {
    k < |ops| && ops[k].Measure? && ops[k].id == id && Has(Replay(ops[..k]), id)
  }

  /** Operation k is an accepted registration whose stored form is `id`. */
  predicate Stores(ops: seq<Op>, k: nat, id: string) {
    RegisteredAt(ops, k) && Take(ops[k].id, 31) == id
  }

  lemma StoresInPrefix(ops: seq<Op>, n: nat, k: nat, id: string)
    requires k < n <= |ops|
    ensures Stores(ops[..n], k, id) == Stores(ops, k, id)
    ensures MeasuredAt(ops[..n], k, id) == MeasuredAt(ops, k, id)
  {
    assert ops[..n][..k] == ops[..k];
  }

  // ---------- what never changes ----------

  ghost predicate Extends(r: seq<Entry>, q: seq<Entry>) {
    |r| <= |q| && forall i :: 0 <= i < |r| ==> q[i].id == r[i].id && q[i].ty == r[i].ty
  }

  ghost predicate Bounded(r: seq<Entry>) {
    |r| <= 50 &&
    forall i :: 0 <= i < |r| ==> |r[i].id| <= 31 && |r[i].ty| <= 15 && |r[i].unit| <= 15 && r[i].active
  }

  lemma IndexIs(r: seq<Entry>, id: string, i: nat)
    requires i <= |r| && forall j :: 0 <= j < i ==> r[j].id != id
    requires i < |r| ==> r[i].id == id
    ensures Index(r, id) == i
  {
    var k := Index(r, id);
    assert !(k < i) && !(i < k);
  }

  /** Slots that were filled keep their id and type, so a lookup that succeeded keeps its slot. */
  lemma LookupStable(r: seq<Entry>, q: seq<Entry>, id: string)
    requires Extends(r, q) && Has(r, id)
    ensures Has(q, id) && Index(q, id) == Index(r, id)
    ensures q[Index(q, id)].ty == r[Index(r, id)].ty
  {
    var i := Index(r, id);
    assert forall j :: 0 <= j < i ==> q[j].id == r[j].id;
    IndexIs(q, id, i);
  }

  /** Over any run the count never shrinks and never exceeds 50, and filled slots keep id and type. */
  lemma {:induction false} ReplayExtends(ops: seq<Op>, n: nat)
    requires n <= |ops|
    ensures Extends(Replay(ops[..n]), Replay(ops))
  {
    if n < |ops| {
      ReplayExtends(ops[..|ops| - 1], n);
      assert ops[..|ops| - 1][..n] == ops[..n];
    } else {
      assert ops[..n] == ops;
    }
  }

  lemma {:induction false} ReplayBounded(ops: seq<Op>)
    ensures Bounded(Replay(ops))
  {
    if ops != [] {
      ReplayBounded(ops[..|ops| - 1]);
    }
  }

  lemma LongIdAbsent(ops: seq<Op>, id: string)
    ensures |id| > 31 ==> !Has(Replay(ops), id)
  {
    ReplayBounded(ops);
  }

  // ---------- lookups and the first registration ----------

  lemma FoundStep(r: seq<Entry>, op: Op, id: string)
    requires |op.id| > 31 ==> !Has(r, op.id)
    ensures Has(Apply(r, op), id) <==>
            Has(r, id) || (op.Register? && Accepts(r, op.id) && Take(op.id, 31) == id)
  {
    var q := Apply(r, op);
    assert forall i :: 0 <= i < |r| ==> q[i].id == r[i].id;
    if Has(r, id) {
      IndexIs(q, id, Index(r, id));
    } else if |q| > |r| && q[|r|].id == id {
      IndexIs(q, id, |r|);
    } else {
      IndexIs(q, id, |q|);
    }
  }

  lemma {:induction false} FoundIffStored(ops: seq<Op>, id: string)
    ensures Has(Replay(ops), id) <==> exists k: nat :: Stores(ops, k, id)
  {
    if ops != [] {
      var n := |ops| - 1;
      FoundIffStored(ops[..n], id);
      LongIdAbsent(ops[..n], ops[n].id);
      FoundStep(Replay(ops[..n]), ops[n], id);
      forall k: nat | k < n ensures Stores(ops[..n], k, id) == Stores(ops, k, id) {
        StoresInPrefix(ops, n, k, id);
      }
      if Has(Replay(ops[..n]), id) {
        var k: nat :| Stores(ops[..n], k, id);
        assert Stores(ops, k, id);
      }
      assert Stores(ops, n, id) == (RegisteredAt(ops, n) && Take(ops[n].id, 31) == id);
    }
  }

  /** The first accepted registration stored under `id` decides its type for the rest of the run. */
  lemma FirstTypeWins(ops: seq<Op>, k: nat, id: string)
    requires Stores(ops, k, id)
    requires forall j: nat :: j < k ==> !Stores(ops, j, id)
    ensures Has(Replay(ops), id) && Replay(ops)[Index(Replay(ops), id)].ty == Take(ops[k].ty, 15)
  {
    var r, q := Replay(ops[..k]), Replay(ops[..k + 1]);
    assert ops[..k + 1][..k] == ops[..k];
    forall j: nat ensures !Stores(ops[..k], j, id) {
      if j < k {
        StoresInPrefix(ops, k, j, id);
      }
    }
    FoundIffStored(ops[..k], id);
    LongIdAbsent(ops[..k], ops[k].id);
    IndexIs(q, id, |r|);
    ReplayExtends(ops, k + 1);
    LookupStable(q, Replay(ops), id);
  }

  /** A measurement is accepted exactly when an earlier accepted registration is stored under its id. */
  lemma MeasurementAcceptedIff(ops: seq<Op>, k: nat)
    requires k < |ops| && ops[k].Measure?
    ensures MeasuredAt(ops, k, ops[k].id) <==> exists j: nat :: j < k && Stores(ops, j, ops[k].id)
  {
    var id := ops[k].id;
    FoundIffStored(ops[..k], id);
    forall j: nat | j < k ensures Stores(ops[..k], j, id) == Stores(ops, j, id) {
      StoresInPrefix(ops, k, j, id);
    }
    if MeasuredAt(ops, k, id) {
      var j: nat :| Stores(ops[..k], j, id);
      assert Stores(ops, j, id);
    }
    if j: nat :| j < k && Stores(ops, j, id) {
      assert Stores(ops[..k], j, id);
    }
  }

  ghost predicate ShortIds(ops: seq<Op>) {
    forall k :: 0 <= k < |ops| ==> |ops[k].id| <= 31
  }

  /** With ids of at most 31 characters: accepted exactly when that very id was accepted before. */
  lemma MeasurementAcceptedShort(ops: seq<Op>, k: nat)
    requires ShortIds(ops) && k < |ops| && ops[k].Measure?
    ensures MeasuredAt(ops, k, ops[k].id) <==> exists j: nat :: j < k && RegisteredAt(ops, j) && ops[j].id == ops[k].id
  {
    MeasurementAcceptedIff(ops, k);
    if j: nat :| j < k && Stores(ops, j, ops[k].id) {
      assert RegisteredAt(ops, j) && ops[j].id == ops[k].id;
    }
    if j: nat :| j < k && RegisteredAt(ops, j) && ops[j].id == ops[k].id {
      assert Stores(ops, j, ops[k].id);
    }
  }

  /** A sensor that has just been told SENSOR_REGISTERED can measure exactly when its id has at
      most 31 characters; the sensor scripts allow 32. */
  lemma UsableAfterRegistrationIff(ops: seq<Op>)
    requires ops != [] && RegisteredAt(ops, |ops| - 1)
    ensures Has(Replay(ops), ops[|ops| - 1].id) <==> |ops[|ops| - 1].id| <= 31
  {
    var n := |ops| - 1;
    var id := ops[n].id;
    if |id| <= 31 {
      assert Stores(ops, n, id);
      FoundIffStored(ops, id);
    } else {
      LongIdAbsent(ops, id);
    }
  }

  // ---------- the latest measurement ----------

  /** Position of the latest accepted measurement of `id`; -1 when there is none. */
  function LatestMeasurement(ops: seq<Op>, id: string): int {
    if ops == [] then -1
    else if MeasuredAt(ops, |ops| - 1, id) then |ops| - 1
    else LatestMeasurement(ops[..|ops| - 1], id)
  }

  lemma {:induction false} LatestIsLast(ops: seq<Op>, id: string)
    ensures var l := LatestMeasurement(ops, id);
            && -1 <= l < |ops|
            && (l >= 0 ==> MeasuredAt(ops, l, id))
            && forall k: nat :: l < k ==> !MeasuredAt(ops, k, id)
  {
    if ops != [] && !MeasuredAt(ops, |ops| - 1, id) {
      var n := |ops| - 1;
      LatestIsLast(ops[..n], id);
      forall k: nat | k < n ensures MeasuredAt(ops[..n], k, id) == MeasuredAt(ops, k, id) {
        StoresInPrefix(ops, n, k, id);
      }
    }
  }

  /** The reading stored for `id` by the operation at `l`, or the initial one. */
  ghost predicate Shows(e: Entry, ops: seq<Op>, l: int)
    requires l < |ops| && (l >= 0 ==> ops[l].Measure?)
  {
    if l < 0 then e.value == 0.0 && e.unit == ""
    else e.value == ops[l].value && e.unit == Take(ops[l].unit, 15) && e.stamp == ops[l].now
  }

  /** The stored reading is that of the latest accepted measurement; 0 and no unit before the first. */
  lemma {:induction false} LatestMeasurementWins(ops: seq<Op>, id: string)
    requires Has(Replay(ops), id)
    ensures LatestMeasurement(ops, id) < |ops|
    ensures LatestMeasurement(ops, id) >= 0 ==> ops[LatestMeasurement(ops, id)].Measure?
    ensures Shows(Replay(ops)[Index(Replay(ops), id)], ops, LatestMeasurement(ops, id))
  {
    LatestIsLast(ops, id);
    var n := |ops| - 1;
    var r := Replay(ops[..n]);
    if !Has(r, id) {
      NotYetMeasured(ops[..n], id);
      FreshEntry(r, ops[n], id);
    } else if MeasuredAt(ops, n, id) {
      MeasuredEntry(r, ops[n]);
    } else {
      LatestMeasurementWins(ops[..n], id);
      KeptEntry(r, ops[n], id);
    }
  }

  /** An accepted measurement is what its entry shows. */
  lemma MeasuredEntry(r: seq<Entry>, op: Op)
    requires op.Measure? && Has(r, op.id)
    ensures var q := Apply(r, op);
            && Has(q, op.id) && q[Index(q, op.id)].value == op.value
            && q[Index(q, op.id)].unit == Take(op.unit, 15) && q[Index(q, op.id)].stamp == op.now
  {
    LookupStable(r, Apply(r, op), op.id);
  }

  /** Any other operation leaves the reading of an entry alone. */
  lemma KeptEntry(r: seq<Entry>, op: Op, id: string)
    requires Has(r, id) && !(op.Measure? && op.id == id)
    ensures var q := Apply(r, op); var e := r[Index(r, id)];
            && Has(q, id) && q[Index(q, id)].value == e.value
            && q[Index(q, id)].unit == e.unit && q[Index(q, id)].stamp == e.stamp
  {
    LookupStable(r, Apply(r, op), id);
  }

  lemma NotYetMeasured(ops: seq<Op>, id: string)
    requires !Has(Replay(ops), id)
    ensures LatestMeasurement(ops, id) == -1
  {
    LatestIsLast(ops, id);
    var l := LatestMeasurement(ops, id);
    if l >= 0 {
      ReplayExtends(ops, l);
      LookupStable(Replay(ops[..l]), Replay(ops), id);
    }
  }

  lemma FreshEntry(r: seq<Entry>, op: Op, id: string)
    requires !Has(r, id) && Has(Apply(r, op), id)
    ensures Apply(r, op)[Index(Apply(r, op), id)].value == 0.0
    ensures Apply(r, op)[Index(Apply(r, op), id)].unit == ""
    ensures op.Register?
  {
    var q := Apply(r, op);
    assert forall i :: 0 <= i < |r| ==> q[i].id == r[i].id;
    assert Index(q, id) >= |r|;
  }

  // ---------- distinct ids ----------

  ghost predicate Distinct(r: seq<Entry>) {
    forall i, j :: 0 <= i < j < |r| ==> r[i].id != r[j].id
  }

  /** A registration that is cut down to an id which is stored already. */
  predicate Collides(r: seq<Entry>, op: Op) {
    op.Register? && !Has(r, op.id) && |r| < MAX_SENSORS && Has(r, Take(op.id, 31))
  }

  lemma CollisionIsLong(r: seq<Entry>, op: Op)
    ensures Collides(r, op) ==> |op.id| > 31
  {
  }

  lemma DistinctStep(r: seq<Entry>, op: Op)
    ensures Distinct(Apply(r, op)) <==> Distinct(r) && !Collides(r, op)
  {
    var q := Apply(r, op);
    assert forall i :: 0 <= i < |r| ==> q[i].id == r[i].id;
    if Collides(r, op) {
      var i := Index(r, Take(op.id, 31));
      assert q[i].id == q[|r|].id;
    } else if |q| > |r| {
      assert forall i :: 0 <= i < |r| ==> r[i].id != q[|r|].id;
    }
    if !Distinct(r) {
      var i, j :| 0 <= i < j < |r| && r[i].id == r[j].id;
      assert q[i].id == q[j].id;
    }
  }

  predicate CollidesAt(ops: seq<Op>, k: nat) {
    k < |ops| && Collides(Replay(ops[..k]), ops[k])
  }

  /** Stored ids are pairwise distinct exactly when no registration of the run collided. */
  lemma {:induction false} DistinctIff(ops: seq<Op>)
    ensures Distinct(Replay(ops)) <==> forall k: nat :: !CollidesAt(ops, k)
  {
    if ops != [] {
      var n := |ops| - 1;
      DistinctIff(ops[..n]);
      DistinctStep(Replay(ops[..n]), ops[n]);
      forall k: nat | k < n ensures CollidesAt(ops[..n], k) == CollidesAt(ops, k) {
        assert ops[..n][..k] == ops[..k];
      }
      assert CollidesAt(ops, n) == Collides(Replay(ops[..n]), ops[n]);
      if k: nat :| CollidesAt(ops[..n], k) {
        assert CollidesAt(ops, k);
      }
    }
  }

  lemma DistinctForShortIds(ops: seq<Op>)
    requires ShortIds(ops)
    ensures Distinct(Replay(ops))
  {
    DistinctIff(ops);
    forall k: nat | k < |ops| ensures !CollidesAt(ops, k) {
      CollisionIsLong(Replay(ops[..k]), ops[k]);
    }
  }

  /** A sensor with a 32-character id that registers twice occupies two slots with one stored id. */
  lemma LongIdDuplicates(ty: string, id: string)
    requires |id| == 32
    ensures var ops := [Register(ty, id, 0), Register(ty, id, 1), Measure(id, 1.0, "C", 2)];
            && RegisteredAt(ops, 0) && RegisteredAt(ops, 1) && !MeasuredAt(ops, 2, id)
            && !Distinct(Replay(ops))
  {
    var ops := [Register(ty, id, 0), Register(ty, id, 1), Measure(id, 1.0, "C", 2)];
    var e0 := Entry(id[..31], Take(ty, 15), 0.0, "", 0, true);
    var e1 := Entry(id[..31], Take(ty, 15), 0.0, "", 1, true);
    assert e0.id != id;
    assert ops[..0] == [];
    assert ops[..1][..0] == [] && ops[..1][0] == ops[0];
    assert Replay(ops[..1]) == [e0];
    assert ops[..2][..1] == ops[..1] && ops[..2][1] == ops[1];
    assert Replay(ops[..2]) == [e0, e1];
    assert ops[..3] == ops;
    assert Replay(ops) == [e0, e1];
    assert Replay(ops)[0].id == Replay(ops)[1].id;
  }

  // ---------- refinement of an insertion-ordered map ----------

  datatype Info = Info(ty: string, value: real, unit: string, stamp: int)

  datatype Book = Book(order: seq<string>, info: map<string, Info>)

  function ApplyToBook(b: Book, op: Op): Book {
    match op
    case Register(ty, id, now) =>
      if id in b.info || |b.order| >= MAX_SENSORS then b
      else Book(b.order + [id], b.info[id := Info(Take(ty, 15), 0.0, "", now)])
    case Measure(id, value, unit, now) =>
      if id in b.info then b.(info := b.info[id := Info(b.info[id].ty, value, Take(unit, 15), now)]) else b
  }

  function ReplayBook(ops: seq<Op>): Book {
    if ops == [] then Book([], map[]) else ApplyToBook(ReplayBook(ops[..|ops| - 1]), ops[|ops| - 1])
  }

  ghost predicate Matches(r: seq<Entry>, b: Book, i: nat)
    requires i < |r| == |b.order|
  {
    && r[i].id == b.order[i] && r[i].id in b.info && r[i].active
    && b.info[r[i].id] == Info(r[i].ty, r[i].value, r[i].unit, r[i].stamp)
  }

  ghost predicate Refines(r: seq<Entry>, b: Book) {
    && |r| == |b.order| && Distinct(r)
    && (forall id :: id in b.info <==> Has(r, id))
    && (forall i: nat :: i < |r| ==> Matches(r, b, i))
  }

  lemma SameKeys(r: seq<Entry>, b: Book, op: Op)
    requires Refines(r, b) && |op.id| <= 31
    ensures forall id :: id in ApplyToBook(b, op).info <==> Has(Apply(r, op), id)
  {
    forall id ensures id in ApplyToBook(b, op).info <==> Has(Apply(r, op), id) {
      FoundStep(r, op, id);
    }
  }

  lemma MatchesAfter(r: seq<Entry>, b: Book, op: Op, i: nat)
    requires Refines(r, b) && |op.id| <= 31 && i < |Apply(r, op)|
    ensures |Apply(r, op)| == |ApplyToBook(b, op).order| && Matches(Apply(r, op), ApplyToBook(b, op), i)
  {
    if i < |r| {
      assert Matches(r, b, i);
      assert r[i].id == op.id ==> i == Index(r, op.id);
    }
  }

  lemma RefinesStep(r: seq<Entry>, b: Book, op: Op)
    requires Refines(r, b) && |op.id| <= 31
    ensures Refines(Apply(r, op), ApplyToBook(b, op))
  {
    DistinctStep(r, op);
    CollisionIsLong(r, op);
    SameKeys(r, b, op);
    assert |Apply(r, op)| == |ApplyToBook(b, op).order|;
    forall i: nat | i < |Apply(r, op)| ensures Matches(Apply(r, op), ApplyToBook(b, op), i) {
      MatchesAfter(r, b, op, i);
    }
  }

  /** For ids of at most 31 characters the array is an insertion-ordered map in every run. */
  lemma {:induction false} RegistryRefinesMap(ops: seq<Op>)
    requires ShortIds(ops)
    ensures Refines(Replay(ops), ReplayBook(ops))
  {
    if ops != [] {
      var n := |ops| - 1;
      assert ops[n].id == ops[n].id && |ops[n].id| <= 31;
      RegistryRefinesMap(ops[..n]);
      RefinesStep(Replay(ops[..n]), ReplayBook(ops[..n]), ops[n]);
    }
  }
}
