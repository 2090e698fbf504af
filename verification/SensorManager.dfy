/** sensor_manager.c: the fixed array of sensor records, and the insertion-ordered registry it holds. */
module SensorManager {
  import opened CStrings
  import Decimals
  import Packing

  const MAX_SENSORS: nat := 50

  /** The C record: character fields of 32, 16 and 16 cells. */
  datatype Sensor = Sensor(id: seq<char>, ty: seq<char>, lastValue: real, lastUnit: seq<char>,
                           lastTimestamp: int, isActive: bool)

  predicate WellFormed(s: Sensor) {
    Field(s.id, 32) && Field(s.ty, 16) && Field(s.lastUnit, 16)
  }

  /** What readers of a record see. */
  datatype Entry = Entry(id: string, ty: string, value: real, unit: string, stamp: int, active: bool)

  function Read(s: Sensor): Entry {
    Entry(CStr(s.id), CStr(s.ty), s.lastValue, CStr(s.lastUnit), s.lastTimestamp, s.isActive)
  }

  function ReadAll(s: seq<Sensor>): (r: seq<Entry>)
    ensures |r| == |s| && forall i :: 0 <= i < |s| ==> r[i] == Read(s[i])
  {
    seq(|s|, i requires 0 <= i < |s| => Read(s[i]))
  }

  /** Position of the first entry with this id; |r| when there is none. */
  function Index(r: seq<Entry>, id: string): (i: nat)
    ensures i <= |r|
    ensures forall j :: 0 <= j < i ==> r[j].id != id
    ensures i < |r| ==> r[i].id == id
  {
    if r == [] || r[0].id == id then 0 else 1 + Index(r[1..], id)
  }

  predicate Has(r: seq<Entry>, id: string) {
    Index(r, id) < |r|
  }

  predicate Accepts(r: seq<Entry>, id: string) {
    Has(r, id) || |r| < MAX_SENSORS
  }

  lemma HasIff(r: seq<Entry>, id: string)
    ensures Has(r, id) <==> exists e :: e in r && e.id == id
  {
    if Has(r, id) {
      assert r[Index(r, id)] in r;
    }
  }

  lemma AcceptsIff(r: seq<Entry>, id: string)
    ensures Accepts(r, id) <==> (exists e :: e in r && e.id == id) || |r| < 50
  {
    HasIff(r, id);
  }

  /** The lookup compares the whole id, while the stored id is cut to 31 characters. */
  function AfterRegister(r: seq<Entry>, ty: string, id: string, now: int): seq<Entry> {
    if Has(r, id) then r[Index(r, id) := r[Index(r, id)].(active := true)]
    else if |r| >= MAX_SENSORS then r
    else r + [Entry(Take(id, 31), Take(ty, 15), 0.0, "", now, true)]
  }

  function AfterMeasure(r: seq<Entry>, id: string, value: real, unit: string, now: int): seq<Entry> {
    if Has(r, id) then
      r[Index(r, id) := r[Index(r, id)].(value := value, unit := Take(unit, 15), stamp := now, active := true)]
    else r
  }

  // ---------- the list of active sensors ----------

  function Item(e: Entry): string {
    Snprintf(128, e.id + "," + e.ty + "," + Decimals.Print(e.value, 2) + "," + e.unit + ";")
  }

  function Items(r: seq<Entry>): seq<string> {
    if r == [] then [] else
      var before := Items(r[..|r| - 1]);
      if r[|r| - 1].active then before + [Item(r[|r| - 1])] else before
  }

  lemma ItemsStep(r: seq<Entry>, i: nat)
    requires i < |r|
    ensures Items(r[..i + 1]) == if r[i].active then Items(r[..i]) + [Item(r[i])] else Items(r[..i])
  {
    assert r[..i + 1][..i] == r[..i];
  }

  class Manager {
    const sensors: array<Sensor>
    var count: nat

    /** Every one of the 50 slots is readable, used or not. */
    ghost predicate Valid()
      reads this, sensors
    {
      sensors.Length == MAX_SENSORS && count <= MAX_SENSORS &&
      forall i :: 0 <= i < sensors.Length ==> WellFormed(sensors[i])
    }

    ghost function Registry(): seq<Entry>
      reads this, sensors
      requires Valid()
    {
      ReadAll(sensors[..count])
    }

    /** Zeroed static storage, as after sensor_manager_init. */
    constructor ()
      ensures Valid() && fresh(sensors) && Registry() == []
    {
      var blank := Sensor(Nuls(32), Nuls(16), 0.0, Nuls(16), 0, false);
      sensors := new Sensor[MAX_SENSORS](_ => blank);
      count := 0;
    }

    method Lookup(id: string) returns (i: nat)
      requires Valid() && NulFree(id)
      ensures i == Index(Registry(), id)
    {
      i := 0;
      while i < count && CStr(sensors[i].id) != id
        invariant i <= count
        invariant forall j :: 0 <= j < i ==> Registry()[j].id != id
      {
        i := i + 1;
      }
    }

    method Register(ty: string, id: string, now: int) returns (result: int)
      requires Valid() && NulFree(ty) && NulFree(id)
      modifies this`count, sensors
      ensures Valid()
      ensures Registry() == AfterRegister(old(Registry()), ty, id, now)
      ensures result == 0 || result == -1
      ensures result == 0 <==> (exists e :: e in old(Registry()) && e.id == id) || |old(Registry())| < 50
    {
      AcceptsIff(Registry(), id);
      var i := Lookup(id);
      if i < count {
        sensors[i] := sensors[i].(isActive := true);
        return 0;
      }
      if count >= MAX_SENSORS {
        return -1;
      }
      Append(ty, id, now);
      return 0;
    }

    /** Fills the next slot, over whatever it holds. */
    method Append(ty: string, id: string, now: int)
      requires Valid() && count < MAX_SENSORS && NulFree(ty) && NulFree(id)
      modifies this`count, sensors
      ensures Valid()
      ensures Registry() == old(Registry()) + [Entry(Take(id, 31), Take(ty, 15), 0.0, "", now, true)]
    {
      var s := sensors[count];
      StrncpyField(s.id, id, 32);
      StrncpyField(s.ty, ty, 16);
      sensors[count] := Sensor(Strncpy(s.id, id, 31), Strncpy(s.ty, ty, 15), 0.0, s.lastUnit[0 := NUL], now, true);
      count := count + 1;
      assert Registry()[..count - 1] == old(Registry());
    }

    method AddMeasurement(id: string, value: real, unit: string, now: int) returns (result: int)
      requires Valid() && NulFree(id) && NulFree(unit)
      modifies sensors
      ensures Valid()
      ensures Registry() == AfterMeasure(old(Registry()), id, value, unit, now)
      ensures result == 0 || result == -1
      ensures result == 0 <==> exists e :: e in old(Registry()) && e.id == id
    {
      HasIff(Registry(), id);
      var i := Lookup(id);
      if i < count {
        var s := sensors[i];
        StrncpyField(s.lastUnit, unit, 16);
        sensors[i] := s.(lastValue := value, lastUnit := Strncpy(s.lastUnit, unit, 15),
                         lastTimestamp := now, isActive := true);
        return 0;
      }
      return -1;
    }

    method GetActiveSensors(size: nat) returns (result: int, output: string)
      requires Valid()
      ensures result == if size > 0 then 0 else -1
      ensures size > 0 ==> output == Packing.Pack(Items(Registry()), size)
    {
      output := "";
      if size == 0 {
        return -1, output;
      }
      for i := 0 to count
        invariant output == Packing.Pack(Items(Registry()[..i]), size)
      {
        ItemsStep(Registry(), i);
        if sensors[i].isActive {
          var temp := Item(Read(sensors[i]));
          Packing.PackStep(Items(Registry()[..i]), temp, size);
          if |output| + |temp| < size {
            output := output + temp;
          }
        }
      }
      assert Registry()[..count] == Registry();
      result := 0;
    }

    method IsRegistered(id: string) returns (found: bool)
      requires Valid() && NulFree(id)
      ensures found <==> exists e :: e in Registry() && e.id == id
    {
      HasIff(Registry(), id);
      var i := Lookup(id);
      found := i < count;
    }

    /** The result points into the array: a slot number, or NULL. */
    method GetSensorType(id: string) returns (found: bool, slot: nat)
      requires Valid() && NulFree(id)
      ensures found == Has(Registry(), id)
      ensures found ==> slot < count && slot == Index(Registry(), id)
    {
      slot := Lookup(id);
      found := slot < count;
    }

    /** Only the counter is reset; the old bytes stay in the slots. */
    method Cleanup()
      requires Valid()
      modifies this`count
      ensures Valid() && Registry() == []
    {
      count := 0;
    }
  }
}
