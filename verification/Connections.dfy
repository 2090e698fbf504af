/** The mutable parts of server.c that the transition system abstracts: the send loop on a socket and
    the two parallel operator arrays. */
module Connections {
  import opened Handlers

  /** A socket: send transmits a prefix of what it is given, or fails. */
  class Socket {
    ghost var wire: string

    constructor ()
      ensures wire == ""
    {
      wire := "";
    }

    method Send(data: string) returns (n: int)
      modifies this
      ensures n <= |data|
      ensures wire == old(wire) + data[..Clamp(n)]
    {
      n :| -1 <= n <= |data|;
      wire := wire + data[..Clamp(n)];
    }

    /** send_complete_response: the whole response, or a proper prefix and an error. */
    method SendCompleteResponse(response: string) returns (result: int)
      modifies this
      ensures result == 0 || result == -1
      ensures result == 0 ==> wire == old(wire) + response
      ensures result == -1 ==> exists k :: 0 <= k < |response| && wire == old(wire) + response[..k]
    {
      var total := 0;
      assert response[..0] == "";
      while total < |response|
        invariant 0 <= total <= |response|
        invariant wire == old(wire) + response[..total]
      {
        var sent := Send(response[total..]);
        if sent <= 0 {
          return -1;
        }
        assert response[total..][..sent] == response[total..total + sent];
        assert response[..total] + response[total..total + sent] == response[..total + sent];
        total := total + sent;
      }
      assert response[..total] == response;
      result := 0;
    }
  }

  /** What a broadcast does to the outside, under the operator mutex. */
  datatype Act = LockMutex(conn: nat) | SendTo(fd: int, text: string) | UnlockMutex(conn: nat)

  /** One live slot after the other: lock its mutex, send on its descriptor, unlock. */
  function ActsFor(slots: seq<Slot>, msg: string): seq<Act> {
    if slots == [] then [] else
      var before := ActsFor(slots[..|slots| - 1], msg);
      var slot := slots[|slots| - 1];
      if Live(slot) then before + [LockMutex(slot.mutex.value), SendTo(slot.fd, msg), UnlockMutex(slot.mutex.value)]
      else before
  }

  class OperatorArrays {
    const clients: array<int>
    const mutexes: array<Option<nat>>
    var count: nat

    ghost predicate Valid()
      reads this
    {
      clients.Length == MAX_OPERATORS && mutexes.Length == MAX_OPERATORS && count <= MAX_OPERATORS
    }

    ghost function Slots(): (s: seq<Slot>)
      reads this, clients, mutexes
      requires Valid()
      ensures |s| == count
    {
      seq(count, i requires 0 <= i < count reads clients, mutexes, this requires Valid() => Slot(clients[i], mutexes[i]))
    }

    constructor ()
      ensures Valid() && Slots() == []
    {
      clients := new int[MAX_OPERATORS](_ => 0);
      mutexes := new Option<nat>[MAX_OPERATORS](_ => None);
      count := 0;
    }

    method RegisterOperator(fd: int, conn: nat)
      requires Valid()
      modifies this, clients, mutexes
      ensures Valid() && Slots() == AddOperator(old(Slots()), fd, conn)
    {
      if count < MAX_OPERATORS {
        ghost var before := Slots();
        clients[count] := fd;
        mutexes[count] := Some(conn);
        count := count + 1;
        assert Slots()[..count - 1] == before;
      }
    }

    method RemoveOperator(fd: int)
      requires Valid()
      modifies clients, mutexes
      ensures Valid() && Slots() == ClearOperator(old(Slots()), fd)
    {
      ghost var before := Slots();
      var i := 0;
      while i < count && clients[i] != fd
        invariant i <= count
        invariant forall j :: 0 <= j < i ==> before[j].fd != fd
      {
        i := i + 1;
      }
      FirstSlot(before, fd, i);
      if i < count {
        clients[i] := -1;
        mutexes[i] := None;
      }
    }

    /** broadcast_alert, with what it does to mutexes and descriptors as its result. */
    method BroadcastAlert(msg: string) returns (acts: seq<Act>)
      requires Valid()
      ensures acts == ActsFor(Slots(), msg)
    {
      acts := [];
      for i := 0 to count
        invariant acts == ActsFor(Slots()[..i], msg)
      {
        assert Slots()[..i + 1][..i] == Slots()[..i];
        if clients[i] > 0 && mutexes[i] != None {
          acts := acts + [LockMutex(mutexes[i].value), SendTo(clients[i], msg), UnlockMutex(mutexes[i].value)];
        }
      }
      assert Slots()[..count] == Slots();
    }
  }

  lemma FirstSlot(slots: seq<Slot>, fd: int, i: nat)
    requires i <= |slots| && forall j :: 0 <= j < i ==> slots[j].fd != fd
    requires i < |slots| ==> slots[i].fd == fd
    ensures SlotOf(slots, fd) == i
  {
    var k := SlotOf(slots, fd);
    assert !(k < i) && !(i < k);
  }
}
