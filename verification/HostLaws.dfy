/** What one operation of the host does to the sockets of all its devices. */
module HostLaws {
  import opened Bytes
  import PacketQueue
  import opened L2cap
  import opened L2capLaws
  import opened HostTable
  import opened Signals

  // ---- closing -------------------------------------------------------------------------------

  /** Lookup finds nothing in the devices where no one has the socket. */
  lemma {:induction false} NoOwner(ds: seq<Device>, scid: nat)
    requires forall i :: 0 <= i < |ds| ==> scid !in ds[i].sockets
    ensures FindSocket(ds, scid) == None
  {
  }

  /**
   * Closing a socket, wherever it is: lookup no longer finds it, every other socket of every
   * device is as it was, and only its owner may have said something.
   */
  lemma {:induction false} CloseForgets(h: Host, scid: nat, thisEnd: bool)
    requires TableOk(h)
    ensures var g := Close(h, scid, thisEnd);
            && FindSocket(g.devices, scid) == None && |g.devices| == |h.devices| && g.next == h.next
            && (forall i :: 0 <= i < |h.devices| ==> ClosedIn(h.devices[i], g.devices[i], scid, thisEnd))
  {
    hide CloseSocket, FindSocket;
    var g := Close(h, scid, thisEnd);
    var r := FindSocket(h.devices, scid);
    forall i | 0 <= i < |h.devices| ensures ClosedIn(h.devices[i], g.devices[i], scid, thisEnd) {
      if r == Some(i) {
        ClosedHere(h.devices[i], scid, thisEnd);
      } else {
        NotOwner(h, r, i, scid);
      }
    }
    assert forall i :: 0 <= i < |g.devices| ==> ClosedIn(h.devices[i], g.devices[i], scid, thisEnd);
    NoOwner(g.devices, scid);
  }

  lemma {:induction false} NotOwner(h: Host, r: Option<nat>, i: nat, scid: nat)
    requires TableOk(h) && i < |h.devices| && r == FindSocket(h.devices, scid) && r != Some(i)
    ensures scid !in h.devices[i].sockets
  {
    if r.Some? && r.value < i {
      assert h.devices[r.value].sockets.Keys !! h.devices[i].sockets.Keys;
    }
  }

  /** Device d after the socket was closed: without it, and with one more packet if it was its to tell. */
  ghost predicate ClosedIn(d: Device, e: Device, scid: nat, thisEnd: bool) {
    && scid !in e.sockets && e.sockets.Keys <= d.sockets.Keys
    && (forall k :: k in d.sockets && k != scid ==> k in e.sockets && e.sockets[k] == d.sockets[k])
    && |e.sent| == |d.sent| + (if thisEnd && scid in d.sockets && d.sockets[scid].state == Open then 1 else 0)
  }

  /** A second close finds nothing to do. */
  lemma {:induction false} CloseTwice(h: Host, scid: nat, thisEnd: bool, again: bool)
    requires TableOk(h)
    ensures var g := Close(h, scid, thisEnd); Close(g, scid, again) == g
  {
    CloseForgets(h, scid, thisEnd);
  }

  /** A disconnection empties the device on the handle, and every other device is as it was. */
  lemma {:induction false} DisconnectEmpties(h: Host, handle: nat, i: nat)
    requires TableOk(h) && FindHandle(h.devices, handle) == Some(i)
    ensures var g := HostTable.Step(h, Disconnected(handle));
            && |g.devices| == |h.devices| && g.devices[i].sockets == map[] && g.devices[i].handle == -1
            && (forall k :: k in h.devices[i].sockets ==> FindSocket(g.devices, k) == None)
            && (forall j :: 0 <= j < |h.devices| && j != i ==> g.devices[j] == h.devices[j])
  {
    hide Ascending, FindSocket;
    var g := HostTable.Step(h, Disconnected(handle));
    assert g.devices == h.devices[i := DisconnectAll(h.devices[i])];
    forall k | k in h.devices[i].sockets ensures FindSocket(g.devices, k) == None {
      forall j | 0 <= j < |g.devices| ensures k !in g.devices[j].sockets {
        if j < i {
          assert h.devices[j].sockets.Keys !! h.devices[i].sockets.Keys;
        } else if j > i {
          assert h.devices[i].sockets.Keys !! h.devices[j].sockets.Keys;
        }
      }
      NoOwner(g.devices, k);
    }
  }

  // ---- connecting ------------------------------------------------------------------------------

  /** A device is found on the handle its connection was given, once no device before it is on it. */
  lemma {:induction false} ConnectedIsFound(h: Host, addr: nat, handle: nat, i: nat)
    requires FindAddress(h.devices, addr) == Some(i)
    requires forall j :: 0 <= j < i ==> h.devices[j].handle != handle
    ensures var g := HostTable.Step(h, Connected(addr, true, handle));
            && FindHandle(g.devices, handle) == Some(i) && g.devices[i].sockets == h.devices[i].sockets
            && g.devices[i].flags == h.devices[i].flags - {SLAVE}
            && (forall j :: 0 <= j < |h.devices| && j != i ==> g.devices[j] == h.devices[j])
  {
    FoundAt(HostTable.Step(h, Connected(addr, true, handle)).devices, handle, i);
  }

  lemma {:induction false} FoundAt(ds: seq<Device>, handle: int, i: nat)
    requires i < |ds| && ds[i].handle == handle && forall j :: 0 <= j < i ==> ds[j].handle != handle
    ensures FindHandle(ds, handle) == Some(i)
    decreases |ds|
  {
    if i > 0 { FoundAt(ds[1..], handle, i - 1); }
  }

  /** After a failed connection the device can dial again, and dialling forgets the signals it has seen. */
  lemma {:induction false} FailedDialsAgain(d: Device, handle: nat)
    ensures var e := CreateConnection(CompleteConnection(d, false, handle));
            e.handle == 0 && e.flags == {} && e.sockets == d.sockets
    ensures d.handle != -1 ==> CreateConnection(d) == d
  {
  }

  // ---- routing ---------------------------------------------------------------------------------

  lemma {:induction false} FlagDropsOut(handle: nat, b: nat)
    requires handle < 0x1000
    ensures (handle + 0x1000 * b) % 0x1000 == handle
  {
  }

  /** A packet whose second and third bytes are the handle word with a boundary flag b. */
  lemma {:induction false} HandleUnderFlag(p: PacketQueue.Packet, handle: nat, b: nat)
    requires handle < 0x1000 && b < 0x10 && |p| >= 3
    requires p[1] == Low(handle + 0x1000 * b) && p[2] == High(handle + 0x1000 * b)
    ensures AclHandle(p) == handle
  {
    hide Low, High, Word;
    var w := handle + 0x1000 * b;
    assert Word(p[1], p[2]) == w by { TwoRoundTrip(w); }
    FlagDropsOut(handle, b);
  }

  /** The host finds the handle in every fragment, first or not. */
  lemma {:induction false} FragmentsCarryHandle(handle: nat, n: nat, cid: Word16, chunk: PacketQueue.Packet)
    requires handle < 0x1000 && n < 0x1_0000 && |chunk| + 4 < 0x1_0000
    ensures AclHandle(StartFragment(handle, n, cid, chunk)) == handle
    ensures AclHandle(Continuation(handle, chunk)) == handle
  {
    hide AclHandle, Low, High;
    HandleUnderFlag(StartFragment(handle, n, cid, chunk), handle, 2);
    HandleUnderFlag(Continuation(handle, chunk), handle, 1);
  }

  /** A packet reaches the device on its handle and no other. */
  lemma {:induction false} PacketReachesOne(h: Host, p: PacketQueue.Packet, i: nat)
    requires OpReady(h, Acl(p)) && FindHandle(h.devices, AclHandle(p)) == Some(i) && CloseAfter(h.devices[i], p) == None
    ensures HostTable.Step(h, Acl(p)).devices == h.devices[i := Data(h.devices[i], p)]
  {
    hide Data, DataReady, CloseAfter, FindHandle;
  }

  /** A disconnection response (7) closes the socket it names second, whichever device has it. */
  lemma {:induction false} ResponseCloses(h: Host, p: PacketQueue.Packet, i: nat, c: PacketQueue.Packet)
    requires TableOk(h) && OpReady(h, Acl(p)) && FindHandle(h.devices, AclHandle(p)) == Some(i)
    requires var x := CopyIn(Begin(h.devices[i], p), Fragment(p));
             x.pos == |x.packet| && x.cid == SIGNALLING && x.packet == c && c[0] == 7
    ensures CloseAfter(h.devices[i], p) == Some(Word(c[6], c[7]))
    ensures FindSocket(HostTable.Step(h, Acl(p)).devices, Word(c[6], c[7])) == None
  {
    hide FindSocket, FindHandle, Data, AclFits, IsStart, Fragment, TableOk, CloseSocket;
    DataConserves(h.devices[i], p);
    ReplaceKeepsTable(h, i, Data(h.devices[i], p));
    CloseForgets(Replace(h, i, Data(h.devices[i], p)), Word(c[6], c[7]), true);
  }
}
