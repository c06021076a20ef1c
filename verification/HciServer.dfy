/** The host object over its device objects, proved against HostTable. */
module HciServer {
  import opened Bytes
  import opened PacketQueue
  import opened L2cap
  import opened HostTable
  import opened BtDevice

  class HCI {
    var devices: seq<BTDevice>
    var cid: nat

    /** No device object is listed twice. */
    ghost predicate Valid()
      reads this
    {
      forall i, j :: 0 <= i < j < |devices| ==> devices[i] != devices[j]
    }

    ghost function View(): Host
      reads this, devices
    {
      Host(Views(devices), cid)
    }

    constructor ()
      ensures Valid() && View() == Host([], 0x40)
    {
      devices := [];
      cid := FIRST_SOCKET;
    }

    method GetDevice(addr: nat) returns (r: Option<nat>)
      ensures r == FindAddress(Views(devices), addr)
    {
      hide Views;
      var i := 0;
      while i < |devices|
        invariant 0 <= i <= |devices|
        invariant forall j :: 0 <= j < i ==> Views(devices)[j].addr != addr
      {
        if devices[i].addr == addr {
          assert Views(devices)[i].addr == addr;
          return Some(i);
        }
        i := i + 1;
      }
      r := None;
    }

    method GetDeviceByHandle(handle: int) returns (r: Option<nat>)
      ensures r == FindHandle(Views(devices), handle)
    {
      hide Views;
      var i := 0;
      while i < |devices|
        invariant 0 <= i <= |devices|
        invariant forall j :: 0 <= j < i ==> Views(devices)[j].handle != handle
      {
        if devices[i].handle == handle {
          assert Views(devices)[i].handle == handle;
          return Some(i);
        }
        i := i + 1;
      }
      r := None;
    }

    method GetDeviceBySocket(scid: nat) returns (r: Option<nat>)
      ensures r == FindSocket(Views(devices), scid)
    {
      hide Views;
      var i := 0;
      while i < |devices|
        invariant 0 <= i <= |devices|
        invariant forall j :: 0 <= j < i ==> scid !in Views(devices)[j].sockets
      {
        if scid in devices[i].sockets {
          assert scid in Views(devices)[i].sockets;
          return Some(i);
        }
        i := i + 1;
      }
      r := None;
    }

    method AddNewDevice(addr: nat)
      requires Valid()
      modifies this`devices
      ensures Valid() && View() == HostTable.Step(old(View()), AddDevice(addr))
    {
      hide Views;
      var r := GetDevice(addr);
      if r == None {
        var d := new BTDevice(addr);
        ghost var before := Views(devices);
        devices := devices + [d];
        assert Views(devices) == before + [NewDevice(addr)];
      }
    }

    /** A new socket on a known device; ids are given out once and never again. */
    method L2Open(addr: nat, psm: Word16, listen: bool) returns (scid: int)
      requires Valid()
      modifies this`cid, devices
      ensures Valid() && View() == HostTable.Step(old(View()), OpenOn(addr, psm, listen))
      ensures scid == if FindAddress(old(View()).devices, addr).Some? then old(cid) else -1
    {
      hide Views, OpenSocket, FindAddress, BTDevice.View;
      var r := GetDevice(addr);
      if r == None {
        return -1;
      }
      ghost var before := Views(devices);
      devices[r.value].L2Open(cid, psm, listen);
      OneChanged(devices, r.value, before);
      scid := cid;
      cid := cid + 1;
    }

    method L2Close(scid: nat, thisEnd: bool) returns (r: int)
      requires Valid()
      modifies devices
      ensures Valid() && View() == Close(old(View()), scid, thisEnd)
      ensures r == if FindSocket(old(View()).devices, scid).Some? then 0 else -1
    {
      hide Views, CloseSocket, FindSocket;
      var d := GetDeviceBySocket(scid);
      if d == None {
        return -1;
      }
      ghost var before := Views(devices);
      r := devices[d.value].L2Close(scid, thisEnd);
      OneChanged(devices, d.value, before);
    }

    /** An ACL packet goes to the device on its handle; a disconnection it completes closes a socket anywhere. */
    method AclPacket(p: Packet)
      requires Valid() && |p| >= 3 && OpReady(View(), Acl(p))
      modifies devices
      ensures Valid() && View() == HostTable.Step(old(View()), Acl(p))
    {
      hide Views, Data, DataReady, CopyIn, Begin, Fragment, CloseAsked, Close;
      var h := Word(p[1], p[2]) % 0x1000;
      var d := GetDeviceByHandle(h);
      if d == None {
        return;
      }
      ghost var before := Views(devices);
      var ok, close := devices[d.value].Data(p);
      OneChanged(devices, d.value, before);
      if close.Some? {
        var r := L2Close(close.value, true);
      }
    }

    method CreateConnection(addr: nat)
      requires Valid()
      modifies devices
      ensures Valid() && View() == HostTable.Step(old(View()), Dialled(addr))
    {
      hide Views, L2cap.CreateConnection, FindAddress;
      var d := GetDevice(addr);
      if d.Some? {
        ghost var before := Views(devices);
        devices[d.value].CreateConnection();
        OneChanged(devices, d.value, before);
      }
    }

    /** The controller's answer to dialling: the handle and the master role, or no connection. */
    method ConnectionComplete(addr: nat, ok: bool, handle: nat)
      requires Valid()
      modifies devices
      ensures Valid() && View() == HostTable.Step(old(View()), Connected(addr, ok, handle))
    {
      hide Views, FindAddress, BTDevice.View;
      var d := GetDevice(addr);
      if d.Some? {
        ghost var before := Views(devices);
        if ok {
          devices[d.value].SetHandle(handle);
          devices[d.value].SetRole(false);
        } else {
          devices[d.value].SetHandle(-1);
        }
        OneChanged(devices, d.value, before);
      }
    }

    method RoleChange(addr: nat, slave: bool)
      requires Valid()
      modifies devices
      ensures Valid() && View() == HostTable.Step(old(View()), RoleChanged(addr, slave))
    {
      hide Views, L2cap.SetRole, FindAddress, BTDevice.View;
      var d := GetDevice(addr);
      if d.Some? {
        ghost var before := Views(devices);
        devices[d.value].SetRole(slave);
        OneChanged(devices, d.value, before);
      }
    }

    method DisconnectionComplete(handle: nat)
      requires Valid()
      modifies devices
      ensures Valid() && View() == HostTable.Step(old(View()), Disconnected(handle))
    {
      hide Views, DisconnectAll, FindHandle;
      var d := GetDeviceByHandle(handle);
      if d.Some? {
        ghost var before := Views(devices);
        devices[d.value].DisconnectAll();
        OneChanged(devices, d.value, before);
      }
    }
  }

  ghost function Views(ds: seq<BTDevice>): (vs: seq<Device>)
    reads ds
    ensures |vs| == |ds| && forall i :: 0 <= i < |ds| ==> vs[i] == ds[i].View()
  {
    if ds == [] then [] else Views(ds[..|ds| - 1]) + [ds[|ds| - 1].View()]
  }

  /** Changing one device object changes one entry of the view. */
  lemma {:induction false} OneChanged(ds: seq<BTDevice>, i: nat, before: seq<Device>)
    requires i < |ds| == |before|
    requires forall j :: 0 <= j < |ds| && j != i ==> ds[j].View() == before[j]
    ensures Views(ds) == before[i := ds[i].View()]
  {
    hide Views;
  }
}
