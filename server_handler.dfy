/** The relay server as the C++ code runs it: a two-slot array of session
    records mutated in place, and the datagrams it sends appended to `sent`.
    Every method is proved to do what the functions of module Relay say. */
module ServerHandler {
  import opened Protocol
  import opened Relay

  class RelayServer {
    /** The session table (`ClientInfo clients[2]`). */
    var clients: array<ClientInfo>
    /** Every datagram the server has sent, oldest first. */
    var sent: seq<Datagram>

    ghost predicate Valid()
      reads this
    {
      clients.Length == 2
    }

    /** The table as a value. */
    function Table(): Slots
      reads this, clients
      requires Valid()
    {
      clients[..]
    }

    /** A server with both slots zero-initialised, as the loop starts. */
    constructor ()
      ensures Valid() && fresh(clients)
      ensures Table() == [EMPTY_SLOT, EMPTY_SLOT] && sent == []
    {
      clients := new ClientInfo[2](_ => EMPTY_SLOT);
      sent := [];
    }

    /** The scan for a free slot at the head of process_login. */
    method FindFreeSlot() returns (slot: int)
      requires Valid()
      ensures slot == FirstInactive(Table())
    {
      slot := -1;
      for i := 0 to 2
        invariant forall j :: 0 <= j < i ==> clients[j].isActive
      {
        if !clients[i].isActive {
          slot := i;
          break;
        }
      }
    }

    /** The scan for the active slot of a sender. */
    method FindSender(addr: SockAddr) returns (idx: int)
      requires Valid()
      ensures idx == SenderIndex(Table(), addr)
    {
      idx := -1;
      for i := 0 to 2
        invariant forall j :: 0 <= j < i ==> !Matches(Table(), j, addr)
      {
        if clients[i].isActive && AddressesEqual(clients[i].address, addr) {
          idx := i;
          break;
        }
      }
    }

    /** Sends a SERVER_MESSAGE to every active slot other than `exclude`. */
    method BroadcastServerMessage(message: seq<Byte>, exclude: int)
      requires Valid()
      modifies this`sent
      ensures sent == old(sent) + Broadcast(Table(), message, exclude)
    {
      var packet := [Code(ServerMessage)] + message;
      for i := 0 to 2
        invariant sent == old(sent) + BroadcastUpTo(Table(), packet, exclude, i)
      {
        if i != exclude && clients[i].isActive {
          sent := sent + [Datagram(clients[i].address, packet)];
        }
      }
    }

    method ProcessLogin(name: seq<Byte>, sender: SockAddr, senderLen: int, now: int)
      requires Valid()
      modifies this`sent, clients
      ensures Valid()
      ensures var e := Login(old(Table()), name, sender, senderLen, now);
        Table() == e.slots && sent == old(sent) + e.sent
    {
      var free := FindFreeSlot();
      if free != -1 {
        clients[free] := ClientInfo(sender, senderLen, name, true, now);
        sent := sent + [Datagram(sender, Bare(LoginOk))];
        BroadcastServerMessage(JoinNotice(name), free);
        var other := 1 - free;
        if clients[other].isActive {
          sent := sent + [Datagram(sender, MessagePacket(PresentNotice(clients[other].name)))];
        }
      } else {
        sent := sent + [Datagram(sender, Bare(ServerFull))];
      }
    }

    method ProcessAudioData(packet: seq<Byte>, sender: SockAddr, now: int)
      requires Valid()
      modifies this`sent, clients
      ensures Valid()
      ensures var e := RelayAudio(old(Table()), packet, sender, now);
        Table() == e.slots && sent == old(sent) + e.sent
    {
      var senderIdx := FindSender(sender);
      if senderIdx == -1 {
        return;
      }
      clients[senderIdx] := clients[senderIdx].(lastPacketTime := now);
      var receiverIdx := 1 - senderIdx;
      if clients[receiverIdx].isActive {
        sent := sent + [Datagram(clients[receiverIdx].address, packet)];
      } else {
        sent := sent + [Datagram(sender, Bare(KeepalivePong))];
      }
    }

    /** Ends the session in slot `i` and tells the slots still active. */
    method DisconnectSlot(i: int)
      requires Valid() && 0 <= i < 2
      modifies this`sent, clients
      ensures Valid()
      ensures var e := Disconnect(old(Table()), i);
        Table() == e.slots && sent == old(sent) + e.sent
    {
      var leave := LeaveNotice(clients[i].name);
      clients[i] := clients[i].(isActive := false);
      BroadcastServerMessage(leave, -1);
    }

    /** The LOGOUT_NOTICE case: the first active slot of the sender leaves. */
    method ProcessLogout(sender: SockAddr)
      requires Valid()
      modifies this`sent, clients
      ensures Valid()
      ensures var e := Logout(old(Table()), sender);
        Table() == e.slots && sent == old(sent) + e.sent
    {
      for i := 0 to 2
        invariant forall j :: 0 <= j < i ==> !Matches(Table(), j, sender)
        invariant Table() == old(Table()) && sent == old(sent)
      {
        if clients[i].isActive && AddressesEqual(clients[i].address, sender) {
          DisconnectSlot(i);
          return;
        }
      }
    }

    method HandleReceivedPacket(buffer: seq<Byte>, sender: SockAddr, senderLen: int, now: int)
      requires Valid()
      modifies this`sent, clients
      ensures Valid()
      ensures var e := HandlePacket(old(Table()), buffer, sender, senderLen, now);
        Table() == e.slots && sent == old(sent) + e.sent
    {
      if |buffer| < 1 {
        return;
      }
      var kind := TypeOf(buffer[0]);
      var data := buffer[1..];
      match kind
      case LoginRequest =>
        if |data| > 0 && |data| <= MAX_NAME_LENGTH {
          ProcessLogin(data, sender, senderLen, now);
        }
      case AudioData =>
        ProcessAudioData(buffer, sender, now);
      case DiscoveryRequest =>
        sent := sent + [Datagram(sender, Bare(DiscoveryResponse))];
      case LogoutNotice =>
        ProcessLogout(sender);
      case _ =>
    }

    /** One iteration of the timeout loop: ends slot `i` if it is stale. */
    method EvictSlot(i: int, now: int)
      requires Valid() && 0 <= i < 2
      modifies this`sent, clients
      ensures Valid()
      ensures var e := EvictIfStale(old(Table()), i, now);
        Table() == e.slots && sent == old(sent) + e.sent
    {
      if clients[i].isActive && now - clients[i].lastPacketTime > CLIENT_TIMEOUT {
        DisconnectSlot(i);
      }
    }

    method CheckClientTimeouts(now: int)
      requires Valid()
      modifies this`sent, clients
      ensures Valid()
      ensures var e := CheckTimeouts(old(Table()), now);
        Table() == e.slots && sent == old(sent) + e.sent
    {
      ghost var start := Table();
      for i := 0 to 2
        invariant Valid()
        invariant var e := EvictUpTo(start, now, i);
          Table() == e.slots && sent == old(sent) + e.sent
      {
        ghost var before := EvictUpTo(start, now, i);
        ghost var step := EvictIfStale(before.slots, i, now);
        EvictSlot(i, now);
        assert EvictUpTo(start, now, i + 1) == Effect(step.slots, before.sent + step.sent);
      }
    }

    /** One iteration of the server loop. */
    method ServerTick(arrival: Arrival, now: int)
      requires Valid()
      modifies this`sent, clients
      ensures Valid()
      ensures var e := Tick(old(Table()), arrival, now);
        Table() == e.slots && sent == old(sent) + e.sent
    {
      ghost var handled :=
        if arrival.Received? && |Truncate(arrival.datagram)| > 0
        then HandlePacket(Table(), Truncate(arrival.datagram), arrival.from, arrival.fromLen, now)
        else Effect(Table(), []);
      if arrival.Received? {
        var n := |Truncate(arrival.datagram)|;
        if n > 0 {
          HandleReceivedPacket(Truncate(arrival.datagram), arrival.from, arrival.fromLen, now);
        }
      }
      assert Table() == handled.slots && sent == old(sent) + handled.sent;
      CheckClientTimeouts(now);
      assert Tick(old(Table()), arrival, now)
        == Effect(CheckTimeouts(handled.slots, now).slots, handled.sent + CheckTimeouts(handled.slots, now).sent);
    }
  }
}
