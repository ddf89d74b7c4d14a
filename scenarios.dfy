/** Runs of the server and the client together: capacity, the absence of a
    duplicate-login check, and a call from login to playback to logout. */
module Scenarios {
  import opened Protocol
  import opened Relay
  import opened ClientModel

  /** The table the server starts with. */
  const START: Slots := [EMPTY_SLOT, EMPTY_SLOT]

  function LoginDatagram(name: seq<Byte>): (d: seq<Byte>)
    ensures Decode(d) == Some(Packet(LoginRequest, name))
  {
    DecodeEncode(Packet(LoginRequest, name));
    Encode(Packet(LoginRequest, name))
  }

  /** A login datagram with an acceptable name is handled as a login. */
  lemma LoginDispatched(s: Slots, name: seq<Byte>, sender: SockAddr, senderLen: int, now: int)
    requires 0 < |name| <= MAX_NAME_LENGTH
    ensures HandlePacket(s, LoginDatagram(name), sender, senderLen, now)
      == Login(s, name, sender, senderLen, now)
  {
    TypeOfCode(LoginRequest);
  }

  /** After two logins, whoever they came from, a third login gets
      SERVER_FULL and no slot changes. */
  lemma ThirdLoginRejected(a: SockAddr, b: SockAddr, c: SockAddr,
                           na: seq<Byte>, nb: seq<Byte>, nc: seq<Byte>, t1: int, t2: int, t3: int)
    requires 0 < |na| <= MAX_NAME_LENGTH && 0 < |nb| <= MAX_NAME_LENGTH && 0 < |nc| <= MAX_NAME_LENGTH
    ensures var e1 := HandlePacket(START, LoginDatagram(na), a, 16, t1);
      var e2 := HandlePacket(e1.slots, LoginDatagram(nb), b, 16, t2);
      var e3 := HandlePacket(e2.slots, LoginDatagram(nc), c, 16, t3);
      && e2.slots[0].isActive && e2.slots[1].isActive
      && e3 == Effect(e2.slots, [Datagram(c, Bare(ServerFull))])
  {
    LoginDispatched(START, na, a, 16, t1);
    var e1 := HandlePacket(START, LoginDatagram(na), a, 16, t1);
    LoginTakesLowestFreeSlot(START, na, a, 16, t1);
    LoginDispatched(e1.slots, nb, b, 16, t2);
    LoginTakesLowestFreeSlot(e1.slots, nb, b, 16, t2);
    var e2 := HandlePacket(e1.slots, LoginDatagram(nb), b, 16, t2);
    LoginDispatched(e2.slots, nc, c, 16, t3);
    LoginWhenFull(e2.slots, nc, c, 16, t3);
  }

  /** Login does not look for an existing session of the sender: one address
      can hold both slots. */
  lemma SameAddressTakesBothSlots(a: SockAddr, name: seq<Byte>, t1: int, t2: int)
    requires 0 < |name| <= MAX_NAME_LENGTH
    ensures var e1 := HandlePacket(START, LoginDatagram(name), a, 16, t1);
      var e2 := HandlePacket(e1.slots, LoginDatagram(name), a, 16, t2);
      && e2.slots[0].isActive && e2.slots[1].isActive
      && e2.slots[0].address == a && e2.slots[1].address == a
  {
    LoginDispatched(START, name, a, 16, t1);
    var e1 := HandlePacket(START, LoginDatagram(name), a, 16, t1);
    LoginTakesLowestFreeSlot(START, name, a, 16, t1);
    LoginDispatched(e1.slots, name, a, 16, t2);
    LoginTakesLowestFreeSlot(e1.slots, name, a, 16, t2);
  }

  /** Two logins into an empty table: the first caller takes slot 0, the
      second slot 1; each is confirmed, and the first hears of the second. */
  lemma TwoLogins(a: SockAddr, b: SockAddr, na: seq<Byte>, nb: seq<Byte>, t1: int, t2: int)
    requires 0 < |na| <= MAX_NAME_LENGTH && 0 < |nb| <= MAX_NAME_LENGTH
    ensures var e1 := HandlePacket(START, LoginDatagram(na), a, 16, t1);
      var e2 := HandlePacket(e1.slots, LoginDatagram(nb), b, 16, t2);
      && e1.sent == [Datagram(a, Bare(LoginOk))]
      && e2.slots == [ClientInfo(a, 16, na, true, t1), ClientInfo(b, 16, nb, true, t2)]
      && e2.sent == [Datagram(b, Bare(LoginOk)),
                     Datagram(a, MessagePacket(JoinNotice(nb))),
                     Datagram(b, MessagePacket(PresentNotice(na)))]
  {
    LoginDispatched(START, na, a, 16, t1);
    LoginTakesLowestFreeSlot(START, na, a, 16, t1);
    LoginNotices(START, na, a, 16, t1);
    var e1 := HandlePacket(START, LoginDatagram(na), a, 16, t1);
    assert e1.slots == [ClientInfo(a, 16, na, true, t1), EMPTY_SLOT];
    LoginDispatched(e1.slots, nb, b, 16, t2);
    LoginTakesLowestFreeSlot(e1.slots, nb, b, 16, t2);
    LoginNotices(e1.slots, nb, b, 16, t2);
  }

  /** In a call between slot 0 and slot 1, a frame from slot 0 is relayed to
      slot 1, whose client queues it and plays it unchanged. */
  lemma FrameRelayedAndPlayed(s: Slots, frame: seq<Byte>, client: ClientState, now: int)
    requires s[0].isActive && s[1].isActive
    requires |frame| == AUDIO_BUFFER_SIZE
    requires (client.running || client.confirmed) && !client.exited && Consistent(client) && client.queue == []
    ensures var e := HandlePacket(s, Encode(Packet(AudioData, frame)), s[0].address, 16, now);
      && e.slots == [s[0].(lastPacketTime := now), s[1]]
      && |e.sent| == 1 && e.sent[0].to == s[1].address
      && (var received := Receive(client, Got(e.sent[0].data));
          received.queue == [frame] && Playback(received).outcome == Played(frame))
  {
    var packet := Encode(Packet(AudioData, frame));
    assert SenderIndex(s, s[0].address) == 0;
    TypeOfCode(AudioData);
    AudioFromActiveSlot(s, packet, s[0].address, 16, now);
    var e := HandlePacket(s, packet, s[0].address, 16, now);
    assert e.sent == [Datagram(s[1].address, packet)];
    AudioIsQueued(client, packet);
  }

  /** The user presses Enter while the confirmed client's receiver waits in
      the receive call: if the wait times out or fails, the process exits
      (with status 1) instead of leaving the loop; a datagram that arrives is
      still handled, so an audio payload is still queued. */
  lemma EnterDuringReceive(st: ClientState, r: RecvResult)
    requires st.running && st.confirmed && !st.exited && Consistent(st)
    ensures var stopped := st.(running := false);
      && (r.RecvError? ==> Receive(stopped, r) == stopped.(exited := true))
      && (r.Got? && 0 < |r.datagram| && TypeOf(r.datagram[0]) == AudioData ==>
            Receive(stopped, r) == stopped.(queue := st.queue + [Truncate(r.datagram)[1..]]))
  {
    var stopped := st.(running := false);
    if r.RecvError? {
      ReceiveFailure(stopped, r);
    } else if 0 < |r.datagram| && TypeOf(r.datagram[0]) == AudioData {
      AudioIsQueued(stopped, r.datagram);
    }
  }

  /** In a call between slot 0 and slot 1, a logout from slot 1 frees that
      slot and tells slot 0. */
  lemma SecondCallerLogsOut(s: Slots, now: int)
    requires s[0].isActive && s[1].isActive && !AddressesEqual(s[0].address, s[1].address)
    ensures var e := HandlePacket(s, Bare(LogoutNotice), s[1].address, 16, now);
      && e.sent == [Datagram(s[0].address, MessagePacket(LeaveNotice(s[1].name)))]
      && FirstInactive(e.slots) == 1 && e.slots[0].isActive
  {
    assert SenderIndex(s, s[1].address) == 1;
    TypeOfCode(LogoutNotice);
    LogoutEndsFirstMatch(s, Bare(LogoutNotice), s[1].address, 16, now);
  }

  /** A call: Alice and Bob log in; Alice sends one frame, which the server
      relays and Bob's client queues and plays unchanged; Bob logs out,
      Alice is told, and Bob's slot is free again. */
  lemma Call(alice: SockAddr, bob: SockAddr, frame: seq<Byte>, bobClient: ClientState,
             t1: int, t2: int, t3: int, t4: int)
    requires !AddressesEqual(alice, bob)
    requires |frame| == AUDIO_BUFFER_SIZE
    requires bobClient.running && !bobClient.exited && Consistent(bobClient) && bobClient.queue == []
    ensures
      var aliceName := Ascii("Alice");
      var bobName := Ascii("Bob");
      var e1 := HandlePacket(START, LoginDatagram(aliceName), alice, 16, t1);
      var e2 := HandlePacket(e1.slots, LoginDatagram(bobName), bob, 16, t2);
      var e3 := HandlePacket(e2.slots, Encode(Packet(AudioData, frame)), alice, 16, t3);
      var e4 := HandlePacket(e3.slots, Bare(LogoutNotice), bob, 16, t4);
      // logins: slot 0 for Alice, slot 1 for Bob, each confirmed; Alice hears of Bob
      && e1.sent == [Datagram(alice, Bare(LoginOk))]
      && e2.sent == [Datagram(bob, Bare(LoginOk)),
                     Datagram(alice, MessagePacket(JoinNotice(bobName))),
                     Datagram(bob, MessagePacket(PresentNotice(aliceName)))]
      // audio: relayed unchanged to Bob, queued, and played as it was sent
      && |e3.sent| == 1 && e3.sent[0].to == bob
      && (var received := Receive(bobClient, Got(e3.sent[0].data));
          received.queue == [frame] && Playback(received).outcome == Played(frame))
      // logout: Alice hears Bob left, and Bob's slot is the free one
      && e4.sent == [Datagram(alice, MessagePacket(LeaveNotice(bobName)))]
      && FirstInactive(e4.slots) == 1 && e4.slots[0].isActive
  {
    var aliceName := Ascii("Alice");
    var bobName := Ascii("Bob");
    TwoLogins(alice, bob, aliceName, bobName, t1, t2);
    var e1 := HandlePacket(START, LoginDatagram(aliceName), alice, 16, t1);
    var e2 := HandlePacket(e1.slots, LoginDatagram(bobName), bob, 16, t2);
    var s2 := [ClientInfo(alice, 16, aliceName, true, t1), ClientInfo(bob, 16, bobName, true, t2)];
    assert e2.slots == s2;
    FrameRelayedAndPlayed(s2, frame, bobClient, t3);
    var e3 := HandlePacket(s2, Encode(Packet(AudioData, frame)), alice, 16, t3);
    SecondCallerLogsOut(e3.slots, t4);
  }
}
