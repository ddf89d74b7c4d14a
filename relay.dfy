/** The relay server's session table and packet dispatcher, as functions from
    the two-slot table (and the incoming datagram and the clock) to the new
    table and the datagrams sent. The class in ServerHandler is proved to
    follow these functions; the lemmas here state what they guarantee. */
module Relay {
  import opened Protocol

  /** The server's clock counts nanoseconds (a steady clock). */
  const NANOS_PER_SEC: int := 1_000_000_000
  const CLIENT_TIMEOUT: int := CLIENT_TIMEOUT_SEC * NANOS_PER_SEC

  /** An IPv4 socket address: family, IP address and port. */
  datatype SockAddr = SockAddr(family: int, ip: int, port: int)

  /** Two addresses name the same peer when IP and port agree: they may
      differ in the family field and in nothing else. */
  predicate AddressesEqual(a: SockAddr, b: SockAddr): (r: bool)
    ensures r <==> a.(family := b.family) == b
  {
    a.ip == b.ip && a.port == b.port
  }

  /** One session slot. */
  datatype ClientInfo = ClientInfo(
    address: SockAddr,
    addressLen: int,
    name: seq<Byte>,
    isActive: bool,
    lastPacketTime: int)

  /** A zero-initialised slot, as the table starts. */
  const EMPTY_SLOT: ClientInfo := ClientInfo(SockAddr(0, 0, 0), 0, [], false, 0)

  /** The table has exactly two slots. */
  type Slots = s: seq<ClientInfo> | |s| == 2 witness [EMPTY_SLOT, EMPTY_SLOT]

  /** A datagram the server sends, with its destination. */
  datatype Datagram = Datagram(to: SockAddr, data: seq<Byte>)

  /** `addr` is the address of a session active in `s`. */
  predicate InCall(s: Slots, addr: SockAddr) {
    || (s[0].isActive && s[0].address == addr)
    || (s[1].isActive && s[1].address == addr)
  }

  /** What handling one event does: the new table and the datagrams sent,
      in sending order. */
  datatype Effect = Effect(slots: Slots, sent: seq<Datagram>)

  // ---------------------------------------------------------------------
  // Notices
  // ---------------------------------------------------------------------

  /** "[SERVER] '<name>' entrou na chamada." */
  function JoinNotice(name: seq<Byte>): (r: seq<Byte>)
    ensures |r| == |name| + 30 && r[10..10 + |name|] == name
  {
    Ascii("[SERVER] '") + name + Ascii("' entrou na chamada.")
  }

  /** "[SERVER] '<name>' saiu da chamada." */
  function LeaveNotice(name: seq<Byte>): (r: seq<Byte>)
    ensures |r| == |name| + 28 && r[10..10 + |name|] == name
  {
    Ascii("[SERVER] '") + name + Ascii("' saiu da chamada.")
  }

  /** "[SERVER] Na chamada: '<name>'" */
  function PresentNotice(name: seq<Byte>): (r: seq<Byte>)
    ensures |r| == |name| + 23 && r[22..22 + |name|] == name
  {
    Ascii("[SERVER] Na chamada: '") + name + Ascii("'")
  }

  /** A SERVER_MESSAGE packet carrying `text`. */
  function MessagePacket(text: seq<Byte>): (d: seq<Byte>)
    ensures Decode(d) == Some(Packet(ServerMessage, text))
  {
    DecodeEncode(Packet(ServerMessage, text));
    Encode(Packet(ServerMessage, text))
  }

  // ---------------------------------------------------------------------
  // Broadcast
  // ---------------------------------------------------------------------

  /** Slot `i` receives a broadcast that excludes index `exclude`. */
  predicate Receives(s: Slots, exclude: int, i: int)
    requires 0 <= i < 2
  {
    i != exclude && s[i].isActive
  }

  /** The datagrams the broadcast loop has sent after visiting slots 0..n-1. */
  function BroadcastUpTo(s: Slots, packet: seq<Byte>, exclude: int, n: nat): (r: seq<Datagram>)
    requires n <= 2
    ensures |r| == (if 0 < n && Receives(s, exclude, 0) then 1 else 0)
                 + (if 1 < n && Receives(s, exclude, 1) then 1 else 0)
    ensures forall i :: 0 <= i < n && Receives(s, exclude, i) ==> Datagram(s[i].address, packet) in r
    ensures forall d :: d in r ==>
      d.data == packet && exists i :: 0 <= i < n && Receives(s, exclude, i) && d.to == s[i].address
  {
    if n == 0 then []
    else
      var last := if Receives(s, exclude, n - 1) then [Datagram(s[n - 1].address, packet)] else [];
      BroadcastUpTo(s, packet, exclude, n - 1) + last
  }

  /** A SERVER_MESSAGE with `message` to every active slot except `exclude`. */
  function Broadcast(s: Slots, message: seq<Byte>, exclude: int): (r: seq<Datagram>)
    ensures |r| <= (if 0 <= exclude < 2 then 1 else 2)
    ensures forall d :: d in r ==> d.data == MessagePacket(message) && InCall(s, d.to)
  {
    BroadcastUpTo(s, MessagePacket(message), exclude, 2)
  }

  /** A broadcast sends the message once to each receiving slot, in slot
      order, and to nobody else. */
  lemma {:induction false} BroadcastReachesReceivers(s: Slots, message: seq<Byte>, exclude: int)
    ensures var r := Broadcast(s, message, exclude);
      var packet := MessagePacket(message);
      && (forall d :: d in r ==> d.data == packet)
      && (Receives(s, exclude, 0) && Receives(s, exclude, 1) ==>
            r == [Datagram(s[0].address, packet), Datagram(s[1].address, packet)])
      && (Receives(s, exclude, 0) && !Receives(s, exclude, 1) ==> r == [Datagram(s[0].address, packet)])
      && (!Receives(s, exclude, 0) && Receives(s, exclude, 1) ==> r == [Datagram(s[1].address, packet)])
      && (!Receives(s, exclude, 0) && !Receives(s, exclude, 1) ==> r == [])
  {
    var packet := MessagePacket(message);
    assert BroadcastUpTo(s, packet, exclude, 0) == [];
    assert BroadcastUpTo(s, packet, exclude, 1)
      == if Receives(s, exclude, 0) then [Datagram(s[0].address, packet)] else [];
  }

  // ---------------------------------------------------------------------
  // Slot lookup
  // ---------------------------------------------------------------------

  /** The lowest-index inactive slot, or -1 when both are active. */
  function FirstInactive(s: Slots): (r: int)
    ensures -1 <= r < 2
    ensures r == -1 <==> s[0].isActive && s[1].isActive
    ensures r != -1 ==> !s[r].isActive && forall j :: 0 <= j < r ==> s[j].isActive
  {
    if !s[0].isActive then 0 else if !s[1].isActive then 1 else -1
  }

  /** Slot `i` is the active session of the peer at `addr`. */
  predicate Matches(s: Slots, i: int, addr: SockAddr)
    requires 0 <= i < 2
  {
    s[i].isActive && AddressesEqual(s[i].address, addr)
  }

  /** The first active slot whose address equals `addr`, or -1. */
  function SenderIndex(s: Slots, addr: SockAddr): (r: int)
    ensures -1 <= r < 2
    ensures r == -1 <==> !Matches(s, 0, addr) && !Matches(s, 1, addr)
    ensures r != -1 ==> Matches(s, r, addr) && forall j :: 0 <= j < r ==> !Matches(s, j, addr)
  {
    if Matches(s, 0, addr) then 0 else if Matches(s, 1, addr) then 1 else -1
  }

  // ---------------------------------------------------------------------
  // Per-packet handlers
  // ---------------------------------------------------------------------

  /** A login: take the first free slot, confirm, announce, and tell the
      newcomer who is present; or answer SERVER_FULL. */
  function Login(s: Slots, name: seq<Byte>, sender: SockAddr, senderLen: int, now: int): (e: Effect)
    ensures 1 <= |e.sent| <= 3 && e.sent[0].to == sender
    ensures forall i :: 0 <= i < 2 && s[i].isActive ==> e.slots[i] == s[i]
    ensures forall i :: 0 <= i < 2 && e.slots[i].isActive ==> s[i].isActive || e.slots[i].address == sender
    ensures forall d :: d in e.sent ==> d.to == sender || InCall(s, d.to)
  {
    var free := FirstInactive(s);
    if free == -1 then
      Effect(s, [Datagram(sender, Bare(ServerFull))])
    else
      var s1: Slots := s[free := ClientInfo(sender, senderLen, name, true, now)];
      var other := 1 - free;
      Effect(s1,
        [Datagram(sender, Bare(LoginOk))]
        + Broadcast(s1, JoinNotice(name), free)
        + (if s1[other].isActive
           then [Datagram(sender, MessagePacket(PresentNotice(s1[other].name)))]
           else []))
  }

  /** Audio: refresh the sender's slot and relay the whole packet to the
      other slot, or answer KEEPALIVE_PONG when nobody else is there. */
  function RelayAudio(s: Slots, packet: seq<Byte>, sender: SockAddr, now: int): (e: Effect)
    ensures forall i :: 0 <= i < 2 ==> e.slots[i] == s[i].(lastPacketTime := e.slots[i].lastPacketTime)
    ensures |e.sent| <= 1
    ensures forall d :: d in e.sent ==> (d.to == sender && d.data == Bare(KeepalivePong)) || (InCall(s, d.to) && d.data == packet)
  {
    var idx := SenderIndex(s, sender);
    if idx == -1 then Effect(s, [])
    else
      var s1: Slots := s[idx := s[idx].(lastPacketTime := now)];
      var receiver := 1 - idx;
      if s1[receiver].isActive then Effect(s1, [Datagram(s1[receiver].address, packet)])
      else Effect(s1, [Datagram(sender, Bare(KeepalivePong))])
  }

  /** Ends the session in slot `i` and tells the slots still active. */
  function Disconnect(s: Slots, i: int): (e: Effect)
    requires 0 <= i < 2
    ensures e.slots[i] == s[i].(isActive := false) && e.slots[1 - i] == s[1 - i]
    ensures |e.sent| <= 1
    ensures forall d :: d in e.sent ==>
      s[1 - i].isActive && d == Datagram(s[1 - i].address, MessagePacket(LeaveNotice(s[i].name)))
  {
    var s1: Slots := s[i := s[i].(isActive := false)];
    BroadcastReachesReceivers(s1, LeaveNotice(s[i].name), -1);
    Effect(s1, Broadcast(s1, LeaveNotice(s[i].name), -1))
  }

  /** A logout ends the first active session of the sender. */
  function Logout(s: Slots, sender: SockAddr): (e: Effect)
    ensures e == Effect(s, []) <==> SenderIndex(s, sender) == -1
    ensures forall k :: 0 <= k < 2 ==> e.slots[k] == s[k].(isActive := e.slots[k].isActive)
    ensures forall k :: 0 <= k < 2 && e.slots[k].isActive ==> s[k].isActive
    ensures |e.sent| <= 1 && forall d :: d in e.sent ==> InCall(s, d.to)
  {
    var idx := SenderIndex(s, sender);
    if idx == -1 then Effect(s, []) else Disconnect(s, idx)
  }

  /** Dispatch on the type byte of a received datagram. */
  function HandlePacket(s: Slots, buffer: seq<Byte>, sender: SockAddr, senderLen: int, now: int): (e: Effect)
    ensures |e.sent| <= 3
    ensures forall d :: d in e.sent ==> d.to == sender || InCall(s, d.to)
    ensures forall k :: 0 <= k < 2 && e.slots[k].isActive ==> s[k].isActive || e.slots[k].address == sender
  {
    if |buffer| < 1 then Effect(s, [])
    else
      var data := buffer[1..];
      match TypeOf(buffer[0])
      case LoginRequest =>
        if |data| > 0 && |data| <= MAX_NAME_LENGTH then Login(s, data, sender, senderLen, now)
        else Effect(s, [])
      case AudioData => RelayAudio(s, buffer, sender, now)
      case DiscoveryRequest => Effect(s, [Datagram(sender, Bare(DiscoveryResponse))])
      case LogoutNotice => Logout(s, sender)
      case _ => Effect(s, [])
  }

  // ---------------------------------------------------------------------
  // Timeouts and the server tick
  // ---------------------------------------------------------------------

  /** More than CLIENT_TIMEOUT_SEC seconds have passed since the slot's last packet. */
  predicate Stale(c: ClientInfo, now: int): (r: bool)
    ensures r ==> c.lastPacketTime < now
  {
    now - c.lastPacketTime > CLIENT_TIMEOUT
  }

  /** One iteration of the timeout loop: end slot `i` if it is active and stale. */
  function EvictIfStale(s: Slots, i: int, now: int): (e: Effect)
    requires 0 <= i < 2
    ensures e.slots[i] == s[i].(isActive := s[i].isActive && !Stale(s[i], now))
    ensures e.slots[1 - i] == s[1 - i]
    ensures |e.sent| <= 1 && forall d :: d in e.sent ==> s[1 - i].isActive && d.to == s[1 - i].address
  {
    if s[i].isActive && Stale(s[i], now) then Disconnect(s, i) else Effect(s, [])
  }

  /** The timeout check after visiting slots 0..n-1. */
  function EvictUpTo(s: Slots, now: int, n: nat): (e: Effect)
    requires n <= 2
    ensures forall k :: 0 <= k < 2 ==> e.slots[k] == s[k].(isActive := e.slots[k].isActive)
    ensures forall k :: 0 <= k < 2 && e.slots[k].isActive ==> s[k].isActive
    ensures forall k :: n <= k < 2 ==> e.slots[k] == s[k]
    ensures forall k :: 0 <= k < n ==> e.slots[k].isActive == (s[k].isActive && !Stale(s[k], now))
    ensures |e.sent| <= n && forall d :: d in e.sent ==> InCall(s, d.to)
  {
    if n == 0 then Effect(s, [])
    else
      var e := EvictUpTo(s, now, n - 1);
      var e' := EvictIfStale(e.slots, n - 1, now);
      Effect(e'.slots, e.sent + e'.sent)
  }

  function CheckTimeouts(s: Slots, now: int): (e: Effect)
    ensures forall k :: 0 <= k < 2 ==> e.slots[k] == s[k].(isActive := s[k].isActive && !Stale(s[k], now))
    ensures |e.sent| <= 2 && forall d :: d in e.sent ==> InCall(s, d.to)
  {
    EvictUpTo(s, now, 2)
  }

  /** What one wait on the socket produced. */
  datatype Arrival =
    | Idle                                                // the one-second wait expired
    | RecvFailed                                          // recvfrom reported an error
    | Received(datagram: seq<Byte>, from: SockAddr, fromLen: int)

  /** One iteration of the server loop: handle at most one datagram, then
      always run the timeout check. */
  function Tick(s: Slots, a: Arrival, now: int): (e: Effect)
    ensures forall d :: d in e.sent ==> (a.Received? && d.to == a.from) || InCall(s, d.to)
    ensures forall k :: 0 <= k < 2 && e.slots[k].isActive ==>
      s[k].isActive || (a.Received? && e.slots[k].address == a.from)
    ensures forall k :: 0 <= k < 2 && e.slots[k].isActive ==> !Stale(e.slots[k], now)
  {
    var handled :=
      if a.Received? && |Truncate(a.datagram)| > 0
      then HandlePacket(s, Truncate(a.datagram), a.from, a.fromLen, now)
      else Effect(s, []);
    var checked := CheckTimeouts(handled.slots, now);
    Effect(checked.slots, handled.sent + checked.sent)
  }

  // ---------------------------------------------------------------------
  // Properties
  // ---------------------------------------------------------------------

  /** An empty datagram, an unknown type byte, a type the server does not
      serve, or a login whose name is empty or too long changes nothing and
      sends nothing. */
  lemma IgnoredDatagrams(s: Slots, buffer: seq<Byte>, sender: SockAddr, senderLen: int, now: int)
    requires || |buffer| == 0
             || TypeOf(buffer[0]) !in {LoginRequest, AudioData, DiscoveryRequest, LogoutNotice}
             || (TypeOf(buffer[0]) == LoginRequest && (|buffer| == 1 || |buffer| - 1 > MAX_NAME_LENGTH))
    ensures HandlePacket(s, buffer, sender, senderLen, now) == Effect(s, [])
  {
  }

  /** A login with a free slot fills the lowest-index free slot with the
      sender, its name and the current time, confirms with LOGIN_OK, and
      leaves the other slot as it was. */
  lemma LoginTakesLowestFreeSlot(s: Slots, name: seq<Byte>, sender: SockAddr, senderLen: int, now: int)
    requires !s[0].isActive || !s[1].isActive
    ensures var e := Login(s, name, sender, senderLen, now);
      var i := FirstInactive(s);
      && 0 <= i < 2 && !s[i].isActive && (i == 1 ==> s[0].isActive)
      && e.slots[i] == ClientInfo(sender, senderLen, name, true, now)
      && e.slots[1 - i] == s[1 - i]
      && |e.sent| >= 1 && e.sent[0] == Datagram(sender, Bare(LoginOk))
  {
  }

  /** After a successful login the join notice goes only to the other slot,
      only if it is active, and then the newcomer learns that slot's name. */
  lemma LoginNotices(s: Slots, name: seq<Byte>, sender: SockAddr, senderLen: int, now: int)
    requires !s[0].isActive || !s[1].isActive
    ensures var e := Login(s, name, sender, senderLen, now);
      var other := 1 - FirstInactive(s);
      e.sent == [Datagram(sender, Bare(LoginOk))]
        + (if s[other].isActive
           then [Datagram(s[other].address, MessagePacket(JoinNotice(name))),
                 Datagram(sender, MessagePacket(PresentNotice(s[other].name)))]
           else [])
  {
    var free := FirstInactive(s);
    var s1: Slots := s[free := ClientInfo(sender, senderLen, name, true, now)];
    BroadcastReachesReceivers(s1, JoinNotice(name), free);
  }

  /** A login with both slots active answers SERVER_FULL and changes no slot. */
  lemma LoginWhenFull(s: Slots, name: seq<Byte>, sender: SockAddr, senderLen: int, now: int)
    requires s[0].isActive && s[1].isActive
    ensures Login(s, name, sender, senderLen, now) == Effect(s, [Datagram(sender, Bare(ServerFull))])
  {
  }

  /** Audio from an address that matches no active slot is dropped silently. */
  lemma AudioFromUnknownSender(s: Slots, buffer: seq<Byte>, sender: SockAddr, senderLen: int, now: int)
    requires |buffer| > 0 && TypeOf(buffer[0]) == AudioData
    requires !Matches(s, 0, sender) && !Matches(s, 1, sender)
    ensures HandlePacket(s, buffer, sender, senderLen, now) == Effect(s, [])
  {
  }

  /** Audio from an active session refreshes only that slot's timestamp and
      then either relays the whole packet, byte for byte, to the other slot
      or answers the sender with KEEPALIVE_PONG. */
  lemma AudioFromActiveSlot(s: Slots, buffer: seq<Byte>, sender: SockAddr, senderLen: int, now: int)
    requires |buffer| > 0 && TypeOf(buffer[0]) == AudioData
    requires SenderIndex(s, sender) != -1
    ensures var e := HandlePacket(s, buffer, sender, senderLen, now);
      var i := SenderIndex(s, sender);
      && e.slots[i] == s[i].(lastPacketTime := now)
      && e.slots[1 - i] == s[1 - i]
      && e.sent == (if s[1 - i].isActive then [Datagram(s[1 - i].address, buffer)]
                    else [Datagram(sender, Bare(KeepalivePong))])
  {
  }

  /** A relayed audio packet decodes, at the receiver, to AUDIO_DATA with the
      sender's payload unchanged. */
  lemma RelayedAudioDecodes(s: Slots, frame: seq<Byte>, sender: SockAddr, senderLen: int, now: int)
    requires SenderIndex(s, sender) != -1 && s[1 - SenderIndex(s, sender)].isActive
    ensures var e := HandlePacket(s, Encode(Packet(AudioData, frame)), sender, senderLen, now);
      && |e.sent| == 1
      && e.sent[0].to == s[1 - SenderIndex(s, sender)].address
      && Decode(e.sent[0].data) == Some(Packet(AudioData, frame))
  {
    var buffer := Encode(Packet(AudioData, frame));
    TypeOfCode(AudioData);
    AudioFromActiveSlot(s, buffer, sender, senderLen, now);
    DecodeEncode(Packet(AudioData, frame));
  }

  /** A logout, whatever bytes follow its type byte, ends the first active
      session of the sender; the leave notice
      goes only to the other slot, if it is still active, so the leaver's
      slot never receives it. */
  lemma LogoutEndsFirstMatch(s: Slots, buffer: seq<Byte>, sender: SockAddr, senderLen: int, now: int)
    requires |buffer| > 0 && TypeOf(buffer[0]) == LogoutNotice
    requires SenderIndex(s, sender) != -1
    ensures var e := HandlePacket(s, buffer, sender, senderLen, now);
      var i := SenderIndex(s, sender);
      && e.slots[i] == s[i].(isActive := false)
      && e.slots[1 - i] == s[1 - i]
      && e.sent == (if s[1 - i].isActive
                    then [Datagram(s[1 - i].address, MessagePacket(LeaveNotice(s[i].name)))]
                    else [])
  {
    var i := SenderIndex(s, sender);
    var s1: Slots := s[i := s[i].(isActive := false)];
    BroadcastReachesReceivers(s1, LeaveNotice(s[i].name), -1);
  }

  /** A logout (whatever bytes follow its type byte) from an address with no
      active session changes nothing. */
  lemma LogoutFromUnknownSender(s: Slots, buffer: seq<Byte>, sender: SockAddr, senderLen: int, now: int)
    requires |buffer| > 0 && TypeOf(buffer[0]) == LogoutNotice
    requires SenderIndex(s, sender) == -1
    ensures HandlePacket(s, buffer, sender, senderLen, now) == Effect(s, [])
  {
  }

  /** A discovery request is answered with DISCOVERY_RESPONSE and changes no slot. */
  lemma DiscoveryAnswered(s: Slots, buffer: seq<Byte>, sender: SockAddr, senderLen: int, now: int)
    requires |buffer| > 0 && TypeOf(buffer[0]) == DiscoveryRequest
    ensures HandlePacket(s, buffer, sender, senderLen, now)
      == Effect(s, [Datagram(sender, Bare(DiscoveryResponse))])
  {
  }

  /** Isolation between sessions: handling a datagram never changes an active
      session whose address differs from the sender's. */
  lemma SessionsIsolated(s: Slots, buffer: seq<Byte>, sender: SockAddr, senderLen: int, now: int, k: int)
    requires 0 <= k < 2 && s[k].isActive && !AddressesEqual(s[k].address, sender)
    ensures HandlePacket(s, buffer, sender, senderLen, now).slots[k] == s[k]
  {
  }

  /** The timeout check ends exactly the active sessions that are stale,
      changes nothing else, and tells each ending to the slot still active
      at that moment. */
  lemma TimeoutsEvictExactlyStale(s: Slots, now: int)
    ensures var e := CheckTimeouts(s, now);
      var ev0 := s[0].isActive && Stale(s[0], now);
      var ev1 := s[1].isActive && Stale(s[1], now);
      && e.slots[0] == s[0].(isActive := s[0].isActive && !ev0)
      && e.slots[1] == s[1].(isActive := s[1].isActive && !ev1)
      && e.sent ==
           (if ev0 && s[1].isActive
            then [Datagram(s[1].address, MessagePacket(LeaveNotice(s[0].name)))] else [])
         + (if ev1 && s[0].isActive && !ev0
            then [Datagram(s[0].address, MessagePacket(LeaveNotice(s[1].name)))] else [])
  {
    var e0 := EvictUpTo(s, now, 1);
    assert EvictUpTo(s, now, 0) == Effect(s, []);
    assert e0 == EvictIfStale(s, 0, now);
    if s[0].isActive && Stale(s[0], now) {
      var s1: Slots := s[0 := s[0].(isActive := false)];
      BroadcastReachesReceivers(s1, LeaveNotice(s[0].name), -1);
    }
    var e1 := EvictIfStale(e0.slots, 1, now);
    if e0.slots[1].isActive && Stale(e0.slots[1], now) {
      var s2: Slots := e0.slots[1 := e0.slots[1].(isActive := false)];
      BroadcastReachesReceivers(s2, LeaveNotice(e0.slots[1].name), -1);
    }
  }

  /** Every tick runs the timeout check, so after a tick, whatever arrived,
      no active session is stale. */
  lemma NoStaleSessionAfterTick(s: Slots, a: Arrival, now: int)
    ensures var e := Tick(s, a, now);
      forall i :: 0 <= i < 2 && e.slots[i].isActive ==> !Stale(e.slots[i], now)
  {
    var handled :=
      if a.Received? && |Truncate(a.datagram)| > 0
      then HandlePacket(s, Truncate(a.datagram), a.from, a.fromLen, now)
      else Effect(s, []);
    TimeoutsEvictExactlyStale(handled.slots, now);
  }

  /** With nothing received, a tick is exactly the timeout check. */
  lemma IdleTickOnlyChecksTimeouts(s: Slots, now: int)
    ensures Tick(s, Idle, now) == CheckTimeouts(s, now)
    ensures Tick(s, RecvFailed, now) == CheckTimeouts(s, now)
  {
  }

  /** The table invariant: every active session has a name of 1 to
      MAX_NAME_LENGTH bytes and a timestamp not in the future. */
  ghost predicate TableValid(s: Slots, now: int) {
    forall i :: 0 <= i < 2 && s[i].isActive ==>
      0 < |s[i].name| <= MAX_NAME_LENGTH && s[i].lastPacketTime <= now
  }

  /** Ticks keep the table invariant as the clock moves forward. */
  lemma TickKeepsTableValid(s: Slots, a: Arrival, before: int, now: int)
    requires TableValid(s, before) && before <= now
    ensures TableValid(Tick(s, a, now).slots, now)
  {
    var handled :=
      if a.Received? && |Truncate(a.datagram)| > 0
      then HandlePacket(s, Truncate(a.datagram), a.from, a.fromLen, now)
      else Effect(s, []);
    assert TableValid(handled.slots, now);
    TimeoutsEvictExactlyStale(handled.slots, now);
  }

  /** Every message packet the server builds has one type byte plus the text. */
  lemma {:induction false} BroadcastSizes(s: Slots, message: seq<Byte>, exclude: int)
    ensures forall d :: d in Broadcast(s, message, exclude) ==> d.data == [Code(ServerMessage)] + message
  {
    BroadcastReachesReceivers(s, message, exclude);
  }

  /** A login with an acceptable name keeps the table invariant and sends
      only datagrams that fit a receive buffer. */
  lemma LoginKeepsBounds(s: Slots, name: seq<Byte>, sender: SockAddr, senderLen: int, now: int)
    requires TableValid(s, now) && 0 < |name| <= MAX_NAME_LENGTH
    ensures var e := Login(s, name, sender, senderLen, now);
      && TableValid(e.slots, now)
      && forall d :: d in e.sent ==> |d.data| <= RECEIVE_BUFFER_SIZE
  {
    var free := FirstInactive(s);
    if free != -1 {
      var s1: Slots := s[free := ClientInfo(sender, senderLen, name, true, now)];
      BroadcastSizes(s1, JoinNotice(name), free);
    }
  }

  /** Handling one received datagram keeps the table invariant and sends only
      datagrams that fit a receive buffer. */
  lemma HandleKeepsBounds(s: Slots, buffer: seq<Byte>, sender: SockAddr, senderLen: int, now: int)
    requires TableValid(s, now) && 0 < |buffer| <= RECEIVE_BUFFER_SIZE
    ensures var e := HandlePacket(s, buffer, sender, senderLen, now);
      && TableValid(e.slots, now)
      && forall d :: d in e.sent ==> |d.data| <= RECEIVE_BUFFER_SIZE
  {
    var kind := TypeOf(buffer[0]);
    var name := buffer[1..];
    var e := HandlePacket(s, buffer, sender, senderLen, now);
    if kind == LoginRequest && 0 < |name| <= MAX_NAME_LENGTH {
      assert e == Login(s, name, sender, senderLen, now);
      LoginKeepsBounds(s, name, sender, senderLen, now);
    } else if kind == LogoutNotice {
      assert e == Logout(s, sender);
      if SenderIndex(s, sender) != -1 {
        var i := SenderIndex(s, sender);
        var s1: Slots := s[i := s[i].(isActive := false)];
        BroadcastSizes(s1, LeaveNotice(s[i].name), -1);
      }
    } else if kind == AudioData {
      assert e == RelayAudio(s, buffer, sender, now);
    }
  }

  /** The timeout check keeps the table invariant and sends only leave
      notices that fit a receive buffer. */
  lemma TimeoutsKeepBounds(s: Slots, now: int)
    requires TableValid(s, now)
    ensures var e := CheckTimeouts(s, now);
      && TableValid(e.slots, now)
      && forall d :: d in e.sent ==> |d.data| <= RECEIVE_BUFFER_SIZE
  {
    TimeoutsEvictExactlyStale(s, now);
  }

  /** Every datagram the server sends in a tick fits the peers' receive buffer. */
  lemma TickSendsBoundedDatagrams(s: Slots, a: Arrival, now: int)
    requires TableValid(s, now)
    ensures forall d :: d in Tick(s, a, now).sent ==> |d.data| <= RECEIVE_BUFFER_SIZE
  {
    var handled :=
      if a.Received? && |Truncate(a.datagram)| > 0
      then HandlePacket(s, Truncate(a.datagram), a.from, a.fromLen, now)
      else Effect(s, []);
    if a.Received? && |Truncate(a.datagram)| > 0 {
      HandleKeepsBounds(s, Truncate(a.datagram), a.from, a.fromLen, now);
    }
    TimeoutsKeepBounds(handled.slots, now);
  }
}
