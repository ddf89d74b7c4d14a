/** The client's receive demultiplexer and jitter-buffer playback, as
    functions on the client's shared state. Each function is one iteration
    of the receiver's or the player's loop, taken as a single step; the
    class in ClientHandler is proved to follow them. */
module ClientModel {
  import opened Protocol

  /** Why the connection attempt failed. */
  datatype FailureReason = ConnectFailed | ServerIsFull

  /** The one-shot connection signal awaited by the client's start-up. */
  datatype Promise = Pending | Fulfilled | Failed(reason: FailureReason)

  /** The state the receiver and the player share: the run flag, the
      receiver's confirmation flag, the promise, whether the process has
      exited, and the jitter buffer (a FIFO queue of audio payloads). */
  datatype ClientState = ClientState(
    running: bool,
    confirmed: bool,
    promise: Promise,
    exited: bool,
    queue: seq<seq<Byte>>)

  /** The state when the receiver starts: running, nothing confirmed yet. */
  const INITIAL: ClientState := ClientState(true, false, Pending, false, [])

  /** The invariant of the receiver: the promise is fulfilled exactly when
      the connection is confirmed, and a failed promise means the client
      is stopping. */
  ghost predicate Consistent(st: ClientState) {
    && (st.confirmed <==> st.promise.Fulfilled?)
    && (st.promise.Failed? ==> !st.running)
  }

  /** What one receive call returned. */
  datatype RecvResult =
    | RecvError(isTimeout: bool)      // the call failed or timed out
    | Got(datagram: seq<Byte>)        // a datagram arrived

  /** `set_exception` on the promise; on an already satisfied promise it
      throws, and the client catches and ignores that. */
  function SetException(p: Promise, reason: FailureReason): (q: Promise)
    ensures p.Pending? ==> q == Failed(reason)
    ensures !p.Pending? ==> q == p
  {
    if p.Pending? then Failed(reason) else p
  }

  /** One iteration of the receive loop. The loop tests `running` once, then
      blocks in the receive call without any lock, so the user may clear
      `running` meanwhile (only after confirmation): the iteration then
      still runs to its end. */
  function Receive(st: ClientState, r: RecvResult): (st': ClientState)
    requires (st.running || st.confirmed) && !st.exited && Consistent(st)
    ensures Consistent(st')
    ensures st.queue <= st'.queue && |st'.queue| <= |st.queue| + 1
    ensures st'.exited <==> st.confirmed && (r.RecvError? || |r.datagram| == 0)
    ensures st'.exited ==> st'.queue == st.queue
  {
    var n := if r.RecvError? then -1 else |Truncate(r.datagram)|;
    if n <= 0 then
      if st.confirmed then st.(exited := true)
      else st.(promise := SetException(st.promise, ConnectFailed), running := false)
    else
      var buffer := Truncate(r.datagram);
      var kind := TypeOf(buffer[0]);
      var data := buffer[1..];
      var st1 :=
        if !st.confirmed && (kind == LoginOk || kind == ServerMessage)
        then st.(confirmed := true, promise := Fulfilled)
        else st;
      match kind
      case AudioData => st1.(queue := st1.queue + [data])
      case ServerFull => st1.(promise := SetException(st1.promise, ServerIsFull), running := false)
      case _ => st1
  }

  /** What one iteration of the playback loop did. */
  datatype PlaybackOutcome =
    | Finished                 // the loop ends: not running and nothing queued
    | Blocked                  // the player sleeps until a push or a shutdown
    | Played(frame: seq<Byte>) // one frame written to the speakers

  /** A frame of digital silence. */
  function Silence(): (z: seq<Byte>)
    ensures |z| == AUDIO_BUFFER_SIZE
    ensures forall i :: 0 <= i < |z| ==> z[i] == 0
  {
    seq(AUDIO_BUFFER_SIZE, _ => 0)
  }

  /** What the speakers get for a queued payload: the payload itself when it
      is exactly one frame long, silence otherwise. */
  function PlaybackFrame(payload: seq<Byte>): (f: seq<Byte>)
    ensures |f| == AUDIO_BUFFER_SIZE
    ensures |payload| == AUDIO_BUFFER_SIZE ==> f == payload
    ensures |payload| != AUDIO_BUFFER_SIZE ==> forall i :: 0 <= i < |f| ==> f[i] == 0
  {
    if |payload| == AUDIO_BUFFER_SIZE then payload else Silence()
  }

  /** The frames played for a sequence of queued payloads, in order. */
  function Frames(q: seq<seq<Byte>>): (fs: seq<seq<Byte>>)
    ensures |fs| == |q|
    ensures forall i :: 0 <= i < |q| ==> fs[i] == PlaybackFrame(q[i])
  {
    seq(|q|, i requires 0 <= i < |q| => PlaybackFrame(q[i]))
  }

  lemma FramesAppend(q: seq<seq<Byte>>, payload: seq<Byte>)
    ensures Frames(q + [payload]) == Frames(q) + [PlaybackFrame(payload)]
  {
  }

  datatype PlaybackResult = PlaybackResult(state: ClientState, outcome: PlaybackOutcome)

  /** One iteration of the playback loop. */
  function Playback(st: ClientState): (r: PlaybackResult)
    requires !st.exited
    ensures r.outcome.Finished? <==> !st.running && |st.queue| == 0
    ensures r.outcome.Blocked? <==> st.running && |st.queue| == 0
    ensures r.outcome.Played? ==>
      && |st.queue| > 0
      && r.state == st.(queue := st.queue[1..])
      && r.outcome.frame == PlaybackFrame(st.queue[0])
    ensures !r.outcome.Played? ==> r.state == st
  {
    if !st.running && |st.queue| == 0 then PlaybackResult(st, Finished)
    else if |st.queue| == 0 then PlaybackResult(st, Blocked)
    else PlaybackResult(st.(queue := st.queue[1..]), Played(PlaybackFrame(st.queue[0])))
  }

  /** `k` iterations of the playback loop, with the frames they played. */
  function PlayMany(st: ClientState, k: nat): (r: (ClientState, seq<seq<Byte>>))
    requires !st.exited && k <= |st.queue|
    ensures |r.1| == k && forall j :: 0 <= j < k ==> |r.1[j]| == AUDIO_BUFFER_SIZE
    ensures |r.0.queue| == |st.queue| - k && r.0 == st.(queue := r.0.queue)
    decreases k
  {
    if k == 0 then (st, [])
    else
      var r := Playback(st);
      var (st2, rest) := PlayMany(r.state, k - 1);
      (st2, [r.outcome.frame] + rest)
  }

  // ---------------------------------------------------------------------
  // Properties of the receiver
  // ---------------------------------------------------------------------

  /** An AUDIO_DATA datagram appends its payload, as far as it fits the
      receive buffer, to the back of the jitter buffer, confirmed connection
      or not, and changes nothing else. */
  lemma AudioIsQueued(st: ClientState, d: seq<Byte>)
    requires (st.running || st.confirmed) && !st.exited && Consistent(st)
    requires 0 < |d| && TypeOf(d[0]) == AudioData
    ensures Receive(st, Got(d)) == st.(queue := st.queue + [Truncate(d)[1..]])
  {
  }

  /** The first LOGIN_OK or SERVER_MESSAGE confirms the connection and
      fulfils the promise; a confirmed connection stays confirmed. */
  lemma ConfirmationIsMonotone(st: ClientState, r: RecvResult)
    requires (st.running || st.confirmed) && !st.exited && Consistent(st)
    ensures st.confirmed ==> Receive(st, r).confirmed
    ensures var st' := Receive(st, r);
      !st.confirmed && st'.confirmed <==>
        && !st.confirmed && r.Got? && 0 < |Truncate(r.datagram)|
        && TypeOf(r.datagram[0]) in {LoginOk, ServerMessage}
    ensures !st.confirmed && Receive(st, r).confirmed ==> Receive(st, r).promise == Fulfilled
  {
  }

  /** Once resolved, the promise never changes again. */
  lemma PromiseResolvedOnce(st: ClientState, r: RecvResult)
    requires (st.running || st.confirmed) && !st.exited && Consistent(st)
    requires !st.promise.Pending?
    ensures Receive(st, r).promise == st.promise
  {
  }

  /** A failed receive before confirmation fails the promise and stops the
      client; after confirmation it ends the process. */
  lemma ReceiveFailure(st: ClientState, r: RecvResult)
    requires (st.running || st.confirmed) && !st.exited && Consistent(st)
    requires r.RecvError? || |r.datagram| == 0
    ensures var st' := Receive(st, r);
      if st.confirmed then st' == st.(exited := true)
      else st' == st.(promise := Failed(ConnectFailed), running := false)
  {
  }

  /** SERVER_FULL always stops the client; before confirmation it also
      fails the promise. */
  lemma ServerFullStops(st: ClientState, d: seq<Byte>)
    requires (st.running || st.confirmed) && !st.exited && Consistent(st)
    requires 0 < |d| && TypeOf(d[0]) == ServerFull
    ensures var st' := Receive(st, Got(d));
      && !st'.running && st'.queue == st.queue && !st'.exited
      && st'.promise == (if st.confirmed then Fulfilled else Failed(ServerIsFull))
  {
  }

  /** Every type other than AUDIO_DATA and SERVER_FULL changes neither the
      queue nor any flag, except a first LOGIN_OK or SERVER_MESSAGE, which
      confirms the connection. */
  lemma OtherTypesIgnored(st: ClientState, d: seq<Byte>)
    requires (st.running || st.confirmed) && !st.exited && Consistent(st)
    requires 0 < |d| && TypeOf(d[0]) !in {AudioData, ServerFull}
    requires st.confirmed || TypeOf(d[0]) !in {LoginOk, ServerMessage}
    ensures Receive(st, Got(d)) == st
  {
  }

  /** The receive loop over a run of receive results: it stops at the first
      result after which the client is no longer running or has exited. */
  function ReceiveAll(st: ClientState, rs: seq<RecvResult>): (r: ClientState)
    requires Consistent(st)
    ensures st.queue <= r.queue && |r.queue| <= |st.queue| + |rs|
    ensures !st.running || st.exited ==> r == st
    decreases |rs|
  {
    if |rs| == 0 || !st.running || st.exited then st
    else ReceiveAll(Receive(st, rs[0]), rs[1..])
  }

  /** Over a whole run of the receive loop the invariant holds, a resolved
      promise keeps its value, a confirmed connection stays confirmed, and
      the jitter buffer only grows at the back. */
  lemma {:induction false} PromiseSettlesOnce(st: ClientState, rs: seq<RecvResult>)
    requires Consistent(st)
    ensures var st' := ReceiveAll(st, rs);
      && Consistent(st')
      && (!st.promise.Pending? ==> st'.promise == st.promise)
      && (st.confirmed ==> st'.confirmed)
      && st.queue <= st'.queue
    decreases |rs|
  {
    if |rs| > 0 && st.running && !st.exited {
      var st1 := Receive(st, rs[0]);
      if !st.promise.Pending? {
        PromiseResolvedOnce(st, rs[0]);
      }
      ConfirmationIsMonotone(st, rs[0]);
      PromiseSettlesOnce(st1, rs[1..]);
    }
  }

  // ---------------------------------------------------------------------
  // Properties of the player
  // ---------------------------------------------------------------------

  /** Well-sized frames are played unchanged. */
  lemma {:induction false} WellSizedFramesUnchanged(q: seq<seq<Byte>>)
    requires forall i :: 0 <= i < |q| ==> |q[i]| == AUDIO_BUFFER_SIZE
    ensures Frames(q) == q
  {
    assert forall i :: 0 <= i < |q| ==> Frames(q)[i] == q[i];
  }

  /** Playing k frames takes the first k queued payloads, in the order they
      were queued, and plays each one (or silence for a malformed one). */
  lemma {:induction false} PlayManyInOrder(st: ClientState, k: nat)
    requires !st.exited && k <= |st.queue|
    ensures PlayMany(st, k) == (st.(queue := st.queue[k..]), Frames(st.queue[..k]))
    decreases k
  {
    if k > 0 {
      var r := Playback(st);
      assert r.state == st.(queue := st.queue[1..]);
      PlayManyInOrder(r.state, k - 1);
      var (st2, rest) := PlayMany(r.state, k - 1);
      assert st2 == st.(queue := st.queue[k..]) by {
        assert st.queue[1..][k - 1..] == st.queue[k..];
      }
      var tail := st.queue[1..][..k - 1];
      assert rest == Frames(tail);
      assert st.queue[..k] == [st.queue[0]] + tail;
      assert Frames([st.queue[0]] + tail) == [PlaybackFrame(st.queue[0])] + Frames(tail);
      assert PlayMany(st, k) == (st2, [r.outcome.frame] + rest);
    }
  }

  /** The player drains: while something is queued it plays, whether or not
      the client is still running, and it stops only when the queue is
      empty and the client is not running. */
  lemma PlayerDrainsBeforeStopping(st: ClientState)
    requires !st.exited
    ensures |st.queue| > 0 ==> Playback(st).outcome.Played?
    ensures Playback(st).outcome.Finished? ==> |st.queue| == 0 && !st.running
  {
  }
}
