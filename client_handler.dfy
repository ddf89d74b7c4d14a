/** The client's receiver and player as the client runs them: the shared run
    flag, the receiver's confirmation flag and promise, the jitter-buffer
    queue, and the player's frame buffer, updated in place. The frames the
    player writes to the speakers are appended to `speaker`. Each method is
    one loop iteration taken as a single step; `RequestStop` may come
    between the receive loop's test of `running` and its iteration. */
module ClientHandler {
  import opened Protocol
  import opened ClientModel

  class VoipClient {
    var running: bool
    var connectionConfirmed: bool
    var promise: Promise
    /** Set when the process has exited (`std::exit(1)`); nothing runs after. */
    var exited: bool
    /** The jitter buffer: queued audio payloads, front first. */
    var jitterBuffer: seq<seq<Byte>>
    /** The player's frame buffer, overwritten on every iteration. */
    var playBuffer: array<Byte>
    /** Every frame written to the speakers, oldest first. */
    var speaker: seq<seq<Byte>>
    /** Every payload ever pushed onto the jitter buffer, oldest first. */
    ghost var pushed: seq<seq<Byte>>

    /** The shared state as a value. */
    function State(): ClientState
      reads this
    {
      ClientState(running, connectionConfirmed, promise, exited, jitterBuffer)
    }

    /** How many pushed payloads the player has taken. */
    ghost function Consumed(): int
      reads this
    {
      |pushed| - |jitterBuffer|
    }

    /** The object invariant: the receiver's flags agree with the promise,
        the queue holds exactly the pushed payloads not yet played, and the
        speakers got, in push order, one frame for each payload played. */
    ghost predicate Valid()
      reads this
    {
      && playBuffer.Length == AUDIO_BUFFER_SIZE
      && Consistent(State())
      && |jitterBuffer| <= |pushed|
      && jitterBuffer == pushed[Consumed()..]
      && speaker == Frames(pushed[..Consumed()])
    }

    /** The client once the login request is sent and `running` is set. */
    constructor ()
      ensures Valid() && fresh(playBuffer)
      ensures State() == INITIAL && speaker == [] && pushed == []
    {
      running := true;
      connectionConfirmed := false;
      promise := Pending;
      exited := false;
      jitterBuffer := [];
      playBuffer := new Byte[AUDIO_BUFFER_SIZE](_ => 0);
      speaker := [];
      pushed := [];
    }

    /** Appends a payload to the back of the jitter buffer. */
    method Push(payload: seq<Byte>)
      requires Valid()
      modifies this`jitterBuffer, this`pushed
      ensures Valid()
      ensures jitterBuffer == old(jitterBuffer) + [payload]
      ensures pushed == old(pushed) + [payload]
    {
      jitterBuffer := jitterBuffer + [payload];
      pushed := pushed + [payload];
      assert pushed[..Consumed()] == old(pushed)[..old(Consumed())];
    }

    /** One iteration of the receive loop. */
    method ReceiveStep(r: RecvResult)
      requires Valid() && (running || connectionConfirmed) && !exited
      modifies this`running, this`connectionConfirmed, this`promise, this`exited,
               this`jitterBuffer, this`pushed
      ensures Valid()
      ensures State() == Receive(old(State()), r)
      ensures pushed == old(pushed) + jitterBuffer[|old(jitterBuffer)|..]
    {
      var n := if r.RecvError? then -1 else |Truncate(r.datagram)|;
      if n <= 0 {
        if connectionConfirmed {
          exited := true;
          return;
        } else {
          promise := SetException(promise, ConnectFailed);
        }
        running := false;
        return;
      }
      var buffer := Truncate(r.datagram);
      var kind := TypeOf(buffer[0]);
      var data := buffer[1..];
      if !connectionConfirmed && (kind == LoginOk || kind == ServerMessage) {
        connectionConfirmed := true;
        promise := Fulfilled;
      }
      match kind
      case AudioData =>
        Push(data);
      case ServerFull =>
        promise := SetException(promise, ServerIsFull);
        running := false;
      case _ =>
    }

    /** Clears the run flag (the user pressed Enter, or start-up failed). */
    method RequestStop()
      requires Valid()
      modifies this`running
      ensures Valid()
      ensures State() == old(State()).(running := false)
    {
      running := false;
    }

    /** One iteration of the playback loop: wait for a payload or a shutdown,
        then play the front payload or stop. */
    method PlaybackStep() returns (outcome: PlaybackOutcome)
      requires Valid() && !exited
      modifies this`jitterBuffer, this`speaker, playBuffer
      ensures Valid()
      ensures Playback(old(State())) == PlaybackResult(State(), outcome)
      ensures speaker == old(speaker) + (if outcome.Played? then [outcome.frame] else [])
    {
      if !running && |jitterBuffer| == 0 {
        return Finished;
      }
      if |jitterBuffer| == 0 {
        // the wait keeps sleeping: nothing queued and still running
        return Blocked;
      }
      ghost var before := pushed[..Consumed()];
      if |jitterBuffer| > 0 {
        var front := jitterBuffer[0];
        if |front| == AUDIO_BUFFER_SIZE {
          for k := 0 to AUDIO_BUFFER_SIZE
            modifies playBuffer
            invariant playBuffer[..k] == front[..k]
          {
            playBuffer[k] := front[k];
          }
          assert playBuffer[..] == front;
        } else {
          for k := 0 to AUDIO_BUFFER_SIZE
            modifies playBuffer
            invariant forall j :: 0 <= j < k ==> playBuffer[j] == 0
          {
            playBuffer[k] := 0;
          }
          assert playBuffer[..] == Silence();
        }
        jitterBuffer := jitterBuffer[1..];
      } else {
        // a wake-up with nothing queued cannot reach this point
        assert false;
      }
      outcome := Played(playBuffer[..]);
      speaker := speaker + [playBuffer[..]];
      assert pushed[..Consumed()] == before + [old(jitterBuffer)[0]];
      FramesAppend(before, old(jitterBuffer)[0]);
    }
  }
}
