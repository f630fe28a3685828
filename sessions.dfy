/**
 * The two WebSocket endpoints' receive loops, driven by a finite sequence of
 * inbound events. Each `await websocket.receive...()` consumes one event.
 * When the events run out the loop is still waiting for the next one.
 */
module Sessions {
  import opened Payloads
  import opened Registry
  import opened Relay

  /** What one receive call yields. */
  datatype Event =
    | JsonText(msg: Json)       // a text frame holding a JSON document
    | Binary(data: seq<byte>)   // a frame whose "bytes" entry is present and not None
    | NonBinary                 // any other frame: "bytes" absent or None, text that is not JSON
    | Disconnect                // the call raises WebSocketDisconnect
    | OtherError                // the call raises any other exception

  /**
   * How a session stands after the events: still receiving; ended by
   * WebSocketDisconnect, which the endpoint catches and deregisters; or ended by
   * another exception, which escapes the endpoint and skips the deregistration.
   */
  datatype Exit = Receiving | Closed | Escaped

  /** How the loop ends when it stops at position `k`. */
  function ExitAt(events: seq<Event>, k: nat): Exit
    requires k <= |events|
  {
    if k == |events| then Receiving
    else if events[k].Disconnect? then Closed
    else Escaped
  }

  /**
   * Where the game loop stops: at the first event `receive_json` does not
   * return a JSON document for. A binary or non-JSON frame makes it raise an
   * error other than WebSocketDisconnect.
   */
  function GameStop(events: seq<Event>): (k: nat)
    ensures k <= |events|
    ensures forall i :: 0 <= i < k ==> events[i].JsonText?
    ensures k < |events| ==> !events[k].JsonText?
    decreases |events|
  {
    if events == [] || !events[0].JsonText? then 0 else 1 + GameStop(events[1..])
  }

  /** Where the voice loop stops: at the first event that raises. */
  function VoiceStop(events: seq<Event>): (k: nat)
    ensures k <= |events|
    ensures forall i :: 0 <= i < k ==> !events[i].Disconnect? && !events[i].OtherError?
    ensures k < |events| ==> events[k].Disconnect? || events[k].OtherError?
    decreases |events|
  {
    if events == [] || events[0].Disconnect? || events[0].OtherError? then 0
    else 1 + VoiceStop(events[1..])
  }

  /**
   * The positions of the frames carrying bytes among `events`, in order: the
   * events the voice loop relays. Every such event is listed, once, and no
   * other.
   */
  function BinaryPositions(events: seq<Event>): (ps: seq<nat>)
    ensures forall i :: 0 <= i < |ps| ==> ps[i] < |events| && events[ps[i]].Binary?
    ensures forall i, j :: 0 <= i < j < |ps| ==> ps[i] < ps[j]
    ensures forall k :: 0 <= k < |events| && events[k].Binary? ==> k in ps
    decreases |events|
  {
    if events == [] then []
    else
      var n := |events| - 1;
      BinaryPositions(events[..n]) + (if events[n].Binary? then [n] else [])
  }

  /** Receiving one more event adds its position exactly when it carries bytes. */
  lemma BinaryPositionsSnoc(events: seq<Event>, i: nat)
    requires i < |events|
    ensures BinaryPositions(events[..i + 1]) ==
      BinaryPositions(events[..i]) + (if events[i].Binary? then [i] else [])
  {
    assert events[..i + 1][..i] == events[..i];
  }

  /**
   * `batches` is what the voice loop has relayed after the first `n` events:
   * one fan-out per frame carrying bytes, in order, each to `targets` minus
   * the handles whose send failed at that receive.
   */
  ghost predicate VoiceRelayed(batches: seq<seq<Send>>, events: seq<Event>, n: nat,
                               targets: set<Conn>, failing: seq<set<Conn>>)
    requires n <= |events| == |failing|
  {
    && |batches| == |BinaryPositions(events[..n])|
    && forall k :: 0 <= k < |batches| ==>
         var at := BinaryPositions(events[..n])[k];
         FanOut(batches[k], VoiceFrame(events[at].data), targets - failing[at])
  }

  /** A frame carrying bytes adds one fan-out batch. */
  lemma VoiceRelayedBinary(batches: seq<seq<Send>>, sent: seq<Send>, events: seq<Event>, n: nat,
                           targets: set<Conn>, failing: seq<set<Conn>>)
    requires n < |events| == |failing| && events[n].Binary?
    requires VoiceRelayed(batches, events, n, targets, failing)
    requires FanOut(sent, VoiceFrame(events[n].data), targets - failing[n])
    ensures VoiceRelayed(batches + [sent], events, n + 1, targets, failing)
  {
    BinaryPositionsSnoc(events, n);
    var ps := BinaryPositions(events[..n + 1]);
    assert ps == BinaryPositions(events[..n]) + [n];
    forall k | 0 <= k < |batches| + 1
      ensures FanOut((batches + [sent])[k], VoiceFrame(events[ps[k]].data), targets - failing[ps[k]])
    {
      if k < |batches| {
        assert (batches + [sent])[k] == batches[k];
        assert ps[k] == BinaryPositions(events[..n])[k];
      }
    }
  }

  /** Any other frame is dropped and adds nothing. */
  lemma VoiceRelayedOther(batches: seq<seq<Send>>, events: seq<Event>, n: nat,
                          targets: set<Conn>, failing: seq<set<Conn>>)
    requires n < |events| == |failing| && !events[n].Binary?
    requires VoiceRelayed(batches, events, n, targets, failing)
    ensures VoiceRelayed(batches, events, n + 1, targets, failing)
  {
    BinaryPositionsSnoc(events, n);
  }

  /**
   * `websocket_endpoint`: registers on the game channel, then rebroadcasts
   * every received message unchanged to the whole room, the sender included.
   * Only WebSocketDisconnect deregisters the handle; any other error leaves it
   * in the game table.
   */
  method GameSession(manager: ConnectionManager, room: string, c: Conn, events: seq<Event>, failing: seq<set<Conn>>)
    returns (exit: Exit, batches: seq<seq<Send>>)
    requires |failing| == |events|
    modifies manager
    ensures exit == ExitAt(events, GameStop(events))
    ensures |batches| == GameStop(events)
    ensures forall i :: 0 <= i < |batches| ==>
      FanOut(batches[i], GameMsg(events[i].msg), (Members(old(manager.active), room) + {c}) - failing[i])
    ensures manager.active == if exit == Closed then Remove(Insert(old(manager.active), room, c), room, c)
                              else Insert(old(manager.active), room, c)
    ensures manager.voice == if exit == Closed then Remove(old(manager.voice), room, c)
                             else old(manager.voice)
  {
    manager.Connect(room, c);
    ghost var joined := manager.active;
    batches := [];
    var i := 0;
    while i < |events| && events[i].JsonText?
      invariant i <= |events|
      invariant forall k :: 0 <= k < i ==> events[k].JsonText?
      invariant manager.active == joined && manager.voice == old(manager.voice)
      invariant |batches| == i
      invariant forall k :: 0 <= k < i ==>
        FanOut(batches[k], GameMsg(events[k].msg), Members(joined, room) - failing[k])
    {
      var sent := manager.Broadcast(room, events[i].msg, failing[i]);
      batches := batches + [sent];
      i := i + 1;
    }
    assert i == GameStop(events);
    if i == |events| {
      exit := Receiving;
    } else if events[i].Disconnect? {
      manager.Disconnect(room, c);
      exit := Closed;
    } else {
      exit := Escaped;
    }
  }

  /**
   * `voice_endpoint`: inserts the handle into the voice table directly, then
   * relays each received frame that carries bytes to the room's voice channel
   * and drops every other frame. Only WebSocketDisconnect deregisters the
   * handle, and it does so from both tables.
   */
  method VoiceSession(manager: ConnectionManager, room: string, c: Conn, events: seq<Event>, failing: seq<set<Conn>>)
    returns (exit: Exit, batches: seq<seq<Send>>)
    requires |failing| == |events|
    modifies manager
    ensures exit == ExitAt(events, VoiceStop(events))
    ensures |batches| == |BinaryPositions(events[..VoiceStop(events)])|
    ensures forall i :: 0 <= i < |batches| ==>
      var at := BinaryPositions(events[..VoiceStop(events)])[i];
      FanOut(batches[i], VoiceFrame(events[at].data), (Members(old(manager.voice), room) + {c}) - failing[at])
    ensures manager.active == if exit == Closed then Remove(old(manager.active), room, c)
                              else old(manager.active)
    ensures manager.voice == if exit == Closed then Remove(Insert(old(manager.voice), room, c), room, c)
                             else Insert(old(manager.voice), room, c)
  {
    manager.voice := Insert(manager.voice, room, c);
    ghost var joined := manager.voice;
    batches := [];
    var i := 0;
    while i < |events| && !events[i].Disconnect? && !events[i].OtherError?
      invariant i <= |events|
      invariant forall k :: 0 <= k < i ==> !events[k].Disconnect? && !events[k].OtherError?
      invariant manager.voice == joined && manager.active == old(manager.active)
      invariant VoiceRelayed(batches, events, i, Members(joined, room), failing)
    {
      if events[i].Binary? {
        var sent := manager.BroadcastVoice(room, events[i].data, failing[i]);
        VoiceRelayedBinary(batches, sent, events, i, Members(joined, room), failing);
        batches := batches + [sent];
      } else {
        VoiceRelayedOther(batches, events, i, Members(joined, room), failing);
      }
      i := i + 1;
    }
    assert i == VoiceStop(events);
    assert events[..i] == events[..VoiceStop(events)];
    if i == |events| {
      exit := Receiving;
    } else if events[i].Disconnect? {
      manager.Disconnect(room, c);
      exit := Closed;
    } else {
      exit := Escaped;
    }
  }
}
