/**
 * Concrete runs of the manager, derived from the contracts alone: what the
 * relay must do in a few small rooms.
 */
module Scenarios {
  import opened Payloads
  import opened Registry
  import opened Relay
  import opened Sessions

  /** A and B on the game channel of R1: one message from A reaches both, once each. */
  method EchoToWholeRoom() {
    var m := new ConnectionManager();
    var a, b := Conn(1), Conn(2);
    m.Connect("R1", b);
    var move := JObject([("type", JString("move")), ("piece", JString("R1")), ("to", JNumber(5))]);
    var exit, batches := GameSession(m, "R1", a, [JsonText(move)], [{}]);
    assert exit == Receiving;
    assert |batches| == 1;
    assert Recipients(batches[0]) == {a, b};
    assert |batches[0]| == 2;
    assert forall i :: 0 <= i < |batches[0]| ==> batches[0][i].payload == GameMsg(move);
  }

  /** A on voice and B on game in R1: A's frame never reaches B. */
  method VoiceStaysOnVoice() {
    var m := new ConnectionManager();
    var a, b := Conn(1), Conn(2);
    m.Connect("R1", b);
    var frame: seq<byte> := [0xDE, 0xAD, 0xBE, 0xEF];
    var events := [Binary(frame)];
    var exit, batches := VoiceSession(m, "R1", a, events, [{}]);
    assert events[..VoiceStop(events)] == events;
    assert BinaryPositions(events) == [0];
    assert |batches| == 1;
    assert Recipients(batches[0]) == {a};
    assert b !in Recipients(batches[0]);
    assert m.active == map["R1" := {b}];
  }

  /** A peer whose send fails is skipped; the other member still receives the message. */
  method FailingPeerSkipped() {
    var m := new ConnectionManager();
    var a, b, d := Conn(1), Conn(2), Conn(3);
    m.Connect("R1", a);
    m.Connect("R1", b);
    m.Connect("R1", d);
    var sent := m.Broadcast("R1", JString("hi"), {b});
    assert Recipients(sent) == {a, d};
    assert |sent| == 2;
    assert m.active["R1"] == {a, b, d};
  }

  /** Connect, disconnect, connect: A is in R1 once. */
  method ReconnectOnce() {
    var m := new ConnectionManager();
    var a := Conn(1);
    m.Connect("R1", a);
    m.Disconnect("R1", a);
    assert m.active == map["R1" := {}];
    m.Connect("R1", a);
    assert Members(m.active, "R1") == {a};
    assert |Members(m.active, "R1")| == 1;
  }

  /** Announcing a join to a room nobody is connected to sends nothing. */
  method JoinIntoEmptyRoom() {
    var m := new ConnectionManager();
    var sent, response := JoinRoom(m, JoinRoomRequest("p7", "R1"), {});
    assert |sent| == 0;
    assert response == JObject([("ok", JBool(true))]);
  }

  /** Disconnecting a handle nobody registered changes nothing. */
  method DisconnectUnknown() {
    var m := new ConnectionManager();
    m.Connect("R1", Conn(1));
    ghost var before := m.active;
    assert before.Keys == {"R1"} && before["R1"] == {Conn(1)};
    assert before == map["R1" := {Conn(1)}];
    m.Disconnect("R2", Conn(9));
    RemoveAbsent(before, "R2", Conn(9));
    m.Disconnect("R1", Conn(9));
    RemoveAbsent(before, "R1", Conn(9));
    assert m.active == map["R1" := {Conn(1)}];
    assert m.voice == map[];
  }

  /** A game session ended by a malformed frame keeps its handle registered. */
  method MalformedFrameLeaks() {
    var m := new ConnectionManager();
    var a := Conn(1);
    var exit, batches := GameSession(m, "R1", a, [NonBinary, Disconnect], [{}, {}]);
    assert exit == Escaped;
    assert batches == [];
    assert a in Members(m.active, "R1");
  }

  /**
   * A peer whose socket dies in the middle of another socket's session: it
   * receives the first message, its send fails for the second, and the second
   * still reaches the sender.
   */
  method PeerFailsMidSession() {
    var m := new ConnectionManager();
    var a, b := Conn(1), Conn(2);
    m.Connect("R1", b);
    var events := [JsonText(JString("one")), JsonText(JString("two"))];
    var exit, batches := GameSession(m, "R1", a, events, [{}, {b}]);
    assert GameStop(events) == 2;
    assert Recipients(batches[0]) == {a, b};
    assert Recipients(batches[1]) == {a};
    assert b in Members(m.active, "R1");
  }

  /**
   * A voice client that closes, when the close reaches the loop as a frame
   * without bytes followed by a failing receive: the loop ends by the other
   * exception, and the socket stays in the voice table.
   */
  method VoiceCloseLeaks() {
    var m := new ConnectionManager();
    var a := Conn(1);
    var exit, batches := VoiceSession(m, "R1", a, [NonBinary, OtherError], [{}, {}]);
    assert exit == Escaped;
    assert a in Members(m.voice, "R1");
  }
}
