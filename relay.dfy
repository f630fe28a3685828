/**
 * The in-memory connection manager and its best-effort fan-out. A send is
 * recorded as an entry of the returned outbox; a send to a handle in the
 * caller-supplied `failing` set raises inside the loop, is swallowed, and
 * leaves no entry.
 */
module Relay {
  import opened Payloads
  import opened Registry

  /** No handle occurs twice in `xs`. */
  predicate Distinct(xs: seq<Conn>) {
    forall i, j :: 0 <= i < j < |xs| ==> xs[i] != xs[j]
  }

  function Elems(xs: seq<Conn>): set<Conn> {
    set x | x in xs
  }

  /** The handles the sends of `sent` went to. */
  function Recipients(sent: seq<Send>): set<Conn> {
    set i | 0 <= i < |sent| :: sent[i].to
  }

  /**
   * `sent` is one broadcast of `p` to `targets`: every send carries `p`, no
   * handle is sent to twice, and the handles sent to are exactly `targets`, so
   * each target gets `p` exactly once and nobody else gets anything.
   */
  ghost predicate FanOut(sent: seq<Send>, p: Payload, targets: set<Conn>) {
    && (forall i :: 0 <= i < |sent| ==> sent[i].payload == p)
    && (forall i, j :: 0 <= i < j < |sent| ==> sent[i].to != sent[j].to)
    && Recipients(sent) == targets
    && |sent| == |targets|
  }

  /** The sends a pass over `targets` completes, in order, skipping the failing handles. */
  function Deliveries(targets: seq<Conn>, p: Payload, failing: set<Conn>): seq<Send>
    decreases |targets|
  {
    if targets == [] then []
    else
      var last := targets[|targets| - 1];
      Deliveries(targets[..|targets| - 1], p, failing) + (if last in failing then [] else [Send(last, p)])
  }

  /** One more send adds exactly its handle to the recipients. */
  lemma RecipientsSnoc(before: seq<Send>, s: Send)
    ensures Recipients(before + [s]) == Recipients(before) + {s.to}
  {
    var now := before + [s];
    forall x | x in Recipients(now) ensures x in Recipients(before) + {s.to} {
      var i :| 0 <= i < |now| && now[i].to == x;
      if i < |before| { assert before[i].to == x; }
    }
    forall x | x in Recipients(before) ensures x in Recipients(now) {
      var i :| 0 <= i < |before| && before[i].to == x;
      assert now[i].to == x;
    }
    assert now[|before|].to == s.to;
  }

  /** Splitting the last handle off a duplicate-free sequence. */
  lemma ElemsSnoc(xs: seq<Conn>)
    requires xs != [] && Distinct(xs)
    ensures Distinct(xs[..|xs| - 1])
    ensures Elems(xs) == Elems(xs[..|xs| - 1]) + {xs[|xs| - 1]}
    ensures xs[|xs| - 1] !in Elems(xs[..|xs| - 1])
  {
    var prefix, last := xs[..|xs| - 1], xs[|xs| - 1];
    assert xs == prefix + [last];
    forall k | 0 <= k < |prefix| ensures prefix[k] != last {
      assert xs[k] == prefix[k];
    }
  }

  /** Splitting the last handle off a sequence. */
  lemma ElemsLast(xs: seq<Conn>)
    requires xs != []
    ensures Elems(xs) == Elems(xs[..|xs| - 1]) + {xs[|xs| - 1]}
  {
    assert xs == xs[..|xs| - 1] + [xs[|xs| - 1]];
  }

  /** Every send of a pass carries the payload. */
  lemma {:induction false} DeliveriesPayload(targets: seq<Conn>, p: Payload, failing: set<Conn>)
    ensures forall i :: 0 <= i < |Deliveries(targets, p, failing)| ==> Deliveries(targets, p, failing)[i].payload == p
    decreases |targets|
  {
    if targets != [] {
      DeliveriesPayload(targets[..|targets| - 1], p, failing);
    }
  }

  /** A pass reaches exactly the handles of the snapshot that do not fail. */
  lemma {:induction false} DeliveriesRecipients(targets: seq<Conn>, p: Payload, failing: set<Conn>)
    ensures Recipients(Deliveries(targets, p, failing)) == Elems(targets) - failing
    decreases |targets|
  {
    if targets == [] {
      assert Elems(targets) == {};
    } else {
      var prefix, last := targets[..|targets| - 1], targets[|targets| - 1];
      DeliveriesRecipients(prefix, p, failing);
      ElemsLast(targets);
      MinusSnoc(Elems(targets), Elems(prefix), last, failing);
      if last !in failing {
        var before := Deliveries(prefix, p, failing);
        assert Deliveries(targets, p, failing) == before + [Send(last, p)];
        RecipientsSnoc(before, Send(last, p));
        assert Recipients(before + [Send(last, p)]) == (Elems(prefix) - failing) + {last};
      } else {
        assert Deliveries(targets, p, failing) == Deliveries(prefix, p, failing);
      }
    }
  }

  /** Over a duplicate-free snapshot, no handle is sent to twice. */
  lemma {:induction false} DeliveriesOnce(targets: seq<Conn>, p: Payload, failing: set<Conn>)
    requires Distinct(targets)
    ensures forall i, j :: 0 <= i < j < |Deliveries(targets, p, failing)| ==>
      Deliveries(targets, p, failing)[i].to != Deliveries(targets, p, failing)[j].to
    decreases |targets|
  {
    if targets != [] {
      var prefix, last := targets[..|targets| - 1], targets[|targets| - 1];
      ElemsSnoc(targets);
      DeliveriesOnce(prefix, p, failing);
      if last !in failing {
        var before := Deliveries(prefix, p, failing);
        var now := Deliveries(targets, p, failing);
        assert now == before + [Send(last, p)];
        DeliveriesRecipients(prefix, p, failing);
        forall i, j | 0 <= i < j < |now| ensures now[i].to != now[j].to {
          if j == |before| {
            assert now[i].to == before[i].to;
            assert before[i].to in Recipients(before);
          }
        }
      }
    }
  }

  /** Over a duplicate-free snapshot, the sends number the handles reached. */
  lemma {:induction false} DeliveriesCount(targets: seq<Conn>, p: Payload, failing: set<Conn>)
    requires Distinct(targets)
    ensures |Deliveries(targets, p, failing)| == |Elems(targets) - failing|
    decreases |targets|
  {
    if targets == [] {
      assert Elems(targets) == {};
    } else {
      var prefix, last := targets[..|targets| - 1], targets[|targets| - 1];
      ElemsSnoc(targets);
      DeliveriesCount(prefix, p, failing);
      MinusSnoc(Elems(targets), Elems(prefix), last, failing);
    }
  }

  /** Taking out the failing handles after adding one more. */
  lemma MinusSnoc(whole: set<Conn>, part: set<Conn>, last: Conn, failing: set<Conn>)
    requires whole == part + {last}
    ensures last !in failing ==> whole - failing == (part - failing) + {last}
    ensures last in failing ==> whole - failing == part - failing
  {
  }

  /**
   * A pass over a duplicate-free snapshot is a fan-out to the snapshot's
   * handles that do not fail: a failure to one never stops the others.
   */
  lemma DeliveriesFanOut(targets: seq<Conn>, p: Payload, failing: set<Conn>)
    requires Distinct(targets)
    ensures FanOut(Deliveries(targets, p, failing), p, Elems(targets) - failing)
  {
    DeliveriesPayload(targets, p, failing);
    DeliveriesRecipients(targets, p, failing);
    DeliveriesOnce(targets, p, failing);
    DeliveriesCount(targets, p, failing);
  }

  /** `list(s)`: the members of `s` in some order, each once. */
  method Snapshot(s: set<Conn>) returns (xs: seq<Conn>)
    ensures Distinct(xs)
    ensures Elems(xs) == s
  {
    xs := [];
    var rest := s;
    while rest != {}
      invariant Distinct(xs)
      invariant Elems(xs) !! rest
      invariant Elems(xs) + rest == s
      decreases rest
    {
      var x :| x in rest;
      xs := xs + [x];
      rest := rest - {x};
    }
  }

  /**
   * The `for connection in ...: try: send except Exception: pass` loop:
   * tries every handle of `targets` once, in order; a failing send is skipped.
   */
  method Deliver(targets: seq<Conn>, p: Payload, failing: set<Conn>) returns (sent: seq<Send>)
    ensures sent == Deliveries(targets, p, failing)
  {
    sent := [];
    for i := 0 to |targets|
      invariant sent == Deliveries(targets[..i], p, failing)
    {
      assert targets[..i + 1][..i] == targets[..i];
      if targets[i] !in failing {
        sent := sent + [Send(targets[i], p)];
      }
    }
    assert targets[..|targets|] == targets;
  }

  /** `ConnectionManager`: the two tables, reassigned in place by its methods. */
  class ConnectionManager {
    var active: Table
    var voice: Table

    /** A fresh manager has both tables empty. */
    constructor ()
      ensures active == map[] && voice == map[]
    {
      active := map[];
      voice := map[];
    }

    /** `connect`: adds `c` to the room's game-channel set (after the handshake, not modelled). */
    method Connect(room: string, c: Conn)
      modifies this
      ensures active == Insert(old(active), room, c)
      ensures voice == old(voice)
    {
      active := Insert(active, room, c);
    }

    /** `disconnect`: takes `c` out of both of the room's sets where it is present. */
    method Disconnect(room: string, c: Conn)
      modifies this
      ensures active == Remove(old(active), room, c)
      ensures voice == Remove(old(voice), room, c)
    {
      if room in active && c in active[room] {
        active := active[room := active[room] - {c}];
      }
      if room in voice && c in voice[room] {
        voice := voice[room := voice[room] - {c}];
      }
    }

    /**
     * `broadcast`: one send of `message` to each game-channel member of the
     * room that does not fail, none to anybody else. An unknown room gives no
     * sends. The method changes no field of the manager.
     */
    method Broadcast(room: string, message: Json, failing: set<Conn>) returns (sent: seq<Send>)
      ensures FanOut(sent, GameMsg(message), Members(active, room) - failing)
    {
      var snapshot := Snapshot(Members(active, room));
      sent := Deliver(snapshot, GameMsg(message), failing);
      DeliveriesFanOut(snapshot, GameMsg(message), failing);
    }

    /**
     * `broadcast_voice`: the same over the voice-channel members only, so a
     * handle on the game channel alone never receives a voice frame.
     */
    method BroadcastVoice(room: string, data: seq<byte>, failing: set<Conn>) returns (sent: seq<Send>)
      ensures FanOut(sent, VoiceFrame(data), Members(voice, room) - failing)
    {
      var snapshot := Snapshot(Members(voice, room));
      sent := Deliver(snapshot, VoiceFrame(data), failing);
      DeliveriesFanOut(snapshot, VoiceFrame(data), failing);
    }
  }

  /** The body of a `/api/room/join` request. */
  datatype JoinRoomRequest = JoinRoomRequest(playerId: string, roomCode: string)

  /**
   * `join_room`: announces the player to the game-channel members of the
   * room, whatever the sockets are doing, and answers `{"ok": true}`.
   */
  method JoinRoom(manager: ConnectionManager, req: JoinRoomRequest, failing: set<Conn>)
    returns (sent: seq<Send>, response: Json)
    ensures FanOut(sent, GameMsg(PlayerJoined(req.playerId)), Members(manager.active, req.roomCode) - failing)
    ensures response == JObject([("ok", JBool(true))])
  {
    sent := manager.Broadcast(req.roomCode, PlayerJoined(req.playerId), failing);
    response := JObject([("ok", JBool(true))]);
  }
}
