/**
 * The bookkeeping of the connection manager as values: a table maps a room
 * code to the set of handles subscribed to it, and the manager keeps two such
 * tables, one for the game channel and one for the voice channel.
 */
module Registry {
  import opened Wrappers
  import opened Payloads

  type Table = map<string, set<Conn>>

  /** The handles of `room` in `t`, empty for an unknown room: `t.get(room, set())`. */
  function Members(t: Table, room: string): set<Conn> {
    if room in t then t[room] else {}
  }

  /**
   * `t.setdefault(room, set()).add(c)`: the room's set is created when the key
   * is absent, and `c` joins it.
   */
  function Insert(t: Table, room: string, c: Conn): (t': Table)
    ensures t'.Keys == t.Keys + {room}
    ensures Members(t', room) == Members(t, room) + {c}
    ensures forall r :: r in t && r != room ==> t'[r] == t[r]
  {
    t[room := Members(t, room) + {c}]
  }

  /**
   * `if room in t and c in t[room]: t[room].remove(c)`: removes `c` when it is
   * there and does nothing otherwise. The room key stays, even with an empty set.
   */
  function Remove(t: Table, room: string, c: Conn): (t': Table)
    ensures t'.Keys == t.Keys
    ensures Members(t', room) == Members(t, room) - {c}
    ensures forall r :: r in t && r != room ==> t'[r] == t[r]
  {
    if room in t && c in t[room] then t[room := t[room] - {c}] else t
  }

  /** Adding a handle that is already there changes nothing (set add is idempotent). */
  lemma InsertIdempotent(t: Table, room: string, c: Conn)
    ensures Insert(Insert(t, room, c), room, c) == Insert(t, room, c)
  {
  }

  /** Inserting a handle already present in an existing room leaves the table as it was. */
  lemma InsertPresent(t: Table, room: string, c: Conn)
    requires room in t && c in t[room]
    ensures Insert(t, room, c) == t
  {
    assert t[room] + {c} == t[room];
  }

  /** Removing an absent handle, or removing from an unknown room, is a no-op. */
  lemma RemoveAbsent(t: Table, room: string, c: Conn)
    requires c !in Members(t, room)
    ensures Remove(t, room, c) == t
  {
  }

  /** Removing twice is removing once. */
  lemma RemoveIdempotent(t: Table, room: string, c: Conn)
    ensures Remove(Remove(t, room, c), room, c) == Remove(t, room, c)
  {
  }

  /** Removing one handle leaves every other handle where it was, in every room. */
  lemma RemoveKeepsOthers(t: Table, room: string, c: Conn, r: string, d: Conn)
    requires d != c || r != room
    ensures d in Members(Remove(t, room, c), r) <==> d in Members(t, r)
  {
  }

  /**
   * Connect, disconnect and connect again: the handle is in the room once, so
   * a room that started without it has grown by exactly one.
   */
  lemma ReconnectCountsOnce(t: Table, room: string, c: Conn)
    requires c !in Members(t, room)
    ensures Members(Insert(Remove(Insert(t, room, c), room, c), room, c), room) == Members(t, room) + {c}
    ensures |Members(Insert(Remove(Insert(t, room, c), room, c), room, c), room)| == |Members(t, room)| + 1
  {
  }

  /** The two channel kinds. */
  datatype Channel = Game | Voice

  /** Both tables of the manager: `active_connections` and `voice_connections`. */
  datatype Tables = Tables(active: Table, voice: Table)

  function Of(ts: Tables, ch: Channel): Table {
    match ch
    case Game => ts.active
    case Voice => ts.voice
  }

  /**
   * The registry operations: a join on one channel (`connect` for the game
   * channel, the direct insertion of the voice endpoint for the voice channel)
   * and `disconnect`, which clears the handle from both channels of the room.
   */
  datatype Op = Join(channel: Channel, room: string, conn: Conn) | Leave(room: string, conn: Conn)

  function Step(ts: Tables, op: Op): Tables {
    match op
    case Join(Game, room, c) => Tables(Insert(ts.active, room, c), ts.voice)
    case Join(Voice, room, c) => Tables(ts.active, Insert(ts.voice, room, c))
    case Leave(room, c) => Tables(Remove(ts.active, room, c), Remove(ts.voice, room, c))
  }

  /** The registry after applying `ops` in order, one call at a time. */
  function Run(ts: Tables, ops: seq<Op>): Tables
    decreases |ops|
  {
    if ops == [] then ts else Step(Run(ts, ops[..|ops| - 1]), ops[|ops| - 1])
  }

  /**
   * What the latest operation about `c` on `(room, ch)` says: `Some(true)` if
   * it is a join on that channel, `Some(false)` if it is a disconnect from that
   * room, `None` if no operation in `ops` is about them.
   */
  function LatestWord(ops: seq<Op>, ch: Channel, room: string, c: Conn): Option<bool>
    decreases |ops|
  {
    if ops == [] then None
    else if ops[|ops| - 1] == Join(ch, room, c) then Some(true)
    else if ops[|ops| - 1] == Leave(room, c) then Some(false)
    else LatestWord(ops[..|ops| - 1], ch, room, c)
  }

  /** One operation's effect on one membership question. */
  lemma StepMembership(ts: Tables, op: Op, ch: Channel, room: string, c: Conn)
    ensures c in Members(Of(Step(ts, op), ch), room) <==>
      if op == Join(ch, room, c) then true
      else if op == Leave(room, c) then false
      else c in Members(Of(ts, ch), room)
  {
  }

  /**
   * After any sequence of connects and disconnects, a handle is a member of
   * `(room, ch)` exactly when the latest operation about it joined it there,
   * or, when no operation was about it, when it was a member to begin with.
   * Sets hold no duplicates, so there is nothing else to count.
   */
  lemma {:induction false} RunMembership(ts: Tables, ops: seq<Op>, ch: Channel, room: string, c: Conn)
    ensures c in Members(Of(Run(ts, ops), ch), room) <==>
      match LatestWord(ops, ch, room, c)
      case Some(joined) => joined
      case None => c in Members(Of(ts, ch), room)
    decreases |ops|
  {
    if ops != [] {
      var prefix := ops[..|ops| - 1];
      RunMembership(ts, prefix, ch, room, c);
      StepMembership(Run(ts, prefix), ops[|ops| - 1], ch, room, c);
    }
  }

  /**
   * Starting from a fresh manager, the members of `(room, ch)` are exactly the
   * handles joined there and not disconnected since.
   */
  lemma FreshRunMembership(ops: seq<Op>, ch: Channel, room: string, c: Conn)
    ensures c in Members(Of(Run(Tables(map[], map[]), ops), ch), room) <==>
      LatestWord(ops, ch, room, c) == Some(true)
  {
    RunMembership(Tables(map[], map[]), ops, ch, room, c);
  }

  /** A disconnect removes the handle from both channels of the room, whichever it joined. */
  lemma LeaveClearsBoth(ts: Tables, room: string, c: Conn)
    ensures c !in Members(Step(ts, Leave(room, c)).active, room)
    ensures c !in Members(Step(ts, Leave(room, c)).voice, room)
  {
  }

  /** A join on one channel never touches the other channel's table. */
  lemma JoinKeepsOtherChannel(ts: Tables, room: string, c: Conn)
    ensures Step(ts, Join(Game, room, c)).voice == ts.voice
    ensures Step(ts, Join(Voice, room, c)).active == ts.active
  {
  }
}
