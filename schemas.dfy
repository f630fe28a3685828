/**
 * The record declarations of the document store: their fields, the defaults
 * a record gets when a field is omitted, and the range constraints a record
 * must meet to be built. Building a record that breaks a constraint fails
 * with the set of offending field names.
 */
module Schemas {
  import opened Wrappers

  /** An opaque point in time (`datetime`); no constraint is placed on it. */
  datatype DateTime = DateTime(epochMicros: int)

  /** The validation failure of a build, naming every field whose constraint fails. */
  datatype ValidationError = ValidationError(fields: set<string>)

  /** `User`: `age` is optional, `is_active` defaults to true. */
  datatype User = User(name: string, email: string, address: string,
                       age: Option<int> := None, isActive: bool := true)

  predicate ValidUser(u: User) {
    u.age.Some? ==> 0 <= u.age.value <= 120
  }

  /** Builds a `User`, failing exactly when a present age lies outside 0..120. */
  function NewUser(u: User): (r: Result<User, ValidationError>)
    ensures r.Success? <==> ValidUser(u)
    ensures r.Success? ==> r.value == u
    ensures r.Failure? ==> r.error.fields == {"age"}
  {
    match u.age
    case Some(a) => if a < 0 || 120 < a then Failure(ValidationError({"age"})) else Success(u)
    case None => Success(u)
  }

  /** A user given only its required fields has no age, is active, and is valid. */
  lemma UserDefaults(name: string, email: string, address: string)
    ensures User(name, email, address).age == None
    ensures User(name, email, address).isActive
    ensures NewUser(User(name, email, address)) == Success(User(name, email, address, None, true))
  {
  }

  /**
   * `Product` without its `price`: `description` is optional and defaults to
   * absent, `in_stock` defaults to true. No remaining field is constrained.
   */
  datatype Product = Product(title: string, category: string,
                             description: Option<string> := None, inStock: bool := true)

  lemma ProductDefaults(title: string, category: string)
    ensures Product(title, category).description == None
    ensures Product(title, category).inStock
  {
  }

  /**
   * `Room`: `status` defaults to "waiting" and is any string, `players`
   * starts empty, `max_players` defaults to 4 and must lie in 2..4.
   */
  datatype Room = Room(roomCode: string, createdBy: string,
                       status: string := "waiting", players: seq<string> := [],
                       maxPlayers: int := 4, createdAt: Option<DateTime> := None)

  predicate ValidRoom(r: Room) {
    2 <= r.maxPlayers <= 4
  }

  /** Builds a `Room`, failing exactly when `max_players` lies outside 2..4. */
  function NewRoom(room: Room): (r: Result<Room, ValidationError>)
    ensures r.Success? <==> ValidRoom(room)
    ensures r.Success? ==> r.value == room
    ensures r.Failure? ==> r.error.fields == {"max_players"}
  {
    if room.maxPlayers < 2 || 4 < room.maxPlayers then Failure(ValidationError({"max_players"}))
    else Success(room)
  }

  /**
   * A room given only its code and creator is waiting, has no players, allows
   * four, has no creation time, and passes validation.
   */
  lemma RoomDefaults(code: string, creator: string)
    ensures NewRoom(Room(code, creator)) == Success(Room(code, creator, "waiting", [], 4, None))
  {
  }

  /** Whether a room is valid never depends on its status text. */
  lemma RoomStatusUnconstrained(room: Room, status: string)
    ensures NewRoom(room.(status := status)).Success? == NewRoom(room).Success?
  {
  }

  /** The document `create_room` builds, with the creator as the only player, is valid. */
  lemma CreateRoomDocument(code: string, playerId: string)
    ensures NewRoom(Room(code, playerId, players := [playerId])) ==
            Success(Room(code, playerId, "waiting", [playerId], 4, None))
  {
  }

  /** The home position of a piece, the one `from_pos` outside the board. */
  const Home: int := -1

  /** The last board index a piece can stand on. */
  const LastSquare: int := 57

  /** `Move`: a piece's move from `fromPos` to `toPos` on a roll of `dice`. */
  datatype Move = Move(roomCode: string, playerId: string, piece: string,
                       fromPos: int, toPos: int, dice: int,
                       createdAt: Option<DateTime> := None)

  predicate ValidMove(m: Move) {
    && Home <= m.fromPos <= LastSquare
    && 0 <= m.toPos <= LastSquare
    && 1 <= m.dice <= 6
  }

  /** The names of the fields of `m` whose range constraint fails. */
  function MoveViolations(m: Move): set<string> {
    (if m.fromPos < Home || LastSquare < m.fromPos then {"from_pos"} else {})
    + (if m.toPos < 0 || LastSquare < m.toPos then {"to_pos"} else {})
    + (if m.dice < 1 || 6 < m.dice then {"dice"} else {})
  }

  /**
   * Builds a `Move`, failing exactly when a position or the die is out of
   * range; the error names each out-of-range field and no other.
   */
  function NewMove(m: Move): (r: Result<Move, ValidationError>)
    ensures r.Success? <==> ValidMove(m)
    ensures r.Success? ==> r.value == m
    ensures r.Failure? ==> r.error.fields != {}
    ensures r.Failure? ==> ("from_pos" in r.error.fields <==> !(Home <= m.fromPos <= LastSquare))
    ensures r.Failure? ==> ("to_pos" in r.error.fields <==> !(0 <= m.toPos <= LastSquare))
    ensures r.Failure? ==> ("dice" in r.error.fields <==> !(1 <= m.dice <= 6))
  {
    var bad := MoveViolations(m);
    if bad == {} then Success(m) else Failure(ValidationError(bad))
  }

  /**
   * Home is the only starting position off the board: a valid move starts
   * either at home or on a board square 0..57, and home is accepted.
   */
  lemma HomeIsOnlyOffBoardStart(m: Move)
    ensures ValidMove(m) && !(0 <= m.fromPos <= LastSquare) ==> m.fromPos == Home
    ensures 0 <= m.toPos <= LastSquare && 1 <= m.dice <= 6 ==> ValidMove(m.(fromPos := Home))
    ensures ValidMove(m) ==> m.fromPos != Home - 1 && m.toPos != Home
  {
  }
}
