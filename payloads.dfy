/**
 * What travels over the relay's sockets: connection handles, the JSON
 * messages of the game channel, the byte frames of the voice channel, and the
 * record of one send.
 */
module Payloads {

  /** An opaque live socket. Two handles are equal only when they are the same connection. */
  datatype Conn = Conn(id: nat)

  /** One octet of a voice frame. */
  newtype byte = x: int | 0 <= x < 256

  /**
   * A schema-free JSON value. The relay never looks inside one; numbers are
   * held as integers because no message is ever computed with.
   */
  datatype Json =
    | JNull
    | JBool(b: bool)
    | JNumber(n: int)
    | JString(s: string)
    | JArray(items: seq<Json>)
    | JObject(fields: seq<(string, Json)>)

  /** What one send carries: `send_json(message)` or `send_bytes(data)`. */
  datatype Payload = GameMsg(msg: Json) | VoiceFrame(data: seq<byte>)

  /** One completed send, as it appears in the outbox log. */
  datatype Send = Send(to: Conn, payload: Payload)

  /** The notification `join_room` broadcasts: `{"type": "player_joined", "player_id": p}`. */
  function PlayerJoined(playerId: string): Json {
    JObject([("type", JString("player_joined")), ("player_id", JString(playerId))])
  }
}
