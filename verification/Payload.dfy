/**
  Message bodies. A body is its bytes together with what the JSON library parses them to, so that
  decoding an encoded value gives the value back by construction; the bytes themselves stay arbitrary.
 */
module Payload {
  import opened Graph

  datatype Json =
    | Null
    | Scalar(text: string)
    | Array(items: seq<Json>)
    | Object(fields: map<string, Json>)

  datatype Bytes = Bytes(text: string, json: Option<Json>)

  /** A nil byte slice, and an empty one: neither parses. */
  const EMPTY := Bytes("", None)

  /**
    A response body not read yet. `broken`: reading it ends in an error. `network`: reading it again
    after Close is an error, as for a body that comes from a connection.
   */
  datatype Stream = Stream(data: Bytes, broken: bool, network: bool)
  {
    /** What is left of a body that has been read and closed. */
    function Drained(): Stream {
      Stream(EMPTY, network, network)
    }
  }

  /** A reader over bytes in memory: Close does nothing to it. */
  function InMemory(b: Bytes): Stream {
    Stream(b, false, false)
  }

  /** Unmarshal into a Go map: an object, or null, which leaves a nil map that reads as empty. */
  function DecodeObject(b: Bytes): Option<map<string, Json>> {
    match b.json
    case Some(Object(fields)) => Some(fields)
    case Some(Null) => Some(map[])
    case _ => None
  }

  function Encode(marshal: Json -> string, j: Json): Bytes {
    Bytes(marshal(j), Some(j))
  }
}
