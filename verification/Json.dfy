/** JSON as a tree, and the text codecs the program is built on.

  Encoding and decoding of JSON text, UUID parsing and hashing are parameters:
  any total functions. What is assumed of them is said where it is needed. */
module Json {
  import opened Lines

  datatype Json =
    | Null
    | Bool(b: bool)
    | Num(n: real)
    | Str(s: string)
    | Arr(items: seq<Json>)
    | Obj(fields: map<string, Json>)

  datatype StreamMeta = StreamMeta(firstChunkMs: nat, totalMs: nat)

  datatype EventError = EventError(kind: string, message: string)

  /** One captured exchange as read back from its JSONL line; request and
    response keep their JSON text. */
  datatype CaptureEvent = CaptureEvent(
    eventId: string, machine: string, capturedAt: int, source: string, isInternal: bool,
    request: string, response: string,
    streamMeta: Option<StreamMeta>, error: Option<EventError>, sessionHint: Option<string>)

  datatype Codec = Codec(
    decode: string -> Option<Json>,
    encode: Json -> string,
    event: string -> Option<CaptureEvent>,
    uuid: string -> Option<string>,
    hash: string -> string)

  /** Decoding undoes encoding at this tree. */
  predicate Faithful(c: Codec, j: Json) {
    c.decode(c.encode(j)) == Some(j)
  }

  /** Some codec is faithful to any two trees: no result below that asks for it is empty. */
  lemma {:induction false} FaithfulCodec(j: Json, t: Json) returns (c: Codec)
    ensures Faithful(c, j) && Faithful(c, t)
  {
    c := Codec(
      s => if s == "t" then Some(t) else Some(j),
      x => if x == t then "t" else "j",
      _ => None, _ => None, s => s);
  }

  /** Unmarshalling into a Go map or struct accepts an object, and null as an empty one. */
  function AsObject(j: Json): Option<map<string, Json>> {
    match j
    case Obj(f) => Some(f)
    case Null => Some(map[])
    case _ => None
  }

  /** A struct field of type string: absent and null leave it empty, any other
    kind of value is an error. */
  function StringField(f: map<string, Json>, name: string): Option<string> {
    if name !in f || f[name].Null? then Some("")
    else if f[name].Str? then Some(f[name].s)
    else None
  }
}
