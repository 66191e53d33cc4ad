/** JSON payloads, and the little the source asks of them. */
module Payloads {
  import opened Outcomes

  const U64_RANGE: int := 0x1_0000_0000_0000_0000

  type u64 = n: int | 0 <= n < U64_RANGE

  /** The integers a JSON number keeps exactly: those of i64 and of u64. */
  type JsonInt = n: int | -0x8000_0000_0000_0000 <= n < U64_RANGE

  datatype Json =
    | Null
    | Bool(flag: bool)
    | Int(n: JsonInt)
    | Decimal(text: string)
    | Str(s: string)
    | Arr(items: seq<Json>)
    | Obj(members: map<string, Json>)

  /** Indexing by key; anything but an object has no keys. */
  function Get(v: Json, key: string): Option<Json> {
    if v.Obj? && key in v.members then Some(v.members[key]) else None
  }

  function GetIn(v: Option<Json>, key: string): Option<Json> {
    match v case Some(x) => Get(x, key) case None => None
  }

  function AsStr(v: Option<Json>): Option<string> {
    match v case Some(Str(s)) => Some(s) case _ => None
  }

  function AsU64(v: Option<Json>): (r: Option<u64>) {
    match v
    case Some(Int(n)) => if n >= 0 then Some(n) else None
    case _ => None
  }

  function OrElse<T>(a: Option<T>, b: Option<T>): Option<T> {
    if a.Some? then a else b
  }

  function UnwrapOr<T>(a: Option<T>, default: T): T {
    match a case Some(x) => x case None => default
  }

  /**
   * Reading and writing payloads as text is the JSON library's part; `keeps` says
   * which decimal numbers it writes back as they were read.
   */
  datatype Codec = Codec(parse: string -> Option<Json>, render: Json -> string, keeps: string -> bool)

  /** How deep objects and arrays may nest for the library to read them. */
  const MAX_NESTING: nat := 127

  /** The value nests so many levels at most, and its decimals are numbers the library keeps. */
  predicate IsWritableWithin(c: Codec, v: Json, levels: nat)
    decreases v
  {
    match v
    case Decimal(text) => c.keeps(text)
    case Arr(items) => levels > 0 && forall i :: 0 <= i < |items| ==> IsWritableWithin(c, items[i], levels - 1)
    case Obj(members) => levels > 0 && forall k :: k in members ==> IsWritableWithin(c, members[k], levels - 1)
    case _ => true
  }

  /** The library can write the value and read it back. */
  predicate IsWritable(c: Codec, v: Json) {
    IsWritableWithin(c, v, MAX_NESTING)
  }

  predicate IsObjectText(s: string) {
    |s| >= 2 && s[0] == '{' && s[|s| - 1] == '}' && '\n' !in s
  }

  /** What the translation relies on: an object that can be written reads back, and is written on one line. */
  ghost predicate Lawful(c: Codec) {
    forall members: map<string, Json> :: IsWritable(c, Obj(members)) ==> ReadsBack(c, members)
  }

  predicate ReadsBack(c: Codec, members: map<string, Json>) {
    c.parse(c.render(Obj(members))) == Some(Obj(members)) && IsObjectText(c.render(Obj(members)))
  }

  function LowerAscii(c: char): char {
    if 'A' <= c <= 'Z' then c + ' ' else c
  }

  predicate EqualsIgnoringCase(a: string, b: string) {
    |a| == |b| && forall i :: 0 <= i < |a| ==> LowerAscii(a[i]) == LowerAscii(b[i])
  }
}
