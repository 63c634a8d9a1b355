/**
 The CBOR decoder of the passkey endpoint (server/webauthn.js).

 JavaScript's treatment of what lies past the end of the buffer is part of the model: a one-byte argument
 read there is undefined, an offset computed from it is NaN, and decoding at NaN reads the integer 0
 without moving.
*/
module Cbor {
  import opened Wrappers

  type Byte = b: int | 0 <= b < 256
  type Bytes = seq<Byte>

  datatype Error = UnexpectedEnd | OutOfRange | UnsupportedInfo | UnsupportedMajorType | NoAuthData

  datatype Result<T> = Ok(value: T) | Err(error: Error) {
    predicate IsFailure() { Err? }
    function PropagateFailure<U>(): Result<U>
      requires Err?
    {
      Result<U>.Err(error)
    }
    function Extract(): T
      requires Ok?
    {
      value
    }
  }

  /** What decoding yields. */
  datatype Js =
    | Num(n: int)
    | Undefined
    | NotANumber
    | Buf(bytes: Bytes)
    | Str(s: string)
    | List(items: seq<Js>)
    | Obj(obj: Object)

  /** Own properties by name, and the prototype if it is not the usual one. */
  datatype Object = Object(props: map<string, Js>, proto: Option<Js>)

  const EMPTY := Object(map[], None)

  datatype Offset = At(n: nat) | NaN

  datatype Item = Item(value: Js, offset: Offset)

  /**
   Text encoding, the property name of a key that is neither a number nor a text, and the names that an object
   with a byte string as prototype cannot be given, such as its indices and length.
  */
  datatype Platform = Platform(encodeText: string -> Bytes, decodeText: Bytes -> string, nameOfOther: Js -> string,
                               refused: (Bytes, string) -> bool)

  const PROTO := "__proto__"

  // ----- property names -----

  function Digits(n: nat): string {
    if n < 10 then [Digit(n)] else Digits(n / 10) + [Digit(n % 10)]
  }

  function Digit(n: nat): char
    requires n < 10
  {
    '0' + n as char
  }

  function Decimal(n: int): string {
    if n < 0 then "-" + Digits(-n) else Digits(n)
  }

  function PropertyName(p: Platform, key: Js): string {
    match key
    case Num(n) => Decimal(n)
    case Str(s) => s
    case Undefined => "undefined"
    case NotANumber => "NaN"
    case other => p.nameOfOther(other)
  }

  predicate IsObject(v: Js) {
    v.Buf? || v.List? || v.Obj?
  }

  /** The first prototype with a say about the name does not let an own property of that name be made. */
  predicate Refuses(p: Platform, proto: Option<Js>, name: string)
    decreases proto
  {
    match proto
    case Some(Buf(bytes)) => p.refused(bytes, name)
    case Some(Obj(o)) => name !in o.props && Refuses(p, o.proto, name)
    case _ => false
  }

  /** `map[key] = value`: an own property, except that the name __proto__ sets the prototype, to objects only. */
  function Assign(p: Platform, o: Object, key: Js, value: Js): Object {
    var name := PropertyName(p, key);
    if name == PROTO then if IsObject(value) then o.(proto := Some(value)) else o
    else if name !in o.props && Refuses(p, o.proto, name) then o
    else o.(props := o.props[name := value])
  }

  /** `map.name`, for a name that the built-in prototypes do not have. */
  function Lookup(o: Object, name: string): Option<Js>
    decreases o
  {
    if name in o.props then Some(o.props[name])
    else match o.proto
         case Some(Obj(parent)) => Lookup(parent, name)
         case _ => None
  }

  // ----- arguments -----

  /** The value is None when it is undefined. */
  datatype Argument = Argument(value: Option<nat>, pos: nat)

  function ByteAt(buf: Bytes, i: nat): nat
    requires i < |buf|
  {
    buf[i]
  }

  /** Big-endian reads, which fail past the end. */
  function ReadUInt16BE(buf: Bytes, pos: nat): Result<nat> {
    if pos + 2 > |buf| then Err(OutOfRange) else Ok(ByteAt(buf, pos) * 0x100 + ByteAt(buf, pos + 1))
  }

  function ReadUInt32BE(buf: Bytes, pos: nat): Result<nat> {
    if pos + 4 > |buf| then Err(OutOfRange)
    else Ok(ByteAt(buf, pos) * 0x100_0000 + ByteAt(buf, pos + 1) * 0x1_0000
            + ByteAt(buf, pos + 2) * 0x100 + ByteAt(buf, pos + 3))
  }

  function ReadArgument(buf: Bytes, info: nat, pos: nat): (r: Result<Argument>)
    ensures r.Ok? ==> r.value.pos >= pos
  {
    if info < 24 then Ok(Argument(Some(info), pos))
    else if info == 24 then Ok(Argument(if pos < |buf| then Some(buf[pos]) else None, pos + 1))
    else if info == 25 then
      var n :- ReadUInt16BE(buf, pos);
      Ok(Argument(Some(n), pos + 2))
    else if info == 26 then
      var n :- ReadUInt32BE(buf, pos);
      Ok(Argument(Some(n), pos + 4))
    else if info == 27 then
      var hi :- ReadUInt32BE(buf, pos);
      var lo :- ReadUInt32BE(buf, pos + 4);
      Ok(Argument(Some(hi * 0x1_0000_0000 + lo), pos + 8))
    else Err(UnsupportedInfo)
  }

  /** `buf.slice(pos, pos + argument)`, which stops at the end of the buffer. */
  function Slice(buf: Bytes, pos: nat, argument: Option<nat>): Bytes {
    if argument.None? || pos >= |buf| then []
    else if pos + argument.value > |buf| then buf[pos..]
    else buf[pos..pos + argument.value]
  }

  function Advance(pos: nat, argument: Option<nat>): Offset {
    if argument.None? then NaN else At(pos + argument.value)
  }

  /** How often a loop up to the argument runs. */
  function Count(argument: Option<nat>): nat {
    if argument.None? then 0 else argument.value
  }

  // ----- items -----

  /** Bytes that decoding from here can still consume, plus one. */
  function Left(buf: Bytes, pos: Offset): nat {
    if pos.At? && pos.n <= |buf| then |buf| - pos.n + 1 else 0
  }

  function DecodeItem(p: Platform, buf: Bytes, pos: Offset): (r: Result<Item>)
    ensures r.Ok? && pos.At? ==> pos.n < |buf| && (r.value.offset.At? ==> r.value.offset.n > pos.n)
    ensures pos.NaN? ==> r == Ok(Item(Num(0), NaN))
    decreases Left(buf, pos), 0, 0
  {
    if pos.NaN? then Ok(Item(Num(0), NaN))
    else if pos.n >= |buf| then Err(UnexpectedEnd)
    else
      var arg :- ReadArgument(buf, buf[pos.n] % 32, pos.n + 1);
      DecodeContent(p, buf, buf[pos.n] / 32, arg)
  }

  /** What follows the head of an item. */
  function DecodeContent(p: Platform, buf: Bytes, major: nat, arg: Argument): (r: Result<Item>)
    ensures r.Ok? && r.value.offset.At? ==> r.value.offset.n >= arg.pos
    decreases Left(buf, At(arg.pos)), 3, 0
  {
    match major
    case 0 => Ok(Item(if arg.value.None? then Undefined else Num(arg.value.value), At(arg.pos)))
    case 1 => Ok(Item(if arg.value.None? then NotANumber else Num(-1 - arg.value.value), At(arg.pos)))
    case 2 => Ok(Item(Buf(Slice(buf, arg.pos, arg.value)), Advance(arg.pos, arg.value)))
    case 3 => Ok(Item(Str(p.decodeText(Slice(buf, arg.pos, arg.value))), Advance(arg.pos, arg.value)))
    case 4 => DecodeArray(p, buf, At(arg.pos), Count(arg.value), [])
    case 5 => DecodeMap(p, buf, At(arg.pos), Count(arg.value), EMPTY)
    case _ => Err(UnsupportedMajorType)
  }

  function DecodeArray(p: Platform, buf: Bytes, cursor: Offset, count: nat, arr: seq<Js>): (r: Result<Item>)
    ensures r.Ok? && cursor.At? && r.value.offset.At? ==> r.value.offset.n >= cursor.n
    ensures cursor.NaN? ==> r.Ok? && r.value.offset.NaN?
    decreases Left(buf, cursor), 1, count
  {
    if count == 0 then Ok(Item(List(arr), cursor))
    else
      var item :- DecodeItem(p, buf, cursor);
      DecodeArray(p, buf, item.offset, count - 1, arr + [item.value])
  }

  function DecodeMap(p: Platform, buf: Bytes, cursor: Offset, count: nat, o: Object): (r: Result<Item>)
    ensures r.Ok? && cursor.At? && r.value.offset.At? ==> r.value.offset.n >= cursor.n
    ensures cursor.NaN? ==> r.Ok? && r.value.offset.NaN?
    decreases Left(buf, cursor), 2, count
  {
    if count == 0 then Ok(Item(Obj(o), cursor))
    else
      var entry :- DecodeEntry(p, buf, cursor);
      DecodeMap(p, buf, entry.offset, count - 1, Assign(p, o, entry.key, entry.value))
  }

  datatype Pair = Pair(key: Js, value: Js, offset: Offset)

  function DecodeEntry(p: Platform, buf: Bytes, cursor: Offset): (r: Result<Pair>)
    ensures r.Ok? && cursor.At? ==> cursor.n < |buf| && (r.value.offset.At? ==> r.value.offset.n > cursor.n)
    ensures cursor.NaN? ==> r.Ok? && r.value.offset.NaN?
    decreases Left(buf, cursor), 1, 0
  {
    var key :- DecodeItem(p, buf, cursor);
    var value :- DecodeItem(p, buf, key.offset);
    Ok(Pair(key.value, value.value, value.offset))
  }

  // ----- the program -----

  method DecodeArgument(buf: Bytes, info: nat, start: nat) returns (r: Result<Argument>)
    ensures r == ReadArgument(buf, info, start)
  {
    var pos := start;
    if info < 24 {
      return Ok(Argument(Some(info), pos));
    } else if info == 24 {
      var argument := if pos < |buf| then Some(buf[pos] as nat) else None;
      pos := pos + 1;
      return Ok(Argument(argument, pos));
    } else if info == 25 {
      var argument :- ReadUInt16BE(buf, pos);
      pos := pos + 2;
      return Ok(Argument(Some(argument), pos));
    } else if info == 26 {
      var argument :- ReadUInt32BE(buf, pos);
      pos := pos + 4;
      return Ok(Argument(Some(argument), pos));
    } else if info == 27 {
      var hi :- ReadUInt32BE(buf, pos);
      var lo :- ReadUInt32BE(buf, pos + 4);
      pos := pos + 8;
      return Ok(Argument(Some(hi * 0x1_0000_0000 + lo), pos));
    } else {
      return Err(UnsupportedInfo);
    }
  }

  method DecodeCBORItem(p: Platform, buf: Bytes, start: Offset) returns (r: Result<Item>)
    ensures r == DecodeItem(p, buf, start)
    decreases Left(buf, start)
  {
    if start.NaN? {
      return Ok(Item(Num(0), NaN));
    }
    if start.n >= |buf| {
      return Err(UnexpectedEnd);
    }
    var majorType, additionalInfo := buf[start.n] / 32, buf[start.n] % 32;
    var argument := DecodeArgument(buf, additionalInfo, start.n + 1);
    if argument.Err? {
      return Err(argument.error);
    }
    var arg, pos := argument.value.value, argument.value.pos;
    match majorType {
      case 0 => r := Ok(Item(if arg.None? then Undefined else Num(arg.value), At(pos)));
      case 1 => r := Ok(Item(if arg.None? then NotANumber else Num(-1 - arg.value), At(pos)));
      case 2 => r := Ok(Item(Buf(Slice(buf, pos, arg)), Advance(pos, arg)));
      case 3 => r := Ok(Item(Str(p.decodeText(Slice(buf, pos, arg))), Advance(pos, arg)));
      case 4 =>
        var arr: seq<Js>, cursor, i := [], At(pos), 0;
        while i < Count(arg)
          invariant 0 <= i <= Count(arg) && Left(buf, cursor) < Left(buf, start)
          invariant DecodeItem(p, buf, start) == DecodeArray(p, buf, cursor, Count(arg) - i, arr)
        {
          var item := DecodeCBORItem(p, buf, cursor);
          if item.Err? {
            return Err(item.error);
          }
          arr := arr + [item.value.value];
          cursor := item.value.offset;
          i := i + 1;
        }
        r := Ok(Item(List(arr), cursor));
      case 5 =>
        var o, cursor, i := EMPTY, At(pos), 0;
        while i < Count(arg)
          invariant 0 <= i <= Count(arg) && Left(buf, cursor) < Left(buf, start)
          invariant DecodeItem(p, buf, start) == DecodeMap(p, buf, cursor, Count(arg) - i, o)
        {
          var keyItem := DecodeCBORItem(p, buf, cursor);
          if keyItem.Err? {
            return Err(keyItem.error);
          }
          cursor := keyItem.value.offset;
          var valItem := DecodeCBORItem(p, buf, cursor);
          if valItem.Err? {
            return Err(valItem.error);
          }
          cursor := valItem.value.offset;
          o := Assign(p, o, keyItem.value.value, valItem.value.value);
          i := i + 1;
        }
        r := Ok(Item(Obj(o), cursor));
      case _ => r := Err(UnsupportedMajorType);
    }
  }

  predicate Truthy(v: Js) {
    !(v == Num(0) || v == Undefined || v == NotANumber || v == Str(""))
  }

  /** The property authData, own or inherited, of what is decoded at the start of the buffer. */
  function AuthData(p: Platform, buf: Bytes): Result<Js> {
    var result :- DecodeItem(p, buf, At(0));
    var found := if result.value.Obj? then Lookup(result.value.obj, "authData") else None;
    if found.Some? && Truthy(found.value) then Ok(found.value) else Err(NoAuthData)
  }

  method ExtractAuthDataFromCBOR(p: Platform, buf: Bytes) returns (r: Result<Js>)
    ensures r == AuthData(p, buf)
  {
    var result :- DecodeCBORItem(p, buf, At(0));
    if !result.value.Obj? {
      return Err(NoAuthData);
    }
    var authData := Lookup(result.value.obj, "authData");
    if authData.None? || !Truthy(authData.value) {
      return Err(NoAuthData);
    }
    return Ok(authData.value);
  }
}
