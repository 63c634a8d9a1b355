/**
 CBOR as section 3.1 of RFC 8949 encodes it, and how far the decoder inverts it.

 A data item carries the width of its head, since the standard lets an encoder choose any width that fits.
*/
module CborEncoding {
  import opened Cbor
  import opened Wrappers

  datatype Width = Direct | One | Two | Four | Eight

  datatype Data =
    | Int(w: Width, n: int)
    | ByteString(w: Width, bytes: Bytes)
    | TextString(w: Width, text: string)
    | Array(w: Width, items: seq<Data>)
    | Map(w: Width, entries: seq<Entry>)

  datatype Entry = Entry(key: Data, value: Data)

  const SAFE: nat := 0x20_0000_0000_0000

  function Limit(w: Width): nat {
    match w
    case Direct => 24
    case One => 0x100
    case Two => 0x1_0000
    case Four => 0x1_0000_0000
    case Eight => SAFE
  }

  function Info(w: Width, n: nat): nat {
    match w
    case Direct => n
    case One => 24
    case Two => 25
    case Four => 26
    case Eight => 27
  }

  /** The number in `width` bytes, most significant first. */
  function ToBytes(n: nat, width: nat): (b: Bytes)
    ensures |b| == width
  {
    if width == 0 then [] else ToBytes(n / 256, width - 1) + [n % 256]
  }

  function Extra(w: Width): nat {
    match w
    case Direct => 0
    case One => 1
    case Two => 2
    case Four => 4
    case Eight => 8
  }

  function Head(major: nat, w: Width, n: nat): Bytes
    requires major < 8 && n < Limit(w)
  {
    [major * 32 + Info(w, n)] + ToBytes(n, Extra(w))
  }

  /** Every argument fits its head, and every text survives the platform's text encoding. */
  ghost predicate Encodable(p: Platform, d: Data)
    decreases d
  {
    match d
    case Int(w, n) => (if n >= 0 then n else -1 - n) < Limit(w)
    case ByteString(w, bytes) => |bytes| < Limit(w)
    case TextString(w, text) => |p.encodeText(text)| < Limit(w) && p.decodeText(p.encodeText(text)) == text
    case Array(w, items) => |items| < Limit(w) && EncodableItems(p, items)
    case Map(w, entries) => |entries| < Limit(w) && EncodableEntries(p, entries)
  }

  ghost predicate EncodableItems(p: Platform, items: seq<Data>)
    decreases items
  {
    items == [] || (Encodable(p, items[0]) && EncodableItems(p, items[1..]))
  }

  ghost predicate EncodableEntries(p: Platform, entries: seq<Entry>)
    decreases entries
  {
    entries == [] || (EncodableEntry(p, entries[0]) && EncodableEntries(p, entries[1..]))
  }

  ghost predicate EncodableEntry(p: Platform, entry: Entry)
    decreases entry
  {
    Encodable(p, entry.key) && Encodable(p, entry.value)
  }

  function Encode(p: Platform, d: Data): Bytes
    requires Encodable(p, d)
    decreases d
  {
    match d
    case Int(w, n) => if n >= 0 then Head(0, w, n) else Head(1, w, -1 - n)
    case ByteString(w, bytes) => Head(2, w, |bytes|) + bytes
    case TextString(w, text) => Head(3, w, |p.encodeText(text)|) + p.encodeText(text)
    case Array(w, items) => Head(4, w, |items|) + EncodeItems(p, items)
    case Map(w, entries) => Head(5, w, |entries|) + EncodeEntries(p, entries)
  }

  function EncodeItems(p: Platform, items: seq<Data>): Bytes
    requires EncodableItems(p, items)
    decreases items
  {
    if items == [] then [] else Encode(p, items[0]) + EncodeItems(p, items[1..])
  }

  function EncodeEntries(p: Platform, entries: seq<Entry>): Bytes
    requires EncodableEntries(p, entries)
    decreases entries
  {
    if entries == [] then []
    else EncodeEntry(p, entries[0]) + EncodeEntries(p, entries[1..])
  }

  function EncodeEntry(p: Platform, entry: Entry): Bytes
    requires EncodableEntry(p, entry)
    decreases entry
  {
    Encode(p, entry.key) + Encode(p, entry.value)
  }

  // ----- the JavaScript value of a data item -----

  function ToJs(p: Platform, d: Data): Js
    decreases d
  {
    match d
    case Int(_, n) => Num(n)
    case ByteString(_, bytes) => Buf(bytes)
    case TextString(_, text) => Str(text)
    case Array(_, items) => List(ToJsItems(p, items))
    case Map(_, entries) => Obj(AssignAll(p, entries, EMPTY))
  }

  function ToJsItems(p: Platform, items: seq<Data>): (r: seq<Js>)
    ensures |r| == |items|
    decreases items
  {
    if items == [] then [] else [ToJs(p, items[0])] + ToJsItems(p, items[1..])
  }

  function AssignAll(p: Platform, entries: seq<Entry>, o: Object): Object
    decreases entries
  {
    if entries == [] then o
    else
      var entry := entries[0];
      assert entry.key < entry && entry.value < entry;
      AssignAll(p, entries[1..], Assign(p, o, ToJs(p, entry.key), ToJs(p, entry.value)))
  }

  // ----- heads -----

  /** These bytes stand at this position. */
  predicate Holds(buf: Bytes, pos: nat, bytes: Bytes) {
    pos + |bytes| <= |buf| && forall i {:trigger bytes[i]} :: 0 <= i < |bytes| ==> buf[pos + i] == bytes[i]
  }

  lemma HoldsBoth(buf: Bytes, pos: nat, a: Bytes, b: Bytes)
    requires Holds(buf, pos, a + b)
    ensures Holds(buf, pos, a) && Holds(buf, pos + |a|, b)
  {
    forall i | 0 <= i < |b| ensures buf[pos + |a| + i] == b[i] {
      assert (a + b)[|a| + i] == b[i];
    }
    forall i | 0 <= i < |a| ensures buf[pos + i] == a[i] {
      assert (a + b)[i] == a[i];
    }
  }

  lemma ReadsTwo(buf: Bytes, pos: nat, n: nat)
    requires n < 0x1_0000 && Holds(buf, pos, ToBytes(n, 2))
    ensures ReadUInt16BE(buf, pos) == Ok(n)
  {
    assert ToBytes(n, 2) == ToBytes(n / 256, 1) + [n % 256];
    assert ToBytes(n / 256, 1) == ToBytes(n / 256 / 256, 0) + [n / 256 % 256];
    var two := ToBytes(n, 2);
    assert buf[pos + 0] == two[0] && buf[pos + 1] == two[1];
  }

  lemma FourBytes(n: nat)
    requires n < 0x1_0000_0000
    ensures ToBytes(n, 4) == [n / 0x100_0000, n / 0x1_0000 % 256, n / 256 % 256, n % 256]
  {
    assert ToBytes(n, 4) == ToBytes(n / 256, 3) + [n % 256];
    assert ToBytes(n / 256, 3) == ToBytes(n / 256 / 256, 2) + [n / 256 % 256];
    assert ToBytes(n / 256 / 256, 2) == ToBytes(n / 256 / 256 / 256, 1) + [n / 256 / 256 % 256];
    assert ToBytes(n / 256 / 256 / 256, 1) == ToBytes(n / 256 / 256 / 256 / 256, 0) + [n / 256 / 256 / 256 % 256];
  }

  lemma ReadsFour(buf: Bytes, pos: nat, n: nat)
    requires n < 0x1_0000_0000 && Holds(buf, pos, ToBytes(n, 4))
    ensures ReadUInt32BE(buf, pos) == Ok(n)
  {
    FourBytes(n);
    FourSum(n);
    var four := ToBytes(n, 4);
    assert buf[pos + 0] == four[0] && buf[pos + 1] == four[1] && buf[pos + 2] == four[2] && buf[pos + 3] == four[3];
  }

  lemma FourSum(n: nat)
    ensures n / 0x100_0000 * 0x100_0000 + n / 0x1_0000 % 256 * 0x1_0000 + n / 256 % 256 * 0x100 + n % 256 == n
  {
    var a := n / 256;
    var b := a / 256;
    assert b == n / 0x1_0000 && b / 256 == n / 0x100_0000;
    assert n == a * 256 + n % 256 && a == b * 256 + a % 256 && b == b / 256 * 256 + b % 256;
  }

  lemma LowFour(n: nat, l: nat)
    requires l == n % 0x1_0000_0000
    ensures l / 0x100_0000 == n / 0x100_0000 % 256 && l / 0x1_0000 % 256 == n / 0x1_0000 % 256
    ensures l / 256 % 256 == n / 256 % 256 && l % 256 == n % 256
  {
    var h := n / 0x1_0000_0000;
    assert n == h * 0x1_0000_0000 + l;
    assert n / 256 == h * 0x100_0000 + l / 256;
    assert n / 0x1_0000 == h * 0x1_0000 + l / 0x1_0000;
    assert n / 0x100_0000 == h * 0x100 + l / 0x100_0000;
  }

  /** Eight bytes are the high four followed by the low four. */
  lemma EightIsTwoFours(n: nat)
    requires n < SAFE
    ensures ToBytes(n, 8) == ToBytes(n / 0x1_0000_0000, 4) + ToBytes(n % 0x1_0000_0000, 4)
  {
    var a := n / 256;
    var b := a / 256;
    var c := b / 256;
    var e := c / 256;
    assert ToBytes(n, 8) == ToBytes(a, 7) + [n % 256];
    assert ToBytes(a, 7) == ToBytes(b, 6) + [a % 256];
    assert ToBytes(b, 6) == ToBytes(c, 5) + [b % 256];
    assert ToBytes(c, 5) == ToBytes(e, 4) + [c % 256];
    assert e == n / 0x1_0000_0000 && b == n / 0x1_0000 && c == n / 0x100_0000;
    var l := n % 0x1_0000_0000;
    LowFour(n, l);
    FourBytes(l);
  }

  /** Any head that fits is read back, whatever its width. */
  lemma HeadIsRead(buf: Bytes, pos: nat, major: nat, w: Width, n: nat)
    requires major < 8 && n < Limit(w) && Holds(buf, pos, Head(major, w, n))
    ensures buf[pos] / 32 == major
    ensures ReadArgument(buf, buf[pos] % 32, pos + 1) == Ok(Argument(Some(n), pos + |Head(major, w, n)|))
  {
    HoldsBoth(buf, pos, [major * 32 + Info(w, n)], ToBytes(n, Extra(w)));
    assert buf[pos + 0] == [major * 32 + Info(w, n)][0];
    match w
    case Direct =>
    case One =>
      assert ToBytes(n, 1) == ToBytes(n / 256, 0) + [n % 256];
      assert buf[pos + 1 + 0] == ToBytes(n, 1)[0];
    case Two => ReadsTwo(buf, pos + 1, n);
    case Four => ReadsFour(buf, pos + 1, n);
    case Eight =>
      var hi, lo := n / 0x1_0000_0000, n % 0x1_0000_0000;
      EightIsTwoFours(n);
      HoldsBoth(buf, pos + 1, ToBytes(hi, 4), ToBytes(lo, 4));
      ReadsFour(buf, pos + 1, hi);
      ReadsFour(buf, pos + 5, lo);
  }

  // ----- one item -----

  lemma ArgumentIsUsed(p: Platform, buf: Bytes, pos: nat, major: nat, w: Width, n: nat)
    requires major < 6 && n < Limit(w) && Holds(buf, pos, Head(major, w, n))
    ensures var next := pos + |Head(major, w, n)|;
            DecodeItem(p, buf, At(pos)) ==
            match major
            case 0 => Ok(Item(Num(n), At(next)))
            case 1 => Ok(Item(Num(-1 - n), At(next)))
            case 2 => Ok(Item(Buf(Slice(buf, next, Some(n))), At(next + n)))
            case 3 => Ok(Item(Str(p.decodeText(Slice(buf, next, Some(n)))), At(next + n)))
            case 4 => DecodeArray(p, buf, At(next), n, [])
            case _ => DecodeMap(p, buf, At(next), n, EMPTY)
  {
    HeadIsRead(buf, pos, major, w, n);
  }

  lemma SliceIs(buf: Bytes, pos: nat, bytes: Bytes)
    requires Holds(buf, pos, bytes)
    ensures Slice(buf, pos, Some(|bytes|)) == bytes
  {
  }

  // ----- decoding inverts encoding -----

  /**
   Wherever an encoded item stands in a buffer and whatever follows it, decoding there gives its value and
   the offset just past it.
  */
  lemma {:induction false} DecodesEncoded(p: Platform, d: Data, buf: Bytes, pos: nat)
    requires Encodable(p, d) && Holds(buf, pos, Encode(p, d))
    ensures DecodeItem(p, buf, At(pos)) == Ok(Item(ToJs(p, d), At(pos + |Encode(p, d)|)))
    decreases d, 1
  {
    match d
    case Int(w, n) => ArgumentIsUsed(p, buf, pos, if n >= 0 then 0 else 1, w, if n >= 0 then n else -1 - n);
    case ByteString(w, bytes) => DecodesString(p, 2, w, bytes, buf, pos);
    case TextString(w, text) => DecodesString(p, 3, w, p.encodeText(text), buf, pos);
    case Array(w, items) => DecodesArray(p, d, buf, pos);
    case Map(w, entries) => DecodesMap(p, d, buf, pos);
  }

  lemma DecodesString(p: Platform, major: nat, w: Width, bytes: Bytes, buf: Bytes, pos: nat)
    requires 2 <= major <= 3 && |bytes| < Limit(w) && Holds(buf, pos, Head(major, w, |bytes|) + bytes)
    ensures DecodeItem(p, buf, At(pos)) ==
            Ok(Item(if major == 2 then Buf(bytes) else Str(p.decodeText(bytes)),
                    At(pos + |Head(major, w, |bytes|) + bytes|)))
  {
    var head := Head(major, w, |bytes|);
    HoldsBoth(buf, pos, head, bytes);
    ArgumentIsUsed(p, buf, pos, major, w, |bytes|);
    SliceIs(buf, pos + |head|, bytes);
  }

  lemma {:induction false} DecodesArray(p: Platform, d: Data, buf: Bytes, pos: nat)
    requires d.Array? && Encodable(p, d) && Holds(buf, pos, Encode(p, d))
    ensures DecodeItem(p, buf, At(pos)) == Ok(Item(ToJs(p, d), At(pos + |Encode(p, d)|)))
    decreases d, 0
  {
    var head := Head(4, d.w, |d.items|);
    HoldsBoth(buf, pos, head, EncodeItems(p, d.items));
    ArgumentIsUsed(p, buf, pos, 4, d.w, |d.items|);
    DecodesItems(p, d.items, buf, pos + |head|, []);
    assert [] + ToJsItems(p, d.items) == ToJsItems(p, d.items);
  }

  lemma {:induction false} DecodesMap(p: Platform, d: Data, buf: Bytes, pos: nat)
    requires d.Map? && Encodable(p, d) && Holds(buf, pos, Encode(p, d))
    ensures DecodeItem(p, buf, At(pos)) == Ok(Item(ToJs(p, d), At(pos + |Encode(p, d)|)))
    decreases d, 0
  {
    var head := Head(5, d.w, |d.entries|);
    HoldsBoth(buf, pos, head, EncodeEntries(p, d.entries));
    ArgumentIsUsed(p, buf, pos, 5, d.w, |d.entries|);
    DecodesEntries(p, d.entries, buf, pos + |head|, EMPTY);
  }

  lemma {:induction false} DecodesItems(p: Platform, items: seq<Data>, buf: Bytes, pos: nat, arr: seq<Js>)
    requires EncodableItems(p, items) && Holds(buf, pos, EncodeItems(p, items))
    ensures DecodeArray(p, buf, At(pos), |items|, arr) ==
            Ok(Item(List(arr + ToJsItems(p, items)), At(pos + |EncodeItems(p, items)|)))
    decreases items, 0
  {
    if items == [] {
      assert arr + [] == arr;
    } else {
      var first := Encode(p, items[0]);
      HoldsBoth(buf, pos, first, EncodeItems(p, items[1..]));
      DecodesEncoded(p, items[0], buf, pos);
      DecodesItems(p, items[1..], buf, pos + |first|, arr + [ToJs(p, items[0])]);
      assert arr + [ToJs(p, items[0])] + ToJsItems(p, items[1..]) == arr + ToJsItems(p, items);
    }
  }

  lemma {:induction false} DecodesEntries(p: Platform, entries: seq<Entry>, buf: Bytes, pos: nat,
                                          o: Object)
    requires EncodableEntries(p, entries) && Holds(buf, pos, EncodeEntries(p, entries))
    ensures DecodeMap(p, buf, At(pos), |entries|, o) ==
            Ok(Item(Obj(AssignAll(p, entries, o)), At(pos + |EncodeEntries(p, entries)|)))
    decreases entries, 1
  {
    if entries != [] {
      var next, o' := DecodesFirst(p, entries, buf, pos, o);
      DecodesEntries(p, entries[1..], buf, next, o');
    }
  }

  lemma EntriesSplit(p: Platform, entries: seq<Entry>, buf: Bytes, pos: nat)
    requires entries != [] && EncodableEntries(p, entries) && Holds(buf, pos, EncodeEntries(p, entries))
    ensures EncodableEntry(p, entries[0]) && EncodableEntries(p, entries[1..])
    ensures Holds(buf, pos, EncodeEntry(p, entries[0]))
    ensures Holds(buf, pos + |EncodeEntry(p, entries[0])|, EncodeEntries(p, entries[1..]))
    ensures |EncodeEntries(p, entries)| == |EncodeEntry(p, entries[0])| + |EncodeEntries(p, entries[1..])|
  {
    HoldsBoth(buf, pos, EncodeEntry(p, entries[0]), EncodeEntries(p, entries[1..]));
  }

  lemma AssignFirst(p: Platform, entries: seq<Entry>, o: Object)
    requires entries != []
    ensures AssignAll(p, entries, o) ==
            AssignAll(p, entries[1..], Assign(p, o, ToJs(p, entries[0].key), ToJs(p, entries[0].value)))
  {
  }

  /** The first entry decodes, and the rest stands behind it. */
  lemma {:induction false} DecodesFirst(p: Platform, entries: seq<Entry>, buf: Bytes, pos: nat, o: Object)
    returns (next: nat, o': Object)
    requires entries != [] && EncodableEntries(p, entries) && Holds(buf, pos, EncodeEntries(p, entries))
    ensures EncodableEntries(p, entries[1..]) && Holds(buf, next, EncodeEntries(p, entries[1..]))
    ensures next + |EncodeEntries(p, entries[1..])| == pos + |EncodeEntries(p, entries)|
    ensures AssignAll(p, entries[1..], o') == AssignAll(p, entries, o)
    ensures DecodeMap(p, buf, At(pos), |entries|, o) == DecodeMap(p, buf, At(next), |entries[1..]|, o')
    decreases entries, 0
  {
    var entry := entries[0];
    next := pos + |EncodeEntry(p, entry)|;
    o' := Assign(p, o, ToJs(p, entry.key), ToJs(p, entry.value));
    EntriesSplit(p, entries, buf, pos);
    AssignFirst(p, entries, o);
    DecodesEntry(p, entry, buf, pos);
    MapStep(p, buf, At(pos), |entries|, o, Pair(ToJs(p, entry.key), ToJs(p, entry.value), At(next)), o');
  }

  /** One turn of the loop over a map. */
  lemma MapStep(p: Platform, buf: Bytes, cursor: Offset, count: nat, o: Object, pair: Pair,
                o': Object)
    requires count > 0 && DecodeEntry(p, buf, cursor) == Ok(pair) && o' == Assign(p, o, pair.key, pair.value)
    ensures DecodeMap(p, buf, cursor, count, o) == DecodeMap(p, buf, pair.offset, count - 1, o')
  {
  }

  lemma {:induction false} DecodesEntry(p: Platform, entry: Entry, buf: Bytes, pos: nat)
    requires EncodableEntry(p, entry) && Holds(buf, pos, EncodeEntry(p, entry))
    ensures DecodeEntry(p, buf, At(pos)) ==
            Ok(Pair(ToJs(p, entry.key), ToJs(p, entry.value), At(pos + |EncodeEntry(p, entry)|)))
    decreases entry, 0
  {
    var mid := pos + |Encode(p, entry.key)|;
    EntrySplit(p, entry, buf, pos);
    DecodesEncoded(p, entry.key, buf, pos);
    DecodesEncoded(p, entry.value, buf, mid);
    EntryStep(p, buf, pos, mid, pos + |EncodeEntry(p, entry)|, ToJs(p, entry.key), ToJs(p, entry.value));
  }

  lemma EntrySplit(p: Platform, entry: Entry, buf: Bytes, pos: nat)
    requires EncodableEntry(p, entry) && Holds(buf, pos, EncodeEntry(p, entry))
    ensures entry.key < entry && entry.value < entry
    ensures Holds(buf, pos, Encode(p, entry.key))
    ensures Holds(buf, pos + |Encode(p, entry.key)|, Encode(p, entry.value))
    ensures |EncodeEntry(p, entry)| == |Encode(p, entry.key)| + |Encode(p, entry.value)|
  {
    HoldsBoth(buf, pos, Encode(p, entry.key), Encode(p, entry.value));
  }

  lemma EntryStep(p: Platform, buf: Bytes, pos: nat, mid: nat, end: nat, key: Js, value: Js)
    requires DecodeItem(p, buf, At(pos)) == Ok(Item(key, At(mid)))
    requires DecodeItem(p, buf, At(mid)) == Ok(Item(value, At(end)))
    ensures DecodeEntry(p, buf, At(pos)) == Ok(Pair(key, value, At(end)))
  {
  }
}
