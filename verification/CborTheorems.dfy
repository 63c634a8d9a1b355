/**
 How far CBOR decoding inverts encoding: the round trip, which maps survive it whole, and when an offset is
 lost.
*/
module CborTheorems {
  import opened Cbor
  import opened CborEncoding
  import opened Wrappers

  // ----- the round trip -----

  /** Whatever stands before and after an encoded item, decoding gives its value and the exact offset past it. */
  lemma RoundTrip(p: Platform, d: Data, before: Bytes, after: Bytes)
    requires Encodable(p, d)
    ensures DecodeItem(p, before + Encode(p, d) + after, At(|before|)) ==
            Ok(Item(ToJs(p, d), At(|before| + |Encode(p, d)|)))
  {
    var buf := before + Encode(p, d) + after;
    forall i | 0 <= i < |Encode(p, d)| ensures buf[|before| + i] == Encode(p, d)[i] {
    }
    DecodesEncoded(p, d, buf, |before|);
  }

  /** No encoding is a proper prefix of another, and equal encodings have equal values. */
  lemma Unambiguous(p: Platform, d: Data, d': Data, after: Bytes, after': Bytes)
    requires Encodable(p, d) && Encodable(p, d') && Encode(p, d) + after == Encode(p, d') + after'
    ensures |Encode(p, d)| == |Encode(p, d')| && ToJs(p, d) == ToJs(p, d')
  {
    RoundTrip(p, d, [], after);
    RoundTrip(p, d', [], after');
    assert [] + Encode(p, d) == Encode(p, d) && [] + Encode(p, d') == Encode(p, d');
  }

  // ----- which maps survive whole -----

  function NameOf(p: Platform, entry: Entry): string {
    PropertyName(p, ToJs(p, entry.key))
  }

  /** Every entry is a property of its own, with its own value. */
  ghost predicate Whole(p: Platform, entries: seq<Entry>, props: map<string, Js>) {
    |props| == |entries|
    && forall i :: 0 <= i < |entries| ==> Property(props, NameOf(p, entries[i]), ToJs(p, entries[i].value))
  }

  predicate Property(props: map<string, Js>, name: string, value: Js) {
    name in props && props[name] == value
  }

  ghost predicate NamesDiffer(p: Platform, entries: seq<Entry>) {
    forall i, j :: 0 <= i < j < |entries| ==> NameOf(p, entries[i]) != NameOf(p, entries[j])
  }

  ghost predicate NoProto(p: Platform, entries: seq<Entry>) {
    forall i :: 0 <= i < |entries| ==> NameOf(p, entries[i]) != PROTO
  }

  /** Assigning entries with new names adds them all and leaves the rest alone. */
  lemma {:induction false} FreshEntriesStay(p: Platform, entries: seq<Entry>, o: Object)
    requires NamesDiffer(p, entries) && NoProto(p, entries) && o.proto.None?
    requires forall i :: 0 <= i < |entries| ==> NameOf(p, entries[i]) !in o.props
    ensures var r := AssignAll(p, entries, o).props;
            && |r| == |o.props| + |entries|
            && (forall name :: name in o.props ==> Property(r, name, o.props[name]))
            && (forall i :: 0 <= i < |entries| ==> Property(r, NameOf(p, entries[i]), ToJs(p, entries[i].value)))
    decreases |entries|
  {
    if entries != [] {
      var name := NameOf(p, entries[0]);
      var o' := o.(props := o.props[name := ToJs(p, entries[0].value)]);
      var rest := entries[1..];
      assert forall i :: 0 <= i < |rest| ==> rest[i] == entries[i + 1];
      assert o'.props.Keys == o.props.Keys + {name};
      FreshEntriesStay(p, rest, o');
      var r := AssignAll(p, entries, o).props;
      assert r == AssignAll(p, rest, o').props;
      assert Property(o'.props, name, ToJs(p, entries[0].value));
      forall i | 0 <= i < |entries| ensures Property(r, NameOf(p, entries[i]), ToJs(p, entries[i].value)) {
        if i > 0 {
          assert Property(r, NameOf(p, rest[i - 1]), ToJs(p, rest[i - 1].value));
        }
      }
      forall other | other in o.props ensures Property(r, other, o.props[other]) {
        assert Property(o'.props, other, o.props[other]);
      }
    }
  }

  lemma {:induction false} AtMostOneEach(p: Platform, entries: seq<Entry>, o: Object)
    ensures |AssignAll(p, entries, o).props| <= |o.props| + |entries|
    decreases |entries|
  {
    if entries != [] {
      PropsOfAssign(p, o, ToJs(p, entries[0].key), ToJs(p, entries[0].value));
      AtMostOneEach(p, entries[1..], Assign(p, o, ToJs(p, entries[0].key), ToJs(p, entries[0].value)));
    }
  }

  /** An assignment adds at most one property, and none under __proto__ or a name that is there. */
  lemma PropsOfAssign(p: Platform, o: Object, key: Js, value: Js)
    ensures var name, o' := PropertyName(p, key), Assign(p, o, key, value);
            && |o'.props| <= |o.props| + (if name == PROTO || name in o.props then 0 else 1)
            && o.props.Keys <= o'.props.Keys && (name in o'.props || |o'.props| == |o.props|)
  {
  }

  /** An entry whose name is already there or is __proto__ adds no property. */
  lemma {:induction false} SeenAddsNothing(p: Platform, entries: seq<Entry>, o: Object, i: nat)
    requires i < |entries| && (NameOf(p, entries[i]) in o.props || NameOf(p, entries[i]) == PROTO)
    ensures |AssignAll(p, entries, o).props| < |o.props| + |entries|
    decreases |entries|
  {
    var o' := Assign(p, o, ToJs(p, entries[0].key), ToJs(p, entries[0].value));
    PropsOfAssign(p, o, ToJs(p, entries[0].key), ToJs(p, entries[0].value));
    if i == 0 {
      AtMostOneEach(p, entries[1..], o');
    } else {
      SeenAddsNothing(p, entries[1..], o', i - 1);
    }
  }

  lemma {:induction false} RepeatAddsNothing(p: Platform, entries: seq<Entry>, o: Object, i: nat, j: nat)
    requires i < j < |entries| && NameOf(p, entries[i]) == NameOf(p, entries[j])
    ensures |AssignAll(p, entries, o).props| < |o.props| + |entries|
    decreases |entries|
  {
    var o' := Assign(p, o, ToJs(p, entries[0].key), ToJs(p, entries[0].value));
    PropsOfAssign(p, o, ToJs(p, entries[0].key), ToJs(p, entries[0].value));
    if i > 0 {
      RepeatAddsNothing(p, entries[1..], o', i - 1, j - 1);
    } else if NameOf(p, entries[0]) in o'.props {
      SeenAddsNothing(p, entries[1..], o', j - 1);
    } else {
      AtMostOneEach(p, entries[1..], o');
    }
  }

  /** A map survives whole exactly when its keys have different property names and none of them is __proto__. */
  lemma WholeIff(p: Platform, entries: seq<Entry>)
    ensures Whole(p, entries, AssignAll(p, entries, EMPTY).props) <==> NamesDiffer(p, entries) && NoProto(p, entries)
  {
    if NamesDiffer(p, entries) && NoProto(p, entries) {
      FreshEntriesStay(p, entries, EMPTY);
    } else if !NoProto(p, entries) {
      var i :| 0 <= i < |entries| && NameOf(p, entries[i]) == PROTO;
      SeenAddsNothing(p, entries, EMPTY, i);
    } else {
      var i, j :| 0 <= i < j < |entries| && NameOf(p, entries[i]) == NameOf(p, entries[j]);
      RepeatAddsNothing(p, entries, EMPTY, i, j);
    }
  }

  // ----- property names of integers -----

  function Parse(s: string): int {
    if s == "" then 0 else 10 * Parse(s[..|s| - 1]) + (s[|s| - 1] as int - '0' as int)
  }

  lemma {:induction false} ParseDigits(n: nat)
    ensures Parse(Digits(n)) == n && Digits(n) != "" && '0' <= Digits(n)[0] <= '9'
  {
    if n < 10 {
      assert Digits(n)[..0] == "";
    } else {
      ParseDigits(n / 10);
      assert Digits(n)[..|Digits(n)| - 1] == Digits(n / 10);
    }
  }

  lemma DecimalInjective(m: int, n: int)
    requires Decimal(m) == Decimal(n)
    ensures m == n
  {
    ParseDigits(if m < 0 then -m else m);
    ParseDigits(if n < 0 then -n else n);
    assert m < 0 ==> Decimal(m)[1..] == Digits(-m);
    assert n < 0 ==> Decimal(n)[1..] == Digits(-n);
  }

  lemma {:induction false} NoLeadingZero(n: nat)
    ensures n > 0 ==> '1' <= Digits(n)[0] <= '9'
  {
    if n >= 10 { NoLeadingZero(n / 10); }
  }

  /** The property name of a number key: a minus sign if it is negative, and its digits without leading zeros. */
  lemma DecimalReadsBack(p: Platform, n: int)
    ensures var name := PropertyName(p, Num(n));
            var digits := if n < 0 then name[1..] else name;
            && name != "" && (n < 0 ==> name[0] == '-') && digits != ""
            && Parse(digits) == (if n < 0 then -n else n) && (n != 0 ==> '1' <= digits[0] <= '9')
            && forall i :: 0 <= i < |digits| ==> '0' <= digits[i] <= '9'
  {
    var m := if n < 0 then -n else n;
    ParseDigits(m);
    NoLeadingZero(m);
    AllDigits(m);
    assert n < 0 ==> PropertyName(p, Num(n))[1..] == Digits(m);
  }

  lemma {:induction false} AllDigits(n: nat)
    ensures forall i :: 0 <= i < |Digits(n)| ==> '0' <= Digits(n)[i] <= '9'
  {
    if n >= 10 { AllDigits(n / 10); }
  }

  predicate IsPlainKey(key: Data) {
    key.Int? || key.TextString?
  }

  /** The same integer, the same text, or an integer and the text of its decimal form. */
  predicate Clash(a: Data, b: Data)
    requires IsPlainKey(a) && IsPlainKey(b)
  {
    if a.Int? && b.Int? then a.n == b.n
    else if a.TextString? && b.TextString? then a.text == b.text
    else if a.Int? then Decimal(a.n) == b.text
    else Decimal(b.n) == a.text
  }

  lemma ClashIff(p: Platform, a: Entry, b: Entry)
    requires IsPlainKey(a.key) && IsPlainKey(b.key)
    ensures NameOf(p, a) == NameOf(p, b) <==> Clash(a.key, b.key)
  {
    if a.key.Int? && b.key.Int? && NameOf(p, a) == NameOf(p, b) {
      DecimalInjective(a.key.n, b.key.n);
    }
  }

  lemma ProtoIff(p: Platform, a: Entry)
    requires IsPlainKey(a.key)
    ensures NameOf(p, a) == PROTO <==> a.key.TextString? && a.key.text == PROTO
  {
    if a.key.Int? {
      ParseDigits(if a.key.n < 0 then -a.key.n else a.key.n);
      assert PROTO[0] == '_';
    }
  }

  /**
   A map with integer and text keys decodes to an object with one property per entry exactly when no two
   keys clash and no key is the text __proto__.
  */
  lemma PlainMapSurvivesIff(p: Platform, w: Width, entries: seq<Entry>, after: Bytes)
    requires Encodable(p, Map(w, entries)) && forall i :: 0 <= i < |entries| ==> IsPlainKey(entries[i].key)
    ensures var r := DecodeItem(p, Encode(p, Map(w, entries)) + after, At(0));
            && r.Ok? && r.value.value.Obj? && r.value.offset == At(|Encode(p, Map(w, entries))|)
            && (Whole(p, entries, r.value.value.obj.props) <==>
                  (forall i :: 0 <= i < |entries| ==> entries[i].key != TextString(entries[i].key.w, PROTO))
                  && (forall i, j :: 0 <= i < j < |entries| ==> !Clash(entries[i].key, entries[j].key)))
  {
    var d := Map(w, entries);
    RoundTrip(p, d, [], after);
    assert [] + Encode(p, d) == Encode(p, d);
    WholeIff(p, entries);
    forall i | 0 <= i < |entries|
      ensures NameOf(p, entries[i]) == PROTO <==> entries[i].key == TextString(entries[i].key.w, PROTO)
    {
      ProtoIff(p, entries[i]);
    }
    forall i, j | 0 <= i < j < |entries|
      ensures NameOf(p, entries[i]) == NameOf(p, entries[j]) <==> Clash(entries[i].key, entries[j].key)
    {
      ClashIff(p, entries[i], entries[j]);
    }
  }

  /** A key that does not survive: a one-entry map decodes to an object without properties of its own. */
  lemma ProtoKeyIsLost(p: Platform, value: Data, entries: seq<Entry>)
    requires entries == [Entry(TextString(Direct, PROTO), value)] && Encodable(p, Map(Direct, entries))
    ensures var proto := ToJs(p, value);
            DecodeItem(p, Encode(p, Map(Direct, entries)), At(0)) ==
            Ok(Item(Obj(Object(map[], if IsObject(proto) then Some(proto) else None)),
                    At(|Encode(p, Map(Direct, entries))|)))
  {
    var d := Map(Direct, entries);
    RoundTrip(p, d, [], []);
    assert [] + Encode(p, d) + [] == Encode(p, d);
    var o := Assign(p, EMPTY, ToJs(p, entries[0].key), ToJs(p, value));
    assert AssignAll(p, entries, EMPTY) == AssignAll(p, entries[1..], o) == o;
  }

  /** And authenticator data that only such a key brings in is accepted: it is inherited. */
  lemma InheritsAuthData(p: Platform, inner: Entry, entries: seq<Entry>, data: Bytes)
    requires inner == Entry(TextString(Direct, "authData"), ByteString(Four, data))
    requires entries == [Entry(TextString(Direct, PROTO), Map(Direct, [inner]))] && Encodable(p, Map(Direct, entries))
    ensures AuthData(p, Encode(p, Map(Direct, entries))) == Ok(Buf(data))
  {
    var parent := ToJs(p, Map(Direct, [inner]));
    ProtoKeyIsLost(p, Map(Direct, [inner]), entries);
    var o := Assign(p, EMPTY, ToJs(p, inner.key), ToJs(p, inner.value));
    assert AssignAll(p, [inner], EMPTY) == AssignAll(p, [inner][1..], o) == o;
    assert parent == Obj(o) && Lookup(o, "authData") == Some(Buf(data));
  }

  /** The authenticator data is found wherever its entry stands in the map. */
  lemma ExtractsAuthData(p: Platform, w: Width, entries: seq<Entry>, k: nat, wk: Width, wv: Width, data: Bytes,
                         after: Bytes)
    requires Encodable(p, Map(w, entries)) && NamesDiffer(p, entries) && NoProto(p, entries)
    requires k < |entries| && entries[k] == Entry(TextString(wk, "authData"), ByteString(wv, data))
    ensures AuthData(p, Encode(p, Map(w, entries)) + after) == Ok(Buf(data))
  {
    var d := Map(w, entries);
    RoundTrip(p, d, [], after);
    assert [] + Encode(p, d) == Encode(p, d);
    FreshEntriesStay(p, entries, EMPTY);
    assert Property(AssignAll(p, entries, EMPTY).props, NameOf(p, entries[k]), ToJs(p, entries[k].value));
  }

  /** Exactly then: it is the value of the entry of that name, and neither 0 nor the empty text. */
  lemma AuthDataIff(p: Platform, w: Width, entries: seq<Entry>, after: Bytes, v: Js)
    requires Encodable(p, Map(w, entries)) && NamesDiffer(p, entries) && NoProto(p, entries)
    ensures var r := AuthData(p, Encode(p, Map(w, entries)) + after);
            && (r.Err? ==> r.error == NoAuthData)
            && (r == Ok(v) <==> v != Num(0) && v != Str("") && exists k :: IsEntry(p, entries, k, "authData", v))
  {
    var d := Map(w, entries);
    RoundTrip(p, d, [], after);
    assert [] + Encode(p, d) == Encode(p, d);
    PropertyIff(p, entries, "authData");
    var found := Lookup(AssignAll(p, entries, EMPTY), "authData");
    if found.Some? {
      var k :| IsEntry(p, entries, k, "authData", found.value);
      assert found.value != Undefined && found.value != NotANumber;
    }
  }

  predicate IsEntry(p: Platform, entries: seq<Entry>, k: int, name: string, v: Js) {
    0 <= k < |entries| && NameOf(p, entries[k]) == name && ToJs(p, entries[k].value) == v
  }

  lemma PropertyIff(p: Platform, entries: seq<Entry>, name: string)
    requires NamesDiffer(p, entries) && NoProto(p, entries)
    ensures var found := Lookup(AssignAll(p, entries, EMPTY), name);
            && (found.Some? ==> exists k :: IsEntry(p, entries, k, name, found.value))
            && (forall k, v :: IsEntry(p, entries, k, name, v) ==> found == Some(v))
  {
    var o := AssignAll(p, entries, EMPTY);
    FreshEntriesStay(p, entries, EMPTY);
    OwnNamesOnly(p, entries, EMPTY, name);
    forall k, v | IsEntry(p, entries, k, name, v) ensures Lookup(o, name) == Some(v) {
      assert Property(o.props, NameOf(p, entries[k]), ToJs(p, entries[k].value));
    }
    if name in o.props {
      var k :| 0 <= k < |entries| && NameOf(p, entries[k]) == name;
      assert IsEntry(p, entries, k, name, ToJs(p, entries[k].value));
    }
  }

  /** Entries bring in no other names, and leave an ordinary object's prototype alone unless one is __proto__. */
  lemma {:induction false} OwnNamesOnly(p: Platform, entries: seq<Entry>, o: Object, name: string)
    requires NoProto(p, entries)
    ensures AssignAll(p, entries, o).proto == o.proto
    ensures name in AssignAll(p, entries, o).props ==>
              name in o.props || exists k :: 0 <= k < |entries| && NameOf(p, entries[k]) == name
    decreases |entries|
  {
    if entries != [] {
      var rest := entries[1..];
      var o' := Assign(p, o, ToJs(p, entries[0].key), ToJs(p, entries[0].value));
      assert forall i :: 0 <= i < |rest| ==> rest[i] == entries[i + 1];
      assert NameOf(p, entries[0]) != PROTO;
      OwnNamesOnly(p, rest, o', name);
      if name in AssignAll(p, entries, o).props && name !in o'.props {
        var k :| 0 <= k < |rest| && NameOf(p, rest[k]) == name;
        assert NameOf(p, entries[k + 1]) == name;
      }
    }
  }

  /** What is no map has no authenticator data, and a failure to decode is passed on. */
  lemma AuthDataNeedsMap(p: Platform, d: Data, after: Bytes, buf: Bytes)
    requires Encodable(p, d) && !d.Map?
    ensures AuthData(p, Encode(p, d) + after) == Err(NoAuthData)
    ensures DecodeItem(p, buf, At(0)).Err? ==> AuthData(p, buf) == Err(DecodeItem(p, buf, At(0)).error)
  {
    RoundTrip(p, d, [], after);
    assert [] + Encode(p, d) == Encode(p, d);
  }

  // ----- prototypes -----

  /** The chain of prototypes, nearest first, as far as decoded values go. */
  function Chain(proto: Option<Js>): seq<Js>
    decreases proto
  {
    match proto
    case None => []
    case Some(Obj(o)) => [Obj(o)] + Chain(o.proto)
    case Some(v) => [v]
  }

  /** The n-th of the chain is an object with this property, and none before it is. */
  predicate FirstWith(chain: seq<Js>, name: string, n: nat) {
    && n < |chain| && chain[n].Obj? && name in chain[n].obj.props
    && forall m :: 0 <= m < n ==> chain[m].Obj? && name !in chain[m].obj.props
  }

  lemma ChainStep(x: Js, chain: seq<Js>, name: string, n: nat)
    requires x.Obj? && name !in x.obj.props
    ensures FirstWith([x] + chain, name, n + 1) <==> FirstWith(chain, name, n)
  {
    var longer := [x] + chain;
    assert forall m :: 0 <= m < |chain| ==> longer[m + 1] == chain[m];
    if FirstWith(chain, name, n) {
      forall m | 0 <= m < n + 1 ensures longer[m].Obj? && name !in longer[m].obj.props {
        assert m > 0 ==> longer[m] == chain[m - 1];
      }
    }
    if FirstWith(longer, name, n + 1) {
      forall m | 0 <= m < n ensures chain[m].Obj? && name !in chain[m].obj.props {
        assert longer[m + 1] == chain[m];
      }
    }
  }

  /** A property is found in the nearest object that has it, however far up the chain, and only there. */
  lemma {:induction false} LookupIs(o: Object, name: string) returns (n: nat)
    ensures var chain := [Obj(o)] + Chain(o.proto);
            if Lookup(o, name).Some? then
              FirstWith(chain, name, n) && Lookup(o, name) == Some(chain[n].obj.props[name])
            else forall m: nat :: !FirstWith(chain, name, m)
    decreases o
  {
    var above := Chain(o.proto);
    var chain := [Obj(o)] + above;
    n := 0;
    if name !in o.props {
      assert !FirstWith(chain, name, 0);
      if o.proto.Some? && o.proto.value.Obj? {
        var parent := o.proto.value.obj;
        n := LookupIs(parent, name);
        assert above == [Obj(parent)] + Chain(parent.proto);
        ChainStep(Obj(o), above, name, n);
        assert n < |above| ==> chain[n + 1] == above[n];
        n := n + 1;
      }
      forall m: nat | Lookup(o, name).None? ensures !FirstWith(chain, name, m) {
        if m > 0 {
          ChainStep(Obj(o), above, name, m - 1);
        }
      }
    }
  }

  /** An assignment under __proto__ sets the prototype, to objects only, and any other one property or nothing. */
  lemma AssignIs(p: Platform, o: Object, key: Js, value: Js)
    ensures var name, o' := PropertyName(p, key), Assign(p, o, key, value);
            if name == "__proto__" then
              && o'.props == o.props
              && o'.proto == if value.Buf? || value.List? || value.Obj? then Some(value) else o.proto
            else
              && o'.proto == o.proto
              && o'.props == if name in o.props || !Refuses(p, o.proto, name) then o.props[name := value] else o.props
  {
  }

  /** The last of the chain is a byte string that refuses the name, and no object before it has a property of it. */
  predicate RefusedAtEnd(p: Platform, chain: seq<Js>, name: string) {
    && chain != [] && chain[|chain| - 1].Buf? && p.refused(chain[|chain| - 1].bytes, name)
    && forall m :: 0 <= m < |chain| - 1 ==> chain[m].Obj? && name !in chain[m].obj.props
  }

  lemma EndStep(p: Platform, x: Js, chain: seq<Js>, name: string)
    requires x.Obj?
    ensures RefusedAtEnd(p, [x] + chain, name) <==> name !in x.obj.props && RefusedAtEnd(p, chain, name)
  {
    var longer := [x] + chain;
    assert forall m :: 0 <= m < |chain| ==> longer[m + 1] == chain[m];
    if chain == [] {
      assert longer[|longer| - 1] == x;
    } else if RefusedAtEnd(p, longer, name) {
      assert longer[0] == x && longer[0].Obj? && name !in longer[0].obj.props;
      forall m | 0 <= m < |chain| - 1 ensures chain[m].Obj? && name !in chain[m].obj.props {
        assert longer[m + 1] == chain[m];
      }
    } else if name !in x.obj.props && RefusedAtEnd(p, chain, name) {
      forall m | 0 <= m < |longer| - 1 ensures longer[m].Obj? && name !in longer[m].obj.props {
        assert m > 0 ==> longer[m] == chain[m - 1];
      }
    }
  }

  lemma {:induction false} RefusesIff(p: Platform, proto: Option<Js>, name: string)
    ensures Refuses(p, proto, name) <==> RefusedAtEnd(p, Chain(proto), name)
    decreases proto
  {
    if proto.Some? && proto.value.Obj? {
      RefusesIff(p, proto.value.obj.proto, name);
      EndStep(p, proto.value, Chain(proto.value.obj.proto), name);
    }
  }

  // ----- what does not decode -----

  /** Past the end, reserved lengths, lengths cut short and other major types are refused, each with its error. */
  lemma RefusedHeads(p: Platform, buf: Bytes, pos: nat)
    ensures
      var r := DecodeItem(p, buf, At(pos));
      if pos >= |buf| then r == Err(UnexpectedEnd)
      else
        var major, info, left := buf[pos] / 32, buf[pos] % 32, |buf| - pos - 1;
        && (info >= 28 ==> r == Err(UnsupportedInfo))
        && ((info == 25 && left < 2) || (info == 26 && left < 4) || (info == 27 && left < 8) ==> r == Err(OutOfRange))
        && (info <= 24 && major >= 6 ==> r == Err(UnsupportedMajorType))
        && (info == 24 && left == 0 ==>
              && (major == 0 ==> r == Ok(Item(Undefined, At(pos + 2))))
              && (major == 1 ==> r == Ok(Item(NotANumber, At(pos + 2))))
              && (major == 2 ==> r == Ok(Item(Buf([]), NaN)))
              && (major == 3 ==> r == Ok(Item(Str(p.decodeText([])), NaN)))
              && (major == 4 ==> r == Ok(Item(List([]), At(pos + 2))))
              && (major == 5 ==> r == Ok(Item(Obj(EMPTY), At(pos + 2)))))
  {
    if pos < |buf| {
      var major, info := buf[pos] / 32, buf[pos] % 32;
      if ReadArgument(buf, info, pos + 1).Ok? {
        var arg := ReadArgument(buf, info, pos + 1).value;
        assert DecodeItem(p, buf, At(pos)) == DecodeContent(p, buf, major, arg);
        assert DecodeArray(p, buf, At(arg.pos), 0, []) == Ok(Item(List([]), At(arg.pos)));
        assert DecodeMap(p, buf, At(arg.pos), 0, EMPTY) == Ok(Item(Obj(EMPTY), At(arg.pos)));
      }
    }
  }

  /** A string longer than what is left is cut off there, and its end lies past the buffer. */
  lemma CutString(p: Platform, w: Width, n: nat, bytes: Bytes, before: Bytes)
    requires n < Limit(w) && |bytes| < n
    ensures var buf := before + Head(2, w, n) + bytes;
            DecodeItem(p, buf, At(|before|)) == Ok(Item(Buf(bytes), At(|before| + |Head(2, w, n)| + n)))
  {
    var head := Head(2, w, n);
    var buf := before + head + bytes;
    forall i | 0 <= i < |head| ensures buf[|before| + i] == head[i] {
    }
    ArgumentIsUsed(p, buf, |before|, 2, w, n);
    assert buf[|before| + |head|..] == bytes;
  }

  // ----- where an offset is lost -----

  /** The buffer ends in the head of a string whose one-byte length is missing. */
  predicate EndsInStringHead(buf: Bytes) {
    |buf| > 0 && buf[|buf| - 1] % 32 == 24 && 2 <= buf[|buf| - 1] / 32 <= 3
  }

  ghost predicate LosesOffset(r: Result<Item>) {
    r.Ok? && r.value.offset.NaN?
  }

  lemma {:induction false} LostInItem(p: Platform, buf: Bytes, pos: nat)
    requires LosesOffset(DecodeItem(p, buf, At(pos)))
    ensures EndsInStringHead(buf)
    decreases Left(buf, At(pos)), 0, 0
  {
    var major := buf[pos] / 32;
    var arg := ReadArgument(buf, buf[pos] % 32, pos + 1).value;
    assert DecodeItem(p, buf, At(pos)) == DecodeContent(p, buf, major, arg);
    if major == 4 {
      LostInArray(p, buf, arg.pos, Count(arg.value), []);
    } else if major == 5 {
      LostInMap(p, buf, arg.pos, Count(arg.value), EMPTY);
    }
  }

  lemma {:induction false} LostInArray(p: Platform, buf: Bytes, pos: nat, count: nat, arr: seq<Js>)
    requires LosesOffset(DecodeArray(p, buf, At(pos), count, arr))
    ensures EndsInStringHead(buf)
    decreases Left(buf, At(pos)), 1, count
  {
    var item := DecodeItem(p, buf, At(pos)).value;
    if item.offset.NaN? {
      LostInItem(p, buf, pos);
    } else {
      LostInArray(p, buf, item.offset.n, count - 1, arr + [item.value]);
    }
  }

  lemma {:induction false} LostInMap(p: Platform, buf: Bytes, pos: nat, count: nat, o: Object)
    requires LosesOffset(DecodeMap(p, buf, At(pos), count, o))
    ensures EndsInStringHead(buf)
    decreases Left(buf, At(pos)), 2, count
  {
    var pair := DecodeEntry(p, buf, At(pos)).value;
    if pair.offset.NaN? {
      LostInEntry(p, buf, pos);
    } else {
      LostInMap(p, buf, pair.offset.n, count - 1, Assign(p, o, pair.key, pair.value));
    }
  }

  lemma {:induction false} LostInEntry(p: Platform, buf: Bytes, pos: nat)
    requires DecodeEntry(p, buf, At(pos)).Ok? && DecodeEntry(p, buf, At(pos)).value.offset.NaN?
    ensures EndsInStringHead(buf)
    decreases Left(buf, At(pos)), 1, 0
  {
    var key := DecodeItem(p, buf, At(pos)).value;
    if key.offset.NaN? {
      LostInItem(p, buf, pos);
    } else {
      LostInItem(p, buf, key.offset.n);
    }
  }

  /**
   Every successful item starts inside the buffer and, unless the buffer ends in a string head without its
   length, ends at a later offset; for a buffer that does end so, the last byte shows the loss.
  */
  lemma ProgressIff(p: Platform, buf: Bytes)
    ensures (forall pos: nat :: DecodeItem(p, buf, At(pos)).Ok? ==>
               pos < |buf| && DecodeItem(p, buf, At(pos)).value.offset.At?
                 && DecodeItem(p, buf, At(pos)).value.offset.n > pos)
        <==> !EndsInStringHead(buf)
  {
    if EndsInStringHead(buf) {
      assert LosesOffset(DecodeItem(p, buf, At(|buf| - 1)));
    } else {
      forall pos: nat | DecodeItem(p, buf, At(pos)).Ok?
        ensures pos < |buf| && DecodeItem(p, buf, At(pos)).value.offset.At?
                && DecodeItem(p, buf, At(pos)).value.offset.n > pos
      {
        if LosesOffset(DecodeItem(p, buf, At(pos))) {
          LostInItem(p, buf, pos);
        }
      }
    }
  }

  // ----- how much a buffer can decode to -----

  /** How many values a value holds, itself included. */
  ghost function Size(v: Js): nat
    decreases v, 0
  {
    1 + match v
        case List(items) => SizeAll(items)
        case Obj(o) => SizeOwn(o, o.props.Keys) + (if o.proto.Some? then Size(o.proto.value) else 0)
        case _ => 0
  }

  ghost function SizeAll(items: seq<Js>): nat
    decreases items, 0
  {
    if items == [] then 0 else Size(items[0]) + SizeAll(items[1..])
  }

  ghost function SizeOwn(o: Object, names: set<string>): nat
    requires names <= o.props.Keys
    decreases o, |names|
  {
    if names == {} then 0
    else
      var name :| name in names;
      Size(o.props[name]) + SizeOwn(o, names - {name})
  }

  lemma {:induction false} SizeAllAppend(items: seq<Js>, v: Js)
    ensures SizeAll(items + [v]) == SizeAll(items) + Size(v)
  {
    if items == [] {
      assert (items + [v])[1..] == [];
    } else {
      SizeAllAppend(items[1..], v);
      assert (items + [v])[1..] == items[1..] + [v];
    }
  }

  /** The names may be counted in any order. */
  lemma {:induction false} SizeOwnFirst(o: Object, names: set<string>, first: string)
    requires names <= o.props.Keys && first in names
    ensures SizeOwn(o, names) == Size(o.props[first]) + SizeOwn(o, names - {first})
    decreases |names|
  {
    var name :| name in names && SizeOwn(o, names) == Size(o.props[name]) + SizeOwn(o, names - {name});
    if name != first {
      SizeOwnFirst(o, names - {name}, first);
      SizeOwnFirst(o, names - {first}, name);
      assert names - {name} - {first} == names - {first} - {name};
    }
  }

  lemma {:induction false} SizeOwnSame(o: Object, o': Object, names: set<string>)
    requires names <= o.props.Keys && names <= o'.props.Keys
    requires forall name :: name in names ==> o.props[name] == o'.props[name]
    ensures SizeOwn(o, names) == SizeOwn(o', names)
    decreases |names|
  {
    if names != {} {
      var name :| name in names;
      SizeOwnFirst(o, names, name);
      SizeOwnFirst(o', names, name);
      SizeOwnSame(o, o', names - {name});
    }
  }

  lemma SizeOfProperty(o: Object, name: string, value: Js)
    ensures Size(Obj(o.(props := o.props[name := value]))) <= Size(Obj(o)) + Size(value)
  {
    var o' := o.(props := o.props[name := value]);
    var others := o.props.Keys - {name};
    assert o'.props.Keys - {name} == others;
    SizeOwnFirst(o', o'.props.Keys, name);
    SizeOwnSame(o, o', others);
    if name in o.props {
      SizeOwnFirst(o, o.props.Keys, name);
    } else {
      assert others == o.props.Keys;
    }
  }

  lemma SizeOfAssign(p: Platform, o: Object, key: Js, value: Js)
    ensures Size(Obj(Assign(p, o, key, value))) <= Size(Obj(o)) + Size(value)
  {
    var name := PropertyName(p, key);
    if name == PROTO {
      if IsObject(value) { SizeOwnSame(o, o.(proto := Some(value)), o.props.Keys); }
    } else {
      SizeOfProperty(o, name, value);
    }
  }

  /** Where an item ends, or the buffer does. */
  function EndIn(buf: Bytes, offset: nat): nat {
    if offset < |buf| then offset else |buf|
  }

  /** The item decoded at pos holds at most one value for each byte that is there up to its end. */
  ghost predicate Bounded(buf: Bytes, pos: nat, item: Item) {
    item.offset.At? ==> Size(item.value) <= EndIn(buf, item.offset.n) - pos
  }

  lemma {:induction false} ItemBounded(p: Platform, buf: Bytes, pos: nat)
    requires DecodeItem(p, buf, At(pos)).Ok?
    ensures Bounded(buf, pos, DecodeItem(p, buf, At(pos)).value)
    decreases Left(buf, At(pos)), 0, 0
  {
    var major, info := buf[pos] / 32, buf[pos] % 32;
    var arg := ReadArgument(buf, info, pos + 1).value;
    assert DecodeItem(p, buf, At(pos)) == DecodeContent(p, buf, major, arg);
    if major == 4 {
      ArrayBounded(p, buf, arg.pos, Count(arg.value), []);
      ArgumentInside(buf, info, pos + 1);
    } else if major == 5 {
      MapBounded(p, buf, arg.pos, Count(arg.value), EMPTY);
      ArgumentInside(buf, info, pos + 1);
    }
  }

  /** A count that was read lies inside the buffer. */
  lemma ArgumentInside(buf: Bytes, info: nat, pos: nat)
    requires pos <= |buf| && ReadArgument(buf, info, pos).Ok?
    ensures var arg := ReadArgument(buf, info, pos).value; arg.value.Some? ==> arg.pos <= |buf|
    ensures ReadArgument(buf, info, pos).value.value.None? ==> pos == |buf|
  {
  }

  lemma {:induction false} ArrayBounded(p: Platform, buf: Bytes, pos: nat, count: nat, arr: seq<Js>)
    requires DecodeArray(p, buf, At(pos), count, arr).Ok?
    ensures var item := DecodeArray(p, buf, At(pos), count, arr).value;
            item.offset.At? ==>
              item.value.List? && |item.value.items| == |arr| + count
              && SizeAll(item.value.items) <= SizeAll(arr) + (if count == 0 then 0 else EndIn(buf, item.offset.n) - pos)
    decreases Left(buf, At(pos)), 1, count
  {
    if count > 0 {
      var item := DecodeItem(p, buf, At(pos)).value;
      if item.offset.At? {
        ItemBounded(p, buf, pos);
        SizeAllAppend(arr, item.value);
        ArrayBounded(p, buf, item.offset.n, count - 1, arr + [item.value]);
      }
    }
  }

  lemma {:induction false} MapBounded(p: Platform, buf: Bytes, pos: nat, count: nat, o: Object)
    requires DecodeMap(p, buf, At(pos), count, o).Ok?
    ensures var item := DecodeMap(p, buf, At(pos), count, o).value;
            item.offset.At? ==>
              item.value.Obj?
              && Size(item.value) <= Size(Obj(o)) + (if count == 0 then 0 else EndIn(buf, item.offset.n) - pos)
    decreases Left(buf, At(pos)), 2, count
  {
    if count > 0 {
      var pair := DecodeEntry(p, buf, At(pos)).value;
      if pair.offset.At? {
        EntryBounded(p, buf, pos);
        SizeOfAssign(p, o, pair.key, pair.value);
        MapBounded(p, buf, pair.offset.n, count - 1, Assign(p, o, pair.key, pair.value));
      }
    }
  }

  lemma {:induction false} EntryBounded(p: Platform, buf: Bytes, pos: nat)
    requires DecodeEntry(p, buf, At(pos)).Ok? && DecodeEntry(p, buf, At(pos)).value.offset.At?
    ensures var pair := DecodeEntry(p, buf, At(pos)).value; Size(pair.value) <= EndIn(buf, pair.offset.n) - pos
    decreases Left(buf, At(pos)), 1, 0
  {
    var key := DecodeItem(p, buf, At(pos)).value;
    ItemBounded(p, buf, key.offset.n);
  }

  lemma {:induction false} SizeAllCounts(items: seq<Js>)
    ensures |items| <= SizeAll(items)
  {
    if items != [] { SizeAllCounts(items[1..]); }
  }

  lemma {:induction false} SizeOwnCounts(o: Object, names: set<string>)
    requires names <= o.props.Keys
    ensures |names| <= SizeOwn(o, names)
    decreases |names|
  {
    if names != {} {
      var name :| name in names;
      SizeOwnFirst(o, names, name);
      SizeOwnCounts(o, names - {name});
    }
  }

  /**
   While no offset is lost, all the values in what is decoded, however deep, are no more than the bytes that are
   there for it; so a list has fewer items and an object fewer properties than that.
  */
  lemma OutputBounded(p: Platform, buf: Bytes, pos: nat)
    requires DecodeItem(p, buf, At(pos)).Ok? && DecodeItem(p, buf, At(pos)).value.offset.At?
    ensures var item := DecodeItem(p, buf, At(pos)).value;
            && Size(item.value) <= EndIn(buf, item.offset.n) - pos <= |buf| - pos
            && (item.value.List? ==> |item.value.items| < Size(item.value))
            && (item.value.Obj? ==> |item.value.obj.props| < Size(item.value))
  {
    ItemBounded(p, buf, pos);
    var v := DecodeItem(p, buf, At(pos)).value.value;
    if v.List? {
      SizeAllCounts(v.items);
    } else if v.Obj? {
      SizeOwnCounts(v.obj, v.obj.props.Keys);
    }
  }

  function Zeros(n: nat): seq<Js> {
    if n == 0 then [] else [Num(0)] + Zeros(n - 1)
  }

  lemma {:induction false} NaNFills(p: Platform, buf: Bytes, count: nat, arr: seq<Js>)
    ensures DecodeArray(p, buf, NaN, count, arr) == Ok(Item(List(arr + Zeros(count)), NaN)) && |Zeros(count)| == count
    decreases count
  {
    if count == 0 {
      assert arr + [] == arr;
    } else {
      NaNFills(p, buf, count - 1, arr + [Num(0)]);
      assert arr + [Num(0)] + Zeros(count - 1) == arr + Zeros(count);
    }
  }

  /** After a loss there is no such bound: six bytes decode to a list of any length below 2^32. */
  lemma LossFillsList(p: Platform, n: nat)
    requires 0 < n < Limit(Four)
    ensures var buf := Head(4, Four, n) + [0x58];
            && |buf| == 6 && DecodeItem(p, buf, At(0)) == Ok(Item(List([Buf([])] + Zeros(n - 1)), NaN))
            && |[Buf([])] + Zeros(n - 1)| == n
  {
    var buf := Head(4, Four, n) + [0x58];
    ArgumentIsUsed(p, buf, 0, 4, Four, n);
    assert buf[5] == 0x58;
    assert ReadArgument(buf, 24, 6) == Ok(Argument(None, 7));
    assert DecodeItem(p, buf, At(5)) == Ok(Item(Buf([]), NaN));
    NaNFills(p, buf, n - 1, [] + [Buf([])]);
    assert [] + [Buf([])] == [Buf([])];
  }
}
