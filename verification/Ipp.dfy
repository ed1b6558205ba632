/**
 * IPP attribute encoding (agent/src/snmp/ipp.ts; section 3.1 of RFC 8010).
 *
 * Names and values are sequences of bytes; decoding them as UTF-8 text is not part of this model.
 */
module Ipp {
  import opened Wrappers

  type byte = x: int | 0 <= x < 256

  type Bytes = seq<byte>

  // ---- the parser ----

  function ReadUInt16BE(hi: byte, lo: byte): nat {
    hi * 256 + lo
  }

  predicate IsGroupTag(tag: byte) {
    0x01 <= tag <= 0x05
  }

  datatype Entry = Entry(name: Bytes, value: Bytes, after: Bytes)

  /** One attribute value at the front of `rest`, unless its lengths reach past the end. */
  function ReadEntry(rest: Bytes): (entry: Option<Entry>)
    ensures entry.Some? ==> |entry.value.after| < |rest|
  {
    if 5 > |rest| then None
    else
      var nameEnd := 3 + ReadUInt16BE(rest[1], rest[2]);
      if nameEnd + 2 > |rest| then None
      else
        var valueEnd := nameEnd + 2 + ReadUInt16BE(rest[nameEnd], rest[nameEnd + 1]);
        if valueEnd > |rest| then None
        else Some(Entry(rest[3..nameEnd], rest[nameEnd + 2..valueEnd], rest[valueEnd..]))
  }

  /** What the parser finds in the rest of a message. */
  function ParseRest(rest: Bytes, attrName: Bytes): Option<Bytes>
    decreases |rest|
  {
    if rest == [] then None
    else if IsGroupTag(rest[0]) then ParseRest(rest[1..], attrName)
    else
      match ReadEntry(rest)
      case None => None
      case Some(e) => if e.name == attrName then Some(e.value) else ParseRest(e.after, attrName)
  }

  /** The entry at index `i`, in terms of indices into the whole buffer. */
  lemma EntryAt(buf: Bytes, i: nat)
    requires i < |buf|
    ensures i + 5 > |buf| ==> ReadEntry(buf[i..]) == None
    ensures i + 5 <= |buf| ==>
              var nameEnd := i + 3 + ReadUInt16BE(buf[i + 1], buf[i + 2]);
              && (nameEnd + 2 > |buf| ==> ReadEntry(buf[i..]) == None)
              && (nameEnd + 2 <= |buf| ==>
                    var valueEnd := nameEnd + 2 + ReadUInt16BE(buf[nameEnd], buf[nameEnd + 1]);
                    && (valueEnd > |buf| ==> ReadEntry(buf[i..]) == None)
                    && (valueEnd <= |buf| ==>
                          ReadEntry(buf[i..]) == Some(Entry(buf[i + 3..nameEnd], buf[nameEnd + 2..valueEnd], buf[valueEnd..]))))
  {
    var rest := buf[i..];
    if i + 5 <= |buf| {
      assert rest[1] == buf[i + 1] && rest[2] == buf[i + 2];
      var nameEnd := i + 3 + ReadUInt16BE(buf[i + 1], buf[i + 2]);
      if nameEnd + 2 <= |buf| {
        assert rest[nameEnd - i] == buf[nameEnd] && rest[nameEnd - i + 1] == buf[nameEnd + 1];
        var valueEnd := nameEnd + 2 + ReadUInt16BE(buf[nameEnd], buf[nameEnd + 1]);
        if valueEnd <= |buf| {
          assert rest[3..nameEnd - i] == buf[i + 3..nameEnd];
          assert rest[nameEnd - i + 2..valueEnd - i] == buf[nameEnd + 2..valueEnd];
          assert rest[valueEnd - i..] == buf[valueEnd..];
        }
      }
    }
  }

  /** The index loop: on any bytes it stops, and it never reads outside the buffer. */
  method ParseIppAttr(buf: Bytes, attrName: Bytes) returns (value: Option<Bytes>)
    ensures value == if |buf| < 8 then None else ParseRest(buf[8..], attrName)
  {
    hide ReadEntry, ReadUInt16BE;
    var i := 8;
    while i < |buf|
      invariant |buf| >= 8 ==> i <= |buf| && ParseRest(buf[8..], attrName) == ParseRest(buf[i..], attrName)
      decreases |buf| - i
    {
      var tag := buf[i];
      if tag >= 0x01 && tag <= 0x05 {
        assert buf[i..][1..] == buf[i + 1..];
        i := i + 1;
        continue;
      }
      EntryAt(buf, i);
      if i + 5 > |buf| {
        break;
      }
      var nameLen := ReadUInt16BE(buf[i + 1], buf[i + 2]);
      var nameEnd := i + 3 + nameLen;
      if nameEnd + 2 > |buf| {
        break;
      }
      var name := buf[i + 3..nameEnd];
      var valueLen := ReadUInt16BE(buf[nameEnd], buf[nameEnd + 1]);
      var valueEnd := nameEnd + 2 + valueLen;
      if valueEnd > |buf| {
        break;
      }
      if name == attrName {
        return Some(buf[nameEnd + 2..valueEnd]);
      }
      i := valueEnd;
    }
    value := None;
  }

  // ---- the encoding ----

  /** A group delimiter, or one value of an attribute; further values of an attribute have no name. */
  datatype Item = Group(tag: byte) | Attr(tag: byte, name: Bytes, value: Bytes)

  predicate WellFormed(item: Item) {
    match item
    case Group(tag) => IsGroupTag(tag)
    case Attr(tag, name, value) => !IsGroupTag(tag) && |name| < 0x1_0000 && |value| < 0x1_0000
  }

  /** Two bytes, as the builder writes them: what does not fit is cut off. */
  function U16(n: nat): Bytes {
    [(n / 256) % 256, n % 256]
  }

  function EncodeItem(item: Item): Bytes {
    match item
    case Group(tag) => [tag]
    case Attr(tag, name, value) => [tag] + U16(|name|) + name + U16(|value|) + value
  }

  function Encode(items: seq<Item>): Bytes {
    if items == [] then [] else EncodeItem(items[0]) + Encode(items[1..])
  }

  /** The first value given under a name. */
  function Find(items: seq<Item>, name: Bytes): Option<Bytes> {
    if items == [] then None
    else if items[0].Attr? && items[0].name == name then Some(items[0].value)
    else Find(items[1..], name)
  }

  const END_OF_ATTRIBUTES: byte := 0x03

  lemma U16Reads(n: nat)
    ensures ReadUInt16BE(U16(n)[0], U16(n)[1]) == n % 0x1_0000
  {
    var q := n / 0x1_0000;
    assert n / 256 == q * 256 + (n % 0x1_0000) / 256;
    assert n % 256 == (n % 0x1_0000) % 256;
  }

  /** An entry whose two length fields are known. */
  lemma EntryOfLengths(rest: Bytes, nameLen: nat, valueLen: nat)
    requires 5 + nameLen + valueLen <= |rest|
    requires ReadUInt16BE(rest[1], rest[2]) == nameLen
    requires ReadUInt16BE(rest[3 + nameLen], rest[4 + nameLen]) == valueLen
    ensures ReadEntry(rest) == Some(Entry(rest[3..3 + nameLen], rest[5 + nameLen..5 + nameLen + valueLen], rest[5 + nameLen + valueLen..]))
  {
  }

  /** Where the parts of an encoded attribute are. */
  lemma Layout(tag: byte, n: Bytes, name: Bytes, v: Bytes, value: Bytes, tail: Bytes)
    requires |n| == |v| == 2
    ensures var rest := [tag] + n + name + v + value + tail;
            && rest[1] == n[0] && rest[2] == n[1]
            && rest[3..3 + |name|] == name
            && rest[3 + |name|] == v[0] && rest[4 + |name|] == v[1]
            && rest[5 + |name|..] == value + tail
  {
  }

  lemma Halves(rest: Bytes, at: nat, kept: nat, value: Bytes, tail: Bytes)
    requires at <= |rest| && rest[at..] == value + tail && kept <= |value|
    ensures at + kept <= |rest| && rest[at..at + kept] == value[..kept]
    ensures kept == |value| ==> rest[at + kept..] == tail
  {
    assert rest[at..at + kept] == rest[at..][..kept];
    assert rest[at + kept..] == rest[at..][kept..];
  }

  /** Reading back one encoded attribute; its value is cut to what the length field can say. */
  lemma EntryOfAttr(a: Item, tail: Bytes)
    requires a.Attr? && |a.name| < 0x1_0000
    ensures var e := ReadEntry(EncodeItem(a) + tail);
            && e.Some? && e.value.name == a.name && e.value.value == a.value[..|a.value| % 0x1_0000]
            && (|a.value| < 0x1_0000 ==> e.value.after == tail)
  {
    var rest := EncodeItem(a) + tail;
    var kept := |a.value| % 0x1_0000;
    U16Reads(|a.name|);
    U16Reads(|a.value|);
    Layout(a.tag, U16(|a.name|), a.name, U16(|a.value|), a.value, tail);
    Halves(rest, 5 + |a.name|, kept, a.value, tail);
    EntryOfLengths(rest, |a.name|, kept);
  }

  /** One attribute in front of anything else is found, or passed over. */
  lemma AttrAtFront(a: Item, tail: Bytes, attrName: Bytes)
    requires a.Attr? && !IsGroupTag(a.tag) && |a.name| < 0x1_0000
    ensures attrName == a.name ==> ParseRest(EncodeItem(a) + tail, attrName) == Some(a.value[..|a.value| % 0x1_0000])
    ensures attrName != a.name && |a.value| < 0x1_0000 ==>
              ParseRest(EncodeItem(a) + tail, attrName) == ParseRest(tail, attrName)
  {
    EntryOfAttr(a, tail);
    assert (EncodeItem(a) + tail)[0] == a.tag;
  }

  /**
   * Parsing an encoded list gives the first value of the name, and goes on into whatever follows when
   * the name is not there.
   */
  lemma {:induction false} ParseOfEncode(items: seq<Item>, tail: Bytes, attrName: Bytes)
    requires forall i | 0 <= i < |items| :: WellFormed(items[i])
    ensures ParseRest(Encode(items) + tail, attrName)
            == if Find(items, attrName).Some? then Find(items, attrName) else ParseRest(tail, attrName)
    decreases |items|
  {
    if items == [] {
      assert Encode(items) + tail == tail;
    } else {
      var more := Encode(items[1..]) + tail;
      assert Encode(items) + tail == EncodeItem(items[0]) + more;
      ParseOfEncode(items[1..], tail, attrName);
      ItemAtFront(items[0], more, attrName);
    }
  }

  lemma ItemAtFront(item: Item, more: Bytes, attrName: Bytes)
    requires WellFormed(item)
    ensures ParseRest(EncodeItem(item) + more, attrName)
            == if item.Attr? && item.name == attrName then Some(item.value) else ParseRest(more, attrName)
  {
    hide ReadEntry, U16, IsGroupTag;
    if item.Group? {
      assert ([item.tag] + more)[1..] == more;
    } else {
      AttrAtFront(item, more, attrName);
      assert item.value[..|item.value|] == item.value;
    }
  }

  /** The round trip, for a message that ends where its end tag says. */
  lemma RoundTrip(header: Bytes, items: seq<Item>, attrName: Bytes)
    requires |header| == 8 && forall i | 0 <= i < |items| :: WellFormed(items[i])
    ensures var buf := header + Encode(items) + [END_OF_ATTRIBUTES];
            ParseRest(buf[8..], attrName) == Find(items, attrName)
  {
    var buf := header + Encode(items) + [END_OF_ATTRIBUTES];
    assert buf[8..] == Encode(items) + [END_OF_ATTRIBUTES];
    ParseOfEncode(items, [END_OF_ATTRIBUTES], attrName);
    assert [END_OF_ATTRIBUTES][1..] == [];
  }

  /** The end tag does not end the search: with bytes after it, an absent name is looked for in them too. */
  lemma EndTagIsSkipped(items: seq<Item>, after: Bytes, attrName: Bytes)
    requires forall i | 0 <= i < |items| :: WellFormed(items[i])
    ensures ParseRest(Encode(items) + [END_OF_ATTRIBUTES] + after, attrName)
            == if Find(items, attrName).Some? then Find(items, attrName) else ParseRest(after, attrName)
    ensures ParseRest(Encode(items) + [END_OF_ATTRIBUTES] + after, attrName) == Find(items, attrName)
            <==> Find(items, attrName).Some? || ParseRest(after, attrName) == None
  {
    hide ReadEntry, Encode, Find, WellFormed;
    var tail := [END_OF_ATTRIBUTES] + after;
    assert Encode(items) + [END_OF_ATTRIBUTES] + after == Encode(items) + tail;
    ParseOfEncode(items, tail, attrName);
    assert tail[1..] == after;
  }

  /** Lengths are in network order, the high byte first. */
  lemma HighByteFirst(high: byte, low: byte)
    ensures ReadUInt16BE(high, low) == 256 * high + low
    ensures U16(256 * high + low) == [high, low]
  {
  }

  // ---- the request builder ----

  /** The characters of the source's literals are all single bytes. */
  function Enc(s: string): (b: Bytes)
    ensures |b| == |s|
  {
    seq(|s|, i requires 0 <= i < |s| => s[i] as int % 256)
  }

  const HEADER: Bytes := [0x01, 0x01, 0x00, 0x0b, 0x00, 0x00, 0x00, 0x01]

  const REQUESTED: seq<string> := ["printer-name", "printer-make-and-model", "printer-info", "printer-serial-number"]

  function Keywords(attrs: seq<string>, first: bool): seq<Item> {
    if attrs == [] then []
    else [Attr(0x44, if first then Enc("requested-attributes") else [], Enc(attrs[0]))] + Keywords(attrs[1..], false)
  }

  const FRONT: seq<Item> :=
    [Group(0x01),
     Attr(0x47, Enc("attributes-charset"), Enc("utf-8")),
     Attr(0x48, Enc("attributes-natural-language"), Enc("en-us"))]

  /** The Get-Printer-Attributes request as a list of attributes. */
  function RequestItems(uri: Bytes): seq<Item> {
    FRONT + ([Attr(0x45, Enc("printer-uri"), uri)] + Keywords(REQUESTED, true))
  }

  function Concat(parts: seq<Bytes>): Bytes {
    if parts == [] then [] else parts[0] + Concat(parts[1..])
  }

  lemma {:induction false} ConcatJoin(p: seq<Bytes>, q: seq<Bytes>)
    ensures Concat(p + q) == Concat(p) + Concat(q)
    decreases |p|
  {
    if p == [] {
      assert p + q == q;
    } else {
      assert (p + q)[1..] == p[1..] + q;
      ConcatJoin(p[1..], q);
    }
  }

  lemma {:induction false} EncodeJoin(a: seq<Item>, b: seq<Item>)
    ensures Encode(a + b) == Encode(a) + Encode(b)
    decreases |a|
  {
    if a == [] {
      assert a + b == b;
    } else {
      assert (a + b)[1..] == a[1..] + b;
      EncodeJoin(a[1..], b);
    }
  }

  /** The parts of one attribute, as the builder pushes them. */
  function AttrParts(tag: byte, name: Bytes, value: Bytes): seq<Bytes> {
    [[tag], U16(|name|), name, U16(|value|), value]
  }

  lemma PartsAreItem(tag: byte, name: Bytes, value: Bytes)
    ensures Concat(AttrParts(tag, name, value)) == EncodeItem(Attr(tag, name, value))
  {
    hide U16;
    var p := AttrParts(tag, name, value);
    assert p == [p[0]] + ([p[1]] + ([p[2]] + ([p[3]] + [p[4]])));
    ConcatJoin([p[0]], [p[1]] + ([p[2]] + ([p[3]] + [p[4]])));
    ConcatJoin([p[1]], [p[2]] + ([p[3]] + [p[4]]));
    ConcatJoin([p[2]], [p[3]] + [p[4]]);
    ConcatJoin([p[3]], [p[4]]);
    forall b: Bytes ensures Concat([b]) == b { ConcatOne(b); }
  }

  lemma ConcatOne(b: Bytes)
    ensures Concat([b]) == b
  {
    assert [b][1..] == [];
  }

  /** Pushing an attribute's parts appends its encoding. */
  lemma PushItem(parts: seq<Bytes>, items: seq<Item>, tag: byte, name: Bytes, value: Bytes)
    requires Concat(parts) == HEADER + Encode(items)
    ensures Concat(parts + AttrParts(tag, name, value)) == HEADER + Encode(items + [Attr(tag, name, value)])
  {
    hide Concat, Encode, AttrParts, EncodeItem, HEADER;
    ConcatJoin(parts, AttrParts(tag, name, value));
    PartsAreItem(tag, name, value);
    EncodeJoin(items, [Attr(tag, name, value)]);
    EncodeOne(Attr(tag, name, value));
  }

  /** The first attribute of the request, byte by byte: tag, length 18, the name, length 5, the value. */
  lemma CharsetOnTheWire()
    ensures EncodeItem(Attr(0x47, Enc("attributes-charset"), Enc("utf-8")))
         == [0x47, 0x00, 0x12] + Enc("attributes-charset") + [0x00, 0x05] + Enc("utf-8")
  {
    HighByteFirst(0, 18);
    HighByteFirst(0, 5);
  }

  lemma EncodeOne(item: Item)
    ensures Encode([item]) == EncodeItem(item)
  {
    assert [item][1..] == [];
  }

  /** What is asked, in order: four keywords of one attribute, of which only the first carries its name. */
  lemma RequestAsksFor(uri: Bytes)
    ensures RequestItems(uri) ==
      [Group(0x01),
       Attr(0x47, Enc("attributes-charset"), Enc("utf-8")),
       Attr(0x48, Enc("attributes-natural-language"), Enc("en-us")),
       Attr(0x45, Enc("printer-uri"), uri),
       Attr(0x44, Enc("requested-attributes"), Enc("printer-name")),
       Attr(0x44, [], Enc("printer-make-and-model")),
       Attr(0x44, [], Enc("printer-info")),
       Attr(0x44, [], Enc("printer-serial-number"))]
  {
    hide Enc;
    assert REQUESTED[1..] == ["printer-make-and-model", "printer-info", "printer-serial-number"];
    assert REQUESTED[1..][1..] == ["printer-info", "printer-serial-number"];
    assert REQUESTED[1..][1..][1..] == ["printer-serial-number"];
    assert REQUESTED[1..][1..][1..][1..] == [];
  }

  method BuildIppRequest(uri: Bytes) returns (request: Bytes)
    ensures request == HEADER + Encode(RequestItems(uri)) + [END_OF_ATTRIBUTES]
    ensures |request| > 8 && request[..8] == [0x01, 0x01, 0x00, 0x0b, 0x00, 0x00, 0x00, 0x01] && request[|request| - 1] == 0x03
  {
    var parts: seq<Bytes> := [HEADER, [0x01]];
    ghost var items := [Group(0x01)];
    assert parts == [HEADER] + [[0x01]];
    ConcatOne(HEADER);
    ConcatOne([0x01]);
    ConcatJoin([HEADER], [[0x01]]);
    EncodeOne(Group(0x01));
    PushItem(parts, items, 0x47, Enc("attributes-charset"), Enc("utf-8"));
    parts := parts + AttrParts(0x47, Enc("attributes-charset"), Enc("utf-8"));
    items := items + [Attr(0x47, Enc("attributes-charset"), Enc("utf-8"))];
    PushItem(parts, items, 0x48, Enc("attributes-natural-language"), Enc("en-us"));
    parts := parts + AttrParts(0x48, Enc("attributes-natural-language"), Enc("en-us"));
    items := items + [Attr(0x48, Enc("attributes-natural-language"), Enc("en-us"))];
    PushItem(parts, items, 0x45, Enc("printer-uri"), uri);
    parts := parts + AttrParts(0x45, Enc("printer-uri"), uri);
    items := items + [Attr(0x45, Enc("printer-uri"), uri)];
    assert items + Keywords(REQUESTED, true) == RequestItems(uri);
    parts, items := PushKeywords(parts, items, uri);
    ConcatJoin(parts, [[END_OF_ATTRIBUTES]]);
    ConcatOne([END_OF_ATTRIBUTES]);
    request := Concat(parts + [[END_OF_ATTRIBUTES]]);
  }

  /** The forEach over the requested attributes: only the first entry carries the name. */
  method PushKeywords(parts0: seq<Bytes>, ghost items0: seq<Item>, ghost uri: Bytes) returns (parts: seq<Bytes>, ghost items: seq<Item>)
    requires Concat(parts0) == HEADER + Encode(items0)
    requires items0 + Keywords(REQUESTED, true) == RequestItems(uri)
    ensures items == RequestItems(uri) && Concat(parts) == HEADER + Encode(items)
  {
    hide Concat, Encode, AttrParts, EncodeItem, HEADER, Enc;
    parts, items := parts0, items0;
    var i := 0;
    while i < |REQUESTED|
      invariant i <= |REQUESTED| && Concat(parts) == HEADER + Encode(items)
      invariant items + Keywords(REQUESTED[i..], i == 0) == RequestItems(uri)
    {
      var name := if i == 0 then Enc("requested-attributes") else [];
      PushItem(parts, items, 0x44, name, Enc(REQUESTED[i]));
      parts := parts + AttrParts(0x44, name, Enc(REQUESTED[i]));
      assert REQUESTED[i..][1..] == REQUESTED[i + 1..];
      assert items + Keywords(REQUESTED[i..], i == 0)
             == items + [Attr(0x44, name, Enc(REQUESTED[i]))] + Keywords(REQUESTED[i + 1..], false);
      items := items + [Attr(0x44, name, Enc(REQUESTED[i]))];
      i := i + 1;
    }
  }

  lemma FrontLacksUri()
    ensures Find(FRONT, Enc("printer-uri")) == None && forall i | 0 <= i < |FRONT| :: WellFormed(FRONT[i])
  {
    assert FRONT[1..][0] == FRONT[1] && FRONT[1..][1..][0] == FRONT[2] && FRONT[1..][1..][1..] == [];
  }

  /** Behind attributes of other names, a value of any length comes back cut to its length field. */
  lemma CarriedValue(front: seq<Item>, carrier: Item, after: seq<Item>)
    requires carrier.Attr? && !IsGroupTag(carrier.tag) && |carrier.name| < 0x1_0000
    requires Find(front, carrier.name) == None && forall i | 0 <= i < |front| :: WellFormed(front[i])
    ensures ParseRest(Encode(front + ([carrier] + after)) + [END_OF_ATTRIBUTES], carrier.name)
            == Some(carrier.value[..|carrier.value| % 0x1_0000])
  {
    var tail := Encode(after) + [END_OF_ATTRIBUTES];
    EncodeJoin(front, [carrier] + after);
    EncodeJoin([carrier], after);
    EncodeOne(carrier);
    Regroup(Encode(front), EncodeItem(carrier), Encode(after), [END_OF_ATTRIBUTES]);
    ParseOfEncode(front, EncodeItem(carrier) + tail, carrier.name);
    AttrAtFront(carrier, tail, carrier.name);
  }

  lemma Regroup(a: Bytes, b: Bytes, c: Bytes, d: Bytes)
    ensures a + (b + c) + d == a + (b + (c + d))
  {
  }

  lemma CutIsWhole(value: Bytes)
    ensures value[..|value| % 0x1_0000] == value <==> |value| < 0x1_0000
  {
    assert |value| < 0x1_0000 ==> value[..|value|] == value;
  }

  lemma BodyOfMessage(header: Bytes, encoded: Bytes)
    requires |header| == 8
    ensures (header + encoded + [END_OF_ATTRIBUTES])[8..] == encoded + [END_OF_ATTRIBUTES]
  {
  }

  /** The request carries its own URI back exactly when the URI fits a length field. */
  lemma RequestCarriesUri(uri: Bytes)
    ensures var found := ParseRest((HEADER + Encode(RequestItems(uri)) + [END_OF_ATTRIBUTES])[8..], Enc("printer-uri"));
            && found == Some(uri[..|uri| % 0x1_0000])
            && (found == Some(uri) <==> |uri| < 0x1_0000)
  {
    BodyOfMessage(HEADER, Encode(RequestItems(uri)));
    FrontLacksUri();
    CarriedValue(FRONT, Attr(0x45, Enc("printer-uri"), uri), Keywords(REQUESTED, true));
    CutIsWhole(uri);
  }
}
