/** Inscriptions, the tags of their fields, and the reveal script that carries them. */
module Inscriptions {
  import opened Wrappers
  import opened Sequences
  import opened Bytes
  import opened Scripts

  datatype Inscription = Inscription(
    body: Option<seq<Byte>>,
    contentEncoding: Option<seq<Byte>>,
    contentType: Option<seq<Byte>>,
    delegate: Option<seq<Byte>>,
    duplicateField: bool,
    incompleteField: bool,
    metadata: Option<seq<Byte>>,
    metaprotocol: Option<seq<Byte>>,
    parents: seq<seq<Byte>>,
    pointer: Option<seq<Byte>>,
    dune: Option<seq<Byte>>,
    unrecognizedEvenField: bool)

  datatype Tag = Pointer | ContentType | Parent | Metadata | Metaprotocol | ContentEncoding | Delegate | Dune
  {
    function Number(): Byte {
      match this
      case Pointer => 2
      case ContentType => 1
      case Parent => 3
      case Metadata => 5
      case Metaprotocol => 7
      case ContentEncoding => 9
      case Delegate => 11
      case Dune => 13
    }

    function Bytes(): seq<Byte> {
      [Number()]
    }

    predicate Chunked() {
      Metadata?
    }
  }

  const MAX_SCRIPT_ELEMENT_SIZE: nat := 520
  /** The letters "ord". */
  const PROTOCOL_ID: seq<Byte> := [0x6f, 0x72, 0x64]
  const BODY_TAG: seq<Byte> := []

  // --------------------------------------------------------------- printing

  /** The values a field is pushed as: metadata is cut into pieces, other values stay whole. */
  function Pieces(tag: Tag, value: Option<seq<Byte>>): seq<seq<Byte>> {
    match value
    case None => []
    case Some(v) => if tag.Chunked() then Chunks(v, MAX_SCRIPT_ELEMENT_SIZE) else [v]
  }

  /** Each value preceded by the tag. */
  function Tagged(tag: Tag, values: seq<seq<Byte>>): seq<seq<Byte>> {
    if values == [] then [] else [tag.Bytes(), values[0]] + Tagged(tag, values[1..])
  }

  function BodyPushes(body: Option<seq<Byte>>): seq<seq<Byte>> {
    match body
    case None => []
    case Some(b) => [BODY_TAG] + Chunks(b, MAX_SCRIPT_ELEMENT_SIZE)
  }

  /** The fields in the order they are written, followed by `end`. */
  function FieldsThen(i: Inscription, end: seq<seq<Byte>>): seq<seq<Byte>> {
    Tagged(ContentType, Pieces(ContentType, i.contentType))
    + (Tagged(ContentEncoding, Pieces(ContentEncoding, i.contentEncoding))
    + (Tagged(Metaprotocol, Pieces(Metaprotocol, i.metaprotocol))
    + (Tagged(Parent, i.parents)
    + (Tagged(Delegate, Pieces(Delegate, i.delegate))
    + (Tagged(Pointer, Pieces(Pointer, i.pointer))
    + (Tagged(Metadata, Pieces(Metadata, i.metadata))
    + (Tagged(Dune, Pieces(Dune, i.dune))
    + end)))))))
  }

  /** The pushes between the protocol marker and the end of an envelope. */
  function PayloadOf(i: Inscription): seq<seq<Byte>> {
    FieldsThen(i, BodyPushes(i.body))
  }

  function AsPushes(values: seq<seq<Byte>>): seq<Instruction> {
    if values == [] then [] else [Push(values[0])] + AsPushes(values[1..])
  }

  function RevealScript(i: Inscription): seq<Instruction> {
    [Push([]), Op(OP_IF), Push(PROTOCOL_ID)] + (AsPushes(PayloadOf(i)) + [Op(OP_ENDIF)])
  }

  function BatchRevealScript(inscriptions: seq<Inscription>): seq<Instruction> {
    if inscriptions == [] then [] else RevealScript(inscriptions[0]) + BatchRevealScript(inscriptions[1..])
  }

  // --------------------------------------------- the builder, step by step

  lemma {:induction false} AsPushesAppend(a: seq<seq<Byte>>, b: seq<seq<Byte>>)
    ensures AsPushes(a + b) == AsPushes(a) + AsPushes(b)
  {
    if a == [] {
      assert a + b == b;
    } else {
      AsPushesAppend(a[1..], b);
      assert (a + b)[1..] == a[1..] + b;
    }
  }

  lemma {:induction false} TaggedAppend(tag: Tag, a: seq<seq<Byte>>, v: seq<Byte>)
    ensures Tagged(tag, a + [v]) == Tagged(tag, a) + [tag.Bytes(), v]
  {
    if a == [] {
      assert [v][1..] == [];
    } else {
      TaggedAppend(tag, a[1..], v);
      assert (a + [v])[1..] == a[1..] + [v];
    }
  }

  method AppendArray(tag: Tag, builder: seq<Instruction>, values: seq<seq<Byte>>) returns (r: seq<Instruction>)
    ensures r == builder + AsPushes(Tagged(tag, values))
  {
    r := builder;
    for k := 0 to |values|
      invariant r == builder + AsPushes(Tagged(tag, values[..k]))
    {
      r := r + [Push(tag.Bytes()), Push(values[k])];
      TaggedAppend(tag, values[..k], values[k]);
      assert values[..k + 1] == values[..k] + [values[k]];
      AsPushesAppend(Tagged(tag, values[..k]), [tag.Bytes(), values[k]]);
      TwoPushes(tag.Bytes(), values[k]);
    }
    assert values[..|values|] == values;
  }

  lemma OnePush(a: seq<Byte>)
    ensures AsPushes([a]) == [Push(a)]
  {
    assert [a][1..] == [];
  }

  lemma TwoPushes(a: seq<Byte>, b: seq<Byte>)
    ensures AsPushes([a, b]) == [Push(a), Push(b)]
  {
    assert [a, b][1..] == [b];
    OnePush(b);
  }

  method Append(tag: Tag, builder: seq<Instruction>, value: Option<seq<Byte>>) returns (r: seq<Instruction>)
    ensures r == builder + AsPushes(Tagged(tag, Pieces(tag, value)))
  {
    r := builder;
    if value.Some? {
      if tag.Chunked() {
        r := AppendArray(tag, builder, Chunks(value.value, MAX_SCRIPT_ELEMENT_SIZE));
      } else {
        r := r + [Push(tag.Bytes()), Push(value.value)];
        TwoPushes(tag.Bytes(), value.value);
        assert [value.value][1..] == [];
      }
    }
  }

  method AppendPushes(builder: seq<Instruction>, values: seq<seq<Byte>>) returns (r: seq<Instruction>)
    ensures r == builder + AsPushes(values)
  {
    hide AsPushes;
    r := builder;
    NoPushes();
    for k := 0 to |values|
      invariant r == builder + AsPushes(values[..k])
    {
      r := r + [Push(values[k])];
      assert values[..k + 1] == values[..k] + [values[k]];
      AsPushesAppend(values[..k], [values[k]]);
      OnePush(values[k]);
    }
    assert values[..|values|] == values;
  }

  lemma NoPushes()
    ensures AsPushes([]) == []
  {
  }

  method AppendBody(builder: seq<Instruction>, body: Option<seq<Byte>>) returns (r: seq<Instruction>)
    ensures r == builder + AsPushes(BodyPushes(body))
  {
    hide AsPushes, Chunks;
    r := builder;
    NoPushes();
    if body.Some? {
      r := r + [Push(BODY_TAG)];
      var chunks: seq<seq<Byte>> := Chunks(body.value, MAX_SCRIPT_ELEMENT_SIZE);
      r := AppendPushes(r, chunks);
      AsPushesAppend([BODY_TAG], chunks);
      OnePush(BODY_TAG);
    }
  }

  /** Appending pushes one group after another appends their concatenation. */
  lemma PushesChain(start: seq<Instruction>, a: seq<seq<Byte>>, b: seq<seq<Byte>>)
    ensures (start + AsPushes(a)) + AsPushes(b) == start + AsPushes(a + b)
  {
    AsPushesAppend(a, b);
  }

  method AppendRevealScript(i: Inscription, builder: seq<Instruction>) returns (r: seq<Instruction>)
    ensures r == builder + RevealScript(i)
  {
    hide AsPushes, Tagged, Pieces, BodyPushes;
    var start := builder + [Push([]), Op(OP_IF), Push(PROTOCOL_ID)];
    ghost var groups := [
      Tagged(ContentType, Pieces(ContentType, i.contentType)), Tagged(ContentEncoding, Pieces(ContentEncoding, i.contentEncoding)),
      Tagged(Metaprotocol, Pieces(Metaprotocol, i.metaprotocol)), Tagged(Parent, i.parents),
      Tagged(Delegate, Pieces(Delegate, i.delegate)), Tagged(Pointer, Pieces(Pointer, i.pointer)),
      Tagged(Metadata, Pieces(Metadata, i.metadata)), Tagged(Dune, Pieces(Dune, i.dune)), BodyPushes(i.body)];
    r := Append(ContentType, start, i.contentType);
    r := Append(ContentEncoding, r, i.contentEncoding);
    r := Append(Metaprotocol, r, i.metaprotocol);
    r := AppendArray(Parent, r, i.parents);
    r := Append(Delegate, r, i.delegate);
    r := Append(Pointer, r, i.pointer);
    r := Append(Metadata, r, i.metadata);
    r := Append(Dune, r, i.dune);
    r := AppendBody(r, i.body);
    GroupsInOrder(start, groups[0], groups[1], groups[2], groups[3], groups[4], groups[5], groups[6], groups[7], groups[8]);
    r := r + [Op(OP_ENDIF)];
  }

  lemma GroupsInOrder(start: seq<Instruction>, a: seq<seq<Byte>>, b: seq<seq<Byte>>, c: seq<seq<Byte>>, d: seq<seq<Byte>>,
                      e: seq<seq<Byte>>, f: seq<seq<Byte>>, g: seq<seq<Byte>>, h: seq<seq<Byte>>, k: seq<seq<Byte>>)
    ensures start + AsPushes(a) + AsPushes(b) + AsPushes(c) + AsPushes(d) + AsPushes(e) + AsPushes(f) + AsPushes(g) + AsPushes(h) + AsPushes(k)
         == start + AsPushes(a + (b + (c + (d + (e + (f + (g + (h + k))))))))
  {
    hide AsPushes;
    PushesChain(start + AsPushes(a) + AsPushes(b) + AsPushes(c) + AsPushes(d) + AsPushes(e) + AsPushes(f) + AsPushes(g), h, k);
    PushesChain(start + AsPushes(a) + AsPushes(b) + AsPushes(c) + AsPushes(d) + AsPushes(e) + AsPushes(f), g, h + k);
    PushesChain(start + AsPushes(a) + AsPushes(b) + AsPushes(c) + AsPushes(d) + AsPushes(e), f, g + (h + k));
    PushesChain(start + AsPushes(a) + AsPushes(b) + AsPushes(c) + AsPushes(d), e, f + (g + (h + k)));
    PushesChain(start + AsPushes(a) + AsPushes(b) + AsPushes(c), d, e + (f + (g + (h + k))));
    PushesChain(start + AsPushes(a) + AsPushes(b), c, d + (e + (f + (g + (h + k)))));
    PushesChain(start + AsPushes(a), b, c + (d + (e + (f + (g + (h + k))))));
    PushesChain(start, a, b + (c + (d + (e + (f + (g + (h + k)))))));
  }

  method AppendBatchRevealScript(inscriptions: seq<Inscription>, builder: seq<Instruction>) returns (r: seq<Instruction>)
    ensures r == builder + BatchRevealScript(inscriptions)
  {
    hide RevealScript;
    r := builder;
    for k := 0 to |inscriptions|
      invariant r == builder + BatchRevealScript(inscriptions[..k])
    {
      r := AppendRevealScript(inscriptions[k], r);
      BatchAppend(inscriptions[..k], inscriptions[k]);
      assert inscriptions[..k + 1] == inscriptions[..k] + [inscriptions[k]];
    }
    assert inscriptions[..|inscriptions|] == inscriptions;
  }

  lemma {:induction false} BatchAppend(a: seq<Inscription>, i: Inscription)
    ensures BatchRevealScript(a + [i]) == BatchRevealScript(a) + RevealScript(i)
  {
    hide RevealScript;
    if a == [] {
      assert [i][1..] == [];
    } else {
      BatchAppend(a[1..], i);
      assert (a + [i])[1..] == a[1..] + [i];
    }
  }

  // ------------------------------------------------------- pointer values

  /** The little-endian bytes of a pointer without the zeros at the end. */
  function PointerValue(pointer: nat): seq<Byte> {
    if pointer == 0 then [] else [pointer % 256] + PointerValue(pointer / 256)
  }

  lemma {:induction false} Stripped(n: nat, width: nat)
    requires n < Range(width)
    ensures |PointerValue(n)| <= width
    ensures PointerValue(n) == ToLittleEndian(n, width)[..|PointerValue(n)|]
    ensures forall k :: |PointerValue(n)| <= k < width ==> ToLittleEndian(n, width)[k] == 0
    ensures PointerValue(n) != [] ==> PointerValue(n)[|PointerValue(n)| - 1] != 0
  {
    if width > 0 {
      Stripped(n / 256, width - 1);
      var rest, whole := ToLittleEndian(n / 256, width - 1), ToLittleEndian(n, width);
      assert forall k :: 0 < k < width ==> whole[k] == rest[k - 1];
    }
  }

  method MakePointerValue(pointer: nat) returns (bytes: seq<Byte>)
    requires pointer < U64
    ensures bytes == PointerValue(pointer)
  {
    hide PointerValue, ToLittleEndian, Range;
    Ranges();
    Stripped(pointer, 8);
    var whole := ToLittleEndian(pointer, 8);
    bytes := whole;
    while |bytes| > 0 && bytes[|bytes| - 1] == 0
      invariant |PointerValue(pointer)| <= |bytes| <= 8 && bytes == whole[..|bytes|]
    {
      bytes := bytes[..|bytes| - 1];
    }
  }

  /** Bytes beyond the eighth have to be zero; missing ones count as zero. */
  function PointerOf(i: Inscription): Option<nat> {
    match i.pointer
    case None => None
    case Some(value) =>
      if exists k :: 8 <= k < |value| && value[k] != 0 then None
      else Some(FromLittleEndian(value[..if |value| < 8 then |value| else 8]))
  }

  lemma {:induction false} PointerValueBack(n: nat)
    ensures FromLittleEndian(PointerValue(n)) == n
  {
    if n > 0 {
      PointerValueBack(n / 256);
      assert PointerValue(n)[1..] == PointerValue(n / 256);
    }
  }

  /** A stored pointer reads back as the same number, in the fewest bytes. */
  lemma PointerRoundTrip(i: Inscription, pointer: nat)
    requires pointer < U64 && i.pointer == Some(PointerValue(pointer))
    ensures PointerOf(i) == Some(pointer)
    ensures |i.pointer.value| <= 8 && (i.pointer.value != [] ==> i.pointer.value[|i.pointer.value| - 1] != 0)
  {
    hide PointerValue, ToLittleEndian, FromLittleEndian, Range;
    Ranges();
    Stripped(pointer, 8);
    PointerValueBack(pointer);
    var v := i.pointer.value;
    assert v[..|v|] == v;
  }

  /** A pointer is the number of its bytes, low byte first, if that fits 64 bits, however many bytes there are. */
  lemma PointerOfIff(i: Inscription, pointer: nat)
    ensures PointerOf(i) == Some(pointer) <==>
              i.pointer.Some? && FromLittleEndian(i.pointer.value) == pointer && pointer < U64
  {
    hide FromLittleEndian, Range;
    if i.pointer.Some? {
      var v := i.pointer.value;
      var n := if |v| < 8 then |v| else 8;
      Ranges();
      LittleEndianBack(v[..n]);
      LittleEndianSplit(v, n);
      LittleEndianZeroIff(v[n..]);
      if |v| < 8 {
        assert v[..n] == v;
        RangeGrows(n, 8);
      } else {
        assert forall k :: 8 <= k < |v| ==> v[k] == v[8..][k - 8];
        HighPart(FromLittleEndian(v[8..]));
      }
    }
  }

  lemma HighPart(high: nat)
    ensures high > 0 ==> U64 * high >= U64
  {
  }

  lemma {:induction false} RangeGrows(a: nat, b: nat)
    requires a <= b
    ensures Range(a) <= Range(b)
  {
    if a < b {
      RangeGrows(a, b - 1);
    }
  }

  // ---------------------------------------------------------- order of fields

  /** The place of a tag in a script: type, encoding, protocol, parents, delegate, pointer, metadata, dune. */
  function Place(tag: seq<Byte>): nat {
    if tag == [1] then 1 else if tag == [9] then 2 else if tag == [7] then 3 else if tag == [3] then 4
    else if tag == [11] then 5 else if tag == [2] then 6 else if tag == [5] then 7 else if tag == [13] then 8
    else 9
  }

  /** Pairs of a known tag and a value, the tags in their order, none before the given place. */
  predicate Ordered(items: seq<seq<Byte>>, from: nat) {
    items == [] || (|items| >= 2 && from <= Place(items[0]) <= 8 && Ordered(items[2..], Place(items[0])))
  }

  lemma OrderedPair(tag: seq<Byte>, value: seq<Byte>, rest: seq<seq<Byte>>, from: nat)
    requires from <= Place(tag) <= 8 && Ordered(rest, Place(tag))
    ensures Ordered([tag, value] + rest, from)
  {
    assert ([tag, value] + rest)[2..] == rest;
  }

  lemma KnownPlace(tag: Tag)
    ensures Place(tag.Bytes()) <= 8
  {
  }

  lemma {:induction false} OrderedTagged(tag: Tag, values: seq<seq<Byte>>, rest: seq<seq<Byte>>, from: nat)
    requires from <= Place(tag.Bytes()) && Ordered(rest, Place(tag.Bytes()) + 1)
    ensures Ordered(Tagged(tag, values) + rest, from)
    decreases |values|
  {
    hide Ordered, Place, Tag.Bytes;
    if values == [] {
      assert Tagged(tag, values) + rest == rest;
      OrderedBelow(rest, Place(tag.Bytes()) + 1, from);
    } else {
      OrderedTagged(tag, values[1..], rest, Place(tag.Bytes()));
      KnownPlace(tag);
      OrderedPair(tag.Bytes(), values[0], Tagged(tag, values[1..]) + rest, from);
      Assoc([tag.Bytes(), values[0]], Tagged(tag, values[1..]), rest);
    }
  }

  lemma OrderedBelow(items: seq<seq<Byte>>, from: nat, lower: nat)
    requires Ordered(items, from) && lower <= from
    ensures Ordered(items, lower)
  {
  }

  /** The fields of an inscription are written in this order. */
  lemma FieldsInOrder(i: Inscription)
    ensures Ordered(FieldsThen(i, []), 1)
  {
    hide Tagged, Pieces, Ordered;
    var b8 := Tagged(Dune, Pieces(Dune, i.dune)) + [];
    var b7 := Tagged(Metadata, Pieces(Metadata, i.metadata)) + b8;
    var b6 := Tagged(Pointer, Pieces(Pointer, i.pointer)) + b7;
    var b5 := Tagged(Delegate, Pieces(Delegate, i.delegate)) + b6;
    var b4 := Tagged(Parent, i.parents) + b5;
    var b3 := Tagged(Metaprotocol, Pieces(Metaprotocol, i.metaprotocol)) + b4;
    var b2 := Tagged(ContentEncoding, Pieces(ContentEncoding, i.contentEncoding)) + b3;
    assert Ordered([], 9) by { NothingOrdered(); }
    OrderedTagged(Dune, Pieces(Dune, i.dune), [], 8);
    OrderedTagged(Metadata, Pieces(Metadata, i.metadata), b8, 7);
    OrderedTagged(Pointer, Pieces(Pointer, i.pointer), b7, 6);
    OrderedTagged(Delegate, Pieces(Delegate, i.delegate), b6, 5);
    OrderedTagged(Parent, i.parents, b5, 4);
    OrderedTagged(Metaprotocol, Pieces(Metaprotocol, i.metaprotocol), b4, 3);
    OrderedTagged(ContentEncoding, Pieces(ContentEncoding, i.contentEncoding), b3, 2);
    OrderedTagged(ContentType, Pieces(ContentType, i.contentType), b2, 1);
  }

  lemma NothingOrdered()
    ensures Ordered([], 9)
  {
  }
}
