/** What parsing an envelope means, and the round trip of the batch reveal script. */
module EnvelopeProperties {
  import opened Wrappers
  import opened Bytes
  import opened Sequences
  import opened Scripts
  import opened Inscriptions
  import opened Envelopes

  // ------------------------------------------- what the field map holds

  /** The values that a list of pairs gives to a key, in order. */
  function Values(items: seq<seq<Byte>>, key: seq<Byte>): seq<seq<Byte>>
    decreases |items|
  {
    if |items| < 2 then [] else (if items[0] == key then [items[1]] else []) + Values(items[2..], key)
  }

  function Held(fields: Fields, key: seq<Byte>): seq<seq<Byte>> {
    if key in fields then fields[key] else []
  }

  ghost predicate NoneEmpty(fields: Fields) {
    forall key :: key in fields ==> fields[key] != []
  }

  lemma AddMeans(fields: Fields, key: seq<Byte>, value: seq<Byte>, k: seq<Byte>)
    requires NoneEmpty(fields)
    ensures NoneEmpty(AddField(fields, key, value))
    ensures Held(AddField(fields, key, value), k) == Held(fields, k) + if k == key then [value] else []
  {
  }

  lemma {:induction false} CollectMeans(fields: Fields, items: seq<seq<Byte>>, k: seq<Byte>)
    requires NoneEmpty(fields)
    ensures NoneEmpty(Collect(fields, items).0)
    ensures Held(Collect(fields, items).0, k) == Held(fields, k) + Values(items, k)
    ensures Collect(fields, items).1 <==> |items| % 2 == 1
    decreases |items|
  {
    hide AddField, NoneEmpty, Held;
    if |items| >= 2 {
      var one := if k == items[0] then [items[1]] else [];
      AddMeans(fields, items[0], items[1], k);
      CollectMeans(AddField(fields, items[0], items[1]), items[2..], k);
      Assoc(Held(fields, k), one, Values(items[2..], k));
    } else {
      assert Held(fields, k) + [] == Held(fields, k);
    }
  }

  function FirstOf(values: seq<seq<Byte>>): Option<seq<Byte>> {
    if values == [] then None else Some(values[0])
  }

  function RestOf(values: seq<seq<Byte>>): seq<seq<Byte>> {
    if values == [] then [] else values[1..]
  }

  lemma TakeMeans(tag: Tag, fields: Fields)
    requires NoneEmpty(fields)
    ensures NoneEmpty(Take(tag, fields).1)
    ensures !tag.Chunked() ==> Take(tag, fields).0 == FirstOf(Held(fields, tag.Bytes()))
    ensures tag.Chunked() ==> Take(tag, fields).0 == if Held(fields, tag.Bytes()) == [] then None else Some(Flatten(Held(fields, tag.Bytes())))
    ensures forall k :: k != tag.Bytes() ==> Held(Take(tag, fields).1, k) == Held(fields, k)
    ensures Held(Take(tag, fields).1, tag.Bytes()) == if tag.Chunked() then [] else RestOf(Held(fields, tag.Bytes()))
  {
    hide Flatten;
  }

  lemma TakeArrayMeans(tag: Tag, fields: Fields)
    requires NoneEmpty(fields)
    ensures NoneEmpty(TakeArray(tag, fields).1)
    ensures TakeArray(tag, fields).0 == Held(fields, tag.Bytes())
    ensures forall k :: Held(TakeArray(tag, fields).1, k) == if k == tag.Bytes() then [] else Held(fields, k)
  {
  }

  /** What is left under a key when the known tags have been taken. */
  function Left(values: seq<seq<Byte>>, k: seq<Byte>): seq<seq<Byte>> {
    if k == Metadata.Bytes() || k == Parent.Bytes() then []
    else if k == ContentEncoding.Bytes() || k == ContentType.Bytes() || k == Delegate.Bytes() || k == Metaprotocol.Bytes()
         || k == Pointer.Bytes() || k == Dune.Bytes() then RestOf(values)
    else values
  }

  ghost predicate Dropped(before: Fields, after: Fields, tag: Tag, k: seq<Byte>) {
    Held(after, k) == if k != tag.Bytes() then Held(before, k) else if tag == Metadata || tag == Parent then [] else RestOf(Held(before, k))
  }

  lemma LeftAfter(f0: Fields, f1: Fields, f2: Fields, f3: Fields, f4: Fields, f5: Fields, f6: Fields, f7: Fields, f8: Fields, k: seq<Byte>)
    requires Dropped(f0, f1, ContentEncoding, k) && Dropped(f1, f2, ContentType, k) && Dropped(f2, f3, Delegate, k)
    requires Dropped(f3, f4, Metadata, k) && Dropped(f4, f5, Metaprotocol, k) && Dropped(f5, f6, Parent, k)
    requires Dropped(f6, f7, Pointer, k) && Dropped(f7, f8, Dune, k)
    ensures Held(f8, k) == Left(Held(f0, k), k)
  {
    hide Held, RestOf;
  }

  lemma TakeDrops(tag: Tag, fields: Fields, k: seq<Byte>)
    requires NoneEmpty(fields)
    ensures !tag.Parent? ==> NoneEmpty(Take(tag, fields).1) && Dropped(fields, Take(tag, fields).1, tag, k)
    ensures tag.Parent? ==> NoneEmpty(TakeArray(tag, fields).1) && Dropped(fields, TakeArray(tag, fields).1, tag, k)
  {
    hide Take, TakeArray, Held, NoneEmpty, Flatten, RestOf, FirstOf;
    TakeMeans(tag, fields);
    TakeArrayMeans(tag, fields);
  }

  /** The fields before each of the eight takes, and after the last. */
  function Stages(fields: Fields): (s: seq<Fields>)
    ensures |s| == 9
  {
    var f1 := Take(ContentEncoding, fields).1;
    var f2 := Take(ContentType, f1).1;
    var f3 := Take(Delegate, f2).1;
    var f4 := Take(Metadata, f3).1;
    var f5 := Take(Metaprotocol, f4).1;
    var f6 := TakeArray(Parent, f5).1;
    var f7 := Take(Pointer, f6).1;
    [fields, f1, f2, f3, f4, f5, f6, f7, Take(Dune, f7).1]
  }

  lemma AllDrop(fields: Fields, k: seq<Byte>)
    requires NoneEmpty(fields)
    ensures var s := Stages(fields);
            && Dropped(s[0], s[1], ContentEncoding, k) && Dropped(s[1], s[2], ContentType, k) && Dropped(s[2], s[3], Delegate, k)
            && Dropped(s[3], s[4], Metadata, k) && Dropped(s[4], s[5], Metaprotocol, k) && Dropped(s[5], s[6], Parent, k)
            && Dropped(s[6], s[7], Pointer, k) && Dropped(s[7], s[8], Dune, k)
            && forall i :: 0 <= i < 9 ==> NoneEmpty(s[i])
  {
    hide Take, TakeArray, Dropped, NoneEmpty;
    var s := Stages(fields);
    TakeDrops(ContentEncoding, s[0], k);
    TakeDrops(ContentType, s[1], k);
    TakeDrops(Delegate, s[2], k);
    TakeDrops(Metadata, s[3], k);
    TakeDrops(Metaprotocol, s[4], k);
    TakeDrops(Parent, s[5], k);
    TakeDrops(Pointer, s[6], k);
    TakeDrops(Dune, s[7], k);
  }

  lemma TakeAllLeaves(fields: Fields, k: seq<Byte>)
    requires NoneEmpty(fields)
    ensures NoneEmpty(TakeAll(fields).left) && Held(TakeAll(fields).left, k) == Left(Held(fields, k), k)
  {
    hide Take, TakeArray, Dropped, NoneEmpty, Held, Left;
    AllDrop(fields, k);
    var s := Stages(fields);
    LeftAfter(s[0], s[1], s[2], s[3], s[4], s[5], s[6], s[7], s[8], k);
  }

  /** A single value is the first one that its key had at the start. */
  lemma TakenFirst(fields: Fields, i: nat, tag: Tag)
    requires NoneEmpty(fields) && i < 8
    requires tag == [ContentEncoding, ContentType, Delegate, Metadata, Metaprotocol, Parent, Pointer, Dune][i]
    ensures NoneEmpty(Stages(fields)[i]) && Held(Stages(fields)[i], tag.Bytes()) == Held(fields, tag.Bytes())
  {
    hide Take, TakeArray, NoneEmpty, Held, Stages;
    assert Stages(fields)[0] == fields by { FirstStage(fields); }
    AllDrop(fields, tag.Bytes());
  }

  lemma FirstStage(fields: Fields)
    ensures Stages(fields)[0] == fields
  {
  }

  lemma TakeAllMeans(fields: Fields)
    requires NoneEmpty(fields)
    ensures var t := TakeAll(fields);
            && t.contentEncoding == FirstOf(Held(fields, ContentEncoding.Bytes()))
            && t.contentType == FirstOf(Held(fields, ContentType.Bytes()))
            && t.delegate == FirstOf(Held(fields, Delegate.Bytes()))
            && t.metaprotocol == FirstOf(Held(fields, Metaprotocol.Bytes()))
            && t.pointer == FirstOf(Held(fields, Pointer.Bytes()))
            && t.dune == FirstOf(Held(fields, Dune.Bytes()))
            && t.parents == Held(fields, Parent.Bytes())
            && t.metadata == (var v := Held(fields, Metadata.Bytes()); if v == [] then None else Some(Flatten(v)))
  {
    hide Take, TakeArray, Held, NoneEmpty, Flatten, FirstOf;
    var s := Stages(fields);
    TakenFirst(fields, 0, ContentEncoding);
    TakenFirst(fields, 1, ContentType);
    TakenFirst(fields, 2, Delegate);
    TakenFirst(fields, 3, Metadata);
    TakenFirst(fields, 4, Metaprotocol);
    TakenFirst(fields, 5, Parent);
    TakenFirst(fields, 6, Pointer);
    TakenFirst(fields, 7, Dune);
    TakeMeans(ContentEncoding, s[0]);
    TakeMeans(ContentType, s[1]);
    TakeMeans(Delegate, s[2]);
    TakeMeans(Metadata, s[3]);
    TakeMeans(Metaprotocol, s[4]);
    TakeArrayMeans(Parent, s[5]);
    TakeMeans(Pointer, s[6]);
    TakeMeans(Dune, s[7]);
  }

  /**
    What is parsed, whatever the payload: single fields have the first value
    of their tag, parents all of them, metadata their concatenation; the flags
    tell whether a key is repeated, a key has no value, or a value is left
    under an even tag.
   */
  lemma ParseMeans(payload: seq<seq<Byte>>)
    ensures var p, items := ParsePayload(payload), FieldItems(payload);
            && p.contentEncoding == FirstOf(Values(items, ContentEncoding.Bytes()))
            && p.contentType == FirstOf(Values(items, ContentType.Bytes()))
            && p.delegate == FirstOf(Values(items, Delegate.Bytes()))
            && p.metaprotocol == FirstOf(Values(items, Metaprotocol.Bytes()))
            && p.pointer == FirstOf(Values(items, Pointer.Bytes()))
            && p.dune == FirstOf(Values(items, Dune.Bytes()))
            && p.parents == Values(items, Parent.Bytes())
            && p.metadata == (var v := Values(items, Metadata.Bytes()); if v == [] then None else Some(Flatten(v)))
            && (p.incompleteField <==> |items| % 2 == 1)
            && (p.duplicateField <==> exists k :: |Values(items, k)| > 1)
            && (p.unrecognizedEvenField <==> exists k: seq<Byte> :: k != [] && k[0] % 2 == 0 && Left(Values(items, k), k) != [])
  {
    hide Collect, TakeAll, Values, FirstOf, Flatten, BodyOf, FieldItems, Left;
    var items := FieldItems(payload);
    var fields := Collect(map[], items).0;
    CollectMeans(map[], items, []);
    forall k ensures Held(fields, k) == Values(items, k) {
      CollectMeans(map[], items, k);
      assert [] + Values(items, k) == Values(items, k);
    }
    TakeAllMeans(fields);
    forall k ensures NoneEmpty(TakeAll(fields).left) && Held(TakeAll(fields).left, k) == Left(Values(items, k), k) {
      TakeAllLeaves(fields, k);
    }
    TakeAllLeaves(fields, []);
    RepeatedMeans(fields, items);
    EvenMeans(TakeAll(fields).left, items);
  }

  lemma RepeatedMeans(fields: Fields, items: seq<seq<Byte>>)
    requires forall k :: Held(fields, k) == Values(items, k)
    ensures AnyRepeated(fields) <==> exists k :: |Values(items, k)| > 1
  {
    hide Values;
    if AnyRepeated(fields) {
      var k :| k in fields && |fields[k]| > 1;
      assert Held(fields, k) == Values(items, k);
    }
    if k :| |Values(items, k)| > 1 {
      assert Held(fields, k) == Values(items, k);
    }
  }

  lemma EvenMeans(fields: Fields, items: seq<seq<Byte>>)
    requires NoneEmpty(fields) && forall k :: Held(fields, k) == Left(Values(items, k), k)
    ensures AnyEven(fields) <==> exists k: seq<Byte> :: k != [] && k[0] % 2 == 0 && Left(Values(items, k), k) != []
  {
    hide Values, Left;
    if AnyEven(fields) {
      var k :| k in fields && k != [] && k[0] % 2 == 0;
      assert Held(fields, k) == Left(Values(items, k), k);
    }
    if k: seq<Byte> :| k != [] && k[0] % 2 == 0 && Left(Values(items, k), k) != [] {
      assert Held(fields, k) == Left(Values(items, k), k);
    }
  }

  // ------------------------------------ parsing what an inscription prints

  lemma ValuesStep(items: seq<seq<Byte>>, k: seq<Byte>)
    requires |items| >= 2
    ensures Values(items, k) == (if items[0] == k then [items[1]] else []) + Values(items[2..], k)
  {
  }

  lemma {:induction false} ValuesTagged(tag: Tag, values: seq<seq<Byte>>, rest: seq<seq<Byte>>, k: seq<Byte>)
    ensures Values(Tagged(tag, values) + rest, k) == (if k == tag.Bytes() then values else []) + Values(rest, k)
  {
    hide Values;
    var items := Tagged(tag, values) + rest;
    if values == [] {
      assert items == rest;
    } else {
      ValuesTagged(tag, values[1..], rest, k);
      ValuesStep(items, k);
      assert items[2..] == Tagged(tag, values[1..]) + rest;
      Assoc([values[0]], values[1..], Values(rest, k));
      assert values == [values[0]] + values[1..];
    }
  }

  lemma {:induction false} BodyAtTagged(tag: Tag, values: seq<seq<Byte>>, rest: seq<seq<Byte>>)
    ensures |Tagged(tag, values)| == 2 * |values|
    ensures BodyAt(Tagged(tag, values) + rest) == Shift(|Tagged(tag, values)|, BodyAt(rest))
  {
    var items := Tagged(tag, values) + rest;
    if values == [] {
      assert items == rest;
    } else {
      BodyAtTagged(tag, values[1..], rest);
      assert items[2..] == Tagged(tag, values[1..]) + rest;
    }
  }

  lemma BodyAtFields(i: Inscription, end: seq<seq<Byte>>)
    ensures |FieldsThen(i, end)| >= |end| && (|FieldsThen(i, end)| - |end|) % 2 == 0
    ensures BodyAt(FieldsThen(i, end)) == Shift(|FieldsThen(i, end)| - |end|, BodyAt(end))
  {
    hide Tagged, BodyAt, Pieces;
    var a8 := Tagged(Dune, Pieces(Dune, i.dune)) + end;
    var a7 := Tagged(Metadata, Pieces(Metadata, i.metadata)) + a8;
    var a6 := Tagged(Pointer, Pieces(Pointer, i.pointer)) + a7;
    var a5 := Tagged(Delegate, Pieces(Delegate, i.delegate)) + a6;
    var a4 := Tagged(Parent, i.parents) + a5;
    var a3 := Tagged(Metaprotocol, Pieces(Metaprotocol, i.metaprotocol)) + a4;
    var a2 := Tagged(ContentEncoding, Pieces(ContentEncoding, i.contentEncoding)) + a3;
    BodyAtTagged(Dune, Pieces(Dune, i.dune), end);
    BodyAtTagged(Metadata, Pieces(Metadata, i.metadata), a8);
    BodyAtTagged(Pointer, Pieces(Pointer, i.pointer), a7);
    BodyAtTagged(Delegate, Pieces(Delegate, i.delegate), a6);
    BodyAtTagged(Parent, i.parents, a5);
    BodyAtTagged(Metaprotocol, Pieces(Metaprotocol, i.metaprotocol), a4);
    BodyAtTagged(ContentEncoding, Pieces(ContentEncoding, i.contentEncoding), a3);
    BodyAtTagged(ContentType, Pieces(ContentType, i.contentType), a2);
  }

  lemma FieldsSplit(i: Inscription, end: seq<seq<Byte>>)
    ensures FieldsThen(i, end) == FieldsThen(i, []) + end
  {
    hide Tagged, Pieces;
    var b8 := Tagged(Dune, Pieces(Dune, i.dune)) + [];
    var b7 := Tagged(Metadata, Pieces(Metadata, i.metadata)) + b8;
    var b6 := Tagged(Pointer, Pieces(Pointer, i.pointer)) + b7;
    var b5 := Tagged(Delegate, Pieces(Delegate, i.delegate)) + b6;
    var b4 := Tagged(Parent, i.parents) + b5;
    var b3 := Tagged(Metaprotocol, Pieces(Metaprotocol, i.metaprotocol)) + b4;
    var b2 := Tagged(ContentEncoding, Pieces(ContentEncoding, i.contentEncoding)) + b3;
    assert b8 == Tagged(Dune, Pieces(Dune, i.dune));
    Assoc(Tagged(Metadata, Pieces(Metadata, i.metadata)), b8, end);
    Assoc(Tagged(Pointer, Pieces(Pointer, i.pointer)), b7, end);
    Assoc(Tagged(Delegate, Pieces(Delegate, i.delegate)), b6, end);
    Assoc(Tagged(Parent, i.parents), b5, end);
    Assoc(Tagged(Metaprotocol, Pieces(Metaprotocol, i.metaprotocol)), b4, end);
    Assoc(Tagged(ContentEncoding, Pieces(ContentEncoding, i.contentEncoding)), b3, end);
    Assoc(Tagged(ContentType, Pieces(ContentType, i.contentType)), b2, end);
  }

  /** The values an inscription writes under a key. */
  function Written(i: Inscription, k: seq<Byte>): seq<seq<Byte>> {
    if k == ContentType.Bytes() then Pieces(ContentType, i.contentType)
    else if k == ContentEncoding.Bytes() then Pieces(ContentEncoding, i.contentEncoding)
    else if k == Metaprotocol.Bytes() then Pieces(Metaprotocol, i.metaprotocol)
    else if k == Parent.Bytes() then i.parents
    else if k == Delegate.Bytes() then Pieces(Delegate, i.delegate)
    else if k == Pointer.Bytes() then Pieces(Pointer, i.pointer)
    else if k == Metadata.Bytes() then Pieces(Metadata, i.metadata)
    else if k == Dune.Bytes() then Pieces(Dune, i.dune)
    else []
  }

  lemma ValuesOfFields(i: Inscription, k: seq<Byte>)
    ensures Values(FieldsThen(i, []), k) == Written(i, k)
  {
    hide Tagged, Pieces, Values;
    var b8 := Tagged(Dune, Pieces(Dune, i.dune)) + [];
    var b7 := Tagged(Metadata, Pieces(Metadata, i.metadata)) + b8;
    var b6 := Tagged(Pointer, Pieces(Pointer, i.pointer)) + b7;
    var b5 := Tagged(Delegate, Pieces(Delegate, i.delegate)) + b6;
    var b4 := Tagged(Parent, i.parents) + b5;
    var b3 := Tagged(Metaprotocol, Pieces(Metaprotocol, i.metaprotocol)) + b4;
    var b2 := Tagged(ContentEncoding, Pieces(ContentEncoding, i.contentEncoding)) + b3;
    NoValues(k);
    ValuesTagged(Dune, Pieces(Dune, i.dune), [], k);
    ValuesTagged(Metadata, Pieces(Metadata, i.metadata), b8, k);
    ValuesTagged(Pointer, Pieces(Pointer, i.pointer), b7, k);
    ValuesTagged(Delegate, Pieces(Delegate, i.delegate), b6, k);
    ValuesTagged(Parent, i.parents, b5, k);
    ValuesTagged(Metaprotocol, Pieces(Metaprotocol, i.metaprotocol), b4, k);
    ValuesTagged(ContentEncoding, Pieces(ContentEncoding, i.contentEncoding), b3, k);
    ValuesTagged(ContentType, Pieces(ContentType, i.contentType), b2, k);
  }

  lemma NoValues(k: seq<Byte>)
    ensures Values([], k) == []
  {
  }

  lemma PayloadParts(i: Inscription)
    ensures FieldItems(PayloadOf(i)) == FieldsThen(i, []) && |FieldsThen(i, [])| % 2 == 0
    ensures BodyOf(PayloadOf(i)) == i.body
  {
    hide FieldsThen, Chunks, Flatten;
    var end := BodyPushes(i.body);
    BodyAtFields(i, end);
    BodyAtFields(i, []);
    FieldsSplit(i, end);
    var fields := FieldsThen(i, []);
    if i.body.Some? {
      var chunks := Chunks(i.body.value, MAX_SCRIPT_ELEMENT_SIZE);
      assert (fields + end)[..|fields|] == fields;
      assert (fields + end)[|fields| + 1..] == chunks;
      FlattenChunks(i.body.value, MAX_SCRIPT_ELEMENT_SIZE);
    } else {
      assert fields + end == fields;
    }
  }

  /** What comes back: flags recomputed, and empty metadata lost. */
  function Reparsed(i: Inscription): Inscription {
    i.(metadata := if i.metadata == Some([]) then None else i.metadata,
       duplicateField := |i.parents| > 1 || (i.metadata.Some? && |i.metadata.value| > MAX_SCRIPT_ELEMENT_SIZE),
       incompleteField := false,
       unrecognizedEvenField := false)
  }

  lemma PiecesAre(tag: Tag, value: Option<seq<Byte>>)
    ensures !tag.Chunked() ==> |Pieces(tag, value)| <= 1 && FirstOf(Pieces(tag, value)) == value
    ensures tag.Chunked() ==> (|Pieces(tag, value)| > 1 <==> value.Some? && |value.value| > MAX_SCRIPT_ELEMENT_SIZE)
    ensures tag.Chunked() ==> (Pieces(tag, value) == [] <==> value.None? || value.value == [])
    ensures tag.Chunked() && value.Some? ==> Flatten(Pieces(tag, value)) == value.value
  {
    if tag.Chunked() && value.Some? { FlattenChunks(value.value, MAX_SCRIPT_ELEMENT_SIZE); }
  }

  lemma AllPiecesAre(i: Inscription)
    ensures FirstOf(Pieces(ContentType, i.contentType)) == i.contentType && |Pieces(ContentType, i.contentType)| <= 1
    ensures FirstOf(Pieces(ContentEncoding, i.contentEncoding)) == i.contentEncoding && |Pieces(ContentEncoding, i.contentEncoding)| <= 1
    ensures FirstOf(Pieces(Metaprotocol, i.metaprotocol)) == i.metaprotocol && |Pieces(Metaprotocol, i.metaprotocol)| <= 1
    ensures FirstOf(Pieces(Delegate, i.delegate)) == i.delegate && |Pieces(Delegate, i.delegate)| <= 1
    ensures FirstOf(Pieces(Pointer, i.pointer)) == i.pointer && |Pieces(Pointer, i.pointer)| <= 1
    ensures FirstOf(Pieces(Dune, i.dune)) == i.dune && |Pieces(Dune, i.dune)| <= 1
  {
    hide Pieces, FirstOf;
    PiecesAre(ContentType, i.contentType);
    PiecesAre(ContentEncoding, i.contentEncoding);
    PiecesAre(Metaprotocol, i.metaprotocol);
    PiecesAre(Delegate, i.delegate);
    PiecesAre(Pointer, i.pointer);
    PiecesAre(Dune, i.dune);
  }

  lemma NothingLeft(i: Inscription, k: seq<Byte>)
    ensures Left(Written(i, k), k) == []
  {
    hide Pieces;
    AllPiecesAre(i);
  }

  lemma RepeatedIff(i: Inscription)
    ensures (exists k :: |Written(i, k)| > 1) <==> Reparsed(i).duplicateField
  {
    hide Pieces, FirstOf;
    AllPiecesAre(i);
    PiecesAre(Metadata, i.metadata);
    assert Written(i, Parent.Bytes()) == i.parents;
    assert Written(i, Metadata.Bytes()) == Pieces(Metadata, i.metadata);
  }

  /** Parsing the pushes of an inscription gives it back, except for its flags and for empty metadata. */
  lemma ParsePrinted(i: Inscription)
    ensures ParsePayload(PayloadOf(i)) == Reparsed(i)
  {
    hide PayloadOf, ParsePayload, FieldItems, FieldsThen, BodyOf, Pieces, Values, FirstOf, Left, Flatten, Written;
    var payload := PayloadOf(i);
    PayloadParts(i);
    ParseMeans(payload);
    ParseBody(payload);
    forall k ensures Values(FieldItems(payload), k) == Written(i, k) {
      ValuesOfFields(i, k);
    }
    RepeatedIff(i);
    forall k ensures Left(Values(FieldItems(payload), k), k) == [] {
      NothingLeft(i, k);
    }
    AllPiecesAre(i);
    PiecesAre(Metadata, i.metadata);
    WrittenAre(i);
  }

  lemma ParseBody(payload: seq<seq<Byte>>)
    ensures ParsePayload(payload).body == BodyOf(payload)
  {
    hide BodyOf, Collect, TakeAll, FieldItems, AnyEven, AnyRepeated;
  }

  lemma WrittenAre(i: Inscription)
    ensures Written(i, ContentType.Bytes()) == Pieces(ContentType, i.contentType)
    ensures Written(i, ContentEncoding.Bytes()) == Pieces(ContentEncoding, i.contentEncoding)
    ensures Written(i, Metaprotocol.Bytes()) == Pieces(Metaprotocol, i.metaprotocol)
    ensures Written(i, Parent.Bytes()) == i.parents
    ensures Written(i, Delegate.Bytes()) == Pieces(Delegate, i.delegate)
    ensures Written(i, Pointer.Bytes()) == Pieces(Pointer, i.pointer)
    ensures Written(i, Metadata.Bytes()) == Pieces(Metadata, i.metadata)
    ensures Written(i, Dune.Bytes()) == Pieces(Dune, i.dune)
  {
    hide Pieces;
  }
}
