/** A batch reveal script, printed to bytes and read back, holds the same inscriptions in order. */
module BatchReveal {
  import opened Wrappers
  import opened Bytes
  import opened Sequences
  import opened Scripts
  import opened Inscriptions
  import opened Envelopes
  import opened EnvelopeProperties

  lemma CollectOne(push: seq<Byte>, items: seq<Instruction>, broken: bool)
    ensures CollectPushes([Push(push)] + items, broken) == WithPush(push, false, CollectPushes(items, broken))
  {
    assert ([Push(push)] + items)[1..] == items;
  }

  lemma CollectEnd(rest: seq<Instruction>, broken: bool)
    ensures CollectPushes([Op(OP_ENDIF)] + rest, broken) == Collected.Payload(rest, [], false)
  {
    assert ([Op(OP_ENDIF)] + rest)[1..] == rest;
  }

  lemma {:induction false} CollectPrinted(pushes: seq<seq<Byte>>, rest: seq<Instruction>, broken: bool)
    ensures CollectPushes(AsPushes(pushes) + ([Op(OP_ENDIF)] + rest), broken) == Collected.Payload(rest, pushes, false)
  {
    hide CollectPushes;
    var end := [Op(OP_ENDIF)] + rest;
    if pushes == [] {
      CollectEnd(rest, broken);
      assert AsPushes(pushes) + end == end;
    } else {
      CollectPrinted(pushes[1..], rest, broken);
      CollectOne(pushes[0], AsPushes(pushes[1..]) + end, broken);
      Assoc([Push(pushes[0])], AsPushes(pushes[1..]), end);
      assert pushes == [pushes[0]] + pushes[1..];
    }
  }

  lemma RevealRead(i: Inscription, rest: seq<Instruction>, broken: bool)
    ensures RevealScript(i) + rest != [] && (RevealScript(i) + rest)[0] == Push([])
    ensures FromInstructions((RevealScript(i) + rest)[1..], broken) == An(rest, PayloadOf(i), false)
  {
    hide AsPushes, PayloadOf, CollectPushes;
    var pushes, end := AsPushes(PayloadOf(i)), [Op(OP_ENDIF)];
    CollectPrinted(PayloadOf(i), rest, broken);
    Assoc(pushes, end, rest);
    var items := (RevealScript(i) + rest)[1..];
    assert items == [Op(OP_IF), Push(PROTOCOL_ID)] + (pushes + end + rest);
    assert items[2..] == pushes + (end + rest);
  }

  /** The envelopes of a list of inscriptions, numbered from `offset`. */
  function Numbered(inscriptions: seq<Inscription>, input: nat, offset: nat): (es: seq<RawEnvelope>)
    ensures |es| == |inscriptions|
    ensures forall k :: 0 <= k < |es| ==> es[k] == Envelope(input, offset + k, PayloadOf(inscriptions[k]), false, false)
  {
    if inscriptions == [] then []
    else [Envelope(input, offset, PayloadOf(inscriptions[0]), false, false)] + Numbered(inscriptions[1..], input, offset + 1)
  }

  lemma {:induction false} BatchRead(inscriptions: seq<Inscription>, input: nat, offset: nat)
    ensures FromTapscript(BatchRevealScript(inscriptions), false, input, offset, false) == Ok(Numbered(inscriptions, input, offset))
    decreases |inscriptions|
  {
    hide RevealScript, FromInstructions, PayloadOf;
    if inscriptions != [] {
      RevealRead(inscriptions[0], BatchRevealScript(inscriptions[1..]), false);
      BatchRead(inscriptions[1..], input, offset + 1);
    }
  }

  /** A script builder takes pushes of less than four gigabytes. */
  predicate Small(value: Option<seq<Byte>>) {
    value.Some? ==> |value.value| < U32
  }

  predicate CanPush(i: Inscription) {
    && Small(i.contentType) && Small(i.contentEncoding) && Small(i.metaprotocol)
    && Small(i.delegate) && Small(i.pointer) && Small(i.dune)
    && forall k :: 0 <= k < |i.parents| ==> |i.parents[k]| < U32
  }

  predicate AllSmall(values: seq<seq<Byte>>) {
    forall k :: 0 <= k < |values| ==> |values[k]| < U32
  }

  predicate AllPrintable(items: seq<Instruction>) {
    forall k :: 0 <= k < |items| ==> Printable(items[k])
  }

  lemma {:induction false} TaggedSmall(tag: Tag, values: seq<seq<Byte>>)
    requires AllSmall(values)
    ensures AllSmall(Tagged(tag, values))
  {
    if values != [] { TaggedSmall(tag, values[1..]); }
  }

  lemma PiecesSmall(tag: Tag, value: Option<seq<Byte>>)
    requires tag.Chunked() || Small(value)
    ensures AllSmall(Tagged(tag, Pieces(tag, value)))
  {
    if value.Some? && tag.Chunked() { FlattenChunks(value.value, MAX_SCRIPT_ELEMENT_SIZE); }
    TaggedSmall(tag, Pieces(tag, value));
  }

  lemma {:induction false} PushesPrintable(values: seq<seq<Byte>>)
    requires AllSmall(values)
    ensures AllPrintable(AsPushes(values))
  {
    if values != [] { PushesPrintable(values[1..]); }
  }

  lemma BodySmall(body: Option<seq<Byte>>)
    ensures AllSmall(BodyPushes(body))
  {
    if body.Some? { FlattenChunks(body.value, MAX_SCRIPT_ELEMENT_SIZE); }
  }

  lemma SmallJoin(a: seq<seq<Byte>>, b: seq<seq<Byte>>)
    requires AllSmall(a) && AllSmall(b)
    ensures AllSmall(a + b)
  {
  }

  lemma PayloadSmall(i: Inscription)
    requires CanPush(i)
    ensures AllSmall(PayloadOf(i))
  {
    hide Tagged, Pieces, BodyPushes, AllSmall;
    BodySmall(i.body);
    PiecesSmall(Dune, i.dune);
    PiecesSmall(Metadata, i.metadata);
    PiecesSmall(Pointer, i.pointer);
    PiecesSmall(Delegate, i.delegate);
    ParentsSmall(i);
    PiecesSmall(Metaprotocol, i.metaprotocol);
    PiecesSmall(ContentEncoding, i.contentEncoding);
    PiecesSmall(ContentType, i.contentType);
    var a8 := Tagged(Dune, Pieces(Dune, i.dune)) + BodyPushes(i.body);
    var a7 := Tagged(Metadata, Pieces(Metadata, i.metadata)) + a8;
    var a6 := Tagged(Pointer, Pieces(Pointer, i.pointer)) + a7;
    var a5 := Tagged(Delegate, Pieces(Delegate, i.delegate)) + a6;
    var a4 := Tagged(Parent, i.parents) + a5;
    var a3 := Tagged(Metaprotocol, Pieces(Metaprotocol, i.metaprotocol)) + a4;
    var a2 := Tagged(ContentEncoding, Pieces(ContentEncoding, i.contentEncoding)) + a3;
    SmallJoin(Tagged(Dune, Pieces(Dune, i.dune)), BodyPushes(i.body));
    SmallJoin(Tagged(Metadata, Pieces(Metadata, i.metadata)), a8);
    SmallJoin(Tagged(Pointer, Pieces(Pointer, i.pointer)), a7);
    SmallJoin(Tagged(Delegate, Pieces(Delegate, i.delegate)), a6);
    SmallJoin(Tagged(Parent, i.parents), a5);
    SmallJoin(Tagged(Metaprotocol, Pieces(Metaprotocol, i.metaprotocol)), a4);
    SmallJoin(Tagged(ContentEncoding, Pieces(ContentEncoding, i.contentEncoding)), a3);
    SmallJoin(Tagged(ContentType, Pieces(ContentType, i.contentType)), a2);
  }

  lemma ParentsSmall(i: Inscription)
    requires CanPush(i)
    ensures AllSmall(Tagged(Parent, i.parents))
  {
    TaggedSmall(Parent, i.parents);
  }

  lemma RevealPrintable(i: Inscription)
    requires CanPush(i)
    ensures AllPrintable(RevealScript(i))
  {
    hide AsPushes, PayloadOf, AllSmall;
    PayloadSmall(i);
    PushesPrintable(PayloadOf(i));
  }

  lemma {:induction false} BatchPrintable(inscriptions: seq<Inscription>)
    requires forall k :: 0 <= k < |inscriptions| ==> CanPush(inscriptions[k])
    ensures AllPrintable(BatchRevealScript(inscriptions))
  {
    hide RevealScript, CanPush;
    if inscriptions != [] {
      RevealPrintable(inscriptions[0]);
      BatchPrintable(inscriptions[1..]);
    }
  }

  /** What reading the bytes of a script as envelopes gives. */
  function EnvelopesIn(bytes: seq<Byte>, input: nat): Result<seq<RawEnvelope>, Error> {
    var script := ReadScript(bytes);
    FromTapscript(script.instructions, script.broken, input, 0, false)
  }

  /**
    Reading the bytes of a batch gives one envelope for each inscription, in
    order and numbered from zero, without small numbers or stutter; each
    parses to its inscription, up to recomputed flags and lost empty metadata.
   */
  lemma BatchRoundTrip(inscriptions: seq<Inscription>, input: nat)
    requires forall k :: 0 <= k < |inscriptions| ==> CanPush(inscriptions[k])
    ensures AllPrintable(BatchRevealScript(inscriptions))
    ensures var r := EnvelopesIn(PrintAll(BatchRevealScript(inscriptions)), input);
            && r.Ok? && |r.value| == |inscriptions|
            && forall k :: 0 <= k < |r.value| ==> Parse(r.value[k]) == Envelope(input, k, Reparsed(inscriptions[k]), false, false)
  {
    hide BatchRevealScript, CanPush, PrintAll, ReadScript, Reparsed, ParsePayload, PayloadOf, FromTapscript;
    BatchPrintable(inscriptions);
    ReadPrintedScript(BatchRevealScript(inscriptions));
    BatchRead(inscriptions, input, 0);
    forall k | 0 <= k < |inscriptions| ensures ParsePayload(PayloadOf(inscriptions[k])) == Reparsed(inscriptions[k]) {
      ParsePrinted(inscriptions[k]);
    }
  }

  /** The same inscription, whatever its flags. */
  predicate SameContent(a: Inscription, b: Inscription) {
    a == b.(duplicateField := a.duplicateField, incompleteField := a.incompleteField, unrecognizedEvenField := a.unrecognizedEvenField)
  }

  /** A batch comes back whole exactly when no inscription has metadata that is present but empty. */
  lemma BatchRoundTripIff(inscriptions: seq<Inscription>, input: nat)
    requires forall k :: 0 <= k < |inscriptions| ==> CanPush(inscriptions[k])
    ensures AllPrintable(BatchRevealScript(inscriptions))
    ensures var r := EnvelopesIn(PrintAll(BatchRevealScript(inscriptions)), input);
            && r.Ok? && |r.value| == |inscriptions|
            && ((forall k :: 0 <= k < |inscriptions| ==> SameContent(Parse(r.value[k]).payload, inscriptions[k]))
                <==> forall k :: 0 <= k < |inscriptions| ==> inscriptions[k].metadata != Some([]))
  {
    hide BatchRevealScript, CanPush, PrintAll, EnvelopesIn, Parse, SameContent, Reparsed;
    BatchRoundTrip(inscriptions, input);
    var r := EnvelopesIn(PrintAll(BatchRevealScript(inscriptions)), input).value;
    forall k | 0 <= k < |inscriptions|
      ensures SameContent(Parse(r[k]).payload, inscriptions[k]) <==> inscriptions[k].metadata != Some([])
    {
      SameIff(inscriptions[k]);
    }
  }

  lemma SameIff(i: Inscription)
    ensures SameContent(Reparsed(i), i) <==> i.metadata != Some([])
  {
  }
}
