/** The input script of a wallet's mint, built byte by byte and read back as an inscription. */
module WalletScripts {
  import opened Wrappers
  import opened Bytes
  import opened Sequences
  import opened Scripts
  import opened Inscriptions
  import opened Envelopes
  import opened EnvelopeProperties

  /** The letters of "text/plain". */
  const TEXT_PLAIN: seq<Byte> := [0x74, 0x65, 0x78, 0x74, 0x2f, 0x70, 0x6c, 0x61, 0x69, 0x6e]

  // --------------------------------------------------------------- building

  method EncodePush(data: seq<Byte>) returns (out: seq<Byte>)
    ensures out == Pushed(data)
    ensures |data| < U16 ==> |out| == EncodePushSize(|data|)
  {
    var len := |data|;
    out := [];
    if len == 0 {
      out := out + [0x00];
    } else if len <= 75 {
      out := out + [len];
      out := out + data;
    } else if len <= 255 {
      out := out + [0x4c];
      out := out + [len];
      out := out + data;
    } else {
      out := out + [0x4d];
      out := out + [len % 256];
      out := out + [len / 256 % 256];
      out := out + data;
    }
  }

  /** A push with its length in at most two bytes; the bits above them are dropped. */
  function Pushed(data: seq<Byte>): seq<Byte> {
    if |data| < U16 then PushSlice(data) else [OP_PUSHDATA2, |data| % 256, |data| / 256 % 256] + data
  }

  function EncodePushSize(len: nat): nat {
    if len == 0 then 1 else if len <= 75 then 1 + len else if len <= 255 then 2 + len else 3 + len
  }

  function EncodeCount(n: nat): seq<Byte>
    requires n < U16
  {
    if n == 0 then [0x00]
    else if n <= 16 then [0x50 + n]
    else if n <= 127 then [0x01, n]
    else [0x02, n % 256, n / 256]
  }

  /** The instruction that a count reads as. */
  function CountInstruction(n: nat): Instruction
    requires n < U16
  {
    if n == 0 then Push([])
    else if n <= 16 then Op(OP_PUSHNUM_1 + n - 1)
    else if n <= 127 then Push([n])
    else Push([n % 256, n / 256])
  }

  /** Every count reads back as one instruction that says the number. */
  lemma ReadCount(n: nat, rest: seq<Byte>)
    requires n < U16
    ensures EncodeCount(n) + rest != [] && ReadOne(EncodeCount(n) + rest) == Some((CountInstruction(n), rest))
  {
    var bytes := EncodeCount(n) + rest;
    if n == 0 {
      assert ReadHeader(bytes) == Announces(1, 0) && bytes[1..1] == [];
    } else if n <= 16 {
      assert ReadHeader(bytes) == NotAPush && bytes[0] == OP_PUSHNUM_1 + n - 1;
    } else if n <= 127 {
      assert ReadHeader(bytes) == Announces(1, 1) && bytes[1..2] == [n];
    } else {
      assert ReadHeader(bytes) == Announces(1, 2) && bytes[1..3] == [n % 256, n / 256];
    }
    assert bytes[|EncodeCount(n)|..] == rest;
  }

  method BuildSegments(payload: seq<Byte>) returns (segments: seq<seq<Byte>>)
    ensures segments == Segments(payload)
  {
    var marker := EncodePush(PROTOCOL_ID);
    var pieces := EncodePush([1, 0]);
    var mime := EncodePush(TEXT_PLAIN);
    var body := EncodePush(payload);
    segments := [marker, pieces, mime, EncodeCount(0), body];
  }

  function Segments(payload: seq<Byte>): seq<seq<Byte>> {
    [Pushed(PROTOCOL_ID), Pushed([1, 0]), Pushed(TEXT_PLAIN), EncodeCount(0), Pushed(payload)]
  }

  method BuildScriptSig(segments: seq<seq<Byte>>, sig: seq<Byte>, pubkey: seq<Byte>) returns (out: seq<Byte>)
    ensures out == ScriptSig(segments, sig, pubkey)
  {
    hide Pushed;
    out := [];
    for k := 0 to |segments|
      invariant Flatten(segments) == out + Flatten(segments[k..])
    {
      out := out + segments[k];
    }
    assert out + [] == out;
    var signature := EncodePush(sig);
    out := out + signature;
    var key := EncodePush(pubkey);
    out := out + key;
  }

  function ScriptSig(segments: seq<seq<Byte>>, sig: seq<Byte>, pubkey: seq<Byte>): seq<Byte> {
    Flatten(segments) + Pushed(sig) + Pushed(pubkey)
  }

  // ----------------------------------------------------------- reading back

  lemma ReadLongPush(data: seq<Byte>, rest: seq<Byte>)
    requires |data| >= U16
    ensures Pushed(data) + rest != []
    ensures var n := |data| % U16; ReadOne(Pushed(data) + rest) == Some((Push(data[..n]), data[n..] + rest))
  {
    var n, bytes := |data| % U16, Pushed(data) + rest;
    LongHeader(data, rest);
    hide ReadHeader, Pushed;
    assert bytes[3..3 + n] == data[..n];
    assert bytes[3 + n..] == data[n..] + rest;
  }

  lemma LongHeader(data: seq<Byte>, rest: seq<Byte>)
    requires |data| >= U16
    ensures Pushed(data) + rest != [] && ReadHeader(Pushed(data) + rest) == Announces(3, |data| % U16)
    ensures |Pushed(data)| == 3 + |data| && Pushed(data)[3..] == data
  {
    var m := |data|;
    assert m % 256 + 256 * (m / 256 % 256) == m % U16;
  }

  /** What a push is read as: data that is too long is cut to its length modulo 2^16. */
  lemma ReadPushed(data: seq<Byte>, rest: seq<Byte>)
    ensures Pushed(data) + rest != []
    ensures |data| < U16 ==> ReadOne(Pushed(data) + rest) == Some((Push(data), rest))
    ensures |data| >= U16 ==>
              var n := |data| % U16; ReadOne(Pushed(data) + rest) == Some((Push(data[..n]), data[n..] + rest))
  {
    hide ReadOne;
    if |data| < U16 {
      hide PushSlice;
      ReadPush(data, rest);
    } else {
      ReadLongPush(data, rest);
    }
  }

  /** The data that a push is read as. */
  function Kept(data: seq<Byte>): (kept: seq<Byte>)
    ensures kept == data <==> |data| < U16
  {
    if |data| < U16 then data else data[..|data| % U16]
  }

  lemma PushesAfter(data: seq<Byte>, rest: seq<Byte>)
    ensures var items := ReadScript(Pushed(data) + rest).instructions;
            && items != [] && items[0] == Push(Kept(data))
            && (|data| < U16 ==> items[1..] == ReadScript(rest).instructions)
  {
    hide Pushed, ReadOne;
    ReadPushed(data, rest);
  }

  lemma DataPushesAfter(data: seq<Byte>, rest: seq<Byte>)
    ensures var pushes := DataPushes(ReadScript(Pushed(data) + rest).instructions);
            && pushes != [] && pushes[0] == Kept(data)
            && (|data| < U16 ==> pushes == [data] + DataPushes(ReadScript(rest).instructions))
  {
    hide Pushed, ReadScript;
    PushesAfter(data, rest);
  }

  /** The pushes of a mint, down to its signature. */
  lemma MintPushes(payload: seq<Byte>, sig: seq<Byte>, pubkey: seq<Byte>)
    ensures var pushes := DataPushes(ReadScript(ScriptSig(Segments(payload), sig, pubkey)).instructions);
            && |pushes| >= 5
            && pushes[..5] == [PROTOCOL_ID, [1, 0], TEXT_PLAIN, [], Kept(payload)]
            && (|payload| < U16 ==> |pushes| >= 6)
  {
    hide Pushed, ReadScript, DataPushes;
    var last := Pushed(sig) + Pushed(pubkey);
    var body := Pushed(payload) + last;
    var count := Pushed([]) + body;
    var mime := Pushed(TEXT_PLAIN) + count;
    var pieces := Pushed([1, 0]) + mime;
    MintBytes(payload, sig, pubkey);
    DataPushesAfter(PROTOCOL_ID, pieces);
    DataPushesAfter([1, 0], mime);
    DataPushesAfter(TEXT_PLAIN, count);
    DataPushesAfter([], body);
    DataPushesAfter(payload, last);
    DataPushesAfter(sig, Pushed(pubkey));
  }

  /** Data that fits its pushes: a mint's script holds exactly these seven. */
  lemma MintHolds(payload: seq<Byte>, sig: seq<Byte>, pubkey: seq<Byte>)
    requires |payload| < U16 && |sig| < U16 && |pubkey| < U16
    ensures ReadScript(ScriptSig(Segments(payload), sig, pubkey)).instructions
         == [Push(PROTOCOL_ID), Push([1, 0]), Push(TEXT_PLAIN), Push([]), Push(payload), Push(sig), Push(pubkey)]
  {
    hide Pushed, ReadScript;
    var b6 := Pushed(pubkey) + [];
    assert b6 == Pushed(pubkey);
    var b5 := Pushed(sig) + b6;
    var b4 := Pushed(payload) + b5;
    var b3 := Pushed([]) + b4;
    var b2 := Pushed(TEXT_PLAIN) + b3;
    var b1 := Pushed([1, 0]) + b2;
    MintBytes(payload, sig, pubkey);
    PushThen(pubkey, []);
    PushThen(sig, b6);
    PushThen(payload, b5);
    PushThen([], b4);
    PushThen(TEXT_PLAIN, b3);
    PushThen([1, 0], b2);
    PushThen(PROTOCOL_ID, b1);
    EmptyScript();
    assert ScriptSig(Segments(payload), sig, pubkey) == Pushed(PROTOCOL_ID) + b1;
    assert ReadScript(b3).instructions == [Push([]), Push(payload), Push(sig), Push(pubkey)];
  }

  lemma EmptyScript()
    ensures ReadScript([]).instructions == []
  {
  }

  lemma PushThen(data: seq<Byte>, rest: seq<Byte>)
    requires |data| < U16
    ensures ReadScript(Pushed(data) + rest).instructions == [Push(data)] + ReadScript(rest).instructions
  {
    hide Pushed, ReadScript;
    PushesAfter(data, rest);
    var items := ReadScript(Pushed(data) + rest).instructions;
    assert items == [items[0]] + items[1..];
  }

  lemma MintBytes(payload: seq<Byte>, sig: seq<Byte>, pubkey: seq<Byte>)
    ensures ScriptSig(Segments(payload), sig, pubkey)
         == Pushed(PROTOCOL_ID) + (Pushed([1, 0]) + (Pushed(TEXT_PLAIN) + (Pushed([]) + (Pushed(payload) + (Pushed(sig) + Pushed(pubkey))))))
  {
    assert EncodeCount(0) == Pushed([]);
    hide Pushed;
    FlattenFive(Pushed(PROTOCOL_ID), Pushed([1, 0]), Pushed(TEXT_PLAIN), EncodeCount(0), Pushed(payload), Pushed(sig) + Pushed(pubkey));
    Assoc(Flatten(Segments(payload)), Pushed(sig), Pushed(pubkey));
  }

  lemma FlattenFive(a: seq<Byte>, b: seq<Byte>, c: seq<Byte>, d: seq<Byte>, e: seq<Byte>, end: seq<Byte>)
    ensures Flatten([a, b, c, d, e]) + end == a + (b + (c + (d + (e + end))))
  {
    assert [a, b, c, d, e][1..] == [b, c, d, e];
    assert [b, c, d, e][1..] == [c, d, e];
    assert [c, d, e][1..] == [d, e];
    assert [d, e][1..] == [e];
    assert [e][1..] == [];
    assert Flatten([e]) == e;
    assert Flatten([d, e]) == d + e;
    assert Flatten([c, d, e]) == c + (d + e);
    assert Flatten([b, c, d, e]) == b + (c + (d + e));
  }

  /** A text inscription with nothing but a body. */
  function TextInscription(body: seq<Byte>): Inscription {
    Inscription(Some(body), None, Some(TEXT_PLAIN), None, false, false, None, None, [], None, None, false)
  }

  lemma FourPushes(tag: seq<Byte>, value: seq<Byte>, body: seq<Byte>)
    requires tag != []
    ensures FieldItems([tag, value, [], body]) == [tag, value]
    ensures BodyOf([tag, value, [], body]) == Some(body)
  {
    var payload := [tag, value, [], body];
    assert payload[2..] == [[], body] && payload[0] == tag;
    assert BodyAt(payload[2..]) == Some(0);
    assert BodyAt(payload) == Some(2);
    assert payload[..2] == [tag, value];
    assert payload[2 + 1..] == [body];
    FlattenOne(body);
  }

  lemma FlattenOne(a: seq<Byte>)
    ensures Flatten([a]) == a
  {
    assert Flatten([a]) == a + Flatten([a][1..]);
  }

  lemma ParseText(body: seq<Byte>)
    ensures ParsePayload([ContentType.Bytes(), TEXT_PLAIN, BODY_TAG, body]) == TextInscription(body)
  {
    hide ParsePayload, FieldItems, BodyOf, Values, Left;
    var payload := [ContentType.Bytes(), TEXT_PLAIN, BODY_TAG, body];
    FourPushes(ContentType.Bytes(), TEXT_PLAIN, body);
    ParseMeans(payload);
    ParseBody(payload);
    forall k ensures Values(FieldItems(payload), k) == (if k == ContentType.Bytes() then [TEXT_PLAIN] else []) {
      OneValue(ContentType.Bytes(), TEXT_PLAIN, k);
    }
    forall k ensures Left(Values(FieldItems(payload), k), k) == [] {
      NoneLeft(k);
    }
  }

  lemma OneValue(tag: seq<Byte>, value: seq<Byte>, k: seq<Byte>)
    ensures Values([tag, value], k) == if k == tag then [value] else []
  {
    assert [tag, value][2..] == [];
  }

  lemma NoneLeft(k: seq<Byte>)
    ensures Left(if k == ContentType.Bytes() then [TEXT_PLAIN] else [], k) == []
  {
  }

  /** The payload found in a mint's script: its body is what the push of the payload reads as. */
  lemma MintPayload(payload: seq<Byte>, sig: seq<Byte>, pubkey: seq<Byte>)
    ensures var found := ScriptPayload(ScriptSig(Segments(payload), sig, pubkey));
            && found.Some?
            && BodyOf(found.value) == Some(Kept(payload))
            && (|payload| < U16 ==> found.value == [ContentType.Bytes(), TEXT_PLAIN, BODY_TAG, payload])
  {
    hide ReadScript, ScriptSig, Segments, BodyOf, FieldItems, DataPushes;
    var pushes := DataPushes(ReadScript(ScriptSig(Segments(payload), sig, pubkey)).instructions);
    MintPushes(payload, sig, pubkey);
    assert pushes[0] == PROTOCOL_ID && pushes[1] == [1, 0] && pushes[2] == TEXT_PLAIN by {
      assert pushes[..5][0] == pushes[0] && pushes[..5][1] == pushes[1] && pushes[..5][2] == pushes[2];
    }
    assert pushes[3] == [] && pushes[4] == Kept(payload) by {
      assert pushes[..5][3] == pushes[3] && pushes[..5][4] == pushes[4];
    }
    FourPushes(ContentType.Bytes(), TEXT_PLAIN, Kept(payload));
    FourPushes([1, 0], TEXT_PLAIN, Kept(payload));
    if |pushes| == 5 {
      assert pushes[1..] == [[1, 0], TEXT_PLAIN, [], Kept(payload)];
    }
  }

  /**
    The script built for a mint parses to exactly one envelope; it is the
    plain text inscription of the payload exactly when the payload fits a push
    with a two-byte length, whatever the signature and the key.
   */
  lemma MintRoundTripIff(payload: seq<Byte>, sig: seq<Byte>, pubkey: seq<Byte>, others: seq<seq<Byte>>)
    ensures var es := FromTransactions([[ScriptSig(Segments(payload), sig, pubkey)] + others], 0);
            && |es| == 1
            && (Parse(es[0]) == Envelope(0, 0, TextInscription(payload), false, false) <==> |payload| < U16)
  {
    hide ScriptSig, Segments, ScriptPayload, BodyOf, ParsePayload;
    var script := ScriptSig(Segments(payload), sig, pubkey);
    var tx: Inputs := [script] + others;
    var txs: seq<Inputs> := [tx];
    assert |txs[1..]| == 0 && FromTransactions(txs[1..], 1) == [];
    MintPayload(payload, sig, pubkey);
    var es := FromTransactions(txs, 0);
    assert es == [Envelope(0, 0, ScriptPayload(script).value, false, false)];
    ParseText(payload);
    ParseBody(ScriptPayload(script).value);
  }

  // -------------------------------------------- envelopes of a transaction list

  /** How many of the transactions carry a protocol marker in their first script. */
  function Marked(txs: seq<Inputs>): nat {
    if txs == [] then 0
    else (if txs[0] != [] && ScriptPayload(txs[0][0]).Some? then 1 else 0) + Marked(txs[1..])
  }

  /** Each transaction with a marker gives one envelope, numbered by the marked ones before it. */
  lemma {:induction false} EnvelopePerMarked(txs: seq<Inputs>, offset: nat, t: nat)
    requires t < |txs| && txs[t] != [] && ScriptPayload(txs[t][0]).Some?
    ensures |FromTransactions(txs, offset)| == Marked(txs)
    ensures Marked(txs[..t]) < Marked(txs)
    ensures FromTransactions(txs, offset)[Marked(txs[..t])]
         == Envelope(0, offset + Marked(txs[..t]), ScriptPayload(txs[t][0]).value, false, false)
    decreases |txs|
  {
    hide ScriptPayload;
    CountEnvelopes(txs, offset);
    if t > 0 {
      assert txs[..t][1..] == txs[1..][..t - 1];
      var here := if txs[0] != [] && ScriptPayload(txs[0][0]).Some? then 1 else 0;
      EnvelopePerMarked(txs[1..], offset + here, t - 1);
    }
  }

  lemma {:induction false} CountEnvelopes(txs: seq<Inputs>, offset: nat)
    ensures |FromTransactions(txs, offset)| == Marked(txs)
    decreases |txs|
  {
    hide ScriptPayload;
    if txs != [] {
      var here := if txs[0] != [] && ScriptPayload(txs[0][0]).Some? then 1 else 0;
      CountEnvelopes(txs[1..], offset + here);
    }
  }
}
