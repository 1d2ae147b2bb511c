/** Envelopes: inscriptions found in scripts, and the fields parsed out of their pushes. */
module Envelopes {
  import opened Wrappers
  import opened Sequences
  import opened Bytes
  import opened Scripts
  import opened Inscriptions

  datatype Envelope<T> = Envelope(input: nat, offset: nat, payload: T, pushnum: bool, stutter: bool)

  type RawEnvelope = Envelope<seq<seq<Byte>>>
  type ParsedEnvelope = Envelope<Inscription>

  datatype Error = BrokenScript

  // ------------------------------------------------ envelopes in a script

  /** Whether the instruction pushes one of the small numbers. */
  predicate IsPushNum(i: Instruction) {
    i.Op? && (i.code == OP_PUSHNUM_NEG1 || OP_PUSHNUM_1 <= i.code <= OP_PUSHNUM_16)
  }

  function PushNumValue(i: Instruction): seq<Byte>
    requires IsPushNum(i)
  {
    if i.code == OP_PUSHNUM_NEG1 then [0x81] else [i.code - OP_PUSHNUM_1 + 1]
  }

  /** The pushes up to the end of an envelope, or the point where it turns out not to be one. */
  datatype Collected =
    | Failed
    | NotOne(rest: seq<Instruction>)
    | Payload(rest: seq<Instruction>, pushes: seq<seq<Byte>>, pushnum: bool)

  function CollectPushes(items: seq<Instruction>, broken: bool): (r: Collected)
    ensures !r.Failed? ==> |r.rest| <= |items|
  {
    if items == [] then if broken then Failed else NotOne([])
    else if items[0] == Op(OP_ENDIF) then Collected.Payload(items[1..], [], false)
    else if IsPushNum(items[0]) then WithPush(PushNumValue(items[0]), true, CollectPushes(items[1..], broken))
    else if items[0].Push? then WithPush(items[0].data, false, CollectPushes(items[1..], broken))
    else NotOne(items[1..])
  }

  function WithPush(push: seq<Byte>, pushnum: bool, r: Collected): Collected {
    if r.Payload? then Collected.Payload(r.rest, [push] + r.pushes, pushnum || r.pushnum) else r
  }

  /** What follows an empty push: not an envelope (stuttering when another empty push comes next), or its pushes. */
  datatype Found = Lost | Nothing(rest: seq<Instruction>, stutter: bool) | An(rest: seq<Instruction>, pushes: seq<seq<Byte>>, pushnum: bool)

  predicate EmptyPushNext(items: seq<Instruction>) {
    items != [] && items[0] == Push([])
  }

  function FromInstructions(items: seq<Instruction>, broken: bool): (r: Found)
    ensures !r.Lost? ==> |r.rest| <= |items|
  {
    if items == [] || items[0] != Op(OP_IF) then Nothing(items, EmptyPushNext(items))
    else if |items| == 1 || items[1] != Push(PROTOCOL_ID) then Nothing(items[1..], EmptyPushNext(items[1..]))
    else
      match CollectPushes(items[2..], broken)
      case Failed => Lost
      case NotOne(rest) => Nothing(rest, false)
      case Payload(rest, pushes, pushnum) => An(rest, pushes, pushnum)
  }

  function Prepend(e: RawEnvelope, r: Result<seq<RawEnvelope>, Error>): Result<seq<RawEnvelope>, Error> {
    match r case Ok(es) => Ok([e] + es) case Err(x) => Err(x)
  }

  function FromTapscript(items: seq<Instruction>, broken: bool, input: nat, offset: nat, stuttered: bool): Result<seq<RawEnvelope>, Error>
    decreases |items|
  {
    if items == [] then if broken then Err(BrokenScript) else Ok([])
    else if items[0] != Push([]) then FromTapscript(items[1..], broken, input, offset, stuttered)
    else
      match FromInstructions(items[1..], broken)
      case Lost => Err(BrokenScript)
      case Nothing(rest, stutter) => FromTapscript(rest, broken, input, offset, stutter)
      case An(rest, pushes, pushnum) =>
        Prepend(Envelope(input, offset, pushes, pushnum, stuttered), FromTapscript(rest, broken, input, offset + 1, stuttered))
  }

  method ReadPushes(items: seq<Instruction>, broken: bool) returns (r: Collected)
    ensures r == CollectPushes(items, broken)
  {
    var rest := items;
    var pushnum := false;
    var payload: seq<seq<Byte>> := [];
    NoPushesBefore(CollectPushes(items, broken));
    while true
      invariant CollectPushes(items, broken) == WithPushes(payload, pushnum, CollectPushes(rest, broken))
      decreases |rest|
    {
      if rest == [] { return if broken then Failed else NotOne([]); }
      var instruction := rest[0];
      rest := rest[1..];
      if instruction == Op(OP_ENDIF) {
        assert payload + [] == payload;
        return Collected.Payload(rest, payload, pushnum);
      }
      if IsPushNum(instruction) {
        MorePushes(payload, pushnum, PushNumValue(instruction), true, CollectPushes(rest, broken));
        pushnum := true;
        payload := payload + [PushNumValue(instruction)];
      } else if instruction.Push? {
        MorePushes(payload, pushnum, instruction.data, false, CollectPushes(rest, broken));
        payload := payload + [instruction.data];
      } else {
        return NotOne(rest);
      }
    }
  }

  function WithPushes(front: seq<seq<Byte>>, pushnum: bool, r: Collected): Collected {
    if r.Payload? then Collected.Payload(r.rest, front + r.pushes, pushnum || r.pushnum) else r
  }

  lemma NoPushesBefore(r: Collected)
    ensures WithPushes([], false, r) == r
  {
    if r.Payload? { assert [] + r.pushes == r.pushes; }
  }

  lemma MorePushes(front: seq<seq<Byte>>, pushnum: bool, push: seq<Byte>, number: bool, r: Collected)
    ensures WithPushes(front, pushnum, WithPush(push, number, r)) == WithPushes(front + [push], pushnum || number, r)
  {
    if r.Payload? { assert front + ([push] + r.pushes) == front + [push] + r.pushes; }
  }

  method ReadEnvelope(items: seq<Instruction>, broken: bool) returns (r: Found)
    ensures r == FromInstructions(items, broken)
  {
    var rest := items;
    if rest == [] || rest[0] != Op(OP_IF) { return Nothing(rest, EmptyPushNext(rest)); }
    rest := rest[1..];
    if rest == [] || rest[0] != Push(PROTOCOL_ID) { return Nothing(rest, EmptyPushNext(rest)); }
    rest := rest[1..];
    var collected := ReadPushes(rest, broken);
    if collected.Failed? {
      r := Lost;
    } else if collected.NotOne? {
      r := Nothing(collected.rest, false);
    } else {
      r := An(collected.rest, collected.pushes, collected.pushnum);
    }
    assert items[1..][1..] == items[2..];
  }

  method ReadTapscript(script: Script, input: nat) returns (r: Result<seq<RawEnvelope>, Error>)
    ensures r == FromTapscript(script.instructions, script.broken, input, 0, false)
  {
    hide FromInstructions;
    var envelopes: seq<RawEnvelope> := [];
    var rest := script.instructions;
    var stuttered := false;
    ghost var whole := FromTapscript(rest, script.broken, input, 0, false);
    NoEnvelopesBefore(whole);
    while true
      invariant whole == EnvelopesBefore(envelopes, FromTapscript(rest, script.broken, input, |envelopes|, stuttered))
      decreases |rest|
    {
      if rest == [] {
        assert envelopes + [] == envelopes;
        return if script.broken then Err(BrokenScript) else Ok(envelopes);
      }
      var instruction := rest[0];
      rest := rest[1..];
      if instruction == Push([]) {
        var found := ReadEnvelope(rest, script.broken);
        if found.Lost? { return Err(BrokenScript); }
        if found.An? {
          var e := Envelope(input, |envelopes|, found.pushes, found.pushnum, stuttered);
          MoreEnvelopes(envelopes, e, FromTapscript(found.rest, script.broken, input, |envelopes| + 1, stuttered));
          envelopes := envelopes + [e];
        } else {
          stuttered := found.stutter;
        }
        rest := found.rest;
      }
    }
  }

  function EnvelopesBefore(front: seq<RawEnvelope>, r: Result<seq<RawEnvelope>, Error>): Result<seq<RawEnvelope>, Error> {
    match r case Ok(es) => Ok(front + es) case Err(x) => Err(x)
  }

  lemma NoEnvelopesBefore(r: Result<seq<RawEnvelope>, Error>)
    ensures EnvelopesBefore([], r) == r
  {
    if r.Ok? { assert [] + r.value == r.value; }
  }

  lemma MoreEnvelopes(front: seq<RawEnvelope>, e: RawEnvelope, r: Result<seq<RawEnvelope>, Error>)
    ensures EnvelopesBefore(front, Prepend(e, r)) == EnvelopesBefore(front + [e], r)
  {
    if r.Ok? { assert front + ([e] + r.value) == front + [e] + r.value; }
  }

  // -------------------------------------------------- fields of an envelope

  type Fields = map<seq<Byte>, seq<seq<Byte>>>

  /** The first even position with an empty push; the body starts after it. */
  function BodyAt(payload: seq<seq<Byte>>): (at: Option<nat>)
    ensures at.Some? ==> at.value < |payload|
  {
    if payload == [] then None
    else if payload[0] == [] then Some(0)
    else if |payload| == 1 then None
    else
      match BodyAt(payload[2..])
      case None => None
      case Some(k) => Some(k + 2)
  }

  function AddField(fields: Fields, key: seq<Byte>, value: seq<Byte>): Fields {
    fields[key := (if key in fields then fields[key] else []) + [value]]
  }

  /** Collects pairs of a key and a value; a key left alone makes the field list incomplete. */
  function Collect(fields: Fields, items: seq<seq<Byte>>): (Fields, bool)
    decreases |items|
  {
    if |items| < 2 then (fields, |items| == 1)
    else Collect(AddField(fields, items[0], items[1]), items[2..])
  }

  function Take(tag: Tag, fields: Fields): (Option<seq<Byte>>, Fields) {
    var key := tag.Bytes();
    if key !in fields then (None, fields)
    else if tag.Chunked() then (if fields[key] == [] then None else Some(Flatten(fields[key])), fields - {key})
    else if fields[key] == [] then (None, fields)
    else (Some(fields[key][0]), if |fields[key]| == 1 then fields - {key} else fields[key := fields[key][1..]])
  }

  function TakeArray(tag: Tag, fields: Fields): (seq<seq<Byte>>, Fields) {
    if tag.Bytes() in fields then (fields[tag.Bytes()], fields - {tag.Bytes()}) else ([], fields)
  }

  predicate AnyRepeated(fields: Fields) {
    exists key :: key in fields && |fields[key]| > 1
  }

  predicate AnyEven(fields: Fields) {
    exists key :: key in fields && key != [] && key[0] % 2 == 0
  }

  /** The values of the known tags, and the fields that are left. */
  datatype Taken = Taken(
    contentEncoding: Option<seq<Byte>>, contentType: Option<seq<Byte>>, delegate: Option<seq<Byte>>, metadata: Option<seq<Byte>>,
    metaprotocol: Option<seq<Byte>>, parents: seq<seq<Byte>>, pointer: Option<seq<Byte>>, dune: Option<seq<Byte>>, left: Fields)

  function TakeAll(fields: Fields): Taken {
    var (contentEncoding, f1) := Take(ContentEncoding, fields);
    var (contentType, f2) := Take(ContentType, f1);
    var (delegate, f3) := Take(Delegate, f2);
    var (metadata, f4) := Take(Metadata, f3);
    var (metaprotocol, f5) := Take(Metaprotocol, f4);
    var (parents, f6) := TakeArray(Parent, f5);
    var (pointer, f7) := Take(Pointer, f6);
    var (dune, f8) := Take(Dune, f7);
    Taken(contentEncoding, contentType, delegate, metadata, metaprotocol, parents, pointer, dune, f8)
  }

  /** The pushes before the body. */
  function FieldItems(payload: seq<seq<Byte>>): seq<seq<Byte>> {
    var body := BodyAt(payload);
    if body.Some? then payload[..body.value] else payload
  }

  function BodyOf(payload: seq<seq<Byte>>): Option<seq<Byte>> {
    var body := BodyAt(payload);
    if body.Some? then Some(Flatten(payload[body.value + 1..])) else None
  }

  /** The inscription in the pushes of an envelope. */
  function ParsePayload(payload: seq<seq<Byte>>): Inscription {
    var (fields, incomplete) := Collect(map[], FieldItems(payload));
    var t := TakeAll(fields);
    Inscription(
      BodyOf(payload), t.contentEncoding, t.contentType, t.delegate, AnyRepeated(fields), incomplete,
      t.metadata, t.metaprotocol, t.parents, t.pointer, t.dune, AnyEven(t.left))
  }

  function Parse(raw: RawEnvelope): ParsedEnvelope {
    Envelope(raw.input, raw.offset, ParsePayload(raw.payload), raw.pushnum, raw.stutter)
  }

  method FindBody(payload: seq<seq<Byte>>) returns (at: Option<nat>)
    ensures at == BodyAt(payload)
  {
    for i := 0 to |payload|
      invariant BodyAt(payload) == if i % 2 == 0 then Shift(i, BodyAt(payload[i..])) else if i < |payload| then Shift(i + 1, BodyAt(payload[i + 1..])) else None
    {
      if i % 2 == 0 && payload[i] == [] { return Some(i); }
      if i % 2 == 0 && i + 1 < |payload| { assert payload[i..][2..] == payload[i + 2..]; }
    }
    return None;
  }

  function Shift(distance: nat, at: Option<nat>): Option<nat> {
    match at case None => None case Some(k) => Some(distance + k)
  }

  method CollectFields(items: seq<seq<Byte>>) returns (fields: Fields, incomplete: bool)
    ensures (fields, incomplete) == Collect(map[], items)
  {
    fields, incomplete := map[], false;
    var rest := items;
    while rest != []
      invariant rest != [] ==> Collect(map[], items) == Collect(fields, rest) && !incomplete
      invariant rest == [] ==> Collect(map[], items) == (fields, incomplete)
      decreases |rest|
    {
      if |rest| >= 2 {
        fields := AddField(fields, rest[0], rest[1]);
        rest := rest[2..];
      } else {
        incomplete := true;
        rest := [];
      }
    }
  }

  method ParseEnvelope(raw: RawEnvelope) returns (e: ParsedEnvelope)
    ensures e == Parse(raw)
  {
    hide Collect, BodyAt, AnyRepeated, AnyEven, Take, TakeArray, Flatten;
    var body := FindBody(raw.payload);
    var fields, incomplete := CollectFields(if body.Some? then raw.payload[..body.value] else raw.payload);
    var duplicate := AnyRepeated(fields);
    var contentEncoding := Take(ContentEncoding, fields);
    var contentType := Take(ContentType, contentEncoding.1);
    var delegate := Take(Delegate, contentType.1);
    var metadata := Take(Metadata, delegate.1);
    var metaprotocol := Take(Metaprotocol, metadata.1);
    var parents := TakeArray(Parent, metaprotocol.1);
    var pointer := Take(Pointer, parents.1);
    var dune := Take(Dune, pointer.1);
    e := Envelope(raw.input, raw.offset,
      Inscription(if body.Some? then Some(Flatten(raw.payload[body.value + 1..])) else None,
        contentEncoding.0, contentType.0, delegate.0, duplicate, incomplete,
        metadata.0, metaprotocol.0, parents.0, pointer.0, dune.0, AnyEven(dune.1)),
      raw.pushnum, raw.stutter);
  }

  // ------------------------------------------ envelopes in input scripts

  /** The data pushes of a script, up to where it breaks off. */
  function DataPushes(items: seq<Instruction>): seq<seq<Byte>> {
    if items == [] then []
    else (if items[0].Push? then [items[0].data] else []) + DataPushes(items[1..])
  }

  /** A wallet's single piece is rewritten as a content type and a body; anything else is taken as it is. */
  function PayloadFromPushes(pushes: seq<seq<Byte>>): seq<seq<Byte>> {
    if |pushes| >= 5 && pushes[0] == [1, 0] && pushes[2] == [] then
      [ContentType.Bytes(), pushes[1], BODY_TAG, pushes[3]]
    else pushes
  }

  /** The payload after the first protocol marker of a script, if it has one. */
  function ScriptPayload(scriptSig: seq<Byte>): Option<seq<seq<Byte>>> {
    AfterMarker(DataPushes(ReadScript(scriptSig).instructions))
  }

  function AfterMarker(pushes: seq<seq<Byte>>): Option<seq<seq<Byte>>> {
    if pushes == [] then None
    else if pushes[0] == PROTOCOL_ID then Some(PayloadFromPushes(pushes[1..]))
    else AfterMarker(pushes[1..])
  }

  /** A transaction by the scripts of its inputs. */
  type Inputs = seq<seq<Byte>>

  function FromTransactions(txs: seq<Inputs>, offset: nat): seq<RawEnvelope> {
    if txs == [] then []
    else if txs[0] == [] || ScriptPayload(txs[0][0]).None? then FromTransactions(txs[1..], offset)
    else [Envelope(0, offset, ScriptPayload(txs[0][0]).value, false, false)] + FromTransactions(txs[1..], offset + 1)
  }

  method ReadTransactions(txs: seq<Inputs>) returns (envelopes: seq<RawEnvelope>)
    ensures envelopes == FromTransactions(txs, 0)
  {
    hide ScriptPayload;
    envelopes := [];
    for t := 0 to |txs|
      invariant FromTransactions(txs, 0) == envelopes + FromTransactions(txs[t..], |envelopes|)
    {
      assert txs[t..][0] == txs[t] && txs[t..][1..] == txs[t + 1..];
      if txs[t] != [] {
        var payload := FindPayload(txs[t][0]);
        if payload.Some? {
          ghost var after := FromTransactions(txs[t + 1..], |envelopes| + 1);
          ghost var e := Envelope(0, |envelopes|, payload.value, false, false);
          assert envelopes + ([e] + after) == envelopes + [e] + after;
          envelopes := envelopes + [Envelope(0, |envelopes|, payload.value, false, false)];
        }
      }
    }
  }

  method CollectDataPushes(items: seq<Instruction>) returns (pushes: seq<seq<Byte>>)
    ensures pushes == DataPushes(items)
  {
    pushes := [];
    for k := 0 to |items|
      invariant DataPushes(items) == pushes + DataPushes(items[k..])
    {
      assert items[k..][1..] == items[k + 1..];
      if items[k].Push? { pushes := pushes + [items[k].data]; }
    }
    assert pushes + [] == pushes;
  }

  method FindPayload(scriptSig: seq<Byte>) returns (payload: Option<seq<seq<Byte>>>)
    ensures payload == ScriptPayload(scriptSig)
  {
    hide DataPushes, ReadScript, PayloadFromPushes;
    var pushes := CollectDataPushes(ReadScript(scriptSig).instructions);
    for k := 0 to |pushes|
      invariant AfterMarker(pushes) == AfterMarker(pushes[k..])
    {
      assert pushes[k..][1..] == pushes[k + 1..];
      if pushes[k] == PROTOCOL_ID { return Some(PayloadFromPushes(pushes[k + 1..])); }
    }
    return None;
  }
}
