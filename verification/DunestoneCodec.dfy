/** The dunestone codec step by step, as the source runs it. */
module DunestoneCodec {
  import opened Wrappers
  import opened Sequences
  import opened Bytes
  import opened Varints
  import opened Scripts
  import opened DuneIds
  import opened Dunestones

  predicate OptionBelow(o: Option<nat>, bound: nat) {
    o.Some? ==> o.value < bound
  }

  predicate TermsSized(t: Terms) {
    && OptionBelow(t.amount, U128) && OptionBelow(t.cap, U128)
    && OptionBelow(t.heightStart, U64) && OptionBelow(t.heightEnd, U64)
    && OptionBelow(t.offsetStart, U64) && OptionBelow(t.offsetEnd, U64)
  }

  predicate EtchingSized(e: Etching) {
    && OptionBelow(e.divisibility, U8) && OptionBelow(e.premine, U128) && OptionBelow(e.dune, U128)
    && OptionBelow(e.spacers, U32) && (e.symbol.Some? ==> IsChar(e.symbol.value))
    && (e.terms.Some? ==> TermsSized(e.terms.value))
  }

  predicate EdictsSized(edicts: seq<Edict>) {
    forall i :: 0 <= i < |edicts| ==> Sized(edicts[i].id) && edicts[i].amount < U128 && edicts[i].output < U32
  }

  /** Every field fits the machine type it has in the source. */
  predicate StoneSized(d: Dunestone) {
    && EdictsSized(d.edicts)
    && (d.etching.Some? ==> EtchingSized(d.etching.value))
    && (d.mint.Some? ==> Sized(d.mint.value))
    && OptionBelow(d.pointer, U32)
  }

  // ------------------------------------------------------------------- sorting

  ghost predicate Sorted(edicts: seq<Edict>) {
    forall i, j :: 0 <= i < j < |edicts| ==> AtMost(edicts[i].id, edicts[j].id)
  }

  lemma {:induction false} InsertKeeps(e: Edict, sorted: seq<Edict>)
    ensures multiset(Insert(e, sorted)) == multiset([e]) + multiset(sorted)
  {
    hide AtMost;
    if sorted != [] && !AtMost(e.id, sorted[0].id) {
      InsertKeeps(e, sorted[1..]);
      assert sorted == [sorted[0]] + sorted[1..];
    }
  }

  lemma {:induction false} InsertSorted(e: Edict, sorted: seq<Edict>)
    requires Sorted(sorted)
    ensures Sorted(Insert(e, sorted))
    ensures multiset(Insert(e, sorted)) == multiset([e]) + multiset(sorted)
  {
    InsertKeeps(e, sorted);
    if sorted != [] && !AtMost(e.id, sorted[0].id) {
      var r := Insert(e, sorted[1..]);
      InsertSorted(e, sorted[1..]);
      forall x | x in r ensures AtMost(sorted[0].id, x.id) {
        assert x in multiset(r);
      }
    }
  }

  lemma {:induction false} SortSorts(edicts: seq<Edict>)
    ensures Sorted(StableSort(edicts))
    ensures multiset(StableSort(edicts)) == multiset(edicts)
  {
    if edicts != [] {
      SortSorts(edicts[1..]);
      InsertSorted(edicts[0], StableSort(edicts[1..]));
      assert edicts == [edicts[0]] + edicts[1..];
    }
  }

  /** The edicts for one identifier, in order. */
  function SameId(edicts: seq<Edict>, id: DuneId): seq<Edict> {
    if edicts == [] then []
    else (if edicts[0].id == id then [edicts[0]] else []) + SameId(edicts[1..], id)
  }

  lemma {:induction false} InsertStable(e: Edict, sorted: seq<Edict>, id: DuneId)
    ensures SameId(Insert(e, sorted), id) == (if e.id == id then [e] else []) + SameId(sorted, id)
  {
    if sorted == [] || AtMost(e.id, sorted[0].id) {
      assert ([e] + sorted)[1..] == sorted;
    } else {
      InsertStable(e, sorted[1..], id);
      assert ([sorted[0]] + Insert(e, sorted[1..]))[1..] == Insert(e, sorted[1..]);
    }
  }

  /** Sorting is stable: edicts with one identifier keep their order. */
  lemma {:induction false} SortStable(edicts: seq<Edict>, id: DuneId)
    ensures SameId(StableSort(edicts), id) == SameId(edicts, id)
  {
    if edicts != [] {
      SortStable(edicts[1..], id);
      InsertStable(edicts[0], StableSort(edicts[1..]), id);
    }
  }

  lemma SortKeepsSizes(edicts: seq<Edict>)
    requires EdictsSized(edicts)
    ensures EdictsSized(StableSort(edicts)) && |StableSort(edicts)| == |edicts|
  {
    SortSorts(edicts);
    var s := StableSort(edicts);
    assert |multiset(s)| == |multiset(edicts)|;
    forall i | 0 <= i < |s| ensures Sized(s[i].id) && s[i].amount < U128 && s[i].output < U32 {
      assert s[i] in multiset(edicts);
    }
  }

  // --------------------------------------------------------------- enciphering

  method EncodeValues(tag: nat, values: seq<nat>, payload: seq<Byte>) returns (r: seq<Byte>)
    requires tag < U128 && forall i :: 0 <= i < |values| ==> values[i] < U128
    ensures r == payload + EncodeAll(Emit(tag, values))
  {
    r := payload;
    var i := 0;
    assert values[0..] == values;
    while i < |values|
      invariant i <= |values|
      invariant r + EncodeAll(Emit(tag, values[i..])) == payload + EncodeAll(Emit(tag, values))
    {
      EmitStep(tag, values[i..]);
      assert values[i..][1..] == values[i + 1..];
      r := EncodeToVec(tag, r);
      r := EncodeToVec(values[i], r);
      i := i + 1;
    }
    assert values[i..] == [];
  }

  lemma EmitStep(tag: nat, values: seq<nat>)
    requires values != []
    ensures EncodeAll(Emit(tag, values)) == Encode(tag) + Encode(values[0]) + EncodeAll(Emit(tag, values[1..]))
  {
    var rest := Emit(tag, values[1..]);
    assert ([tag, values[0]] + rest)[1..] == [values[0]] + rest;
    assert ([values[0]] + rest)[1..] == rest;
  }

  lemma {:induction false} EmitAllAppend(slots: seq<Slot>, last: Slot)
    ensures EmitAll(slots + [last]) == EmitAll(slots) + Emit(last.tag, last.values)
  {
    hide Emit;
    if slots == [] {
      assert slots + [last] == [last];
      assert EmitAll([last]) == Emit(last.tag, last.values) + [] == Emit(last.tag, last.values);
    } else {
      EmitAllAppend(slots[1..], last);
      assert (slots + [last])[1..] == slots[1..] + [last];
      Assoc(Emit(slots[0].tag, slots[0].values), EmitAll(slots[1..]), Emit(last.tag, last.values));
    }
  }

  /** Encodes one more slot behind those already done. */
  method EncodeSlot(tag: nat, values: seq<nat>, payload: seq<Byte>, ghost done: seq<Slot>) returns (r: seq<Byte>)
    requires tag < U128 && forall i :: 0 <= i < |values| ==> values[i] < U128
    requires payload == EncodeAll(EmitAll(done))
    ensures r == EncodeAll(EmitAll(done + [Slot(tag, values)]))
  {
    EmitAllAppend(done, Slot(tag, values));
    EncodeAllAppend(EmitAll(done), Emit(tag, values));
    r := EncodeValues(tag, values, payload);
  }

  method EncodeOption(tag: nat, value: Option<nat>, payload: seq<Byte>, ghost done: seq<Slot>) returns (r: seq<Byte>)
    requires tag < U128 && OptionBelow(value, U128)
    requires payload == EncodeAll(EmitAll(done))
    ensures r == EncodeAll(EmitAll(done + [Slot(tag, Values(value))]))
  {
    if value.Some? {
      r := EncodeSlot(tag, [value.value], payload, done);
    } else {
      EmitAllAppend(done, Slot(tag, []));
      assert EmitAll(done) + [] == EmitAll(done);
      r := payload;
    }
  }

  method EncipherTerms(t: Terms, payload: seq<Byte>, ghost done: seq<Slot>) returns (r: seq<Byte>)
    requires TermsSized(t) && payload == EncodeAll(EmitAll(done))
    ensures r == EncodeAll(EmitAll(done + TermsSlots(t)))
  {
    hide EncodeAll, EmitAll;
    ghost var all := TermsSlots(t);
    r := EncodeOption(AMOUNT, t.amount, payload, done);
    r := EncodeOption(CAP, t.cap, r, done + [all[0]]);
    r := EncodeOption(HEIGHT_START, t.heightStart, r, done + [all[0]] + [all[1]]);
    r := EncodeOption(HEIGHT_END, t.heightEnd, r, done + [all[0]] + [all[1]] + [all[2]]);
    r := EncodeOption(OFFSET_START, t.offsetStart, r, done + [all[0]] + [all[1]] + [all[2]] + [all[3]]);
    r := EncodeOption(OFFSET_END, t.offsetEnd, r, done + [all[0]] + [all[1]] + [all[2]] + [all[3]] + [all[4]]);
    assert done + [all[0]] + [all[1]] + [all[2]] + [all[3]] + [all[4]] + [all[5]] == done + all;
  }

  method EncipherEtching(e: Etching) returns (r: seq<Byte>)
    requires EtchingSized(e)
    ensures r == EncodeAll(EmitAll(EtchingSlots(e)))
  {
    var flags := SetFlag(0, ETCHING_FLAG);
    if e.terms.Some? {
      flags := SetFlag(flags, TERMS_FLAG);
    }
    if e.turbo {
      flags := SetFlag(flags, TURBO_FLAG);
    }
    assert flags == FlagsOf(e);
    assert EncodeAll(EmitAll([])) == [];
    r := EncipherEtchingFields(e, flags);
  }

  method EncipherEtchingFields(e: Etching, flags: nat) returns (r: seq<Byte>)
    requires EtchingSized(e) && flags == FlagsOf(e)
    ensures r == EncodeAll(EmitAll(EtchingSlots(e)))
  {
    assert EncodeAll(EmitAll([])) == [];
    hide EncodeAll, EmitAll, Emit, Encode, FlagsOf, Values;
    ghost var all := EtchingSlots(e);
    r := EncodeSlot(FLAGS, [flags], [], []);
    r := EncodeOption(DUNE, e.dune, r, [] + [all[0]]);
    r := EncodeOption(DIVISIBILITY, e.divisibility, r, [] + [all[0]] + [all[1]]);
    ghost var done := [] + [all[0]] + [all[1]] + [all[2]];
    r := EncipherLooks(e, r, done);
    assert done + LookSlots(e) == all;
  }

  function LookSlots(e: Etching): seq<Slot> {
    [Slot(SPACERS, Values(e.spacers)), Slot(SYMBOL, Values(e.symbol)), Slot(PREMINE, Values(e.premine))]
  }

  method EncipherLooks(e: Etching, payload: seq<Byte>, ghost done: seq<Slot>) returns (r: seq<Byte>)
    requires EtchingSized(e) && payload == EncodeAll(EmitAll(done))
    ensures r == EncodeAll(EmitAll(done + LookSlots(e)))
  {
    hide EncodeAll, EmitAll, Emit, Encode, Values;
    ghost var all := LookSlots(e);
    r := EncodeOption(SPACERS, e.spacers, payload, done);
    r := EncodeOption(SYMBOL, e.symbol, r, done + [all[0]]);
    r := EncodeOption(PREMINE, e.premine, r, done + [all[0]] + [all[1]]);
    assert done + [all[0]] + [all[1]] + [all[2]] == done + all;
  }

  method EncipherEdict(delta: (nat, nat), edict: Edict, payload: seq<Byte>) returns (r: seq<Byte>)
    requires delta.0 < U128 && delta.1 < U128 && edict.amount < U128 && edict.output < U32
    ensures r == payload + (Encode(delta.0) + Encode(delta.1) + Encode(edict.amount) + Encode(edict.output))
  {
    r := EncodeToVec(delta.0, payload);
    r := EncodeToVec(delta.1, r);
    r := EncodeToVec(edict.amount, r);
    r := EncodeToVec(edict.output, r);
  }

  lemma EdictFits(edicts: seq<Edict>, i: nat, previous: DuneId)
    requires EdictsSized(edicts) && Sorted(edicts) && i < |edicts| && Sized(previous) && AtMost(previous, edicts[i].id)
    ensures Sized(edicts[i].id) && edicts[i].amount < U128 && edicts[i].output < U32
    ensures Delta(previous, edicts[i].id).Some?
    ensures Delta(previous, edicts[i].id).value.0 < U128 && Delta(previous, edicts[i].id).value.1 < U128
    ensures i + 1 < |edicts| ==> AtMost(edicts[i].id, edicts[i + 1].id)
  {
    NextUndoesDelta(previous, edicts[i].id);
  }

  lemma FromDefault(edicts: seq<Edict>)
    ensures Sized(DEFAULT_ID) && (edicts != [] ==> AtMost(DEFAULT_ID, edicts[0].id))
  {
  }

  method EncipherEdicts(edicts: seq<Edict>, payload: seq<Byte>) returns (r: seq<Byte>)
    requires EdictsSized(edicts) && Sorted(edicts)
    ensures r == payload + EncodeAll(Body(DEFAULT_ID, edicts))
  {
    r := payload;
    var previous := DEFAULT_ID;
    var i := 0;
    assert edicts[0..] == edicts;
    FromDefault(edicts);
    hide Encode, EncodeAll, Body, Delta, Sorted, EdictsSized, AtMost, Sized;
    while i < |edicts|
      invariant i <= |edicts| && Sized(previous)
      invariant i < |edicts| ==> AtMost(previous, edicts[i].id)
      invariant r + EncodeAll(Body(previous, edicts[i..])) == payload + EncodeAll(Body(DEFAULT_ID, edicts))
    {
      var edict := edicts[i];
      EdictFits(edicts, i, previous);
      BodyStep(previous, edicts[i..]);
      assert edicts[i..][1..] == edicts[i + 1..];
      r := EncipherEdict(Delta(previous, edict.id).value, edict, r);
      previous := edict.id;
      i := i + 1;
    }
    assert edicts[i..] == [];
    BodyEnd(previous);
  }

  lemma BodyEnd(previous: DuneId)
    ensures EncodeAll(Body(previous, [])) == []
  {
  }

  lemma BodyStep(previous: DuneId, edicts: seq<Edict>)
    requires edicts != [] && Delta(previous, edicts[0].id).Some?
    ensures var e := edicts[0]; var (block, tx) := Delta(previous, e.id).value;
      EncodeAll(Body(previous, edicts))
      == Encode(block) + Encode(tx) + Encode(e.amount) + Encode(e.output) + EncodeAll(Body(e.id, edicts[1..]))
  {
    var e := edicts[0];
    var (block, tx) := Delta(previous, e.id).value;
    FourNumbers(block, tx, e.amount, e.output, Body(e.id, edicts[1..]));
  }

  lemma FourNumbers(a: nat, b: nat, c: nat, d: nat, rest: seq<nat>)
    ensures EncodeAll([a, b, c, d] + rest) == Encode(a) + Encode(b) + Encode(c) + Encode(d) + EncodeAll(rest)
  {
    hide EncodeAll, Encode;
    EncodeAllAppend([a, b, c, d], rest);
    EncodeAllAppend([a, b], [c, d]);
    assert [a, b] + [c, d] == [a, b, c, d];
    TwoNumbers(a, b);
    TwoNumbers(c, d);
  }

  lemma TwoNumbers(a: nat, b: nat)
    ensures EncodeAll([a, b]) == Encode(a) + Encode(b)
  {
    assert [a, b][1..] == [b];
    assert [b][1..] == [];
    assert EncodeAll([b]) == Encode(b) + EncodeAll([]) == Encode(b);
  }

  /** The payload: tagged fields, then the sorted edicts behind the body tag. */
  method EncipherPayload(d: Dunestone) returns (payload: seq<Byte>)
    requires StoneSized(d)
    ensures payload == EncodeAll(MessageOf(d))
  {
    hide Encode;
    payload := [];
    ghost var done: seq<Slot> := [];
    assert EncodeAll(EmitAll(done)) == [];
    hide EncodeAll, EmitAll;
    if d.etching.Some? {
      payload := EncipherEtching(d.etching.value);
      done := EtchingSlots(d.etching.value);
      if d.etching.value.terms.Some? {
        payload := EncipherTerms(d.etching.value.terms.value, payload, done);
        done := done + TermsSlots(d.etching.value.terms.value);
      }
    }
    ghost var mint := MintSlots(d);
    if d.mint.Some? {
      payload := EncodeSlot(MINT, [d.mint.value.block, d.mint.value.tx], payload, done);
    } else {
      EmitAllAppend(done, Slot(MINT, []));
      assert EmitAll(done) + [] == EmitAll(done);
    }
    payload := EncodeOption(DEFAULT_OUTPUT, d.pointer, payload, done + [mint[0]]);
    assert done + [mint[0]] + [mint[1]] == Slots(d);
    payload := EncipherBody(d, payload);
  }

  method EncipherBody(d: Dunestone, payload: seq<Byte>) returns (r: seq<Byte>)
    requires StoneSized(d) && payload == EncodeAll(EmitAll(Slots(d)))
    ensures r == EncodeAll(MessageOf(d))
  {
    r := payload;
    if d.edicts != [] {
      var edicts := StableSort(d.edicts);
      SortSorts(d.edicts);
      SortKeepsSizes(d.edicts);
      BodyBytes(EmitAll(Slots(d)), Body(DEFAULT_ID, edicts));
      r := EncodeToVec(BODY, r);
      r := EncipherEdicts(edicts, r);
    } else {
      assert EmitAll(Slots(d)) + [] == EmitAll(Slots(d));
    }
  }

  lemma BodyBytes(fields: seq<nat>, body: seq<nat>)
    ensures EncodeAll(fields + ([BODY] + body)) == EncodeAll(fields) + Encode(BODY) + EncodeAll(body)
  {
    EncodeAllAppend(fields, [BODY] + body);
    assert ([BODY] + body)[1..] == body;
  }

  method Encipher(d: Dunestone) returns (script: seq<Byte>)
    requires StoneSized(d)
    ensures script == PrintAll(ScriptOf(d))
  {
    var payload := EncipherPayload(d);
    script := BuildScript(payload);
  }

  lemma {:induction false} PrintAllAppend(a: seq<Instruction>, b: Instruction)
    requires (forall i :: 0 <= i < |a| ==> Printable(a[i])) && Printable(b)
    ensures PrintAll(a + [b]) == PrintAll(a) + Print(b)
  {
    hide Print, Printable;
    if a == [] {
      assert a + [b] == [b];
    } else {
      PrintAllAppend(a[1..], b);
      assert (a + [b])[1..] == a[1..] + [b];
    }
  }

  /** Two opcodes, then the payload in as few pushes as their size allows. */
  method BuildScript(payload: seq<Byte>) returns (script: seq<Byte>)
    ensures var items := [Op(OP_RETURN), Op(OP_PUSHNUM_13)] + PushAll(Chunks(payload, U32 - 1));
      && (forall i :: 0 <= i < |items| ==> Printable(items[i]))
      && script == PrintAll(items)
  {
    var chunks := Chunks(payload, U32 - 1);
    FlattenChunks(payload, U32 - 1);
    ghost var items := [Op(OP_RETURN), Op(OP_PUSHNUM_13)] + PushAll(chunks);
    script := [OP_RETURN, OP_PUSHNUM_13];
    assert items[..2] == [Op(OP_RETURN)] + [Op(OP_PUSHNUM_13)];
    PrintAllAppend([Op(OP_RETURN)], Op(OP_PUSHNUM_13));
    assert PrintAll([Op(OP_RETURN)]) == [OP_RETURN] + PrintAll([]);
    for i := 0 to |chunks|
      invariant forall k :: 0 <= k < |items| ==> Printable(items[k])
      invariant script == PrintAll(items[..i + 2])
    {
      assert items[..i + 3] == items[..i + 2] + [Push(chunks[i])];
      PrintAllAppend(items[..i + 2], Push(chunks[i]));
      script := script + PushSlice(chunks[i]);
    }
    assert items[..|chunks| + 2] == items;
  }

  // --------------------------------------------------------------- deciphering

  function Ahead(front: seq<Edict>, r: (Option<Flaw>, seq<Edict>)): (Option<Flaw>, seq<Edict>) {
    (r.0, front + r.1)
  }

  lemma AheadStep(front: seq<Edict>, edict: Edict, r: (Option<Flaw>, seq<Edict>))
    ensures Ahead(front, (r.0, [edict] + r.1)) == Ahead(front + [edict], r)
    ensures Ahead([], r) == r
    ensures Ahead(front, (r.0, [])) == (r.0, front)
  {
    assert front + ([edict] + r.1) == front + [edict] + r.1;
    assert [] + r.1 == r.1 && front + [] == front;
  }

  method ReadEdictChunks(outputs: nat, rest: seq<nat>) returns (flaw: Option<Flaw>, edicts: seq<Edict>)
    ensures (flaw, edicts) == ReadEdicts(outputs, rest, DEFAULT_ID)
  {
    hide Next, EdictFromIntegers, Ahead;
    var id := DEFAULT_ID;
    flaw, edicts := None, [];
    var i := 0;
    assert rest[0..] == rest;
    AheadStep([], Edict(id, 0, 0), ReadEdicts(outputs, rest, id));
    while i < |rest|
      invariant i <= |rest| && flaw == None
      invariant ReadEdicts(outputs, rest, DEFAULT_ID) == Ahead(edicts, ReadEdicts(outputs, rest[i..], id))
    {
      var chunk := rest[i..];
      ghost var found := ReadEdicts(outputs, chunk, id);
      AheadStep(edicts, Edict(id, 0, 0), found);
      if |chunk| < 4 {
        return Some(TrailingIntegers), edicts;
      }
      var next := Next(id, chunk[0], chunk[1]);
      if next == None {
        return Some(EdictDuneId), edicts;
      }
      var edict := EdictFromIntegers(outputs, next.value, chunk[2], chunk[3]);
      if edict == None {
        return Some(EdictOutput), edicts;
      }
      assert chunk[4..] == rest[i + 4..];
      AheadStep(edicts, edict.value, ReadEdicts(outputs, rest[i + 4..], next.value));
      id := next.value;
      edicts := edicts + [edict.value];
      i := i + 4;
    }
    assert rest[i..] == [];
    AheadStep(edicts, Edict(id, 0, 0), (None, []));
  }

  method FromIntegers(outputs: nat, payload: seq<nat>) returns (m: Message)
    ensures m == ReadFields(outputs, payload, map[])
  {
    hide ReadEdicts;
    var fields: Fields := map[];
    var i := 0;
    assert payload[0..] == payload;
    while i < |payload|
      invariant i <= |payload|
      invariant ReadFields(outputs, payload, map[]) == ReadFields(outputs, payload[i..], fields)
    {
      var tag := payload[i];
      if tag == BODY {
        assert payload[i..][1..] == payload[i + 1..];
        var flaw, edicts := ReadEdictChunks(outputs, payload[i + 1..]);
        return Message(flaw, edicts, fields);
      }
      if i + 1 >= |payload| {
        return Message(Some(TruncatedField), [], fields);
      }
      assert payload[i..][2..] == payload[i + 2..];
      fields := PushField(fields, tag, payload[i + 1]);
      i := i + 2;
    }
    m := Message(None, [], fields);
  }

  function Behind(front: seq<Byte>, p: Payload): Payload {
    if p.Valid? then Valid(front + p.bytes) else p
  }

  lemma BehindStep(front: seq<Byte>, items: seq<Instruction>, broken: bool)
    requires items != []
    ensures items[0].Push? ==>
              Behind(front, ReadPushes(items, broken)) == Behind(front + items[0].data, ReadPushes(items[1..], broken))
    ensures items[0].Op? ==> Behind(front, ReadPushes(items, broken)) == Invalid(Opcode)
  {
    var tail := ReadPushes(items[1..], broken);
    assert items[0].Push? && tail.Valid? ==> front + (items[0].data + tail.bytes) == front + items[0].data + tail.bytes;
  }

  method ReadPayload(script: seq<Byte>) returns (p: Payload)
    requires Marked(script)
    ensures p == ReadPushes(ReadScript(script).instructions[2..], ReadScript(script).broken)
  {
    hide ReadScript;
    var s := ReadScript(script);
    var items := s.instructions[2..];
    var payload: seq<Byte> := [];
    assert items[0..] == items;
    assert forall x: seq<Byte> :: [] + x == x;
    var i := 0;
    while i < |items|
      invariant i <= |items|
      invariant ReadPushes(items, s.broken) == Behind(payload, ReadPushes(items[i..], s.broken))
    {
      BehindStep(payload, items[i..], s.broken);
      if items[i].Op? {
        return Invalid(Opcode);
      }
      assert items[i..][1..] == items[i + 1..];
      payload := payload + items[i].data;
      i := i + 1;
    }
    assert items[i..] == [] && payload + [] == payload;
    p := if s.broken then Invalid(InvalidScript) else Valid(payload);
  }

  method FindPayload(outputs: seq<seq<Byte>>) returns (p: Option<Payload>)
    ensures p == PayloadOf(outputs)
  {
    var i := 0;
    assert outputs[0..] == outputs;
    while i < |outputs|
      invariant i <= |outputs|
      invariant PayloadOf(outputs) == PayloadOf(outputs[i..])
    {
      if Marked(outputs[i]) {
        var payload := ReadPayload(outputs[i]);
        return Some(payload);
      }
      assert outputs[i..][1..] == outputs[i + 1..];
      i := i + 1;
    }
    return None;
  }

  method DecipherTransaction(outputs: seq<seq<Byte>>) returns (artifact: Option<Artifact>)
    ensures artifact == Decipher(outputs)
  {
    var payload := FindPayload(outputs);
    if payload == None {
      return None;
    }
    if payload.value.Invalid? {
      return Some(Cenotaph(Some(payload.value.flaw), None, None));
    }
    var integers := ReadIntegers(payload.value.bytes);
    if integers.Err? {
      return Some(Cenotaph(Some(VarintFlaw), None, None));
    }
    var m := FromIntegers(|outputs|, integers.value);
    var result := InterpretMessage(|outputs|, m);
    artifact := Some(result);
  }

  /** Keeps the first flaw found. */
  function GetOrInsert(flaw: Option<Flaw>, found: bool, next: Flaw): Option<Flaw> {
    if flaw == None && found then Some(next) else flaw
  }

  /** Takes every known field and flag out of the message, then judges what is left. */
  method InterpretMessage(outputs: nat, m: Message) returns (artifact: Artifact)
    ensures artifact == Interpret(outputs, m)
  {
    hide Take, TakeTwo, TakeEtching, TakeFlag, Supply;
    var takenFlags := Take(m.fields, FLAGS, Any);
    var flags, fields := takenFlags.0.GetOr(0), takenFlags.1;
    var etching: Option<Etching> := None;
    var etchingFlag := TakeFlag(flags, ETCHING_FLAG);
    flags := etchingFlag.1;
    if etchingFlag.0 {
      var termsFlag := TakeFlag(flags, TERMS_FLAG);
      var turboFlag := TakeFlag(termsFlag.1, TURBO_FLAG);
      flags := turboFlag.1;
      var taken := TakeEtching(fields, termsFlag.0, turboFlag.0);
      etching, fields := Some(taken.0), taken.1;
    }
    var mint := TakeTwo(fields, MINT, AsId);
    fields := mint.1;
    var pointer := Take(fields, DEFAULT_OUTPUT, v => AsPointer(outputs, v));
    fields := pointer.1;
    var flaw := m.flaw;
    flaw := GetOrInsert(flaw, etching.Some? && Supply(etching.value) == None, SupplyOverflow);
    flaw := GetOrInsert(flaw, flags != 0, UnrecognizedFlag);
    flaw := GetOrInsert(flaw, EvenTagLeft(fields), UnrecognizedEvenTag);
    if flaw.Some? {
      artifact := Cenotaph(flaw, mint.0, if etching.Some? then etching.value.dune else None);
    } else {
      artifact := Stone(Dunestone(m.edicts, etching, mint.0, pointer.0));
    }
  }
}
