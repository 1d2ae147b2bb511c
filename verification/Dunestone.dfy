/**
  Dunestones: edicts, an etching, a mint and a pointer, enciphered into an
  output script and deciphered from a transaction's outputs.
 */
module Dunestones {
  import opened Wrappers
  import opened Bytes
  import opened Varints
  import opened Scripts
  import opened DuneIds

  datatype Edict = Edict(id: DuneId, amount: nat, output: nat)

  datatype Terms = Terms(amount: Option<nat>, cap: Option<nat>, heightStart: Option<nat>, heightEnd: Option<nat>,
                         offsetStart: Option<nat>, offsetEnd: Option<nat>)

  datatype Etching = Etching(divisibility: Option<nat>, premine: Option<nat>, dune: Option<nat>, spacers: Option<nat>,
                             symbol: Option<nat>, terms: Option<Terms>, turbo: bool)

  datatype Dunestone = Dunestone(edicts: seq<Edict>, etching: Option<Etching>, mint: Option<DuneId>, pointer: Option<nat>)

  datatype Flaw =
    | EdictOutput | EdictDuneId | InvalidScript | Opcode | SupplyOverflow
    | TrailingIntegers | TruncatedField | UnrecognizedEvenTag | UnrecognizedFlag | VarintFlaw

  datatype Artifact =
    | Cenotaph(flaw: Option<Flaw>, mint: Option<DuneId>, etching: Option<nat>)
    | Stone(stone: Dunestone)

  const MAX_DIVISIBILITY := 38
  const MAX_SPACERS := 0x7ff_ffff

  const BODY: nat := 0
  const FLAGS: nat := 2
  const DUNE: nat := 4
  const PREMINE: nat := 6
  const CAP: nat := 8
  const AMOUNT: nat := 10
  const HEIGHT_START: nat := 12
  const HEIGHT_END: nat := 14
  const OFFSET_START: nat := 16
  const OFFSET_END: nat := 18
  const MINT: nat := 20
  /** The tag of the pointer field, which names an output. */
  const DEFAULT_OUTPUT: nat := 22
  const DIVISIBILITY: nat := 1
  const SPACERS: nat := 3
  const SYMBOL: nat := 5

  const ETCHING_FLAG: nat := 1
  const TERMS_FLAG: nat := 2
  const TURBO_FLAG: nat := 4

  // ------------------------------------------------------------------ flags

  function HasFlag(flags: nat, mask: nat): bool
    requires mask > 0
  {
    flags / mask % 2 == 1
  }

  function SetFlag(flags: nat, mask: nat): nat
    requires mask > 0
  {
    if HasFlag(flags, mask) then flags else flags + mask
  }

  function TakeFlag(flags: nat, mask: nat): (r: (bool, nat))
    requires mask > 0
  {
    if HasFlag(flags, mask) then
      assert flags == flags / mask * mask + flags % mask;
      (true, flags - mask)
    else (false, flags)
  }

  // ----------------------------------------------------------- stable order

  /** Puts an edict before the first one that is not smaller. */
  function Insert(e: Edict, sorted: seq<Edict>): seq<Edict> {
    if sorted == [] || AtMost(e.id, sorted[0].id) then [e] + sorted
    else [sorted[0]] + Insert(e, sorted[1..])
  }

  /** Edicts by identifier; those with the same identifier keep their order. */
  function StableSort(edicts: seq<Edict>): seq<Edict> {
    if edicts == [] then [] else Insert(edicts[0], StableSort(edicts[1..]))
  }

  // -------------------------------------------------------------- enciphering

  /** A tag with the values encoded under it. */
  datatype Slot = Slot(tag: nat, values: seq<nat>)

  function Values(o: Option<nat>): seq<nat> {
    if o.Some? then [o.value] else []
  }

  /** The tag is repeated before every value. */
  function Emit(tag: nat, values: seq<nat>): seq<nat> {
    if values == [] then [] else [tag, values[0]] + Emit(tag, values[1..])
  }

  function EmitAll(slots: seq<Slot>): seq<nat> {
    if slots == [] then [] else Emit(slots[0].tag, slots[0].values) + EmitAll(slots[1..])
  }

  function FlagsOf(e: Etching): nat {
    ETCHING_FLAG + (if e.terms.Some? then TERMS_FLAG else 0) + (if e.turbo then TURBO_FLAG else 0)
  }

  function EtchingSlots(e: Etching): seq<Slot> {
    [Slot(FLAGS, [FlagsOf(e)]), Slot(DUNE, Values(e.dune)), Slot(DIVISIBILITY, Values(e.divisibility)),
     Slot(SPACERS, Values(e.spacers)), Slot(SYMBOL, Values(e.symbol)), Slot(PREMINE, Values(e.premine))]
  }

  function TermsSlots(t: Terms): seq<Slot> {
    [Slot(AMOUNT, Values(t.amount)), Slot(CAP, Values(t.cap)),
     Slot(HEIGHT_START, Values(t.heightStart)), Slot(HEIGHT_END, Values(t.heightEnd)),
     Slot(OFFSET_START, Values(t.offsetStart)), Slot(OFFSET_END, Values(t.offsetEnd))]
  }

  function MintSlots(d: Dunestone): seq<Slot> {
    [Slot(MINT, if d.mint.Some? then [d.mint.value.block, d.mint.value.tx] else []), Slot(DEFAULT_OUTPUT, Values(d.pointer))]
  }

  function Slots(d: Dunestone): seq<Slot> {
    (if d.etching.Some? then EtchingSlots(d.etching.value) else [])
    + (if d.etching.Some? && d.etching.value.terms.Some? then TermsSlots(d.etching.value.terms.value) else [])
    + MintSlots(d)
  }

  /** Edicts as deltas from the identifier before them. */
  function Body(previous: DuneId, edicts: seq<Edict>): seq<nat>
    decreases |edicts|
  {
    if edicts == [] then []
    else
      var (block, tx) := Delta(previous, edicts[0].id).GetOr((0, 0));
      [block, tx, edicts[0].amount, edicts[0].output] + Body(edicts[0].id, edicts[1..])
  }

  function MessageOf(d: Dunestone): seq<nat> {
    EmitAll(Slots(d)) + (if d.edicts == [] then [] else [BODY] + Body(DEFAULT_ID, StableSort(d.edicts)))
  }

  function PushAll(chunks: seq<seq<Byte>>): seq<Instruction> {
    seq(|chunks|, i requires 0 <= i < |chunks| => Push(chunks[i]))
  }

  /** The output script as instructions. */
  function ScriptOf(d: Dunestone): (items: seq<Instruction>)
    ensures forall i :: 0 <= i < |items| ==> Printable(items[i])
  {
    hide EncodeAll, MessageOf, Chunks;
    FlattenChunks(EncodeAll(MessageOf(d)), U32 - 1);
    [Op(OP_RETURN), Op(OP_PUSHNUM_13)] + PushAll(Chunks(EncodeAll(MessageOf(d)), U32 - 1))
  }

  // -------------------------------------------------------------- deciphering

  type Fields = map<nat, seq<nat>>

  datatype Message = Message(flaw: Option<Flaw>, edicts: seq<Edict>, fields: Fields)

  function Lookup(fields: Fields, tag: nat): seq<nat> {
    if tag in fields then fields[tag] else []
  }

  function PushField(fields: Fields, tag: nat, value: nat): Fields {
    fields[tag := Lookup(fields, tag) + [value]]
  }

  function EdictFromIntegers(outputs: nat, id: DuneId, amount: nat, output: nat): Option<Edict> {
    if output >= U32 || output > outputs then None else Some(Edict(id, amount, output))
  }

  function ReadEdicts(outputs: nat, rest: seq<nat>, id: DuneId): (Option<Flaw>, seq<Edict>) {
    if rest == [] then (None, [])
    else if |rest| < 4 then (Some(TrailingIntegers), [])
    else
      match Next(id, rest[0], rest[1])
      case None => (Some(EdictDuneId), [])
      case Some(next) =>
        match EdictFromIntegers(outputs, next, rest[2], rest[3])
        case None => (Some(EdictOutput), [])
        case Some(edict) =>
          var (flaw, edicts) := ReadEdicts(outputs, rest[4..], next);
          (flaw, [edict] + edicts)
  }

  function ReadFields(outputs: nat, payload: seq<nat>, fields: Fields): Message {
    if payload == [] then Message(None, [], fields)
    else if payload[0] == BODY then
      var (flaw, edicts) := ReadEdicts(outputs, payload[1..], DEFAULT_ID);
      Message(flaw, edicts, fields)
    else if |payload| < 2 then Message(Some(TruncatedField), [], fields)
    else ReadFields(outputs, payload[2..], PushField(fields, payload[0], payload[1]))
  }

  /** What remains of a field once its first n values were taken. */
  function Drop(fields: Fields, tag: nat, n: nat): Fields
    requires |Lookup(fields, tag)| >= n
  {
    if |Lookup(fields, tag)| == n then fields - {tag} else fields[tag := fields[tag][n..]]
  }

  /** The first value of a field, if there is one and the caller accepts it. */
  function Take<T>(fields: Fields, tag: nat, accept: nat -> Option<T>): (r: (Option<T>, Fields)) {
    var values := Lookup(fields, tag);
    if values == [] || accept(values[0]) == None then (None, fields)
    else (accept(values[0]), Drop(fields, tag, 1))
  }

  function TakeTwo<T>(fields: Fields, tag: nat, accept: (nat, nat) -> Option<T>): (r: (Option<T>, Fields)) {
    var values := Lookup(fields, tag);
    if |values| < 2 || accept(values[0], values[1]) == None then (None, fields)
    else (accept(values[0], values[1]), Drop(fields, tag, 2))
  }

  function Any(v: nat): Option<nat> { Some(v) }
  function AsU64(v: nat): Option<nat> { if v < U64 then Some(v) else None }
  function AsDivisibility(v: nat): Option<nat> { if v < U8 && v <= MAX_DIVISIBILITY then Some(v) else None }
  function AsSpacers(v: nat): Option<nat> { if v < U32 && v <= MAX_SPACERS then Some(v) else None }

  predicate IsChar(v: nat) {
    v < 0xd800 || 0xe000 <= v < 0x11_0000
  }

  function AsSymbol(v: nat): Option<nat> { if IsChar(v) then Some(v) else None }
  function AsId(block: nat, tx: nat): Option<DuneId> { if block < U64 && tx < U32 then New(block, tx) else None }
  function AsPointer(outputs: nat, v: nat): Option<nat> { if v < U32 && v < outputs then Some(v) else None }

  function TakeTerms(fields: Fields): (Terms, Fields) {
    var (cap, f1) := Take(fields, CAP, Any);
    var (heightStart, f2) := Take(f1, HEIGHT_START, AsU64);
    var (heightEnd, f3) := Take(f2, HEIGHT_END, AsU64);
    var (amount, f4) := Take(f3, AMOUNT, Any);
    var (offsetStart, f5) := Take(f4, OFFSET_START, AsU64);
    var (offsetEnd, f6) := Take(f5, OFFSET_END, AsU64);
    (Terms(amount, cap, heightStart, heightEnd, offsetStart, offsetEnd), f6)
  }

  function TakeEtching(fields: Fields, terms: bool, turbo: bool): (Etching, Fields) {
    var (divisibility, f1) := Take(fields, DIVISIBILITY, AsDivisibility);
    var (premine, f2) := Take(f1, PREMINE, Any);
    var (dune, f3) := Take(f2, DUNE, Any);
    var (spacers, f4) := Take(f3, SPACERS, AsSpacers);
    var (symbol, f5) := Take(f4, SYMBOL, AsSymbol);
    var (t, f6) := if terms then var (t, f) := TakeTerms(f5); (Some(t), f) else (None, f5);
    (Etching(divisibility, premine, dune, spacers, symbol, t, turbo), f6)
  }

  /** Premine plus cap times amount, when it fits 128 bits. */
  function Supply(e: Etching): Option<nat> {
    var premine := e.premine.GetOr(0);
    var cap := if e.terms.Some? then e.terms.value.cap.GetOr(0) else 0;
    var amount := if e.terms.Some? then e.terms.value.amount.GetOr(0) else 0;
    if cap * amount >= U128 then None
    else if premine + cap * amount >= U128 then None
    else Some(premine + cap * amount)
  }

  predicate EvenTagLeft(fields: Fields) {
    exists tag :: tag in fields && tag % 2 == 0
  }

  function Conclude(flaw: Option<Flaw>, d: Dunestone, flags: nat, fields: Fields): Artifact {
    var flaw' :=
      if flaw.Some? then flaw
      else if d.etching.Some? && Supply(d.etching.value) == None then Some(SupplyOverflow)
      else if flags != 0 then Some(UnrecognizedFlag)
      else if EvenTagLeft(fields) then Some(UnrecognizedEvenTag)
      else None;
    if flaw'.Some?
    then Cenotaph(flaw', d.mint, if d.etching.Some? then d.etching.value.dune else None)
    else Stone(d)
  }

  /** The etching, when its flag is set, with the flags and fields left over. */
  function TakeFlagged(fields: Fields): (Option<Etching>, nat, Fields) {
    var (maybeFlags, f1) := Take(fields, FLAGS, Any);
    var (hasEtching, flags1) := TakeFlag(maybeFlags.GetOr(0), ETCHING_FLAG);
    if !hasEtching then (None, flags1, f1)
    else
      var (hasTerms, flags2) := TakeFlag(flags1, TERMS_FLAG);
      var (turbo, flags3) := TakeFlag(flags2, TURBO_FLAG);
      var (etching, f2) := TakeEtching(f1, hasTerms, turbo);
      (Some(etching), flags3, f2)
  }

  function Interpret(outputs: nat, m: Message): Artifact {
    var (etching, flags, f2) := TakeFlagged(m.fields);
    var (mint, f3) := TakeTwo(f2, MINT, AsId);
    var (pointer, f4) := Take(f3, DEFAULT_OUTPUT, v => AsPointer(outputs, v));
    Conclude(m.flaw, Dunestone(m.edicts, etching, mint, pointer), flags, f4)
  }

  datatype Payload = Valid(bytes: seq<Byte>) | Invalid(flaw: Flaw)

  function ReadPushes(items: seq<Instruction>, broken: bool): Payload {
    if items == [] then if broken then Invalid(InvalidScript) else Valid([])
    else if items[0].Op? then Invalid(Opcode)
    else
      match ReadPushes(items[1..], broken)
      case Invalid(flaw) => Invalid(flaw)
      case Valid(bytes) => Valid(items[0].data + bytes)
  }

  predicate Marked(script: seq<Byte>) {
    var items := ReadScript(script).instructions;
    |items| >= 2 && items[0] == Op(OP_RETURN) && items[1] == Op(OP_PUSHNUM_13)
  }

  /** The payload of the first marked output. */
  function PayloadOf(outputs: seq<seq<Byte>>): Option<Payload> {
    if outputs == [] then None
    else if !Marked(outputs[0]) then PayloadOf(outputs[1..])
    else
      var s := ReadScript(outputs[0]);
      Some(ReadPushes(s.instructions[2..], s.broken))
  }

  function Decipher(outputs: seq<seq<Byte>>): Option<Artifact> {
    match PayloadOf(outputs)
    case None => None
    case Some(Invalid(flaw)) => Some(Cenotaph(Some(flaw), None, None))
    case Some(Valid(payload)) =>
      match Integers(payload)
      case Err(_) => Some(Cenotaph(Some(VarintFlaw), None, None))
      case Ok(integers) => Some(Interpret(|outputs|, ReadFields(|outputs|, integers, map[])))
  }
}
