/** Deciphering undoes enciphering, exactly for the dunestones a transaction can carry. */
module DunestoneProperties {
  import opened Wrappers
  import opened Sequences
  import opened Bytes
  import opened Varints
  import opened Scripts
  import opened DuneIds
  import opened Dunestones
  import opened DunestoneCodec

  // ---------------------------------------------------- fields of a message

  /** No field is stored without a value. */
  ghost predicate Clean(fields: Fields) {
    forall t :: t in fields ==> fields[t] != []
  }

  function PushValues(fields: Fields, tag: nat, values: seq<nat>): Fields
    decreases |values|
  {
    if values == [] then fields else PushValues(PushField(fields, tag, values[0]), tag, values[1..])
  }

  function PushSlots(fields: Fields, slots: seq<Slot>): Fields
    decreases |slots|
  {
    if slots == [] then fields else PushSlots(PushValues(fields, slots[0].tag, slots[0].values), slots[1..])
  }

  lemma {:induction false} ReadEmit(outputs: nat, tag: nat, values: seq<nat>, tail: seq<nat>, fields: Fields)
    requires tag != BODY
    ensures ReadFields(outputs, Emit(tag, values) + tail, fields) == ReadFields(outputs, tail, PushValues(fields, tag, values))
    decreases |values|
  {
    hide ReadEdicts, PushField;
    if values == [] {
      assert Emit(tag, values) + tail == tail;
    } else {
      var rest := Emit(tag, values[1..]) + tail;
      assert Emit(tag, values) + tail == [tag, values[0]] + rest;
      assert ([tag, values[0]] + rest)[2..] == rest;
      ReadEmit(outputs, tag, values[1..], tail, PushField(fields, tag, values[0]));
    }
  }

  lemma {:induction false} ReadEmitAll(outputs: nat, slots: seq<Slot>, tail: seq<nat>, fields: Fields)
    requires forall i :: 0 <= i < |slots| ==> slots[i].tag != BODY
    ensures ReadFields(outputs, EmitAll(slots) + tail, fields) == ReadFields(outputs, tail, PushSlots(fields, slots))
    decreases |slots|
  {
    hide ReadFields, PushValues, Emit;
    if slots == [] {
      assert EmitAll(slots) + tail == tail;
    } else {
      var first, rest := Emit(slots[0].tag, slots[0].values), EmitAll(slots[1..]) + tail;
      assert EmitAll(slots) + tail == first + rest;
      ReadEmit(outputs, slots[0].tag, slots[0].values, rest, fields);
      ReadEmitAll(outputs, slots[1..], tail, PushValues(fields, slots[0].tag, slots[0].values));
    }
  }

  /** The values a list of slots puts under a tag. */
  function SlotValues(slots: seq<Slot>, t: nat): seq<nat> {
    if slots == [] then []
    else (if slots[0].tag == t then slots[0].values else []) + SlotValues(slots[1..], t)
  }

  lemma {:induction false} PushValuesLookup(fields: Fields, tag: nat, values: seq<nat>, t: nat)
    requires Clean(fields)
    ensures Clean(PushValues(fields, tag, values))
    ensures Lookup(PushValues(fields, tag, values), t) == Lookup(fields, t) + (if t == tag then values else [])
    decreases |values|
  {
    if values != [] {
      var next := PushField(fields, tag, values[0]);
      PushValuesLookup(next, tag, values[1..], t);
      if t == tag {
        assert Lookup(next, t) == Lookup(fields, t) + [values[0]];
        assert [values[0]] + values[1..] == values;
      }
    }
  }

  lemma {:induction false} PushSlotsLookup(fields: Fields, slots: seq<Slot>, t: nat)
    requires Clean(fields)
    ensures Clean(PushSlots(fields, slots))
    ensures Lookup(PushSlots(fields, slots), t) == Lookup(fields, t) + SlotValues(slots, t)
    decreases |slots|
  {
    hide PushValues, Lookup, Clean;
    if slots == [] {
      assert Lookup(fields, t) + [] == Lookup(fields, t);
    } else {
      var own := if t == slots[0].tag then slots[0].values else [];
      PushValuesLookup(fields, slots[0].tag, slots[0].values, t);
      PushSlotsLookup(PushValues(fields, slots[0].tag, slots[0].values), slots[1..], t);
      assert Lookup(fields, t) + own + SlotValues(slots[1..], t) == Lookup(fields, t) + (own + SlotValues(slots[1..], t));
    }
  }

  lemma SlotValuesStep(slots: seq<Slot>, t: nat)
    requires slots != []
    ensures SlotValues(slots, t) == (if slots[0].tag == t then slots[0].values else []) + SlotValues(slots[1..], t)
  {
  }

  lemma {:induction false} SlotValuesAppend(a: seq<Slot>, b: seq<Slot>, t: nat)
    ensures SlotValues(a + b, t) == SlotValues(a, t) + SlotValues(b, t)
  {
    if a == [] {
      assert a + b == b;
    } else {
      hide SlotValues;
      SlotValuesAppend(a[1..], b, t);
      SlotValuesStep(a, t);
      SlotValuesStep(a + b, t);
      assert (a + b)[1..] == a[1..] + b;
      Assoc(if a[0].tag == t then a[0].values else [], SlotValues(a[1..], t), SlotValues(b, t));
    }
  }

  predicate DistinctTags(slots: seq<Slot>) {
    forall i, j :: 0 <= i < j < |slots| ==> slots[i].tag != slots[j].tag
  }

  /** With distinct tags each tag has the values of its own slot, and no others. */
  lemma {:induction false} OwnSlot(slots: seq<Slot>, t: nat)
    requires DistinctTags(slots)
    ensures forall i :: 0 <= i < |slots| && slots[i].tag == t ==> SlotValues(slots, t) == slots[i].values
    ensures (forall i :: 0 <= i < |slots| ==> slots[i].tag != t) ==> SlotValues(slots, t) == []
  {
    if slots != [] {
      OwnSlot(slots[1..], t);
      assert forall i :: 0 < i < |slots| ==> slots[i] == slots[1..][i - 1];
    }
  }

  function EtchingValue(e: Etching, t: nat): seq<nat> {
    if t == FLAGS then [FlagsOf(e)] else if t == DUNE then Values(e.dune) else if t == DIVISIBILITY then Values(e.divisibility)
    else if t == SPACERS then Values(e.spacers) else if t == SYMBOL then Values(e.symbol) else if t == PREMINE then Values(e.premine)
    else []
  }

  function TermsValue(terms: Terms, t: nat): seq<nat> {
    if t == AMOUNT then Values(terms.amount) else if t == CAP then Values(terms.cap)
    else if t == HEIGHT_START then Values(terms.heightStart) else if t == HEIGHT_END then Values(terms.heightEnd)
    else if t == OFFSET_START then Values(terms.offsetStart) else if t == OFFSET_END then Values(terms.offsetEnd)
    else []
  }

  function MintValue(d: Dunestone, t: nat): seq<nat> {
    if t == MINT then if d.mint.Some? then [d.mint.value.block, d.mint.value.tx] else []
    else if t == DEFAULT_OUTPUT then Values(d.pointer)
    else []
  }

  const TERMS_TAGS: set<nat> := {CAP, AMOUNT, HEIGHT_START, HEIGHT_END, OFFSET_START, OFFSET_END}

  /** What an enciphered dunestone has under a tag. */
  function FieldValue(d: Dunestone, t: nat): seq<nat> {
    if t == MINT || t == DEFAULT_OUTPUT then MintValue(d, t)
    else if d.etching == None then []
    else if t !in TERMS_TAGS then EtchingValue(d.etching.value, t)
    else if d.etching.value.terms == None then []
    else TermsValue(d.etching.value.terms.value, t)
  }

  lemma EtchingFields(e: Etching, t: nat)
    ensures SlotValues(EtchingSlots(e), t) == EtchingValue(e, t)
  {
    hide SlotValues, Values, FlagsOf;
    var s := EtchingSlots(e);
    OwnSlot(s, t);
    assert s[0].tag == FLAGS && s[1].tag == DUNE && s[2].tag == DIVISIBILITY && s[3].tag == SPACERS;
    assert s[4].tag == SYMBOL && s[5].tag == PREMINE;
  }

  lemma TermsFields(terms: Terms, t: nat)
    ensures SlotValues(TermsSlots(terms), t) == TermsValue(terms, t)
  {
    hide SlotValues, Values;
    var s := TermsSlots(terms);
    OwnSlot(s, t);
    assert s[0].tag == AMOUNT && s[1].tag == CAP && s[2].tag == HEIGHT_START && s[3].tag == HEIGHT_END;
    assert s[4].tag == OFFSET_START && s[5].tag == OFFSET_END;
  }

  lemma MintFields(d: Dunestone, t: nat)
    ensures SlotValues(MintSlots(d), t) == MintValue(d, t)
  {
    hide SlotValues, Values;
    var s := MintSlots(d);
    OwnSlot(s, t);
    assert s[0].tag == MINT && s[1].tag == DEFAULT_OUTPUT;
  }

  lemma StoneFields(d: Dunestone, t: nat)
    ensures SlotValues(Slots(d), t) == FieldValue(d, t)
  {
    hide SlotValues, EtchingSlots, TermsSlots, MintSlots;
    var a := if d.etching.Some? then EtchingSlots(d.etching.value) else [];
    var b := if d.etching.Some? && d.etching.value.terms.Some? then TermsSlots(d.etching.value.terms.value) else [];
    OwnSlot([], t);
    if d.etching.Some? {
      EtchingFields(d.etching.value, t);
      if d.etching.value.terms.Some? {
        TermsFields(d.etching.value.terms.value, t);
      }
    }
    MintFields(d, t);
    SlotValuesAppend(a, b, t);
    SlotValuesAppend(a + b, MintSlots(d), t);
  }

  // ------------------------------------------------------- taking the fields

  function Peek<T>(values: seq<nat>, accept: nat -> Option<T>): Option<T> {
    if values == [] then None else accept(values[0])
  }

  lemma TakeMeaning<T>(fields: Fields, tag: nat, accept: nat -> Option<T>)
    requires Clean(fields)
    ensures var (value, rest) := Take(fields, tag, accept);
      && value == Peek(Lookup(fields, tag), accept)
      && Clean(rest)
      && Lookup(rest, tag) == (if value == None then Lookup(fields, tag) else Lookup(fields, tag)[1..])
      && forall t: nat :: t != tag ==> Lookup(rest, t) == Lookup(fields, t)
  {
  }

  lemma TakeTwoMeaning<T>(fields: Fields, tag: nat, accept: (nat, nat) -> Option<T>)
    requires Clean(fields)
    ensures var (value, rest) := TakeTwo(fields, tag, accept);
      && value == (if |Lookup(fields, tag)| < 2 then None else accept(Lookup(fields, tag)[0], Lookup(fields, tag)[1]))
      && Clean(rest)
      && Lookup(rest, tag) == (if value == None then Lookup(fields, tag) else Lookup(fields, tag)[2..])
      && forall t: nat :: t != tag ==> Lookup(rest, t) == Lookup(fields, t)
  {
  }

  /** Taking an optional value that was encoded under a tag. */
  lemma TakeEncoded(fields: Fields, tag: nat, accept: nat -> Option<nat>, value: Option<nat>)
    requires Clean(fields) && Lookup(fields, tag) == Values(value)
    requires forall v: nat :: accept(v) == None || accept(v) == Some(v)
    ensures var (taken, rest) := Take(fields, tag, accept);
      && taken == (if value.Some? && accept(value.value) == None then None else value)
      && Clean(rest)
      && Lookup(rest, tag) == (if taken == None then Values(value) else [])
      && forall t: nat :: t != tag ==> Lookup(rest, t) == Lookup(fields, t)
  {
    TakeMeaning(fields, tag, accept);
    if value.Some? {
      assert accept(value.value) == None || accept(value.value) == Some(value.value);
    }
  }

  function Filter(value: Option<nat>, accept: nat -> Option<nat>): Option<nat> {
    if value.Some? && accept(value.value) == None then None else value
  }

  lemma TermsTaken(fields: Fields, t: Terms)
    requires Clean(fields) && TermsSized(t)
    requires forall tag: nat :: tag in TERMS_TAGS ==>
               Lookup(fields, tag) == TermsValue(t, tag)
    ensures var (taken, rest) := TakeTerms(fields);
      && taken == t && Clean(rest)
      && forall tag: nat ::
           Lookup(rest, tag) == if tag in TERMS_TAGS then []
                                else Lookup(fields, tag)
  {
    hide Take, Lookup, Clean;
    TakeEncoded(fields, CAP, Any, t.cap);
    var f1 := Take(fields, CAP, Any).1;
    TakeEncoded(f1, HEIGHT_START, AsU64, t.heightStart);
    var f2 := Take(f1, HEIGHT_START, AsU64).1;
    TakeEncoded(f2, HEIGHT_END, AsU64, t.heightEnd);
    var f3 := Take(f2, HEIGHT_END, AsU64).1;
    TakeEncoded(f3, AMOUNT, Any, t.amount);
    var f4 := Take(f3, AMOUNT, Any).1;
    TakeEncoded(f4, OFFSET_START, AsU64, t.offsetStart);
    var f5 := Take(f4, OFFSET_START, AsU64).1;
    TakeEncoded(f5, OFFSET_END, AsU64, t.offsetEnd);
  }

  /** What deciphering accepts of an etching: too large a divisibility or spacers are ignored. */
  function Accepted(e: Etching): Etching {
    e.(divisibility := Filter(e.divisibility, AsDivisibility), spacers := Filter(e.spacers, AsSpacers))
  }

  const PLAIN_TAGS: set<nat> := {DIVISIBILITY, PREMINE, DUNE, SPACERS, SYMBOL}

  /** The fields after the first three have been taken. */
  function AfterThree(fields: Fields): Fields {
    Take(Take(Take(fields, DIVISIBILITY, AsDivisibility).1, PREMINE, Any).1, DUNE, Any).1
  }

  lemma ThreeTaken(fields: Fields, e: Etching)
    requires Clean(fields) && EtchingSized(e)
    requires Lookup(fields, DIVISIBILITY) == Values(e.divisibility)
    requires Lookup(fields, PREMINE) == Values(e.premine) && Lookup(fields, DUNE) == Values(e.dune)
    ensures var f1 := Take(fields, DIVISIBILITY, AsDivisibility).1;
      var f2 := Take(f1, PREMINE, Any).1;
      && Take(fields, DIVISIBILITY, AsDivisibility).0 == Accepted(e).divisibility
      && Take(f1, PREMINE, Any).0 == e.premine
      && Take(f2, DUNE, Any).0 == e.dune
    ensures Clean(AfterThree(fields))
    ensures Lookup(AfterThree(fields), PREMINE) == [] && Lookup(AfterThree(fields), DUNE) == []
    ensures forall tag: nat :: tag != DIVISIBILITY && tag != PREMINE && tag != DUNE ==> Lookup(AfterThree(fields), tag) == Lookup(fields, tag)
  {
    hide Take, Lookup, Clean;
    TakeEncoded(fields, DIVISIBILITY, AsDivisibility, e.divisibility);
    var f1 := Take(fields, DIVISIBILITY, AsDivisibility).1;
    TakeEncoded(f1, PREMINE, Any, e.premine);
    var f2 := Take(f1, PREMINE, Any).1;
    TakeEncoded(f2, DUNE, Any, e.dune);
  }

  lemma TwoTaken(fields: Fields, e: Etching)
    requires Clean(fields) && EtchingSized(e)
    requires Lookup(fields, SPACERS) == Values(e.spacers) && Lookup(fields, SYMBOL) == Values(e.symbol)
    ensures var f1 := Take(fields, SPACERS, AsSpacers).1;
      var rest := Take(f1, SYMBOL, AsSymbol).1;
      && Take(fields, SPACERS, AsSpacers).0 == Accepted(e).spacers
      && Take(f1, SYMBOL, AsSymbol).0 == e.symbol
      && Clean(rest) && Lookup(rest, SYMBOL) == []
      && forall tag: nat :: tag != SPACERS && tag != SYMBOL ==> Lookup(rest, tag) == Lookup(fields, tag)
  {
    hide Take, Lookup, Clean;
    TakeEncoded(fields, SPACERS, AsSpacers, e.spacers);
    TakeEncoded(Take(fields, SPACERS, AsSpacers).1, SYMBOL, AsSymbol, e.symbol);
  }

  lemma EtchingFieldsTaken(fields: Fields, e: Etching) returns (rest: Fields)
    requires Clean(fields) && EtchingSized(e)
    requires forall tag: nat :: tag in PLAIN_TAGS ==> Lookup(fields, tag) == EtchingValue(e, tag)
    ensures Clean(rest)
    ensures forall tag: nat :: tag !in PLAIN_TAGS ==> Lookup(rest, tag) == Lookup(fields, tag)
    ensures forall tag: nat :: tag in {PREMINE, DUNE, SYMBOL} ==> Lookup(rest, tag) == []
    ensures forall terms, turbo :: var a := Accepted(e);
      TakeEtching(fields, terms, turbo) ==
        if terms then (Etching(a.divisibility, a.premine, a.dune, a.spacers, a.symbol, Some(TakeTerms(rest).0), turbo), TakeTerms(rest).1)
        else (Etching(a.divisibility, a.premine, a.dune, a.spacers, a.symbol, None, turbo), rest)
  {
    hide Take, Lookup, Clean, TakeTerms, Filter, EtchingSized;
    PlainValues(e);
    ThreeTaken(fields, e);
    TwoTaken(AfterThree(fields), e);
    rest := Take(Take(AfterThree(fields), SPACERS, AsSpacers).1, SYMBOL, AsSymbol).1;
  }

  lemma PlainValues(e: Etching)
    ensures EtchingValue(e, DIVISIBILITY) == Values(e.divisibility) && EtchingValue(e, PREMINE) == Values(e.premine)
    ensures EtchingValue(e, DUNE) == Values(e.dune) && EtchingValue(e, SPACERS) == Values(e.spacers)
    ensures EtchingValue(e, SYMBOL) == Values(e.symbol)
  {
  }

  lemma FlagsTaken(e: Etching)
    ensures var (hasEtching, f1) := TakeFlag(FlagsOf(e), ETCHING_FLAG);
      hasEtching &&
      var (hasTerms, f2) := TakeFlag(f1, TERMS_FLAG);
      hasTerms == e.terms.Some? &&
      TakeFlag(f2, TURBO_FLAG) == (e.turbo, 0)
  {
  }

  // -------------------------------------------------------- interpretation

  lemma TermsAreSized(e: Etching)
    requires EtchingSized(e) && e.terms.Some?
    ensures TermsSized(e.terms.value)
  {
  }

  lemma FieldParts(d: Dunestone, tag: nat)
    requires d.etching.Some?
    ensures tag in PLAIN_TAGS ==> tag != FLAGS && tag !in TERMS_TAGS && FieldValue(d, tag) == EtchingValue(d.etching.value, tag)
    ensures tag in TERMS_TAGS && d.etching.value.terms.Some? ==>
              tag != FLAGS && tag !in PLAIN_TAGS && FieldValue(d, tag) == TermsValue(d.etching.value.terms.value, tag)
    ensures tag == MINT || tag == DEFAULT_OUTPUT ==>
              tag != FLAGS && tag !in PLAIN_TAGS && tag !in TERMS_TAGS && FieldValue(d, tag) == MintValue(d, tag)
  {
    hide EtchingValue, TermsValue, MintValue;
  }

  /** When the plain fields, and the terms' fields if it has terms, have been taken, no even field of an etching is left. */
  lemma NoEvenLeft(fields: Fields, rest: Fields, d: Dunestone)
    requires d.etching.Some?
    requires forall tag: nat :: tag != FLAGS ==> Lookup(fields, tag) == FieldValue(d, tag)
    requires Lookup(fields, FLAGS) == []
    requires forall tag: nat :: tag in {PREMINE, DUNE, SYMBOL} ==> Lookup(rest, tag) == []
    requires forall tag: nat :: tag !in PLAIN_TAGS && tag !in TERMS_TAGS ==> Lookup(rest, tag) == Lookup(fields, tag)
    requires d.etching.value.terms.Some? ==> forall tag: nat :: tag in TERMS_TAGS ==> Lookup(rest, tag) == []
    requires d.etching.value.terms.None? ==> forall tag: nat :: tag in TERMS_TAGS ==> Lookup(rest, tag) == Lookup(fields, tag)
    ensures forall tag: nat :: tag % 2 == 0 && tag != MINT && tag != DEFAULT_OUTPUT ==> Lookup(rest, tag) == []
  {
    hide Lookup, FieldValue;
    forall tag: nat | tag % 2 == 0 && tag != MINT && tag != DEFAULT_OUTPUT ensures Lookup(rest, tag) == [] {
      if tag != FLAGS { OtherTags(d, tag); }
    }
  }

  /** An etching is taken back as accepted; of its fields only ignored, odd ones are left. */
  lemma EtchingTaken(fields: Fields, d: Dunestone) returns (rest: Fields)
    requires d.etching.Some? && Clean(fields) && EtchingSized(d.etching.value)
    requires forall tag: nat :: tag != FLAGS ==> Lookup(fields, tag) == FieldValue(d, tag)
    requires Lookup(fields, FLAGS) == []
    ensures Clean(rest)
    ensures TakeEtching(fields, d.etching.value.terms.Some?, d.etching.value.turbo) == (Accepted(d.etching.value), rest)
    ensures Lookup(rest, MINT) == MintValue(d, MINT) && Lookup(rest, DEFAULT_OUTPUT) == MintValue(d, DEFAULT_OUTPUT)
    ensures forall tag: nat :: tag % 2 == 0 && tag != MINT && tag != DEFAULT_OUTPUT ==> Lookup(rest, tag) == []
  {
    hide Lookup, Clean, TakeTerms, TakeEtching, Values, FieldValue, EtchingValue, TermsValue, MintValue, EtchingSized;
    var e := d.etching.value;
    forall tag: nat | tag in PLAIN_TAGS ensures Lookup(fields, tag) == EtchingValue(e, tag) {
      FieldParts(d, tag);
    }
    rest := EtchingFieldsTaken(fields, e);
    FieldParts(d, MINT);
    FieldParts(d, DEFAULT_OUTPUT);
    if e.terms.Some? {
      forall tag: nat | tag in TERMS_TAGS ensures Lookup(rest, tag) == TermsValue(e.terms.value, tag) {
        FieldParts(d, tag);
      }
      assert TermsSized(e.terms.value) by { TermsAreSized(e); }
      TermsTaken(rest, e.terms.value);
      rest := TakeTerms(rest).1;
    }
    NoEvenLeft(fields, rest, d);
  }

  lemma OtherTags(d: Dunestone, tag: nat)
    requires d.etching.Some? && tag % 2 == 0 && tag != MINT && tag != DEFAULT_OUTPUT && tag != FLAGS
    ensures FieldValue(d, tag) == [] || tag in {PREMINE, DUNE, SYMBOL} || (d.etching.value.terms.Some? && tag in TERMS_TAGS)
  {
  }

  function AcceptedStone(outputs: nat, d: Dunestone, edicts: seq<Edict>): Dunestone {
    Dunestone(edicts,
              if d.etching.Some? then Some(Accepted(d.etching.value)) else None,
              if d.mint.Some? && Exists(d.mint.value) then d.mint else None,
              if d.pointer.Some? && d.pointer.value < outputs then d.pointer else None)
  }

  /** The even tags whose value is not accepted. */
  function LeftTags(outputs: nat, d: Dunestone): set<nat> {
    (if d.mint.Some? && !Exists(d.mint.value) then {MINT} else {})
    + (if d.pointer.Some? && d.pointer.value >= outputs then {DEFAULT_OUTPUT} else {})
  }

  lemma LeftEven(fields: Fields, left: set<nat>)
    requires Clean(fields)
    requires forall tag: nat :: tag % 2 == 0 ==> (Lookup(fields, tag) != [] <==> tag in left)
    ensures EvenTagLeft(fields) <==> exists tag :: tag in left && tag % 2 == 0
  {
    if tag :| tag in left && tag % 2 == 0 {
      assert Lookup(fields, tag) != [];
    }
    if EvenTagLeft(fields) {
      var tag :| tag in fields && tag % 2 == 0;
      assert Lookup(fields, tag) != [];
    }
  }

  lemma MintTaken(outputs: nat, d: Dunestone, fields: Fields) returns (rest: Fields)
    requires Clean(fields) && StoneSized(d)
    requires Lookup(fields, MINT) == MintValue(d, MINT) && Lookup(fields, DEFAULT_OUTPUT) == MintValue(d, DEFAULT_OUTPUT)
    requires forall tag: nat :: tag % 2 == 0 && tag != MINT && tag != DEFAULT_OUTPUT ==> Lookup(fields, tag) == []
    ensures var (mint, f3) := TakeTwo(fields, MINT, AsId);
      var (pointer, f4) := Take(f3, DEFAULT_OUTPUT, v => AsPointer(outputs, v));
      && mint == AcceptedStone(outputs, d, []).mint && pointer == AcceptedStone(outputs, d, []).pointer && rest == f4
    ensures EvenTagLeft(rest) <==> LeftTags(outputs, d) != {}
  {
    hide Take, TakeTwo, Lookup, Clean, EvenTagLeft, Accepted;
    TakeTwoMeaning(fields, MINT, AsId);
    var f3 := TakeTwo(fields, MINT, AsId).1;
    var accept := v => AsPointer(outputs, v);
    TakeEncoded(f3, DEFAULT_OUTPUT, accept, d.pointer);
    rest := Take(f3, DEFAULT_OUTPUT, accept).1;
    var left := LeftTags(outputs, d);
    LeftEven(rest, left);
    assert forall tag :: tag in left ==> tag % 2 == 0;
  }

  lemma FlaggedTaken(d: Dunestone, fields: Fields) returns (rest: Fields)
    requires StoneSized(d) && Clean(fields)
    requires forall t: nat :: Lookup(fields, t) == FieldValue(d, t)
    ensures TakeFlagged(fields) == (AcceptedStone(0, d, []).etching, 0, rest)
    ensures Clean(rest) && Lookup(rest, MINT) == MintValue(d, MINT) && Lookup(rest, DEFAULT_OUTPUT) == MintValue(d, DEFAULT_OUTPUT)
    ensures forall tag: nat :: tag % 2 == 0 && tag != MINT && tag != DEFAULT_OUTPUT ==> Lookup(rest, tag) == []
  {
    hide Take, Lookup, Clean, Accepted, TakeEtching, TakeFlag, FlagsOf, MintValue, TermsValue;
    TakeMeaning(fields, FLAGS, Any);
    rest := Take(fields, FLAGS, Any).1;
    assert Lookup(fields, FLAGS) == FieldValue(d, FLAGS);
    if d.etching.Some? {
      FlagsTaken(d.etching.value);
      rest := EtchingTaken(rest, d);
    } else {
      NoFlags();
    }
  }

  lemma NoFlags()
    ensures TakeFlag(0, ETCHING_FLAG) == (false, 0)
  {
  }

  lemma Interpreted(outputs: nat, d: Dunestone, m: Message) returns (rest: Fields)
    requires StoneSized(d) && Clean(m.fields)
    requires forall t: nat :: Lookup(m.fields, t) == FieldValue(d, t)
    ensures Interpret(outputs, m) == Conclude(m.flaw, AcceptedStone(outputs, d, m.edicts), 0, rest)
    ensures EvenTagLeft(rest) <==> LeftTags(outputs, d) != {}
  {
    hide Take, TakeTwo, Lookup, Clean, EvenTagLeft, Accepted, TakeFlagged, Conclude, StoneSized, MintValue, FieldValue, LeftTags;
    var f2 := FlaggedTaken(d, m.fields);
    rest := MintTaken(outputs, d, f2);
  }

  // -------------------------------------------------------------- round trip

  predicate EdictOk(outputs: nat, e: Edict) {
    Exists(e.id) && e.output <= outputs
  }

  /** What a transaction with this many outputs can carry. */
  predicate EtchingOk(e: Etching) {
    && OptionBelow(e.divisibility, MAX_DIVISIBILITY + 1)
    && OptionBelow(e.spacers, MAX_SPACERS + 1)
    && Supply(e) != None
  }

  predicate CanCarry(outputs: nat, d: Dunestone) {
    && (forall i :: 0 <= i < |d.edicts| ==> EdictOk(outputs, d.edicts[i]))
    && (d.etching.Some? ==> EtchingOk(d.etching.value))
    && (d.mint.Some? ==> Exists(d.mint.value))
    && OptionBelow(d.pointer, outputs)
  }

  lemma ReadBodyHead(outputs: nat, previous: DuneId, edicts: seq<Edict>)
    requires edicts != [] && Sized(previous) && EdictsSized(edicts) && AtMost(previous, edicts[0].id)
    ensures ReadEdicts(outputs, Body(previous, edicts), previous) ==
              if !Exists(edicts[0].id) then (Some(EdictDuneId), [])
              else if edicts[0].output > outputs then (Some(EdictOutput), [])
              else var (flaw, rest) := ReadEdicts(outputs, Body(edicts[0].id, edicts[1..]), edicts[0].id);
                   (flaw, [edicts[0]] + rest)
  {
    hide Next, Delta, Exists;
    var e := edicts[0];
    NextUndoesDelta(previous, e.id);
    var (block, tx) := Delta(previous, e.id).value;
    assert ([block, tx, e.amount, e.output] + Body(e.id, edicts[1..]))[4..] == Body(e.id, edicts[1..]);
  }

  /** The edicts come back from their deltas exactly when every one of them can be carried. */
  lemma {:induction false} ReadBody(outputs: nat, previous: DuneId, edicts: seq<Edict>)
    requires EdictsSized(edicts) && Sorted(edicts) && Sized(previous)
    requires edicts != [] ==> AtMost(previous, edicts[0].id)
    ensures var (flaw, read) := ReadEdicts(outputs, Body(previous, edicts), previous);
      && (flaw == None <==> forall i :: 0 <= i < |edicts| ==> EdictOk(outputs, edicts[i]))
      && (flaw == None ==> read == edicts)
    decreases |edicts|
  {
    hide ReadEdicts, Body, EdictOk;
    if edicts == [] {
      ReadNothing(outputs, previous);
    } else {
      var rest := edicts[1..];
      ReadBodyHead(outputs, previous, edicts);
      ReadBody(outputs, edicts[0].id, rest);
      EdictOkMeans(outputs, edicts[0]);
      assert edicts == [edicts[0]] + rest;
    }
  }

  lemma ReadNothing(outputs: nat, previous: DuneId)
    ensures ReadEdicts(outputs, Body(previous, []), previous) == (None, [])
  {
  }

  lemma EdictOkMeans(outputs: nat, e: Edict)
    ensures EdictOk(outputs, e) <==> Exists(e.id) && e.output <= outputs
  {
  }

  lemma SortedOk(outputs: nat, edicts: seq<Edict>)
    ensures (forall i :: 0 <= i < |edicts| ==> EdictOk(outputs, edicts[i]))
            <==> forall i :: 0 <= i < |StableSort(edicts)| ==> EdictOk(outputs, StableSort(edicts)[i])
  {
    SortSorts(edicts);
    var s := StableSort(edicts);
    assert forall e :: e in edicts <==> e in multiset(edicts);
    assert forall e :: e in s <==> e in multiset(s);
    assert forall i :: 0 <= i < |edicts| ==> edicts[i] in edicts;
    assert forall i :: 0 <= i < |s| ==> s[i] in s;
  }

  /** A dunestone with its edicts in stable order. */
  function InOrder(d: Dunestone): Dunestone {
    d.(edicts := StableSort(d.edicts))
  }

  /** The message of an enciphered dunestone, read back. */
  lemma MessageRead(outputs: nat, d: Dunestone)
    requires StoneSized(d)
    ensures var m := ReadFields(outputs, MessageOf(d), map[]);
      && Clean(m.fields) && (forall t: nat :: Lookup(m.fields, t) == FieldValue(d, t))
      && (m.flaw == None <==> forall i :: 0 <= i < |d.edicts| ==> EdictOk(outputs, d.edicts[i]))
      && (m.flaw == None ==> m.edicts == StableSort(d.edicts))
  {
    hide ReadEdicts, Body, Lookup, PushSlots, Clean, EmitAll, FieldValue, EdictOk, SlotValues;
    var tail := if d.edicts == [] then [] else [BODY] + Body(DEFAULT_ID, StableSort(d.edicts));
    NoBodyTags(d);
    ReadEmitAll(outputs, Slots(d), tail, map[]);
    EmptyFields();
    forall t: nat ensures Lookup(PushSlots(map[], Slots(d)), t) == FieldValue(d, t) && Clean(PushSlots(map[], Slots(d))) {
      PushSlotsLookup(map[], Slots(d), t);
      StoneFields(d, t);
      EmptyLookup(t);
      assert [] + FieldValue(d, t) == FieldValue(d, t);
    }
    assert Clean(PushSlots(map[], Slots(d))) by {
      PushSlotsLookup(map[], Slots(d), 0);
    }
    TailRead(outputs, d, PushSlots(map[], Slots(d)));
  }

  lemma EmptyFields()
    ensures Clean(map[])
  {
  }

  lemma EmptyLookup(t: nat)
    ensures Lookup(map[], t) == []
  {
  }

  lemma NoBodyTags(d: Dunestone)
    ensures forall i :: 0 <= i < |Slots(d)| ==> Slots(d)[i].tag != BODY
  {
    hide Values, FlagsOf;
  }

  lemma TailRead(outputs: nat, d: Dunestone, fields: Fields)
    requires StoneSized(d)
    ensures var tail := if d.edicts == [] then [] else [BODY] + Body(DEFAULT_ID, StableSort(d.edicts));
      var m := ReadFields(outputs, tail, fields);
      && m.fields == fields
      && (m.flaw == None <==> forall i :: 0 <= i < |d.edicts| ==> EdictOk(outputs, d.edicts[i]))
      && (m.flaw == None ==> m.edicts == StableSort(d.edicts))
  {
    hide ReadEdicts, Body, EdictOk;
    if d.edicts != [] {
      var sorted := StableSort(d.edicts);
      SortSorts(d.edicts);
      SortKeepsSizes(d.edicts);
      SortedOk(outputs, d.edicts);
      ReadBody(outputs, DEFAULT_ID, sorted);
      assert ([BODY] + Body(DEFAULT_ID, sorted))[1..] == Body(DEFAULT_ID, sorted);
    }
  }

  lemma AcceptedIff(outputs: nat, d: Dunestone)
    ensures AcceptedStone(outputs, d, d.edicts) == d && LeftTags(outputs, d) == {}
            && (d.etching.Some? ==> Supply(Accepted(d.etching.value)) != None)
            <==> (d.etching.Some? ==> EtchingOk(d.etching.value))
                 && (d.mint.Some? ==> Exists(d.mint.value)) && OptionBelow(d.pointer, outputs)
  {
  }

  /** Interpreting the enciphered message gives the dunestone exactly when it can be carried. */
  lemma InterpretIff(outputs: nat, d: Dunestone)
    requires StoneSized(d)
    ensures Interpret(outputs, ReadFields(outputs, MessageOf(d), map[])) == Stone(InOrder(d)) <==> CanCarry(outputs, d)
  {
    hide Interpret, ReadFields, MessageOf, EdictOk, EvenTagLeft, LeftTags, Accepted, EtchingOk, FieldValue, Clean, Supply;
    var m := ReadFields(outputs, MessageOf(d), map[]);
    MessageRead(outputs, d);
    var rest := Interpreted(outputs, d, m);
    AcceptedIff(outputs, d);
    assert AcceptedStone(outputs, d, m.edicts) == InOrder(d) <==>
           m.edicts == StableSort(d.edicts) && AcceptedStone(outputs, d, d.edicts) == d;
  }

  // ------------------------------------------------------------- the outputs

  lemma {:induction false} ReadPushAll(chunks: seq<seq<Byte>>)
    ensures ReadPushes(PushAll(chunks), false) == Valid(Flatten(chunks))
  {
    if chunks != [] {
      ReadPushAll(chunks[1..]);
      assert PushAll(chunks)[1..] == PushAll(chunks[1..]);
    }
  }

  lemma {:induction false} FirstMarked(before: seq<seq<Byte>>, script: seq<Byte>, after: seq<seq<Byte>>)
    requires (forall i :: 0 <= i < |before| ==> !Marked(before[i])) && Marked(script)
    ensures PayloadOf(before + [script] + after)
            == Some(ReadPushes(ReadScript(script).instructions[2..], ReadScript(script).broken))
  {
    hide Marked, ReadScript, ReadPushes;
    if before != [] {
      FirstMarked(before[1..], script, after);
      assert (before + [script] + after)[1..] == before[1..] + [script] + after;
      assert (before + [script] + after)[0] == before[0];
    }
  }

  lemma ScriptPayload(d: Dunestone, script: seq<Byte>)
    requires script == PrintAll(ScriptOf(d))
    ensures Marked(script)
    ensures ReadPushes(ReadScript(script).instructions[2..], ReadScript(script).broken) == Valid(EncodeAll(MessageOf(d)))
  {
    hide ReadScript, PrintAll, MessageOf, EncodeAll, Chunks, ReadPushes, PushAll;
    ReadPrintedScript(ScriptOf(d));
    var chunks := Chunks(EncodeAll(MessageOf(d)), U32 - 1);
    FlattenChunks(EncodeAll(MessageOf(d)), U32 - 1);
    ReadPushAll(chunks);
    assert ScriptOf(d)[2..] == PushAll(chunks);
  }

  lemma MessageSized(d: Dunestone)
    requires StoneSized(d)
    ensures forall i :: 0 <= i < |MessageOf(d)| ==> MessageOf(d)[i] < U128
  {
    hide EmitAll, Body, StableSort;
    SlotsSized(d);
    SmallSlots(Slots(d));
    SortSorts(d.edicts);
    SortKeepsSizes(d.edicts);
    SmallBody(DEFAULT_ID, StableSort(d.edicts));
  }

  ghost predicate SlotSized(s: Slot) {
    s.tag < U128 && forall i :: 0 <= i < |s.values| ==> s.values[i] < U128
  }

  lemma SlotsSized(d: Dunestone)
    requires StoneSized(d)
    ensures forall i :: 0 <= i < |Slots(d)| ==> SlotSized(Slots(d)[i])
  {
  }

  lemma {:induction false} SmallEmit(s: Slot)
    requires SlotSized(s)
    ensures forall i :: 0 <= i < |Emit(s.tag, s.values)| ==> Emit(s.tag, s.values)[i] < U128
    decreases |s.values|
  {
    if s.values != [] {
      SmallEmit(Slot(s.tag, s.values[1..]));
    }
  }

  lemma {:induction false} SmallSlots(slots: seq<Slot>)
    requires forall i :: 0 <= i < |slots| ==> SlotSized(slots[i])
    ensures forall i :: 0 <= i < |EmitAll(slots)| ==> EmitAll(slots)[i] < U128
  {
    hide SlotSized, Emit;
    if slots != [] {
      SmallEmit(slots[0]);
      SmallSlots(slots[1..]);
    }
  }

  lemma {:induction false} SmallBody(previous: DuneId, edicts: seq<Edict>)
    requires EdictsSized(edicts) && Sized(previous)
    ensures forall i :: 0 <= i < |Body(previous, edicts)| ==> Body(previous, edicts)[i] < U128
    decreases |edicts|
  {
    if edicts != [] {
      SmallBody(edicts[0].id, edicts[1..]);
    }
  }

  /**
    The codec theorem: a dunestone enciphered into the first marked output is
    deciphered to itself, edicts in stable order, exactly when the transaction
    can carry it.
   */
  lemma RoundTripIff(d: Dunestone, before: seq<seq<Byte>>, after: seq<seq<Byte>>)
    requires StoneSized(d)
    requires forall i :: 0 <= i < |before| ==> !Marked(before[i])
    ensures Decipher(before + [PrintAll(ScriptOf(d))] + after) == Some(Stone(InOrder(d)))
            <==> CanCarry(|before| + 1 + |after|, d)
  {
    hide Marked, ReadScript, ReadPushes, ScriptOf, PrintAll, Printable, MessageOf, EncodeAll, Integers, PayloadOf, Interpret, ReadFields;
    hide CanCarry, InOrder;
    var script := PrintAll(ScriptOf(d));
    ScriptPayload(d, script);
    FirstMarked(before, script, after);
    MessageSized(d);
    IntegersEncodeAll(MessageOf(d));
    InterpretIff(|before| + 1 + |after|, d);
    assert |before + [script] + after| == |before| + 1 + |after|;
  }
}
