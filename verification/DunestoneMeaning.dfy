/** What deciphering makes of any message, said in the numbers the message holds. */
module DunestoneMeaning {
  import opened Wrappers
  import opened Sequences
  import opened Bytes
  import opened Varints
  import opened Scripts
  import opened DuneIds
  import opened Dunestones
  import opened DunestoneProperties

  // -------------------------------------------------------- reading a message

  /** How many fields come before the body tag, or before the numbers end. */
  function FieldCount(payload: seq<nat>): (k: nat)
    ensures 2 * k <= |payload| && forall i :: 0 <= i < k ==> payload[2 * i] != 0
    ensures 2 * k < |payload| ==> payload[2 * k] == 0 || 2 * k + 1 == |payload|
  {
    if |payload| < 2 || payload[0] == 0 then 0
    else
      var k := FieldCount(payload[2..]);
      assert forall i :: 0 < i <= k ==> payload[2 * i] == payload[2..][2 * (i - 1)];
      1 + k
  }

  /** The second numbers of those of the first k pairs that start with the tag. */
  function Under(payload: seq<nat>, k: nat, tag: nat): seq<nat>
    requires 2 * k <= |payload|
    decreases k
  {
    if k == 0 then [] else (if payload[0] == tag then [payload[1]] else []) + Under(payload[2..], k - 1, tag)
  }

  lemma PushOne(f: Fields, tag: nat, value: nat, t: nat)
    requires Clean(f)
    ensures Clean(PushField(f, tag, value))
    ensures Lookup(PushField(f, tag, value), t) == Lookup(f, t) + (if tag == t then [value] else [])
  {
  }

  lemma {:induction false} ReadFrom(outputs: nat, payload: seq<nat>, f: Fields, t: nat)
    requires Clean(f)
    ensures var m, k := ReadFields(outputs, payload, f), FieldCount(payload);
      && Clean(m.fields) && Lookup(m.fields, t) == Lookup(f, t) + Under(payload, k, t)
      && (2 * k == |payload| ==> m.flaw == None && m.edicts == [])
      && (2 * k < |payload| && payload[2 * k] == 0 ==> (m.flaw, m.edicts) == ReadEdicts(outputs, payload[2 * k + 1..], DEFAULT_ID))
      && (2 * k < |payload| && payload[2 * k] != 0 ==> m.flaw == Some(TruncatedField) && m.edicts == [])
    decreases |payload|
  {
    hide PushField, Lookup, Clean, ReadEdicts;
    if |payload| >= 2 && payload[0] != 0 {
      PushOne(f, payload[0], payload[1], t);
      ReadFrom(outputs, payload[2..], PushField(f, payload[0], payload[1]), t);
      var k := FieldCount(payload[2..]);
      Assoc(Lookup(f, t), if payload[0] == t then [payload[1]] else [], Under(payload[2..], k, t));
      if 2 * k < |payload[2..]| {
        assert payload[2..][2 * k + 1..] == payload[2 * (k + 1) + 1..];
      }
    } else {
      assert Lookup(f, t) + [] == Lookup(f, t);
    }
  }

  lemma NoFields()
    ensures Clean(map[]) && forall t: nat :: Lookup(map[], t) == []
  {
  }

  /**
    Whatever the numbers: pairs of a tag and a value up to the tag 0, each tag
    with all its values in order, then edicts; a tag without a value is a flaw.
   */
  lemma FieldsMeaning(outputs: nat, payload: seq<nat>)
    ensures var m, k := ReadFields(outputs, payload, map[]), FieldCount(payload);
      && Clean(m.fields) && (forall t: nat :: Lookup(m.fields, t) == Under(payload, k, t))
      && (2 * k == |payload| ==> m.flaw == None && m.edicts == [])
      && (2 * k < |payload| && payload[2 * k] == 0 ==> (m.flaw, m.edicts) == ReadEdicts(outputs, payload[2 * k + 1..], DEFAULT_ID))
      && (2 * k < |payload| && payload[2 * k] != 0 ==> m.flaw == Some(TruncatedField) && m.edicts == [])
  {
    hide ReadFields, Lookup, Clean, ReadEdicts;
    NoFields();
    forall t: nat ensures Lookup(ReadFields(outputs, payload, map[]).fields, t) == Under(payload, FieldCount(payload), t) {
      ReadFrom(outputs, payload, map[], t);
      assert [] + Under(payload, FieldCount(payload), t) == Under(payload, FieldCount(payload), t);
    }
    ReadFrom(outputs, payload, map[], 0);
  }

  /** The identifier before the edict with the given index. */
  function Previous(id: DuneId, edicts: seq<Edict>, i: nat): DuneId
    requires i <= |edicts|
  {
    if i == 0 then id else edicts[i - 1].id
  }

  ghost predicate ReadsEdict(outputs: nat, rest: seq<nat>, id: DuneId, edicts: seq<Edict>, i: nat)
    requires i < |edicts| && 4 * |edicts| <= |rest|
  {
    && Next(Previous(id, edicts, i), rest[4 * i], rest[4 * i + 1]) == Some(edicts[i].id)
    && edicts[i].amount == rest[4 * i + 2]
    && edicts[i].output == rest[4 * i + 3] && edicts[i].output < U32 && edicts[i].output <= outputs
  }

  /**
    Edicts are read four numbers at a time, each identifier by a step from the
    one before, up to the first that is not complete, has no identifier, or
    names an output beyond the end.
   */
  lemma {:induction false} EdictsMeaning(outputs: nat, rest: seq<nat>, id: DuneId)
    ensures var (flaw, edicts) := ReadEdicts(outputs, rest, id);
      && 4 * |edicts| <= |rest|
      && (forall i :: 0 <= i < |edicts| ==> ReadsEdict(outputs, rest, id, edicts, i))
      && var n, last := 4 * |edicts|, Previous(id, edicts, |edicts|);
      && (flaw == None <==> |rest| == n)
      && (flaw == Some(TrailingIntegers) <==> n < |rest| < n + 4)
      && (flaw == Some(EdictDuneId) <==> |rest| >= n + 4 && Next(last, rest[n], rest[n + 1]) == None)
      && (flaw == Some(EdictOutput) <==>
            |rest| >= n + 4 && Next(last, rest[n], rest[n + 1]).Some? && (rest[n + 3] >= U32 || rest[n + 3] > outputs))
      && (flaw.Some? ==> flaw.value in {TrailingIntegers, EdictDuneId, EdictOutput})
    decreases |rest|
  {
    hide Next;
    var (flaw, edicts) := ReadEdicts(outputs, rest, id);
    if edicts != [] {
      var next := edicts[0].id;
      EdictsMeaning(outputs, rest[4..], next);
      var tail := ReadEdicts(outputs, rest[4..], next).1;
      assert edicts == [edicts[0]] + tail;
      forall i | 0 <= i < |edicts| ensures ReadsEdict(outputs, rest, id, edicts, i) {
        if i > 0 {
          assert ReadsEdict(outputs, rest[4..], next, tail, i - 1);
          Shifted(rest, 4 * (i - 1));
          assert Previous(next, tail, i - 1) == Previous(id, edicts, i);
        }
      }
      assert Previous(next, tail, |tail|) == Previous(id, edicts, |edicts|);
      if |rest[4..]| >= 4 * |tail| + 4 {
        Shifted(rest, 4 * |tail|);
      }
    }
  }

  lemma Shifted(rest: seq<nat>, k: nat)
    requires |rest| >= k + 8
    ensures rest[4..][k] == rest[k + 4] && rest[4..][k + 1] == rest[k + 5]
    ensures rest[4..][k + 2] == rest[k + 6] && rest[4..][k + 3] == rest[k + 7]
  {
  }

  // ----------------------------------------------------- the numbers of a message

  /** The first number of a list. */
  function First(values: seq<nat>): Option<nat> {
    if values == [] then None else Some(values[0])
  }

  /** The first number of a list, if it is below the bound. */
  function Below(values: seq<nat>, bound: nat): Option<nat> {
    if values == [] || values[0] >= bound then None else Some(values[0])
  }

  /** The flag bits: tag 2, or none. */
  function Bits(f: Fields): nat {
    First(Lookup(f, 2)).GetOr(0)
  }

  predicate Etches(f: Fields) {
    Bits(f) % 2 == 1
  }

  predicate HasTerms(f: Fields) {
    Etches(f) && Bits(f) / 2 % 2 == 1
  }

  predicate IsTurbo(f: Fields) {
    Etches(f) && Bits(f) / 4 % 2 == 1
  }

  /** No bit but the three known ones, and those for terms and turbo only with an etching. */
  predicate BitsKnown(f: Fields) {
    Bits(f) == 0 || (Bits(f) < 8 && Etches(f))
  }

  /** Any 32-bit number that is a character, surrogates not being characters. */
  function SymbolIn(values: seq<nat>): Option<nat> {
    if values == [] || 0xd800 <= values[0] <= 0xdfff then None else Below(values, 0x11_0000)
  }

  function TermsIn(f: Fields): Terms {
    Terms(First(Lookup(f, 10)), First(Lookup(f, 8)), Below(Lookup(f, 12), U64), Below(Lookup(f, 14), U64),
          Below(Lookup(f, 16), U64), Below(Lookup(f, 18), U64))
  }

  function EtchingIn(f: Fields): Option<Etching> {
    if !Etches(f) then None
    else Some(Etching(Below(Lookup(f, 1), 39), First(Lookup(f, 6)), First(Lookup(f, 4)), Below(Lookup(f, 3), 0x800_0000),
                      SymbolIn(Lookup(f, 5)), if HasTerms(f) then Some(TermsIn(f)) else None, IsTurbo(f)))
  }

  /** Two numbers, of 64 and 32 bits, that can be a dune: block 0 has only one. */
  predicate IsId(values: seq<nat>) {
    |values| >= 2 && values[0] < U64 && values[1] < U32 && (values[0] == 0 ==> values[1] == 0)
  }

  function MintIn(f: Fields): Option<DuneId> {
    if IsId(Lookup(f, 20)) then Some(DuneId(Lookup(f, 20)[0], Lookup(f, 20)[1])) else None
  }

  function PointerIn(outputs: nat, f: Fields): Option<nat> {
    Below(Lookup(f, 22), if outputs < U32 then outputs else U32)
  }

  /** The premine and all mints together are a 128-bit number. */
  predicate SupplyFits(f: Fields) {
    Etches(f) ==>
      First(Lookup(f, 6)).GetOr(0)
      + (if HasTerms(f) then First(Lookup(f, 8)).GetOr(0) * First(Lookup(f, 10)).GetOr(0) else 0) < U128
  }

  /** Whether the numbers under an even tag are as many as it takes, and all accepted. */
  predicate Accepted(outputs: nat, f: Fields, tag: nat) {
    var v := Lookup(f, tag);
    match tag
    case 2 => |v| == 1
    case 4 => |v| == 1 && Etches(f)
    case 6 => |v| == 1 && Etches(f)
    case 8 => |v| == 1 && HasTerms(f)
    case 10 => |v| == 1 && HasTerms(f)
    case 12 => |v| == 1 && HasTerms(f) && v[0] < U64
    case 14 => |v| == 1 && HasTerms(f) && v[0] < U64
    case 16 => |v| == 1 && HasTerms(f) && v[0] < U64
    case 18 => |v| == 1 && HasTerms(f) && v[0] < U64
    case 20 => |v| == 2 && IsId(v)
    case 22 => |v| == 1 && v[0] < U32 && v[0] < outputs
    case _ => false
  }

  ghost predicate EvenAccepted(outputs: nat, f: Fields) {
    forall tag :: tag in f && tag % 2 == 0 ==> Accepted(outputs, f, tag)
  }

  // ------------------------------------------------------------- taking tags out

  /** What taking leaves of a list. */
  function Left<T>(values: seq<nat>, accept: nat -> Option<T>): seq<nat> {
    if Peek(values, accept) == None then values else values[1..]
  }

  lemma Takes<T>(f: Fields, tag: nat, accept: nat -> Option<T>)
    requires Clean(f)
    ensures var (value, rest) := Take(f, tag, accept);
      && value == Peek(Lookup(f, tag), accept)
      && Clean(rest)
      && forall t: nat :: Lookup(rest, t) == if t == tag then Left(Lookup(f, t), accept) else Lookup(f, t)
  {
    TakeMeaning(f, tag, accept);
  }

  lemma Peeks(values: seq<nat>)
    ensures Peek(values, Any) == First(values) && Peek(values, AsU64) == Below(values, U64)
    ensures Peek(values, AsDivisibility) == Below(values, 39) && Peek(values, AsSpacers) == Below(values, 0x800_0000)
    ensures Peek(values, AsSymbol) == SymbolIn(values)
  {
  }

  function LeftTerms(f: Fields, t: nat): seq<nat> {
    if t == CAP || t == AMOUNT then Left(Lookup(f, t), Any)
    else if t == HEIGHT_START || t == HEIGHT_END || t == OFFSET_START || t == OFFSET_END then Left(Lookup(f, t), AsU64)
    else Lookup(f, t)
  }

  lemma TermsTaken(f: Fields)
    requires Clean(f)
    ensures var (terms, rest) := TakeTerms(f);
      terms == TermsIn(f) && Clean(rest) && forall t: nat :: Lookup(rest, t) == LeftTerms(f, t)
  {
    hide Take, Lookup, Clean, Left, Peek, First, Below;
    Takes(f, CAP, Any);
    var f1 := Take(f, CAP, Any).1;
    Takes(f1, HEIGHT_START, AsU64);
    var f2 := Take(f1, HEIGHT_START, AsU64).1;
    Takes(f2, HEIGHT_END, AsU64);
    var f3 := Take(f2, HEIGHT_END, AsU64).1;
    Takes(f3, AMOUNT, Any);
    var f4 := Take(f3, AMOUNT, Any).1;
    Takes(f4, OFFSET_START, AsU64);
    var f5 := Take(f4, OFFSET_START, AsU64).1;
    Takes(f5, OFFSET_END, AsU64);
    Peeks(Lookup(f, CAP));
    Peeks(Lookup(f, AMOUNT));
    Peeks(Lookup(f, HEIGHT_START));
    Peeks(Lookup(f, HEIGHT_END));
    Peeks(Lookup(f, OFFSET_START));
    Peeks(Lookup(f, OFFSET_END));
  }

  function LeftPlain(f: Fields, t: nat): seq<nat> {
    if t == PREMINE || t == DUNE then Left(Lookup(f, t), Any)
    else if t == DIVISIBILITY then Left(Lookup(f, t), AsDivisibility)
    else if t == SPACERS then Left(Lookup(f, t), AsSpacers)
    else if t == SYMBOL then Left(Lookup(f, t), AsSymbol)
    else Lookup(f, t)
  }

  /** What is left under a tag of an etching. */
  function LeftEtching(f: Fields, terms: bool, t: nat): seq<nat> {
    if terms && t in TERMS_TAGS then LeftTerms(f, t) else LeftPlain(f, t)
  }

  lemma PlainTaken(f: Fields, terms: bool, turbo: bool) returns (rest: Fields)
    requires Clean(f)
    ensures Clean(rest) && forall t: nat :: Lookup(rest, t) == LeftPlain(f, t)
    ensures TakeEtching(f, terms, turbo) ==
      (Etching(Below(Lookup(f, 1), 39), First(Lookup(f, 6)), First(Lookup(f, 4)), Below(Lookup(f, 3), 0x800_0000),
               SymbolIn(Lookup(f, 5)), if terms then Some(TakeTerms(rest).0) else None, turbo),
       if terms then TakeTerms(rest).1 else rest)
  {
    hide Take, TakeTerms, Lookup, Clean, Left, Peek, First, Below, SymbolIn;
    Takes(f, DIVISIBILITY, AsDivisibility);
    var f1 := Take(f, DIVISIBILITY, AsDivisibility).1;
    Takes(f1, PREMINE, Any);
    var f2 := Take(f1, PREMINE, Any).1;
    Takes(f2, DUNE, Any);
    var f3 := Take(f2, DUNE, Any).1;
    Takes(f3, SPACERS, AsSpacers);
    var f4 := Take(f3, SPACERS, AsSpacers).1;
    Takes(f4, SYMBOL, AsSymbol);
    rest := Take(f4, SYMBOL, AsSymbol).1;
    Peeks(Lookup(f, DIVISIBILITY));
    Peeks(Lookup(f, PREMINE));
    Peeks(Lookup(f, DUNE));
    Peeks(Lookup(f, SPACERS));
    Peeks(Lookup(f, SYMBOL));
  }

  lemma EtchingTaken(f: Fields, terms: bool, turbo: bool)
    requires Clean(f)
    ensures var (etching, rest) := TakeEtching(f, terms, turbo);
      && etching == Etching(Below(Lookup(f, 1), 39), First(Lookup(f, 6)), First(Lookup(f, 4)), Below(Lookup(f, 3), 0x800_0000),
                            SymbolIn(Lookup(f, 5)), if terms then Some(TermsIn(f)) else None, turbo)
      && Clean(rest) && forall t: nat :: Lookup(rest, t) == LeftEtching(f, terms, t)
  {
    hide TakeEtching, TakeTerms, Lookup, Clean, Left, First, Below, SymbolIn;
    var rest := PlainTaken(f, terms, turbo);
    if terms {
      TermsTaken(rest);
    }
  }

  /** The three flags are bits of one number, and nothing is left exactly when no other bit is set. */
  lemma FlagBits(n: nat)
    ensures var (etching, n1) := TakeFlag(n, ETCHING_FLAG);
      && (etching <==> n % 2 == 1) && (!etching ==> n1 == n)
      && var (terms, n2) := TakeFlag(n1, TERMS_FLAG);
      var (turbo, n3) := TakeFlag(n2, TURBO_FLAG);
      etching ==> (terms <==> n / 2 % 2 == 1) && (turbo <==> n / 4 % 2 == 1) && (n3 == 0 <==> n < 8)
  {
  }

  function LeftFlagged(f: Fields, t: nat): seq<nat> {
    if t == FLAGS then Left(Lookup(f, t), Any)
    else if Etches(f) then LeftEtching(f, HasTerms(f), t)
    else Lookup(f, t)
  }

  lemma FlaggedTaken(f: Fields)
    requires Clean(f)
    ensures var (etching, flags, rest) := TakeFlagged(f);
      && etching == EtchingIn(f) && (flags == 0 <==> BitsKnown(f))
      && Clean(rest) && forall t: nat :: Lookup(rest, t) == LeftFlagged(f, t)
  {
    hide Take, TakeFlag, TakeEtching, Lookup, Clean, Left, First, Below, SymbolIn;
    Takes(f, FLAGS, Any);
    Peeks(Lookup(f, FLAGS));
    var f1 := Take(f, FLAGS, Any).1;
    FlagBits(Bits(f));
    if Etches(f) {
      EtchingTaken(f1, HasTerms(f), IsTurbo(f));
    }
  }

  // ------------------------------------------------------------- what is left

  lemma MintTaken(f: Fields)
    requires Clean(f)
    ensures var (mint, rest) := TakeTwo(f, MINT, AsId);
      && mint == MintIn(f) && Clean(rest)
      && forall t: nat :: Lookup(rest, t) == if t == MINT && mint.Some? then Lookup(f, t)[2..] else Lookup(f, t)
  {
    TakeTwoMeaning(f, MINT, AsId);
  }

  lemma PointerTaken(outputs: nat, f: Fields)
    requires Clean(f)
    ensures var (pointer, rest) := Take(f, DEFAULT_OUTPUT, v => AsPointer(outputs, v));
      && pointer == PointerIn(outputs, f) && Clean(rest)
      && forall t: nat :: Lookup(rest, t) == if t == DEFAULT_OUTPUT && pointer.Some? then Lookup(f, t)[1..] else Lookup(f, t)
  {
    TakeMeaning(f, DEFAULT_OUTPUT, v => AsPointer(outputs, v));
  }

  function LeftOver(outputs: nat, f: Fields, t: nat): seq<nat> {
    if t == MINT then if IsId(Lookup(f, t)) then Lookup(f, t)[2..] else Lookup(f, t)
    else if t == DEFAULT_OUTPUT then if PointerIn(outputs, f).Some? then Lookup(f, t)[1..] else Lookup(f, t)
    else LeftFlagged(f, t)
  }

  lemma LeftMeans(values: seq<nat>)
    ensures Left(values, Any) == [] <==> |values| <= 1
    ensures Left(values, AsU64) == [] <==> values == [] || (|values| == 1 && values[0] < U64)
  {
  }

  /** Of an even tag nothing is left exactly when there was nothing or its numbers were accepted. */
  lemma NothingLeftIff(outputs: nat, f: Fields, t: nat)
    requires t % 2 == 0
    ensures LeftOver(outputs, f, t) == [] <==> Lookup(f, t) == [] || Accepted(outputs, f, t)
  {
    hide Lookup, Left, Bits;
    LeftMeans(Lookup(f, t));
  }

  lemma EvenLeftIff(outputs: nat, f: Fields, rest: Fields)
    requires Clean(f) && Clean(rest) && forall t: nat :: Lookup(rest, t) == LeftOver(outputs, f, t)
    ensures EvenTagLeft(rest) <==> !EvenAccepted(outputs, f)
  {
    hide LeftOver, Accepted;
    if EvenTagLeft(rest) {
      var tag :| tag in rest && tag % 2 == 0;
      NothingLeftIff(outputs, f, tag);
      assert Lookup(rest, tag) != [];
    }
    if !EvenAccepted(outputs, f) {
      var tag :| tag in f && tag % 2 == 0 && !Accepted(outputs, f, tag);
      NothingLeftIff(outputs, f, tag);
      assert Lookup(rest, tag) != [];
    }
  }

  // ----------------------------------------------------------- interpretation

  /** The flaw reported: the first there is, in this order. */
  ghost function FlawOf(outputs: nat, m: Message): Option<Flaw> {
    if m.flaw.Some? then m.flaw
    else if !SupplyFits(m.fields) then Some(SupplyOverflow)
    else if !BitsKnown(m.fields) then Some(UnrecognizedFlag)
    else if !EvenAccepted(outputs, m.fields) then Some(UnrecognizedEvenTag)
    else None
  }

  lemma SupplyIff(f: Fields)
    ensures EtchingIn(f).Some? && Supply(EtchingIn(f).value) == None <==> !SupplyFits(f)
  {
    hide Lookup, First, Below, SymbolIn, Bits;
  }

  lemma Untouched(f: Fields)
    ensures LeftFlagged(f, MINT) == Lookup(f, MINT) && LeftFlagged(f, DEFAULT_OUTPUT) == Lookup(f, DEFAULT_OUTPUT)
  {
  }

  /** Interpretation takes out the etching, the mint and the pointer, and judges what is left. */
  lemma Interprets(outputs: nat, m: Message) returns (flags: nat, rest: Fields)
    requires Clean(m.fields)
    ensures flags == 0 <==> BitsKnown(m.fields)
    ensures EvenTagLeft(rest) <==> !EvenAccepted(outputs, m.fields)
    ensures Interpret(outputs, m)
         == Conclude(m.flaw, Dunestone(m.edicts, EtchingIn(m.fields), MintIn(m.fields), PointerIn(outputs, m.fields)), flags, rest)
  {
    hide Take, TakeTwo, TakeFlagged, Lookup, Clean, LeftFlagged, First, Below, EtchingIn, IsId, BitsKnown, EvenAccepted,
         EvenTagLeft, Conclude;
    var f := m.fields;
    FlaggedTaken(f);
    Untouched(f);
    var f2 := TakeFlagged(f).2;
    MintTaken(f2);
    var f3 := TakeTwo(f2, MINT, AsId).1;
    PointerTaken(outputs, f3);
    flags, rest := TakeFlagged(f).1, Take(f3, DEFAULT_OUTPUT, v => AsPointer(outputs, v)).1;
    EvenLeftIff(outputs, f, rest);
  }

  /**
    Whatever the message: it is a dunestone exactly when it came without a
    flaw, its supply fits, its flags are known and the numbers under every even
    tag were accepted; otherwise a cenotaph that names the first thing wrong
    and keeps the mint and the name etched.
   */
  lemma InterpretMeaning(outputs: nat, m: Message)
    requires Clean(m.fields)
    ensures var f, a := m.fields, Interpret(outputs, m);
      && (a.Stone? <==> m.flaw == None && SupplyFits(f) && BitsKnown(f) && EvenAccepted(outputs, f))
      && (a.Stone? ==> a.stone == Dunestone(m.edicts, EtchingIn(f), MintIn(f), PointerIn(outputs, f)))
      && (a.Cenotaph? ==>
            a == Cenotaph(FlawOf(outputs, m), MintIn(f), if Etches(f) then First(Lookup(f, 4)) else None))
  {
    hide Interpret, Lookup, Clean, First, Below, SymbolIn, MintIn, PointerIn, BitsKnown, HasTerms, SupplyFits, EvenAccepted, EvenTagLeft,
         Supply, Bits;
    var flags, rest := Interprets(outputs, m);
    SupplyIff(m.fields);
  }

  // --------------------------------------------------------------- transactions

  /** An output is marked by its first two bytes. */
  lemma MarkedIff(script: seq<Byte>)
    ensures Marked(script) <==> |script| >= 2 && script[0] == 0x6a && script[1] == 0x5d
  {
    hide ReadScript;
    if script != [] {
      ReadsOn(script);
      if script[0] == 0x6a && |script| >= 2 {
        ReadsOn(script[1..]);
      }
    }
    NothingRead();
  }

  lemma NothingRead()
    ensures ReadScript([]) == Script([], false)
  {
  }

  lemma ReadsOn(script: seq<Byte>)
    requires script != []
    ensures ReadOne(script) == None ==> ReadScript(script) == Script([], true)
    ensures ReadOne(script).Some? ==>
              var (item, rest) := ReadOne(script).value;
              ReadScript(script) == Script([item] + ReadScript(rest).instructions, ReadScript(rest).broken)
  {
    hide ReadOne;
  }

  function DataOf(item: Instruction): seq<Byte> {
    if item.Push? then item.data else []
  }

  function DataOfAll(items: seq<Instruction>): (pieces: seq<seq<Byte>>)
    ensures |pieces| == |items| && forall i :: 0 <= i < |items| ==> pieces[i] == DataOf(items[i])
  {
    seq(|items|, i requires 0 <= i < |items| => DataOf(items[i]))
  }

  /** An opcode among the pushes is reported before a broken end; otherwise all pushes together are the payload. */
  lemma {:induction false} PushesMeaning(items: seq<Instruction>, broken: bool)
    ensures ReadPushes(items, broken) ==
              if exists i :: 0 <= i < |items| && items[i].Op? then Invalid(Opcode)
              else if broken then Invalid(InvalidScript)
              else Valid(Flatten(DataOfAll(items)))
  {
    if items != [] {
      PushesMeaning(items[1..], broken);
      assert DataOfAll(items)[1..] == DataOfAll(items[1..]);
      assert forall i :: 0 < i < |items| ==> items[i] == items[1..][i - 1];
    } else {
      assert DataOfAll(items) == [];
    }
  }

  lemma {:induction false} UnmarkedHasNone(outputs: seq<seq<Byte>>)
    ensures PayloadOf(outputs) == None <==> forall i :: 0 <= i < |outputs| ==> !Marked(outputs[i])
  {
    hide Marked, ReadScript;
    if outputs != [] {
      UnmarkedHasNone(outputs[1..]);
      assert forall i :: 0 < i < |outputs| ==> outputs[i] == outputs[1..][i - 1];
    }
  }

  /** What a marked script holds behind its mark. */
  function Items(script: seq<Byte>): seq<Instruction>
    requires Marked(script)
  {
    ReadScript(script).instructions[2..]
  }

  /** The numbers a marked script carries. */
  ghost predicate Carries(script: seq<Byte>, ns: seq<nat>)
    requires Marked(script)
  {
    && (forall i :: 0 <= i < |Items(script)| ==> Items(script)[i].Push?)
    && !ReadScript(script).broken
    && Integers(Flatten(DataOfAll(Items(script)))) == Ok(ns)
  }

  /** Why a marked script carries no numbers. */
  ghost function ScriptFlaw(script: seq<Byte>): Flaw
    requires Marked(script)
  {
    if exists i :: 0 <= i < |Items(script)| && Items(script)[i].Op? then Opcode
    else if ReadScript(script).broken then InvalidScript
    else VarintFlaw
  }

  /** Transactions: no marked output, nothing; else the first marked one decides, whatever the others are. */
  lemma DecipherMeaning(before: seq<seq<Byte>>, script: seq<Byte>, after: seq<seq<Byte>>, ns: seq<nat>)
    requires forall i :: 0 <= i < |before| ==> !Marked(before[i])
    ensures Decipher(before) == None
    ensures Marked(script) ==>
      var n, r := |before| + 1 + |after|, Decipher(before + [script] + after);
      && (Carries(script, ns) ==> r == Some(Interpret(n, ReadFields(n, ns, map[]))))
      && ((forall x: seq<nat> :: !Carries(script, x)) ==> r == Some(Cenotaph(Some(ScriptFlaw(script)), None, None)))
  {
    hide Marked, ReadScript, ReadPushes, Integers, Interpret, ReadFields, PayloadOf, DataOfAll;
    UnmarkedHasNone(before);
    if Marked(script) {
      FirstMarked(before, script, after);
      PushesMeaning(Items(script), ReadScript(script).broken);
      var integers := Integers(Flatten(DataOfAll(Items(script))));
      if integers.Ok? && !(exists x: seq<nat> :: Carries(script, x)) {
        assert !Carries(script, integers.value);
      }
      assert |before + [script] + after| == |before| + 1 + |after|;
    }
  }

  /** The numbers of a transaction become a dunestone exactly when every rule is met. */
  lemma StoneIff(before: seq<seq<Byte>>, script: seq<Byte>, after: seq<seq<Byte>>, ns: seq<nat>)
    requires (forall i :: 0 <= i < |before| ==> !Marked(before[i])) && Marked(script) && Carries(script, ns)
    ensures var n, r := |before| + 1 + |after|, Decipher(before + [script] + after);
      var m := ReadFields(n, ns, map[]);
      var stone := Dunestone(m.edicts, EtchingIn(m.fields), MintIn(m.fields), PointerIn(n, m.fields));
      var etched := if Etches(m.fields) then First(Lookup(m.fields, 4)) else None;
      && (r == Some(Stone(stone)) <==>
            m.flaw == None && SupplyFits(m.fields) && BitsKnown(m.fields) && EvenAccepted(n, m.fields))
      && (FlawOf(n, m).Some? ==> r == Some(Cenotaph(FlawOf(n, m), stone.mint, etched)))
  {
    hide Marked, Carries, Interpret, ReadFields, Lookup, First, Clean, MintIn, PointerIn, EtchingIn, Etches, SupplyFits, BitsKnown, EvenAccepted;
    var n := |before| + 1 + |after|;
    DecipherMeaning(before, script, after, ns);
    FieldsMeaning(n, ns);
    InterpretMeaning(n, ReadFields(n, ns, map[]));
  }

  // ------------------------------------------------------- what is enciphered

  /** The place of a tag in a payload: flags, dune, looks, premine, terms, mint, pointer. */
  function Place(tag: nat): nat {
    match tag
    case 2 => 1
    case 4 => 2
    case 1 => 3
    case 3 => 4
    case 5 => 5
    case 6 => 6
    case 10 => 7
    case 8 => 8
    case 12 => 9
    case 14 => 10
    case 16 => 11
    case 18 => 12
    case 20 => 13
    case 22 => 14
    case _ => 15
  }

  /** Pairs of a known tag and a value, the tags in their order, none before the given place. */
  predicate Ordered(payload: seq<nat>, from: nat) {
    payload == [] || (|payload| >= 2 && from <= Place(payload[0]) <= 14 && Ordered(payload[2..], Place(payload[0])))
  }

  lemma OrderedBelow(payload: seq<nat>, from: nat, lower: nat)
    requires Ordered(payload, from) && lower <= from
    ensures Ordered(payload, lower)
  {
  }

  lemma OrderedPair(tag: nat, value: nat, rest: seq<nat>, from: nat)
    requires from <= Place(tag) <= 14 && Ordered(rest, Place(tag))
    ensures Ordered([tag, value] + rest, from)
  {
    assert ([tag, value] + rest)[2..] == rest;
  }

  lemma {:induction false} OrderedEmit(tag: nat, values: seq<nat>, rest: seq<nat>, from: nat)
    requires from <= Place(tag) <= 14 && Ordered(rest, Place(tag) + 1)
    ensures Ordered(Emit(tag, values) + rest, from)
    decreases |values|
  {
    hide Ordered, Place;
    if values == [] {
      assert Emit(tag, values) + rest == rest;
      OrderedBelow(rest, Place(tag) + 1, from);
    } else {
      OrderedEmit(tag, values[1..], rest, Place(tag));
      OrderedPair(tag, values[0], Emit(tag, values[1..]) + rest, from);
      Assoc([tag, values[0]], Emit(tag, values[1..]), rest);
    }
  }

  /** Tags in ascending places, from the first place on and before the last. */
  ghost predicate Rising(slots: seq<Slot>, from: nat, end: nat) {
    && (forall i :: 0 <= i < |slots| ==> from <= Place(slots[i].tag) < end)
    && forall i, j :: 0 <= i < j < |slots| ==> Place(slots[i].tag) < Place(slots[j].tag)
  }

  lemma RisingTail(slots: seq<Slot>, from: nat, end: nat)
    requires Rising(slots, from, end) && slots != []
    ensures from <= Place(slots[0].tag) < end && Rising(slots[1..], Place(slots[0].tag) + 1, end)
  {
    hide Place;
  }

  lemma {:induction false} OrderedSlots(slots: seq<Slot>, from: nat)
    requires Rising(slots, from, 15)
    ensures Ordered(EmitAll(slots), from)
    decreases |slots|
  {
    hide Place, Emit, Rising;
    if slots != [] {
      RisingTail(slots, from, 15);
      OrderedSlots(slots[1..], Place(slots[0].tag) + 1);
      OrderedEmit(slots[0].tag, slots[0].values, EmitAll(slots[1..]), from);
    }
  }

  lemma RisingBoth(a: seq<Slot>, b: seq<Slot>, from: nat, middle: nat, end: nat)
    requires Rising(a, from, middle) && Rising(b, middle, end) && from <= middle <= end
    ensures Rising(a + b, from, end)
  {
    hide Place;
    var both := a + b;
    assert forall i :: 0 <= i < |a| ==> both[i] == a[i];
    assert forall i :: |a| <= i < |both| ==> both[i] == b[i - |a|];
  }

  lemma NoneRising(from: nat, end: nat)
    ensures Rising([], from, end)
  {
  }

  lemma EtchingRising(e: Etching)
    ensures Rising(EtchingSlots(e), 1, 7)
  {
    hide Values, FlagsOf;
    var s := EtchingSlots(e);
    assert Place(s[0].tag) == 1 && Place(s[1].tag) == 2 && Place(s[2].tag) == 3;
    assert Place(s[3].tag) == 4 && Place(s[4].tag) == 5 && Place(s[5].tag) == 6;
  }

  lemma TermsRising(t: Terms)
    ensures Rising(TermsSlots(t), 7, 13)
  {
    hide Values;
    var s := TermsSlots(t);
    assert Place(s[0].tag) == 7 && Place(s[1].tag) == 8 && Place(s[2].tag) == 9;
    assert Place(s[3].tag) == 10 && Place(s[4].tag) == 11 && Place(s[5].tag) == 12;
  }

  lemma MintRising(d: Dunestone)
    ensures Rising(MintSlots(d), 13, 15)
  {
    hide Values;
    var s := MintSlots(d);
    assert Place(s[0].tag) == 13 && Place(s[1].tag) == 14;
  }

  /** The fields of a dunestone are enciphered in this order. */
  lemma PayloadInOrder(d: Dunestone)
    ensures Ordered(EmitAll(Slots(d)), 1)
  {
    hide EmitAll, EtchingSlots, TermsSlots, MintSlots, Rising, Place, Ordered;
    var a := if d.etching.Some? then EtchingSlots(d.etching.value) else [];
    var b := if d.etching.Some? && d.etching.value.terms.Some? then TermsSlots(d.etching.value.terms.value) else [];
    NoneRising(1, 7);
    NoneRising(7, 13);
    if d.etching.Some? {
      EtchingRising(d.etching.value);
      if d.etching.value.terms.Some? {
        TermsRising(d.etching.value.terms.value);
      }
    }
    MintRising(d);
    RisingBoth(a, b, 1, 7, 13);
    RisingBoth(a + b, MintSlots(d), 1, 13, 15);
    OrderedSlots(Slots(d), 1);
  }
}
