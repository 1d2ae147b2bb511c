/**
  Reading the compact form of a block gives back what was stored, exactly when
  the block's counts and numbers fit the fields of the format.
 */
module BlockCursorProperties {
  import opened Wrappers
  import opened Bytes
  import opened BlockCursors

  /** Table positions are computed in sixteen bits: they repeat after this many entries of four bytes. */
  const REPEAT: nat := 16384

  function AllStored(block: seq<Tx>, from: nat): (txs: seq<Tx>)
    requires from <= |block|
    ensures |txs| == |block| - from
    ensures forall j :: 0 <= j < |txs| ==> txs[j] == Stored(block[from + j], from + j)
    decreases |block| - from
  {
    if from == |block| then [] else [Stored(block[from], from)] + AllStored(block, from + 1)
  }

  predicate CountsFit(block: seq<Tx>) {
    forall k :: 0 <= k < |block| ==> |Stored(block[k], k).inputs| < U16 && |block[k].outputs| < U16
  }

  /** The entry of the table that is read for a transaction. */
  function Entry(block: seq<Tx>, k: nat): Tx
    requires k < |block|
  {
    Stored(block[k % REPEAT], k % REPEAT)
  }

  /** Transactions read from a repeated entry have the lengths of the one it was written for. */
  predicate CountsRepeat(block: seq<Tx>) {
    forall k :: 0 <= k < |block| ==>
      |Stored(block[k], k).inputs| == |Entry(block, k).inputs| && |block[k].outputs| == |Entry(block, k).outputs|
  }

  predicate InputFits(i: TxIn) {
    i.blockHeight < U32 && i.vout < U16
  }

  predicate InputsFit(block: seq<Tx>) {
    forall k :: 0 <= k < |block| ==> forall j :: 0 <= j < |Stored(block[k], k).inputs| ==> InputFits(Stored(block[k], k).inputs[j])
  }

  // ----------------------------------------------------- one transaction

  /** What the format keeps of a height and an output index. */
  function Narrowed(i: TxIn): TxIn {
    i.(blockHeight := i.blockHeight % U32, vout := i.vout % U16)
  }

  function NarrowedAll(inputs: seq<TxIn>): (r: seq<TxIn>)
    ensures |r| == |inputs| && forall j :: 0 <= j < |r| ==> r[j] == Narrowed(inputs[j])
  {
    if inputs == [] then [] else [Narrowed(inputs[0])] + NarrowedAll(inputs[1..])
  }

  lemma ReadInputBack(i: TxIn, tail: seq<Byte>)
    ensures |InputBytes(i)| == INPUT_SIZE
    ensures ReadInput(InputBytes(i) + tail) == Some((Narrowed(i), tail))
  {
    hide BigEndian, FromBigEndian, Range;
    var a, b, c, d := i.txin, BigEndian(i.blockHeight % U32, 4), BigEndian(i.vout % U16, 2), BigEndian(i.value, 8);
    Ranges();
    BigEndianRoundTrip(i.blockHeight % U32, 4);
    BigEndianRoundTrip(i.vout % U16, 2);
    BigEndianRoundTrip(i.value, 8);
    var bytes := InputBytes(i) + tail;
    assert bytes[..8] == a && bytes[8..12] == b;
    assert bytes[12..14] == c && bytes[14..22] == d && bytes[22..] == tail;
  }

  lemma {:induction false} ReadInputsBack(inputs: seq<TxIn>, tail: seq<Byte>)
    ensures ReadInputs(InputsBytes(inputs) + tail, |inputs|) == Some((NarrowedAll(inputs), tail))
    ensures |InputsBytes(inputs)| == |inputs| * INPUT_SIZE
  {
    hide ReadInput, InputBytes;
    if inputs == [] {
      assert InputsBytes(inputs) + tail == tail;
    } else {
      var rest := InputsBytes(inputs[1..]) + tail;
      ReadInputBack(inputs[0], rest);
      ReadInputsBack(inputs[1..], tail);
      assert InputsBytes(inputs) + tail == InputBytes(inputs[0]) + rest;
    }
  }

  lemma {:induction false} ReadOutputsBack(outputs: seq<Sats>, tail: seq<Byte>)
    ensures ReadOutputs(OutputsBytes(outputs) + tail, |outputs|) == Some(outputs)
    ensures |OutputsBytes(outputs)| == |outputs| * OUTPUT_SIZE
  {
    hide BigEndian, FromBigEndian, Range;
    if outputs != [] {
      Ranges();
      BigEndianRoundTrip(outputs[0], 8);
      ReadOutputsBack(outputs[1..], tail);
      var bytes := OutputsBytes(outputs) + tail;
      assert bytes[..8] == BigEndian(outputs[0], 8);
      assert bytes[8..] == OutputsBytes(outputs[1..]) + tail;
      assert outputs == [outputs[0]] + outputs[1..];
    }
  }

  function Kept(tx: Tx): Tx {
    tx.(inputs := NarrowedAll(tx.inputs))
  }

  lemma ReadTxBack(tx: Tx, tail: seq<Byte>)
    ensures ReadTx(Body(tx) + tail, |tx.inputs|, |tx.outputs|) == Some(Kept(tx))
    ensures |Body(tx)| == TXID_LEN + |tx.inputs| * INPUT_SIZE + |tx.outputs| * OUTPUT_SIZE
    ensures TxidAt(Body(tx) + tail) == tx.txid
  {
    hide ReadInputs, ReadOutputs, InputsBytes, OutputsBytes;
    ReadInputsBack(tx.inputs, OutputsBytes(tx.outputs) + tail);
    ReadOutputsBack(tx.outputs, tail);
    var bytes := Body(tx) + tail;
    assert bytes[..8] == tx.txid;
    assert bytes[8..] == InputsBytes(tx.inputs) + (OutputsBytes(tx.outputs) + tail);
  }

  // -------------------------------------------------------- a whole block

  lemma {:induction false} TableLength(block: seq<Tx>, from: nat)
    requires from <= |block|
    ensures |Table(block, from)| == 4 * (|block| - from)
    decreases |block| - from
  {
    if from < |block| { TableLength(block, from + 1); }
  }

  /** The table tells the number of inputs and outputs of each transaction, or of the one its position repeats. */
  lemma FormatBack(block: seq<Tx>, k: nat)
    requires k < |block|
    ensures var inputs, outputs := |Entry(block, k).inputs| % U16, |Entry(block, k).outputs| % U16;
            GetTransactionFormat(Encode(block), k)
              == Some(Format(inputs, outputs, TXID_LEN + inputs * INPUT_SIZE + outputs * OUTPUT_SIZE))
  {
    hide BigEndian, FromBigEndian, Range, Bodies, Table, Encode, TablePos;
    var tx := Entry(block, k);
    Ranges();
    BigEndianRoundTrip(|tx.inputs| % U16, 2);
    BigEndianRoundTrip(|tx.outputs| % U16, 2);
    Repeats(k);
    TableSlice(block, k % REPEAT);
  }

  lemma Repeats(k: nat)
    ensures TablePos(k) == 2 + 4 * (k % REPEAT)
  {
  }

  lemma TableSlice(block: seq<Tx>, k: nat)
    requires k < |block| && k < REPEAT
    ensures var pos, bytes, tx := 2 + 4 * k, Encode(block), Stored(block[k], k);
            && pos + 4 <= |bytes|
            && bytes[pos..pos + 2] == BigEndian(|tx.inputs| % U16, 2)
            && bytes[pos + 2..pos + 4] == BigEndian(|tx.outputs| % U16, 2)
  {
    hide BigEndian, Bodies, Table;
    TableSplits(block, 0, k);
    TableLength(block[..k], 0);
    var head, left, right := BigEndian(|block| % U16, 2), Table(block[..k], 0), Table(block, k + 1);
    var counts := Counts(Stored(block[k], k));
    assert Encode(block) == (head + left) + counts + (right + Bodies(block, 0));
  }

  lemma TxLenBack(block: seq<Tx>)
    ensures TxLen(Encode(block)) == Some(|block| % U16)
  {
    hide Bodies, Table, BigEndian, FromBigEndian, Range;
    Ranges();
    BigEndianRoundTrip(|block| % U16, 2);
    var head := BigEndian(|block| % U16, 2);
    assert Encode(block)[..2] == head;
  }

  /** What is read from an offset on starts with the bodies that remain. */
  ghost predicate At(block: seq<Tx>, k: nat, offset: nat)
    requires k <= |block|
  {
    Bodies(block, k) <= DropTo(Encode(block), TablePos(|block|) + offset)
  }

  /** Iteration starts reading bodies at a table entry, the one the wrapped number of transactions points to. */
  ghost predicate BodiesRepeat(block: seq<Tx>) {
    Bodies(block, 0) <= Table(block, |block| % REPEAT) + Bodies(block, 0)
  }

  lemma DropHead(head: seq<Byte>, rest: seq<Byte>)
    ensures DropTo(head + rest, |head|) == rest
  {
  }

  lemma {:induction false} TableCut(block: seq<Tx>, from: nat, k: nat)
    requires from <= k <= |block|
    ensures 4 * (k - from) <= |Table(block, from)| && Table(block, from)[4 * (k - from)..] == Table(block, k)
    decreases k - from
  {
    hide Counts;
    if from < k {
      TableCut(block, from + 1, k);
      assert |Counts(Stored(block[from], from))| == 4 by { CountsLength(Stored(block[from], from)); }
      assert Table(block, from)[4..] == Table(block, from + 1);
      assert Table(block, from)[4 * (k - from)..] == Table(block, from)[4..][4 * (k - from - 1)..];
    }
  }

  lemma CountsLength(tx: Tx)
    ensures |Counts(tx)| == 4
  {
  }

  /** For every block, the bodies are found where iteration starts exactly when they repeat the rest of the table. */
  lemma BodiesRepeatIff(block: seq<Tx>)
    ensures At(block, 0, 0) <==> BodiesRepeat(block)
  {
    hide Table, Bodies, BigEndian, DropTo, TablePos;
    var m := |block| % REPEAT;
    Repeats(|block|);
    assert m <= |block|;
    TableCut(block, 0, m);
    var front, rest := BigEndian(|block| % U16, 2) + Table(block, 0)[..4 * m], Table(block, m) + Bodies(block, 0);
    assert Table(block, 0) == Table(block, 0)[..4 * m] + Table(block, m);
    assert Encode(block) == front + rest;
    DropHead(front, rest);
  }

  lemma DropMore(bytes: seq<Byte>, pos: nat, n: nat)
    requires n <= |DropTo(bytes, pos)|
    ensures DropTo(bytes, pos)[n..] == DropTo(bytes, pos + n)
  {
  }

  lemma AtNext(block: seq<Tx>, k: nat, offset: nat)
    requires k < |block| && At(block, k, offset)
    ensures var rest, body := DropTo(Encode(block), TablePos(|block|) + offset), Body(Stored(block[k], k));
            body <= rest && rest == body + rest[|body|..] && At(block, k + 1, offset + |body|)
  {
    hide Body, Encode, TablePos, DropTo;
    var body, bytes, pos := Body(Stored(block[k], k)), Encode(block), TablePos(|block|) + offset;
    BodiesSplit(block, k);
    DropMore(bytes, pos, |body|);
  }

  function AllKept(txs: seq<Tx>): (r: seq<Tx>)
    ensures |r| == |txs| && forall j :: 0 <= j < |r| ==> r[j] == Kept(txs[j])
  {
    if txs == [] then [] else [Kept(txs[0])] + AllKept(txs[1..])
  }

  /** Blocks whose lengths are read as they were written, and whose bodies are read from a place where they stand. */
  ghost predicate Sound(block: seq<Tx>) {
    |block| < U16 && CountsFit(block) && CountsRepeat(block) && BodiesRepeat(block)
  }

  lemma SmallIsSound(block: seq<Tx>)
    requires |block| < REPEAT && CountsFit(block)
    ensures Sound(block)
  {
    NoneRepeated(block);
    hide Bodies, CountsFit, CountsRepeat;
    assert Table(block, |block|) == [];
    assert [] + Bodies(block, 0) == Bodies(block, 0);
  }

  /** In a sound block the table gives every transaction its own lengths. */
  lemma OwnFormat(block: seq<Tx>, k: nat)
    requires k < |block| && CountsFit(block) && CountsRepeat(block)
    ensures var tx := Stored(block[k], k);
            GetTransactionFormat(Encode(block), k) == Some(Format(|tx.inputs|, |tx.outputs|, |Body(tx)|))
  {
    hide GetTransactionFormat, Encode, Body;
    FormatBack(block, k);
    ReadTxBack(Stored(block[k], k), []);
    assert |Stored(block[k], k).inputs| % U16 == |Stored(block[k], k).inputs|;
  }

  lemma {:induction false} ReadFromBack(block: seq<Tx>, k: nat, offset: nat)
    requires k <= |block| && CountsFit(block) && CountsRepeat(block) && At(block, k, offset)
    ensures ReadFrom(Encode(block), |block|, k, offset) == Ok(AllKept(AllStored(block, k)))
    decreases |block| - k
  {
    hide Body, ReadTx, Encode, TablePos, DropTo, GetTransactionFormat, Bodies, Kept, CountsFit, CountsRepeat, At, Stored;
    if k < |block| {
      var tx := Stored(block[k], k);
      var rest := DropTo(Encode(block), TablePos(|block|) + offset);
      OwnFormat(block, k);
      AtNext(block, k, offset);
      ReadTxBack(tx, rest[|Body(tx)|..]);
      StoredOutputs(block, k);
      ReadFromBack(block, k + 1, offset + |Body(tx)|);
    }
  }

  lemma StoredOutputs(block: seq<Tx>, k: nat)
    requires k < |block|
    ensures Stored(block[k], k).outputs == block[k].outputs
  {
  }

  lemma BodiesSplit(block: seq<Tx>, k: nat)
    requires k < |block|
    ensures Bodies(block, k) == Body(Stored(block[k], k)) + Bodies(block, k + 1)
  {
  }

  /** Whatever the bytes, the lengths of what is read are the ones in the table. */
  lemma {:induction false} LengthsRead(bytes: seq<Byte>, txLen: nat, k: nat, offset: nat, j: nat)
    requires k <= j < txLen && ReadFrom(bytes, txLen, k, offset).Ok?
    ensures |ReadFrom(bytes, txLen, k, offset).value| == txLen - k
    ensures var tx, format := ReadFrom(bytes, txLen, k, offset).value[j - k], GetTransactionFormat(bytes, j);
            format.Some? && |tx.inputs| == format.value.inputs && |tx.outputs| == format.value.outputs
    decreases j - k
  {
    hide ReadTx, TablePos, DropTo, GetTransactionFormat;
    var format := GetTransactionFormat(bytes, k);
    LengthOfRest(bytes, txLen, k + 1, offset + format.value.size);
    if k < j {
      LengthsRead(bytes, txLen, k + 1, offset + format.value.size, j);
    }
  }

  lemma {:induction false} LengthOfRest(bytes: seq<Byte>, txLen: nat, k: nat, offset: nat)
    requires k <= txLen && ReadFrom(bytes, txLen, k, offset).Ok?
    ensures |ReadFrom(bytes, txLen, k, offset).value| == txLen - k
    decreases txLen - k
  {
    hide ReadTx, TablePos, DropTo, GetTransactionFormat;
    if k < txLen {
      LengthOfRest(bytes, txLen, k + 1, offset + GetTransactionFormat(bytes, k).value.size);
    }
  }

  // -------------------------------------------- what a round trip requires

  lemma {:induction false} SizeMustFit(block: seq<Tx>)
    requires ReadAll(Encode(block)) == Ok(AllStored(block, 0))
    ensures |block| < U16 && ReadFrom(Encode(block), |block|, 0, 0) == Ok(AllStored(block, 0))
  {
    hide ReadFrom, Encode, AllStored, Stored, TxLen;
    TxLenBack(block);
    LengthOfRest(Encode(block), |block| % U16, 0, 0);
  }

  lemma CountMustFit(block: seq<Tx>, k: nat)
    requires k < |block| && ReadFrom(Encode(block), |block|, 0, 0) == Ok(AllStored(block, 0))
    ensures |Stored(block[k], k).inputs| == |Entry(block, k).inputs| % U16 && |block[k].outputs| == |Entry(block, k).outputs| % U16
  {
    hide GetTransactionFormat, ReadFrom, Encode, AllStored, Entry;
    LengthsRead(Encode(block), |block|, 0, 0, k);
    FormatBack(block, k);
  }

  lemma BothCountsFit(block: seq<Tx>, k: nat)
    requires k < |block| && ReadFrom(Encode(block), |block|, 0, 0) == Ok(AllStored(block, 0))
    ensures |Stored(block[k], k).inputs| == |Entry(block, k).inputs| < U16
    ensures |block[k].outputs| == |Entry(block, k).outputs| < U16
  {
    hide ReadFrom, Encode, AllStored, Stored;
    var e := k % REPEAT;
    CountMustFit(block, k);
    CountMustFit(block, e);
    StoredOutputs(block, e);
    EntryTwice(block, k);
  }

  lemma EntryTwice(block: seq<Tx>, k: nat)
    requires k < |block|
    ensures Entry(block, k % REPEAT) == Entry(block, k) == Stored(block[k % REPEAT], k % REPEAT)
  {
  }

  lemma CountsMustFit(block: seq<Tx>)
    requires ReadFrom(Encode(block), |block|, 0, 0) == Ok(AllStored(block, 0))
    ensures CountsFit(block) && CountsRepeat(block)
  {
    hide ReadFrom, Encode, AllStored, Stored, Entry;
    forall k | 0 <= k < |block|
      ensures |Stored(block[k], k).inputs| < U16 && |block[k].outputs| < U16
      ensures |Stored(block[k], k).inputs| == |Entry(block, k).inputs| && |block[k].outputs| == |Entry(block, k).outputs|
    {
      BothCountsFit(block, k);
    }
  }

  lemma ReadInputIs(rest: seq<Byte>)
    requires ReadInput(rest).Some?
    ensures var i := ReadInput(rest).value.0;
            InputFits(i) && rest == InputBytes(i) + ReadInput(rest).value.1
  {
    hide BigEndian, FromBigEndian, Range;
    var i := ReadInput(rest).value.0;
    Ranges();
    FromBigEndianBelow(rest[8..12]);
    FromBigEndianBelow(rest[12..14]);
    BigEndianBack(rest[8..12]);
    BigEndianBack(rest[12..14]);
    BigEndianBack(rest[14..22]);
    assert i.blockHeight % U32 == i.blockHeight && i.vout % U16 == i.vout;
    assert rest == rest[..8] + rest[8..12] + rest[12..14] + rest[14..22] + rest[22..];
  }

  lemma {:induction false} ReadInputsAre(rest: seq<Byte>, n: nat)
    requires ReadInputs(rest, n).Some?
    ensures var (inputs, more) := ReadInputs(rest, n).value;
            && (forall j :: 0 <= j < |inputs| ==> InputFits(inputs[j]))
            && rest == InputsBytes(inputs) + more
    decreases n
  {
    hide ReadInput, InputBytes, InputFits;
    if n > 0 {
      ReadInputIs(rest);
      var (i, after) := ReadInput(rest).value;
      ReadInputsAre(after, n - 1);
      var (inputs, more) := ReadInputs(after, n - 1).value;
      assert ([i] + inputs)[1..] == inputs;
      assert InputBytes(i) + (InputsBytes(inputs) + more) == (InputBytes(i) + InputsBytes(inputs)) + more;
    }
  }

  lemma {:induction false} ReadOutputsAre(rest: seq<Byte>, n: nat)
    requires ReadOutputs(rest, n).Some?
    ensures OutputsBytes(ReadOutputs(rest, n).value) <= rest
  {
    hide BigEndian, FromBigEndian;
    if n > 0 {
      BigEndianBack(rest[..8]);
      ReadOutputsAre(rest[8..], n - 1);
      FromBigEndianBound(rest[..8]);
      var v: Sats := FromBigEndian(rest[..8]);
      var outputs := ReadOutputs(rest[8..], n - 1).value;
      assert ([v] + outputs)[1..] == outputs;
      assert rest == rest[..8] + rest[8..];
    }
  }

  /** What is read from enough bytes is what they spell, and fits the fields. */
  lemma ReadTxIs(rest: seq<Byte>, inputsLen: nat, outputsLen: nat)
    requires |rest| >= 8 && ReadTx(rest, inputsLen, outputsLen).Some?
    ensures var tx := ReadTx(rest, inputsLen, outputsLen).value;
            Body(tx) <= rest && forall j :: 0 <= j < |tx.inputs| ==> InputFits(tx.inputs[j])
  {
    hide ReadInputs, ReadOutputs, InputsBytes, OutputsBytes, InputFits;
    ReadInputsAre(rest[8..], inputsLen);
    var (inputs, more) := ReadInputs(rest[8..], inputsLen).value;
    ReadOutputsAre(more, outputsLen);
    assert rest == rest[..8] + (InputsBytes(inputs) + more);
  }

  /** The bodies, wherever they are read from, are not longer than what follows. */
  lemma RoomAtStart(block: seq<Tx>)
    ensures |DropTo(Encode(block), TablePos(|block|))| >= |Bodies(block, 0)|
  {
    hide Table, Bodies, BigEndian;
    TableLength(block, 0);
    Repeats(|block|);
    assert |block| % REPEAT <= |block|;
  }

  lemma {:induction false} BodiesMustStand(block: seq<Tx>, k: nat, offset: nat)
    requires k <= |block| && CountsFit(block) && CountsRepeat(block)
    requires ReadFrom(Encode(block), |block|, k, offset) == Ok(AllStored(block, k))
    requires |DropTo(Encode(block), TablePos(|block|) + offset)| >= |Bodies(block, k)|
    ensures At(block, k, offset)
    ensures forall j :: k <= j < |block| ==> InputsOk(block, j)
    decreases |block| - k
  {
    hide Body, ReadTx, Encode, TablePos, DropTo, GetTransactionFormat, Bodies, CountsFit, CountsRepeat, Stored, InputFits, InputsOk;
    if k == |block| {
      NoBodies(block);
    } else {
      var tx := Stored(block[k], k);
      var rest := DropTo(Encode(block), TablePos(|block|) + offset);
      OwnFormat(block, k);
      BodiesSplit(block, k);
      ReadTxBack(tx, []);
      FirstRead(block, k, offset);
      ReadTxIs(rest, |tx.inputs|, |tx.outputs|);
      OneInputsOk(block, k);
      DropMore(Encode(block), TablePos(|block|) + offset, |Body(tx)|);
      BodiesMustStand(block, k + 1, offset + |Body(tx)|);
      assert rest == Body(tx) + rest[|Body(tx)|..];
    }
  }

  lemma NoBodies(block: seq<Tx>)
    ensures Bodies(block, |block|) == []
  {
  }

  lemma FirstRead(block: seq<Tx>, k: nat, offset: nat)
    requires k < |block| && ReadFrom(Encode(block), |block|, k, offset) == Ok(AllStored(block, k))
    requires var tx := Stored(block[k], k); GetTransactionFormat(Encode(block), k) == Some(Format(|tx.inputs|, |tx.outputs|, |Body(tx)|))
    ensures var tx := Stored(block[k], k);
            && ReadTx(DropTo(Encode(block), TablePos(|block|) + offset), |tx.inputs|, |tx.outputs|) == Some(tx)
            && ReadFrom(Encode(block), |block|, k + 1, offset + |Body(tx)|) == Ok(AllStored(block, k + 1))
  {
    hide Body, ReadTx, Encode, TablePos, DropTo, GetTransactionFormat, Stored;
    var s, more := Stored(block[k], k), AllStored(block, k + 1);
    assert AllStored(block, k) == [s] + more;
    assert ([s] + more)[0] == s && ([s] + more)[1..] == more;
    var read := ReadTx(DropTo(Encode(block), TablePos(|block|) + offset), |s.inputs|, |s.outputs|);
    var later := ReadFrom(Encode(block), |block|, k + 1, offset + |Body(s)|);
    assert read.Some? && After(read.value, later) == Ok([s] + more);
    assert ([read.value] + later.value)[0] == read.value && ([read.value] + later.value)[1..] == later.value;
  }

  predicate InputsOk(block: seq<Tx>, k: nat)
    requires k < |block|
  {
    forall j :: 0 <= j < |Stored(block[k], k).inputs| ==> InputFits(Stored(block[k], k).inputs[j])
  }

  lemma OneInputsOk(block: seq<Tx>, k: nat)
    requires k < |block| && forall j :: 0 <= j < |Stored(block[k], k).inputs| ==> InputFits(Stored(block[k], k).inputs[j])
    ensures InputsOk(block, k)
  {
  }

  lemma ReadAllBack(block: seq<Tx>)
    requires Sound(block)
    ensures ReadAll(Encode(block)) == Ok(AllKept(AllStored(block, 0)))
  {
    hide ReadFrom, Encode, AllKept, AllStored, CountsFit, CountsRepeat, At, TxLen, BodiesRepeat;
    BodiesRepeatIff(block);
    TxLenBack(block);
    ReadFromBack(block, 0, 0);
    assert |block| % U16 == |block|;
  }

  lemma KeptIff(tx: Tx)
    ensures Kept(tx) == tx <==> forall j :: 0 <= j < |tx.inputs| ==> InputFits(tx.inputs[j])
  {
    forall j | 0 <= j < |tx.inputs| ensures NarrowedAll(tx.inputs)[j] == tx.inputs[j] <==> InputFits(tx.inputs[j]) {
      var i := tx.inputs[j];
      assert i.blockHeight % U32 == i.blockHeight <==> i.blockHeight < U32;
      assert i.vout % U16 == i.vout <==> i.vout < U16;
    }
    assert NarrowedAll(tx.inputs) == tx.inputs <==> forall j :: 0 <= j < |tx.inputs| ==> NarrowedAll(tx.inputs)[j] == tx.inputs[j];
  }

  lemma AllKeptIff(block: seq<Tx>)
    ensures AllKept(AllStored(block, 0)) == AllStored(block, 0) <==> InputsFit(block)
  {
    hide Kept, InputFits;
    var txs := AllStored(block, 0);
    forall k | 0 <= k < |block|
      ensures AllKept(txs)[k] == txs[k] <==> forall j :: 0 <= j < |Stored(block[k], k).inputs| ==> InputFits(Stored(block[k], k).inputs[j])
    {
      KeptIff(txs[k]);
    }
    assert AllKept(txs) == txs <==> forall k :: 0 <= k < |block| ==> AllKept(txs)[k] == txs[k];
  }

  /**
    Iterating over the bytes of any block gives its transactions back, the
    coinbase without inputs, exactly when there are fewer than 65536 of them,
    every count and output index fits sixteen bits and every height
    thirty-two, repeated table entries have the right lengths, and the bodies
    repeat the part of the table that is read in their place.
   */
  lemma RoundTripIff(block: seq<Tx>)
    ensures ReadAll(Encode(block)) == Ok(AllStored(block, 0)) <==> Sound(block) && InputsFit(block)
  {
    hide ReadAll, Encode, AllKept, CountsFit, CountsRepeat, InputsFit, InputsOk, ReadFrom, At, AllStored, BodiesRepeat;
    BodiesRepeatIff(block);
    if ReadAll(Encode(block)) == Ok(AllStored(block, 0)) {
      SizeMustFit(block);
      CountsMustFit(block);
      RoomAtStart(block);
      BodiesMustStand(block, 0, 0);
      AllInputsOk(block);
    }
    if Sound(block) {
      ReadAllBack(block);
      AllKeptIff(block);
    }
  }

  lemma AllInputsOk(block: seq<Tx>)
    requires forall j :: 0 <= j < |block| ==> InputsOk(block, j)
    ensures InputsFit(block)
  {
    hide InputFits, Stored;
    forall k | 0 <= k < |block| ensures forall j :: 0 <= j < |Stored(block[k], k).inputs| ==> InputFits(Stored(block[k], k).inputs[j]) {
      assert InputsOk(block, k);
    }
  }

  /** For blocks of up to 16383 transactions only the widths of the fields matter. */
  lemma SmallRoundTripIff(block: seq<Tx>)
    requires |block| < REPEAT
    ensures ReadAll(Encode(block)) == Ok(AllStored(block, 0)) <==> CountsFit(block) && InputsFit(block)
  {
    hide ReadAll, Encode, InputsFit, CountsFit, CountsRepeat, AllStored;
    RoundTripIff(block);
    if CountsFit(block) { SmallIsSound(block); }
  }

  // ------------------------------------------------------------- look-up

  /** The first transaction of a list with the given identifier. */
  function FirstWith(txs: seq<Tx>, searched: seq<Byte>): Option<Tx> {
    if txs == [] then None
    else if txs[0].txid == searched then Some(txs[0])
    else FirstWith(txs[1..], searched)
  }

  lemma {:induction false} FirstWithMeans(txs: seq<Tx>, searched: seq<Byte>)
    ensures FirstWith(txs, searched).None? <==> forall k :: 0 <= k < |txs| ==> txs[k].txid != searched
    ensures forall k :: 0 <= k < |txs| && txs[k].txid == searched && (forall j :: 0 <= j < k ==> txs[j].txid != searched) ==>
              FirstWith(txs, searched) == Some(txs[k])
  {
    if txs != [] && txs[0].txid != searched {
      FirstWithMeans(txs[1..], searched);
      assert forall k :: 0 < k < |txs| ==> txs[k] == txs[1..][k - 1];
      forall k | 0 <= k < |txs| && txs[k].txid == searched && (forall j :: 0 <= j < k ==> txs[j].txid != searched)
        ensures FirstWith(txs, searched) == Some(txs[k])
      {
        assert txs[1..][k - 1].txid == searched;
        assert forall j :: 0 <= j < k - 1 ==> txs[1..][j] == txs[j + 1];
      }
    }
  }

  lemma FindStep(block: seq<Tx>, k: nat, offset: nat, searched: seq<Byte>)
    requires k < |block| && CountsFit(block) && CountsRepeat(block) && At(block, k, offset)
    ensures var tx := Stored(block[k], k);
            FindFrom(Encode(block), |block|, k, offset, searched) ==
              if searched == tx.txid then Ok(Some(Kept(tx)))
              else if k + 1 >= |block| then Ok(None)
              else FindFrom(Encode(block), |block|, k + 1, offset + |Body(tx)|, searched)
  {
    hide Body, ReadTx, Encode, TablePos, DropTo, GetTransactionFormat, Bodies, TxidAt, Kept, CountsFit, CountsRepeat, At, Stored;
    var rest, tx := DropTo(Encode(block), TablePos(|block|) + offset), Stored(block[k], k);
    OwnFormat(block, k);
    AtNext(block, k, offset);
    ReadTxBack(tx, rest[|Body(tx)|..]);
  }

  lemma {:induction false} FindFromBack(block: seq<Tx>, k: nat, offset: nat, searched: seq<Byte>)
    requires k < |block| && CountsFit(block) && CountsRepeat(block) && At(block, k, offset)
    ensures FindFrom(Encode(block), |block|, k, offset, searched) == Ok(FirstWith(AllKept(AllStored(block, k)), searched))
    decreases |block| - k
  {
    hide Body, Encode, FindFrom, At, CountsFit, CountsRepeat, Stored;
    var tx := Stored(block[k], k);
    FindStep(block, k, offset, searched);
    AtNext(block, k, offset);
    assert AllKept(AllStored(block, k)) == [Kept(tx)] + AllKept(AllStored(block, k + 1));
    if k + 1 < |block| {
      FindFromBack(block, k + 1, offset + |Body(tx)|, searched);
    }
  }

  /** In a sound block, looking up an identifier gives the first transaction of the iteration that has it, or none. */
  lemma FindsFirst(block: seq<Tx>, searched: seq<Byte>)
    requires block != [] && Sound(block)
    ensures ReadAll(Encode(block)).Ok?
    ensures Find(Encode(block), searched) == Ok(FirstWith(ReadAll(Encode(block)).value, searched))
  {
    hide ReadAll, Encode, AllKept, CountsFit, CountsRepeat, At, FindFrom, TxLen, BodiesRepeat;
    BodiesRepeatIff(block);
    TxLenBack(block);
    ReadAllBack(block);
    FindFromBack(block, 0, 0, searched);
    assert |block| % U16 == |block|;
  }

  // ------------------------------------------------------ where it breaks

  /** With 16384 transactions the bodies are read from the start of the table, so they have to repeat it. */
  lemma FirstWrapIff(block: seq<Tx>)
    requires |block| == REPEAT
    ensures ReadAll(Encode(block)) == Ok(AllStored(block, 0)) <==>
              CountsFit(block) && InputsFit(block) && Bodies(block, 0) <= Table(block, 0) + Bodies(block, 0)
  {
    hide ReadAll, InputsFit, CountsFit, CountsRepeat, AllStored, Table, Bodies, Encode;
    RoundTripIff(block);
    NoneRepeated(block);
  }

  lemma NoneRepeated(block: seq<Tx>)
    requires |block| <= REPEAT
    ensures CountsRepeat(block)
  {
    hide Stored, Entry;
    forall k | 0 <= k < |block|
      ensures |Stored(block[k], k).inputs| == |Entry(block, k).inputs| && |block[k].outputs| == |Entry(block, k).outputs|
    {
      StoredOutputs(block, k);
      OwnEntry(block, k);
    }
  }

  lemma OwnEntry(block: seq<Tx>, k: nat)
    requires k < |block| <= REPEAT
    ensures Entry(block, k) == Stored(block[k], k)
  {
  }

  /** So such a block is not read back when its first identifier does not begin with zero, as the table does. */
  lemma WrapsAround(block: seq<Tx>)
    requires |block| == REPEAT && block[0].txid[0] != 0
    ensures ReadAll(Encode(block)) != Ok(AllStored(block, 0))
  {
    hide ReadAll, InputsFit, CountsFit, AllStored, Table, Encode, Body;
    FirstWrapIff(block);
    CoinbaseFirst(block);
    assert Bodies(block, 0)[0] != (Table(block, 0) + Bodies(block, 0))[0];
  }

  lemma CoinbaseFirst(block: seq<Tx>)
    requires block != []
    ensures |Table(block, 0)| > 0 && Table(block, 0)[0] == 0
    ensures |Bodies(block, 0)| > 0 && Bodies(block, 0)[0] == block[0].txid[0]
  {
  }
}
