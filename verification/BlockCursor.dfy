/**
  The compact form of a block: a table of input and output counts, followed by
  each transaction's short identifier, inputs and output values.
 */
module BlockCursors {
  import opened Wrappers
  import opened Bytes

  type ShortId = s: seq<Byte> | |s| == 8 witness [0, 0, 0, 0, 0, 0, 0, 0]
  type Sats = n: nat | n < 0x1_0000_0000_0000_0000

  datatype TxIn = TxIn(txin: ShortId, blockHeight: nat, vout: nat, value: Sats)

  /** A transaction, as a block has it and as the compact form gives it back. */
  datatype Tx = Tx(txid: ShortId, inputs: seq<TxIn>, outputs: seq<Sats>)

  /** Reading past the end of the bytes stops the program. */
  datatype Error = Corrupted

  const TXID_LEN: nat := 8
  const INPUT_SIZE: nat := 22
  const OUTPUT_SIZE: nat := 8

  // ------------------------------------------------------------- encoding

  function InputBytes(i: TxIn): seq<Byte> {
    i.txin + BigEndian(i.blockHeight % U32, 4) + BigEndian(i.vout % U16, 2) + BigEndian(i.value, 8)
  }

  function InputsBytes(inputs: seq<TxIn>): seq<Byte> {
    if inputs == [] then [] else InputBytes(inputs[0]) + InputsBytes(inputs[1..])
  }

  function OutputsBytes(outputs: seq<Sats>): seq<Byte> {
    if outputs == [] then [] else BigEndian(outputs[0], 8) + OutputsBytes(outputs[1..])
  }

  /** The first transaction of a block is the coinbase, whose inputs are left out. */
  function Stored(tx: Tx, index: nat): Tx {
    if index > 0 then tx else tx.(inputs := [])
  }

  function Counts(tx: Tx): seq<Byte> {
    BigEndian(|tx.inputs| % U16, 2) + BigEndian(|tx.outputs| % U16, 2)
  }

  function Body(tx: Tx): seq<Byte> {
    tx.txid + InputsBytes(tx.inputs) + OutputsBytes(tx.outputs)
  }

  function Table(block: seq<Tx>, from: nat): seq<Byte>
    requires from <= |block|
    decreases |block| - from
  {
    if from == |block| then [] else Counts(Stored(block[from], from)) + Table(block, from + 1)
  }

  function Bodies(block: seq<Tx>, from: nat): seq<Byte>
    requires from <= |block|
    decreases |block| - from
  {
    if from == |block| then [] else Body(Stored(block[from], from)) + Bodies(block, from + 1)
  }

  function Encode(block: seq<Tx>): seq<Byte> {
    BigEndian(|block| % U16, 2) + Table(block, 0) + Bodies(block, 0)
  }

  lemma {:induction false} TableSplits(block: seq<Tx>, from: nat, k: nat)
    requires from <= k < |block|
    ensures Table(block, from) == Table(block[..k], from) + Counts(Stored(block[k], k)) + Table(block, k + 1)
    decreases k - from
  {
    if from < k {
      TableSplits(block, from + 1, k);
    }
  }

  lemma TableGrows(block: seq<Tx>, k: nat)
    requires k < |block|
    ensures Table(block[..k + 1], 0) == Table(block[..k], 0) + Counts(Stored(block[k], k))
  {
    TableSplits(block[..k + 1], 0, k);
    assert block[..k + 1][..k] == block[..k];
  }

  lemma {:induction false} BodiesGrow(block: seq<Tx>, from: nat, k: nat)
    requires from <= k < |block|
    ensures Bodies(block[..k + 1], from) == Bodies(block[..k], from) + Body(Stored(block[k], k))
    decreases k - from
  {
    if from < k {
      BodiesGrow(block, from + 1, k);
    }
  }

  lemma {:induction false} InputsBytesAppend(a: seq<TxIn>, i: TxIn)
    ensures InputsBytes(a + [i]) == InputsBytes(a) + InputBytes(i)
  {
    hide InputBytes;
    if a == [] {
      assert a + [i] == [i];
    } else {
      InputsBytesAppend(a[1..], i);
      assert (a + [i])[1..] == a[1..] + [i];
    }
  }

  lemma {:induction false} OutputsBytesAppend(a: seq<Sats>, v: Sats)
    ensures OutputsBytes(a + [v]) == OutputsBytes(a) + BigEndian(v, 8)
  {
    if a == [] {
      assert a + [v] == [v];
    } else {
      OutputsBytesAppend(a[1..], v);
      assert (a + [v])[1..] == a[1..] + [v];
    }
  }

  method WriteInputs(inputs: seq<TxIn>, buffer: seq<Byte>) returns (r: seq<Byte>)
    ensures r == buffer + InputsBytes(inputs)
  {
    hide InputBytes;
    r := buffer;
    for k := 0 to |inputs|
      invariant r == buffer + InputsBytes(inputs[..k])
    {
      r := r + InputBytes(inputs[k]);
      InputsBytesAppend(inputs[..k], inputs[k]);
      assert inputs[..k + 1] == inputs[..k] + [inputs[k]];
    }
    assert inputs[..|inputs|] == inputs;
  }

  method WriteOutputs(outputs: seq<Sats>, buffer: seq<Byte>) returns (r: seq<Byte>)
    ensures r == buffer + OutputsBytes(outputs)
  {
    hide BigEndian;
    r := buffer;
    for k := 0 to |outputs|
      invariant r == buffer + OutputsBytes(outputs[..k])
    {
      r := r + BigEndian(outputs[k], 8);
      OutputsBytesAppend(outputs[..k], outputs[k]);
      assert outputs[..k + 1] == outputs[..k] + [outputs[k]];
    }
    assert outputs[..|outputs|] == outputs;
  }

  /** Writes the identifier, inputs and outputs of one transaction. */
  method WriteBody(tx: Tx, i: nat, buffer: seq<Byte>) returns (r: seq<Byte>)
    ensures r == buffer + Body(Stored(tx, i))
  {
    hide InputBytes, OutputsBytes;
    r := buffer + tx.txid;
    if i > 0 {
      r := WriteInputs(tx.inputs, r);
    }
    r := WriteOutputs(tx.outputs, r);
  }

  method FromStandardizedBlock(block: seq<Tx>) returns (buffer: seq<Byte>)
    ensures buffer == Encode(block)
  {
    hide Counts, Body;
    var head := BigEndian(|block| % U16, 2);
    buffer := head;
    for i := 0 to |block|
      invariant buffer == head + Table(block[..i], 0)
    {
      var inputsLen := if i > 0 then |block[i].inputs| % U16 else 0;
      var outputsLen := |block[i].outputs| % U16;
      buffer := buffer + (BigEndian(inputsLen, 2) + BigEndian(outputsLen, 2));
      assert BigEndian(inputsLen, 2) + BigEndian(outputsLen, 2) == Counts(Stored(block[i], i)) by { CountsWritten(block[i], i); }
      TableGrows(block, i);
    }
    assert block[..|block|] == block;
    ghost var table := Table(block, 0);
    for i := 0 to |block|
      invariant buffer == head + table + Bodies(block[..i], 0)
    {
      buffer := WriteBody(block[i], i, buffer);
      BodiesGrow(block, 0, i);
    }
  }

  lemma CountsWritten(tx: Tx, i: nat)
    ensures BigEndian(if i > 0 then |tx.inputs| % U16 else 0, 2) + BigEndian(|tx.outputs| % U16, 2) == Counts(Stored(tx, i))
  {
  }

  // -------------------------------------------------------------- reading

  function ReadInput(rest: seq<Byte>): Option<(TxIn, seq<Byte>)> {
    if |rest| < INPUT_SIZE then None
    else
      var value := FromBigEndian(rest[14..22]);
      FromBigEndianBound(rest[14..22]);
      Some((TxIn(rest[..8], FromBigEndian(rest[8..12]), FromBigEndian(rest[12..14]), value), rest[22..]))
  }

  function ReadInputs(rest: seq<Byte>, n: nat): (r: Option<(seq<TxIn>, seq<Byte>)>)
    ensures r.Some? ==> |r.value.0| == n
  {
    if n == 0 then Some(([], rest))
    else
      match ReadInput(rest)
      case None => None
      case Some((input, more)) =>
        match ReadInputs(more, n - 1)
        case None => None
        case Some((inputs, end)) => Some(([input] + inputs, end))
  }

  function ReadOutputs(rest: seq<Byte>, n: nat): (r: Option<seq<Sats>>)
    ensures r.Some? ==> |r.value| == n
  {
    if n == 0 then Some([])
    else if |rest| < 8 then None
    else
      FromBigEndianBound(rest[..8]);
      match ReadOutputs(rest[8..], n - 1)
      case None => None
      case Some(outputs) => Some([FromBigEndian(rest[..8])] + outputs)
  }

  lemma FromBigEndianBound(bytes: seq<Byte>)
    requires |bytes| == 8
    ensures FromBigEndian(bytes) < U64
  {
    FromBigEndianBelow(bytes);
    Ranges();
  }

  lemma {:induction false} FromBigEndianBelow(bytes: seq<Byte>)
    ensures FromBigEndian(bytes) < Range(|bytes|)
  {
    if bytes != [] { FromBigEndianBelow(bytes[..|bytes| - 1]); }
  }

  /** A missing identifier reads as zeros; missing inputs and outputs stop the program. */
  function ReadTx(rest: seq<Byte>, inputsLen: nat, outputsLen: nat): (r: Option<Tx>)
    ensures r.Some? ==> |r.value.inputs| == inputsLen && |r.value.outputs| == outputsLen
  {
    ReadCounted(if |rest| >= 8 then rest[8..] else [], TxidAt(rest), inputsLen, outputsLen)
  }

  /** The transaction with the given identifier, whose inputs and outputs come next. */
  function ReadCounted(rest: seq<Byte>, txid: ShortId, inputsLen: nat, outputsLen: nat): (r: Option<Tx>)
    ensures r.Some? ==> |r.value.inputs| == inputsLen && |r.value.outputs| == outputsLen
  {
    match ReadInputs(rest, inputsLen)
    case None => None
    case Some((inputs, more)) =>
      match ReadOutputs(more, outputsLen)
      case None => None
      case Some(outputs) => Some(Tx(txid, inputs, outputs))
  }

  function TxidAt(rest: seq<Byte>): ShortId {
    if |rest| >= 8 then rest[..8] else [0, 0, 0, 0, 0, 0, 0, 0]
  }

  /** Positions in the table are computed in sixteen bits and wrap around. */
  function TablePos(index: nat): nat {
    (2 + index * 2 * 2) % U16
  }

  datatype Format = Format(inputs: nat, outputs: nat, size: nat)

  function GetTransactionFormat(bytes: seq<Byte>, index: nat): Option<Format> {
    var pos := TablePos(index);
    if pos + 4 > |bytes| then None
    else
      var inputs, outputs := FromBigEndian(bytes[pos..pos + 2]), FromBigEndian(bytes[pos + 2..pos + 4]);
      Some(Format(inputs, outputs, TXID_LEN + inputs * INPUT_SIZE + outputs * OUTPUT_SIZE))
  }

  function DropTo(bytes: seq<Byte>, pos: nat): seq<Byte> {
    if pos <= |bytes| then bytes[pos..] else []
  }

  function After(tx: Tx, rest: Result<seq<Tx>, Error>): Result<seq<Tx>, Error> {
    match rest
    case Ok(txs) => Ok([tx] + txs)
    case Err(e) => Err(e)
  }

  /** What is left to iterate over at a transaction index and an offset into the bodies. */
  function ReadFrom(bytes: seq<Byte>, txLen: nat, index: nat, offset: nat): Result<seq<Tx>, Error>
    decreases txLen - index
  {
    if index >= txLen then Ok([])
    else
      match GetTransactionFormat(bytes, index)
      case None => Err(Corrupted)
      case Some(format) =>
        match ReadTx(DropTo(bytes, TablePos(txLen) + offset), format.inputs, format.outputs)
        case None => Err(Corrupted)
        case Some(tx) => After(tx, ReadFrom(bytes, txLen, index + 1, offset + format.size))
  }

  function TxLen(bytes: seq<Byte>): Option<nat> {
    if |bytes| < 2 then None else Some(FromBigEndian(bytes[..2]))
  }

  /** Everything the iterator gives for the bytes of a block. */
  function ReadAll(bytes: seq<Byte>): Result<seq<Tx>, Error> {
    match TxLen(bytes)
    case None => Err(Corrupted)
    case Some(txLen) => ReadFrom(bytes, txLen, 0, 0)
  }

  /** The search compares identifiers only, and parses the transaction it stops at. */
  function FindFrom(bytes: seq<Byte>, txLen: nat, index: nat, offset: nat, searched: seq<Byte>): Result<Option<Tx>, Error>
    decreases txLen - index
  {
    match GetTransactionFormat(bytes, index)
    case None => Err(Corrupted)
    case Some(format) =>
      var rest := DropTo(bytes, TablePos(txLen) + offset);
      if searched == TxidAt(rest) then
        match ReadTx(rest, format.inputs, format.outputs)
        case None => Err(Corrupted)
        case Some(tx) => Ok(Some(tx))
      else if index + 1 >= txLen then Ok(None)
      else FindFrom(bytes, txLen, index + 1, offset + format.size, searched)
  }

  function Find(bytes: seq<Byte>, searched: seq<Byte>): Result<Option<Tx>, Error> {
    match TxLen(bytes)
    case None => Err(Corrupted)
    case Some(txLen) => FindFrom(bytes, txLen, 0, 0, searched)
  }

  /** Reads the inputs and outputs of a transaction, moving a cursor over the bytes. */
  method GetTransactionAtPos(bytes: seq<Byte>, pos: nat, txid: ShortId, inputsLen: nat, outputsLen: nat)
    returns (r: Option<Tx>)
    requires pos <= |bytes|
    ensures r == ReadCounted(bytes[pos..], txid, inputsLen, outputsLen)
  {
    hide ReadInput;
    var rest := bytes[pos..];
    ghost var start := rest;
    var inputs: seq<TxIn> := [];
    NothingBefore(ReadInputs(rest, inputsLen));
    for k := 0 to inputsLen
      invariant |inputs| == k
      invariant ReadInputs(start, inputsLen) == InputsAfter(inputs, ReadInputs(rest, inputsLen - k))
    {
      var one := ReadInput(rest);
      if one.None? { return None; }
      MoreInputs(inputs, one.value.0, ReadInputs(one.value.1, inputsLen - k - 1));
      inputs := inputs + [one.value.0];
      rest := one.value.1;
    }
    ghost var body := rest;
    assert inputs + [] == inputs;
    var outputs: seq<Sats> := [];
    NoOutputsBefore(ReadOutputs(rest, outputsLen));
    for k := 0 to outputsLen
      invariant |outputs| == k
      invariant ReadOutputs(body, outputsLen) == OutputsAfter(outputs, ReadOutputs(rest, outputsLen - k))
    {
      if |rest| < 8 { return None; }
      FromBigEndianBound(rest[..8]);
      var v: Sats := FromBigEndian(rest[..8]);
      MoreOutputs(outputs, v, ReadOutputs(rest[8..], outputsLen - k - 1));
      outputs := outputs + [v];
      rest := rest[8..];
    }
    assert outputs + [] == outputs;
    return Some(Tx(txid, inputs, outputs));
  }

  lemma NothingBefore(r: Option<(seq<TxIn>, seq<Byte>)>)
    ensures InputsAfter([], r) == r
  {
    if r.Some? { assert [] + r.value.0 == r.value.0; }
  }

  lemma NoOutputsBefore(r: Option<seq<Sats>>)
    ensures OutputsAfter([], r) == r
  {
    if r.Some? { assert [] + r.value == r.value; }
  }

  function InputsAfter(front: seq<TxIn>, r: Option<(seq<TxIn>, seq<Byte>)>): Option<(seq<TxIn>, seq<Byte>)> {
    match r case None => None case Some((inputs, rest)) => Some((front + inputs, rest))
  }

  lemma MoreInputs(front: seq<TxIn>, i: TxIn, r: Option<(seq<TxIn>, seq<Byte>)>)
    ensures InputsAfter(front, InputsAfter([i], r)) == InputsAfter(front + [i], r)
  {
    if r.Some? { assert front + ([i] + r.value.0) == front + [i] + r.value.0; }
  }

  function OutputsAfter(front: seq<Sats>, r: Option<seq<Sats>>): Option<seq<Sats>> {
    match r case None => None case Some(outputs) => Some(front + outputs)
  }

  lemma MoreOutputs(front: seq<Sats>, v: Sats, r: Option<seq<Sats>>)
    ensures OutputsAfter(front, OutputsAfter([v], r)) == OutputsAfter(front + [v], r)
  {
    if r.Some? { assert front + ([v] + r.value) == front + [v] + r.value; }
  }

  method ReadFound(rest: seq<Byte>, txid: ShortId, format: Format) returns (r: Option<Tx>)
    requires txid == TxidAt(rest)
    ensures r == ReadTx(rest, format.inputs, format.outputs)
  {
    r := GetTransactionAtPos(rest, if |rest| >= 8 then 8 else |rest|, txid, format.inputs, format.outputs);
  }

  /** The transaction at an index and offset, or none past the last one. */
  function ReadAt(bytes: seq<Byte>, txLen: nat, index: nat, offset: nat): Result<Option<Tx>, Error> {
    if index >= txLen then Ok(None)
    else
      match GetTransactionFormat(bytes, index)
      case None => Err(Corrupted)
      case Some(format) =>
        match ReadTx(DropTo(bytes, TablePos(txLen) + offset), format.inputs, format.outputs)
        case None => Err(Corrupted)
        case Some(tx) => Ok(Some(tx))
  }

  /** Walks over the transactions in the bytes of a block. */
  class TransactionIterator {
    const bytes: seq<Byte>
    const txLen: nat
    var txIndex: nat
    var cumulatedOffset: nat

    constructor (bytes: seq<Byte>)
      requires TxLen(bytes).Some?
      ensures Remaining() == ReadAll(bytes)
    {
      this.bytes := bytes;
      txLen := TxLen(bytes).value;
      txIndex := 0;
      cumulatedOffset := 0;
    }

    function Remaining(): Result<seq<Tx>, Error>
      reads this
    {
      ReadFrom(bytes, txLen, txIndex, cumulatedOffset)
    }

    /** Gives the first of the remaining transactions and keeps the others, until none is left. */
    method Next() returns (r: Result<Option<Tx>, Error>)
      modifies this
      ensures r == ReadAt(bytes, txLen, old(txIndex), old(cumulatedOffset))
      ensures r == Ok(None) ==> old(Remaining()) == Ok([]) && Remaining() == Ok([])
      ensures r.Ok? && r.value.Some? ==> old(Remaining()) == After(r.value.value, Remaining())
      ensures r.Err? ==> old(Remaining()).Err?
    {
      hide ReadTx, GetTransactionFormat, TxidAt, DropTo, TablePos;
      if txIndex >= txLen { return Ok(None); }
      var pos := TablePos(txLen) + cumulatedOffset;
      var format := GetTransactionFormat(bytes, txIndex);
      if format.None? { return Err(Corrupted); }
      var rest := DropTo(bytes, pos);
      var txid := TxidAt(rest);
      var read := ReadFound(rest, txid, format.value);
      if read.None? { return Err(Corrupted); }
      cumulatedOffset := cumulatedOffset + format.value.size;
      txIndex := txIndex + 1;
      return Ok(read);
    }
  }

  method FindAndSerializeTransaction(bytes: seq<Byte>, searched: seq<Byte>) returns (r: Result<Option<Tx>, Error>)
    ensures r == Find(bytes, searched)
  {
    hide ReadTx, GetTransactionFormat, TxidAt, DropTo;
    if |bytes| < 2 { return Err(Corrupted); }
    var txLen := FromBigEndian(bytes[..2]);
    var i: nat, cumulatedOffset: nat := 0, 0;
    while true
      invariant Find(bytes, searched) == FindFrom(bytes, txLen, i, cumulatedOffset, searched)
      decreases txLen - i
    {
      var format := GetTransactionFormat(bytes, i);
      if format.None? { return Err(Corrupted); }
      var rest := DropTo(bytes, TablePos(txLen) + cumulatedOffset);
      var txid := TxidAt(rest);
      if searched == txid {
        var read := ReadFound(rest, txid, format.value);
        return if read.None? then Err(Corrupted) else Ok(read);
      }
      cumulatedOffset := cumulatedOffset + format.value.size;
      i := i + 1;
      if i >= txLen { return Ok(None); }
    }
  }
}
