/**
  Walking over raw transactions in a block file: a reader that parses each
  field, and a skipper that only seeks past them.
 */
module BlkReader {
  import opened Wrappers
  import opened Bytes

  const I64: nat := 0x8000_0000_0000_0000

  /** A slice is never longer than a signed machine word can count. */
  type Data = s: seq<Byte> | |s| < 0x8000_0000_0000_0000

  datatype RawTxIn = RawTxIn(txid: seq<Byte>, vout: nat, scriptSig: seq<Byte>, sequence: nat)
  {
    predicate IsCoinbase() {
      vout == 0xffff_ffff && forall k :: 0 <= k < |txid| ==> txid[k] == 0
    }
  }

  datatype RawTxOut = RawTxOut(value: nat, scriptPubkey: seq<Byte>)

  /** A parsed transaction, with the bytes its identifier is computed from. */
  datatype RawTx = RawTx(inputs: seq<RawTxIn>, outputs: seq<RawTxOut>, bytes: seq<Byte>)

  // ------------------------------------------------------- cursor movements

  function Available(data: Data, pos: nat): nat {
    if pos <= |data| then |data| - pos else 0
  }

  /** The next `n` bytes and the position after them; reading nothing always succeeds. */
  function ReadExact(data: Data, pos: nat, n: nat): Option<(seq<Byte>, nat)> {
    if n > Available(data, pos) then None
    else Some((if n == 0 then [] else data[pos..pos + n], pos + n))
  }

  /** Seeking may pass the end of the data, but not its start or the range of positions. */
  function Seek(pos: nat, offset: int): Option<nat> {
    if 0 <= pos + offset < U64 then Some(pos + offset) else None
  }

  function ReadNumber(data: Data, pos: nat, width: nat): Option<(nat, nat)> {
    match ReadExact(data, pos, width)
    case None => None
    case Some((bytes, end)) => Some((FromLittleEndian(bytes), end))
  }

  /** A count in one, three, five or nine bytes. */
  function CompactSize(data: Data, pos: nat): Option<(nat, nat)> {
    match ReadNumber(data, pos, 1)
    case None => None
    case Some((first, end)) =>
      if first <= 0xfc then Some((first, end))
      else if first == 0xfd then ReadNumber(data, end, 2)
      else if first == 0xfe then ReadNumber(data, end, 4)
      else ReadNumber(data, end, 8)
  }

  /** A 64-bit length reinterpreted as signed. */
  function AsSigned(n: nat): int {
    if n < I64 then n else n - U64
  }

  // ---------------------------------------------------------------- reading

  function ReadInput(data: Data, pos: nat): Option<(RawTxIn, nat)> {
    match ReadExact(data, pos, 32)
    case None => None
    case Some((txid, p)) =>
      match ReadNumber(data, p, 4)
      case None => None
      case Some((vout, p)) =>
        match CompactSize(data, p)
        case None => None
        case Some((length, p)) =>
          match ReadExact(data, p, length)
          case None => None
          case Some((script, p)) =>
            match ReadNumber(data, p, 4)
            case None => None
            case Some((sequence, p)) => Some((RawTxIn(txid, vout, script, sequence), p))
  }

  function ReadInputs(data: Data, pos: nat, n: nat): Option<(seq<RawTxIn>, nat)>
    decreases n
  {
    if n == 0 then Some(([], pos))
    else
      match ReadInput(data, pos)
      case None => None
      case Some((input, p)) =>
        match ReadInputs(data, p, n - 1)
        case None => None
        case Some((inputs, end)) => Some(([input] + inputs, end))
  }

  function ReadOutput(data: Data, pos: nat): Option<(RawTxOut, nat)> {
    match ReadNumber(data, pos, 8)
    case None => None
    case Some((value, p)) =>
      match CompactSize(data, p)
      case None => None
      case Some((length, p)) =>
        match ReadExact(data, p, length)
        case None => None
        case Some((script, p)) => Some((RawTxOut(value, script), p))
  }

  function ReadOutputs(data: Data, pos: nat, n: nat): Option<(seq<RawTxOut>, nat)>
    decreases n
  {
    if n == 0 then Some(([], pos))
    else
      match ReadOutput(data, pos)
      case None => None
      case Some((output, p)) =>
        match ReadOutputs(data, p, n - 1)
        case None => None
        case Some((outputs, end)) => Some(([output] + outputs, end))
  }

  function NotCoinbase(inputs: seq<RawTxIn>): seq<RawTxIn> {
    if inputs == [] then []
    else (if inputs[0].IsCoinbase() then [] else [inputs[0]]) + NotCoinbase(inputs[1..])
  }

  function Slice(data: Data, from: nat, end: nat): seq<Byte> {
    if from <= end <= |data| then data[from..end] else []
  }

  /** The part of a transaction after its inputs. */
  function ReadRest(data: Data, pos: nat): Option<(seq<RawTxOut>, nat)> {
    match CompactSize(data, pos)
    case None => None
    case Some((outputCount, p)) =>
      match ReadOutputs(data, p, outputCount)
      case None => None
      case Some((outputs, p)) =>
        match ReadNumber(data, p, 4)
        case None => None
        case Some((_, end)) => Some((outputs, end))
  }

  function ReadRawTx(data: Data, pos: nat): Option<(RawTx, nat)> {
    match ReadNumber(data, pos, 4)
    case None => None
    case Some((_, p)) =>
      match CompactSize(data, p)
      case None => None
      case Some((inputCount, p)) =>
        match ReadInputs(data, p, inputCount)
        case None => None
        case Some((inputs, p)) =>
          match ReadRest(data, p)
          case None => None
          case Some((outputs, end)) => Some((RawTx(NotCoinbase(inputs), outputs, Slice(data, pos, end)), end))
  }

  // --------------------------------------------------------------- skipping

  /** Seeks over `before` bytes, a length and that many bytes, and `after` bytes. */
  function SkipScript(data: Data, pos: nat, before: nat, after: nat): Option<nat> {
    match Seek(pos, before)
    case None => None
    case Some(p) =>
      match CompactSize(data, p)
      case None => None
      case Some((length, p)) =>
        match Seek(p, AsSigned(length))
        case None => None
        case Some(p) => Seek(p, after)
  }

  function SkipScripts(data: Data, pos: nat, n: nat, before: nat, after: nat): Option<nat>
    decreases n
  {
    if n == 0 then Some(pos)
    else
      match SkipScript(data, pos, before, after)
      case None => None
      case Some(p) => SkipScripts(data, p, n - 1, before, after)
  }

  /** The part of a transaction after its inputs. */
  function SkipRest(data: Data, pos: nat): Option<nat> {
    match CompactSize(data, pos)
    case None => None
    case Some((outputCount, p)) =>
      match SkipScripts(data, p, outputCount, 8, 0)
      case None => None
      case Some(p) => Seek(p, 4)
  }

  function SkipTransaction(data: Data, pos: nat): Option<nat> {
    match Seek(pos, 4)
    case None => None
    case Some(p) =>
      match CompactSize(data, p)
      case None => None
      case Some((inputCount, p)) =>
        match SkipScripts(data, p, inputCount, 36, 4)
        case None => None
        case Some(p) => SkipRest(data, p)
  }

  /** Seeks over a count and that many hashes; the product is taken in 64 bits. */
  function SkipBranch(data: Data, pos: nat): Option<nat> {
    match CompactSize(data, pos)
    case None => None
    case Some((count, p)) => Seek(p, AsSigned(count * 32 % U64))
  }

  function SkipAuxPow(data: Data, pos: nat): Option<nat> {
    match SkipTransaction(data, pos)
    case None => None
    case Some(p) =>
      match Seek(p, 32)
      case None => None
      case Some(p) =>
        match SkipBranch(data, p)
        case None => None
        case Some(p) =>
          match Seek(p, 4)
          case None => None
          case Some(p) =>
            match SkipBranch(data, p)
            case None => None
            case Some(p) =>
              match Seek(p, 4)
              case None => None
              case Some(p) => Seek(p, 80)
  }

  // -------------------------------------------------- the cursor as an object

  /** A position that moves over a slice; after a failure it may be anywhere. */
  class ByteCursor {
    const data: Data
    var position: nat

    constructor (data: Data)
      ensures this.data == data && position == 0
    {
      this.data := data;
      position := 0;
    }

    method Exact(n: nat) returns (r: Option<seq<Byte>>)
      modifies this
      ensures r.Some? <==> ReadExact(data, old(position), n).Some?
      ensures r.Some? ==> (r.value, position) == ReadExact(data, old(position), n).value
    {
      var read := ReadExact(data, position, n);
      if read.None? {
        position := if position > |data| then position else |data|;
        return None;
      }
      position := read.value.1;
      return Some(read.value.0);
    }

    method Number(width: nat) returns (r: Option<nat>)
      modifies this
      ensures r.Some? <==> ReadNumber(data, old(position), width).Some?
      ensures r.Some? ==> (r.value, position) == ReadNumber(data, old(position), width).value
    {
      var bytes := Exact(width);
      return if bytes.None? then None else Some(FromLittleEndian(bytes.value));
    }

    method Size() returns (r: Option<nat>)
      modifies this
      ensures r.Some? <==> CompactSize(data, old(position)).Some?
      ensures r.Some? ==> (r.value, position) == CompactSize(data, old(position)).value
    {
      hide ReadNumber;
      var first := Number(1);
      if first.None? || first.value <= 0xfc { return first; }
      if first.value == 0xfd { r := Number(2); }
      else if first.value == 0xfe { r := Number(4); }
      else { r := Number(8); }
    }

    method SeekBy(offset: int) returns (ok: bool)
      modifies this
      ensures ok <==> Seek(old(position), offset).Some?
      ensures ok ==> position == Seek(old(position), offset).value
      ensures !ok ==> position == old(position)
    {
      var sought := Seek(position, offset);
      ok := sought.Some?;
      if ok { position := sought.value; }
    }

    method OneInput() returns (r: Option<RawTxIn>)
      modifies this
      ensures r.Some? <==> ReadInput(data, old(position)).Some?
      ensures r.Some? ==> (r.value, position) == ReadInput(data, old(position)).value
    {
      hide ReadExact, ReadNumber, CompactSize;
      var txid := Exact(32);
      if txid.None? { return None; }
      var vout := Number(4);
      if vout.None? { return None; }
      var length := Size();
      if length.None? { return None; }
      var script := Exact(length.value);
      if script.None? { return None; }
      var sequence := Number(4);
      if sequence.None? { return None; }
      return Some(RawTxIn(txid.value, vout.value, script.value, sequence.value));
    }

    method OneOutput() returns (r: Option<RawTxOut>)
      modifies this
      ensures r.Some? <==> ReadOutput(data, old(position)).Some?
      ensures r.Some? ==> (r.value, position) == ReadOutput(data, old(position)).value
    {
      hide ReadExact, ReadNumber, CompactSize;
      var value := Number(8);
      if value.None? { return None; }
      var length := Size();
      if length.None? { return None; }
      var script := Exact(length.value);
      if script.None? { return None; }
      return Some(RawTxOut(value.value, script.value));
    }

    method Inputs(n: nat) returns (r: Option<seq<RawTxIn>>)
      modifies this
      ensures r.Some? <==> ReadInputs(data, old(position), n).Some?
      ensures r.Some? ==> (r.value, position) == ReadInputs(data, old(position), n).value
    {
      hide ReadInput;
      var inputs: seq<RawTxIn> := [];
      ghost var start := position;
      NoneBefore(ReadInputs(data, start, n));
      for k := 0 to n
        invariant ReadInputs(data, start, n) == Before(inputs, ReadInputs(data, position, n - k))
      {
        var input := OneInput();
        if input.None? { return None; }
        OneBefore(inputs, input.value, ReadInputs(data, position, n - k - 1));
        inputs := inputs + [input.value];
      }
      assert inputs + [] == inputs;
      return Some(inputs);
    }

    method Outputs(n: nat) returns (r: Option<seq<RawTxOut>>)
      modifies this
      ensures r.Some? <==> ReadOutputs(data, old(position), n).Some?
      ensures r.Some? ==> (r.value, position) == ReadOutputs(data, old(position), n).value
    {
      hide ReadOutput;
      var outputs: seq<RawTxOut> := [];
      ghost var start := position;
      NoneBefore(ReadOutputs(data, start, n));
      for k := 0 to n
        invariant ReadOutputs(data, start, n) == Before(outputs, ReadOutputs(data, position, n - k))
      {
        var output := OneOutput();
        if output.None? { return None; }
        OneBefore(outputs, output.value, ReadOutputs(data, position, n - k - 1));
        outputs := outputs + [output.value];
      }
      assert outputs + [] == outputs;
      return Some(outputs);
    }

    method RawTransaction() returns (r: Option<RawTx>)
      modifies this
      ensures r.Some? <==> ReadRawTx(data, old(position)).Some?
      ensures r.Some? ==> (r.value, position) == ReadRawTx(data, old(position)).value
    {
      hide ReadNumber, CompactSize, ReadInputs, ReadOutputs;
      var start := position;
      var version := Number(4);
      if version.None? { return None; }
      var inputCount := Size();
      if inputCount.None? { return None; }
      var inputs := Inputs(inputCount.value);
      if inputs.None? { return None; }
      var outputCount := Size();
      if outputCount.None? { return None; }
      var outputs := Outputs(outputCount.value);
      if outputs.None? { return None; }
      var locktime := Number(4);
      if locktime.None? { return None; }
      return Some(RawTx(NotCoinbase(inputs.value), outputs.value, Slice(data, start, position)));
    }

    method PassScript(before: nat, after: nat) returns (ok: bool)
      modifies this
      ensures ok <==> SkipScript(data, old(position), before, after).Some?
      ensures ok ==> position == SkipScript(data, old(position), before, after).value
    {
      hide Seek, CompactSize;
      ok := SeekBy(before);
      if !ok { return; }
      var length := Size();
      if length.None? { return false; }
      ok := SeekBy(AsSigned(length.value));
      if !ok { return; }
      ok := SeekBy(after);
    }

    method PassScripts(n: nat, before: nat, after: nat) returns (ok: bool)
      modifies this
      ensures ok <==> SkipScripts(data, old(position), n, before, after).Some?
      ensures ok ==> position == SkipScripts(data, old(position), n, before, after).value
    {
      hide SkipScript;
      for k := 0 to n
        invariant SkipScripts(data, old(position), n, before, after) == SkipScripts(data, position, n - k, before, after)
      {
        ok := PassScript(before, after);
        if !ok { return; }
      }
      return true;
    }

    method PassTransaction() returns (ok: bool)
      modifies this
      ensures ok <==> SkipTransaction(data, old(position)).Some?
      ensures ok ==> position == SkipTransaction(data, old(position)).value
    {
      hide Seek, CompactSize, SkipScripts;
      ok := SeekBy(4);
      if !ok { return; }
      var inputCount := Size();
      if inputCount.None? { return false; }
      ok := PassScripts(inputCount.value, 36, 4);
      if !ok { return; }
      var outputCount := Size();
      if outputCount.None? { return false; }
      ok := PassScripts(outputCount.value, 8, 0);
      if !ok { return; }
      ok := SeekBy(4);
    }

    method PassBranch() returns (ok: bool)
      modifies this
      ensures ok <==> SkipBranch(data, old(position)).Some?
      ensures ok ==> position == SkipBranch(data, old(position)).value
    {
      hide Seek, CompactSize;
      var count := Size();
      if count.None? { return false; }
      ok := SeekBy(AsSigned(count.value * 32 % U64));
    }

    method PassAuxPow() returns (ok: bool)
      modifies this
      ensures ok <==> SkipAuxPow(data, old(position)).Some?
      ensures ok ==> position == SkipAuxPow(data, old(position)).value
    {
      hide Seek, SkipBranch, SkipTransaction;
      ok := PassTransaction();
      if !ok { return; }
      ok := SeekBy(32);
      if !ok { return; }
      ok := PassBranch();
      if !ok { return; }
      ok := SeekBy(4);
      if !ok { return; }
      ok := PassBranch();
      if !ok { return; }
      ok := SeekBy(4);
      if !ok { return; }
      ok := SeekBy(80);
    }
  }

  function Before<T>(front: seq<T>, r: Option<(seq<T>, nat)>): Option<(seq<T>, nat)> {
    match r case None => None case Some((items, end)) => Some((front + items, end))
  }

  lemma NoneBefore<T>(r: Option<(seq<T>, nat)>)
    ensures Before([], r) == r
  {
    if r.Some? { assert [] + r.value.0 == r.value.0; }
  }

  lemma OneBefore<T>(front: seq<T>, x: T, r: Option<(seq<T>, nat)>)
    ensures Before(front, Before([x], r)) == Before(front + [x], r)
  {
    if r.Some? { assert front + ([x] + r.value.0) == front + [x] + r.value.0; }
  }
}
