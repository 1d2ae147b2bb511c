/** The skipper ends where the reader does: exactly when it only moves forward and stays inside the data. */
module BlkReaderProperties {
  import opened Wrappers
  import opened Bytes
  import opened BlkReader

  lemma CompactSizeInside(data: Data, pos: nat)
    requires CompactSize(data, pos).Some?
    ensures pos < CompactSize(data, pos).value.1 <= |data|
  {
    hide FromLittleEndian;
  }

  /** Where the length of a script is read, it is below the range of signed positions. */
  predicate ForwardScript(data: Data, pos: nat, before: nat) {
    match CompactSize(data, pos + before)
    case None => true
    case Some((length, _)) => length < I64
  }

  predicate ForwardScripts(data: Data, pos: nat, n: nat, before: nat, after: nat)
    decreases n
  {
    n == 0 || (
      && ForwardScript(data, pos, before)
      && match SkipScript(data, pos, before, after)
         case None => true
         case Some(p) => ForwardScripts(data, p, n - 1, before, after)
    )
  }

  predicate ForwardRest(data: Data, pos: nat) {
    match CompactSize(data, pos)
    case None => true
    case Some((outputCount, p)) => ForwardScripts(data, p, outputCount, 8, 0)
  }

  /** No script length that the skipper meets in a transaction turns negative. */
  predicate Forward(data: Data, pos: nat) {
    match CompactSize(data, pos + 4)
    case None => true
    case Some((inputCount, p)) =>
      && ForwardScripts(data, p, inputCount, 36, 4)
      && match SkipScripts(data, p, inputCount, 36, 4)
         case None => true
         case Some(p) => ForwardRest(data, p)
  }

  // ------------------------------------------------ one input, one output

  lemma InputIff(data: Data, pos: nat)
    ensures var skipped := SkipScript(data, pos, 36, 4);
            ReadInput(data, pos).Some? <==> skipped.Some? && skipped.value <= |data| && ForwardScript(data, pos, 36)
    ensures ReadInput(data, pos).Some? ==> SkipScript(data, pos, 36, 4) == Some(ReadInput(data, pos).value.1)
    ensures SkipScript(data, pos, 36, 4).Some? && ForwardScript(data, pos, 36) ==> pos < SkipScript(data, pos, 36, 4).value
  {
    hide CompactSize, FromLittleEndian;
    if CompactSize(data, pos + 36).Some? { CompactSizeInside(data, pos + 36); }
  }

  lemma OutputIff(data: Data, pos: nat)
    ensures var skipped := SkipScript(data, pos, 8, 0);
            ReadOutput(data, pos).Some? <==> skipped.Some? && skipped.value <= |data| && ForwardScript(data, pos, 8)
    ensures ReadOutput(data, pos).Some? ==> SkipScript(data, pos, 8, 0) == Some(ReadOutput(data, pos).value.1)
    ensures SkipScript(data, pos, 8, 0).Some? && ForwardScript(data, pos, 8) ==> pos < SkipScript(data, pos, 8, 0).value
  {
    hide CompactSize, FromLittleEndian;
    if CompactSize(data, pos + 8).Some? { CompactSizeInside(data, pos + 8); }
  }

  // ---------------------------------------------------- lists of scripts

  lemma {:induction false} ScriptsMoveForward(data: Data, pos: nat, n: nat, before: nat, after: nat)
    requires SkipScripts(data, pos, n, before, after).Some? && ForwardScripts(data, pos, n, before, after)
    ensures pos <= SkipScripts(data, pos, n, before, after).value
    decreases n
  {
    hide CompactSize;
    if n > 0 {
      CompactSizeInside(data, pos + before);
      ScriptsMoveForward(data, SkipScript(data, pos, before, after).value, n - 1, before, after);
    }
  }

  lemma {:induction false} InputsIff(data: Data, pos: nat, n: nat)
    requires pos <= |data|
    ensures var skipped := SkipScripts(data, pos, n, 36, 4);
            ReadInputs(data, pos, n).Some? <==> skipped.Some? && skipped.value <= |data| && ForwardScripts(data, pos, n, 36, 4)
    ensures ReadInputs(data, pos, n).Some? ==> SkipScripts(data, pos, n, 36, 4) == Some(ReadInputs(data, pos, n).value.1)
    decreases n
  {
    hide ReadInput, SkipScript, ForwardScript;
    if n > 0 {
      InputIff(data, pos);
      var skipped := SkipScript(data, pos, 36, 4);
      if skipped.Some? {
        if skipped.value <= |data| {
          InputsIff(data, skipped.value, n - 1);
        } else if SkipScripts(data, pos, n, 36, 4).Some? && ForwardScripts(data, pos, n, 36, 4) {
          ScriptsMoveForward(data, skipped.value, n - 1, 36, 4);
        }
      }
    }
  }

  lemma {:induction false} OutputsIff(data: Data, pos: nat, n: nat)
    requires pos <= |data|
    ensures var skipped := SkipScripts(data, pos, n, 8, 0);
            ReadOutputs(data, pos, n).Some? <==> skipped.Some? && skipped.value <= |data| && ForwardScripts(data, pos, n, 8, 0)
    ensures ReadOutputs(data, pos, n).Some? ==> SkipScripts(data, pos, n, 8, 0) == Some(ReadOutputs(data, pos, n).value.1)
    decreases n
  {
    hide ReadOutput, SkipScript, ForwardScript;
    if n > 0 {
      OutputIff(data, pos);
      var skipped := SkipScript(data, pos, 8, 0);
      if skipped.Some? {
        if skipped.value <= |data| {
          OutputsIff(data, skipped.value, n - 1);
        } else if SkipScripts(data, pos, n, 8, 0).Some? && ForwardScripts(data, pos, n, 8, 0) {
          ScriptsMoveForward(data, skipped.value, n - 1, 8, 0);
        }
      }
    }
  }

  // --------------------------------------------------- whole transactions

  lemma RestIff(data: Data, pos: nat)
    ensures var skipped := SkipRest(data, pos);
            ReadRest(data, pos).Some? <==> skipped.Some? && skipped.value <= |data| && ForwardRest(data, pos)
    ensures ReadRest(data, pos).Some? ==> SkipRest(data, pos) == Some(ReadRest(data, pos).value.1) && pos < SkipRest(data, pos).value
  {
    hide CompactSize, ReadOutputs, SkipScripts, ForwardScripts, FromLittleEndian;
    if CompactSize(data, pos).Some? {
      CompactSizeInside(data, pos);
      var (count, p) := CompactSize(data, pos).value;
      OutputsIff(data, p, count);
      if ReadOutputs(data, p, count).Some? {
        ScriptsMoveForward(data, p, count, 8, 0);
      }
    }
  }

  lemma HeadIff(data: Data, pos: nat)
    ensures var skipped := SkipTransaction(data, pos);
            ReadRawTx(data, pos).Some? <==> skipped.Some? && skipped.value <= |data| && Forward(data, pos)
    ensures ReadRawTx(data, pos).Some? ==>
              SkipTransaction(data, pos) == Some(ReadRawTx(data, pos).value.1) && pos < ReadRawTx(data, pos).value.1 <= |data|
  {
    hide CompactSize, ReadInputs, ReadRest, SkipRest, ForwardRest, SkipScripts, ForwardScripts, FromLittleEndian, NotCoinbase, Slice;
    if CompactSize(data, pos + 4).Some? {
      CompactSizeInside(data, pos + 4);
      var (count, p) := CompactSize(data, pos + 4).value;
      InputsIff(data, p, count);
      var passed := SkipScripts(data, p, count, 36, 4);
      if passed.Some? {
        RestIff(data, passed.value);
        if ReadInputs(data, p, count).Some? { ScriptsMoveForward(data, p, count, 36, 4); }
      }
    }
  }

  /**
    Reading a transaction succeeds exactly when skipping it ends inside the
    data and meets no length that turns negative; both then end at the same
    position, and the bytes in between are what the identifier is taken from.
   */
  lemma ReadIffSkip(data: Data, pos: nat)
    ensures var skipped := SkipTransaction(data, pos);
            ReadRawTx(data, pos).Some? <==> skipped.Some? && skipped.value <= |data| && Forward(data, pos)
    ensures ReadRawTx(data, pos).Some? ==>
              && SkipTransaction(data, pos) == Some(ReadRawTx(data, pos).value.1)
              && pos < SkipTransaction(data, pos).value <= |data|
              && ReadRawTx(data, pos).value.0.bytes == data[pos..SkipTransaction(data, pos).value]
  {
    hide CompactSize, ReadInputs, ReadOutputs, SkipTransaction, Forward, FromLittleEndian, NotCoinbase, ReadNumber;
    HeadIff(data, pos);
  }

  /** One input whose script length is all ones, no outputs. */
  function BackwardsBytes(): Data {
    seq(58, k requires 0 <= k < 58 => (if k == 4 then 1 else if 41 <= k < 50 then 255 else 0) as Byte)
  }

  /** A script length of 2^64 - 1 makes the skipper step back by one and go on, where the reader fails. */
  lemma StepsBackwards()
    ensures var data := BackwardsBytes();
            SkipTransaction(data, 0) == Some(58) && 58 == |data| && ReadRawTx(data, 0).None?
  {
    var data := BackwardsBytes();
    BackwardsSizes();
    hide CompactSize, FromLittleEndian, ReadExact, BackwardsBytes;
    assert SkipScript(data, 5, 36, 4) == Some(53);
    assert SkipScripts(data, 5, 1, 36, 4) == SkipScripts(data, 53, 0, 36, 4);
    assert !ForwardScript(data, 5, 36);
    assert !Forward(data, 0);
    HeadIff(data, 0);
  }

  lemma BackwardsSizes()
    ensures var data := BackwardsBytes();
            && |data| == 58
            && CompactSize(data, 4) == Some((1, 5)) && CompactSize(data, 53) == Some((0, 54))
            && CompactSize(data, 41) == Some((U64 - 1, 50))
  {
    AllOnes(BackwardsBytes(), 42);
  }

  lemma AllOnes(data: Data, pos: nat)
    requires pos + 8 <= |data| && forall k :: pos <= k < pos + 8 ==> data[k] == 255
    ensures ReadNumber(data, pos, 8) == Some((U64 - 1, pos + 8))
  {
    assert FromLittleEndian(data[pos..pos + 8]) == U64 - 1 by { Ones(data[pos..pos + 8]); Ranges(); }
  }

  lemma {:induction false} Ones(bytes: seq<Byte>)
    requires forall k :: 0 <= k < |bytes| ==> bytes[k] == 255
    ensures FromLittleEndian(bytes) == Range(|bytes|) - 1
  {
    if bytes != [] { Ones(bytes[1..]); }
  }

  // -------------------------------------------------- merged-mining proofs

  function ReadBranch(data: Data, pos: nat): Option<nat> {
    match CompactSize(data, pos)
    case None => None
    case Some((count, p)) =>
      match ReadExact(data, p, 32 * count)
      case None => None
      case Some((_, end)) => Some(end)
  }

  function After(data: Data, pos: Option<nat>, n: nat): Option<nat> {
    match pos
    case None => None
    case Some(p) =>
      match ReadExact(data, p, n)
      case None => None
      case Some((_, end)) => Some(end)
  }

  function BranchAfter(data: Data, pos: Option<nat>): Option<nat> {
    match pos case None => None case Some(p) => ReadBranch(data, p)
  }

  /** The end of a merged-mining proof whose every field is present: transaction, hash, branch, index, branch, index, header. */
  function ReadAuxPow(data: Data, pos: nat): Option<nat> {
    match ReadRawTx(data, pos)
    case None => None
    case Some((_, end)) =>
      After(data, After(data, BranchAfter(data, After(data, BranchAfter(data, After(data, Some(end), 32)), 4)), 4), 80)
  }

  /** The hashes of a branch take fewer bytes than a signed position can count. */
  predicate ForwardBranch(data: Data, pos: nat) {
    match CompactSize(data, pos)
    case None => true
    case Some((count, _)) => count * 32 < I64
  }

  predicate ForwardBranches(data: Data, pos: nat) {
    && ForwardBranch(data, pos)
    && match SkipBranch(data, pos)
       case None => true
       case Some(p) => ForwardBranch(data, p + 4)
  }

  /** No script length and no branch of a proof makes the skipper wrap around or step back. */
  predicate ForwardAuxPow(data: Data, pos: nat) {
    && Forward(data, pos)
    && match SkipTransaction(data, pos)
       case None => true
       case Some(p) => ForwardBranches(data, p + 32)
  }

  lemma BranchIff(data: Data, pos: nat)
    ensures var skipped := SkipBranch(data, pos);
            ReadBranch(data, pos).Some? <==> skipped.Some? && skipped.value <= |data| && ForwardBranch(data, pos)
    ensures ReadBranch(data, pos).Some? ==> SkipBranch(data, pos) == ReadBranch(data, pos)
    ensures SkipBranch(data, pos).Some? && ForwardBranch(data, pos) ==> pos < SkipBranch(data, pos).value
  {
    hide CompactSize;
    if CompactSize(data, pos).Some? {
      CompactSizeInside(data, pos);
      var count := CompactSize(data, pos).value.0;
      if count * 32 < I64 { assert count * 32 % U64 == count * 32; }
    }
  }

  lemma AfterIff(data: Data, p: nat, n: nat)
    requires n > 0
    ensures After(data, Some(p), n).Some? <==> p + n <= |data|
    ensures After(data, Some(p), n).Some? ==> After(data, Some(p), n) == Some(p + n) == Seek(p, n)
    ensures Seek(p, n).Some? ==> Seek(p, n) == Some(p + n)
  {
  }

  /** From the first branch on: branch, index, branch, index, header. */
  function ReadBranches(data: Data, pos: nat): Option<nat> {
    After(data, After(data, BranchAfter(data, After(data, ReadBranch(data, pos), 4)), 4), 80)
  }

  lemma ReadByParts(data: Data, pos: nat)
    ensures ReadAuxPow(data, pos) ==
            match ReadRawTx(data, pos)
            case None => None
            case Some((_, end)) =>
              match After(data, Some(end), 32)
              case None => None
              case Some(p) => ReadBranches(data, p)
  {
    hide ReadRawTx, ReadBranch;
  }

  function SkipBranches(data: Data, pos: nat): Option<nat> {
    match SkipBranch(data, pos)
    case None => None
    case Some(p) =>
      match Seek(p, 4)
      case None => None
      case Some(p) =>
        match SkipBranch(data, p)
        case None => None
        case Some(p) =>
          match Seek(p, 4)
          case None => None
          case Some(p) => Seek(p, 80)
  }

  lemma SkipByParts(data: Data, pos: nat)
    ensures SkipAuxPow(data, pos) ==
            match SkipTransaction(data, pos)
            case None => None
            case Some(p) =>
              match Seek(p, 32)
              case None => None
              case Some(p) => SkipBranches(data, p)
  {
    hide SkipTransaction, SkipBranch, Seek;
  }

  lemma BranchesIff(data: Data, pos: nat)
    ensures var skipped := SkipBranches(data, pos);
            ReadBranches(data, pos).Some? <==> skipped.Some? && skipped.value <= |data| && ForwardBranches(data, pos)
    ensures ReadBranches(data, pos).Some? ==> SkipBranches(data, pos) == ReadBranches(data, pos)
    ensures SkipBranches(data, pos).Some? && ForwardBranches(data, pos) ==> pos < SkipBranches(data, pos).value
  {
    hide SkipBranch, ReadBranch, ForwardBranch, Seek;
    BranchIff(data, pos);
    if SkipBranch(data, pos).Some? {
      var p := SkipBranch(data, pos).value;
      AfterIff(data, p, 4);
      SeekIs(p, 4);
      BranchIff(data, p + 4);
      if SkipBranch(data, p + 4).Some? {
        var q := SkipBranch(data, p + 4).value;
        AfterIff(data, q, 4);
        AfterIff(data, q + 4, 80);
        SeekIs(q, 4);
        SeekIs(q + 4, 80);
      }
    }
  }

  /**
    Reading a whole merged-mining proof succeeds exactly when skipping it ends
    inside the data and never wraps around or steps back; both then end at the
    same position.
   */
  lemma SkipAuxPowIff(data: Data, pos: nat)
    ensures var skipped := SkipAuxPow(data, pos);
            ReadAuxPow(data, pos).Some? <==> skipped.Some? && skipped.value <= |data| && ForwardAuxPow(data, pos)
    ensures ReadAuxPow(data, pos).Some? ==> SkipAuxPow(data, pos) == ReadAuxPow(data, pos)
  {
    hide ReadRawTx, SkipTransaction, Forward, ReadBranches, SkipBranches, ForwardBranches, ReadAuxPow, SkipAuxPow, Seek;
    ReadByParts(data, pos);
    SkipByParts(data, pos);
    ReadIffSkip(data, pos);
    if SkipTransaction(data, pos).Some? {
      var p := SkipTransaction(data, pos).value;
      AfterIff(data, p, 32);
      BranchesIff(data, p + 32);
      SeekIs(p, 32);
    }
  }

  lemma SeekIs(p: nat, n: nat)
    ensures Seek(p, n) == if p + n < U64 then Some(p + n) else None
  {
  }
}
