/** Raw transactions as they are written: what the reader accepts is exactly what a writer can have written. */
module BlkWriter {
  import opened Wrappers
  import opened Bytes
  import opened BlkReader

  /** Lengths and counts may be written in more bytes than they need; `width` says in how many. */
  datatype WireIn = WireIn(txid: seq<Byte>, vout: nat, width: nat, script: seq<Byte>, sequence: nat)
  {
    ghost predicate Ok() {
      |txid| == 32 && vout < U32 && SizeOk(|script|, width) && sequence < U32
    }

    function Bytes(): seq<Byte> {
      txid + (ToLittleEndian(vout, 4) + (SizeBytes(|script|, width) + (script + ToLittleEndian(sequence, 4))))
    }

    function Fields(): RawTxIn {
      RawTxIn(txid, vout, script, sequence)
    }
  }

  datatype WireOut = WireOut(value: nat, width: nat, script: seq<Byte>)
  {
    ghost predicate Ok() {
      value < U64 && SizeOk(|script|, width)
    }

    function Bytes(): seq<Byte> {
      ToLittleEndian(value, 8) + (SizeBytes(|script|, width) + script)
    }

    function Fields(): RawTxOut {
      RawTxOut(value, script)
    }
  }

  datatype WireTx = WireTx(version: nat, inputWidth: nat, inputs: seq<WireIn>, outputWidth: nat, outputs: seq<WireOut>, locktime: nat)
  {
    ghost predicate Ok() {
      && version < U32 && SizeOk(|inputs|, inputWidth) && InsOk(inputs)
      && SizeOk(|outputs|, outputWidth) && OutsOk(outputs) && locktime < U32
    }

    function Rest(): seq<Byte> {
      SizeBytes(|outputs|, outputWidth) + (OutBytes(outputs) + ToLittleEndian(locktime, 4))
    }

    function Bytes(): seq<Byte> {
      ToLittleEndian(version, 4) + (SizeBytes(|inputs|, inputWidth) + (InBytes(inputs) + Rest()))
    }

    /** The transaction without the inputs that mint coins. */
    function Fields(): RawTx {
      RawTx(NotCoinbase(InFields(inputs)), OutFields(outputs), Bytes())
    }
  }

  predicate SizeOk(n: nat, width: nat) {
    (width == 1 && n <= 0xfc) || (width == 3 && n < U16) || (width == 5 && n < U32) || (width == 9 && n < U64)
  }

  function SizeBytes(n: nat, width: nat): seq<Byte> {
    if width == 3 then [0xfd] + ToLittleEndian(n, 2)
    else if width == 5 then [0xfe] + ToLittleEndian(n, 4)
    else if width == 9 then [0xff] + ToLittleEndian(n, 8)
    else ToLittleEndian(n, 1)
  }

  function InBytes(inputs: seq<WireIn>): seq<Byte> {
    if inputs == [] then [] else inputs[0].Bytes() + InBytes(inputs[1..])
  }

  function OutBytes(outputs: seq<WireOut>): seq<Byte> {
    if outputs == [] then [] else outputs[0].Bytes() + OutBytes(outputs[1..])
  }

  function InFields(inputs: seq<WireIn>): (fields: seq<RawTxIn>)
    ensures |fields| == |inputs| && forall i :: 0 <= i < |inputs| ==> fields[i] == inputs[i].Fields()
  {
    seq(|inputs|, i requires 0 <= i < |inputs| => inputs[i].Fields())
  }

  function OutFields(outputs: seq<WireOut>): (fields: seq<RawTxOut>)
    ensures |fields| == |outputs| && forall i :: 0 <= i < |outputs| ==> fields[i] == outputs[i].Fields()
  {
    seq(|outputs|, i requires 0 <= i < |outputs| => outputs[i].Fields())
  }

  // ---------------------------------------------------- bytes at a position

  ghost predicate At(data: Data, pos: nat, bytes: seq<Byte>) {
    pos + |bytes| <= |data| && data[pos..pos + |bytes|] == bytes
  }

  lemma AtBoth(data: Data, pos: nat, a: seq<Byte>, b: seq<Byte>)
    ensures At(data, pos, a + b) <==> At(data, pos, a) && At(data, pos + |a|, b)
  {
    if At(data, pos, a + b) {
      assert data[pos..pos + |a|] == (a + b)[..|a|];
      assert data[pos + |a|..pos + |a| + |b|] == (a + b)[|a|..];
    }
  }

  lemma ExactIff(data: Data, pos: nat, bytes: seq<Byte>)
    requires pos <= |data|
    ensures At(data, pos, bytes) <==> ReadExact(data, pos, |bytes|) == Some((bytes, pos + |bytes|))
  {
  }

  lemma NumberIff(data: Data, pos: nat, n: nat, width: nat)
    requires pos <= |data|
    ensures n < Range(width) && At(data, pos, ToLittleEndian(n, width)) <==> ReadNumber(data, pos, width) == Some((n, pos + width))
  {
    hide FromLittleEndian, ToLittleEndian, Range;
    if n < Range(width) && At(data, pos, ToLittleEndian(n, width)) {
      LittleEndianRoundTrip(n, width);
      ExactIff(data, pos, ToLittleEndian(n, width));
    }
    if ReadNumber(data, pos, width) == Some((n, pos + width)) {
      var bytes := ReadExact(data, pos, width).value.0;
      LittleEndianBack(bytes);
      ExactIff(data, pos, bytes);
    }
  }

  // ------------------------------------------------------- sizes and scripts

  /** A size that was read, with the width it was written in. */
  lemma SizeRead(data: Data, pos: nat) returns (width: nat)
    requires CompactSize(data, pos).Some?
    ensures var (n, end) := CompactSize(data, pos).value;
      SizeOk(n, width) && At(data, pos, SizeBytes(n, width)) && end == pos + |SizeBytes(n, width)|
  {
    hide ReadNumber, ToLittleEndian, At, Range;
    var first := ReadNumber(data, pos, 1).value;
    InsideNumber(data, pos, 1);
    NumberIff(data, pos, first.0, 1);
    Ranges();
    OneByte(first.0);
    width := if first.0 <= 0xfc then 1 else if first.0 == 0xfd then 3 else if first.0 == 0xfe then 5 else 9;
    if width > 1 {
      var n := CompactSize(data, pos).value.0;
      InsideNumber(data, pos + 1, width - 1);
      NumberIff(data, pos + 1, n, width - 1);
      AtBoth(data, pos, [first.0], ToLittleEndian(n, width - 1));
    }
  }

  lemma SizeWritten(data: Data, pos: nat, n: nat, width: nat)
    requires SizeOk(n, width) && At(data, pos, SizeBytes(n, width))
    ensures CompactSize(data, pos) == Some((n, pos + |SizeBytes(n, width)|))
  {
    hide ReadNumber, ToLittleEndian, Range;
    Ranges();
    OneByte(n);
    if width == 1 {
      NumberIff(data, pos, n, 1);
    } else {
      var first := if width == 3 then 0xfd else if width == 5 then 0xfe else 0xff;
      OneByte(first);
      AtBoth(data, pos, [first], ToLittleEndian(n, width - 1));
      NumberIff(data, pos, first, 1);
      NumberIff(data, pos + 1, n, width - 1);
    }
  }

  lemma OneByte(n: nat)
    ensures Range(1) == 256 && (n < 256 ==> ToLittleEndian(n, 1) == [n])
  {
    assert ToLittleEndian(n / 256, 0) == [];
  }

  lemma InsideNumber(data: Data, pos: nat, width: nat)
    requires ReadNumber(data, pos, width).Some? && width > 0
    ensures pos + width <= |data| && ReadNumber(data, pos, width).value.1 == pos + width
  {
  }

  lemma AtFour(data: Data, pos: nat, a: seq<Byte>, b: seq<Byte>, c: seq<Byte>, d: seq<Byte>)
    ensures At(data, pos, a + (b + (c + d))) <==>
              && At(data, pos, a) && At(data, pos + |a|, b) && At(data, pos + |a| + |b|, c)
              && At(data, pos + |a| + |b| + |c|, d)
  {
    hide At;
    AtBoth(data, pos, a, b + (c + d));
    AtBoth(data, pos + |a|, b, c + d);
    AtBoth(data, pos + |a| + |b|, c, d);
  }

  lemma AtEnd(data: Data, pos: nat, bytes: seq<Byte>)
    requires At(data, pos, bytes)
    ensures pos + |bytes| <= |data|
  {
  }

  lemma ExactRead(data: Data, pos: nat, n: nat)
    requires pos <= |data| && ReadExact(data, pos, n).Some?
    ensures var (bytes, end) := ReadExact(data, pos, n).value; |bytes| == n && At(data, pos, bytes) && end == pos + n <= |data|
  {
  }

  // ------------------------------------------------------- inputs and outputs

  lemma InputRead(data: Data, pos: nat) returns (w: WireIn)
    requires ReadInput(data, pos).Some?
    ensures w.Ok() && At(data, pos, w.Bytes()) && ReadInput(data, pos).value == (w.Fields(), pos + |w.Bytes()|)
  {
    hide ReadNumber, ToLittleEndian, At, Range, CompactSize, SizeBytes, SizeOk;
    Ranges();
    ExactRead(data, pos, 32);
    var txid := ReadExact(data, pos, 32).value.0;
    var vout := ReadNumber(data, pos + 32, 4).value.0;
    InsideNumber(data, pos + 32, 4);
    NumberIff(data, pos + 32, vout, 4);
    var width := SizeRead(data, pos + 36);
    var (n, p) := CompactSize(data, pos + 36).value;
    AtEnd(data, pos + 36, SizeBytes(n, width));
    ExactRead(data, p, n);
    var script := ReadExact(data, p, n).value.0;
    var sequence := ReadNumber(data, p + n, 4).value.0;
    InsideNumber(data, p + n, 4);
    NumberIff(data, p + n, sequence, 4);
    w := WireIn(txid, vout, width, script, sequence);
    AtBoth(data, p, script, ToLittleEndian(sequence, 4));
    AtFour(data, pos, txid, ToLittleEndian(vout, 4), SizeBytes(n, width), script + ToLittleEndian(sequence, 4));
  }

  lemma InputWritten(data: Data, pos: nat, w: WireIn)
    requires w.Ok() && At(data, pos, w.Bytes())
    ensures ReadInput(data, pos) == Some((w.Fields(), pos + |w.Bytes()|))
  {
    hide ReadNumber, ReadExact, ToLittleEndian, At, Range, CompactSize, SizeBytes, SizeOk;
    Ranges();
    var n := |w.script|;
    var p := pos + 36 + |SizeBytes(n, w.width)|;
    AtFour(data, pos, w.txid, ToLittleEndian(w.vout, 4), SizeBytes(n, w.width), w.script + ToLittleEndian(w.sequence, 4));
    AtBoth(data, p, w.script, ToLittleEndian(w.sequence, 4));
    AtEnd(data, p + n, ToLittleEndian(w.sequence, 4));
    ExactIff(data, pos, w.txid);
    NumberIff(data, pos + 32, w.vout, 4);
    SizeWritten(data, pos + 36, n, w.width);
    ExactIff(data, p, w.script);
    NumberIff(data, p + n, w.sequence, 4);
  }

  lemma OutputRead(data: Data, pos: nat) returns (w: WireOut)
    requires ReadOutput(data, pos).Some?
    ensures w.Ok() && At(data, pos, w.Bytes()) && ReadOutput(data, pos).value == (w.Fields(), pos + |w.Bytes()|)
  {
    hide ReadNumber, ToLittleEndian, At, Range, CompactSize, SizeBytes, SizeOk;
    Ranges();
    var value := ReadNumber(data, pos, 8).value.0;
    InsideNumber(data, pos, 8);
    NumberIff(data, pos, value, 8);
    var width := SizeRead(data, pos + 8);
    var (n, p) := CompactSize(data, pos + 8).value;
    AtEnd(data, pos + 8, SizeBytes(n, width));
    ExactRead(data, p, n);
    var script := ReadExact(data, p, n).value.0;
    w := WireOut(value, width, script);
    AtBoth(data, pos + 8, SizeBytes(n, width), script);
    AtBoth(data, pos, ToLittleEndian(value, 8), SizeBytes(n, width) + script);
  }

  lemma OutputWritten(data: Data, pos: nat, w: WireOut)
    requires w.Ok() && At(data, pos, w.Bytes())
    ensures ReadOutput(data, pos) == Some((w.Fields(), pos + |w.Bytes()|))
  {
    hide ReadNumber, ReadExact, ToLittleEndian, At, Range, CompactSize, SizeBytes, SizeOk;
    Ranges();
    var n := |w.script|;
    AtBoth(data, pos, ToLittleEndian(w.value, 8), SizeBytes(n, w.width) + w.script);
    AtBoth(data, pos + 8, SizeBytes(n, w.width), w.script);
    AtEnd(data, pos + 8 + |SizeBytes(n, w.width)|, w.script);
    NumberIff(data, pos, w.value, 8);
    SizeWritten(data, pos + 8, n, w.width);
    ExactIff(data, pos + 8 + |SizeBytes(n, w.width)|, w.script);
  }

  ghost predicate InsOk(ws: seq<WireIn>) {
    forall i :: 0 <= i < |ws| ==> ws[i].Ok()
  }

  ghost predicate OutsOk(ws: seq<WireOut>) {
    forall i :: 0 <= i < |ws| ==> ws[i].Ok()
  }

  lemma ReadInputsMore(data: Data, pos: nat, n: nat)
    requires n > 0
    ensures ReadInput(data, pos) == None ==> ReadInputs(data, pos, n) == None
    ensures ReadInput(data, pos).Some? ==>
              var (input, p) := ReadInput(data, pos).value; ReadInputs(data, pos, n) == Before([input], ReadInputs(data, p, n - 1))
  {
    hide ReadInput;
  }

  lemma ReadOutputsMore(data: Data, pos: nat, n: nat)
    requires n > 0
    ensures ReadOutput(data, pos) == None ==> ReadOutputs(data, pos, n) == None
    ensures ReadOutput(data, pos).Some? ==>
              var (output, p) := ReadOutput(data, pos).value; ReadOutputs(data, pos, n) == Before([output], ReadOutputs(data, p, n - 1))
  {
    hide ReadOutput;
  }

  lemma NoneRead(data: Data, pos: nat)
    ensures ReadInputs(data, pos, 0) == Some(([], pos)) && ReadOutputs(data, pos, 0) == Some(([], pos))
    ensures InFields([]) == [] && OutFields([]) == [] && InBytes([]) == [] && OutBytes([]) == []
    ensures pos <= |data| ==> At(data, pos, [])
  {
  }

  lemma {:induction false} InputsRead(data: Data, pos: nat, n: nat) returns (ws: seq<WireIn>)
    requires pos <= |data| && ReadInputs(data, pos, n).Some?
    ensures |ws| == n && InsOk(ws) && At(data, pos, InBytes(ws))
    ensures ReadInputs(data, pos, n).value == (InFields(ws), pos + |InBytes(ws)|)
    decreases n
  {
    hide *;
    if n > 0 {
      ReadInputsMore(data, pos, n);
      var w := InputRead(data, pos);
      AtEnd(data, pos, w.Bytes());
      BeforeSome([w.Fields()], ReadInputs(data, pos + |w.Bytes()|, n - 1));
      var rest := InputsRead(data, pos + |w.Bytes()|, n - 1);
      ws := [w] + rest;
      InBytesMore(w, rest);
      AtBoth(data, pos, w.Bytes(), InBytes(rest));
    } else {
      ws := [];
      NoneRead(data, pos);
      assert InsOk(ws) by { NoInputs(); }
    }
  }

  lemma NoInputs()
    ensures InsOk([]) && OutsOk([])
  {
  }

  lemma BeforeSome<T>(front: seq<T>, r: Option<(seq<T>, nat)>)
    ensures Before(front, r).Some? <==> r.Some?
    ensures r.Some? ==> Before(front, r) == Some((front + r.value.0, r.value.1))
  {
  }

  lemma InBytesMore(w: WireIn, rest: seq<WireIn>)
    ensures InBytes([w] + rest) == w.Bytes() + InBytes(rest) && InFields([w] + rest) == [w.Fields()] + InFields(rest)
    ensures InsOk([w] + rest) <==> w.Ok() && InsOk(rest)
  {
    assert ([w] + rest)[1..] == rest;
    assert ([w] + rest)[0] == w;
    assert forall i :: 0 <= i < |rest| ==> ([w] + rest)[i + 1] == rest[i];
  }

  lemma {:induction false} InputsWritten(data: Data, pos: nat, ws: seq<WireIn>)
    requires InsOk(ws) && At(data, pos, InBytes(ws))
    ensures ReadInputs(data, pos, |ws|) == Some((InFields(ws), pos + |InBytes(ws)|))
    decreases |ws|
  {
    hide *;
    if ws != [] {
      var w, rest := ws[0], ws[1..];
      assert [w] + rest == ws;
      InBytesMore(w, rest);
      AtBoth(data, pos, w.Bytes(), InBytes(rest));
      InputWritten(data, pos, w);
      InputsWritten(data, pos + |w.Bytes()|, rest);
      ReadInputsMore(data, pos, |ws|);
      BeforeSome([w.Fields()], ReadInputs(data, pos + |w.Bytes()|, |rest|));
    } else {
      NoneRead(data, pos);
    }
  }

  lemma {:induction false} OutputsRead(data: Data, pos: nat, n: nat) returns (ws: seq<WireOut>)
    requires pos <= |data| && ReadOutputs(data, pos, n).Some?
    ensures |ws| == n && OutsOk(ws) && At(data, pos, OutBytes(ws))
    ensures ReadOutputs(data, pos, n).value == (OutFields(ws), pos + |OutBytes(ws)|)
    decreases n
  {
    hide *;
    if n > 0 {
      ReadOutputsMore(data, pos, n);
      var w := OutputRead(data, pos);
      AtEnd(data, pos, w.Bytes());
      BeforeSome([w.Fields()], ReadOutputs(data, pos + |w.Bytes()|, n - 1));
      var rest := OutputsRead(data, pos + |w.Bytes()|, n - 1);
      ws := [w] + rest;
      OutBytesMore(w, rest);
      AtBoth(data, pos, w.Bytes(), OutBytes(rest));
    } else {
      ws := [];
      NoneRead(data, pos);
      assert OutsOk(ws) by { NoInputs(); }
    }
  }

  lemma OutBytesMore(w: WireOut, rest: seq<WireOut>)
    ensures OutBytes([w] + rest) == w.Bytes() + OutBytes(rest) && OutFields([w] + rest) == [w.Fields()] + OutFields(rest)
    ensures OutsOk([w] + rest) <==> w.Ok() && OutsOk(rest)
  {
    assert ([w] + rest)[1..] == rest;
    assert ([w] + rest)[0] == w;
    assert forall i :: 0 <= i < |rest| ==> ([w] + rest)[i + 1] == rest[i];
  }

  lemma {:induction false} OutputsWritten(data: Data, pos: nat, ws: seq<WireOut>)
    requires OutsOk(ws) && At(data, pos, OutBytes(ws))
    ensures ReadOutputs(data, pos, |ws|) == Some((OutFields(ws), pos + |OutBytes(ws)|))
    decreases |ws|
  {
    hide *;
    if ws != [] {
      var w, rest := ws[0], ws[1..];
      assert [w] + rest == ws;
      OutBytesMore(w, rest);
      AtBoth(data, pos, w.Bytes(), OutBytes(rest));
      OutputWritten(data, pos, w);
      OutputsWritten(data, pos + |w.Bytes()|, rest);
      ReadOutputsMore(data, pos, |ws|);
      BeforeSome([w.Fields()], ReadOutputs(data, pos + |w.Bytes()|, |rest|));
    } else {
      NoneRead(data, pos);
    }
  }

  // ------------------------------------------------------------ transactions

  lemma TxRead(data: Data, pos: nat) returns (w: WireTx)
    requires ReadRawTx(data, pos).Some?
    ensures w.Ok() && At(data, pos, w.Bytes()) && ReadRawTx(data, pos).value == (w.Fields(), pos + |w.Bytes()|)
  {
    hide ReadNumber, ToLittleEndian, At, Range, CompactSize, SizeBytes, SizeOk, ReadInputs, ReadOutputs, NotCoinbase, InBytes, OutBytes,
         InFields, OutFields, InsOk, OutsOk;
    Ranges();
    var version := ReadNumber(data, pos, 4).value.0;
    InsideNumber(data, pos, 4);
    NumberIff(data, pos, version, 4);
    var inputWidth := SizeRead(data, pos + 4);
    var (inputCount, p1) := CompactSize(data, pos + 4).value;
    AtEnd(data, pos + 4, SizeBytes(inputCount, inputWidth));
    var inputs := InputsRead(data, p1, inputCount);
    var p2 := p1 + |InBytes(inputs)|;
    AtEnd(data, p1, InBytes(inputs));
    var outputWidth := SizeRead(data, p2);
    var (outputCount, p3) := CompactSize(data, p2).value;
    AtEnd(data, p2, SizeBytes(outputCount, outputWidth));
    var outputs := OutputsRead(data, p3, outputCount);
    var p4 := p3 + |OutBytes(outputs)|;
    AtEnd(data, p3, OutBytes(outputs));
    var locktime := ReadNumber(data, p4, 4).value.0;
    InsideNumber(data, p4, 4);
    NumberIff(data, p4, locktime, 4);
    w := WireTx(version, inputWidth, inputs, outputWidth, outputs, locktime);
    AtBoth(data, p2, SizeBytes(outputCount, outputWidth), OutBytes(outputs) + ToLittleEndian(locktime, 4));
    AtBoth(data, p3, OutBytes(outputs), ToLittleEndian(locktime, 4));
    AtFour(data, pos, ToLittleEndian(version, 4), SizeBytes(inputCount, inputWidth), InBytes(inputs), w.Rest());
    SliceIs(data, pos, w.Bytes());
  }

  lemma SliceIs(data: Data, pos: nat, bytes: seq<Byte>)
    requires At(data, pos, bytes)
    ensures Slice(data, pos, pos + |bytes|) == bytes
  {
  }

  lemma TxWritten(data: Data, pos: nat, w: WireTx)
    requires w.Ok() && At(data, pos, w.Bytes())
    ensures ReadRawTx(data, pos) == Some((w.Fields(), pos + |w.Bytes()|))
  {
    hide ReadNumber, ToLittleEndian, At, Range, CompactSize, SizeBytes, SizeOk, ReadInputs, ReadOutputs, NotCoinbase, InBytes, OutBytes,
         InFields, OutFields, InsOk, OutsOk;
    Ranges();
    var p1 := pos + 4 + |SizeBytes(|w.inputs|, w.inputWidth)|;
    var p2 := p1 + |InBytes(w.inputs)|;
    var p3 := p2 + |SizeBytes(|w.outputs|, w.outputWidth)|;
    var p4 := p3 + |OutBytes(w.outputs)|;
    AtFour(data, pos, ToLittleEndian(w.version, 4), SizeBytes(|w.inputs|, w.inputWidth), InBytes(w.inputs), w.Rest());
    AtBoth(data, p2, SizeBytes(|w.outputs|, w.outputWidth), OutBytes(w.outputs) + ToLittleEndian(w.locktime, 4));
    AtBoth(data, p3, OutBytes(w.outputs), ToLittleEndian(w.locktime, 4));
    AtEnd(data, p4, ToLittleEndian(w.locktime, 4));
    NumberIff(data, pos, w.version, 4);
    SizeWritten(data, pos + 4, |w.inputs|, w.inputWidth);
    InputsWritten(data, p1, w.inputs);
    SizeWritten(data, p2, |w.outputs|, w.outputWidth);
    OutputsWritten(data, p3, w.outputs);
    NumberIff(data, p4, w.locktime, 4);
    SliceIs(data, pos, w.Bytes());
  }

  /** A transaction is read, field by field, exactly when it stands there written out, in sizes of any width. */
  lemma ReadIffWritten(data: Data, pos: nat, tx: RawTx, end: nat)
    ensures ReadRawTx(data, pos) == Some((tx, end))
       <==> exists w: WireTx :: w.Ok() && At(data, pos, w.Bytes()) && tx == w.Fields() && end == pos + |w.Bytes()|
  {
    hide At, ReadRawTx;
    if ReadRawTx(data, pos) == Some((tx, end)) {
      var w := TxRead(data, pos);
    }
    if w: WireTx :| w.Ok() && At(data, pos, w.Bytes()) && tx == w.Fields() && end == pos + |w.Bytes()| {
      TxWritten(data, pos, w);
    }
  }

  /** An input that is not a coinbase. */
  predicate Spends(input: RawTxIn) {
    input.vout != 0xffff_ffff || exists b :: b in input.txid && b != 0
  }

  /** Kept are the inputs at the given ascending positions, all but those that spend nothing. */
  ghost predicate KeptAt(inputs: seq<RawTxIn>, kept: seq<RawTxIn>, at: seq<nat>) {
    && |at| == |kept|
    && (forall i, j :: 0 <= i < j < |at| ==> at[i] < at[j])
    && (forall i :: 0 <= i < |at| ==> at[i] < |inputs| && inputs[at[i]] == kept[i])
    && (forall k :: 0 <= k < |inputs| ==> (k in at <==> Spends(inputs[k])))
  }

  lemma {:induction false} NotCoinbaseMeaning(inputs: seq<RawTxIn>) returns (at: seq<nat>)
    ensures KeptAt(inputs, NotCoinbase(inputs), at)
  {
    at := [];
    if inputs != [] {
      hide NotCoinbase, KeptAt;
      var n := |inputs| - 1;
      assert inputs == inputs[..n] + [inputs[n]];
      var front := NotCoinbaseMeaning(inputs[..n]);
      NotCoinbaseLast(inputs[..n], inputs[n]);
      at := OneMoreKept(inputs[..n], NotCoinbase(inputs[..n]), front, inputs[n]);
    }
  }

  lemma {:induction false} NotCoinbaseLast(inputs: seq<RawTxIn>, last: RawTxIn)
    ensures NotCoinbase(inputs + [last]) == NotCoinbase(inputs) + if last.IsCoinbase() then [] else [last]
  {
    if inputs == [] {
      assert [last][1..] == [];
    } else {
      NotCoinbaseLast(inputs[1..], last);
      assert (inputs + [last])[1..] == inputs[1..] + [last];
    }
  }

  lemma CoinbaseIff(input: RawTxIn)
    ensures !input.IsCoinbase() <==> Spends(input)
  {
    if !input.IsCoinbase() && input.vout == 0xffff_ffff {
      var k :| 0 <= k < |input.txid| && input.txid[k] != 0;
      assert input.txid[k] in input.txid;
    }
  }

  lemma OneMoreKept(inputs: seq<RawTxIn>, kept: seq<RawTxIn>, front: seq<nat>, last: RawTxIn) returns (at: seq<nat>)
    requires KeptAt(inputs, kept, front)
    ensures KeptAt(inputs + [last], kept + if last.IsCoinbase() then [] else [last], at)
  {
    hide Spends;
    CoinbaseIff(last);
    var all := inputs + [last];
    if last.IsCoinbase() {
      at := front;
      assert kept + [] == kept;
      forall k | 0 <= k < |all| ensures k in at <==> Spends(all[k]) {
        if k < |inputs| { assert all[k] == inputs[k]; }
      }
    } else {
      at := front + [|inputs|];
      forall k | 0 <= k < |all| ensures k in at <==> Spends(all[k]) {
        if k < |inputs| {
          assert all[k] == inputs[k];
          assert k in at <==> k in front;
        } else {
          assert at[|front|] == k;
        }
      }
    }
  }
}
