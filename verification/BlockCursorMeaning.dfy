/** What is read from any bytes, well formed or not: where each number stands, and when reading fails. */
module BlockCursorMeaning {
  import opened Wrappers
  import opened Bytes
  import opened BlockCursors

  /** The input with the given number, each input taking 22 bytes. */
  function InputAt(body: seq<Byte>, k: nat): TxIn
    requires |body| >= 22 * (k + 1)
  {
    var at := 22 * k;
    FromBigEndianBound(body[at + 14..at + 22]);
    TxIn(body[at..at + 8], FromBigEndian(body[at + 8..at + 12]), FromBigEndian(body[at + 12..at + 14]), FromBigEndian(body[at + 14..at + 22]))
  }

  lemma InputMoved(body: seq<Byte>, k: nat)
    requires |body| >= 22 * (k + 2)
    ensures InputAt(body[22..], k) == InputAt(body, k + 1)
  {
    var at := 22 * k;
    var rest := body[22..];
    assert rest[at..at + 8] == body[at + 22..at + 30];
    assert rest[at + 8..at + 12] == body[at + 30..at + 34];
    assert rest[at + 12..at + 14] == body[at + 34..at + 36];
    assert rest[at + 14..at + 22] == body[at + 36..at + 44];
  }

  lemma FirstInput(rest: seq<Byte>)
    ensures ReadInput(rest) == if |rest| < 22 then None else Some((InputAt(rest, 0), rest[22..]))
  {
  }

  lemma {:induction false} InputsMeaning(rest: seq<Byte>, n: nat)
    ensures ReadInputs(rest, n).Some? <==> |rest| >= 22 * n
    ensures ReadInputs(rest, n).Some? ==>
              && ReadInputs(rest, n).value.1 == rest[22 * n..]
              && forall k :: 0 <= k < n ==> ReadInputs(rest, n).value.0[k] == InputAt(rest, k)
    decreases n
  {
    hide ReadInput, InputAt;
    FirstInput(rest);
    if n > 0 && |rest| >= 22 {
      InputsMeaning(rest[22..], n - 1);
      if |rest| >= 22 * n {
        assert rest[22..][22 * (n - 1)..] == rest[22 * n..];
        forall k | 0 < k < n ensures ReadInputs(rest, n).value.0[k] == InputAt(rest, k) {
          InputMoved(rest, k - 1);
        }
      }
    }
  }

  /** The output with the given number, each output taking 8 bytes. */
  function OutputAt(body: seq<Byte>, k: nat): Sats
    requires |body| >= 8 * (k + 1)
  {
    FromBigEndianBound(body[8 * k..8 * k + 8]);
    FromBigEndian(body[8 * k..8 * k + 8])
  }

  lemma {:induction false} OutputsMeaning(rest: seq<Byte>, n: nat)
    ensures ReadOutputs(rest, n).Some? <==> |rest| >= 8 * n
    ensures ReadOutputs(rest, n).Some? ==> forall k :: 0 <= k < n ==> ReadOutputs(rest, n).value[k] == OutputAt(rest, k)
    decreases n
  {
    hide FromBigEndian;
    if n > 0 && |rest| >= 8 {
      OutputsMeaning(rest[8..], n - 1);
      if |rest| >= 8 * n {
        forall k | 0 < k < n ensures ReadOutputs(rest, n).value[k] == OutputAt(rest, k) {
          assert rest[8..][8 * (k - 1)..8 * (k - 1) + 8] == rest[8 * k..8 * k + 8];
        }
      }
    }
  }

  /**
    A transaction with n inputs and m outputs, wherever it stands: its
    identifier, the inputs and the outputs at fixed distances, and a failure
    exactly when the bytes run out; without room for an identifier that is all
    zeros, and nothing else can be read.
   */
  lemma ReadTxMeaning(rest: seq<Byte>, n: nat, m: nat)
    ensures var r := ReadTx(rest, n, m);
      && (r.Some? <==> if |rest| >= 8 then |rest| >= 8 + 22 * n + 8 * m else n == 0 && m == 0)
      && (r.Some? ==> r.value.txid == if |rest| >= 8 then rest[..8] else [0, 0, 0, 0, 0, 0, 0, 0])
      && (r.Some? ==> forall k :: 0 <= k < n ==> r.value.inputs[k] == InputAt(rest[8..], k))
      && (r.Some? ==> forall k :: 0 <= k < m ==> r.value.outputs[k] == OutputAt(rest[8 + 22 * n..], k))
  {
    hide ReadInputs, ReadOutputs, InputAt, OutputAt;
    var body: seq<Byte> := if |rest| >= 8 then rest[8..] else [];
    InputsMeaning(body, n);
    if |body| >= 22 * n {
      OutputsMeaning(body[22 * n..], m);
      if |rest| >= 8 {
        assert body[22 * n..] == rest[8 + 22 * n..];
      }
    }
  }

  // ------------------------------------------------------------ whole blocks

  /** Where the body of a transaction starts: behind the bodies of those before it. */
  function OffsetOf(bytes: seq<Byte>, k: nat): Option<nat> {
    if k == 0 then Some(0)
    else
      match OffsetOf(bytes, k - 1)
      case None => None
      case Some(before) =>
        match GetTransactionFormat(bytes, k - 1)
        case None => None
        case Some(format) => Some(before + format.size)
  }

  /** The bodies start behind the table, at a position taken in sixteen bits. */
  function BodyAt(bytes: seq<Byte>, txLen: nat, offset: nat): seq<Byte> {
    DropTo(bytes, TablePos(txLen) + offset)
  }

  ghost predicate IsTx(bytes: seq<Byte>, txLen: nat, k: nat, tx: Tx) {
    && OffsetOf(bytes, k).Some? && GetTransactionFormat(bytes, k).Some?
    && var format := GetTransactionFormat(bytes, k).value;
    ReadTx(BodyAt(bytes, txLen, OffsetOf(bytes, k).value), format.inputs, format.outputs) == Some(tx)
  }

  ghost predicate AreTxs(bytes: seq<Byte>, txLen: nat, index: nat, txs: seq<Tx>) {
    index + |txs| == txLen && forall j {:trigger txs[j]} :: 0 <= j < |txs| ==> IsTx(bytes, txLen, index + j, txs[j])
  }

  lemma AreTxsMore(bytes: seq<Byte>, txLen: nat, index: nat, tx: Tx, rest: seq<Tx>)
    ensures AreTxs(bytes, txLen, index, [tx] + rest) <==> IsTx(bytes, txLen, index, tx) && AreTxs(bytes, txLen, index + 1, rest)
  {
    hide IsTx;
    var txs := [tx] + rest;
    if AreTxs(bytes, txLen, index, txs) {
      assert IsTx(bytes, txLen, index + 0, txs[0]);
      forall j | 0 <= j < |rest| ensures IsTx(bytes, txLen, index + 1 + j, rest[j]) {
        assert txs[j + 1] == rest[j];
      }
    }
  }

  lemma {:induction false} FromMeaning(bytes: seq<Byte>, txLen: nat, index: nat, offset: nat, txs: seq<Tx>)
    requires index <= txLen && OffsetOf(bytes, index) == Some(offset)
    ensures ReadFrom(bytes, txLen, index, offset) == Ok(txs) <==> AreTxs(bytes, txLen, index, txs)
    decreases txLen - index
  {
    hide GetTransactionFormat, ReadTx, TablePos, DropTo;
    if index < txLen {
      if txs != [] {
        AreTxsMore(bytes, txLen, index, txs[0], txs[1..]);
        assert [txs[0]] + txs[1..] == txs;
        var format := GetTransactionFormat(bytes, index);
        if format.Some? {
          FromMeaning(bytes, txLen, index + 1, offset + format.value.size, txs[1..]);
        }
      }
    }
  }

  /** Iterating gives a list exactly when every transaction of the table can be read where its body starts, in order. */
  lemma ReadAllIff(bytes: seq<Byte>, txs: seq<Tx>)
    ensures ReadAll(bytes) == Ok(txs) <==> |bytes| >= 2 && AreTxs(bytes, FromBigEndian(bytes[..2]), 0, txs)
  {
    hide ReadFrom, AreTxs, FromBigEndian;
    if |bytes| >= 2 {
      FromMeaning(bytes, FromBigEndian(bytes[..2]), 0, 0, txs);
    }
  }
}
