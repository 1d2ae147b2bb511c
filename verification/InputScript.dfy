/** What is found in any input script: the marker, the payload behind it, and the inscription in it. */
module InputScripts {
  import opened Wrappers
  import opened Bytes
  import opened Scripts
  import opened Inscriptions
  import opened Envelopes
  import opened EnvelopeProperties

  // ------------------------------------------------------------ data pushes

  /** The pushes stand at the given ascending positions, and there are no others. */
  ghost predicate PushesAt(items: seq<Instruction>, pushes: seq<seq<Byte>>, at: seq<nat>) {
    && |at| == |pushes|
    && (forall i, j :: 0 <= i < j < |at| ==> at[i] < at[j])
    && (forall i :: 0 <= i < |at| ==> at[i] < |items| && items[at[i]] == Push(pushes[i]))
    && (forall k :: 0 <= k < |items| && items[k].Push? ==> k in at)
  }

  lemma OneMoreAt(items: seq<Instruction>, pushes: seq<seq<Byte>>, front: seq<nat>, last: Instruction) returns (at: seq<nat>)
    requires PushesAt(items, pushes, front)
    ensures PushesAt(items + [last], pushes + if last.Push? then [last.data] else [], at)
  {
    at := front;
    if last.Push? {
      at := front + [|items|];
    } else {
      assert pushes + [] == pushes;
    }
    forall k | 0 <= k < |items + [last]| && (items + [last])[k].Push? ensures k in at {
      if k < |items| {
        assert k in front;
      } else {
        assert at[|front|] == k;
      }
    }
  }

  /** The data pushes are the data of all pushes of the script in order, opcodes left out. */
  lemma {:induction false} DataPushesMeaning(items: seq<Instruction>) returns (at: seq<nat>)
    ensures PushesAt(items, DataPushes(items), at)
  {
    if items == [] {
      at := [];
    } else {
      hide DataPushes, PushesAt;
      var n := |items| - 1;
      assert items == items[..n] + [items[n]];
      var front := DataPushesMeaning(items[..n]);
      DataPushesLast(items[..n], items[n]);
      at := OneMoreAt(items[..n], DataPushes(items[..n]), front, items[n]);
    }
  }

  lemma {:induction false} DataPushesLast(items: seq<Instruction>, last: Instruction)
    ensures DataPushes(items + [last]) == DataPushes(items) + if last.Push? then [last.data] else []
  {
    if items == [] {
      assert [last][1..] == [];
    } else {
      DataPushesLast(items[1..], last);
      assert (items + [last])[1..] == items[1..] + [last];
    }
  }

  // ------------------------------------------------- the payload of a script

  /** A wallet's single piece: one piece of some content type, no chunk number, and at least two pushes more. */
  predicate WalletShaped(payload: seq<seq<Byte>>) {
    |payload| >= 5 && payload[0] == [1, 0] && payload[2] == []
  }

  lemma {:induction false} NoMarker(pushes: seq<seq<Byte>>)
    ensures AfterMarker(pushes) == None <==> PROTOCOL_ID !in pushes
  {
    if pushes != [] {
      NoMarker(pushes[1..]);
      assert pushes == [pushes[0]] + pushes[1..];
    }
  }

  lemma {:induction false} FirstMarker(before: seq<seq<Byte>>, payload: seq<seq<Byte>>)
    requires PROTOCOL_ID !in before
    ensures AfterMarker(before + [PROTOCOL_ID] + payload) == Some(PayloadFromPushes(payload))
  {
    hide PayloadFromPushes;
    var pushes := before + [PROTOCOL_ID] + payload;
    if before == [] {
      assert pushes[1..] == payload;
    } else {
      FirstMarker(before[1..], payload);
      assert pushes[1..] == before[1..] + [PROTOCOL_ID] + payload;
      assert pushes[0] == before[0];
    }
  }

  /**
    Every script: without a push of the marker it has no payload; behind the
    first marker the pushes are the payload as they are, unless they have the
    wallet's shape, which is rewritten as a content type and a body.
   */
  lemma PayloadMeaning(script: seq<Byte>, before: seq<seq<Byte>>, payload: seq<seq<Byte>>)
    ensures ScriptPayload(script) == None <==> PROTOCOL_ID !in DataPushes(ReadScript(script).instructions)
    ensures DataPushes(ReadScript(script).instructions) == before + [PROTOCOL_ID] + payload && PROTOCOL_ID !in before ==>
              ScriptPayload(script) == Some(if WalletShaped(payload) then [[1], payload[1], [], payload[3]] else payload)
  {
    hide AfterMarker, DataPushes, ReadScript;
    NoMarker(DataPushes(ReadScript(script).instructions));
    if PROTOCOL_ID !in before {
      FirstMarker(before, payload);
    }
  }

  // ------------------------------------------------- inscriptions in scripts

  /** The pushes of an inscription start with a tag of one byte or with the empty push of the body. */
  lemma NotWalletShaped(i: Inscription)
    ensures !WalletShaped(PayloadOf(i))
  {
    hide Pieces, Chunks;
    if PayloadOf(i) != [] {
      FirstPush(i);
    }
  }

  lemma Starts(tag: Tag, values: seq<seq<Byte>>, rest: seq<seq<Byte>>)
    ensures var all := Tagged(tag, values) + rest;
      all != [] ==> all[0] == tag.Bytes() || (rest != [] && all[0] == rest[0])
  {
  }

  lemma FirstPush(i: Inscription)
    requires PayloadOf(i) != []
    ensures |PayloadOf(i)[0]| <= 1
  {
    hide Tagged, Pieces, Chunks;
    var b9 := BodyPushes(i.body);
    var b8 := Tagged(Dune, Pieces(Dune, i.dune)) + b9;
    var b7 := Tagged(Metadata, Pieces(Metadata, i.metadata)) + b8;
    var b6 := Tagged(Pointer, Pieces(Pointer, i.pointer)) + b7;
    var b5 := Tagged(Delegate, Pieces(Delegate, i.delegate)) + b6;
    var b4 := Tagged(Parent, i.parents) + b5;
    var b3 := Tagged(Metaprotocol, Pieces(Metaprotocol, i.metaprotocol)) + b4;
    var b2 := Tagged(ContentEncoding, Pieces(ContentEncoding, i.contentEncoding)) + b3;
    Starts(Dune, Pieces(Dune, i.dune), b9);
    Starts(Metadata, Pieces(Metadata, i.metadata), b8);
    Starts(Pointer, Pieces(Pointer, i.pointer), b7);
    Starts(Delegate, Pieces(Delegate, i.delegate), b6);
    Starts(Parent, i.parents, b5);
    Starts(Metaprotocol, Pieces(Metaprotocol, i.metaprotocol), b4);
    Starts(ContentEncoding, Pieces(ContentEncoding, i.contentEncoding), b3);
    Starts(ContentType, Pieces(ContentType, i.contentType), b2);
  }

  /**
    An inscription pushed behind the first marker of a transaction's first
    script, with any opcodes between, is the one found in that transaction.
   */
  lemma InscriptionFound(i: Inscription, items: seq<Instruction>, before: seq<seq<Byte>>, others: seq<seq<Byte>>)
    requires forall k :: 0 <= k < |items| ==> Printable(items[k])
    requires DataPushes(items) == before + [PROTOCOL_ID] + PayloadOf(i) && PROTOCOL_ID !in before
    ensures var es := FromTransactions([[PrintAll(items)] + others], 0);
      |es| == 1 && Parse(es[0]) == Envelope(0, 0, Reparsed(i), false, false)
  {
    hide PayloadOf, ParsePayload, Reparsed, DataPushes, ReadScript, PrintAll, ScriptPayload, Printable, WalletShaped;
    var script := PrintAll(items);
    ReadPrintedScript(items);
    PayloadMeaning(script, before, PayloadOf(i));
    NotWalletShaped(i);
    ParsePrinted(i);
    var txs: seq<Inputs> := [[script] + others];
    assert txs[1..] == [] && FromTransactions(txs[1..], 1) == [];
    assert FromTransactions(txs, 0) == [Envelope(0, 0, PayloadOf(i), false, false)];
  }
}
