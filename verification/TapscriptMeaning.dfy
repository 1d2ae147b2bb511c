/** Where a reveal script holds envelopes: the attempts at one, what they collect, and when one stuttered. */
module TapscriptMeaning {
  import opened Wrappers
  import opened Bytes
  import opened Scripts
  import opened Inscriptions
  import opened Envelopes

  /** Pushes of data, and the opcodes that push the numbers -1 and 1 to 16. */
  predicate IsValue(i: Instruction) {
    i.Push? || i.code == 0x4f || 0x51 <= i.code <= 0x60
  }

  function ValueOf(i: Instruction): seq<Byte>
    requires IsValue(i)
  {
    if i.Push? then i.data else if i.code == 0x4f then [0x81] else [i.code - 0x50]
  }

  function ValuesOf(items: seq<Instruction>): seq<seq<Byte>>
    requires forall j :: 0 <= j < |items| ==> IsValue(items[j])
  {
    seq(|items|, j requires 0 <= j < |items| => ValueOf(items[j]))
  }

  /**
    With k values at the front: they are the payload if the end of the envelope
    comes next, with a mark if any was a number; any other opcode ends the
    attempt behind it, and so does the end of the script, unless it breaks off.
   */
  lemma {:induction false} CollectMeaning(items: seq<Instruction>, broken: bool, k: nat)
    requires k <= |items| && (forall j :: 0 <= j < k ==> IsValue(items[j])) && (k < |items| ==> !IsValue(items[k]))
    ensures CollectPushes(items, broken) ==
      if k == |items| then if broken then Failed else NotOne([])
      else if items[k] == Op(0x68) then
        Collected.Payload(items[k + 1..], ValuesOf(items[..k]), exists j :: 0 <= j < k && items[j].Op?)
      else NotOne(items[k + 1..])
  {
    if k > 0 {
      CollectMeaning(items[1..], broken, k - 1);
      hide CollectPushes;
      CollectOne(items, broken);
      assert forall j :: 0 < j < k ==> items[1..][j - 1] == items[j];
      if k < |items| {
        assert items[1..][k..] == items[k + 1..];
        assert [ValueOf(items[0])] + ValuesOf(items[1..][..k - 1]) == ValuesOf(items[..k]);
      }
    }
  }

  lemma CollectOne(items: seq<Instruction>, broken: bool)
    requires items != [] && IsValue(items[0])
    ensures CollectPushes(items, broken) == WithPush(ValueOf(items[0]), items[0].Op?, CollectPushes(items[1..], broken))
  {
  }

  /** Nothing happens before the first empty push. */
  lemma {:induction false} SkipsTo(junk: seq<Instruction>, items: seq<Instruction>, broken: bool, input: nat, offset: nat, stuttered: bool)
    requires Push([]) !in junk
    ensures FromTapscript(junk + items, broken, input, offset, stuttered) == FromTapscript(items, broken, input, offset, stuttered)
    decreases |junk|
  {
    hide FromInstructions;
    if junk == [] {
      assert junk + items == items;
    } else {
      assert (junk + items)[1..] == junk[1..] + items;
      assert (junk + items)[0] == junk[0];
      assert forall x :: x in junk[1..] ==> x in junk;
      SkipsTo(junk[1..], items, broken, input, offset, stuttered);
    }
  }

  function Empties(n: nat): seq<Instruction> {
    if n == 0 then [] else [Push([])] + Empties(n - 1)
  }

  /** What is found in the envelope `[OP_IF, "ord"] + inside`, when it is one. */
  ghost predicate Holds(inside: seq<Instruction>, broken: bool, rest: seq<Instruction>, pushes: seq<seq<Byte>>, pushnum: bool) {
    CollectPushes(inside, broken) == Collected.Payload(rest, pushes, pushnum)
  }

  function GoesOn(found: Found, broken: bool, input: nat, offset: nat, stuttered: bool): Result<seq<RawEnvelope>, Error> {
    match found
    case Lost => Err(BrokenScript)
    case Nothing(rest, stutter) => FromTapscript(rest, broken, input, offset, stutter)
    case An(rest, pushes, pushnum) =>
      Prepend(Envelope(input, offset, pushes, pushnum, stuttered), FromTapscript(rest, broken, input, offset + 1, stuttered))
  }

  lemma OneAttempt(items: seq<Instruction>, broken: bool, input: nat, offset: nat, stuttered: bool)
    ensures FromTapscript([Push([])] + items, broken, input, offset, stuttered)
         == GoesOn(FromInstructions(items, broken), broken, input, offset, stuttered)
  {
    hide FromInstructions;
    assert ([Push([])] + items)[1..] == items;
  }

  /** An envelope behind a row of empty pushes has stuttered when there is more than one of them. */
  lemma {:induction false} StuttersIff(n: nat, inside: seq<Instruction>, broken: bool, input: nat, offset: nat, stuttered: bool,
                                       rest: seq<Instruction>, pushes: seq<seq<Byte>>, pushnum: bool)
    requires n > 0 && Holds(inside, broken, rest, pushes, pushnum)
    ensures var stutter := n > 1 || stuttered;
      FromTapscript(Empties(n) + ([Op(OP_IF), Push(PROTOCOL_ID)] + inside), broken, input, offset, stuttered)
      == Prepend(Envelope(input, offset, pushes, pushnum, stutter), FromTapscript(rest, broken, input, offset + 1, stutter))
  {
    var envelope := [Op(OP_IF), Push(PROTOCOL_ID)] + inside;
    hide FromTapscript, CollectPushes;
    var items := Empties(n - 1) + envelope;
    OneAttempt(items, broken, input, offset, stuttered);
    assert Empties(n) + envelope == [Push([])] + items;
    if n == 1 {
      assert items == envelope;
      assert envelope[2..] == inside;
    } else {
      assert items[0] == Push([]);
      StuttersIff(n - 1, inside, broken, input, offset, true, rest, pushes, pushnum);
    }
  }

  /**
    Attempts that fail: without the marker behind OP_IF the search goes on there,
    stuttering if the next push is empty; at an opcode or the end inside, it
    goes on behind it, not stuttering; in a script that breaks off all is lost.
   */
  lemma AttemptFails(items: seq<Instruction>, broken: bool, input: nat, offset: nat, stuttered: bool)
    requires items == [] || items[0] != Push([])
    ensures items == [] || items[0] != Op(OP_IF) ==>
              FromTapscript([Push([])] + items, broken, input, offset, stuttered) == FromTapscript(items, broken, input, offset, false)
    ensures items != [] && items[0] == Op(OP_IF) && (|items| == 1 || items[1] != Push(PROTOCOL_ID)) ==>
              FromTapscript([Push([])] + items, broken, input, offset, stuttered)
              == FromTapscript(items[1..], broken, input, offset, |items| > 1 && items[1] == Push([]))
    ensures |items| > 1 && items[0] == Op(OP_IF) && items[1] == Push(PROTOCOL_ID) ==>
              && (CollectPushes(items[2..], broken).Failed? ==>
                    FromTapscript([Push([])] + items, broken, input, offset, stuttered) == Err(BrokenScript))
              && (CollectPushes(items[2..], broken).NotOne? ==>
                    FromTapscript([Push([])] + items, broken, input, offset, stuttered)
                    == FromTapscript(CollectPushes(items[2..], broken).rest, broken, input, offset, false))
  {
    hide FromTapscript, CollectPushes;
    OneAttempt(items, broken, input, offset, stuttered);
  }

  /** Without an empty push there is no envelope; what breaks off is an error. */
  lemma NoneLeft(items: seq<Instruction>, broken: bool, input: nat, offset: nat, stuttered: bool)
    requires Push([]) !in items
    ensures FromTapscript(items, broken, input, offset, stuttered) == if broken then Err(BrokenScript) else Ok([])
  {
    SkipsTo(items, [], broken, input, offset, stuttered);
    assert items + [] == items;
  }
}
