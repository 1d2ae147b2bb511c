/**
  Unsigned LEB128 numbers, section 7.6 of DWARF version 5, cut off after
  nineteen bytes so that a value always fits a 128-bit word.
 */
module Varints {
  import opened Wrappers
  import opened Sequences
  import opened Bytes

  datatype Error = Overlong | Overflow | Unterminated

  const MAX_LENGTH := 19

  // ------------------------------------------------------------ the encoding

  function SetHighBit(b: Byte): Byte {
    if b >= 128 then b else b + 128
  }

  /** Seven bits to a byte, lowest first; every byte but the last has its top bit set. */
  function Encode(n: nat): (bytes: seq<Byte>)
    ensures bytes != []
  {
    if n / 128 > 0 then [SetHighBit(n % 256)] + Encode(n / 128) else [n % 256]
  }

  method EncodeToVec(value: nat, v: seq<Byte>) returns (r: seq<Byte>)
    requires value < U128
    ensures r == v + Encode(value)
  {
    var n := value;
    r := v;
    while n / 128 > 0
      invariant r + Encode(n) == v + Encode(value)
    {
      r := r + [SetHighBit(n % 256)];
      n := n / 128;
    }
    r := r + [n % 256];
  }

  // ------------------------------------------------------------ the decoding

  function Power(k: nat): (p: nat)
    ensures p > 0
  {
    if k == 0 then 1 else 128 * Power(k - 1)
  }

  /** The number a run of bytes stands for, top bits ignored. */
  function Value(bytes: seq<Byte>): nat {
    if bytes == [] then 0 else bytes[0] % 128 + 128 * Value(bytes[1..])
  }

  /** The position of the first byte whose top bit is clear. */
  function Stop(bytes: seq<Byte>): (k: nat)
    ensures k <= |bytes|
    ensures k < |bytes| ==> bytes[k] < 128
    ensures forall i :: 0 <= i < k ==> bytes[i] >= 128
  {
    if bytes == [] || bytes[0] < 128 then 0
    else
      assert forall i :: 0 < i < |bytes| ==> bytes[i] == bytes[1..][i - 1];
      1 + Stop(bytes[1..])
  }

  /** A value and its length, or the reason why there is none. */
  function Decode(bytes: seq<Byte>): Result<(nat, nat), Error> {
    var k := Stop(bytes);
    if k >= 18 && |bytes| > 18 && bytes[18] % 128 >= 4 then Err(Overflow)
    else if k < |bytes| && k <= 18 then Ok((Value(bytes[..k + 1]), k + 1))
    else if k > 18 && |bytes| > 19 then Err(Overlong)
    else Err(Unterminated)
  }

  /** The accumulator has room below bit 7i, so the source's `or` is a sum; the shift drops what does not fit. */
  method DecodeBuffer(buffer: seq<Byte>) returns (r: Result<(nat, nat), Error>)
    ensures r == Decode(buffer)
  {
    var n := 0;
    var i := 0;
    assert buffer[..0] == [] && Value([]) < Power(0);
    hide Power, Value;
    while i < |buffer|
      invariant i <= |buffer| && i <= 19 && i <= Stop(buffer)
      invariant n == Value(buffer[..i]) < Power(i)
      invariant i > 18 ==> buffer[18] % 128 < 4
    {
      if i > 18 {
        return Err(Overlong);
      }
      var byte := buffer[i];
      var value := byte % 128;
      if i == 18 && value >= 4 {
        return Err(Overflow);
      }
      NextDigit(buffer, i);
      n := n + (value * Power(i)) % U128;
      if byte < 128 {
        assert Stop(buffer) == i;
        return Ok((n, i + 1));
      }
      StopAfter(buffer, i);
      i := i + 1;
    }
    r := Err(Unterminated);
  }

  lemma NextDigit(buffer: seq<Byte>, i: nat)
    requires i < |buffer| && i <= 18 && (i == 18 ==> buffer[i] % 128 < 4)
    ensures Value(buffer[..i]) + ((buffer[i] % 128) * Power(i)) % U128 == Value(buffer[..i + 1]) < Power(i + 1)
  {
    hide Power, Value;
    ShiftFits(buffer[i] % 128, i);
    ValueAppend(buffer[..i], buffer[i]);
    assert buffer[..i + 1] == buffer[..i] + [buffer[i]];
    ValueAppend(buffer[..i + 1], 0);
  }

  lemma StopAfter(buffer: seq<Byte>, i: nat)
    requires i <= Stop(buffer) && i < |buffer| && buffer[i] >= 128
    ensures i < Stop(buffer)
  {
  }

  lemma {:induction false} ValueAppend(bytes: seq<Byte>, b: Byte)
    ensures Value(bytes + [b]) == Value(bytes) + (b % 128) * Power(|bytes|)
    ensures Value(bytes) < Power(|bytes|)
  {
    if bytes == [] {
      assert [b][1..] == [];
    } else {
      ValueAppend(bytes[1..], b);
      assert (bytes + [b])[1..] == bytes[1..] + [b];
      var p := Power(|bytes| - 1);
      assert 128 * ((b % 128) * p) == (b % 128) * (128 * p);
    }
  }

  lemma TwoTo126()
    ensures Power(18) * 4 == U128
  {
    assert Power(6) == 0x400_0000_0000;
    assert Power(12) == 0x10_0000_0000_0000_0000_0000;
  }

  lemma {:induction false} PowerGrows(a: nat, b: nat)
    requires a <= b
    ensures Power(a) <= Power(b)
  {
    if a < b {
      PowerGrows(a, b - 1);
    }
  }

  /** No bit of a digit is shifted out, thanks to the check on the nineteenth byte. */
  lemma ShiftFits(value: nat, i: nat)
    requires value < 128 && i <= 18 && (i == 18 ==> value < 4)
    ensures (value * Power(i)) % U128 == value * Power(i)
  {
    hide Power;
    TwoTo126();
    if i < 18 {
      PowerGrows(i, 17);
      NextPower(17);
      MulMonotone(value, 127, Power(i), Power(17));
    } else {
      MulMonotone(value, 3, Power(18), Power(18));
    }
    SmallMod(value * Power(i));
  }

  lemma SmallMod(n: nat)
    requires n < U128
    ensures n % U128 == n
  {
  }

  lemma MulMonotone(a: nat, b: nat, x: nat, y: nat)
    requires a <= b && x <= y
    ensures a * x <= b * y
  {
    assert a * x <= b * x;
    assert b * x <= b * y;
  }

  // ------------------------------------------------------------- properties

  lemma LowDigit(n: nat)
    ensures SetHighBit(n % 256) % 128 == n % 128 && SetHighBit(n % 256) == n % 128 + 128
    ensures n / 128 == 0 ==> n % 256 == n < 128
  {
  }

  lemma {:induction false} EncodeValue(n: nat)
    ensures Value(Encode(n)) == n
    ensures Stop(Encode(n)) == |Encode(n)| - 1
  {
    LowDigit(n);
    if n / 128 > 0 {
      EncodeValue(n / 128);
      assert Encode(n)[1..] == Encode(n / 128);
    }
  }

  lemma {:induction false} EncodePower(n: nat)
    ensures n < Power(|Encode(n)|)
    ensures |Encode(n)| > 1 ==> Power(|Encode(n)| - 1) <= n
  {
    if n / 128 > 0 {
      EncodePower(n / 128);
      assert |Encode(n)| == 1 + |Encode(n / 128)|;
    }
  }

  /** Every 128-bit value takes at most nineteen bytes, the nineteenth below four. */
  lemma EncodeShort(n: nat)
    requires n < U128
    ensures |Encode(n)| <= MAX_LENGTH
    ensures |Encode(n)| == MAX_LENGTH ==> Encode(n)[18] < 4
  {
    hide Power, Encode, Value;
    var e := Encode(n);
    EncodeValue(n);
    EncodePower(n);
    TwoTo126();
    if |e| > 19 {
      PowerGrows(19, |e| - 1);
      NextPower(18);
      assert false;
    }
    if |e| == 19 {
      assert e == e[..18] + [e[18]];
      ValueAppend(e[..18], e[18]);
      if e[18] >= 4 {
        MulMonotone(4, e[18], Power(18), Power(18));
        assert false;
      }
    }
  }

  lemma NextPower(k: nat)
    ensures Power(k + 1) == 128 * Power(k)
  {
  }

  lemma {:induction false} StopAppend(a: seq<Byte>, b: seq<Byte>)
    requires Stop(a) < |a|
    ensures Stop(a + b) == Stop(a)
  {
    if a[0] >= 128 {
      StopAppend(a[1..], b);
      assert (a + b)[1..] == a[1..] + b;
    }
  }

  /** Decoding undoes encoding and tells exactly how long the encoding was, whatever follows it. */
  lemma DecodeEncode(n: nat, suffix: seq<Byte>)
    requires n < U128
    ensures Decode(Encode(n) + suffix) == Ok((n, |Encode(n)|))
  {
    hide Power, Encode, Value, Stop;
    var e := Encode(n);
    EncodeValue(n);
    EncodeShort(n);
    StopAppend(e, suffix);
    assert (e + suffix)[..|e|] == e;
  }

  /** What decodes is the exact value of at most nineteen bytes: no bit of it is lost. */
  lemma DecodeSound(bytes: seq<Byte>)
    requires Decode(bytes).Ok?
    ensures var (n, length) := Decode(bytes).value;
            && 0 < length <= |bytes| && length <= MAX_LENGTH
            && n == Value(bytes[..length]) < U128
            && (forall i :: 0 <= i < length - 1 ==> bytes[i] >= 128) && bytes[length - 1] < 128
  {
    hide Power, Value;
    var length := Decode(bytes).value.1;
    TwoTo126();
    var front := bytes[..length - 1];
    assert bytes[..length] == front + [bytes[length - 1]];
    ValueAppend(front, bytes[length - 1]);
    if length == 19 {
      MulMonotone(bytes[18], 3, Power(18), Power(18));
    } else {
      ValueAppend(bytes[..length], 0);
      PowerGrows(length, 18);
    }
  }

  lemma NineteenFit(bytes: seq<Byte>)
    requires |bytes| == MAX_LENGTH
    ensures Value(bytes) < U128 <==> bytes[18] % 128 < 4
  {
    hide Value, Power;
    TwoTo126();
    ValueAppend(bytes[..18], bytes[18]);
    assert bytes[..18] + [bytes[18]] == bytes;
  }

  lemma ShortFits(bytes: seq<Byte>)
    requires |bytes| < MAX_LENGTH
    ensures Value(bytes) < U128
  {
    hide Value, Power;
    TwoTo126();
    ValueAppend(bytes, 0);
    PowerGrows(|bytes|, 18);
  }

  /** A number is there exactly when a run of at most nineteen bytes ends and its value fits; otherwise the reason why not. */
  lemma DecodeIff(bytes: seq<Byte>)
    ensures var k := Stop(bytes);
      && (Decode(bytes).Ok? <==> k < |bytes| && k < MAX_LENGTH && Value(bytes[..k + 1]) < U128)
      && (Decode(bytes) == Err(Unterminated) <==> k == |bytes| <= MAX_LENGTH && Value(bytes) < U128)
      && (Decode(bytes) == Err(Overflow) <==> k >= 18 && |bytes| >= MAX_LENGTH && Value(bytes[..MAX_LENGTH]) >= U128)
      && (Decode(bytes) == Err(Overlong) <==> k >= MAX_LENGTH && |bytes| > MAX_LENGTH && Value(bytes[..MAX_LENGTH]) < U128)
  {
    hide Value;
    var k := Stop(bytes);
    if |bytes| >= MAX_LENGTH {
      NineteenFit(bytes[..MAX_LENGTH]);
      if k >= MAX_LENGTH && |bytes| == MAX_LENGTH {
        assert bytes[..MAX_LENGTH] == bytes;
      }
    } else {
      ShortFits(bytes);
    }
    if k < |bytes| && k < 18 {
      ShortFits(bytes[..k + 1]);
    }
  }

  lemma FrontDigit(b: Byte, rest: nat)
    requires b >= 128
    ensures (b % 128 + 128 * rest) / 128 == rest
    ensures SetHighBit((b % 128 + 128 * rest) % 256) == b
  {
    LowDigit(b % 128 + 128 * rest);
  }

  /** A decoded run is the encoding of its value exactly when it has no idle last byte. */
  lemma {:induction false} CanonicalIff(bytes: seq<Byte>)
    requires bytes != [] && Stop(bytes) == |bytes| - 1
    ensures Encode(Value(bytes)) == bytes <==> |bytes| == 1 || bytes[|bytes| - 1] != 0
  {
    hide SetHighBit;
    if |bytes| > 1 {
      var rest := bytes[1..];
      CanonicalIff(rest);
      ValuePositive(rest);
      FrontDigit(bytes[0], Value(rest));
      SameTail(bytes[0], rest, Encode(Value(rest)));
      assert bytes == [bytes[0]] + rest;
    } else {
      LowDigit(Value(bytes));
      assert Value(bytes) == bytes[0];
    }
  }

  lemma SameTail(b: Byte, x: seq<Byte>, y: seq<Byte>)
    ensures [b] + x == [b] + y <==> x == y
  {
    assert ([b] + x)[1..] == x && ([b] + y)[1..] == y;
  }

  lemma {:induction false} ValuePositive(bytes: seq<Byte>)
    requires bytes != [] && Stop(bytes) == |bytes| - 1
    ensures bytes[|bytes| - 1] != 0 ==> Value(bytes) > 0
  {
    if |bytes| > 1 {
      ValuePositive(bytes[1..]);
    }
  }

  // ----------------------------------------------------------- many numbers

  function EncodeAll(ns: seq<nat>): seq<Byte> {
    if ns == [] then [] else Encode(ns[0]) + EncodeAll(ns[1..])
  }

  /** A payload is read number by number; one bad number spoils it. */
  function Integers(payload: seq<Byte>): Result<seq<nat>, Error>
    decreases |payload|
  {
    if payload == [] then Ok([])
    else
      match Decode(payload)
      case Err(e) => Err(e)
      case Ok((n, length)) =>
        match Integers(payload[length..])
        case Err(e) => Err(e)
        case Ok(rest) => Ok([n] + rest)
  }

  /** One number: a run of at most nineteen bytes, all but the last marked, whose value fits. */
  ghost predicate IsRun(bytes: seq<Byte>, n: nat) {
    bytes != [] && |bytes| <= MAX_LENGTH && Stop(bytes) == |bytes| - 1 && Value(bytes) == n < U128
  }

  ghost predicate AreRuns(pieces: seq<seq<Byte>>, ns: seq<nat>) {
    |pieces| == |ns| && forall i :: 0 <= i < |ns| ==> IsRun(pieces[i], ns[i])
  }

  lemma DecodeRun(piece: seq<Byte>, n: nat, rest: seq<Byte>)
    requires IsRun(piece, n)
    ensures Decode(piece + rest) == Ok((n, |piece|))
  {
    hide Value, Stop;
    StopAppend(piece, rest);
    assert (piece + rest)[..|piece|] == piece;
    DecodeIff(piece + rest);
  }

  lemma RunDecoded(bytes: seq<Byte>)
    requires Decode(bytes).Ok?
    ensures var (n, length) := Decode(bytes).value; 0 < length <= |bytes| && IsRun(bytes[..length], n)
  {
    DecodeSound(bytes);
    hide Decode, Value;
    var length := Decode(bytes).value.1;
    var k := Stop(bytes[..length]);
    assert k == length - 1;
  }

  lemma {:induction false} IntegersOfRuns(pieces: seq<seq<Byte>>, ns: seq<nat>)
    requires AreRuns(pieces, ns)
    ensures Integers(Flatten(pieces)) == Ok(ns)
  {
    hide IsRun, Decode;
    if ns != [] {
      var rest := Flatten(pieces[1..]);
      DecodeRun(pieces[0], ns[0], rest);
      RunIsNotEmpty(pieces[0], ns[0]);
      assert (pieces[0] + rest)[|pieces[0]|..] == rest;
      IntegersOfRuns(pieces[1..], ns[1..]);
      assert [ns[0]] + ns[1..] == ns;
    }
  }

  lemma RunIsNotEmpty(piece: seq<Byte>, n: nat)
    requires IsRun(piece, n)
    ensures piece != []
  {
  }

  lemma {:induction false} RunsOfIntegers(payload: seq<Byte>) returns (pieces: seq<seq<Byte>>)
    requires Integers(payload).Ok?
    ensures Flatten(pieces) == payload && AreRuns(pieces, Integers(payload).value)
    decreases |payload|
  {
    hide IsRun, Decode;
    pieces := [];
    if payload != [] {
      RunDecoded(payload);
      var length := Decode(payload).value.1;
      var rest := RunsOfIntegers(payload[length..]);
      pieces := [payload[..length]] + rest;
      assert pieces[1..] == rest;
      assert payload[..length] + payload[length..] == payload;
    }
  }

  /** A payload is a list of numbers exactly when it is made of runs with these values. */
  lemma IntegersIff(payload: seq<Byte>, ns: seq<nat>)
    ensures Integers(payload) == Ok(ns) <==> exists pieces: seq<seq<Byte>> :: Flatten(pieces) == payload && AreRuns(pieces, ns)
  {
    hide Integers, AreRuns, Flatten;
    if Integers(payload) == Ok(ns) {
      var pieces := RunsOfIntegers(payload);
    }
    if pieces: seq<seq<Byte>> :| Flatten(pieces) == payload && AreRuns(pieces, ns) {
      IntegersOfRuns(pieces, ns);
    }
  }

  function After(front: seq<nat>, rest: Result<seq<nat>, Error>): Result<seq<nat>, Error> {
    if rest.Ok? then Ok(front + rest.value) else rest
  }

  lemma IntegersStep(payload: seq<Byte>, i: nat, front: seq<nat>)
    requires i < |payload|
    ensures match Decode(payload[i..])
            case Err(e) => Integers(payload[i..]) == Err(e)
            case Ok((n, length)) =>
              0 < length <= |payload| - i
              && After(front, Integers(payload[i..])) == After(front + [n], Integers(payload[i + length..]))
  {
    hide Decode;
    if Decode(payload[i..]).Ok? {
      DecodeSound(payload[i..]);
      var (n, length) := Decode(payload[i..]).value;
      assert payload[i..][length..] == payload[i + length..];
      var tail := Integers(payload[i + length..]);
      assert tail.Ok? ==> front + ([n] + tail.value) == front + [n] + tail.value;
    }
  }

  method ReadIntegers(payload: seq<Byte>) returns (r: Result<seq<nat>, Error>)
    ensures r == Integers(payload)
  {
    hide Decode;
    var integers: seq<nat> := [];
    var i := 0;
    assert payload[0..] == payload;
    assert forall x: seq<nat> :: [] + x == x;
    while i < |payload|
      invariant i <= |payload|
      invariant Integers(payload) == After(integers, Integers(payload[i..]))
    {
      IntegersStep(payload, i, integers);
      var decoded := DecodeBuffer(payload[i..]);
      if decoded.Err? {
        return Err(decoded.error);
      }
      var (integer, length) := decoded.value;
      integers := integers + [integer];
      i := i + length;
    }
    assert payload[i..] == [] && integers + [] == integers;
    r := Ok(integers);
  }

  lemma {:induction false} IntegersEncodeAll(ns: seq<nat>)
    requires forall i :: 0 <= i < |ns| ==> ns[i] < U128
    ensures Integers(EncodeAll(ns)) == Ok(ns)
  {
    if ns != [] {
      DecodeEncode(ns[0], EncodeAll(ns[1..]));
      IntegersEncodeAll(ns[1..]);
      assert EncodeAll(ns)[|Encode(ns[0])|..] == EncodeAll(ns[1..]);
      assert [ns[0]] + ns[1..] == ns;
    }
  }

  lemma {:induction false} EncodeAllAppend(a: seq<nat>, b: seq<nat>)
    ensures EncodeAll(a + b) == EncodeAll(a) + EncodeAll(b)
  {
    hide Encode;
    if a == [] {
      assert a + b == b;
    } else {
      EncodeAllAppend(a[1..], b);
      assert (a + b)[1..] == a[1..] + b;
      Assoc(Encode(a[0]), EncodeAll(a[1..]), EncodeAll(b));
    }
  }
}
