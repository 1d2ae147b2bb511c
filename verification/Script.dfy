/** Scripts: data pushes and opcodes, printed to bytes and read back. */
module Scripts {
  import opened Wrappers
  import opened Sequences
  import opened Bytes

  const OP_PUSHDATA1: Byte := 0x4c
  const OP_PUSHDATA2: Byte := 0x4d
  const OP_PUSHDATA4: Byte := 0x4e
  const OP_PUSHNUM_NEG1: Byte := 0x4f
  const OP_PUSHNUM_1: Byte := 0x51
  const OP_PUSHNUM_13: Byte := 0x5d
  const OP_PUSHNUM_16: Byte := 0x60
  const OP_IF: Byte := 0x63
  const OP_ENDIF: Byte := 0x68
  const OP_RETURN: Byte := 0x6a

  datatype Instruction = Op(code: Byte) | Push(data: seq<Byte>)

  /** The instructions up to the end of a script, or up to where it breaks off. */
  datatype Script = Script(instructions: seq<Instruction>, broken: bool)

  // -------------------------------------------------------------- printing

  function PushSlice(data: seq<Byte>): seq<Byte>
    requires |data| < U32
  {
    var n := |data|;
    if n < 0x4c then [n] + data
    else if n < U8 then [OP_PUSHDATA1, n] + data
    else if n < U16 then [OP_PUSHDATA2, n % 256, n / 256] + data
    else [OP_PUSHDATA4, n % 256, n / 256 % 256, n / U16 % 256, n / 0x100_0000] + data
  }

  predicate Printable(i: Instruction) {
    match i
    case Op(code) => code > OP_PUSHDATA4
    case Push(data) => |data| < U32
  }

  function Print(i: Instruction): seq<Byte>
    requires Printable(i)
  {
    match i
    case Op(code) => [code]
    case Push(data) => PushSlice(data)
  }

  function PrintAll(items: seq<Instruction>): seq<Byte>
    requires forall k :: 0 <= k < |items| ==> Printable(items[k])
  {
    if items == [] then [] else Print(items[0]) + PrintAll(items[1..])
  }

  // --------------------------------------------------------------- reading

  /** How many bytes announce a push, and how many it pushes; None for an opcode. */
  datatype Header = NotAPush | Cut | Announces(width: nat, length: nat)

  function LittleEndian(a: nat, b: nat, c: nat, d: nat): nat {
    a + 0x100 * b + 0x1_0000 * c + 0x100_0000 * d
  }

  function ReadHeader(bytes: seq<Byte>): Header
    requires bytes != []
  {
    var b := bytes[0];
    if b < 0x4c then Announces(1, b)
    else if b == OP_PUSHDATA1 then if |bytes| < 2 then Cut else Announces(2, bytes[1])
    else if b == OP_PUSHDATA2 then if |bytes| < 3 then Cut else Announces(3, LittleEndian(bytes[1], bytes[2], 0, 0))
    else if b == OP_PUSHDATA4 then
      if |bytes| < 5 then Cut else Announces(5, LittleEndian(bytes[1], bytes[2], bytes[3], bytes[4]))
    else NotAPush
  }

  /** The first instruction of a script and what follows it. */
  function ReadOne(bytes: seq<Byte>): (r: Option<(Instruction, seq<Byte>)>)
    requires bytes != []
    ensures r.Some? ==> |r.value.1| < |bytes|
  {
    match ReadHeader(bytes)
    case NotAPush => Some((Op(bytes[0]), bytes[1..]))
    case Cut => None
    case Announces(width, length) =>
      if width + length > |bytes| then None
      else Some((Push(bytes[width..width + length]), bytes[width + length..]))
  }

  function ReadScript(bytes: seq<Byte>): Script
    decreases |bytes|
  {
    if bytes == [] then Script([], false)
    else
      match ReadOne(bytes)
      case None => Script([], true)
      case Some((i, rest)) =>
        var s := ReadScript(rest);
        Script([i] + s.instructions, s.broken)
  }

  // ------------------------------------------------------------ round trip

  /** How many bytes announce a push of the given length. */
  function HeaderWidth(n: nat): nat {
    if n < 0x4c then 1 else if n < U8 then 2 else if n < U16 then 3 else 5
  }

  lemma FourBytes(n: nat)
    requires n < U32
    ensures LittleEndian(n % 256, n / 256 % 256, n / U16 % 256, n / 0x100_0000) == n
  {
    assert n / 256 / 256 == n / U16 && n / U16 / 256 == n / 0x100_0000;
  }

  lemma PushWidth(data: seq<Byte>)
    requires |data| < U32
    ensures |PushSlice(data)| == HeaderWidth(|data|) + |data| && PushSlice(data)[HeaderWidth(|data|)..] == data
  {
  }

  lemma HeaderOfPush(data: seq<Byte>, rest: seq<Byte>)
    requires |data| < U32
    ensures PushSlice(data) + rest != []
    ensures ReadHeader(PushSlice(data) + rest) == Announces(|PushSlice(data)| - |data|, |data|)
    ensures |data| <= |PushSlice(data)| && PushSlice(data)[|PushSlice(data)| - |data|..] == data
  {
    PushWidth(data);
    FourBytes(|data|);
  }

  lemma ReadPush(data: seq<Byte>, rest: seq<Byte>)
    requires |data| < U32
    ensures PushSlice(data) + rest != []
    ensures ReadOne(PushSlice(data) + rest) == Some((Push(data), rest))
  {
    hide PushSlice, ReadHeader;
    HeaderOfPush(data, rest);
    var p := PushSlice(data);
    assert (p + rest)[|p| - |data|..|p|] == p[|p| - |data|..];
    assert (p + rest)[|p|..] == rest;
  }

  lemma ReadPrinted(i: Instruction, rest: seq<Byte>)
    requires Printable(i)
    ensures Print(i) + rest != [] && ReadOne(Print(i) + rest) == Some((i, rest))
  {
    if i.Push? {
      ReadPush(i.data, rest);
    } else {
      assert ([i.code] + rest)[1..] == rest;
    }
  }

  lemma ReadMore(i: Instruction, rest: seq<Byte>)
    requires Printable(i)
    ensures ReadScript(Print(i) + rest) == Script([i] + ReadScript(rest).instructions, ReadScript(rest).broken)
  {
    hide ReadOne, Print;
    ReadPrinted(i, rest);
  }

  /** Reading a printed script gives its instructions back, followed by whatever came after. */
  lemma {:induction false} ReadPrintAll(items: seq<Instruction>, rest: seq<Byte>)
    requires forall k :: 0 <= k < |items| ==> Printable(items[k])
    ensures ReadScript(PrintAll(items) + rest) == Script(items + ReadScript(rest).instructions, ReadScript(rest).broken)
  {
    hide ReadScript, Print, Printable;
    var after := ReadScript(rest).instructions;
    if items == [] {
      assert PrintAll(items) + rest == rest;
      assert items + after == after;
    } else {
      var tail := PrintAll(items[1..]) + rest;
      ReadMore(items[0], tail);
      ReadPrintAll(items[1..], rest);
      assert PrintAll(items) + rest == Print(items[0]) + tail;
      assert [items[0]] + (items[1..] + after) == items + after;
    }
  }

  lemma ReadPrintedScript(items: seq<Instruction>)
    requires forall k :: 0 <= k < |items| ==> Printable(items[k])
    ensures ReadScript(PrintAll(items)) == Script(items, false)
  {
    ReadPrintAll(items, []);
    assert PrintAll(items) + [] == PrintAll(items);
  }

  // ------------------------------------------------------------ any script

  /** The bytes that announce a push of n bytes in one, two, three or five bytes, shortest or not. */
  function Announcement(width: nat, n: nat): seq<Byte> {
    if width == 1 then if n < 0x4c then [n] else []
    else if width == 2 then [OP_PUSHDATA1, n % 256]
    else if width == 3 then [OP_PUSHDATA2, n % 256, n / 256 % 256]
    else [OP_PUSHDATA4, n % 256, n / 256 % 256, n / U16 % 256, n / 0x100_0000 % 256]
  }

  predicate CanAnnounce(width: nat, n: nat) {
    (width == 1 && n < 0x4c) || (width == 2 && n < U8) || (width == 3 && n < U16) || (width == 5 && n < U32)
  }

  lemma AnnouncementRead(width: nat, n: nat, rest: seq<Byte>)
    requires CanAnnounce(width, n)
    ensures |Announcement(width, n)| == width && Announcement(width, n) + rest != []
    ensures ReadHeader(Announcement(width, n) + rest) == Announces(width, n)
  {
    hide LittleEndian;
    var bytes := Announcement(width, n) + rest;
    assert forall k :: 0 <= k < width ==> bytes[k] == Announcement(width, n)[k];
    if width == 3 {
      TwoDigits(n);
    } else if width == 5 {
      FourBytes(n);
    }
  }

  lemma TwoDigits(n: nat)
    requires n < U16
    ensures LittleEndian(n % 256, n / 256 % 256, 0, 0) == n
  {
  }

  lemma FourDigits(a: Byte, b: Byte, c: Byte, d: Byte)
    ensures var n := LittleEndian(a, b, c, d); n % 256 == a && n / 256 % 256 == b && n / U16 % 256 == c && n / 0x100_0000 == d
  {
    var n := LittleEndian(a, b, c, d);
    var m := b + 256 * (c + 256 * d);
    assert n == a + 256 * m;
    OneDigit(a, m);
    OneDigit(b, c + 256 * d);
    OneDigit(c, d);
    assert n / 256 / 256 == n / U16 && n / U16 / 256 == n / 0x100_0000;
  }

  lemma OneDigit(a: Byte, m: nat)
    ensures (a + 256 * m) % 256 == a && (a + 256 * m) / 256 == m
  {
  }

  lemma AnnouncementWritten(bytes: seq<Byte>)
    requires bytes != [] && ReadHeader(bytes).Announces?
    ensures var h := ReadHeader(bytes);
      CanAnnounce(h.width, h.length) && |Announcement(h.width, h.length)| == h.width <= |bytes|
      && bytes[..h.width] == Announcement(h.width, h.length)
  {
    if bytes[0] == OP_PUSHDATA2 {
      FourDigits(bytes[1], bytes[2], 0, 0);
    } else if bytes[0] == OP_PUSHDATA4 {
      FourDigits(bytes[1], bytes[2], bytes[3], bytes[4]);
    }
  }

  /** A script starts with a push exactly when the announcement of its data, in any width, and the data stand there. */
  lemma ReadPushIff(bytes: seq<Byte>, data: seq<Byte>, rest: seq<Byte>)
    requires bytes != []
    ensures ReadOne(bytes) == Some((Push(data), rest))
       <==> exists width: nat :: CanAnnounce(width, |data|) && bytes == Announcement(width, |data|) + (data + rest)
  {
    hide ReadHeader, Announcement, CanAnnounce;
    if ReadOne(bytes) == Some((Push(data), rest)) {
      var width := ReadHeader(bytes).width;
      AnnouncementWritten(bytes);
      assert |data| == ReadHeader(bytes).length;
      assert bytes == bytes[..width] + (data + rest);
    }
    if width: nat :| CanAnnounce(width, |data|) && bytes == Announcement(width, |data|) + (data + rest) {
      AnnouncementRead(width, |data|, data + rest);
      assert bytes[width..width + |data|] == data && bytes[width + |data|..] == rest;
    }
  }

  /** Any other first byte above the announcements is an opcode; nothing is read where a push is cut short. */
  lemma ReadOpIff(bytes: seq<Byte>, code: Byte, rest: seq<Byte>)
    requires bytes != []
    ensures ReadOne(bytes) == Some((Op(code), rest)) <==> code > 0x4e && bytes == [code] + rest
    ensures ReadOne(bytes) == None ==> bytes[0] <= 0x4e
  {
    if ReadOne(bytes) == Some((Op(code), rest)) {
      assert bytes == [bytes[0]] + bytes[1..];
    }
  }

  // ---------------------------------------------------------------- chunks

  /** A sequence cut into pieces of a given size; the last may be shorter. */
  function Chunks<T>(s: seq<T>, size: nat): seq<seq<T>>
    requires size > 0
    decreases |s|
  {
    if s == [] then []
    else if |s| <= size then [s]
    else [s[..size]] + Chunks(s[size..], size)
  }

  lemma {:induction false} FlattenChunks<T>(s: seq<T>, size: nat)
    requires size > 0
    ensures Flatten(Chunks(s, size)) == s
    ensures forall k :: 0 <= k < |Chunks(s, size)| ==> 0 < |Chunks(s, size)[k]| <= size
    ensures |Chunks(s, size)| > 1 <==> |s| > size
    ensures forall k :: 0 <= k < |Chunks(s, size)| - 1 ==> |Chunks(s, size)[k]| == size
    decreases |s|
  {
    if |s| > size {
      FlattenChunks(s[size..], size);
      assert Chunks(s, size)[1..] == Chunks(s[size..], size);
      assert s == s[..size] + s[size..];
    }
  }
}
