/** Names with spacers: one bit for each gap between letters, printed as bullets. */
module SpacedDunes {
  import opened Wrappers
  import opened Bytes
  import Dunes

  datatype SpacedDune = SpacedDune(dune: nat, spacers: nat)

  datatype Error = LeadingSpacer | TrailingSpacer | DoubleSpacer | Character(c: char) | Dune(error: Dunes.Error)

  const BULLET: char := '\U{2022}'

  predicate IsSpacer(c: char) {
    c == '.' || c == BULLET
  }

  // ------------------------------------------------------------------ bits

  function Power(k: nat): (p: nat)
    ensures p > 0
  {
    if k == 0 then 1 else 2 * Power(k - 1)
  }

  predicate Bit(n: nat, k: nat) {
    n / Power(k) % 2 == 1
  }

  /** The number of bits below and including the highest one that is set. */
  function BitLength(n: nat): nat {
    if n == 0 then 0 else 1 + BitLength(n / 2)
  }

  // --------------------------------------------------------------- parsing

  datatype Scanned = Scanned(letters: string, spacers: nat)

  /** One character more; the shift that selects a gap is taken modulo 32. */
  function ScanChar(s: Scanned, c: char): Result<Scanned, Error> {
    if Dunes.IsLetter(c) then Ok(s.(letters := s.letters + [c]))
    else if IsSpacer(c) then
      if s.letters == [] then Err(LeadingSpacer)
      else
        var k := (|s.letters| - 1) % 32;
        if Bit(s.spacers, k) then Err(DoubleSpacer) else Ok(s.(spacers := s.spacers + Power(k)))
    else Err(Character(c))
  }

  function Scan(s: string): Result<Scanned, Error> {
    if s == [] then Ok(Scanned([], 0))
    else
      match Scan(s[..|s| - 1])
      case Err(e) => Err(e)
      case Ok(scanned) => ScanChar(scanned, s[|s| - 1])
  }

  function Finish(scanned: Scanned): Result<SpacedDune, Error> {
    if BitLength(scanned.spacers) >= |scanned.letters| then Err(TrailingSpacer)
    else
      match Dunes.Parse(scanned.letters)
      case Err(e) => Err(Dune(e))
      case Ok(dune) => Ok(SpacedDune(dune, scanned.spacers))
  }

  function Parse(s: string): Result<SpacedDune, Error> {
    match Scan(s)
    case Err(e) => Err(e)
    case Ok(scanned) => Finish(scanned)
  }

  method FromStr(s: string) returns (r: Result<SpacedDune, Error>)
    ensures r == Parse(s)
  {
    var scanned := Scanned([], 0);
    for i := 0 to |s|
      invariant Scan(s[..i]) == Ok(scanned)
    {
      assert s[..i + 1][..i] == s[..i];
      var next := ScanChar(scanned, s[i]);
      if next.Err? {
        PrefixFails(s, i + 1);
        return Err(next.error);
      }
      scanned := next.value;
    }
    assert s[..|s|] == s;
    if BitLength(scanned.spacers) >= |scanned.letters| { return Err(TrailingSpacer); }
    var dune := Dunes.FromStr(scanned.letters);
    return if dune.Err? then Err(Dune(dune.error)) else Ok(SpacedDune(dune.value, scanned.spacers));
  }

  /** A failure on a prefix is the result for the whole. */
  lemma {:induction false} PrefixFails(s: string, n: nat)
    requires n <= |s| && Scan(s[..n]).Err?
    ensures Scan(s) == Scan(s[..n])
    decreases |s| - n
  {
    if n == |s| {
      assert s[..n] == s;
    } else {
      assert s[..n + 1][..n] == s[..n];
      PrefixFails(s, n + 1);
    }
  }

  // -------------------------------------------------------------- printing

  /** The first `n` letters of a name, each followed by its bullet. */
  function Shown(name: string, spacers: nat, n: nat): string
    requires n <= |name|
  {
    if n == 0 then []
    else
      Shown(name, spacers, n - 1) + [name[n - 1]]
      + (if n - 1 < |name| - 1 && Bit(spacers, n - 1) then [BULLET] else [])
  }

  function Print(d: SpacedDune): string
    requires d.dune < U128
  {
    var name := Dunes.Print(d.dune);
    Shown(name, d.spacers, |name|)
  }

  method Display(d: SpacedDune) returns (s: string)
    requires d.dune < U128
    ensures s == Print(d)
  {
    var name := Dunes.Display(d.dune);
    s := "";
    for i := 0 to |name|
      invariant s == Shown(name, d.spacers, i)
    {
      s := s + [name[i]];
      if i < |name| - 1 && Bit(d.spacers, i) {
        s := s + [BULLET];
      }
    }
  }

  // ------------------------------------------------------------ arithmetic

  lemma Distribute(a: nat, h: nat, b: nat)
    ensures a * (2 * h + b) == 2 * a * h + a * b
  {
  }

  lemma Quotient(n: nat, d: nat, q: nat, r: nat)
    requires n == d * q + r && r < d
    ensures n / d == q && n % d == r
  {
    var k := n / d;
    assert n == d * k + n % d;
    if k < q { Apart(d, k, q); } else if q < k { Apart(d, q, k); }
  }

  lemma Apart(d: nat, a: nat, b: nat)
    requires a < b
    ensures d * b >= d * a + d
  {
    assert d * b == d * a + d * (b - a);
    AtLeastOnce(d, b - a);
  }

  lemma AtLeastOnce(d: nat, k: nat)
    requires k > 0
    ensures d * k >= d
  {
    assert d * k == d + d * (k - 1);
  }

  /** The low bits one position further up. */
  lemma LowBits(n: nat, k: nat)
    ensures n % Power(k + 1) == n % Power(k) + if Bit(n, k) then Power(k) else 0
  {
    var a := Power(k);
    var q := n / a;
    assert n == a * q + n % a;
    Distribute(a, q / 2, q % 2);
    Quotient(n, 2 * a, q / 2, a * (q % 2) + n % a);
  }

  lemma BitOfSmall(n: nat, k: nat)
    requires n < Power(k)
    ensures !Bit(n, k) && n % Power(k) == n
  {
    Quotient(n, Power(k), 0, n);
  }

  /** Adding a bit above a number changes no bit below. */
  lemma LowerBitsKept(n: nat, k: nat, i: nat)
    requires n < Power(k) && i < k
    ensures Bit(n + Power(k), i) <==> Bit(n, i)
  {
    PowerSplits(i, k);
    EvenShift(n, Power(i), Power(k - i - 1));
  }

  lemma EvenShift(n: nat, a: nat, h: nat)
    requires a > 0
    ensures (n + 2 * a * h) / a % 2 == n / a % 2
  {
    var q := n / a;
    assert n == a * q + n % a;
    Spread(a, q, h);
    Quotient(n + 2 * a * h, a, q + 2 * h, n % a);
  }

  lemma Spread(a: nat, q: nat, h: nat)
    ensures a * (q + 2 * h) == a * q + 2 * a * h
  {
  }

  lemma {:induction false} PowerSplits(i: nat, k: nat)
    requires i < k
    ensures Power(k) == 2 * Power(i) * Power(k - i - 1)
    decreases k
  {
    if i + 1 < k {
      PowerSplits(i, k - 1);
      var a, h := Power(i), Power(k - i - 2);
      assert 2 * (2 * a * h) == 2 * a * (2 * h) by { Regroup(a, h); }
    }
  }

  lemma Regroup(a: nat, h: nat)
    ensures 2 * (2 * a * h) == 2 * a * (2 * h)
  {
  }

  lemma {:induction false} BitLengthIff(n: nat, k: nat)
    ensures BitLength(n) > k <==> n >= Power(k)
    decreases k
  {
    if k > 0 && n > 0 {
      BitLengthIff(n / 2, k - 1);
    }
  }

  // ----------------------------------------------------- parse undoes print

  /** The gaps whose bullets have been printed after `n` letters. */
  function Gaps(length: nat, n: nat): nat {
    if n < length then n else if length == 0 then 0 else length - 1
  }

  lemma ScanAppend(s: string, c: char)
    ensures Scan(s + [c]) == match Scan(s) case Err(e) => Err(e) case Ok(scanned) => ScanChar(scanned, c)
  {
    assert (s + [c])[..|s|] == s;
  }

  lemma {:induction false} ScanShown(name: string, spacers: nat, n: nat)
    requires n <= |name| <= 32 && Dunes.IsName(name)
    ensures Scan(Shown(name, spacers, n)) == Ok(Scanned(name[..n], spacers % Power(Gaps(|name|, n))))
  {
    hide Scan, Bit;
    if n == 0 {
      NothingScanned();
    } else {
      ScanShown(name, spacers, n - 1);
      ScanGap(name, spacers, n);
    }
  }

  lemma NothingScanned()
    ensures Scan([]) == Ok(Scanned([], 0))
  {
  }

  lemma ScanGap(name: string, spacers: nat, n: nat)
    requires 0 < n <= |name| <= 32 && Dunes.IsName(name)
    requires Scan(Shown(name, spacers, n - 1)) == Ok(Scanned(name[..n - 1], spacers % Power(Gaps(|name|, n - 1))))
    ensures Scan(Shown(name, spacers, n)) == Ok(Scanned(name[..n], spacers % Power(Gaps(|name|, n))))
  {
    hide Scan, Bit, Power;
    var before := Shown(name, spacers, n - 1);
    ScanAppend(before, name[n - 1]);
    assert name[..n] == name[..n - 1] + [name[n - 1]];
    var lettered := before + [name[n - 1]];
    assert lettered + [] == lettered;
    if n < |name| {
      var low := spacers % Power(n - 1);
      LowBits(spacers, n - 1);
      BitOfSmall(low, n - 1);
      if Bit(spacers, n - 1) {
        ScanAppend(lettered, BULLET);
        assert Shown(name, spacers, n) == lettered + [BULLET];
      }
    }
  }

  /** Parsing a printed name gives the dune back with the spacers that are between its letters. */
  lemma ParsePrint(d: SpacedDune)
    requires d.dune < U128
    ensures |Dunes.Print(d.dune)| > 0
    ensures Parse(Print(d)) == Ok(SpacedDune(d.dune, d.spacers % Power(|Dunes.Print(d.dune)| - 1)))
  {
    hide Scan, Shown, Power, Dunes.Print, Dunes.Parse, BitLength;
    var name := Dunes.Print(d.dune);
    Dunes.LengthIff(d.dune, 0);
    Dunes.ParsePrint(d.dune);
    Dunes.ParseIff(name);
    ScanShown(name, d.spacers, |name|);
    assert name[..|name|] == name;
    BitLengthIff(d.spacers % Power(|name| - 1), |name| - 1);
  }

  /** Parsing undoes printing exactly when every spacer is between two letters. */
  lemma ParsePrintIff(d: SpacedDune)
    requires d.dune < U128
    ensures |Dunes.Print(d.dune)| > 0
    ensures Parse(Print(d)) == Ok(d) <==> d.spacers < Power(|Dunes.Print(d.dune)| - 1)
  {
    hide Print, Parse, Dunes.Print, Power;
    ParsePrint(d);
    var p := Power(|Dunes.Print(d.dune)| - 1);
    if d.spacers < p { Quotient(d.spacers, p, 0, d.spacers); }
  }

  // ----------------------------------------------------- print undoes parse

  /** Every dot turned into a bullet. */
  function Bulleted(s: string): (r: string)
    ensures |r| == |s| && forall k :: 0 <= k < |s| ==> r[k] == if s[k] == '.' then BULLET else s[k]
  {
    if s == [] then [] else Bulleted(s[..|s| - 1]) + [if s[|s| - 1] == '.' then BULLET else s[|s| - 1]]
  }

  /** Letters with a bullet after each one whose bit is set, the last one too. */
  function Marked(letters: string, spacers: nat): string {
    if letters == [] then []
    else
      Marked(letters[..|letters| - 1], spacers) + [letters[|letters| - 1]]
      + (if Bit(spacers, |letters| - 1) then [BULLET] else [])
  }

  lemma {:induction false} MarkedLower(letters: string, spacers: nat, k: nat)
    requires |letters| <= k && spacers < Power(k)
    ensures Marked(letters, spacers + Power(k)) == Marked(letters, spacers)
  {
    hide Power, Bit;
    if letters != [] {
      MarkedLower(letters[..|letters| - 1], spacers, k);
      LowerBitsKept(spacers, k, |letters| - 1);
    }
  }

  /** What has been scanned of a string of at most 32 letters is the string with bullets for dots. */
  lemma {:induction false} ScanMarked(s: string)
    requires Scan(s).Ok? && |Scan(s).value.letters| <= 32
    ensures Scan(s).value.spacers < Power(|Scan(s).value.letters|)
    ensures Marked(Scan(s).value.letters, Scan(s).value.spacers) == Bulleted(s)
    ensures Dunes.IsName(Scan(s).value.letters)
  {
    hide Power, Bit, Marked;
    if s == [] {
      assert Marked([], 0) == [] by { MarkedNothing(); }
      assert Power(0) == 1 by { PowerZero(); }
    } else {
      var front, c := s[..|s| - 1], s[|s| - 1];
      ScanMarked(front);
      var scanned := Scan(front).value;
      if Dunes.IsLetter(c) {
        MarkLetter(scanned, c);
      } else {
        MarkSpacer(scanned);
      }
    }
  }

  lemma MarkedNothing()
    ensures Marked([], 0) == []
  {
  }

  lemma PowerZero()
    ensures Power(0) == 1
  {
  }

  lemma MarkLetter(s: Scanned, c: char)
    requires s.spacers < Power(|s.letters|)
    ensures Marked(s.letters + [c], s.spacers) == Marked(s.letters, s.spacers) + [c]
    ensures s.spacers < Power(|s.letters| + 1)
  {
    hide Bit;
    assert (s.letters + [c])[..|s.letters|] == s.letters;
    BitOfSmall(s.spacers, |s.letters|);
  }

  lemma MarkSpacer(s: Scanned)
    requires s.letters != [] && s.spacers < Power(|s.letters|) && !Bit(s.spacers, |s.letters| - 1)
    ensures Marked(s.letters, s.spacers + Power(|s.letters| - 1)) == Marked(s.letters, s.spacers) + [BULLET]
    ensures s.spacers + Power(|s.letters| - 1) < Power(|s.letters|)
  {
    hide Bit;
    var k := |s.letters| - 1;
    LowBits(s.spacers, k);
    assert s.spacers % Power(k + 1) == s.spacers by { Quotient(s.spacers, Power(k + 1), 0, s.spacers); }
    MarkedLower(s.letters[..k], s.spacers, k);
    assert Bit(s.spacers + Power(k), k) by { TopBit(s.spacers, k); }
  }

  lemma TopBit(n: nat, k: nat)
    requires n < Power(k)
    ensures Bit(n + Power(k), k)
  {
    Quotient(n + Power(k), Power(k), 1, n);
  }

  lemma {:induction false} ShownIsMarked(name: string, spacers: nat, n: nat)
    requires n <= |name| && name != [] && spacers < Power(|name| - 1)
    ensures Shown(name, spacers, n) == Marked(name[..n], spacers)
  {
    hide Power, Bit;
    if n > 0 {
      ShownIsMarked(name, spacers, n - 1);
      assert name[..n][..n - 1] == name[..n - 1];
      BitOfSmall(spacers, |name| - 1);
    }
  }

  /** Whatever parses prints back with its dots as bullets. */
  lemma PrintParse(s: string)
    requires Parse(s).Ok?
    ensures Parse(s).value.dune < U128 && Print(Parse(s).value) == Bulleted(s)
  {
    hide Scan, Shown, Marked, Power, Dunes.Print, Dunes.Parse, BitLength, Bulleted;
    var scanned := Scan(s).value;
    var letters, spacers := scanned.letters, scanned.spacers;
    Dunes.PrintParse(letters);
    Dunes.LengthIff(Dunes.Parse(letters).value, 0);
    ScanMarked(s);
    BitLengthIff(spacers, |letters| - 1);
    ShownIsMarked(letters, spacers, |letters|);
    assert letters[..|letters|] == letters;
  }

  // ------------------------------------------------------- what can be parsed

  /** The letters of a string, without everything else. */
  function Letters(s: string): string {
    if s == [] then []
    else Letters(s[..|s| - 1]) + if Dunes.IsLetter(s[|s| - 1]) then [s[|s| - 1]] else []
  }

  /** Letters and spacers only, no spacer first and no two spacers together. */
  predicate Spaced(s: string) {
    && (forall k :: 0 <= k < |s| ==> Dunes.IsLetter(s[k]) || s[k] == '.' || s[k] == '\U{2022}')
    && (s != [] ==> Dunes.IsLetter(s[0]))
    && forall k :: 0 < k < |s| ==> Dunes.IsLetter(s[k - 1]) || Dunes.IsLetter(s[k])
  }

  lemma SpacedMore(s: string)
    requires s != []
    ensures var front, c := s[..|s| - 1], s[|s| - 1];
      Spaced(s) <==> Spaced(front) && (Dunes.IsLetter(c) || (IsSpacer(c) && front != [] && Dunes.IsLetter(front[|front| - 1])))
  {
    var front := s[..|s| - 1];
    assert forall k :: 0 <= k < |front| ==> front[k] == s[k];
  }

  lemma {:induction false} HasLetters(s: string)
    requires Spaced(s)
    ensures Letters(s) == [] <==> s == []
    decreases |s|
  {
    if |s| > 1 {
      SpacedMore(s);
      HasLetters(s[..|s| - 1]);
    }
  }

  /** Scanning collects the letters. */
  lemma {:induction false} ScanLetters(s: string)
    requires Scan(s).Ok?
    ensures Scan(s).value.letters == Letters(s) && Dunes.IsName(Letters(s))
  {
    if s != [] {
      hide Bit, Power;
      ScanLetters(s[..|s| - 1]);
    }
  }

  /** After a spacer, and only then, the bit of the last letter is set. */
  ghost predicate Ends(s: string, scanned: Scanned) {
    && scanned.letters == Letters(s) && scanned.spacers < Power(|scanned.letters|)
    && (scanned.letters != [] ==> (Bit(scanned.spacers, |scanned.letters| - 1) <==> !Dunes.IsLetter(s[|s| - 1])))
  }

  lemma EndsWithLetter(front: string, c: char, before: Scanned)
    requires Ends(front, before) && Dunes.IsLetter(c)
    ensures Ends(front + [c], Scanned(before.letters + [c], before.spacers))
  {
    hide Bit;
    assert (front + [c])[..|front|] == front;
    BitOfSmall(before.spacers, |before.letters|);
  }

  lemma EndsWithSpacer(front: string, c: char, before: Scanned)
    requires Ends(front, before) && !Dunes.IsLetter(c) && before.letters != [] && !Bit(before.spacers, |before.letters| - 1)
    ensures Ends(front + [c], Scanned(before.letters, before.spacers + Power(|before.letters| - 1)))
  {
    hide Bit;
    assert (front + [c])[..|front|] == front;
    MarkSpacer(before);
    var k := |before.letters| - 1;
    LowBits(before.spacers, k);
    Quotient(before.spacers, Power(k + 1), 0, before.spacers);
    BitOfSmall(before.spacers % Power(k), k);
    TopBit(before.spacers, k);
  }

  lemma {:induction false} ScanIff(s: string)
    requires |Letters(s)| <= 32
    ensures Scan(s).Ok? <==> Spaced(s)
    ensures Scan(s).Ok? ==> Ends(s, Scan(s).value)
    decreases |s|
  {
    if s == [] {
      assert Power(0) == 1;
    } else {
      var front, c := s[..|s| - 1], s[|s| - 1];
      assert front + [c] == s;
      ScanIff(front);
      SpacedMore(s);
      if Spaced(front) {
        HasLetters(front);
        var before := Scan(front).value;
        hide Spaced, Bit, Power;
        if Dunes.IsLetter(c) {
          EndsWithLetter(front, c, before);
        } else if ScanChar(before, c).Ok? {
          EndsWithSpacer(front, c, before);
        }
      }
    }
  }

  lemma TrailingIff(s: string)
    requires Scan(s).Ok? && Ends(s, Scan(s).value) && Letters(s) != []
    ensures s != [] && (BitLength(Scan(s).value.spacers) >= |Letters(s)| <==> !Dunes.IsLetter(s[|s| - 1]))
  {
    hide Scan, Bit, BitLength;
    var spacers, k := Scan(s).value.spacers, |Letters(s)| - 1;
    BitLengthIff(spacers, k);
    LowBits(spacers, k);
    Quotient(spacers, Power(k + 1), 0, spacers);
    if spacers < Power(k) {
      BitOfSmall(spacers, k);
    }
  }

  /** A parsed word has at most 28 letters. */
  lemma ShortName(letters: string)
    requires Dunes.Parse(letters).Ok?
    ensures |letters| <= 28
  {
    hide Dunes.Print, Dunes.Parse;
    Dunes.PrintParse(letters);
    Dunes.LengthIff(Dunes.Parse(letters).value, 0);
  }

  /**
    Exactly these parse: letters with dots or bullets, single ones, each
    between two letters, whose letters are the name of a dune; and the dune is
    the one of that name.
   */
  lemma ParsesIff(s: string)
    ensures Parse(s).Ok? <==>
              Spaced(s) && s != [] && Dunes.IsLetter(s[|s| - 1]) && Dunes.Parse(Letters(s)).Ok?
    ensures Parse(s).Ok? ==> Ok(Parse(s).value.dune) == Dunes.Parse(Letters(s))
  {
    hide Scan, Dunes.Parse, Bit, Power, Spaced, Letters, BitLength;
    if Scan(s).Ok? {
      ScanLetters(s);
    }
    if Dunes.Parse(Letters(s)).Ok? {
      ShortName(Letters(s));
      ScanIff(s);
      if Spaced(s) {
        HasLetters(s);
        if s != [] {
          TrailingIff(s);
        }
      }
    }
  }

  /** What is wrong with the character that ends the longest correct beginning. */
  function Fault(s: string, n: nat): Error
    requires n < |s|
  {
    if !Dunes.IsLetter(s[n]) && s[n] != '.' && s[n] != '\U{2022}' then Character(s[n])
    else if n == 0 then LeadingSpacer
    else DoubleSpacer
  }

  lemma {:induction false} FirstFault(s: string) returns (n: nat)
    requires |Letters(s)| <= 32 && !Spaced(s)
    ensures n < |s| && Spaced(s[..n]) && !Spaced(s[..n + 1]) && Scan(s) == Err(Fault(s, n))
    decreases |s|
  {
    hide Bit, Power, Spaced;
    assert s != [] by { NothingSpaced(); }
    var front := s[..|s| - 1];
    ScanIff(front);
    SpacedMore(s);
    if Spaced(front) {
      n := |s| - 1;
      assert s[..n + 1] == s;
      HasLetters(front);
      if front != [] {
        OneFault(front, s[n]);
      }
    } else {
      n := FirstFault(front);
      assert front[..n] == s[..n] && front[..n + 1] == s[..n + 1];
      PrefixFails(s, |s| - 1);
    }
  }

  lemma NothingSpaced()
    ensures Spaced([])
  {
  }

  /** A spacer behind a spacer finds its bit set. */
  lemma OneFault(front: string, c: char)
    requires |Letters(front)| <= 32 && Spaced(front) && front != [] && Scan(front).Ok? && Ends(front, Scan(front).value)
    requires IsSpacer(c) ==> !Dunes.IsLetter(front[|front| - 1])
    requires !Dunes.IsLetter(c)
    ensures ScanChar(Scan(front).value, c) == Err(if IsSpacer(c) then DoubleSpacer else Character(c))
  {
    hide Scan, Bit, Power, Spaced;
    HasLetters(front);
  }

  /** Why a string of at most 32 letters does not parse. */
  lemma ErrorMeaning(s: string)
    requires |Letters(s)| <= 32
    ensures !Spaced(s) ==> exists n :: 0 <= n < |s| && Spaced(s[..n]) && !Spaced(s[..n + 1]) && Parse(s) == Err(Fault(s, n))
    ensures Spaced(s) && (s == [] || !Dunes.IsLetter(s[|s| - 1])) ==> Parse(s) == Err(TrailingSpacer)
    ensures Spaced(s) && s != [] && Dunes.IsLetter(s[|s| - 1]) && Dunes.Parse(Letters(s)).Err? ==>
              Parse(s) == Err(Dune(Dunes.Parse(Letters(s)).error))
  {
    hide Scan, Dunes.Parse, Bit, Power, Spaced, Letters, Fault;
    ScanIff(s);
    if Spaced(s) {
      HasLetters(s);
      if s != [] {
        TrailingIff(s);
      }
    } else {
      var n := FirstFault(s);
    }
  }
}
