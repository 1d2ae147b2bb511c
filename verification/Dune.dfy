/** Dunes are numbers; their names are words in a bijective base 26. */
module Dunes {
  import opened Wrappers
  import opened Bytes
  import opened Sequences

  datatype Error = Character(c: char) | Range

  const RESERVED: nat := 6402364363415443603228541259936211926

  /** The smallest number with a name of more than `i` letters, for each `i`. */
  const STEPS: seq<nat> := [
    0,
    26,
    702,
    18278,
    475254,
    12356630,
    321272406,
    8353082582,
    217180147158,
    5646683826134,
    146813779479510,
    3817158266467286,
    99246114928149462,
    2580398988131886038,
    67090373691429037014,
    1744349715977154962390,
    45353092615406029022166,
    1179180408000556754576342,
    30658690608014475618984918,
    797125955808376366093607894,
    20725274851017785518433805270,
    538857146126462423479278937046,
    14010285799288023010461252363222,
    364267430781488598271992561443798,
    9470953200318703555071806597538774,
    246244783208286292431866971536008150,
    6402364363415443603228541259936211926,
    166461473448801533683942072758341510102]

  const LARGEST_NAME: Name := "BCGDENLQRQWDSLRUGSNLBTMFIJAV"

  predicate IsLetter(c: char) {
    'A' <= c <= 'Z'
  }

  type Name = s: string | IsName(s) witness []

  function Letter(d: nat): (c: char)
    requires d < 26
    ensures IsLetter(c) && Digit(c) == d
  {
    'A' + d as char
  }

  function Digit(c: char): (d: nat)
    requires IsLetter(c)
    ensures d < 26 && 'A' + d as char == c
  {
    (c - 'A') as nat
  }

  predicate IsName(s: string) {
    forall k :: 0 <= k < |s| ==> IsLetter(s[k])
  }

  // ---------------------------------------------------------------- parsing

  /** One character more; each of the three operations may leave the 128 bits. */
  function ParseChar(x: nat, first: bool, c: char): Result<nat, Error> {
    var y := if first then x else x + 1;
    if y >= U128 || y * 26 >= U128 then Err(Range)
    else if !IsLetter(c) then Err(Character(c))
    else if y * 26 + Digit(c) >= U128 then Err(Range)
    else Ok(y * 26 + Digit(c))
  }

  function Parse(s: string): Result<nat, Error> {
    if s == [] then Ok(0)
    else
      match Parse(s[..|s| - 1])
      case Err(e) => Err(e)
      case Ok(x) => ParseChar(x, |s| == 1, s[|s| - 1])
  }

  method FromStr(s: string) returns (r: Result<nat, Error>)
    ensures r == Parse(s)
  {
    var x: nat := 0;
    for i := 0 to |s|
      invariant Parse(s[..i]) == Ok(x)
    {
      assert s[..i + 1][..i] == s[..i];
      var next := ParseChar(x, i == 0, s[i]);
      if next.Err? {
        PrefixFails(s, i + 1);
        return next;
      }
      x := next.value;
    }
    assert s[..|s|] == s;
    return Ok(x);
  }

  /** A failure on a prefix is the result for the whole. */
  lemma {:induction false} PrefixFails(s: string, n: nat)
    requires n <= |s| && Parse(s[..n]).Err?
    ensures Parse(s) == Parse(s[..n])
    decreases |s| - n
  {
    if n == |s| {
      assert s[..n] == s;
    } else {
      assert s[..n + 1][..n] == s[..n];
      PrefixFails(s, n + 1);
    }
  }

  // --------------------------------------------------------------- printing

  /** The digits of a positive number, without a zero. */
  function Digits(m: nat): (s: string)
    ensures IsName(s) && (m > 0 ==> s != [])
  {
    if m == 0 then [] else Digits((m - 1) / 26) + [Letter((m - 1) % 26)]
  }

  function Print(n: nat): string
    requires n < U128
  {
    if n == U128 - 1 then LARGEST_NAME else Digits(n + 1)
  }

  method Display(dune: nat) returns (name: string)
    requires dune < U128
    ensures name == Print(dune)
  {
    var n := dune;
    if n == U128 - 1 { return LARGEST_NAME; }
    n := n + 1;
    var symbol := "";
    while n > 0
      invariant Digits(dune + 1) == Digits(n) + Reverse(symbol)
    {
      var letter := Letter((n - 1) % 26);
      assert Digits(n) == Digits((n - 1) / 26) + [letter];
      ReverseAppend(symbol, [letter]);
      assert Reverse([letter]) == [letter];
      Assoc(Digits((n - 1) / 26), [letter], Reverse(symbol));
      symbol := symbol + [letter];
      n := (n - 1) / 26;
    }
    assert Digits(0) + Reverse(symbol) == Reverse(symbol);
    name := Reverse(symbol);
  }

  // ------------------------------------------------------- names as numbers

  /** The number that a name stands for, however large. */
  function Value(s: string): nat
    requires IsName(s)
  {
    if s == [] then 0
    else (if |s| == 1 then 0 else 26 * (Value(s[..|s| - 1]) + 1)) + Digit(s[|s| - 1])
  }

  lemma {:induction false} ValueOfDigits(m: nat)
    requires m > 0
    ensures Value(Digits(m)) == m - 1
  {
    var s := Digits(m);
    assert s[..|s| - 1] == Digits((m - 1) / 26);
    if (m - 1) / 26 > 0 {
      ValueOfDigits((m - 1) / 26);
    }
  }

  lemma {:induction false} DigitsOfValue(s: string)
    requires IsName(s) && s != []
    ensures Digits(Value(s) + 1) == s
  {
    if |s| > 1 {
      DigitsOfValue(s[..|s| - 1]);
    }
    assert s == s[..|s| - 1] + [s[|s| - 1]];
  }

  /** Parsing succeeds exactly on words of letters whose number fits 128 bits, and gives that number. */
  lemma {:induction false} ParseIff(s: string)
    ensures Parse(s).Ok? <==> IsName(s) && Value(s) < U128
    ensures Parse(s).Ok? ==> Parse(s).value == Value(s)
  {
    if s != [] {
      var front := s[..|s| - 1];
      ParseIff(front);
      if IsName(s) {
        assert IsName(front);
      }
      if IsName(front) && IsLetter(s[|s| - 1]) {
        assert s == front + [s[|s| - 1]];
        assert IsName(s);
      }
    }
  }

  /** What stops the parser at a character behind a word that parses: room for one more digit is asked for first. */
  function Fault(s: string, n: nat): Error
    requires n < |s| && IsName(s[..n])
  {
    if n > 0 && (Value(s[..n]) + 1) * 26 >= U128 then Range
    else if !IsLetter(s[n]) then Character(s[n])
    else Range
  }

  /** Why a word does not parse: the shortest beginning that does not, and what is wrong with its last character. */
  lemma {:induction false} ParseError(s: string) returns (n: nat)
    requires Parse(s).Err?
    ensures n < |s| && IsName(s[..n]) && Value(s[..n]) < U128 && Parse(s) == Err(Fault(s, n))
    ensures !(IsName(s[..n + 1]) && Value(s[..n + 1]) < U128)
    decreases |s|
  {
    var front := s[..|s| - 1];
    ParseIff(front);
    ParseIff(s);
    hide Value;
    if Parse(front).Ok? {
      n := |s| - 1;
      assert s[..n + 1] == s;
      if n == 0 { NoValue(); }
    } else {
      n := ParseError(front);
      assert front[..n] == s[..n] && front[..n + 1] == s[..n + 1];
    }
  }

  lemma NoValue()
    ensures Value([]) == 0
  {
  }

  lemma Largest7()
    ensures Value(LARGEST_NAME[..7]) == 656748571
  {
    hide Value;
    FirstLetter();
    NextLetter(1, 1, 'C');
    NextLetter(2, 54, 'G');
    NextLetter(3, 1436, 'D');
    NextLetter(4, 37365, 'E');
    NextLetter(5, 971520, 'N');
    NextLetter(6, 25259559, 'L');
  }

  lemma Largest14()
    ensures Value(LARGEST_NAME[..14]) == 5274879869136677681
  {
    hide Value;
    Largest7();
    NextLetter(7, 656748571, 'Q');
    NextLetter(8, 17075462888, 'R');
    NextLetter(9, 443962035131, 'Q');
    NextLetter(10, 11543012913448, 'W');
    NextLetter(11, 300118335749696, 'D');
    NextLetter(12, 7803076729492125, 'S');
    NextLetter(13, 202879994966795294, 'L');
  }

  lemma Largest21()
    ensures Value(LARGEST_NAME[..21]) == 42366833810109516146933227449
  {
    hide Value;
    Largest14();
    NextLetter(14, 5274879869136677681, 'R');
    NextLetter(15, 137146876597553619749, 'U');
    NextLetter(16, 3565818791536394113520, 'G');
    NextLetter(17, 92711288579946246951552, 'S');
    NextLetter(18, 2410493503078602420740396, 'N');
    NextLetter(19, 62672831080043662939250335, 'L');
    NextLetter(20, 1629493608081135236420508747, 'B');
  }

  lemma Largest28()
    ensures Value(LARGEST_NAME[..28]) == 340282366920938463463374607431768211455
  {
    hide Value;
    Largest21();
    NextLetter(21, 42366833810109516146933227449, 'T');
    NextLetter(22, 1101537679062847419820263913719, 'M');
    NextLetter(23, 28639979655634032915326861756732, 'F');
    NextLetter(24, 744639471046484855798498405675063, 'I');
    NextLetter(25, 19360626247208606250760958547551672, 'J');
    NextLetter(26, 503376282427423762519784922236343507, 'A');
    NextLetter(27, 13087783343113017825514407978144931208, 'V');
  }

  lemma FirstLetter()
    ensures Value(LARGEST_NAME[..1]) == 1
  {
    assert LARGEST_NAME[..1] == "B";
  }

  lemma NextLetter(n: nat, v: nat, c: char)
    requires 0 < n < |LARGEST_NAME| && LARGEST_NAME[n] == c && IsLetter(c) && Value(LARGEST_NAME[..n]) == v
    ensures Value(LARGEST_NAME[..n + 1]) == 26 * (v + 1) + Digit(c)
  {
    NextValue(LARGEST_NAME, n, v);
  }

  /** The name written out for the largest number is the one that the digits would give. */
  lemma LargestName()
    ensures IsName(LARGEST_NAME) && Value(LARGEST_NAME) == U128 - 1
    ensures Print(U128 - 1) == Digits(U128)
  {
    hide Value, Digits;
    Largest28();
    assert LARGEST_NAME[..28] == LARGEST_NAME;
    DigitsOfValue(LARGEST_NAME);
  }

  lemma NextValue(s: string, n: nat, v: nat)
    requires 0 < n < |s| && IsName(s) && Value(s[..n]) == v
    ensures Value(s[..n + 1]) == 26 * (v + 1) + Digit(s[n])
  {
    assert s[..n + 1][..n] == s[..n];
  }

  lemma PrintIsDigits(n: nat)
    requires n < U128
    ensures Print(n) == Digits(n + 1)
  {
    if n == U128 - 1 { LargestName(); }
  }

  /** Parsing undoes printing, for every number of 128 bits. */
  lemma ParsePrint(n: nat)
    requires n < U128
    ensures Parse(Print(n)) == Ok(n)
  {
    hide Print, Parse, Digits;
    PrintIsDigits(n);
    ValueOfDigits(n + 1);
    ParseIff(Print(n));
  }

  /** Printing undoes parsing, for every word that parses, except that the empty word counts as "A". */
  lemma PrintParse(s: string)
    requires Parse(s).Ok?
    ensures Parse(s).value < U128
    ensures Print(Parse(s).value) == if s == [] then "A" else s
  {
    hide Print, Digits;
    ParseIff(s);
    PrintIsDigits(Value(s));
    if s != [] {
      DigitsOfValue(s);
    } else {
      DigitsOfValue("A");
    }
  }

  // --------------------------------------------------------- lengths of names

  /** The smallest number with a name of more than `i` letters. */
  function Step(i: nat): nat {
    if i == 0 then 0 else 26 * (Step(i - 1) + 1)
  }

  lemma {:induction false} StepGrows(i: nat, j: nat)
    requires i < j
    ensures Step(i) < Step(j)
  {
    if i + 1 < j { StepGrows(i, j - 1); }
  }

  lemma {:induction false} DigitsLength(m: nat, k: nat)
    requires m > 0 && k > 0
    ensures |Digits(m)| == k <==> Step(k - 1) < m <= Step(k)
    decreases m
  {
    var q := (m - 1) / 26;
    if q == 0 {
      if k > 1 { StepGrows(1, k); if k > 2 { StepGrows(1, k - 1); } }
    } else if k == 1 {
      assert Digits(m) == Digits(q) + [Letter((m - 1) % 26)] && Digits(q) != [];
    } else {
      DigitsLength(q, k - 1);
    }
  }

  /** The table in the code is the sequence of these bounds. */
  lemma StepsTable(i: nat)
    requires i <= 27
    ensures |STEPS| == 28 && STEPS[i] == Step(i)
  {
    NextStep(0, 0);
    NextStep(1, 26);
    NextStep(2, 702);
    NextStep(3, 18278);
    NextStep(4, 475254);
    NextStep(5, 12356630);
    NextStep(6, 321272406);
    NextStep(7, 8353082582);
    NextStep(8, 217180147158);
    NextStep(9, 5646683826134);
    NextStep(10, 146813779479510);
    NextStep(11, 3817158266467286);
    NextStep(12, 99246114928149462);
    NextStep(13, 2580398988131886038);
    NextStep(14, 67090373691429037014);
    NextStep(15, 1744349715977154962390);
    NextStep(16, 45353092615406029022166);
    NextStep(17, 1179180408000556754576342);
    NextStep(18, 30658690608014475618984918);
    NextStep(19, 797125955808376366093607894);
    NextStep(20, 20725274851017785518433805270);
    NextStep(21, 538857146126462423479278937046);
    NextStep(22, 14010285799288023010461252363222);
    NextStep(23, 364267430781488598271992561443798);
    NextStep(24, 9470953200318703555071806597538774);
    NextStep(25, 246244783208286292431866971536008150);
    NextStep(26, 6402364363415443603228541259936211926);
  }

  lemma NextStep(i: nat, v: nat)
    requires Step(i) == v
    ensures Step(i + 1) == 26 * (v + 1)
  {
  }

  lemma AtMost28(n: nat)
    requires n < U128
    ensures 1 <= |Digits(n + 1)| <= 28
    ensures |Digits(n + 1)| == 28 <==> Step(27) <= n
  {
    hide Digits, Step;
    assert n + 1 <= Step(28) by { StepsTable(27); StepsValue27(); NextStep(27, STEPS[27]); }
    DigitsLength(n + 1, 28);
    var k := |Digits(n + 1)|;
    if k > 28 {
      DigitsLength(n + 1, k);
      if k > 29 { StepGrows(28, k - 1); }
    }
  }

  /** A name has `i + 1` letters exactly when its number is between the bounds `i` and `i + 1` of the table; none has more than 28. */
  lemma LengthIff(n: nat, i: nat)
    requires n < U128
    ensures |STEPS| == 28
    ensures i < 27 ==> (|Print(n)| == i + 1 <==> STEPS[i] <= n < STEPS[i + 1])
    ensures |Print(n)| == 28 <==> STEPS[27] <= n
    ensures 1 <= |Print(n)| <= 28
  {
    hide Print, Digits, STEPS, Step;
    PrintIsDigits(n);
    AtMost28(n);
    StepsTable(27);
    if i < 27 {
      DigitsLength(n + 1, i + 1);
      StepsTable(i);
      StepsTable(i + 1);
    }
  }

  lemma StepsValue27()
    ensures 26 * (STEPS[27] + 1) >= U128
  {
  }

  /** Reserved dunes are the ones whose names have at least 27 letters. */
  lemma ReservedIff(n: nat)
    requires n < U128
    ensures n >= RESERVED <==> |Print(n)| >= 27
  {
    hide Print;
    LengthIff(n, 26);
  }
}
