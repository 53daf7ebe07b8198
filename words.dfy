/** Amount in words in the Indian numbering system, written twice in the
    code base: once in the invoice editor (Bill.jsx) and once in the print
    controller (printJobController.js). Both split the amount into Crore
    (10^7), Lakh (10^5), Thousand and a remainder below a thousand, spell the
    non-zero groups, join them with spaces and append " Only".

    Each procedure is modelled as a method that reduces the number step by
    step, as the source does, and is proved equal to a declarative
    description of the groups. An out-of-range table lookup in JavaScript
    yields the text "undefined"; `Ones` reproduces that. */
module Words {
  import opened Text

  /** `a[i]`: the words below twenty; any other index reads as the text
      "undefined". */
  function Ones(i: nat): string {
    match i
    case 0 => "" case 1 => "One" case 2 => "Two" case 3 => "Three" case 4 => "Four"
    case 5 => "Five" case 6 => "Six" case 7 => "Seven" case 8 => "Eight" case 9 => "Nine"
    case 10 => "Ten" case 11 => "Eleven" case 12 => "Twelve" case 13 => "Thirteen"
    case 14 => "Fourteen" case 15 => "Fifteen" case 16 => "Sixteen" case 17 => "Seventeen"
    case 18 => "Eighteen" case 19 => "Nineteen"
    case _ => "undefined"
  }

  /** `b[i]`: the tens. */
  function Tens(i: nat): string
    requires i < 10
  {
    match i
    case 2 => "Twenty" case 3 => "Thirty" case 4 => "Forty" case 5 => "Fifty"
    case 6 => "Sixty" case 7 => "Seventy" case 8 => "Eighty" case 9 => "Ninety"
    case _ => ""
  }

  const Crore: nat := 10000000
  const Lakh: nat := 100000

  // ---------------------------------------------------------------------
  // The editor's version (Bill.jsx)
  // ---------------------------------------------------------------------

  /** `inWords`: below 20 by table, below 100 as tens and units, below 1000
      as hundreds and the rest; nothing for 1000 or more. */
  function InWords(n: nat): string
    decreases n
  {
    if n < 20 then Ones(n)
    else if n < 100 then Tens(n / 10) + (if n % 10 != 0 then " " + Ones(n % 10) else "")
    else if n < 1000 then
      Ones(n / 100) + " Hundred" + (if n % 100 != 0 then " " + InWords(n % 100) else "")
    else ""
  }

  /** A group with its unit name, or nothing when the group is zero. */
  function Part(words: string, group: nat, unit: string): seq<string> {
    if group != 0 then [words + unit] else []
  }

  /** The four groups of n, largest first: crore, lakh, thousand, rest. */
  function Groups(n: nat): (g: seq<nat>)
    ensures |g| == 4
  {
    [n / Crore, (n / Lakh) % 100, (n / 1000) % 100, n % 1000]
  }

  /** The editor's parts: each non-zero group spelled by `inWords`. */
  function ClientParts(n: nat): seq<string> {
    var g := Groups(n);
    Part(InWords(g[0]), g[0], " Crore") + Part(InWords(g[1]), g[1], " Lakh")
    + Part(InWords(g[2]), g[2], " Thousand") + Part(InWords(g[3]), g[3], "")
  }

  /** What the editor prints for an amount: None stands for null, undefined
      or NaN, which the source maps to "Zero Only". */
  function ClientWords(num: Option<nat>): string {
    if num.None? || num.value == 0 then "Zero Only"
    else Join(ClientParts(num.value), ' ') + " Only"
  }

  /** What is left of n after the crore group is split off. */
  lemma AfterCrore(v: nat, n: nat)
    requires n == if v / Crore != 0 then v % Crore else v
    ensures n == v % Crore && n / Lakh == Groups(v)[1]
  {
    if v / Crore == 0 {
      assert v < Crore;
    }
    LakhOfRest(v);
  }

  lemma LakhOfRest(v: nat)
    ensures v % Crore / Lakh == (v / Lakh) % 100
  {
    var q := v / Crore;
    var r := v % Crore;
    assert v == q * Crore + r;
    assert v / Lakh == q * 100 + r / Lakh;
  }

  /** What is left after the lakh group is split off. */
  lemma AfterLakh(v: nat, n: nat, m: nat)
    requires n == v % Crore
    requires m == if n / Lakh != 0 then n % Lakh else n
    ensures m == v % Lakh && m / 1000 == Groups(v)[2]
  {
    LakhOfCrore(v);
    if n / Lakh == 0 {
      assert n < Lakh;
    }
    ThousandOfRest(v);
  }

  lemma LakhOfCrore(v: nat)
    ensures v % Crore % Lakh == v % Lakh
  {
    var q := v / Crore;
    var r := v % Crore;
    assert v == (q * 100) * Lakh + r;
  }

  lemma ThousandOfRest(v: nat)
    ensures v % Lakh / 1000 == (v / 1000) % 100
  {
    var q := v / Lakh;
    var r := v % Lakh;
    assert v == q * Lakh + r;
    assert v / 1000 == q * 100 + r / 1000;
  }

  lemma RestOfThousand(v: nat)
    ensures v % Lakh % 1000 == v % 1000
  {
    var q := v / Lakh;
    assert v == (q * 100) * 1000 + v % Lakh;
  }

  /** What is left after the thousand group is split off. */
  lemma AfterThousand(v: nat, m: nat, k: nat)
    requires m == v % Lakh
    requires k == if m / 1000 != 0 then m % 1000 else m
    ensures k == Groups(v)[3]
  {
    assert m % 1000 == v % 1000 by { RestOfThousand(v); }
    if m / 1000 == 0 {
      SmallRest(m);
    }
    assert Groups(v)[3] == v % 1000;
  }

  lemma SmallRest(m: nat)
    requires m / 1000 == 0
    ensures m % 1000 == m
  {
  }

  /** `if (group) parts.push(words + unit)`. */
  method PushPart(parts: seq<string>, words: string, group: nat, unit: string)
    returns (parts': seq<string>)
    ensures parts' == parts + Part(words, group, unit)
  {
    parts' := parts;
    if group != 0 {
      parts' := parts + [words + unit];
    }
  }

  /** The four parts in order, as pushed one by one onto an empty list. */
  lemma PartsInOrder(p0: seq<string>, p1: seq<string>, p2: seq<string>, p3: seq<string>)
    ensures ((([] + p0) + p1) + p2) + p3 == p0 + p1 + p2 + p3
  {
    assert [] + p0 == p0;
  }

  /** `numberToWords` of Bill.jsx, reducing `num` in place and pushing the
      spelled groups onto `parts`. */
  method ClientNumberToWords(num: Option<nat>) returns (w: string)
    ensures w == ClientWords(num)
  {
    if num.None? {
      return "Zero Only";
    }
    var n := num.value;
    if n == 0 {
      return "Zero Only";
    }
    ghost var v := n;
    ghost var g := Groups(v);
    var parts: seq<string> := [];
    var crore := n / Crore;
    parts := PushPart(parts, InWords(crore), crore, " Crore");
    if crore != 0 {
      n := n % Crore;
    }
    ghost var afterCrore := n;
    AfterCrore(v, n);
    var lakh := n / Lakh;
    parts := PushPart(parts, InWords(lakh), lakh, " Lakh");
    if lakh != 0 {
      n := n % Lakh;
    }
    AfterLakh(v, afterCrore, n);
    ghost var afterLakh := n;
    var thousand := n / 1000;
    parts := PushPart(parts, InWords(thousand), thousand, " Thousand");
    if thousand != 0 {
      n := n % 1000;
    }
    AfterThousand(v, afterLakh, n);
    parts := PushPart(parts, InWords(n), n, "");
    PartsInOrder(Part(InWords(g[0]), g[0], " Crore"), Part(InWords(g[1]), g[1], " Lakh"),
                 Part(InWords(g[2]), g[2], " Thousand"), Part(InWords(g[3]), g[3], ""));
    w := Join(parts, ' ') + " Only";
  }

  // ---------------------------------------------------------------------
  // The print controller's version (printJobController.js)
  // ---------------------------------------------------------------------

  /** `two`. */
  function Two(n: nat): string
    requires n < 100
  {
    if n < 20 then Ones(n) else Tens(n / 10) + (if n % 10 != 0 then " " + Ones(n % 10) else "")
  }

  /** `three`: the hundreds digit is looked up unchecked, so a group of a
      thousand or more reads "Ten Hundred", "undefined Hundred" and so on. */
  function Three(n: nat): string {
    var h := n / 100;
    var r := n % 100;
    (if h != 0 then Ones(h) + " Hundred" + (if r != 0 then " " else "") else "")
    + (if r != 0 then Two(r) else "")
  }

  /** What the print controller prints: None stands for NaN, null or
      undefined, which give the empty string; zero gives " Only". */
  function ServerWords(num: Option<nat>): string {
    if num.None? then ""
    else Join(ServerParts(num.value), ' ') + " Only"
  }

  /** The print controller's parts: each non-zero group spelled by `three`. */
  function ServerParts(n: nat): seq<string> {
    var g := Groups(n);
    Part(Three(g[0]), g[0], " Crore") + Part(Three(g[1]), g[1], " Lakh")
    + Part(Three(g[2]), g[2], " Thousand") + Part(Three(g[3]), g[3], "")
  }

  /** `numberToWords` of the print controller: every group is split off
      with `n %=`, then the non-zero ones are pushed onto `words`. */
  method ServerNumberToWords(num: Option<nat>) returns (w: string)
    ensures w == ServerWords(num)
  {
    if num.None? {
      return "";
    }
    var n := num.value;
    ghost var v := n;
    ghost var g := Groups(v);
    var crore := n / Crore;
    n := n % Crore;
    LakhOfRest(v);
    var lakh := n / Lakh;
    n := n % Lakh;
    LakhOfCrore(v);
    ThousandOfRest(v);
    var thousand := n / 1000;
    n := n % 1000;
    RestOfThousand(v);
    var words: seq<string> := [];
    words := PushPart(words, Three(crore), crore, " Crore");
    words := PushPart(words, Three(lakh), lakh, " Lakh");
    words := PushPart(words, Three(thousand), thousand, " Thousand");
    words := PushPart(words, Three(n), n, "");
    PartsInOrder(Part(Three(g[0]), g[0], " Crore"), Part(Three(g[1]), g[1], " Lakh"),
                 Part(Three(g[2]), g[2], " Thousand"), Part(Three(g[3]), g[3], ""));
    w := Join(words, ' ') + " Only";
  }

  // ---------------------------------------------------------------------
  // Properties
  // ---------------------------------------------------------------------

  /** Below a hundred both spell the number the same way. */
  lemma InWordsBelowHundred(r: nat)
    requires r < 100
    ensures InWords(r) == Two(r)
  {
  }

  /** The hundreds case of `three`, term by term. */
  lemma ThreeHundreds(n: nat)
    requires 100 <= n < 1000
    ensures n % 100 != 0 ==> Three(n) == Ones(n / 100) + " Hundred" + " " + Two(n % 100)
    ensures n % 100 == 0 ==> Three(n) == Ones(n / 100) + " Hundred"
  {
  }

  /** The hundreds case of `inWords`, term by term. */
  lemma InWordsHundreds(n: nat)
    requires 100 <= n < 1000
    ensures n % 100 != 0 ==> InWords(n) == Ones(n / 100) + " Hundred" + " " + InWords(n % 100)
    ensures n % 100 == 0 ==> InWords(n) == Ones(n / 100) + " Hundred"
  {
  }

  /** The two spellings of a group agree below a thousand. */
  lemma ThreeIsInWords(n: nat)
    requires n < 1000
    ensures Three(n) == InWords(n)
  {
    if n < 100 {
      InWordsBelowHundred(n);
    } else {
      ThreeHundreds(n);
      InWordsHundreds(n);
      InWordsBelowHundred(n % 100);
    }
  }

  /** The two renderers print the same words for every amount from 1 up to
      (but excluding) 10^10, the range where the crore group stays below 1000. */
  lemma ClientServerAgree(n: nat)
    requires 1 <= n < 10000000000
    ensures ClientWords(Some(n)) == ServerWords(Some(n))
  {
    ThreeIsInWords(n / Crore);
    ThreeIsInWords((n / Lakh) % 100);
    ThreeIsInWords((n / 1000) % 100);
    ThreeIsInWords(n % 1000);
    assert ClientParts(n) == ServerParts(n);
  }

  /** Where they differ: zero, and a missing amount. */
  lemma ClientServerDifferAtEdges()
    ensures ClientWords(Some(0)) == "Zero Only" && ServerWords(Some(0)) == " Only"
    ensures ClientWords(None) == "Zero Only" && ServerWords(None) == ""
  {
    assert ServerParts(0) == [];
  }

  /** From 100 crore on the editor drops the crore group's words while the
      print controller reads the group as a number of hundreds. */
  lemma ClientServerDifferAtHundredCrore(n: nat)
    requires n == 10000000000
    ensures ClientWords(Some(n)) == " Crore" + " Only"
    ensures ServerWords(Some(n)) == "Ten Hundred" + " Crore" + " Only"
  {
    HundredCroreGroups(n);
    ClientAtHundredCrore(n);
    ServerAtHundredCrore(n);
  }

  lemma HundredCroreGroups(n: nat)
    requires n == 10000000000
    ensures Groups(n) == [1000, 0, 0, 0]
  {
  }

  lemma ClientAtHundredCrore(n: nat)
    requires Groups(n) == [1000, 0, 0, 0]
    ensures ClientParts(n) == [InWords(1000) + " Crore"]
    ensures InWords(1000) + " Crore" == " Crore"
  {
  }

  lemma ServerAtHundredCrore(n: nat)
    requires Groups(n) == [1000, 0, 0, 0]
    ensures ServerParts(n) == [Three(1000) + " Crore"]
    ensures Three(1000) == "Ten Hundred"
  {
  }

  /** Every amount from 1 on ends in " Only" and starts with a group's words. */
  lemma ClientWordsShape(n: nat)
    requires 1 <= n < 10000000000
    ensures EndsWith(ClientWords(Some(n)), " Only")
    ensures ClientParts(n) != []
  {
    var parts := ClientParts(n);
    assert n / Crore != 0 || (n / Lakh) % 100 != 0 || (n / 1000) % 100 != 0 || n % 1000 != 0;
    var w := Join(parts, ' ');
    assert (w + " Only")[|w + " Only"| - 5..] == " Only";
  }

  /** Worked examples of the editor's spelling. */
  lemma ExampleOneLakh(n: nat)
    requires n == 100000
    ensures ClientWords(Some(n)) == "One Lakh Only"
  {
    assert Groups(n) == [0, 1, 0, 0];
    assert InWords(1) + " Lakh" == "One Lakh";
    assert ClientParts(n) == ["One Lakh"];
  }

  /** Joining two or three parts puts one space between each pair. */
  lemma JoinTwo(a: string, b: string)
    ensures Join([a, b], ' ') == a + " " + b
  {
    assert [a, b][1..] == [b];
  }

  lemma JoinThree(a: string, b: string, c: string)
    ensures Join([a, b, c], ' ') == a + " " + b + " " + c
  {
    assert [a, b, c][1..] == [b, c];
    JoinTwo(b, c);
  }

  /** With no crore group, the lakh, thousand and remainder groups in turn. */
  lemma PartsBelowCrore(n: nat, l: nat, t: nat, r: nat, a: string, b: string, c: string)
    requires Groups(n) == [0, l, t, r] && l != 0 && t != 0 && r != 0
    requires InWords(l) + " Lakh" == a && InWords(t) + " Thousand" == b && InWords(r) + "" == c
    ensures ClientParts(n) == [a, b, c]
  {
    assert Part(InWords(0), 0, " Crore") == [];
  }

  /** Only the thousand and remainder groups. */
  lemma PartsBelowLakh(n: nat, t: nat, r: nat, b: string, c: string)
    requires Groups(n) == [0, 0, t, r] && t != 0 && r != 0
    requires InWords(t) + " Thousand" == b && InWords(r) + "" == c
    ensures ClientParts(n) == [b, c]
  {
    assert Part(InWords(0), 0, " Crore") == [];
  }

  /** Three parts are printed with a space between each pair. */
  lemma WordsOfThreeParts(n: nat, a: string, b: string, c: string)
    requires n != 0 && ClientParts(n) == [a, b, c]
    ensures ClientWords(Some(n)) == a + " " + b + " " + c + " Only"
  {
    JoinThree(a, b, c);
  }

  lemma WordsOfTwoParts(n: nat, b: string, c: string)
    requires n != 0 && ClientParts(n) == [b, c]
    ensures ClientWords(Some(n)) == b + " " + c + " Only"
  {
    JoinTwo(b, c);
  }

  lemma ExampleTwoLakh(n: nat)
    requires n == 205010
    ensures ClientWords(Some(n)) == "Two Lakh" + " " + "Five Thousand" + " " + "Ten" + " Only"
  {
    assert Groups(n) == [0, 2, 5, 10];
    SpellTwoLakh();
    PartsBelowCrore(n, 2, 5, 10, "Two Lakh", "Five Thousand", "Ten");
    WordsOfThreeParts(n, "Two Lakh", "Five Thousand", "Ten");
  }

  lemma SpellTwoLakh()
    ensures InWords(2) + " Lakh" == "Two Lakh"
    ensures InWords(5) + " Thousand" == "Five Thousand"
    ensures InWords(10) + "" == "Ten"
  {
  }

  /** The result is stated part by part: the literal is the concatenation of
      the groups' words, the unit names, the separating spaces and " Only". */
  lemma ExampleTwelveLakh(n: nat)
    requires n == 1234567
    ensures ClientWords(Some(n))
         == "Twelve Lakh" + " " + "Thirty Four Thousand" + " " + "Five" + " Hundred " + "Sixty Seven" + " Only"
  {
    assert Groups(n) == [0, 12, 34, 567];
    SpellTwelve();
    SpellThirtyFour();
    SpellFiveSixtySeven();
    var c := "Five" + " Hundred " + "Sixty Seven";
    PartsBelowCrore(n, 12, 34, 567, "Twelve Lakh", "Thirty Four Thousand", c);
    WordsOfThreeParts(n, "Twelve Lakh", "Thirty Four Thousand", c);
  }

  lemma SpellTwelve()
    ensures InWords(12) + " Lakh" == "Twelve Lakh"
  {
  }

  lemma SpellThirtyFour()
    ensures InWords(34) + " Thousand" == "Thirty Four Thousand"
  {
    assert InWords(34) == "Thirty Four";
  }

  lemma SpellFiveSixtySeven()
    ensures InWords(567) + "" == "Five" + " Hundred " + "Sixty Seven"
  {
    SpellSixtySeven();
    SpellHundreds(567, "Five", "Sixty Seven");
  }

  lemma SpellSixtySeven()
    ensures InWords(67) == "Sixty Seven"
  {
    assert InWords(67) == "Sixty" + " " + "Seven";
  }

  /** A group of hundreds with a non-zero rest, spelled from its two parts. */
  lemma SpellHundreds(n: nat, h: string, rest: string)
    requires 100 <= n < 1000 && n % 100 != 0
    requires Ones(n / 100) == h && InWords(n % 100) == rest
    ensures InWords(n) + "" == h + " Hundred " + rest
  {
    InWordsHundreds(n);
  }

  lemma ExampleElevenEighty(n: nat)
    requires n == 1180
    ensures ClientWords(Some(n)) == "One Thousand" + " " + "One" + " Hundred " + "Eighty" + " Only"
  {
    assert Groups(n) == [0, 0, 1, 180];
    SpellOneThousand();
    SpellOneEighty();
    var c := "One" + " Hundred " + "Eighty";
    PartsBelowLakh(n, 1, 180, "One Thousand", c);
    WordsOfTwoParts(n, "One Thousand", c);
  }

  lemma SpellOneEighty()
    ensures InWords(180) + "" == "One" + " Hundred " + "Eighty"
  {
    assert InWords(80) == "Eighty";
    SpellHundreds(180, "One", "Eighty");
  }

  lemma SpellOneThousand()
    ensures InWords(1) + " Thousand" == "One Thousand"
  {
  }
}
