/** The invoice generator's amount printer and its inverse. */
module AmountPrinter {
  import opened Decimals

  /** The groups of three digits, most significant first. */
  function Groups(n: nat): (gs: seq<string>)
    requires n > 0
    ensures gs != []
  {
    if n < 1000 then [Decimal(n)] else Groups(n / 1000) + [ZFill(Decimal(n % 1000), 3)]
  }

  /** sep.join(parts) */
  function Join(sep: string, parts: seq<string>): string
    requires parts != []
  {
    if |parts| == 1 then parts[0] else Join(sep, parts[..|parts| - 1]) + sep + parts[|parts| - 1]
  }

  function Abs(n: int): nat { if n < 0 then -n else n }

  function WholeText(n: nat, thousandsSep: string): string {
    if n == 0 then "0" else Join(thousandsSep, Groups(n))
  }

  /** Python's // and % round toward minus infinity, as Dafny's do for a positive divisor. */
  function Formatted(amount: int, decimalSep: string, thousandsSep: string, symbol: string): string {
    var whole, fraction := amount / 100, amount % 100;
    var signed := if whole < 0 then "-" + WholeText(Abs(whole), thousandsSep) else WholeText(Abs(whole), thousandsSep);
    symbol + (signed + decimalSep + ZFill(Decimal(fraction), 2))
  }

  // ---------------------------------------------------------------- what the text looks like

  /** The text is the digits with a separator before every third one from the right but the first of
      all, and nothing else. */
  predicate EveryThird(text: string, sep: string, digits: string) {
    if |digits| <= 3 then text == digits
    else
      var tail := sep + digits[|digits| - 3..];
      && |tail| <= |text| && text[|text| - |tail|..] == tail
      && EveryThird(text[..|text| - |tail|], sep, digits[..|digits| - 3])
  }

  /** The symbol, a minus for negative amounts, the floored whole part in threes, the decimal
      separator and the two digits of the rest. */
  predicate Prints(text: string, whole: string, amount: int, decimalSep: string, thousandsSep: string,
                   symbol: string) {
    && text == symbol + (if amount < 0 then "-" else "") + whole + decimalSep
               + [Digit(amount % 100 / 10), Digit(amount % 100 % 10)]
    && EveryThird(whole, thousandsSep, Decimal(if amount < 0 then -(amount / 100) else amount / 100))
  }

  lemma OneMoreDigit(n: nat, d: nat)
    requires n > 0 && d < 10
    ensures Decimal(10 * n + d) == Decimal(n) + [Digit(d)]
  {}

  lemma LastThreeDigits(n: nat)
    requires n >= 1000
    ensures Decimal(n) == Decimal(n / 1000) + ZFill(Decimal(n % 1000), 3)
  {
    var q, r := n / 1000, n % 1000;
    var a, b, c := Split(r);
    SplitText(r, a, b, c);
    OneMoreDigit(q, a);
    OneMoreDigit(10 * q + a, b);
    OneMoreDigit(10 * (10 * q + a) + b, c);
    assert n == 10 * (10 * (10 * q + a) + b) + c;
    assert Decimal(q) + [Digit(a)] + [Digit(b)] + [Digit(c)] == Decimal(q) + [Digit(a), Digit(b), Digit(c)];
  }

  lemma {:induction false} WholeInThrees(n: nat, sep: string)
    ensures EveryThird(WholeText(n, sep), sep, Decimal(n))
  {
    if n < 1000 {
      ThreeDigits(n);
    } else {
      var gs, g := Groups(n / 1000), ZFill(Decimal(n % 1000), 3);
      assert (gs + [g])[..|gs|] == gs;
      WholeInThrees(n / 1000, sep);
      LastThreeDigits(n);
      ThreeDigits(n % 1000);
      var text := WholeText(n, sep);
      assert text == WholeText(n / 1000, sep) + (sep + g);
      assert text[..|text| - |sep + g|] == WholeText(n / 1000, sep);
    }
  }

  lemma FormattedPrints(amount: int, decimalSep: string, thousandsSep: string, symbol: string)
    ensures Prints(Formatted(amount, decimalSep, thousandsSep, symbol), WholeText(Abs(amount / 100), thousandsSep),
                   amount, decimalSep, thousandsSep, symbol)
  {
    WholeInThrees(Abs(amount / 100), thousandsSep);
    TwoDigits(amount % 100);
    var sign, whole := if amount < 0 then "-" else "", WholeText(Abs(amount / 100), thousandsSep);
    InOneRow(symbol, sign, whole, decimalSep, ZFill(Decimal(amount % 100), 2));
  }

  lemma InOneRow(symbol: string, sign: string, whole: string, decimalSep: string, f: string)
    ensures symbol + (sign + whole + decimalSep + f) == symbol + sign + whole + decimalSep + f
    ensures sign == "" ==> symbol + (whole + decimalSep + f) == symbol + sign + whole + decimalSep + f
  {
    assert symbol + "" == symbol;
  }

  /** No other text does: where the separators stand is settled. */
  lemma {:induction false} OneTextInThrees(s: string, t: string, sep: string, digits: string)
    requires EveryThird(s, sep, digits) && EveryThird(t, sep, digits)
    ensures s == t
  {
    if |digits| > 3 {
      var tail := sep + digits[|digits| - 3..];
      OneTextInThrees(s[..|s| - |tail|], t[..|t| - |tail|], sep, digits[..|digits| - 3]);
      assert s == s[..|s| - |tail|] + tail && t == t[..|t| - |tail|] + tail;
    }
  }

  lemma JoinTwo(sep: string, a: string, b: string)
    ensures Join(sep, [a] + [b]) == a + sep + b
  {
    assert ([a] + [b])[..1] == [a];
  }

  lemma WholeExample(sep: string)
    ensures WholeText(1234, sep) == "1" + sep + "234"
  {
    ThreeDigits(234);
    assert [Digit(2), Digit(3), Digit(4)] == "234";
    JoinTwo(sep, "1", "234");
    assert Groups(1234) == ["1"] + ["234"];
  }

  /** The documented examples: "$1,234.56", and "1.234,56" without a symbol. */
  lemma DocumentedExample(decimalSep: string, thousandsSep: string, symbol: string)
    ensures Formatted(123456, decimalSep, thousandsSep, symbol)
            == symbol + ("1" + thousandsSep + "234" + decimalSep + "56")
  {
    WholeExample(thousandsSep);
    TwoDigits(56);
    assert [Digit(5), Digit(6)] == "56";
  }

  // ---------------------------------------------------------------- the printing loop

  /** What the while loop appends: least significant group first, not yet padded. */
  function LowGroups(n: nat): seq<string> {
    if n == 0 then [] else [Decimal(n % 1000)] + LowGroups(n / 1000)
  }

  function Reversed(s: seq<string>): (r: seq<string>)
    ensures |r| == |s| && forall i :: 0 <= i < |s| ==> r[i] == s[|s| - 1 - i]
  {
    if s == [] then [] else Reversed(s[1..]) + [s[0]]
  }

  /** groups with all but the first padded */
  function Padded(gs: seq<string>): seq<string> {
    seq(|gs|, i requires 0 <= i < |gs| => if i == 0 then gs[0] else ZFill(gs[i], 3))
  }

  lemma {:induction false} LoopBuildsGroups(n: nat)
    requires n > 0
    ensures Padded(Reversed(LowGroups(n))) == Groups(n)
  {
    var rest := LowGroups(n / 1000);
    assert LowGroups(n)[1..] == rest;
    if n < 1000 {
      assert Reversed(LowGroups(n)) == [Decimal(n)];
    } else {
      LoopBuildsGroups(n / 1000);
      assert Reversed(LowGroups(n)) == Reversed(rest) + [Decimal(n % 1000)];
      assert |rest| > 0;
      assert Padded(Reversed(LowGroups(n))) == Padded(Reversed(rest)) + [ZFill(Decimal(n % 1000), 3)];
    }
  }

  /** The while loop that cuts the whole part into groups. */
  method CutGroups(n: nat) returns (groups: seq<string>)
    ensures groups == LowGroups(n)
  {
    groups := [];
    var wholeAbs := n;
    while wholeAbs > 0
      invariant groups + LowGroups(wholeAbs) == LowGroups(n)
    {
      groups := groups + [Decimal(wholeAbs % 1000)];
      wholeAbs := wholeAbs / 1000;
    }
  }

  /** The cut, and the passes over the list of groups. */
  method GroupDigits(n: nat) returns (groups: seq<string>)
    requires n > 0
    ensures groups == Groups(n)
  {
    groups := CutGroups(n);
    assert groups[0] == Decimal(n % 1000);
    groups := Reversed(groups);
    LoopBuildsGroups(n);
    groups := PadGroups(groups);
  }

  method PadGroups(bare: seq<string>) returns (groups: seq<string>)
    requires bare != []
    ensures groups == Padded(bare)
  {
    groups := bare;
    for i := 1 to |groups|
      invariant |groups| == |bare|
      invariant forall j :: 0 <= j < |groups| ==> groups[j] == if 0 < j < i then ZFill(bare[j], 3) else bare[j]
    {
      groups := groups[i := ZFill(groups[i], 3)];
    }
  }

  method FormatAmount(amount: int, decimalSep: string, thousandsSep: string, symbol: string) returns (text: string)
    ensures text == Formatted(amount, decimalSep, thousandsSep, symbol)
    ensures exists whole :: Prints(text, whole, amount, decimalSep, thousandsSep, symbol)
  {
    FormattedPrints(amount, decimalSep, thousandsSep, symbol);
    var whole := amount / 100;
    var fraction := amount % 100;
    var wholeText := "";
    var wholeAbs := Abs(whole);
    if wholeAbs == 0 {
      wholeText := "0";
    } else {
      var groups := GroupDigits(wholeAbs);
      wholeText := Join(thousandsSep, groups);
    }
    if whole < 0 {
      wholeText := "-" + wholeText;
    }
    var amountText := wholeText + decimalSep + ZFill(Decimal(fraction), 2);
    text := if symbol != "" then symbol + amountText else amountText;
  }

  // ---------------------------------------------------------------- reading it back

  function Until(s: string, c: char): (p: string)
    ensures p <= s && c !in p && (|p| < |s| ==> s[|p|] == c)
  {
    if s == "" || s[0] == c then "" else [s[0]] + Until(s[1..], c)
  }

  datatype Reading = Reading(negative: bool, whole: nat, fraction: nat)

  /** Split at the first decimal separator, read the digits on either side. */
  function ReadUnsigned(negative: bool, digits: string, decimalSep: string): Reading
    requires decimalSep != ""
  {
    var whole := Until(digits, decimalSep[0]);
    var rest := digits[|whole|..];
    Reading(negative, Read(whole), if |decimalSep| <= |rest| then Read(rest[|decimalSep|..]) else 0)
  }

  /** Strip the symbol, then the sign. */
  function ReadBack(text: string, decimalSep: string, symbol: string): Reading
    requires |symbol| <= |text| && decimalSep != ""
  {
    var body := text[|symbol|..];
    if body != "" && body[0] == '-' then ReadUnsigned(true, body[1..], decimalSep)
    else ReadUnsigned(false, body, decimalSep)
  }

  /** The value when the sign belongs to the whole part only, as the printer means it. */
  function FloorValue(r: Reading): int {
    (if r.negative then -100 * r.whole else 100 * r.whole) + r.fraction
  }

  /** The value as people read a signed decimal. */
  function OrdinaryValue(r: Reading): int {
    if r.negative then -(100 * r.whole + r.fraction) else 100 * r.whole + r.fraction
  }

  /** Separators the reader can tell from digits and from each other. */
  predicate Legible(decimalSep: string, thousandsSep: string) {
    && decimalSep != "" && !IsDigit(decimalSep[0]) && decimalSep[0] !in thousandsSep
    && forall i :: 0 <= i < |thousandsSep| ==> !IsDigit(thousandsSep[i])
  }

  lemma {:induction false} GroupsRead(n: nat, sep: string)
    requires n > 0 && forall i :: 0 <= i < |sep| ==> !IsDigit(sep[i])
    ensures Read(Join(sep, Groups(n))) == n
  {
    if n < 1000 {
      ReadDecimal(n);
    } else {
      var gs, g := Groups(n / 1000), ZFill(Decimal(n % 1000), 3);
      assert (gs + [g])[..|gs|] == gs;
      GroupsRead(n / 1000, sep);
      ReadSkips(Join(sep, gs), sep);
      ReadTriple(Join(sep, gs) + sep, n % 1000);
    }
  }

  /** A printed whole part starts with a digit and consists of digits and thousands separators. */
  lemma {:induction false} WholeIsPlain(n: nat, sep: string)
    ensures WholeText(n, sep) != "" && IsDigit(WholeText(n, sep)[0])
    ensures forall c :: c in WholeText(n, sep) ==> IsDigit(c) || c in sep
  {
    if n >= 1000 {
      var gs, g := Groups(n / 1000), ZFill(Decimal(n % 1000), 3);
      assert (gs + [g])[..|gs|] == gs;
      WholeIsPlain(n / 1000, sep);
      ThreeDigits(n % 1000);
      assert WholeText(n, sep) == WholeText(n / 1000, sep) + sep + g;
    }
  }

  lemma UntilStops(a: string, s: string)
    requires a < s && s[|a|] !in a
    ensures Until(s, s[|a|]) == a
  {}

  lemma SplitReads(w: string, decimalSep: string, f: string)
    requires decimalSep != "" && decimalSep[0] !in w
    ensures var digits := w + decimalSep + f;
            var whole := Until(digits, decimalSep[0]);
            whole == w && digits[|whole|..][|decimalSep|..] == f
  {
    var digits := w + decimalSep + f;
    assert digits[|w|] == decimalSep[0];
    UntilStops(w, digits);
    assert digits[|w|..] == decimalSep + f;
  }

  lemma UnsignedReads(negative: bool, n: nat, fraction: nat, decimalSep: string, thousandsSep: string)
    requires Legible(decimalSep, thousandsSep) && fraction < 100
    ensures ReadUnsigned(negative, WholeText(n, thousandsSep) + decimalSep + ZFill(Decimal(fraction), 2), decimalSep)
            == Reading(negative, n, fraction)
  {
    WholeIsPlain(n, thousandsSep);
    SplitReads(WholeText(n, thousandsSep), decimalSep, ZFill(Decimal(fraction), 2));
    ReadPair(fraction);
    if n == 0 {
      ReadDecimal(0);
    } else {
      GroupsRead(n, thousandsSep);
    }
  }

  lemma SignReads(symbol: string, w: string, decimalSep: string, f: string)
    requires w != "" && IsDigit(w[0]) && decimalSep != ""
    ensures ReadBack(symbol + (w + decimalSep + f), decimalSep, symbol) ==
              ReadUnsigned(false, w + decimalSep + f, decimalSep)
    ensures ReadBack(symbol + ("-" + w + decimalSep + f), decimalSep, symbol) ==
              ReadUnsigned(true, w + decimalSep + f, decimalSep)
  {
    var plain, minus := w + decimalSep + f, "-" + w + decimalSep + f;
    assert (symbol + plain)[|symbol|..] == plain && plain[0] == w[0];
    assert (symbol + minus)[|symbol|..] == minus && minus[1..] == plain;
  }

  lemma FormattedReads(amount: int, decimalSep: string, thousandsSep: string, symbol: string)
    requires Legible(decimalSep, thousandsSep)
    ensures var text := Formatted(amount, decimalSep, thousandsSep, symbol);
            |symbol| <= |text|
            && ReadBack(text, decimalSep, symbol) == Reading(amount < 0, Abs(amount / 100), amount % 100)
  {
    var n := Abs(amount / 100);
    WholeIsPlain(n, thousandsSep);
    UnsignedReads(amount < 0, n, amount % 100, decimalSep, thousandsSep);
    SignReads(symbol, WholeText(n, thousandsSep), decimalSep, ZFill(Decimal(amount % 100), 2));
  }

  /** The printer loses nothing: for every amount, and any separators that can be told from digits
      and from each other, the text reads back to the amount. */
  lemma PrinterInverts(amount: int, decimalSep: string, thousandsSep: string, symbol: string)
    requires Legible(decimalSep, thousandsSep)
    ensures FloorValue(ReadBack(Formatted(amount, decimalSep, thousandsSep, symbol), decimalSep, symbol)) == amount
  {
    FormattedReads(amount, decimalSep, thousandsSep, symbol);
  }

  /** Read the ordinary way the text is right exactly for amounts that are not negative or are whole:
      -150 cents print as "-2.50". */
  lemma OrdinaryReadingIff(amount: int, decimalSep: string, thousandsSep: string, symbol: string)
    requires Legible(decimalSep, thousandsSep)
    ensures OrdinaryValue(ReadBack(Formatted(amount, decimalSep, thousandsSep, symbol), decimalSep, symbol)) == amount
            <==> amount >= 0 || amount % 100 == 0
  {
    FormattedReads(amount, decimalSep, thousandsSep, symbol);
  }

  /** The first group has one to three digits and no leading zero; all others have exactly three. */
  lemma {:induction false} GroupShape(n: nat)
    requires n > 0
    ensures var gs := Groups(n);
            && 1 <= |gs[0]| <= 3 && gs[0][0] != '0'
            && (forall i :: 0 < i < |gs| ==> |gs[i]| == 3)
            && (forall i, j :: 0 <= i < |gs| && 0 <= j < |gs[i]| ==> IsDigit(gs[i][j]))
  {
    if n < 1000 {
      ThreeDigits(n);
    } else {
      GroupShape(n / 1000);
      ThreeDigits(n % 1000);
    }
  }
}
