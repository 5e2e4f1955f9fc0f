/** The rules relatorios.js applies while it renders the monthly report
    page: which daily reports become cards, the colour tier of a card, the
    card's date fields, sales label and product summary, the month lookup,
    the names of downloaded files and the day-over-day comparison. Money is
    integer cents. */
module Reports {
  import opened Wrappers
  import opened JsStrings
  import opened JsArrays

  // ---------------------------------------------------------------------
  // Daily reports and the cards shown for them
  // ---------------------------------------------------------------------

  /** One entry of `relatorios_diarios`: the date as `dd/mm/yyyy`, the day's
      total in cents, the number of sales, the `tem_vendas` flag and the
      `produtos_resumo` entries (product name and quantity) in key order. */
  datatype DailyReport = DailyReport(
    date: string, totalCents: int, salesCount: int, hasSales: bool, products: seq<(string, int)>)

  /** The reports that become cards, in the order the server sent them. */
  function CardsShown(reports: seq<DailyReport>): (cards: seq<DailyReport>)
    ensures |cards| <= |reports|
    ensures forall i :: 0 <= i < |cards| ==> cards[i].hasSales
  {
    Filter(reports, (r: DailyReport) => r.hasSales)
  }

  /** Whether the month shows its "no sales" message instead of cards. */
  predicate ShowsEmptyMessage(reports: seq<DailyReport>) {
    |CardsShown(reports)| == 0
  }

  /** Exactly the reports with sales become cards, in their original order
      (cards of a list laid end to end are the two lists of cards laid end
      to end), and the "no sales" message shows exactly when no report has
      sales. */
  lemma CardsShownProperties(reports: seq<DailyReport>, more: seq<DailyReport>)
    ensures forall r :: r in CardsShown(reports) <==> r in reports && r.hasSales
    ensures CardsShown(reports + more) == CardsShown(reports) + CardsShown(more)
    ensures ShowsEmptyMessage(reports) <==> forall i :: 0 <= i < |reports| ==> !reports[i].hasSales
  {
    FilterAppend(reports, more, (r: DailyReport) => r.hasSales);
    FilterEmpty(reports, (r: DailyReport) => r.hasSales);
  }

  // ---------------------------------------------------------------------
  // Colour tier of a card
  // ---------------------------------------------------------------------

  /** The four looks of a card: green, blue, yellow and the default gray. */
  datatype Tier = Green | Blue | Yellow | Gray

  /** The tier of a day's total: above R$ 100, above R$ 50, above R$ 20,
      tested in that order with strict comparisons. */
  function DayTier(totalCents: int): (t: Tier)
    ensures t == Green <==> totalCents > 10000
    ensures t == Blue <==> 5000 < totalCents <= 10000
    ensures t == Yellow <==> 2000 < totalCents <= 5000
    ensures t == Gray <==> totalCents <= 2000
  {
    if totalCents > 10000 then Green
    else if totalCents > 5000 then Blue
    else if totalCents > 2000 then Yellow
    else Gray
  }

  /** Tiers ordered from the lowest totals to the highest. */
  function TierRank(t: Tier): nat {
    match t
    case Gray => 0
    case Yellow => 1
    case Blue => 2
    case Green => 3
  }

  /** A larger total never falls into a lower tier. */
  lemma DayTierMonotone(a: int, b: int)
    requires a <= b
    ensures TierRank(DayTier(a)) <= TierRank(DayTier(b))
  {
  }

  /** The text colour class and the card background class of a tier. */
  function TierClasses(t: Tier): (classes: (string, string))
    ensures "text-" <= classes.0 && "bg-" <= classes.1
  {
    match t
    case Green => ("text-green-700", "bg-green-50")
    case Blue => ("text-blue-700", "bg-blue-50")
    case Yellow => ("text-yellow-700", "bg-yellow-50")
    case Gray => ("text-gray-600", "bg-gray-50")
  }

  /** Different tiers look different: both classes tell the tier apart. */
  lemma TierClassesDistinct(s: Tier, t: Tier)
    requires s != t
    ensures TierClasses(s).0 != TierClasses(t).0 && TierClasses(s).1 != TierClasses(t).1
  {
    match s
    case Green => assert TierClasses(s).0[5] == 'g' && TierClasses(s).1[3] == 'g';
    case Blue => assert TierClasses(s).0[5] == 'b' && TierClasses(s).1[3] == 'b';
    case Yellow => assert TierClasses(s).0[5] == 'y' && TierClasses(s).1[3] == 'y';
    case Gray => assert TierClasses(s).0[5] == 'g' && TierClasses(s).0[8] == 'y';
  }

  // ---------------------------------------------------------------------
  // The card's date fields and the arguments of its buttons
  // ---------------------------------------------------------------------

  /** The day and month a card takes from its date: the first `/`-separated
      field and the second one, None (`undefined`) when there is no `/`. */
  function DateFields(date: string): (fields: (string, Option<string>))
    ensures '/' !in fields.0 && (fields.1.Some? ==> '/' !in fields.1.value)
  {
    var parts := Split(date, '/');
    (parts[0], if |parts| >= 2 then Some(parts[1]) else None)
  }

  /** A date written as `d/m/y` with no `/` inside the three fields gives
      back `d` and `m`. */
  lemma DateFieldsOfDate(d: string, m: string, y: string)
    requires '/' !in d && '/' !in m && '/' !in y
    ensures DateFields(d + "/" + m + "/" + y) == (d, Some(m))
  {
    var parts := [d, m, y];
    assert Join(parts[2..], "/") == y;
    assert Join(parts[1..], "/") == m + "/" + y;
    assert Join(parts, "/") == d + "/" + m + "/" + y;
    SplitJoin(parts, '/');
  }

  /** A value the card passes to its buttons: a Number, or `undefined`. */
  datatype Arg = Num(value: int) | Undefined

  /** How a button argument is written into a URL or a file name. */
  function ArgText(a: Arg): string {
    match a
    case Num(v) => IntToString(v)
    case Undefined => "undefined"
  }

  predicate IsOctalDigit(c: char) {
    '0' <= c <= '7'
  }

  /** A non-empty string of decimal digits. */
  predicate IsNumeral(s: string) {
    s != [] && forall i :: 0 <= i < |s| ==> IsDigit(s[i])
  }

  /** The Number a run of decimal digits denotes when it is pasted as a
      literal into an inline handler (sloppy-mode code): a leading 0
      followed by octal digits only is a legacy octal literal, anything
      else is read in decimal. */
  function LiteralValue(s: string): nat
    requires IsNumeral(s)
  {
    if |s| >= 2 && s[0] == '0' && forall i :: 1 <= i < |s| ==> IsOctalDigit(s[i])
    then DigitsValue(s[1..], 8)
    else DigitsValue(s, 10)
  }

  /** The argument a card's button receives for a date field: the literal's
      value, or `undefined` for a missing field; None for a field that is
      not a run of digits (no date the server formats has one). */
  function FieldArgument(field: Option<string>): (arg: Option<Arg>)
    ensures arg == Some(Undefined) <==> field.None?
    ensures arg.Some? && arg.value.Num? ==> arg.value.value >= 0
  {
    match field
    case None => Some(Undefined)
    case Some(s) => if IsNumeral(s) then Some(Num(LiteralValue(s))) else None
  }

  /** For the one- and two-digit fields of a `dd/mm/yyyy` date the legacy
      octal reading agrees with the decimal one, so "05" and "09" both pass
      their decimal value and the leading zero is lost. */
  lemma ShortFieldIsDecimal(s: string)
    requires IsNumeral(s) && |s| <= 2
    ensures LiteralValue(s) == DigitsValue(s, 10)
    ensures FieldArgument(Some(s)) == Some(Num(DigitsValue(s, 10)))
  {
    if |s| == 2 && s[0] == '0' {
      var t := s[1..];
      assert t[..0] == [];
      assert DigitsValue(t, 8) == DigitValue(s[1]);
      assert s[..1][..0] == [];
      assert DigitsValue(s[..1], 10) == 0;
      assert DigitsValue(s, 10) == DigitValue(s[1]);
    }
  }

  /** A card whose date is `d/m/y` with one- or two-digit numerals `d` and
      `m` passes their decimal values to its buttons. */
  lemma CardArguments(d: string, m: string, y: string)
    requires '/' !in d && '/' !in m && '/' !in y
    requires IsNumeral(d) && IsNumeral(m) && |d| <= 2 && |m| <= 2
    ensures var fields := DateFields(d + "/" + m + "/" + y);
      && FieldArgument(Some(fields.0)) == Some(Num(DigitsValue(d, 10)))
      && FieldArgument(fields.1) == Some(Num(DigitsValue(m, 10)))
  {
    DateFieldsOfDate(d, m, y);
    ShortFieldIsDecimal(d);
    ShortFieldIsDecimal(m);
  }

  // ---------------------------------------------------------------------
  // Sales label and product summary
  // ---------------------------------------------------------------------

  /** "n venda", with an "s" unless n is 1. */
  function SalesLabel(n: int): string {
    IntToString(n) + " venda" + (if n != 1 then "s" else "")
  }

  /** The label ends in "s" exactly when the count is not 1, and it starts
      with the count as `String(n)` writes it. */
  lemma SalesLabelPlural(n: int)
    ensures SalesLabel(n)[|SalesLabel(n)| - 1] == 's' <==> n != 1
    ensures IntToString(n) <= SalesLabel(n)
  {
    var front := IntToString(n) + " venda";
    if n != 1 {
      assert SalesLabel(n) == front + "s";
    } else {
      assert SalesLabel(n) == front;
      assert front[|front| - 1] == 'a';
    }
    assert SalesLabel(n)[..|IntToString(n)|] == IntToString(n);
  }

  /** One entry of the summary: "qty" + "x " + product name. */
  function SummaryItem(entry: (string, int)): string {
    IntToString(entry.1) + "x " + entry.0
  }

  /** The summary line of a card: the first two product keys, each as
      `SummaryItem`, joined by ", ". */
  function SummaryList(products: seq<(string, int)>): string {
    var shown := if |products| <= 2 then products else products[..2];
    Join(seq(|shown|, i requires 0 <= i < |shown| => SummaryItem(shown[i])), ", ")
  }

  /** The marker after the summary: "..." when there are more than two keys. */
  function SummaryEllipsis(products: seq<(string, int)>): string {
    if |products| > 2 then "..." else ""
  }

  /** Only the first two products are listed, and the ellipsis appears
      exactly when some product is left out. */
  lemma SummaryShowsFirstTwo(products: seq<(string, int)>, rest: seq<(string, int)>)
    requires |products| == 2
    ensures SummaryList(products + rest) == SummaryItem(products[0]) + ", " + SummaryItem(products[1])
    ensures SummaryEllipsis(products + rest) == "..." <==> rest != []
  {
    var all := products + rest;
    var shown := if |all| <= 2 then all else all[..2];
    assert shown == products;
    var items := seq(|shown|, i requires 0 <= i < |shown| => SummaryItem(shown[i]));
    assert |items| == 2 && items[0] == SummaryItem(products[0]);
    assert items[1..] == [SummaryItem(products[1])];
    assert Join(items, ", ") == items[0] + ", " + Join(items[1..], ", ");
  }

  /** A card with one or no product lists just that product or nothing. */
  lemma SummaryOfFewProducts(products: seq<(string, int)>)
    requires |products| <= 1
    ensures SummaryList(products) == (if products == [] then "" else SummaryItem(products[0]))
    ensures SummaryEllipsis(products) == ""
  {
  }

  // ---------------------------------------------------------------------
  // Month names and numbers
  // ---------------------------------------------------------------------

  /** The month names the server sends as `mes_nome`, January first. */
  const MonthNames: seq<string> := [
    "Janeiro", "Fevereiro", "Mar\U{E7}o", "Abril", "Maio", "Junho",
    "Julho", "Agosto", "Setembro", "Outubro", "Novembro", "Dezembro"]

  /** The object literal of `getMesNumero`. */
  const MonthTable: map<string, int> := map[
    "Janeiro" := 1, "Fevereiro" := 2, "Mar\U{E7}o" := 3, "Abril" := 4,
    "Maio" := 5, "Junho" := 6, "Julho" := 7, "Agosto" := 8,
    "Setembro" := 9, "Outubro" := 10, "Novembro" := 11, "Dezembro" := 12]

  /** `getMesNumero`: the month's number, 1 for anything that is not one of
      the twelve names (the lookup gives `undefined`, and `|| 1` turns it
      into 1). */
  function MonthNumber(name: string): (m: int)
    ensures 1 <= m <= 12
  {
    if name in MonthTable && MonthTable[name] != 0 then MonthTable[name] else 1
  }

  /** Every month name maps to its position, counting from 1, and any other
      text maps to 1. */
  lemma MonthNumberOfName(name: string)
    ensures forall i :: 0 <= i < 12 && MonthNames[i] == name ==> MonthNumber(name) == i + 1
    ensures name !in MonthNames ==> MonthNumber(name) == 1
    ensures 1 <= MonthNumber(name) <= 12
  {
    assert forall i :: 0 <= i < 12 ==> MonthNames[i] in MonthTable && MonthTable[MonthNames[i]] == i + 1;
    assert forall k :: k in MonthTable ==> k in MonthNames;
  }

  /** A number other than 1 comes only from the name of that month. */
  lemma MonthNumberInverse(name: string)
    requires MonthNumber(name) != 1
    ensures name == MonthNames[MonthNumber(name) - 1]
  {
    MonthNumberOfName(name);
    assert name in MonthTable;
  }

  // ---------------------------------------------------------------------
  // Download links and file names
  // ---------------------------------------------------------------------

  /** The `meses` list of `downloadRelatorioMensal`: an empty entry, then
      the months in lower case. */
  const FileMonthNames: seq<string> := [
    "", "janeiro", "fevereiro", "mar\U{E7}o", "abril", "maio", "junho",
    "julho", "agosto", "setembro", "outubro", "novembro", "dezembro"]

  /** `meses[mes]` as a template writes it: "undefined" past either end. */
  function FileMonthName(month: int): string {
    if 0 <= month < |FileMonthNames| then FileMonthNames[month] else "undefined"
  }

  /** `relatorio_{dia}_{mes}_{ano}.pdf`. */
  function DailyFileName(year: Arg, month: Arg, day: Arg): string {
    "relatorio_" + ArgText(day) + "_" + ArgText(month) + "_" + ArgText(year) + ".pdf"
  }

  /** `/vendas/download-relatorio-diario/{ano}/{mes}/{dia}/`. */
  function DailyLink(year: Arg, month: Arg, day: Arg): string {
    "/vendas/download-relatorio-diario/" + ArgText(year) + "/" + ArgText(month) + "/" + ArgText(day) + "/"
  }

  /** `relatorio_mensal_{meses[mes]}_{ano}.pdf`. */
  function MonthlyFileName(year: int, month: int): string {
    "relatorio_mensal_" + FileMonthName(month) + "_" + IntToString(year) + ".pdf"
  }

  /** `/vendas/download-relatorio-mensal/{ano}/{mes}/`. */
  function MonthlyLink(year: int, month: int): string {
    "/vendas/download-relatorio-mensal/" + IntToString(year) + "/" + IntToString(month) + "/"
  }

  /** The card dated "05/03/2024" passes 5 and 3 to its buttons (see
      `CardArguments`), so it downloads `relatorio_5_3_2024.pdf`: the
      leading zeros of the date do not reach the file name. */
  lemma CardFileNameExample()
    ensures DailyFileName(Num(2024), Num(3), Num(5)) == "relatorio_5_3_2024.pdf"
  {
    assert ArgText(Num(5)) == "5";
    assert ArgText(Num(3)) == "3";
    assert NatToString(2024) == "2024" by {
      assert NatToString(2) == "2";
      assert NatToString(20) == NatToString(2) + "0";
      assert NatToString(202) == NatToString(20) + "2";
      assert NatToString(2024) == NatToString(202) + "4";
    }
    assert ArgText(Num(2024)) == "2024";
  }

  /** `String(n)` writes no `_`. */
  lemma ArgTextHasNoUnderscore(a: Arg)
    ensures '_' !in ArgText(a)
  {
    if a.Num? {
      var digits := NatToString(if a.value < 0 then -a.value else a.value);
      assert forall i :: 0 <= i < |digits| ==> digits[i] != '_';
    }
  }

  /** The middle of `p + m + q` is `m`. */
  lemma Infix(p: string, m: string, q: string)
    ensures (p + m + q)[|p|..|p| + |m|] == m
  {
  }

  /** Three pieces without `_` joined by `_` split back into those pieces. */
  lemma SplitThree(a: string, b: string, c: string)
    requires '_' !in a && '_' !in b && '_' !in c
    ensures Split(a + "_" + b + "_" + c, '_') == [a, b, c]
  {
    var parts := [a, b, c];
    assert Join(parts[2..], "_") == c;
    assert Join(parts[1..], "_") == b + "_" + c;
    assert Join(parts, "_") == a + "_" + b + "_" + c;
    SplitJoin(parts, '_');
  }

  /** The part of a daily file name between `relatorio_` and `.pdf`. */
  lemma DailyFileNameMiddle(year: Arg, month: Arg, day: Arg)
    ensures var name := DailyFileName(year, month, day);
      |name| >= 14 && Split(name[10..|name| - 4], '_') == [ArgText(day), ArgText(month), ArgText(year)]
  {
    var middle := ArgText(day) + "_" + ArgText(month) + "_" + ArgText(year);
    assert DailyFileName(year, month, day) == "relatorio_" + middle + ".pdf";
    Infix("relatorio_", middle, ".pdf");
    ArgTextHasNoUnderscore(day);
    ArgTextHasNoUnderscore(month);
    ArgTextHasNoUnderscore(year);
    SplitThree(ArgText(day), ArgText(month), ArgText(year));
  }

  /** The daily file name tells its day, month and year back: two
      different days never share a file name. */
  lemma DailyFileNameInjective(y1: Arg, m1: Arg, d1: Arg, y2: Arg, m2: Arg, d2: Arg)
    requires DailyFileName(y1, m1, d1) == DailyFileName(y2, m2, d2)
    ensures y1 == y2 && m1 == m2 && d1 == d2
  {
    DailyFileNameMiddle(y1, m1, d1);
    DailyFileNameMiddle(y2, m2, d2);
    ArgTextInjective(d1, d2);
    ArgTextInjective(m1, m2);
    ArgTextInjective(y1, y2);
  }

  /** Different arguments are written differently. */
  lemma ArgTextInjective(a: Arg, b: Arg)
    requires ArgText(a) == ArgText(b)
    ensures a == b
  {
    match a {
      case Num(v) =>
        match b {
          case Num(w) => IntToStringInjective(v, w);
          case Undefined => NumberTextIsNotUndefined(v);
        }
      case Undefined =>
        match b {
          case Num(w) => NumberTextIsNotUndefined(w);
          case Undefined =>
        }
    }
  }

  /** `String(n)` never reads "undefined". */
  lemma NumberTextIsNotUndefined(n: int)
    ensures IntToString(n) != "undefined"
  {
    var s := IntToString(n);
    var digits := NatToString(if n < 0 then -n else n);
    assert s[|s| - 1] == digits[|digits| - 1];
    assert IsDigit(s[|s| - 1]);
  }

  /** The header's monthly button passes `getMesNumero` of the month name,
      so its file carries that name in lower case, and any text that is
      not a month name downloads as January. */
  lemma MonthlyFileNameOfHeader(name: string, year: int)
    ensures name in MonthNames ==>
              MonthlyFileName(year, MonthNumber(name)) == "relatorio_mensal_" + ToLower(name) + "_" + IntToString(year) + ".pdf"
    ensures name !in MonthNames ==>
              MonthlyFileName(year, MonthNumber(name)) == "relatorio_mensal_janeiro_" + IntToString(year) + ".pdf"
  {
    MonthNumberOfName(name);
    if name in MonthNames {
      var i :| 0 <= i < 12 && MonthNames[i] == name;
      LowerMonthName(i);
    }
  }

  /** The file list holds each month name in lower case. */
  lemma LowerMonthName(i: nat)
    requires i < 12
    ensures FileMonthNames[i + 1] == ToLower(MonthNames[i])
  {
    var lowered := ToLower(MonthNames[i]);
    var expected := FileMonthNames[i + 1];
    assert |lowered| == |expected|;
    forall k | 0 <= k < |expected|
      ensures lowered[k] == expected[k]
    {
    }
  }

  // ---------------------------------------------------------------------
  // Money as toFixed(2) writes it
  // ---------------------------------------------------------------------

  /** The two digits of a cent count below 100. */
  function TwoDigits(c: nat): string
    requires c < 100
  {
    [DigitChar(c / 10), DigitChar(c % 10)]
  }

  /** An amount in cents as `toFixed(2)` writes it: an optional minus, the
      whole units, a point and two digits. */
  function MoneyText(cents: int): string {
    var magnitude := if cents < 0 then -cents else cents;
    (if cents < 0 then "-" else "") + NatToString(magnitude / 100) + "." + TwoDigits(magnitude % 100)
  }

  // ---------------------------------------------------------------------
  // The day-over-day comparison
  // ---------------------------------------------------------------------

  /** The colours the comparison figure can take: the page's purple, green
      for a gain, red for a loss. */
  datatype Palette = Purple | GreenPalette | RedPalette

  /** The text of the comparison figure for a difference in cents. */
  function ComparisonText(diffCents: int): string {
    if diffCents > 0 then "+R$ " + MoneyText(diffCents)
    else if diffCents < 0 then "R$ " + MoneyText(diffCents)
    else "R$ 0,00"
  }

  /** The figure starts with "+" exactly for a gain, carries a minus
      exactly for a loss, and reads "R$ 0,00" exactly for no change. */
  lemma ComparisonTextSign(diffCents: int)
    ensures ComparisonText(diffCents)[0] == '+' <==> diffCents > 0
    ensures ComparisonText(diffCents)[..4] == "R$ -" <==> diffCents < 0
    ensures ComparisonText(diffCents) == "R$ 0,00" <==> diffCents == 0
  {
    var t := ComparisonText(diffCents);
    if diffCents > 0 {
      assert t[3] == ' ';
    } else if diffCents < 0 {
      assert t[..4] == "R$ -";
    } else {
      assert t[3] == '0';
    }
  }

  /** The colour each refresh gives the figure, as the page does it: the
      class swap replaces the purple token, so it only acts while the
      figure is still purple, and a difference of zero leaves the colour
      as it was. From the initial purple it agrees with the sign rule;
      once green or red, the figure keeps that colour for good. */
  function ComparisonPaletteAsWritten(previous: Palette, diffCents: int): (p: Palette)
    ensures previous == Purple ==> p == ComparisonPalette(diffCents)
    ensures previous != Purple ==> p == previous
  {
    if diffCents > 0 then (if previous == Purple then GreenPalette else previous)
    else if diffCents < 0 then (if previous == Purple then RedPalette else previous)
    else previous
  }

  /** After a refresh that showed a gain, a later refresh showing a loss
      still paints the figure green. */
  lemma StaleComparisonColour()
    ensures ComparisonPaletteAsWritten(ComparisonPaletteAsWritten(Purple, 1500), -800) == GreenPalette
    ensures ComparisonText(-800) == "R$ -8.00"
  {
    assert MoneyText(-800) == "-8.00" by {
      assert NatToString(8) == "8";
      assert TwoDigits(0) == "00";
    }
  }

  /** The colour the figure should take for a difference: green for a gain,
      red for a loss, purple for no change, whatever it showed before. */
  function ComparisonPalette(diffCents: int): (p: Palette)
    ensures p == GreenPalette <==> diffCents > 0
    ensures p == RedPalette <==> diffCents < 0
    ensures p == Purple <==> diffCents == 0
  {
    if diffCents > 0 then GreenPalette else if diffCents < 0 then RedPalette else Purple
  }
}
