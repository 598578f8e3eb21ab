/**
 * The summary the form copies: a header line, then the totals one per line
 * in a fixed order with blank lines between the groups.
 */
module Summary {
  import opened Decimal
  import opened Reconciliation
  import opened Display

  /** One summary line: a label such as "Z - £" and an amount to two decimal places. */
  function AmountLine(prefix: string, amount: real): string {
    prefix + ToFixed(amount, 2)
  }

  /**
   * The copied summary, the same pieces as the form concatenates (each
   * amount line followed by one or two newlines), grouped from the right.
   */
  function SummaryText(header: string, s: Session): string
    requires Complete(s)
  {
    header + "\n" +
    (AmountLine("Z - £", s.zReport) + "\n" +
    (AmountLine("Card - £", TotalCardPayments(s)) + "\n" +
    (AmountLine("Cash - £", CashTakingsAfterFloat(s)) + "\n" +
    (AmountLine("Petty Cash - £", s.pettyCash) + "\n\n" +
    ("Gratuity\n" +
    (AmountLine("Card - £", TotalCardGratuity(s)) + "\n" +
    (AmountLine("Cash - £", s.cashGratuity) + "\n" +
    (AmountLine("Total - £", TotalCombinedGratuity(s)) + "\n\n" +
    (AmountLine("Discounts - £", s.discounts) + "\n\n" +
    ("Difference - " + FormatSignedCurrency(OverallDifference(s))))))))))))
  }

  /**
   * The summary line by line: the header; Z, card payments, cash takings
   * after the float and petty cash; a blank line; the gratuity block (card,
   * cash, total); a blank line; discounts; a blank line; the difference.
   */
  function SummaryLines(header: string, s: Session): seq<string>
    requires Complete(s)
  {
    [ header,
      AmountLine("Z - £", s.zReport),
      AmountLine("Card - £", TotalCardPayments(s)),
      AmountLine("Cash - £", CashTakingsAfterFloat(s)),
      AmountLine("Petty Cash - £", s.pettyCash),
      "",
      "Gratuity",
      AmountLine("Card - £", TotalCardGratuity(s)),
      AmountLine("Cash - £", s.cashGratuity),
      AmountLine("Total - £", TotalCombinedGratuity(s)),
      "",
      AmountLine("Discounts - £", s.discounts),
      "",
      "Difference - " + FormatSignedCurrency(OverallDifference(s)) ]
  }

  /** Splits a text at every newline, as String.prototype.split("\n") does. */
  function SplitLines(text: string): (lines: seq<string>)
    ensures |lines| >= 1
  {
    if text == [] then [""]
    else if text[0] == '\n' then [""] + SplitLines(text[1..])
    else
      var rest := SplitLines(text[1..]);
      [[text[0]] + rest[0]] + rest[1..]
  }

  /** Lines joined with a newline between each two. */
  function JoinLines(lines: seq<string>): string
    requires |lines| >= 1
  {
    if |lines| == 1 then lines[0] else lines[0] + "\n" + JoinLines(lines[1..])
  }

  predicate OneLine(line: string) {
    '\n' !in line
  }

  lemma {:induction false} SplitLinesAfter(line: string, rest: string)
    requires OneLine(line)
    ensures SplitLines(line + "\n" + rest) == [line] + SplitLines(rest)
    decreases |line|
  {
    if line == [] {
      assert line + "\n" + rest == "\n" + rest;
      assert ("\n" + rest)[1..] == rest;
    } else {
      var text := line + "\n" + rest;
      assert text[0] == line[0];
      assert text[1..] == line[1..] + "\n" + rest;
      SplitLinesAfter(line[1..], rest);
      assert [line[0]] + line[1..] == line;
    }
  }

  lemma {:induction false} SplitLinesSingle(line: string)
    requires OneLine(line)
    ensures SplitLines(line) == [line]
    decreases |line|
  {
    if line != [] {
      SplitLinesSingle(line[1..]);
      assert [line[0]] + line[1..] == line;
    }
  }

  /** Splitting lines that were joined gives them back, provided none holds a newline. */
  lemma {:induction false} SplitJoinLines(lines: seq<string>)
    requires |lines| >= 1 && forall i :: 0 <= i < |lines| ==> OneLine(lines[i])
    ensures SplitLines(JoinLines(lines)) == lines
    decreases |lines|
  {
    if |lines| == 1 {
      SplitLinesSingle(lines[0]);
    } else {
      SplitJoinLines(lines[1..]);
      SplitLinesAfter(lines[0], JoinLines(lines[1..]));
    }
  }

  lemma ConcatOneLine(a: string, b: string)
    requires OneLine(a) && OneLine(b)
    ensures OneLine(a + b)
  {
  }

  /** toFixed writes no newline. */
  lemma ToFixedOneLine(x: real, f: nat)
    ensures OneLine(ToFixed(x, f))
  {
    ToFixedCharacters(x, f);
  }

  lemma AmountLineIsOneLine(prefix: string, x: real)
    requires OneLine(prefix)
    ensures OneLine(AmountLine(prefix, x))
  {
    ToFixedOneLine(x, 2);
    ConcatOneLine(prefix, ToFixed(x, 2));
  }

  lemma DifferenceLineIsOneLine(value: real)
    ensures OneLine("Difference - " + FormatSignedCurrency(value))
  {
    var shown := FormatSignedCurrency(value);
    if value != 0.0 {
      var sign := if value < 0.0 then "+" else "-";
      var t := ToFixed(Abs(value), 2);
      assert shown == sign + "£" + t;
      ToFixedOneLine(Abs(value), 2);
      ConcatOneLine(sign + "£", t);
    }
    ConcatOneLine("Difference - ", shown);
  }

  /** The labels in front of the amounts hold no newline. */
  lemma PrefixesAreOneLine()
    ensures OneLine("Z - £") && OneLine("Card - £") && OneLine("Cash - £") && OneLine("Petty Cash - £")
    ensures OneLine("Total - £") && OneLine("Discounts - £") && OneLine("Gratuity")
  {
  }

  /** None of the eight amount lines of the summary holds a newline. */
  lemma AmountLinesAreOneLine(s: Session)
    requires Complete(s)
    ensures OneLine(AmountLine("Z - £", s.zReport)) && OneLine(AmountLine("Card - £", TotalCardPayments(s)))
    ensures OneLine(AmountLine("Cash - £", CashTakingsAfterFloat(s))) && OneLine(AmountLine("Petty Cash - £", s.pettyCash))
    ensures OneLine(AmountLine("Card - £", TotalCardGratuity(s))) && OneLine(AmountLine("Cash - £", s.cashGratuity))
    ensures OneLine(AmountLine("Total - £", TotalCombinedGratuity(s))) && OneLine(AmountLine("Discounts - £", s.discounts))
  {
    PrefixesAreOneLine();
    AmountLineIsOneLine("Z - £", s.zReport);
    AmountLineIsOneLine("Card - £", TotalCardPayments(s));
    AmountLineIsOneLine("Cash - £", CashTakingsAfterFloat(s));
    AmountLineIsOneLine("Petty Cash - £", s.pettyCash);
    AmountLineIsOneLine("Card - £", TotalCardGratuity(s));
    AmountLineIsOneLine("Cash - £", s.cashGratuity);
    AmountLineIsOneLine("Total - £", TotalCombinedGratuity(s));
    AmountLineIsOneLine("Discounts - £", s.discounts);
  }

  lemma SummaryLinesAreOneLine(header: string, s: Session)
    requires Complete(s) && OneLine(header)
    ensures forall i :: 0 <= i < |SummaryLines(header, s)| ==> OneLine(SummaryLines(header, s)[i])
  {
    AmountLinesAreOneLine(s);
    PrefixesAreOneLine();
    DifferenceLineIsOneLine(OverallDifference(s));
    LayoutLinesAreOneLine(header, AmountLine("Z - £", s.zReport), AmountLine("Card - £", TotalCardPayments(s)),
                          AmountLine("Cash - £", CashTakingsAfterFloat(s)), AmountLine("Petty Cash - £", s.pettyCash),
                          "Gratuity", AmountLine("Card - £", TotalCardGratuity(s)), AmountLine("Cash - £", s.cashGratuity),
                          AmountLine("Total - £", TotalCombinedGratuity(s)), AmountLine("Discounts - £", s.discounts),
                          "Difference - " + FormatSignedCurrency(OverallDifference(s)));
  }

  /** The fourteen-line layout holds no newline inside a line when none of its pieces does. */
  lemma LayoutLinesAreOneLine(h: string, z: string, card: string, cash: string, petty: string, g: string,
                              gcard: string, gcash: string, gtotal: string, disc: string, diff: string)
    requires OneLine(h) && OneLine(z) && OneLine(card) && OneLine(cash) && OneLine(petty) && OneLine(g)
    requires OneLine(gcard) && OneLine(gcash) && OneLine(gtotal) && OneLine(disc) && OneLine(diff)
    ensures var ls := [h, z, card, cash, petty, "", g, gcard, gcash, gtotal, "", disc, "", diff];
            forall i :: 0 <= i < |ls| ==> OneLine(ls[i])
  {
  }

  lemma JoinLinesAt(ls: seq<string>, k: nat)
    requires k + 1 < |ls|
    ensures JoinLines(ls[k..]) == ls[k] + "\n" + JoinLines(ls[k + 1..])
  {
    assert ls[k..][1..] == ls[k + 1..];
  }

  /** The layout of the summary over arbitrary pieces: a blank line is an empty line between two newlines. */
  lemma JoinSummaryLayout(h: string, z: string, card: string, cash: string, petty: string, g: string,
                          gcard: string, gcash: string, gtotal: string, disc: string, diff: string)
    ensures JoinLines([h, z, card, cash, petty, "", g, gcard, gcash, gtotal, "", disc, "", diff])
         == h + "\n" + (z + "\n" + (card + "\n" + (cash + "\n" + (petty + "\n\n" + (g + "\n" +
              (gcard + "\n" + (gcash + "\n" + (gtotal + "\n\n" + (disc + "\n\n" + diff)))))))))
  {
    var ls := [h, z, card, cash, petty, "", g, gcard, gcash, gtotal, "", disc, "", diff];
    assert JoinLines(ls[13..]) == diff;
    JoinLinesAt(ls, 12);
    JoinLinesAt(ls, 11);
    var r8 := disc + "\n\n" + diff;
    assert JoinLines(ls[11..]) == r8;
    JoinLinesAt(ls, 10);
    JoinLinesAt(ls, 9);
    var r7 := gtotal + "\n\n" + r8;
    assert JoinLines(ls[9..]) == r7;
    JoinLinesAt(ls, 8);
    JoinLinesAt(ls, 7);
    JoinLinesAt(ls, 6);
    JoinLinesAt(ls, 5);
    JoinLinesAt(ls, 4);
    var r3 := petty + "\n\n" + (g + "\n" + (gcard + "\n" + (gcash + "\n" + r7)));
    assert JoinLines(ls[4..]) == r3;
    JoinLinesAt(ls, 3);
    JoinLinesAt(ls, 2);
    JoinLinesAt(ls, 1);
    JoinLinesAt(ls, 0);
    assert ls[0..] == ls;
  }

  /** The summary text is its lines joined by newlines. */
  lemma SummaryTextJoinsLines(header: string, s: Session)
    requires Complete(s)
    ensures SummaryText(header, s) == JoinLines(SummaryLines(header, s))
  {
    var z, card, cash, petty := AmountLine("Z - £", s.zReport), AmountLine("Card - £", TotalCardPayments(s)),
                                AmountLine("Cash - £", CashTakingsAfterFloat(s)), AmountLine("Petty Cash - £", s.pettyCash);
    var gcard, gcash, gtotal := AmountLine("Card - £", TotalCardGratuity(s)), AmountLine("Cash - £", s.cashGratuity),
                                AmountLine("Total - £", TotalCombinedGratuity(s));
    var disc := AmountLine("Discounts - £", s.discounts);
    var diff := "Difference - " + FormatSignedCurrency(OverallDifference(s));
    JoinSummaryLayout(header, z, card, cash, petty, "Gratuity", gcard, gcash, gtotal, disc, diff);
    var rest := gcard + "\n" + (gcash + "\n" + (gtotal + "\n\n" + (disc + "\n\n" + diff)));
    assert "Gratuity" + "\n" == "Gratuity\n";
    assert "Gratuity\n" + rest == "Gratuity" + "\n" + rest;
  }

  /**
   * Split at its newlines, the copied summary is exactly its fourteen lines in
   * order, provided the header is one line.
   */
  lemma SummaryTextLines(header: string, s: Session)
    requires Complete(s)
    requires OneLine(header)
    ensures SplitLines(SummaryText(header, s)) == SummaryLines(header, s)
  {
    SummaryTextJoinsLines(header, s);
    SummaryLinesAreOneLine(header, s);
    SplitJoinLines(SummaryLines(header, s));
  }

  /**
   * The summary copied at hour t (counted from the start of day 0) opens
   * with the header of its business day, the day of the hour three hours
   * earlier, provided the locale's texts for that day hold no newline.
   */
  lemma SummaryHeadedByBusinessDay(t: int, weekdayName: int -> string, dateText: int -> string, s: Session)
    requires Complete(s)
    requires OneLine(weekdayName((t - 3) / 24)) && OneLine(dateText((t - 3) / 24))
    ensures var header := DisplayDayAndDate(t / 24, t % 24, weekdayName, dateText);
            SplitLines(SummaryText(header, s))[0]
            == weekdayName((t - 3) / 24) + ", " + dateText((t - 3) / 24)
  {
    var day := (t - 3) / 24;
    BusinessDayStartsAtThree(t);
    var header := DisplayDayAndDate(t / 24, t % 24, weekdayName, dateText);
    assert header == weekdayName(day) + ", " + dateText(day);
    ConcatOneLine(weekdayName(day), ", ");
    ConcatOneLine(weekdayName(day) + ", ", dateText(day));
    SummaryTextLines(header, s);
  }
}
