/** The documented byte counts of `StructureTab._format_size`, one per
    unit. From 1024 on, each count is a parameter fixed by the lemma's
    precondition, so that the proof goes step by step through the general
    lemmas about grouping and rounding instead of evaluating the formatting
    of a literal. */
module FormatSizeExamples {
  import opened Formatting
  import opened Tui

  /** A count below 1024. */
  lemma BytesExample()
    ensures FormatSize(500) == "500 bytes"
  {
    assert NatToString(500) == "500";
  }

  /** From 1024 on the text is put together from the figure, the unit name
      and the grouped count. */
  lemma FormatSizeOfParts(n: int, u: SizeUnit, figure: string, grouped: string)
    requires SizeUnitOf(n) == u && u != Bytes
    requires ScaledFigure(n, u) == figure && Grouped(n) == grouped
    ensures FormatSize(n) == figure + " " + UnitName(u) + " (" + grouped + " bytes)"
  {
  }

  /** One more group of three: from the grouping of `m` and three more
      digits to the grouping of `1000 * m + last`. */
  lemma GroupedStep(n: nat, m: nat, head: string, last: nat, tail: string)
    requires last < 1000 && n == 1000 * m + last && m > 0
    requires Grouped(m) == head && ThreeDigits(last) == tail
    ensures Grouped(n) == head + "," + tail
  {
    assert n / 1000 == m && n % 1000 == last;
    GroupedThousands(n);
  }

  lemma KilobytesFigure(n: int)
    requires n == 2 * 1024
    ensures ScaledFigure(n, Kilobytes) == "2.00"
  {
    assert 100 * n == 200 * UnitBytes(Kilobytes);
    assert RoundHalfEven(100 * n, UnitBytes(Kilobytes)) == 200 by {
      assert RoundsDown(100 * n, UnitBytes(Kilobytes));
    }
    assert TwoDecimals(200) == "2.00" by {
      assert NatToString(2) == "2";
    }
  }

  // Joining the literal pieces is proved apart from the formatting
  // functions, whose definitions would otherwise crowd the proof.

  lemma KilobytesJoined()
    ensures ThreeDigits(48) == "048" && "2" + "," + "048" == "2,048"
    ensures "2.00" + " " + "KB" + " (" + "2,048" + " bytes)" == "2.00 KB (2,048 bytes)"
  {
  }

  lemma KilobytesGrouped(n: nat, two: nat)
    requires two == 2 && n == 1000 * two + 48
    ensures Grouped(n) == "2,048"
  {
    assert Grouped(two) == "2";
    KilobytesJoined();
    GroupedStep(n, two, "2", 48, "048");
  }

  /** Two kibibytes. */
  lemma KilobytesExample(n: int)
    requires n == 2 * 1024
    ensures FormatSize(n) == "2.00 KB (2,048 bytes)"
  {
    KilobytesFigure(n);
    KilobytesGrouped(n, 2);
    FormatSizeOfParts(n, Kilobytes, "2.00", "2,048");
    KilobytesJoined();
  }

  lemma MegabytesFigure(n: int)
    requires n == 5 * 1024 * 1024
    ensures ScaledFigure(n, Megabytes) == "5.00"
  {
    assert 100 * n == 500 * UnitBytes(Megabytes);
    assert RoundHalfEven(100 * n, UnitBytes(Megabytes)) == 500 by {
      assert RoundsDown(100 * n, UnitBytes(Megabytes));
    }
    assert TwoDecimals(500) == "5.00" by {
      assert NatToString(5) == "5";
    }
  }

  lemma MegabytesThousandsJoined()
    ensures ThreeDigits(242) == "242" && "5" + "," + "242" == "5,242"
  {
  }

  lemma MegabytesGroupedJoined()
    ensures ThreeDigits(880) == "880" && "5,242" + "," + "880" == "5,242,880"
  {
  }

  lemma MegabytesTextJoined()
    ensures "5.00" + " " + "MB" + " (" + "5,242,880" + " bytes)" == "5.00 MB (5,242,880 bytes)"
  {
  }

  lemma GroupedThousandsOfMegabytes(k: nat, five: nat)
    requires five == 5 && k == 1000 * five + 242
    ensures Grouped(k) == "5,242"
  {
    assert Grouped(five) == "5";
    MegabytesThousandsJoined();
    GroupedStep(k, five, "5", 242, "242");
  }

  lemma MegabytesGrouped(n: nat, m: nat)
    requires m == 5242 && n == 1000 * m + 880
    ensures Grouped(n) == "5,242,880"
  {
    GroupedThousandsOfMegabytes(m, 5);
    MegabytesGroupedJoined();
    GroupedStep(n, m, "5,242", 880, "880");
  }

  /** Five mebibytes. */
  lemma MegabytesExample(n: int)
    requires n == 5 * 1024 * 1024
    ensures FormatSize(n) == "5.00 MB (5,242,880 bytes)"
  {
    MegabytesFigure(n);
    MegabytesGrouped(n, n / 1000);
    FormatSizeOfParts(n, Megabytes, "5.00", "5,242,880");
    MegabytesTextJoined();
  }

  lemma GigabytesFigure(n: int)
    requires n == 3 * 1024 * 1024 * 1024
    ensures ScaledFigure(n, Gigabytes) == "3.00"
  {
    assert 100 * n == 300 * UnitBytes(Gigabytes);
    assert RoundHalfEven(100 * n, UnitBytes(Gigabytes)) == 300 by {
      assert RoundsDown(100 * n, UnitBytes(Gigabytes));
    }
    assert TwoDecimals(300) == "3.00" by {
      assert NatToString(3) == "3";
    }
  }

  lemma GigabytesThousandsJoined()
    ensures ThreeDigits(221) == "221" && "3" + "," + "221" == "3,221"
  {
  }

  lemma GigabytesMillionsJoined()
    ensures ThreeDigits(225) == "225" && "3,221" + "," + "225" == "3,221,225"
  {
  }

  lemma GigabytesGroupedJoined()
    ensures ThreeDigits(472) == "472" && "3,221,225" + "," + "472" == "3,221,225,472"
  {
  }

  lemma GigabytesTextJoined()
    ensures "3.00" + " " + "GB" + " (" + "3,221,225,472" + " bytes)" == "3.00 GB (3,221,225,472 bytes)"
  {
  }

  lemma GroupedThousandsOfGigabytes(k: nat, three: nat)
    requires three == 3 && k == 1000 * three + 221
    ensures Grouped(k) == "3,221"
  {
    assert Grouped(three) == "3";
    GigabytesThousandsJoined();
    GroupedStep(k, three, "3", 221, "221");
  }

  lemma GroupedMillionsOfGigabytes(m: nat, k: nat)
    requires k == 3221 && m == 1000 * k + 225
    ensures Grouped(m) == "3,221,225"
  {
    GroupedThousandsOfGigabytes(k, 3);
    GigabytesMillionsJoined();
    GroupedStep(m, k, "3,221", 225, "225");
  }

  lemma GigabytesGrouped(n: nat, m: nat)
    requires m == 3221225 && n == 1000 * m + 472
    ensures Grouped(n) == "3,221,225,472"
  {
    GroupedMillionsOfGigabytes(m, 3221);
    GigabytesGroupedJoined();
    GroupedStep(n, m, "3,221,225", 472, "472");
  }

  /** Three gibibytes. */
  lemma GigabytesExample(n: int)
    requires n == 3 * 1024 * 1024 * 1024
    ensures FormatSize(n) == "3.00 GB (3,221,225,472 bytes)"
  {
    GigabytesFigure(n);
    GigabytesGrouped(n, n / 1000);
    FormatSizeOfParts(n, Gigabytes, "3.00", "3,221,225,472");
    GigabytesTextJoined();
  }
}
