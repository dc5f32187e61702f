/**
 * Worked examples of the canonical ladder: concrete rows and the ladders they produce.
 */
module LadderExamples {
  import opened Wrappers
  import opened Text
  import opened Decimals
  import opened Tiers

  /** A whole number written in decimal reads back as itself. */
  lemma ReadsWhole(n: nat, text: string)
    requires text == NatDigits(n)
    ensures ParseDecimal(text) == Some(n as real)
  {
    assert IsDigit(text[0]);
    ParseUnsignedWhole(n, text);
  }

  /** An entry that needs no stripping, with its first `:` at `i`, has the texts around `i` as its sides. */
  lemma SidesAt(part: string, i: nat)
    requires part != [] && Strip(part) == part && IndexOf(part, ':') == Some(i)
    ensures LegacySides(part) == Some((Strip(part[..i]), Strip(part[i + 1..])))
  {
  }

  /** An entry whose sides are a number and a rate reads as that bounded tier. */
  lemma BoundedEntry(part: string, upperText: string, rateText: string, upper: real, rate: real)
    requires LegacySides(part) == Some((upperText, rateText))
    requires upperText != "-1" && ParseDecimal(upperText) == Some(upper) && ParseDecimal(rateText) == Some(rate)
    ensures LegacyEntry(part) == Some(LegacyTier(Some(upper), rate))
  {
  }

  /** An entry whose sides are `-1` and a rate reads as an unlimited tier. */
  lemma UnlimitedEntry(part: string, rateText: string, rate: real)
    requires LegacySides(part) == Some(("-1", rateText)) && ParseDecimal(rateText) == Some(rate)
    ensures LegacyEntry(part) == Some(LegacyTier(None, rate))
  {
  }

  /** The digits of a number, with nothing around them, read back as that number once stripped. */
  lemma StrippedWhole(n: nat, text: string)
    requires text == NatDigits(n)
    ensures Strip(text) == text && ParseDecimal(text) == Some(n as real)
  {
    assert IsDigit(text[0]) && IsDigit(text[|text| - 1]);
    StripNoSpace(text);
    ReadsWhole(n, text);
  }

  /** Two digit strings around a `:` need no stripping, and the `:` is found between them. */
  lemma DigitsAroundColon(u: string, r: string, part: string)
    requires u != [] && r != [] && AllDigits(u) && AllDigits(r) && part == u + ":" + r
    ensures part != [] && Strip(part) == part && IndexOf(part, ':') == Some(|u|)
    ensures part[..|u|] == u && part[|u| + 1..] == r
  {
    assert part[0] == u[0] && part[|part| - 1] == r[|r| - 1];
    assert IsDigit(u[0]) && IsDigit(r[|r| - 1]);
    StripNoSpace(part);
    assert part[..|u|] == u;
    assert ':' !in u by {
      assert forall k :: 0 <= k < |u| ==> IsDigit(u[k]);
    }
    IndexOfFirst(part, ':', |u|);
  }

  /** The entry `upper:rate` with two whole numbers reads as that tier. */
  lemma ReadsEntry(upper: nat, rate: nat, part: string)
    requires part == NatDigits(upper) + ":" + NatDigits(rate)
    ensures LegacyEntry(part) == Some(LegacyTier(Some(upper as real), rate as real))
  {
    var u := NatDigits(upper);
    var r := NatDigits(rate);
    DigitsAroundColon(u, r, part);
    StrippedWhole(upper, u);
    StrippedWhole(rate, r);
    assert u != "-1" by {
      assert IsDigit(u[0]);
    }
    SidesAt(part, |u|);
    BoundedEntry(part, u, r, upper as real, rate as real);
  }

  /** The entry `-1:rate` reads as an unlimited tier. */
  lemma ReadsUnlimitedEntry(rate: nat, part: string)
    requires part == "-1:" + NatDigits(rate)
    ensures LegacyEntry(part) == Some(LegacyTier(None, rate as real))
  {
    var r := NatDigits(rate);
    assert part[|part| - 1] == r[|r| - 1] && IsDigit(r[|r| - 1]);
    StripNoSpace(part);
    assert part[..2] == "-1" && part[3..] == r;
    assert ':' !in part[..2];
    IndexOfFirst(part, ':', 2);
    StripNoSpace("-1");
    StrippedWhole(rate, r);
    SidesAt(part, 2);
    UnlimitedEntry(part, r, rate as real);
  }

  /** A two-part legacy column is read entry by entry. */
  lemma EntriesPair(a: string, b: string)
    ensures Entries([a, b]) == [LegacyEntry(a), LegacyEntry(b)]
  {
  }

  lemma KeptTwo<T>(x: T, y: T)
    ensures Kept([Some(x), Some(y)]) == [x, y]
  {
    var entries := [Some(x), Some(y)];
    assert entries[..1] == [Some(x)];
    assert entries[..1][..0] == [];
  }

  /** The two entries of the example. */
  lemma ExampleEntries()
    ensures LegacyEntry("100:5") == Some(LegacyTier(Some(100.0), 5.0))
    ensures LegacyEntry("-1:3") == Some(LegacyTier(None, 3.0))
  {
    assert NatDigits(100) + ":" + NatDigits(5) == "100:5";
    assert "-1:" + NatDigits(3) == "-1:3";
    ReadsEntry(100, 5, "100:5");
    ReadsUnlimitedEntry(3, "-1:3");
  }

  /** The example column is the two entries joined by `;`. */
  lemma ExampleJoin()
    ensures Join(["100:5", "-1:3"], ';') == "100:5;-1:3"
    ensures ';' !in "100:5" && ';' !in "-1:3"
  {
  }

  /** The legacy text `100:5;-1:3` reads as a bounded entry and an unlimited one. */
  lemma LegacyTextExample()
    ensures LegacyTiers(Some("100:5;-1:3")) == [LegacyTier(Some(100.0), 5.0), LegacyTier(None, 3.0)]
  {
    var parts := ["100:5", "-1:3"];
    ExampleJoin();
    LegacyTiersOfJoin(parts);
    EntriesPair(parts[0], parts[1]);
    ExampleEntries();
    KeptTwo(LegacyTier(Some(100.0), 5.0), LegacyTier(None, 3.0));
  }

  /** Chaining a bounded entry at 100 and an unlimited one starts the second at 100 + 10^-10. */
  lemma ChainExample()
    ensures ChainLegacy([LegacyTier(Some(100.0), 5.0), LegacyTier(None, 3.0)], 0.0)
            == [Tier(0.0, Some(100.0), 5.0), Tier(100.0000000001, None, 3.0)]
  {
    var legacy := [LegacyTier(Some(100.0), 5.0), LegacyTier(None, 3.0)];
    WholeOnGrid(100.0);
    NextLowerAbove(100.0);
    assert legacy[1..] == [LegacyTier(None, 3.0)];
  }

  /**
   * A row whose legacy column is `100:5;-1:3` and which has no structured slots gets the
   * ladder `[0, 100] at 5` then `[100.0000000001, unlimited) at 3`.
   */
  lemma LegacyLadderExample(fallbackRate: real)
    ensures CanonicalTiers(map["pricing_tiers" := "100:5;-1:3"], "pricing_tiers", fallbackRate)
            == [Tier(0.0, Some(100.0), 5.0), Tier(100.0000000001, None, 3.0)]
  {
    var row := map["pricing_tiers" := "100:5;-1:3"];
    NoStructuredSlots(row);
    assert Get(row, "pricing_tiers") == Some("100:5;-1:3");
    LegacyTextExample();
    ChainExample();
  }

  // ----- a structured ladder -----

  /** The columns of slot 1. */
  lemma FirstSlotKeys()
    ensures SlotKey(1, "_from_qty") == "tier1_from_qty" && SlotKey(1, "_to_qty") == "tier1_to_qty"
            && SlotKey(1, "_rate") == "tier1_rate"
  {
    assert NatDigits(1) == "1";
  }

  /** The columns of slot 2. */
  lemma SecondSlotKeys()
    ensures SlotKey(2, "_from_qty") == "tier2_from_qty" && SlotKey(2, "_to_qty") == "tier2_to_qty"
            && SlotKey(2, "_rate") == "tier2_rate"
  {
    assert NatDigits(2) == "2";
  }

  /**
   * The example's cells, stripped: tier 1 up to 100 at 5, tier 2 unlimited (`-1`) at 3, and
   * no `from` cells. The columns are `tier1_to_qty`, `tier1_rate`, `tier2_to_qty` and
   * `tier2_rate` (`FirstSlotKeys`, `SecondSlotKeys`).
   */
  predicate ExampleCells(row: Row) {
    && Cell(row, SlotKey(1, "_from_qty")) == "" && Cell(row, SlotKey(1, "_to_qty")) == "100"
    && Cell(row, SlotKey(1, "_rate")) == "5"
    && Cell(row, SlotKey(2, "_from_qty")) == "" && Cell(row, SlotKey(2, "_to_qty")) == "-1"
    && Cell(row, SlotKey(2, "_rate")) == "3"
  }

  /** The numbers the example row's cells hold. */
  lemma StructuredNumbers()
    ensures ParseDecimal("100") == Some(100.0) && ParseDecimal("5") == Some(5.0)
    ensures ParseDecimal("-1") == Some(UnlimitedSentinel) && ParseDecimal("3") == Some(3.0)
  {
    assert NatDigits(100) == "100" && NatDigits(5) == "5" && NatDigits(3) == "3";
    ReadsWhole(100, "100");
    ReadsWhole(5, "5");
    ReadsWhole(3, "3");
    PricingBandSentinel();
  }

  /** Slot 1 is taken from 0 to 100 at 5. */
  lemma FirstSlotTaken(row: Row)
    requires ExampleCells(row)
    ensures ReadSlot(row, 1, None) == Take(Tier(0.0, Some(100.0), 5.0))
  {
    StructuredNumbers();
    SlotTakenUnlessMalformed(row, 1, None);
  }

  /** Slot 2 is taken, unlimited, from one increment above 100 at 3. */
  lemma SecondSlotTaken(row: Row)
    requires ExampleCells(row)
    ensures ReadSlot(row, 2, Some(100.0)) == Take(Tier(100.0000000001, None, 3.0))
  {
    StructuredNumbers();
    SlotTakenUnlessMalformed(row, 2, Some(100.0));
    WholeOnGrid(100.0);
    NextLowerAbove(100.0);
  }

  /**
   * A row with `tier1_to_qty=100, tier1_rate=5, tier2_to_qty=-1, tier2_rate=3` and no `from`
   * cells gets the ladder `[0, 100] at 5` then `[100.0000000001, unlimited) at 3`, whatever
   * its other columns hold.
   */
  lemma StructuredLadderExample(row: Row, tiersColumn: string, fallbackRate: real)
    requires ExampleCells(row)
    ensures CanonicalTiers(row, tiersColumn, fallbackRate)
            == [Tier(0.0, Some(100.0), 5.0), Tier(100.0000000001, None, 3.0)]
  {
    var read := SlotsOf(row);
    FirstSlotTaken(row);
    SecondSlotTaken(row);
    assert read(1, None) == Take(Tier(0.0, Some(100.0), 5.0));
    assert read(2, Some(100.0)) == Take(Tier(100.0000000001, None, 3.0));
    assert ScanUpTo(read, 1) == Scan([Tier(0.0, Some(100.0), 5.0)], Some(100.0), false);
    assert ScanUpTo(read, 2) == Scan([Tier(0.0, Some(100.0), 5.0), Tier(100.0000000001, None, 3.0)], None, true);
    ScanDoneStays(read, 2, MaxTiers);
  }
}
