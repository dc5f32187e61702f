/**
 * Tier ladders of a pricing row: the legacy `upper:rate;...` column, the structured
 * `tierN_from_qty` / `tierN_to_qty` / `tierN_rate` slots, and the canonical ladder
 * built from whichever of them the row provides.
 */
module Tiers {
  import opened Wrappers
  import opened Text
  import opened Decimals

  /** A CSV row: column name to cell text. A column that is absent reads as `None`. */
  type Row = map<string, string>

  /** `row.get(key)`. */
  function Get(row: Row, key: string): Option<string> {
    if key in row then Some(row[key]) else None
  }

  /** An entry of the legacy column: an upper band (`None` = unlimited) and a rate. */
  datatype LegacyTier = LegacyTier(upper: Option<real>, rate: real)

  /** A tier of a ladder: lower band, upper band (`None` = unlimited) and rate. */
  datatype Tier = Tier(lower: real, upper: Option<real>, rate: real)

  /** The number of structured slots a row may use. */
  const MaxTiers: nat := 12

  /** Every bounded tier has its upper band at or above its lower band. */
  predicate Ordered(tiers: seq<Tier>) {
    forall i :: 0 <= i < |tiers| && tiers[i].upper.Some? ==> tiers[i].lower <= tiers[i].upper.value
  }

  /** Only the last tier may be unlimited. */
  predicate UnlimitedLast(tiers: seq<Tier>) {
    forall i :: 0 <= i < |tiers| - 1 ==> tiers[i].upper.Some?
  }

  /** The lower band that follows a tier ending at `upper`: one increment above it, on the ten-place grid. */
  function NextLower(upper: real): real {
    Quantize(upper + 0.0000000001)
  }

  /**
   * Each tier starts where the previous one ends: the first at 0 and every later one at
   * `NextLower` of the previous upper band.
   */
  predicate Contiguous(tiers: seq<Tier>) {
    && (|tiers| > 0 ==> tiers[0].lower == 0.0)
    && forall i :: 0 <= i < |tiers| - 1 ==>
         tiers[i].upper.Some? && tiers[i + 1].lower == NextLower(tiers[i].upper.value)
  }

  /** The next lower band lies strictly above the upper band it follows, and on the grid. */
  lemma NextLowerAbove(upper: real)
    ensures NextLower(upper) > upper && OnGrid(NextLower(upper))
    ensures OnGrid(upper) ==> NextLower(upper) == upper + Increment
  {
    QuantizeClose(upper + 0.0000000001);
    QuantizeOnto(upper + 0.0000000001);
    if OnGrid(upper) {
      GridStep(upper);
      QuantizeOnGrid(upper + 0.0000000001);
    }
  }

  /** One increment past a value on the grid is on the grid. */
  lemma GridStep(v: real)
    requires OnGrid(v)
    ensures OnGrid(v + 0.0000000001)
  {
    var k := (v * 10000000000.0).Floor;
    assert (v + 0.0000000001) * 10000000000.0 == (k + 1) as real;
    FloorOfWhole(k + 1);
  }

  // ----- the legacy column -----

  /**
   * An entry's two stripped fields read as a tier: the upper band is unlimited for the
   * exact text `-1` and is otherwise a decimal, the rate is a decimal.
   */
  function LegacyFields(upperText: string, rateText: string): Option<LegacyTier> {
    var upper := if upperText == "-1" then Some(None)
                 else match ParseDecimal(upperText)
                   case None => None
                   case Some(u) => Some(Some(u));
    if upper.None? then None
    else match ParseDecimal(rateText)
      case None => None
      case Some(rate) => Some(LegacyTier(upper.value, rate))
  }

  /**
   * The stripped texts before and after the first `:` of an entry, or `None` when the
   * stripped entry is blank or has no `:`.
   */
  function LegacySides(part: string): (r: Option<(string, string)>)
    ensures r.Some? ==> ':' in Strip(part)
  {
    var entry := Strip(part);
    if entry == [] then None
    else match IndexOf(entry, ':')
      case None => None
      case Some(i) => Some((Strip(entry[..i]), Strip(entry[i + 1..])))
  }

  /**
   * One `;`-separated entry of the legacy column, or `None` when the entry is skipped:
   * blank, without a `:`, or with an upper or rate that does not parse.
   */
  function LegacyEntry(part: string): (r: Option<LegacyTier>)
    ensures r.Some? ==> ':' in Strip(part)
  {
    match LegacySides(part)
    case None => None
    case Some(sides) => LegacyFields(sides.0, sides.1)
  }

  /**
   * What a kept entry holds: its upper band is unlimited exactly when the text before the
   * first `:` is `-1`, and is otherwise that text's value; its rate is the value of the text
   * after the `:`.
   */
  lemma LegacyEntryMeaning(part: string)
    requires LegacyEntry(part).Some?
    ensures LegacySides(part).Some?
    ensures var (upperText, rateText) := LegacySides(part).value;
            var t := LegacyEntry(part).value;
            && (t.upper.None? <==> upperText == "-1")
            && (t.upper.Some? ==> ParseDecimal(upperText) == Some(t.upper.value))
            && ParseDecimal(rateText) == Some(t.rate)
  {
    var sides := LegacySides(part).value;
    LegacyFieldsMeaning(sides.0, sides.1);
  }

  /** The fields are read as described: the exact text `-1`, and only it, means unlimited. */
  lemma LegacyFieldsMeaning(upperText: string, rateText: string)
    requires LegacyFields(upperText, rateText).Some?
    ensures var t := LegacyFields(upperText, rateText).value;
            && (t.upper.None? <==> upperText == "-1")
            && (t.upper.Some? ==> ParseDecimal(upperText) == Some(t.upper.value))
            && ParseDecimal(rateText) == Some(t.rate)
  {
  }

  /** The values of the present entries, in order. */
  function Kept<T>(entries: seq<Option<T>>): (kept: seq<T>)
    ensures |kept| <= |entries|
  {
    if entries == [] then []
    else
      var last := entries[|entries| - 1];
      Kept(entries[..|entries| - 1]) + (if last.Some? then [last.value] else [])
  }

  /** One more entry adds its value, if present. */
  lemma KeptStep<T>(entries: seq<Option<T>>, i: nat)
    requires i < |entries|
    ensures Kept(entries[..i + 1]) == Kept(entries[..i]) + (if entries[i].Some? then [entries[i].value] else [])
  {
    assert entries[..i + 1][..i] == entries[..i];
  }

  /** Keeping distributes over concatenation: one entry never affects another. */
  lemma {:induction false} KeptAppend<T>(a: seq<Option<T>>, b: seq<Option<T>>)
    ensures Kept(a + b) == Kept(a) + Kept(b)
    decreases |b|
  {
    if b == [] {
      assert a + b == a;
    } else {
      var b' := b[..|b| - 1];
      KeptAppend(a, b');
      assert (a + b)[..|a + b| - 1] == a + b';
    }
  }

  /** Each part read as an entry. */
  function Entries(parts: seq<string>): (entries: seq<Option<LegacyTier>>)
    ensures |entries| == |parts| && forall i :: 0 <= i < |parts| ==> entries[i] == LegacyEntry(parts[i])
  {
    seq(|parts|, i requires 0 <= i < |parts| => LegacyEntry(parts[i]))
  }

  lemma EntriesAppend(a: seq<string>, b: seq<string>)
    ensures Entries(a + b) == Entries(a) + Entries(b)
  {
    var e := Entries(a + b);
    assert forall i :: 0 <= i < |a| ==> e[i] == LegacyEntry(a[i]);
    assert forall i :: |a| <= i < |a| + |b| ==> e[i] == LegacyEntry(b[i - |a|]);
  }

  /** `parse_legacy_pricing_tiers`: the entries of the column kept in input order. */
  function LegacyTiers(raw: Option<string>): seq<LegacyTier> {
    if raw.None? || raw.value == [] then [] else Kept(Entries(Split(raw.value, ';')))
  }

  /** The legacy column read as a whole is the entries read one at a time, in order. */
  lemma LegacyTiersOfJoin(parts: seq<string>)
    requires |parts| >= 1 && forall k :: 0 <= k < |parts| ==> ';' !in parts[k]
    ensures LegacyTiers(Some(Join(parts, ';'))) == Kept(Entries(parts))
  {
    JoinSplit(parts, ';');
    if Join(parts, ';') == [] {
      assert parts == [[]];
      assert Entries(parts) == [None];
      var none: seq<Option<LegacyTier>> := [None];
      assert Kept(none) == [];
    }
  }

  /** An entry that is skipped leaves the entries around it exactly as they were. */
  lemma LegacyDropSkipped(before: seq<string>, bad: string, after: seq<string>)
    requires LegacyEntry(bad).None?
    ensures Kept(Entries(before + [bad] + after)) == Kept(Entries(before)) + Kept(Entries(after))
  {
    var eb := Entries(before);
    var ea := Entries(after);
    var none: seq<Option<LegacyTier>> := [None];
    EntriesAppend(before + [bad], after);
    EntriesAppend(before, [bad]);
    assert Entries([bad]) == none;
    assert Entries(before + [bad] + after) == eb + none + ea;
    DropNone(eb, ea);
  }

  /** An absent entry between two runs of entries contributes nothing. */
  lemma DropNone<T>(a: seq<Option<T>>, b: seq<Option<T>>)
    ensures Kept(a + [None] + b) == Kept(a) + Kept(b)
  {
    assert Kept(a + [None]) == Kept(a) by {
      assert (a + [None])[..|a|] == a;
    }
    KeptAppend(a + [None], b);
  }

  /** `parse_legacy_pricing_tiers` as a loop over the `;`-separated parts. */
  method ParseLegacyTiers(raw: Option<string>) returns (tiers: seq<LegacyTier>)
    ensures tiers == LegacyTiers(raw)
  {
    tiers := [];
    if raw.None? || raw.value == [] {
      return;
    }
    var parts := Split(raw.value, ';');
    ghost var entries := Entries(parts);
    var i := 0;
    while i < |parts|
      invariant 0 <= i <= |parts|
      invariant tiers == Kept(entries[..i])
    {
      KeptStep(entries, i);
      var entry := LegacyEntry(parts[i]);
      assert entry == entries[i];
      if entry.Some? {
        tiers := tiers + [entry.value];
      }
      i := i + 1;
    }
    assert entries[..i] == entries;
  }

  // ----- the structured slots -----

  /** Why a slot ends the structured ladder. */
  datatype Stop = MissingRate | BadRate | BadFrom | BadTo | Inverted

  /** What one slot contributes: nothing (all three cells blank), a stop, or a tier. */
  datatype Slot = Blank | Halt(reason: Stop) | Take(tier: Tier)

  /** `(row.get(key) or "").strip()`. */
  function Cell(row: Row, key: string): string {
    if key in row then Strip(row[key]) else ""
  }

  /** The column `tier<index><field>`. */
  function SlotKey(index: nat, field: string): string {
    "tier" + NatDigits(index) + field
  }

  /** The lower band of a slot whose `from` cell is blank. */
  function DefaultLower(previousUpper: Option<real>): real {
    match previousUpper
    case None => 0.0
    case Some(u) => NextLower(u)
  }

  /** The upper band read from a `to` cell: blank or numerically -1 is unlimited; `None` when it does not parse. */
  function UpperOf(toText: string): Option<Option<real>> {
    if toText == [] then Some(None)
    else match ParseDecimal(toText)
      case None => None
      case Some(u) => Some(if u == UnlimitedSentinel then None else Some(u))
  }

  /**
   * One slot of `parse_structured_pricing_tiers`, read after the tier whose upper band is
   * `previousUpper`. The checks run in the loader's order: rate missing, rate unparsable,
   * `from` unparsable, `to` unparsable, `to` below `from`. An explicit `from` is kept
   * even when it differs from the expected chained value.
   */
  function ReadSlot(row: Row, index: nat, previousUpper: Option<real>): (r: Slot)
    ensures r.Blank? <==>
              Cell(row, SlotKey(index, "_from_qty")) == [] && Cell(row, SlotKey(index, "_to_qty")) == []
              && Cell(row, SlotKey(index, "_rate")) == []
    ensures r.Take? ==> Ordered([r.tier])
    ensures r.Take? && Cell(row, SlotKey(index, "_from_qty")) == [] ==> r.tier.lower == DefaultLower(previousUpper)
    ensures r.Take? && Cell(row, SlotKey(index, "_from_qty")) != [] ==>
              Some(r.tier.lower) == ParseDecimal(Cell(row, SlotKey(index, "_from_qty")))
  {
    var fromText := Cell(row, SlotKey(index, "_from_qty"));
    var toText := Cell(row, SlotKey(index, "_to_qty"));
    var rateText := Cell(row, SlotKey(index, "_rate"));
    if fromText == [] && toText == [] && rateText == [] then Blank
    else if rateText == [] then Halt(MissingRate)
    else match ParseDecimal(rateText)
      case None => Halt(BadRate)
      case Some(rate) =>
        var lower := if fromText == [] then Some(DefaultLower(previousUpper)) else ParseDecimal(fromText);
        if lower.None? then Halt(BadFrom)
        else match UpperOf(toText)
          case None => Halt(BadTo)
          case Some(upper) =>
            if upper.Some? && upper.value < lower.value then Halt(Inverted)
            else Take(Tier(lower.value, upper, rate))
  }

  /**
   * A taken slot's rate is the value of its `rate` cell, and its upper band is unlimited
   * exactly when the `to` cell is blank or numerically -1, and otherwise the `to` cell's value.
   */
  lemma TakenSlotCells(row: Row, index: nat, previousUpper: Option<real>)
    requires ReadSlot(row, index, previousUpper).Take?
    ensures var t := ReadSlot(row, index, previousUpper).tier;
            var toText := Cell(row, SlotKey(index, "_to_qty"));
            && Some(t.rate) == ParseDecimal(Cell(row, SlotKey(index, "_rate")))
            && (t.upper.None? <==> toText == [] || ParseDecimal(toText) == Some(UnlimitedSentinel))
            && (t.upper.Some? ==> Some(t.upper.value) == ParseDecimal(toText))
  {
    var toText := Cell(row, SlotKey(index, "_to_qty"));
    var rateText := Cell(row, SlotKey(index, "_rate"));
    var t := ReadSlot(row, index, previousUpper).tier;
    var rate := ParseDecimal(rateText);
    var upper := UpperOf(toText);
    assert rate.Some? && upper.Some?;
    assert t == Tier(t.lower, upper.value, rate.value);
  }

  /**
   * A slot with any cell written stops the ladder exactly when its rate is missing or does
   * not parse, its `from` cell is written but does not parse, its `to` cell is written but
   * does not parse, or its bounded upper band lies below its lower band. Every other such
   * slot is taken, with the tier its cells spell out.
   */
  lemma SlotTakenUnlessMalformed(row: Row, index: nat, previousUpper: Option<real>)
    ensures var fromText := Cell(row, SlotKey(index, "_from_qty"));
            var toText := Cell(row, SlotKey(index, "_to_qty"));
            var rateText := Cell(row, SlotKey(index, "_rate"));
            var lower := if fromText == [] then Some(DefaultLower(previousUpper)) else ParseDecimal(fromText);
            var to := ParseDecimal(toText);
            var rate := ParseDecimal(rateText);
            var written := fromText != [] || toText != [] || rateText != [];
            var malformed := rateText == [] || rate.None? || lower.None? || (toText != [] && to.None?)
                             || (toText != [] && to.Some? && to.value != UnlimitedSentinel && lower.Some? && to.value < lower.value);
            && (ReadSlot(row, index, previousUpper).Halt? <==> written && malformed)
            && (ReadSlot(row, index, previousUpper).Take? <==> written && !malformed)
            && (written && !malformed ==>
                  ReadSlot(row, index, previousUpper) ==
                  Take(Tier(lower.value, if toText == [] || to.value == UnlimitedSentinel then None else Some(to.value), rate.value)))
  {
  }

  /** The scan state: tiers so far, the last upper band, and whether the ladder has ended. */
  datatype Scan = Scan(tiers: seq<Tier>, previousUpper: Option<real>, done: bool)

  /** What slot `index` yields after a tier ending at the given upper band. */
  type Reader = (nat, Option<real>) -> Slot

  /** The slots of a row. */
  function SlotsOf(row: Row): Reader {
    (index: nat, previousUpper: Option<real>) => ReadSlot(row, index, previousUpper)
  }

  /** One iteration of the slot loop. */
  function ScanStep(read: Reader, index: nat, s: Scan): (r: Scan)
    ensures s.tiers <= r.tiers && |r.tiers| <= |s.tiers| + 1
    ensures s.done ==> r == s
  {
    if s.done then s
    else match read(index, s.previousUpper)
      case Blank => s
      case Halt(_) => s.(done := true)
      case Take(t) => Scan(s.tiers + [t], t.upper, t.upper.None?)
  }

  /** The scan state after slots `1..k`. */
  function ScanUpTo(read: Reader, k: nat): Scan {
    if k == 0 then Scan([], None, false) else ScanStep(read, k, ScanUpTo(read, k - 1))
  }

  /** `parse_structured_pricing_tiers(row, max_tiers)`. */
  function StructuredTiers(row: Row, maxTiers: nat): seq<Tier> {
    ScanUpTo(SlotsOf(row), maxTiers).tiers
  }

  /** Every tier a reader yields is ordered. */
  ghost predicate SoundReader(read: Reader) {
    forall index: nat, previousUpper: Option<real> :: read(index, previousUpper).Take? ==>
      Ordered([read(index, previousUpper).tier])
  }

  /** Within slots `1..k`, every tier a reader yields starts at the default lower band. */
  ghost predicate DefaultLowers(read: Reader, k: nat) {
    forall index: nat, previousUpper: Option<real> :: 1 <= index <= k && read(index, previousUpper).Take? ==>
      read(index, previousUpper).tier.lower == DefaultLower(previousUpper)
  }

  lemma RowReaderSound(row: Row)
    ensures SoundReader(SlotsOf(row))
  {
    forall index: nat, previousUpper: Option<real> | SlotsOf(row)(index, previousUpper).Take?
      ensures Ordered([SlotsOf(row)(index, previousUpper).tier])
    {
      var r := ReadSlot(row, index, previousUpper);
      assert SlotsOf(row)(index, previousUpper) == r;
    }
  }

  /** A row without `from` cells in slots `1..k` gives every tier of those slots its default lower band. */
  lemma RowDefaultLowers(row: Row, k: nat)
    requires forall i :: 1 <= i <= k ==> Cell(row, SlotKey(i, "_from_qty")) == []
    ensures DefaultLowers(SlotsOf(row), k)
  {
    forall index: nat, previousUpper: Option<real> | 1 <= index <= k && SlotsOf(row)(index, previousUpper).Take?
      ensures SlotsOf(row)(index, previousUpper).tier.lower == DefaultLower(previousUpper)
    {
      var r := ReadSlot(row, index, previousUpper);
      assert SlotsOf(row)(index, previousUpper) == r;
      assert Cell(row, SlotKey(index, "_from_qty")) == [];
    }
  }

  /** What the scan keeps true: an ordered ladder whose last tier, while scanning, is bounded and is `previousUpper`. */
  predicate ScanInvariant(s: Scan) {
    && Ordered(s.tiers) && UnlimitedLast(s.tiers)
    && (!s.done ==> (forall i :: 0 <= i < |s.tiers| ==> s.tiers[i].upper.Some?)
                    && s.previousUpper == (if s.tiers == [] then None else s.tiers[|s.tiers| - 1].upper))
  }

  /** After `k` slots there are at most `k` tiers, every bounded tier is ordered, and only the last may be unlimited. */
  lemma {:induction false} ScanShape(read: Reader, k: nat)
    requires SoundReader(read)
    ensures ScanInvariant(ScanUpTo(read, k)) && |ScanUpTo(read, k).tiers| <= k
  {
    if k > 0 {
      ScanShape(read, k - 1);
      var s := ScanUpTo(read, k - 1);
      if !s.done && read(k, s.previousUpper).Take? {
        var t := read(k, s.previousUpper).tier;
        var tiers := s.tiers + [t];
        assert Ordered([t]);
        assert tiers[|tiers| - 1] == t;
        assert forall i :: 0 <= i < |s.tiers| ==> tiers[i] == s.tiers[i];
      }
    }
  }

  /** The structured parser returns at most `maxTiers` ordered tiers, with at most the last unlimited. */
  lemma StructuredShape(row: Row, maxTiers: nat)
    ensures |StructuredTiers(row, maxTiers)| <= maxTiers
    ensures Ordered(StructuredTiers(row, maxTiers)) && UnlimitedLast(StructuredTiers(row, maxTiers))
  {
    RowReaderSound(row);
    ScanShape(SlotsOf(row), maxTiers);
  }

  /** Once the ladder has ended, later slots change nothing. */
  lemma {:induction false} ScanDoneStays(read: Reader, k: nat, m: nat)
    requires k <= m && ScanUpTo(read, k).done
    ensures ScanUpTo(read, m) == ScanUpTo(read, k)
    decreases m - k
  {
    if k < m {
      ScanDoneStays(read, k, m - 1);
    }
  }

  /** Tiers found after `k` slots are kept, in order, by every longer scan. */
  lemma {:induction false} ScanPrefix(read: Reader, k: nat, m: nat)
    requires k <= m
    ensures ScanUpTo(read, k).tiers <= ScanUpTo(read, m).tiers
    decreases m - k
  {
    if k < m {
      ScanPrefix(read, k, m - 1);
    }
  }

  /**
   * A slot that stops the ladder keeps exactly the tiers found before it: every later
   * slot is ignored, whatever it holds.
   */
  lemma StopKeepsEarlier(row: Row, k: nat, maxTiers: nat)
    requires 1 <= k <= maxTiers && !ScanUpTo(SlotsOf(row), k - 1).done
    requires ReadSlot(row, k, ScanUpTo(SlotsOf(row), k - 1).previousUpper).Halt?
    ensures StructuredTiers(row, maxTiers) == ScanUpTo(SlotsOf(row), k - 1).tiers
  {
    var read := SlotsOf(row);
    assert read(k, ScanUpTo(read, k - 1).previousUpper).Halt?;
    ScanDoneStays(read, k, maxTiers);
  }

  /** A row whose slots are all blank has no structured tiers: blank slots are skipped, not stops. */
  lemma {:induction false} AllBlankNoTiers(row: Row, k: nat)
    requires forall i :: 1 <= i <= k ==> Cell(row, SlotKey(i, "_from_qty")) == [] && Cell(row, SlotKey(i, "_to_qty")) == []
                                         && Cell(row, SlotKey(i, "_rate")) == []
    ensures ScanUpTo(SlotsOf(row), k) == Scan([], None, false)
  {
    if k > 0 {
      AllBlankNoTiers(row, k - 1);
      assert ReadSlot(row, k, None).Blank?;
    }
  }

  /** A row whose columns are not slot columns has no structured tiers. */
  lemma NoStructuredSlots(row: Row)
    requires forall key :: key in row ==> key == [] || key[0] != 't'
    ensures StructuredTiers(row, MaxTiers) == []
  {
    forall i | 1 <= i <= MaxTiers
      ensures Cell(row, SlotKey(i, "_from_qty")) == [] && Cell(row, SlotKey(i, "_to_qty")) == []
              && Cell(row, SlotKey(i, "_rate")) == []
    {
      assert SlotKey(i, "_from_qty")[0] == 't' && SlotKey(i, "_to_qty")[0] == 't' && SlotKey(i, "_rate")[0] == 't';
    }
    AllBlankNoTiers(row, MaxTiers);
  }

  /** A blank slot leaves the scan exactly where it was. */
  lemma BlankSkipped(row: Row, k: nat)
    requires k >= 1
    requires Cell(row, SlotKey(k, "_from_qty")) == [] && Cell(row, SlotKey(k, "_to_qty")) == []
             && Cell(row, SlotKey(k, "_rate")) == []
    ensures ScanUpTo(SlotsOf(row), k) == ScanUpTo(SlotsOf(row), k - 1)
  {
    var s := ScanUpTo(SlotsOf(row), k - 1);
    assert ReadSlot(row, k, s.previousUpper).Blank?;
  }

  /** When every tier starts at its default lower band, the ladder is contiguous. */
  lemma {:induction false} ScanChained(read: Reader, k: nat)
    requires SoundReader(read) && DefaultLowers(read, k)
    ensures Contiguous(ScanUpTo(read, k).tiers)
  {
    if k > 0 {
      assert DefaultLowers(read, k - 1);
      ScanChained(read, k - 1);
      ScanShape(read, k - 1);
      var s := ScanUpTo(read, k - 1);
      if !s.done && read(k, s.previousUpper).Take? {
        var t := read(k, s.previousUpper).tier;
        var tiers := s.tiers + [t];
        assert forall i :: 0 <= i < |s.tiers| ==> tiers[i] == s.tiers[i];
        assert t.lower == DefaultLower(s.previousUpper);
      }
    }
  }

  /**
   * When no slot has a `from` cell, the structured ladder is contiguous: it starts at 0
   * and each tier starts one increment (quantised) above the previous upper band.
   */
  lemma StructuredChained(row: Row, maxTiers: nat)
    requires forall i :: 1 <= i <= maxTiers ==> Cell(row, SlotKey(i, "_from_qty")) == []
    ensures Contiguous(StructuredTiers(row, maxTiers))
  {
    RowReaderSound(row);
    RowDefaultLowers(row, maxTiers);
    ScanChained(SlotsOf(row), maxTiers);
  }

  /** `parse_structured_pricing_tiers` as the loader's loop, with its `seen_any` flag and early `break`s. */
  method ParseStructuredTiers(row: Row, maxTiers: nat) returns (tiers: seq<Tier>)
    ensures tiers == StructuredTiers(row, maxTiers)
  {
    ghost var read := SlotsOf(row);
    tiers := [];
    var previousUpper: Option<real> := None;
    var seenAny := false;
    var index := 1;
    while index <= maxTiers
      invariant 1 <= index <= maxTiers + 1
      invariant ScanUpTo(read, index - 1) == Scan(tiers, previousUpper, false)
      invariant !seenAny ==> tiers == []
    {
      var slot := ReadSlot(row, index, previousUpper);
      assert read(index, previousUpper) == slot;
      if slot.Blank? {
        index := index + 1;
        continue;
      }
      seenAny := true;
      if slot.Halt? {
        ScanDoneStays(read, index, maxTiers);
        break;
      }
      tiers := tiers + [slot.tier];
      if slot.tier.upper.None? {
        ScanDoneStays(read, index, maxTiers);
        break;
      }
      previousUpper := slot.tier.upper;
      index := index + 1;
    }
    if !seenAny {
      tiers := [];
    }
  }

  // ----- the canonical ladder -----

  /** Legacy entries with chained lower bands, starting at `lower`; entries after the first unlimited one are dropped. */
  function ChainLegacy(legacy: seq<LegacyTier>, lower: real): (tiers: seq<Tier>)
    ensures |tiers| <= |legacy|
    ensures legacy != [] ==> tiers != [] && tiers[0].lower == lower
  {
    if legacy == [] then []
    else
      var t := Tier(lower, legacy[0].upper, legacy[0].rate);
      if legacy[0].upper.None? then [t] else [t] + ChainLegacy(legacy[1..], NextLower(legacy[0].upper.value))
  }

  /**
   * The chained ladder keeps each entry's upper band and rate, in order, is contiguous
   * from `lower`, and only its last tier may be unlimited.
   */
  lemma {:induction false} ChainLegacyShape(legacy: seq<LegacyTier>, lower: real)
    ensures var tiers := ChainLegacy(legacy, lower);
            && (forall i :: 0 <= i < |tiers| ==> tiers[i].upper == legacy[i].upper && tiers[i].rate == legacy[i].rate)
            && UnlimitedLast(tiers)
            && (forall i :: 0 <= i < |tiers| - 1 ==> tiers[i].upper.Some? && tiers[i + 1].lower == NextLower(tiers[i].upper.value))
            && (|tiers| < |legacy| ==> tiers != [] && tiers[|tiers| - 1].upper.None?)
    decreases |legacy|
  {
    if legacy != [] && legacy[0].upper.Some? {
      var rest := ChainLegacy(legacy[1..], NextLower(legacy[0].upper.value));
      ChainLegacyShape(legacy[1..], NextLower(legacy[0].upper.value));
      var tiers := ChainLegacy(legacy, lower);
      assert forall i :: 1 <= i < |tiers| ==> tiers[i] == rest[i - 1];
      if |tiers| < |legacy| {
        assert tiers[|tiers| - 1] == rest[|rest| - 1];
      }
    }
  }

  /** The chained ladder drops entries exactly when an entry before the last one is unlimited. */
  lemma {:induction false} ChainLegacyStops(legacy: seq<LegacyTier>, lower: real)
    ensures |ChainLegacy(legacy, lower)| < |legacy| <==> exists i :: 0 <= i < |legacy| - 1 && legacy[i].upper.None?
    decreases |legacy|
  {
    if legacy != [] && legacy[0].upper.Some? {
      ChainLegacyStops(legacy[1..], NextLower(legacy[0].upper.value));
      if |ChainLegacy(legacy, lower)| < |legacy| {
        var j :| 0 <= j < |legacy[1..]| - 1 && legacy[1..][j].upper.None?;
        assert legacy[j + 1].upper.None?;
      }
      if exists i :: 0 <= i < |legacy| - 1 && legacy[i].upper.None? {
        var i :| 0 <= i < |legacy| - 1 && legacy[i].upper.None?;
        assert i > 0 && legacy[1..][i - 1].upper.None?;
      }
    }
  }

  /**
   * `build_canonical_tiers_from_row`: the structured tiers if there are any, else the
   * legacy column chained from 0, else one unlimited tier from 0 at the row's flat rate.
   */
  function CanonicalTiers(row: Row, tiersColumn: string, fallbackRate: real): (tiers: seq<Tier>)
    ensures |tiers| >= 1
  {
    var structured := StructuredTiers(row, MaxTiers);
    if structured != [] then structured
    else
      var chained := ChainLegacy(LegacyTiers(Get(row, tiersColumn)), 0.0);
      if chained != [] then chained else [Tier(0.0, None, fallbackRate)]
  }

  /**
   * The canonical ladder: structured tiers win over the legacy column. Without them, a
   * legacy column with kept entries gives their upper bands and rates, in order, up to and
   * including the first unlimited one; without either, the ladder is one unlimited tier
   * from 0 at the flat rate. Without structured tiers it is contiguous from 0, and in every
   * case only its last tier may be unlimited.
   */
  lemma CanonicalShape(row: Row, tiersColumn: string, fallbackRate: real)
    ensures var tiers := CanonicalTiers(row, tiersColumn, fallbackRate);
            var legacy := LegacyTiers(Get(row, tiersColumn));
            && (StructuredTiers(row, MaxTiers) != [] ==> tiers == StructuredTiers(row, MaxTiers))
            && (StructuredTiers(row, MaxTiers) == [] && legacy != [] ==>
                  && |tiers| <= |legacy|
                  && (forall i :: 0 <= i < |tiers| ==> tiers[i].upper == legacy[i].upper && tiers[i].rate == legacy[i].rate)
                  && (|tiers| < |legacy| ==> tiers[|tiers| - 1].upper.None?))
            && (StructuredTiers(row, MaxTiers) == [] && legacy == [] ==> tiers == [Tier(0.0, None, fallbackRate)])
            && (StructuredTiers(row, MaxTiers) == [] ==> Contiguous(tiers))
            && UnlimitedLast(tiers)
  {
    StructuredShape(row, MaxTiers);
    var legacy := LegacyTiers(Get(row, tiersColumn));
    ChainLegacyShape(legacy, 0.0);
  }

  /** `build_canonical_tiers_from_row` as the loader's chaining loop. */
  method BuildCanonicalTiers(row: Row, tiersColumn: string, fallbackRate: real) returns (canonical: seq<Tier>)
    ensures canonical == CanonicalTiers(row, tiersColumn, fallbackRate)
  {
    var structured := ParseStructuredTiers(row, MaxTiers);
    if structured != [] {
      return structured;
    }
    var legacy := ParseLegacyTiers(Get(row, tiersColumn));
    canonical := [];
    var lowerBand := 0.0;
    var i := 0;
    while i < |legacy|
      invariant 0 <= i <= |legacy|
      invariant canonical + ChainLegacy(legacy[i..], lowerBand) == ChainLegacy(legacy, 0.0)
    {
      var upper := legacy[i].upper;
      canonical := canonical + [Tier(lowerBand, upper, legacy[i].rate)];
      assert legacy[i..][1..] == legacy[i + 1..];
      if upper.None? {
        break;
      }
      lowerBand := NextLower(upper.value);
      i := i + 1;
    }
    if canonical == [] {
      canonical := [Tier(0.0, None, fallbackRate)];
    }
  }
}
