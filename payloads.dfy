/**
 * Turning rows into create-pricing payloads (`build_pricing_payloads_from_rows`) and the
 * index of pricing records that already exist, which keeps a re-run from creating them twice.
 */
module Payloads {
  import opened Wrappers
  import opened Text
  import opened Decimals
  import opened Tiers
  import opened Sorting

  /** A calendar date as a day ordinal; a later date is a larger number. */
  type Day = int

  /** The input column names the loader is configured with. */
  datatype Columns = Columns(effective: string, start: string, end: string, tiers: string, rate: string)

  /** The key of the existing-pricing index: currency, lower band, upper band (none = unlimited). */
  datatype PriceKey = PriceKey(currency: string, lower: Option<real>, upper: Option<real>)

  /** Existing pricing records by key. */
  type Index = map<PriceKey, Row>

  /**
   * Everything a payload build depends on besides the rows. Date parsing (`strptime`), the
   * current date and the flat rate read by the float rate parser are given, not modelled.
   */
  datatype Context = Context(
    contractRateId: string,
    currency: string,
    columns: Columns,
    parseDate: string -> Option<Day>,
    today: Day,
    flatRate: Row -> real,
    fallbackStart: Option<Day>,
    index: Option<Index>)

  /** One create-pricing record. Dates are kept as days; their ISO rendering is not modelled. */
  datatype Payload = Payload(
    currency: string,
    contractRateId: string,
    effective: Day,
    lowerBand: string,
    upperBand: string,
    rate: string,
    rerateFlag: string,
    end: Option<Day>)

  /** What one call produces: the payloads, the last non-empty ladder, and the records skipped as existing. */
  datatype Built = Built(payloads: seq<Payload>, lastCanonical: seq<Tier>, skipped: seq<Row>)

  // ----- dates -----

  /** `parse_date`: a non-empty value that parses, otherwise the fallback, otherwise today. */
  function ParseDate(parse: string -> Option<Day>, value: Option<string>, fallback: Option<Day>, today: Day): Day {
    if value.Some? && value.value != "" && parse(value.value).Some? then parse(value.value).value
    else fallback.GetOr(today)
  }

  /** `parse_optional_date`: none for a missing or empty value or one that does not parse. */
  function ParseOptionalDate(parse: string -> Option<Day>, value: Option<string>): Option<Day> {
    if value.None? || value.value == "" then None else parse(value.value)
  }

  /** A row's effective date: its effective column, else its start column, else the fallback start, else today. */
  function EffectiveDay(ctx: Context, row: Row): Day {
    var start := ParseDate(ctx.parseDate, Get(row, ctx.columns.start), ctx.fallbackStart, ctx.today);
    ParseDate(ctx.parseDate, Get(row, ctx.columns.effective), Some(start), ctx.today)
  }

  /** A row's end date, if it has a valid one. */
  function EndDay(ctx: Context, row: Row): Option<Day> {
    ParseOptionalDate(ctx.parseDate, Get(row, ctx.columns.end))
  }

  /** The value is present, non-empty and parses as a date. */
  predicate Dated(parse: string -> Option<Day>, value: Option<string>) {
    value.Some? && value.value != "" && parse(value.value).Some?
  }

  /** The effective date falls back from column to column in the documented order. */
  lemma EffectiveDayChoice(ctx: Context, row: Row)
    ensures var p := ctx.parseDate;
            var eff := Get(row, ctx.columns.effective);
            var start := Get(row, ctx.columns.start);
            && (Dated(p, eff) ==> EffectiveDay(ctx, row) == p(eff.value).value)
            && (!Dated(p, eff) && Dated(p, start) ==> EffectiveDay(ctx, row) == p(start.value).value)
            && (!Dated(p, eff) && !Dated(p, start) ==> EffectiveDay(ctx, row) == ctx.fallbackStart.GetOr(ctx.today))
  {
  }

  // ----- ordering the ladder for creation -----

  /** `(1 if upper is None else 0, lower)`: bounded tiers first, then by lower band. */
  function TierKey(t: Tier): SortKey {
    SortKey(if t.upper.None? then 1 else 0, t.lower)
  }

  /** A row's canonical ladder. */
  function Canonical(ctx: Context, row: Row): seq<Tier> {
    CanonicalTiers(row, ctx.columns.tiers, ctx.flatRate(row))
  }

  /** A row's ladder in creation order. */
  function CreationOrder(ctx: Context, row: Row): seq<Tier> {
    SortBy(TierKey, Canonical(ctx, row))
  }

  /** Every bounded tier comes before every unlimited one, and bounded tiers ascend by lower band. */
  predicate BoundedFirst(tiers: seq<Tier>) {
    forall i, j :: 0 <= i < j < |tiers| && tiers[j].upper.Some? ==>
      tiers[i].upper.Some? && tiers[i].lower <= tiers[j].lower
  }

  lemma SortedBoundedFirst(tiers: seq<Tier>)
    requires SortedBy(TierKey, tiers)
    ensures BoundedFirst(tiers)
  {
    forall i, j | 0 <= i < j < |tiers| && tiers[j].upper.Some?
      ensures tiers[i].upper.Some? && tiers[i].lower <= tiers[j].lower
    {
      assert KeyLe(TierKey(tiers[i]), TierKey(tiers[j]));
    }
  }

  /** The creation order holds exactly the canonical tiers, bounded ones first in ascending order. */
  lemma CreationOrderShape(ctx: Context, row: Row)
    ensures multiset(CreationOrder(ctx, row)) == multiset(Canonical(ctx, row))
    ensures BoundedFirst(CreationOrder(ctx, row))
  {
    SortBySorted(TierKey, Canonical(ctx, row));
    SortedBoundedFirst(CreationOrder(ctx, row));
  }

  /** In a contiguous ordered ladder the lower bands strictly ascend. */
  lemma {:induction false} ContiguousAscending(tiers: seq<Tier>, i: nat, j: nat)
    requires Ordered(tiers) && Contiguous(tiers) && i < j < |tiers|
    ensures tiers[i].lower < tiers[j].lower
    decreases j - i
  {
    NextLowerAbove(tiers[i].upper.value);
    if i + 1 < j {
      ContiguousAscending(tiers, i + 1, j);
    }
  }

  /** A contiguous ladder whose only unlimited tier is the last is already in creation order. */
  lemma ContiguousKeepsOrder(tiers: seq<Tier>)
    requires Ordered(tiers) && Contiguous(tiers) && UnlimitedLast(tiers)
    ensures SortBy(TierKey, tiers) == tiers
  {
    forall i, j | 0 <= i < j < |tiers| ensures KeyLe(TierKey(tiers[i]), TierKey(tiers[j])) {
      ContiguousAscending(tiers, i, j);
    }
    SortBySortedInput(TierKey, tiers);
  }

  /** A row without structured tiers has its ladder created in its own order. */
  lemma UnstructuredKeepsOrder(ctx: Context, row: Row)
    requires StructuredTiers(row, MaxTiers) == [] && Ordered(Canonical(ctx, row))
    ensures CreationOrder(ctx, row) == Canonical(ctx, row)
  {
    CanonicalShape(row, ctx.columns.tiers, ctx.flatRate(row));
    var tiers := Canonical(ctx, row);
    ContiguousKeepsOrder(tiers);
  }

  // ----- which tiers become payloads -----

  predicate Inverted(t: Tier) {
    t.upper.Some? && t.upper.value < t.lower
  }

  /** The tiers before the first one whose upper band lies below its lower band. */
  function ValidPrefix(tiers: seq<Tier>): (r: seq<Tier>)
    ensures |r| <= |tiers| && r == tiers[..|r|]
    ensures forall i :: 0 <= i < |r| ==> !Inverted(r[i])
    ensures |r| < |tiers| ==> Inverted(tiers[|r|])
  {
    if tiers == [] || Inverted(tiers[0]) then [] else [tiers[0]] + ValidPrefix(tiers[1..])
  }

  function KeyOf(currency: string, t: Tier): PriceKey {
    PriceKey(currency, Some(t.lower), t.upper)
  }

  /** The tier already has a (non-empty) record in the index. */
  predicate Known(index: Option<Index>, currency: string, t: Tier) {
    index.Some? && KeyOf(currency, t) in index.value && index.value[KeyOf(currency, t)] != map[]
  }

  /** The tiers that still need creating, in order. */
  function FreshTiers(index: Option<Index>, currency: string, tiers: seq<Tier>): (r: seq<Tier>)
    ensures |r| <= |tiers|
  {
    if tiers == [] then []
    else
      var last := tiers[|tiers| - 1];
      FreshTiers(index, currency, tiers[..|tiers| - 1]) + (if Known(index, currency, last) then [] else [last])
  }

  /** The existing records of the tiers that are skipped, in order. */
  function KnownEntries(index: Option<Index>, currency: string, tiers: seq<Tier>): (r: seq<Row>)
    ensures |r| + |FreshTiers(index, currency, tiers)| == |tiers|
    ensures index.None? ==> r == []
  {
    if tiers == [] then []
    else
      var last := tiers[|tiers| - 1];
      KnownEntries(index, currency, tiers[..|tiers| - 1])
        + (if Known(index, currency, last) then [index.value[KeyOf(currency, last)]] else [])
  }

  /** The fresh tiers are tiers of the input that the index does not know. */
  lemma {:induction false} FreshMembers(index: Option<Index>, currency: string, tiers: seq<Tier>)
    ensures forall t :: t in FreshTiers(index, currency, tiers) ==> t in tiers && !Known(index, currency, t)
  {
    if tiers != [] {
      var init := tiers[..|tiers| - 1];
      FreshMembers(index, currency, init);
      assert forall t :: t in init ==> t in tiers;
    }
  }

  /** Without an index every tier is fresh. */
  lemma {:induction false} NoIndexAllFresh(currency: string, tiers: seq<Tier>)
    ensures FreshTiers(None, currency, tiers) == tiers
  {
    if tiers != [] {
      NoIndexAllFresh(currency, tiers[..|tiers| - 1]);
      assert tiers == tiers[..|tiers| - 1] + [tiers[|tiers| - 1]];
    }
  }

  /** A subsequence of a sorted ladder is sorted. */
  lemma {:induction false} FreshSorted(index: Option<Index>, currency: string, tiers: seq<Tier>)
    requires SortedBy(TierKey, tiers)
    ensures SortedBy(TierKey, FreshTiers(index, currency, tiers))
  {
    if tiers != [] {
      var init := tiers[..|tiers| - 1];
      var last := tiers[|tiers| - 1];
      assert SortedBy(TierKey, init) by {
        assert forall i :: 0 <= i < |init| ==> init[i] == tiers[i];
      }
      FreshSorted(index, currency, init);
      FreshMembers(index, currency, init);
      var f := FreshTiers(index, currency, init);
      forall t | t in f ensures KeyLe(TierKey(t), TierKey(last)) {
        var k :| 0 <= k < |init| && init[k] == t;
        assert tiers[k] == t;
      }
      var r := FreshTiers(index, currency, tiers);
      forall i, j | 0 <= i < j < |r| ensures KeyLe(TierKey(r[i]), TierKey(r[j])) {
        if j == |f| {
          assert r[i] == f[i] && f[i] in f;
        } else {
          assert r[i] == f[i] && r[j] == f[j];
        }
      }
    }
  }

  /** The payload for one tier of a row. */
  function PayloadFor(ctx: Context, effective: Day, end: Option<Day>, t: Tier): Payload {
    Payload(ctx.currency, ctx.contractRateId, effective, FormatDecimal(t.lower),
            if t.upper.None? then "-1" else FormatDecimal(t.upper.value),
            FormatDecimal(t.rate), "0", end)
  }

  function PayloadsFor(ctx: Context, effective: Day, end: Option<Day>, tiers: seq<Tier>): (r: seq<Payload>)
    ensures |r| == |tiers|
  {
    seq(|tiers|, i requires 0 <= i < |tiers| => PayloadFor(ctx, effective, end, tiers[i]))
  }

  /** One more tier either joins the fresh tiers or adds its existing record to the skipped ones. */
  lemma FreshStep(index: Option<Index>, currency: string, tiers: seq<Tier>, j: nat)
    requires j < |tiers|
    ensures FreshTiers(index, currency, tiers[..j + 1]) ==
            FreshTiers(index, currency, tiers[..j]) + (if Known(index, currency, tiers[j]) then [] else [tiers[j]])
    ensures KnownEntries(index, currency, tiers[..j + 1]) ==
            KnownEntries(index, currency, tiers[..j]) +
            (if Known(index, currency, tiers[j]) then [index.value[KeyOf(currency, tiers[j])]] else [])
  {
    assert tiers[..j + 1][..j] == tiers[..j];
  }

  /** One more tier adds either its payload or its existing record. */
  lemma EmitStep(ctx: Context, effective: Day, end: Option<Day>, tiers: seq<Tier>, j: nat)
    requires j < |tiers|
    ensures PayloadsFor(ctx, effective, end, FreshTiers(ctx.index, ctx.currency, tiers[..j + 1])) ==
            PayloadsFor(ctx, effective, end, FreshTiers(ctx.index, ctx.currency, tiers[..j])) +
            (if Known(ctx.index, ctx.currency, tiers[j]) then [] else [PayloadFor(ctx, effective, end, tiers[j])])
    ensures KnownEntries(ctx.index, ctx.currency, tiers[..j + 1]) ==
            KnownEntries(ctx.index, ctx.currency, tiers[..j]) +
            (if Known(ctx.index, ctx.currency, tiers[j]) then [ctx.index.value[KeyOf(ctx.currency, tiers[j])]] else [])
  {
    FreshStep(ctx.index, ctx.currency, tiers, j);
  }

  /** When the first `j` tiers are not inverted and the next one (if any) is, they are the valid prefix. */
  lemma {:induction false} ValidPrefixUpTo(tiers: seq<Tier>, j: nat)
    requires j <= |tiers| && forall k :: 0 <= k < j ==> !Inverted(tiers[k])
    requires j < |tiers| ==> Inverted(tiers[j])
    ensures ValidPrefix(tiers) == tiers[..j]
  {
    if j > 0 {
      ValidPrefixUpTo(tiers[1..], j - 1);
      assert tiers[..j] == [tiers[0]] + tiers[1..][..j - 1];
    }
  }

  /** One row's share of the result: its payloads and its skipped records. */
  datatype Outcome = Outcome(payloads: seq<Payload>, skipped: seq<Row>)

  /** What a row whose ladder is in creation order `ordered` contributes. */
  function Emit(ctx: Context, effective: Day, end: Option<Day>, ordered: seq<Tier>): Outcome {
    var valid := ValidPrefix(ordered);
    Outcome(PayloadsFor(ctx, effective, end, FreshTiers(ctx.index, ctx.currency, valid)),
            KnownEntries(ctx.index, ctx.currency, valid))
  }

  function RowOutcome(ctx: Context, row: Row): Outcome {
    Emit(ctx, EffectiveDay(ctx, row), EndDay(ctx, row), CreationOrder(ctx, row))
  }

  /** The rows' outcomes joined in row order, with the last non-empty ladder. */
  function Assemble(outcome: Row -> Outcome, ladder: Row -> seq<Tier>, rows: seq<Row>): Built {
    if rows == [] then Built([], [], [])
    else
      var before := Assemble(outcome, ladder, rows[..|rows| - 1]);
      var row := rows[|rows| - 1];
      Built(before.payloads + outcome(row).payloads,
            if ladder(row) != [] then ladder(row) else before.lastCanonical,
            before.skipped + outcome(row).skipped)
  }

  /** `build_pricing_payloads_from_rows`. */
  function BuildPayloads(ctx: Context, rows: seq<Row>): Built {
    Assemble(row => RowOutcome(ctx, row), row => Canonical(ctx, row), rows)
  }

  /**
   * The inner loop of `build_pricing_payloads_from_rows`, over one row's ladder in creation
   * order: an inverted tier ends the row (`break`), a known tier is skipped (`continue`),
   * every other tier yields a payload.
   */
  method EmitTiers(ctx: Context, effective: Day, end: Option<Day>, ordered: seq<Tier>)
    returns (payloads: seq<Payload>, skipped: seq<Row>)
    ensures Outcome(payloads, skipped) == Emit(ctx, effective, end, ordered)
  {
    payloads, skipped := [], [];
    var j := 0;
    while j < |ordered|
      invariant 0 <= j <= |ordered|
      invariant forall k :: 0 <= k < j ==> !Inverted(ordered[k])
      invariant payloads == PayloadsFor(ctx, effective, end, FreshTiers(ctx.index, ctx.currency, ordered[..j]))
      invariant skipped == KnownEntries(ctx.index, ctx.currency, ordered[..j])
    {
      var tier := ordered[j];
      var lowerBand := FormatDecimal(tier.lower);
      var upperBand;
      if tier.upper.None? {
        upperBand := "-1";
      } else {
        if tier.upper.value < tier.lower {
          break;
        }
        upperBand := FormatDecimal(tier.upper.value);
      }
      EmitStep(ctx, effective, end, ordered, j);
      ghost var known := Known(ctx.index, ctx.currency, tier);
      if ctx.index.Some? {
        var key := PriceKey(ctx.currency, Some(tier.lower), tier.upper);
        if key in ctx.index.value && ctx.index.value[key] != map[] {
          assert known;
          skipped := skipped + [ctx.index.value[key]];
          j := j + 1;
          continue;
        }
      }
      var payload := Payload(ctx.currency, ctx.contractRateId, effective, lowerBand, upperBand,
                             FormatDecimal(tier.rate), "0", end);
      assert !known && payload == PayloadFor(ctx, effective, end, tier);
      payloads := payloads + [payload];
      j := j + 1;
    }
    ValidPrefixUpTo(ordered, j);
  }

  /** `build_pricing_payloads_from_rows`: the outer loop over the rows. */
  method BuildPricingPayloads(ctx: Context, rows: seq<Row>) returns (payloads: seq<Payload>, lastCanonical: seq<Tier>, skipped: seq<Row>)
    ensures Built(payloads, lastCanonical, skipped) == BuildPayloads(ctx, rows)
  {
    payloads, lastCanonical, skipped := [], [], [];
    var i := 0;
    while i < |rows|
      invariant 0 <= i <= |rows|
      invariant Built(payloads, lastCanonical, skipped) == BuildPayloads(ctx, rows[..i])
    {
      var row := rows[i];
      var effective := EffectiveDay(ctx, row);
      var end := EndDay(ctx, row);
      var canonical := BuildCanonicalTiers(row, ctx.columns.tiers, ctx.flatRate(row));
      if canonical != [] {
        lastCanonical := canonical;
      }
      var ordered := SortBy(TierKey, canonical);
      var rowPayloads, rowSkipped := EmitTiers(ctx, effective, end, ordered);
      assert Outcome(rowPayloads, rowSkipped) == RowOutcome(ctx, row);
      BuildStep(ctx, rows, i);
      payloads := payloads + rowPayloads;
      skipped := skipped + rowSkipped;
      i := i + 1;
    }
    assert rows[..i] == rows;
  }

  /** One more row adds its outcome and, when its ladder is not empty, becomes the last ladder. */
  lemma BuildStep(ctx: Context, rows: seq<Row>, i: nat)
    requires i < |rows|
    ensures var before := BuildPayloads(ctx, rows[..i]);
            var row := rows[i];
            BuildPayloads(ctx, rows[..i + 1]) ==
            Built(before.payloads + RowOutcome(ctx, row).payloads,
                  if Canonical(ctx, row) != [] then Canonical(ctx, row) else before.lastCanonical,
                  before.skipped + RowOutcome(ctx, row).skipped)
  {
    assert rows[..i + 1][..i] == rows[..i];
  }

  // ----- properties of the payloads -----

  /** Each row yields at most one payload or skipped record per canonical tier. */
  lemma RowCounts(ctx: Context, row: Row)
    ensures |RowOutcome(ctx, row).payloads| + |RowOutcome(ctx, row).skipped| <= |Canonical(ctx, row)|
  {
  }

  /** Without an index nothing is skipped: every tier before the first inverted one yields a payload. */
  lemma NoIndexNoSkips(ctx: Context, row: Row)
    requires ctx.index.None?
    ensures RowOutcome(ctx, row).skipped == []
    ensures RowOutcome(ctx, row).payloads ==
            PayloadsFor(ctx, EffectiveDay(ctx, row), EndDay(ctx, row), ValidPrefix(CreationOrder(ctx, row)))
  {
    NoIndexAllFresh(ctx.currency, ValidPrefix(CreationOrder(ctx, row)));
  }

  /**
   * The tiers a row creates are a sub-sequence of its creation order: bounded tiers first in
   * ascending lower band, the unlimited one last, none inverted, none already known.
   */
  lemma CreatedTiersInOrder(ctx: Context, row: Row)
    ensures var created := FreshTiers(ctx.index, ctx.currency, ValidPrefix(CreationOrder(ctx, row)));
            && BoundedFirst(created)
            && forall t :: t in created ==> !Inverted(t) && !Known(ctx.index, ctx.currency, t) && t in Canonical(ctx, row)
  {
    var order := CreationOrder(ctx, row);
    SortBySorted(TierKey, Canonical(ctx, row));
    var valid := ValidPrefix(order);
    assert SortedBy(TierKey, valid) by {
      assert forall i :: 0 <= i < |valid| ==> valid[i] == order[i];
    }
    FreshSorted(ctx.index, ctx.currency, valid);
    FreshMembers(ctx.index, ctx.currency, valid);
    SortedBoundedFirst(FreshTiers(ctx.index, ctx.currency, valid));
    forall t | t in FreshTiers(ctx.index, ctx.currency, valid) ensures t in Canonical(ctx, row) {
      assert t in multiset(order);
    }
  }

  /** Every payload carries the call's currency and rate id, the row's dates and a zero re-rate flag. */
  lemma PayloadFields(ctx: Context, row: Row)
    ensures forall p :: p in RowOutcome(ctx, row).payloads ==>
              && p.currency == ctx.currency && p.contractRateId == ctx.contractRateId
              && p.effective == EffectiveDay(ctx, row) && p.end == EndDay(ctx, row)
              && p.rerateFlag == "0"
  {
    var effective, end := EffectiveDay(ctx, row), EndDay(ctx, row);
    var created := FreshTiers(ctx.index, ctx.currency, ValidPrefix(CreationOrder(ctx, row)));
    var payloads := RowOutcome(ctx, row).payloads;
    assert payloads == PayloadsFor(ctx, effective, end, created);
    forall p | p in payloads
      ensures p.currency == ctx.currency && p.contractRateId == ctx.contractRateId
      ensures p.effective == effective && p.end == end && p.rerateFlag == "0"
    {
      var i :| 0 <= i < |payloads| && payloads[i] == p;
      assert p == PayloadFor(ctx, effective, end, created[i]);
    }
  }

  /**
   * `UpperBand` is "-1" for an unlimited tier, and for a bounded one exactly when its upper
   * band quantises to -1. It reads back as unlimited in both cases and as the quantised upper
   * band otherwise, which is the upper band itself when that is on the grid.
   */
  lemma UpperBandReadsBack(ctx: Context, effective: Day, end: Option<Day>, t: Tier)
    ensures PayloadFor(ctx, effective, end, t).upperBand == "-1" <==>
            t.upper.None? || Quantize(t.upper.value) == UnlimitedSentinel
    ensures ParsePricingBand(Some(PayloadFor(ctx, effective, end, t).upperBand)) ==
            if t.upper.None? || Quantize(t.upper.value) == UnlimitedSentinel then None
            else Some(Quantize(t.upper.value))
    ensures t.upper.Some? && OnGrid(t.upper.value) && t.upper.value != UnlimitedSentinel ==>
            ParsePricingBand(Some(PayloadFor(ctx, effective, end, t).upperBand)) == t.upper
  {
    PricingBandSentinel();
    if t.upper.Some? {
      var u := t.upper.value;
      FormatDecimalBand(u);
      FormatDecimalParse(u);
      if Quantize(u) == UnlimitedSentinel {
        SentinelRendering(u);
      }
      if OnGrid(u) {
        QuantizeOnGrid(u);
      }
    }
  }

  /**
   * A bounded tier can be written with the unlimited sentinel: the tier -2..-1.00000000001
   * (a structured slot with `from` -2 and `to` -1.00000000001 yields it) is not inverted,
   * its upper band quantises to -1, and its record reads back as an unlimited tier.
   */
  lemma BoundedUpperAsSentinel(ctx: Context, effective: Day, end: Option<Day>)
    ensures var t := Tier(-2.0, Some(-1.00000000001), 5.0);
            && !Inverted(t)
            && PayloadFor(ctx, effective, end, t).upperBand == "-1"
            && ParsePricingBand(Some(PayloadFor(ctx, effective, end, t).upperBand)) == None
  {
    var u := -1.00000000001;
    assert Steps(u) == 10000000000 by {
      assert Abs(u) * 10000000000.0 == 10000000000.1;
    }
    assert Quantize(u) == UnlimitedSentinel;
    UpperBandReadsBack(ctx, effective, end, Tier(-2.0, Some(u), 5.0));
  }

  /** Assembling `a + b` gives the result for `a` followed by the result for `b`. */
  lemma {:induction false} AssembleConcat(outcome: Row -> Outcome, ladder: Row -> seq<Tier>, a: seq<Row>, b: seq<Row>)
    ensures Assemble(outcome, ladder, a + b).payloads == Assemble(outcome, ladder, a).payloads + Assemble(outcome, ladder, b).payloads
    ensures Assemble(outcome, ladder, a + b).skipped == Assemble(outcome, ladder, a).skipped + Assemble(outcome, ladder, b).skipped
    decreases |b|
  {
    if b == [] {
      assert a + b == a;
    } else {
      var init := b[..|b| - 1];
      assert (a + b)[..|a + b| - 1] == a + init;
      assert (a + b)[|a + b| - 1] == b[|b| - 1];
      AssembleConcat(outcome, ladder, a, init);
    }
  }

  /**
   * Payloads follow row order and rows do not affect each other: the result for `a + b` is
   * that for `a` followed by that for `b`.
   */
  lemma BuildConcat(ctx: Context, a: seq<Row>, b: seq<Row>)
    ensures BuildPayloads(ctx, a + b).payloads == BuildPayloads(ctx, a).payloads + BuildPayloads(ctx, b).payloads
    ensures BuildPayloads(ctx, a + b).skipped == BuildPayloads(ctx, a).skipped + BuildPayloads(ctx, b).skipped
  {
    AssembleConcat(row => RowOutcome(ctx, row), row => Canonical(ctx, row), a, b);
  }

  /** The last ladder reported is that of the last row (every ladder is non-empty). */
  lemma LastCanonicalOfLastRow(ctx: Context, rows: seq<Row>)
    requires rows != []
    ensures BuildPayloads(ctx, rows).lastCanonical == Canonical(ctx, rows[|rows| - 1])
  {
  }

  // ----- the existing-pricing index -----

  /** `a or b`: the first column when it holds a non-empty text, else the second. */
  function Either(row: Row, first: string, second: string): Option<string> {
    if Get(row, first).Some? && Get(row, first).value != "" then Get(row, first) else Get(row, second)
  }

  /** An existing record's index key; a record without a currency takes the product's. */
  function EntryKey(entry: Row, productCurrency: string): PriceKey {
    var currency := Either(entry, "CurrencyCode", "currencycode");
    PriceKey(if currency.Some? && currency.value != "" then currency.value else productCurrency,
             ParsePricingBand(Either(entry, "LowerBand", "lowerband")),
             ParsePricingBand(Either(entry, "UpperBand", "upperband")))
  }

  /** The index over existing records; a later record with the same key replaces an earlier one. */
  function ExistingIndex(entries: seq<Row>, productCurrency: string): Index {
    if entries == [] then map[]
    else
      var last := entries[|entries| - 1];
      ExistingIndex(entries[..|entries| - 1], productCurrency)[EntryKey(last, productCurrency) := last]
  }

  /** The index-building loop in the provisioning flow. */
  method BuildExistingIndex(entries: seq<Row>, productCurrency: string) returns (index: Index)
    ensures index == ExistingIndex(entries, productCurrency)
  {
    index := map[];
    for i := 0 to |entries|
      invariant index == ExistingIndex(entries[..i], productCurrency)
    {
      assert entries[..i + 1][..i] == entries[..i];
      index := index[EntryKey(entries[i], productCurrency) := entries[i]];
    }
    assert entries[..|entries|] == entries;
  }

  /** Every record is reachable under its own key, and each key holds a record with that key. */
  lemma {:induction false} IndexHolds(entries: seq<Row>, productCurrency: string)
    ensures forall e :: e in entries ==> EntryKey(e, productCurrency) in ExistingIndex(entries, productCurrency)
    ensures forall k :: k in ExistingIndex(entries, productCurrency) ==>
              EntryKey(ExistingIndex(entries, productCurrency)[k], productCurrency) == k
  {
    if entries != [] {
      var init := entries[..|entries| - 1];
      IndexHolds(init, productCurrency);
      assert forall e :: e in entries ==> e in init || e == entries[|entries| - 1];
    }
  }

  /** What the remote system stores for a created payload (the fields the index reads). */
  function StoredRecord(p: Payload): Row {
    map["CurrencyCode" := p.currency, "ContractRateId" := p.contractRateId, "LowerBand" := p.lowerBand,
        "UpperBand" := p.upperBand, "Rate" := p.rate, "RerateFlag" := p.rerateFlag]
  }

  /** A stored record is indexed under its currency and its bands as read back. */
  lemma StoredKey(p: Payload)
    requires p.lowerBand != "" && p.upperBand != ""
    ensures EntryKey(StoredRecord(p), p.currency) ==
            PriceKey(p.currency, ParsePricingBand(Some(p.lowerBand)), ParsePricingBand(Some(p.upperBand)))
  {
    var r := StoredRecord(p);
    assert Either(r, "LowerBand", "lowerband") == Some(p.lowerBand);
    assert Either(r, "UpperBand", "upperband") == Some(p.upperBand);
    if p.currency == "" {
      assert Either(r, "CurrencyCode", "currencycode") == None;
    }
  }

  /** A band reads back from its rendering as itself exactly when it is on the grid and is not -1. */
  lemma BandText(v: real, s: string)
    requires s == FormatDecimal(v)
    ensures s != ""
    ensures ParsePricingBand(Some(s)) == Some(v) <==> OnGrid(v) && v != UnlimitedSentinel
  {
    FormatDecimalShape(v);
    FormatDecimalBand(v);
    QuantizeOnto(v);
    if OnGrid(v) {
      QuantizeOnGrid(v);
    }
  }

  /** Both bands are on the grid and neither is -1, so the tier's record is stored under its own key. */
  predicate StoredUnderOwnKey(t: Tier) {
    OnGrid(t.lower) && t.lower != UnlimitedSentinel &&
    (t.upper.Some? ==> OnGrid(t.upper.value) && t.upper.value != UnlimitedSentinel)
  }

  /**
   * The record stored for a tier is indexed under the tier's own key exactly when both bands
   * are on the grid and neither is -1. Otherwise the rendering rounds a band, or turns it into
   * the unlimited sentinel, and the record is indexed under another key.
   */
  lemma StoredKeyExact(ctx: Context, effective: Day, end: Option<Day>, t: Tier)
    ensures EntryKey(StoredRecord(PayloadFor(ctx, effective, end, t)), ctx.currency) == KeyOf(ctx.currency, t) <==>
            StoredUnderOwnKey(t)
  {
    var p := PayloadFor(ctx, effective, end, t);
    BandText(t.lower, p.lowerBand);
    PricingBandSentinel();
    if t.upper.Some? {
      BandText(t.upper.value, p.upperBand);
    }
    StoredKey(p);
  }

  /** The stored record of a created tier whose bands are on the grid and not -1 marks that tier as known. */
  lemma CreatedTierKnown(ctx: Context, effective: Day, end: Option<Day>, t: Tier, entries: seq<Row>)
    requires StoredUnderOwnKey(t)
    requires StoredRecord(PayloadFor(ctx, effective, end, t)) in entries
    ensures Known(Some(ExistingIndex(entries, ctx.currency)), ctx.currency, t)
  {
    StoredKeyExact(ctx, effective, end, t);
    StoredMakesKnown(entries, ctx.currency, StoredRecord(PayloadFor(ctx, effective, end, t)), t);
  }

  /**
   * An upper band off the grid misses the index: the record created for the tier
   * `0..100.00000000001` is stored with upper band "100", so a re-run does not know the tier.
   */
  lemma OffGridUpperNotKnown(ctx: Context, effective: Day, end: Option<Day>)
    ensures var t := Tier(0.0, Some(100.00000000001), 5.0);
            var stored := StoredRecord(PayloadFor(ctx, effective, end, t));
            !Known(Some(ExistingIndex([stored], ctx.currency)), ctx.currency, t)
  {
    var t := Tier(0.0, Some(100.00000000001), 5.0);
    var stored := StoredRecord(PayloadFor(ctx, effective, end, t));
    assert !OnGrid(100.00000000001) by {
      assert 100.00000000001 * 10000000000.0 == 1000000000000.1;
    }
    StoredKeyExact(ctx, effective, end, t);
    assert [stored][..0] == [];
  }

  /** A stored record with a lower band in the index marks its tier as known. */
  lemma StoredMakesKnown(entries: seq<Row>, productCurrency: string, e: Row, t: Tier)
    requires e in entries && EntryKey(e, productCurrency) == KeyOf(productCurrency, t)
    ensures Known(Some(ExistingIndex(entries, productCurrency)), productCurrency, t)
  {
    IndexHolds(entries, productCurrency);
    var empty: Row := map[];
    assert Either(empty, "LowerBand", "lowerband") == None;
  }

  /**
   * Re-running a row against the index of the records a run without an index created
   * creates nothing: every tier it would create is found and skipped instead. This is
   * what keeps the provisioning flow from duplicating pricing when it is run twice.
   */
  lemma RerunCreatesNothing(ctx: Context, row: Row, entries: seq<Row>)
    requires ctx.index == Some(ExistingIndex(entries, ctx.currency))
    requires forall t :: t in Canonical(ctx, row) ==> StoredUnderOwnKey(t)
    requires forall p :: p in RowOutcome(ctx.(index := None), row).payloads ==> StoredRecord(p) in entries
    ensures RowOutcome(ctx, row).payloads == []
    ensures |RowOutcome(ctx, row).skipped| == |RowOutcome(ctx.(index := None), row).payloads|
  {
    var order := CreationOrder(ctx, row);
    CreationOrderShape(ctx, row);
    forall t | t in order
      ensures StoredUnderOwnKey(t)
    {
      assert t in multiset(order);
    }
    RerunEmitsNothing(ctx, EffectiveDay(ctx, row), EndDay(ctx, row), order, entries);
  }

  /** `RerunCreatesNothing` for one ladder in creation order. */
  lemma RerunEmitsNothing(ctx: Context, effective: Day, end: Option<Day>, ordered: seq<Tier>, entries: seq<Row>)
    requires ctx.index == Some(ExistingIndex(entries, ctx.currency))
    requires forall t :: t in ordered ==> StoredUnderOwnKey(t)
    requires forall p :: p in Emit(ctx.(index := None), effective, end, ordered).payloads ==> StoredRecord(p) in entries
    ensures Emit(ctx, effective, end, ordered).payloads == []
    ensures |Emit(ctx, effective, end, ordered).skipped| == |Emit(ctx.(index := None), effective, end, ordered).payloads|
  {
    var first := ctx.(index := None);
    var valid := ValidPrefix(ordered);
    NoIndexAllFresh(ctx.currency, valid);
    var created := Emit(first, effective, end, ordered).payloads;
    assert |created| == |valid|;
    forall t | t in valid ensures Known(ctx.index, ctx.currency, t) {
      var k :| 0 <= k < |valid| && valid[k] == t;
      assert created[k] == PayloadFor(first, effective, end, t);
      CreatedTierKnown(first, effective, end, t, entries);
    }
    AllKnownNoneFresh(ctx.index, ctx.currency, valid);
  }

  lemma {:induction false} AllKnownNoneFresh(index: Option<Index>, currency: string, tiers: seq<Tier>)
    requires forall t :: t in tiers ==> Known(index, currency, t)
    ensures FreshTiers(index, currency, tiers) == []
  {
    if tiers != [] {
      var init := tiers[..|tiers| - 1];
      assert forall t :: t in init ==> t in tiers;
      AllKnownNoneFresh(index, currency, init);
      assert tiers[|tiers| - 1] in tiers;
    }
  }
}
