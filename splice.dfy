/**
 * A price change splices new pricing into a contract rate's existing periods
 * (`apply_price_change_for_group` and `apply_price_changes_to_contract_rate`): the period in
 * force on the first new effective date is shortened to end the day before, every period
 * starting on or after that date is deleted, and the rows' ladders are created afresh.
 */
module Splice {
  import opened Wrappers
  import opened Text
  import opened Tiers
  import opened Sorting
  import opened Payloads

  /** `date.max` (9999-12-31) as a day ordinal, 0001-01-01 being day 1. */
  const MaxDay: Day := 3652059

  /** `parse_iso_to_date`: the text before any `T`, stripped; none when it is empty or does not parse. */
  function ParseIso(parse: string -> Option<Day>, value: Option<string>): Option<Day> {
    if value.None? || value.value == "" then None
    else
      var text := Strip(Split(value.value, 'T')[0]);
      if text == "" then None else parse(text)
  }

  /** The time part of a timestamp is ignored: `dateTtime` reads as `date`. */
  lemma ParseIsoIgnoresTime(parse: string -> Option<Day>, date: string, time: string)
    requires 'T' !in date
    ensures ParseIso(parse, Some(date + "T" + time)) == ParseIso(parse, Some(date))
  {
    SplitAppend(date, time, 'T');
    assert date + "T" + time == date + ['T'] + time;
    if date != "" {
      SplitNoSep(date, 'T');
    }
  }

  // ----- ordering a group's rows -----

  /** The day a price-change row sorts by: its effective, else its start date; undated rows sort last. */
  function RowSortDay(parse: string -> Option<Day>, columns: Columns, row: Row): Day {
    ParseIso(parse, Either(row, columns.effective, columns.start)).GetOr(MaxDay)
  }

  function RowSortKey(parse: string -> Option<Day>, columns: Columns): Row -> SortKey {
    (row: Row) => SortKey(RowSortDay(parse, columns, row), 0.0)
  }

  /** The group's rows in date order, as `sorted(rows_for_group, key=_sort_key)`. */
  function SortGroupRows(parse: string -> Option<Day>, columns: Columns, rows: seq<Row>): seq<Row> {
    SortBy(RowSortKey(parse, columns), rows)
  }

  /**
   * The sorted group holds the same rows, in ascending date order, and rows with the
   * same date keep their input order.
   */
  lemma SortGroupRowsShape(parse: string -> Option<Day>, columns: Columns, rows: seq<Row>, day: Day)
    ensures var sorted := SortGroupRows(parse, columns, rows);
            && multiset(sorted) == multiset(rows)
            && (forall i, j :: 0 <= i < j < |sorted| ==>
                  RowSortDay(parse, columns, sorted[i]) <= RowSortDay(parse, columns, sorted[j]))
            && WithKey(RowSortKey(parse, columns), SortKey(day, 0.0), sorted) ==
               WithKey(RowSortKey(parse, columns), SortKey(day, 0.0), rows)
  {
    var key := RowSortKey(parse, columns);
    SortBySorted(key, rows);
    SortByStable(key, SortKey(day, 0.0), rows);
    var sorted := SortGroupRows(parse, columns, rows);
    forall i, j | 0 <= i < j < |sorted|
      ensures RowSortDay(parse, columns, sorted[i]) <= RowSortDay(parse, columns, sorted[j])
    {
      assert KeyLe(key(sorted[i]), key(sorted[j]));
    }
  }

  // ----- planning the splice -----

  /** An existing pricing period as read back: its id and its parsed dates. */
  datatype Period = Period(id: Option<string>, effective: Option<Day>, end: Option<Day>)

  function PeriodOf(parse: string -> Option<Day>, record: Row): Period {
    Period(Either(record, "Id", "id"),
           ParseIso(parse, Either(record, "EffectiveDate", "effectivedate")),
           ParseIso(parse, Either(record, "EndDate", "enddate")))
  }

  function Periods(parse: string -> Option<Day>, records: seq<Row>): (periods: seq<Period>)
    ensures |periods| == |records|
  {
    seq(|records|, i requires 0 <= i < |records| => PeriodOf(parse, records[i]))
  }

  /** The period is in force on day `first`. */
  predicate Covers(p: Period, first: Day) {
    p.effective.Some? && p.effective.value <= first && (p.end.None? || p.end.value >= first)
  }

  /** The period starts on or after day `first`. */
  predicate StartsFrom(p: Period, first: Day) {
    p.effective.Some? && p.effective.value >= first
  }

  /** The first period in force on day `first`, if any. */
  function Current(periods: seq<Period>, first: Day): (r: Option<Period>)
    ensures r.Some? ==> Covers(r.value, first) && r.value in periods
  {
    if periods == [] then None
    else if Covers(periods[0], first) then Some(periods[0])
    else Current(periods[1..], first)
  }

  /** `Current` finds the first period in force on `first`, and finds none only when there is none. */
  lemma {:induction false} CurrentIsFirst(periods: seq<Period>, first: Day)
    ensures var r := Current(periods, first);
            && (r.Some? ==> exists k :: 0 <= k < |periods| && periods[k] == r.value &&
                              forall j :: 0 <= j < k ==> !Covers(periods[j], first))
            && (r.None? ==> forall j :: 0 <= j < |periods| ==> !Covers(periods[j], first))
  {
    if periods != [] && !Covers(periods[0], first) {
      CurrentIsFirst(periods[1..], first);
      var r := Current(periods[1..], first);
      if r.Some? {
        var k :| 0 <= k < |periods[1..]| && periods[1..][k] == r.value &&
                 forall j :: 0 <= j < k ==> !Covers(periods[1..][j], first);
        assert periods[k + 1] == r.value;
        assert forall j :: 1 <= j < k + 1 ==> periods[j] == periods[1..][j - 1];
      } else {
        assert forall j :: 1 <= j < |periods| ==> periods[j] == periods[1..][j - 1];
      }
    }
  }

  /** The ids, in fetched order, of the periods starting on or after `first` (periods without an id are kept). */
  function DeleteIds(periods: seq<Period>, first: Day): seq<string> {
    if periods == [] then []
    else
      var p := periods[0];
      (if StartsFrom(p, first) && p.id.Some? && p.id.value != "" then [p.id.value] else []) + DeleteIds(periods[1..], first)
  }

  /** Going through the periods from the `k`-th one on, the `k`-th one contributes first. */
  lemma DeleteIdsAt(periods: seq<Period>, first: Day, k: nat)
    requires k < |periods|
    ensures var p := periods[k];
            DeleteIds(periods[k..], first) ==
            (if StartsFrom(p, first) && p.id.Some? && p.id.value != "" then [p.id.value] else []) + DeleteIds(periods[k + 1..], first)
  {
    assert periods[k..][1..] == periods[k + 1..];
  }

  /** Ends the period with this id on this day. */
  datatype Shorten = Shorten(id: Option<string>, end: Day)

  /** The splice: the cut date, the period to shorten, if any, and the ids to delete. */
  datatype Plan = Plan(cut: Day, shorten: Option<Shorten>, deletes: seq<string>)

  function PlanSplice(periods: seq<Period>, first: Day): Plan {
    var current := Current(periods, first);
    Plan(first - 1,
         if current.Some? && current.value.effective.value < first then Some(Shorten(current.value.id, first - 1)) else None,
         DeleteIds(periods, first))
  }

  /** The first planning loop of `apply_price_changes_to_contract_rate`: the period in force on `first`. */
  method FindCurrent(periods: seq<Period>, first: Day) returns (current: Option<Period>)
    ensures current == Current(periods, first)
  {
    var i := 0;
    while i < |periods|
      invariant 0 <= i <= |periods|
      invariant Current(periods, first) == Current(periods[i..], first)
    {
      assert periods[i..][1..] == periods[i + 1..];
      if Covers(periods[i], first) {
        return Some(periods[i]);
      }
      i := i + 1;
    }
    return None;
  }

  /** The second planning loop: the ids to delete, in fetched order. */
  method CollectDeletes(periods: seq<Period>, first: Day) returns (deletes: seq<string>)
    ensures deletes == DeleteIds(periods, first)
  {
    deletes := [];
    for k := 0 to |periods|
      invariant deletes + DeleteIds(periods[k..], first) == DeleteIds(periods, first)
    {
      DeleteIdsAt(periods, first, k);
      var p := periods[k];
      if StartsFrom(p, first) && p.id.Some? && p.id.value != "" {
        deletes := deletes + [p.id.value];
      }
    }
  }

  /** The planning step of `apply_price_changes_to_contract_rate`. */
  method PlanFor(periods: seq<Period>, first: Day) returns (plan: Plan)
    ensures plan == PlanSplice(periods, first)
  {
    var current := FindCurrent(periods, first);
    var shorten: Option<Shorten> := None;
    if current.Some? && current.value.effective.value < first {
      shorten := Some(Shorten(current.value.id, first - 1));
    }
    var deletes := CollectDeletes(periods, first);
    plan := Plan(first - 1, shorten, deletes);
  }

  /** Exactly the non-empty ids of the periods starting on or after `first` are deleted. */
  lemma {:induction false} DeleteIdsExact(periods: seq<Period>, first: Day, id: string)
    ensures id in DeleteIds(periods, first) <==>
            exists j :: 0 <= j < |periods| && StartsFrom(periods[j], first) && periods[j].id == Some(id) && id != ""
  {
    if periods != [] {
      DeleteIdsExact(periods[1..], first, id);
      if exists j :: 0 <= j < |periods| && StartsFrom(periods[j], first) && periods[j].id == Some(id) && id != "" {
        var j :| 0 <= j < |periods| && StartsFrom(periods[j], first) && periods[j].id == Some(id) && id != "";
        if j > 0 {
          assert periods[1..][j - 1] == periods[j];
        }
      }
      if id in DeleteIds(periods[1..], first) {
        var j :| 0 <= j < |periods[1..]| && StartsFrom(periods[1..][j], first) && periods[1..][j].id == Some(id) && id != "";
        assert periods[j + 1] == periods[1..][j];
      }
    }
  }

  /**
   * The plan: the cut is the day before `first`; a period is shortened only when it is the
   * first one in force on `first` and started before it, and it is shortened to end on the
   * cut; such a period does not start on or after `first`, so it is never among the deleted.
   */
  lemma PlanShape(periods: seq<Period>, first: Day)
    ensures var plan := PlanSplice(periods, first);
            && plan.cut == first - 1
            && (plan.shorten.Some? <==> Current(periods, first).Some? && Current(periods, first).value.effective.value < first)
            && (plan.shorten.Some? ==> plan.shorten.value.end == plan.cut && plan.shorten.value.id == Current(periods, first).value.id
                                       && !StartsFrom(Current(periods, first).value, first))
  {
  }

  /** A period whose effective date does not parse is never touched: the plan is the same without it. */
  lemma {:induction false} UndatedUntouched(periods: seq<Period>, first: Day, j: nat)
    requires j < |periods| && periods[j].effective.None?
    ensures PlanSplice(periods[..j] + periods[j + 1..], first) == PlanSplice(periods, first)
  {
    UndatedSkipped(periods, first, j);
  }

  lemma {:induction false} UndatedSkipped(periods: seq<Period>, first: Day, j: nat)
    requires j < |periods| && periods[j].effective.None?
    ensures Current(periods[..j] + periods[j + 1..], first) == Current(periods, first)
    ensures DeleteIds(periods[..j] + periods[j + 1..], first) == DeleteIds(periods, first)
  {
    var rest := periods[..j] + periods[j + 1..];
    if j == 0 {
      assert rest == periods[1..];
    } else {
      UndatedSkipped(periods[1..], first, j - 1);
      assert rest == [periods[0]] + (periods[1..][..j - 1] + periods[1..][j..]);
      assert rest[1..] == periods[1..][..j - 1] + periods[1..][j..];
    }
  }

  // ----- the ledger after the splice -----

  /** The period as it reads after the update: the shortened one ends on the cut. */
  function Retouched(p: Period, plan: Plan): Period {
    if plan.shorten.Some? && p.id == plan.shorten.value.id then p.(end := Some(plan.shorten.value.end)) else p
  }

  /** The delete batch removes the period. */
  predicate Removed(p: Period, plan: Plan) {
    p.id.Some? && p.id.value in plan.deletes
  }

  /** The periods left once the update and the delete batch of a plan have both gone through. */
  function Spliced(periods: seq<Period>, plan: Plan): (r: seq<Period>)
    ensures |r| <= |periods|
  {
    if periods == [] then []
    else (if Removed(periods[0], plan) then [] else [Retouched(periods[0], plan)]) + Spliced(periods[1..], plan)
  }

  /** A period is left exactly when it is an input period that is not deleted, as updated. */
  lemma {:induction false} SplicedMembers(periods: seq<Period>, plan: Plan, q: Period)
    ensures q in Spliced(periods, plan) <==>
            exists j :: 0 <= j < |periods| && !Removed(periods[j], plan) && q == Retouched(periods[j], plan)
  {
    if periods != [] {
      SplicedMembers(periods[1..], plan, q);
      if exists j :: 0 <= j < |periods| && !Removed(periods[j], plan) && q == Retouched(periods[j], plan) {
        var j :| 0 <= j < |periods| && !Removed(periods[j], plan) && q == Retouched(periods[j], plan);
        if j > 0 {
          assert periods[1..][j - 1] == periods[j];
        }
      }
      if q in Spliced(periods[1..], plan) {
        var j :| 0 <= j < |periods[1..]| && !Removed(periods[1..][j], plan) && q == Retouched(periods[1..][j], plan);
        assert periods[j + 1] == periods[1..][j];
      }
    }
  }

  /** Every period has an id, and no two share one. */
  predicate Identified(periods: seq<Period>) {
    && (forall i :: 0 <= i < |periods| ==> periods[i].id.Some? && periods[i].id.value != "")
    && (forall i, j :: 0 <= i < j < |periods| ==> periods[i].id != periods[j].id)
  }

  /** At most one period is in force on day `first`, as the ledger keeps it. */
  predicate AtMostOneCovers(periods: seq<Period>, first: Day) {
    forall i, j :: 0 <= i < j < |periods| && Covers(periods[i], first) ==> !Covers(periods[j], first)
  }

  /** A kept period does not start on or after `first`. */
  lemma KeptStartsBefore(periods: seq<Period>, first: Day, j: nat)
    requires Identified(periods) && j < |periods|
    requires !Removed(periods[j], PlanSplice(periods, first))
    ensures !StartsFrom(periods[j], first)
  {
    var id := periods[j].id.value;
    DeleteIdsExact(periods, first, id);
  }

  /**
   * The splice leaves the ledger free from `first` on, keeping what came before: every dated
   * period left ends before `first` (so none overlaps pricing created from `first`, and the
   * period that was in force ends exactly on the cut), every period that started before
   * `first` is still there (the one in force shortened), and undated periods are left as they were.
   */
  lemma SplicedLedger(periods: seq<Period>, first: Day)
    requires Identified(periods) && AtMostOneCovers(periods, first)
    ensures var plan := PlanSplice(periods, first);
            var left := Spliced(periods, plan);
            && (forall q :: q in left && q.effective.Some? ==> q.end.Some? && q.end.value < first)
            && (forall j :: 0 <= j < |periods| && periods[j].effective.Some? && periods[j].effective.value < first ==>
                  Retouched(periods[j], plan) in left)
            && (forall j :: 0 <= j < |periods| && Covers(periods[j], first) && periods[j].effective.value < first ==>
                  Retouched(periods[j], plan).end == Some(first - 1))
            && (forall j :: 0 <= j < |periods| && periods[j].effective.None? ==> periods[j] in left)
  {
    var plan := PlanSplice(periods, first);
    var left := Spliced(periods, plan);
    CurrentIsFirst(periods, first);
    forall q | q in left && q.effective.Some? ensures q.end.Some? && q.end.value < first {
      SplicedMembers(periods, plan, q);
      var j :| 0 <= j < |periods| && !Removed(periods[j], plan) && q == Retouched(periods[j], plan);
      KeptStartsBefore(periods, first, j);
      if Covers(periods[j], first) {
        CoveringIsCurrent(periods, first, j);
      }
    }
    forall j | 0 <= j < |periods| && periods[j].effective.Some? && periods[j].effective.value < first
      ensures Retouched(periods[j], plan) in left
    {
      NotRemoved(periods, first, j);
      SplicedMembers(periods, plan, Retouched(periods[j], plan));
    }
    forall j | 0 <= j < |periods| && Covers(periods[j], first) && periods[j].effective.value < first
      ensures Retouched(periods[j], plan).end == Some(first - 1)
    {
      CoveringIsCurrent(periods, first, j);
    }
    forall j | 0 <= j < |periods| && periods[j].effective.None? ensures periods[j] in left {
      NotRemoved(periods, first, j);
      UndatedNotShortened(periods, first, j);
      SplicedMembers(periods, plan, periods[j]);
    }
  }

  /** The period in force on `first`, when it is the only one, is the one `Current` finds. */
  lemma CoveringIsCurrent(periods: seq<Period>, first: Day, j: nat)
    requires AtMostOneCovers(periods, first) && j < |periods| && Covers(periods[j], first)
    ensures Current(periods, first) == Some(periods[j])
  {
    CurrentIsFirst(periods, first);
    var k :| 0 <= k < |periods| && periods[k] == Current(periods, first).value &&
             forall i :: 0 <= i < k ==> !Covers(periods[i], first);
    assert k == j;
  }

  /** A period that does not start on or after `first` keeps its id out of the delete batch. */
  lemma NotRemoved(periods: seq<Period>, first: Day, j: nat)
    requires Identified(periods) && j < |periods| && !StartsFrom(periods[j], first)
    ensures !Removed(periods[j], PlanSplice(periods, first))
  {
    var id := periods[j].id.value;
    DeleteIdsExact(periods, first, id);
  }

  /** An undated period never carries the id of the period being shortened. */
  lemma UndatedNotShortened(periods: seq<Period>, first: Day, j: nat)
    requires Identified(periods) && j < |periods| && periods[j].effective.None?
    ensures Retouched(periods[j], PlanSplice(periods, first)) == periods[j]
  {
    CurrentIsFirst(periods, first);
    var current := Current(periods, first);
    if current.Some? {
      var k :| 0 <= k < |periods| && periods[k] == current.value &&
               forall i :: 0 <= i < k ==> !Covers(periods[i], first);
      assert k != j;
    }
  }

  // ----- carrying it out -----

  /** A remote step the splice issues. */
  datatype RemoteCall = UpdateEnd(id: Option<string>, end: Day) | DeleteBatch(ids: seq<string>) | CreateBatch(payloads: seq<Payload>)

  /**
   * The calls a plan leads to, given which calls succeed: the shortening update if any,
   * then the delete batch if there is anything to delete, then the create batch if there
   * is anything to create; a failed update or delete ends the splice.
   */
  function Calls(plan: Plan, payloads: seq<Payload>, succeeds: RemoteCall -> bool): seq<RemoteCall> {
    var update := if plan.shorten.Some? then [UpdateEnd(plan.shorten.value.id, plan.shorten.value.end)] else [];
    if update != [] && !succeeds(update[0]) then update
    else
      var delete := if plan.deletes != [] then [DeleteBatch(plan.deletes)] else [];
      if delete != [] && !succeeds(delete[0]) then update + delete
      else update + delete + (if payloads != [] then [CreateBatch(payloads)] else [])
  }

  /** The first effective date of the group: the first row's effective, else start, column. */
  function FirstDay(ctx: Context, rows: seq<Row>): Option<Day> {
    if rows == [] then None else ParseIso(ctx.parseDate, Either(rows[0], ctx.columns.effective, ctx.columns.start))
  }

  /**
   * The payloads a splice creates: the rows' ladders, never de-duplicated, each dated by
   * `parse_date` from its effective, else its start column, with `first` as the fallback.
   */
  function SplicePayloads(ctx: Context, rows: seq<Row>, first: Day): seq<Payload> {
    BuildPayloads(ctx.(fallbackStart := Some(first), index := None), rows).payloads
  }

  /** `apply_price_changes_to_contract_rate`: the remote calls it makes. */
  function SpliceCalls(ctx: Context, rows: seq<Row>, existing: seq<Row>, succeeds: RemoteCall -> bool): seq<RemoteCall> {
    var first := FirstDay(ctx, rows);
    if first.None? then []
    else Calls(PlanSplice(Periods(ctx.parseDate, existing), first.value), SplicePayloads(ctx, rows, first.value), succeeds)
  }

  /** Once the first day is known, the splice's calls are the plan's calls with the rebuilt payloads. */
  lemma SpliceCallsOfPlan(ctx: Context, rows: seq<Row>, existing: seq<Row>, succeeds: RemoteCall -> bool,
                          first: Day, plan: Plan, payloads: seq<Payload>)
    requires FirstDay(ctx, rows) == Some(first)
    requires plan == PlanSplice(Periods(ctx.parseDate, existing), first)
    requires payloads == SplicePayloads(ctx, rows, first)
    ensures SpliceCalls(ctx, rows, existing, succeeds) == Calls(plan, payloads, succeeds)
  {
  }

  /**
   * `apply_price_changes_to_contract_rate`, with the fetched pricing records given and each
   * remote step's success decided by `succeeds`; returns the calls made, in order.
   */
  method ApplyPriceChanges(ctx: Context, rows: seq<Row>, existing: seq<Row>, succeeds: RemoteCall -> bool)
    returns (calls: seq<RemoteCall>)
    ensures calls == SpliceCalls(ctx, rows, existing, succeeds)
  {
    calls := [];
    if rows == [] {
      return;
    }
    var first := ParseIso(ctx.parseDate, Either(rows[0], ctx.columns.effective, ctx.columns.start));
    if first.None? {
      return;
    }
    var plan := PlanFor(Periods(ctx.parseDate, existing), first.value);
    SpliceCallsOfPlan(ctx, rows, existing, succeeds, first.value, plan, SplicePayloads(ctx, rows, first.value));
    calls := CarryOut(ctx, rows, first.value, plan, succeeds);
  }

  // ----- one price-change group -----

  /**
   * `apply_price_change_for_group`: the group's rows are sorted by date, and a group without a
   * currency (`ctx.currency`) or a CPQ contract id is skipped. The remote lookups of the
   * account, the contract, the product and the contract rate are given as `rateId`, none when
   * any of them finds nothing. The splice then runs on the sorted rows.
   */
  function GroupCalls(ctx: Context, cpqContractId: string, rateId: Option<string>,
                      rows: seq<Row>, existing: seq<Row>, succeeds: RemoteCall -> bool): seq<RemoteCall> {
    if ctx.currency == "" || cpqContractId == "" || rateId.None? || rateId.value == "" then []
    else SpliceCalls(ctx.(contractRateId := rateId.value), SortGroupRows(ctx.parseDate, ctx.columns, rows), existing, succeeds)
  }

  /** `apply_price_change_for_group` with its lookups given: the calls it makes. */
  method ApplyPriceChangeForGroup(ctx: Context, cpqContractId: string, rateId: Option<string>,
                                  rows: seq<Row>, existing: seq<Row>, succeeds: RemoteCall -> bool)
    returns (calls: seq<RemoteCall>)
    ensures calls == GroupCalls(ctx, cpqContractId, rateId, rows, existing, succeeds)
  {
    var sorted := SortGroupRows(ctx.parseDate, ctx.columns, rows);
    if ctx.currency == "" || cpqContractId == "" || rateId.None? || rateId.value == "" {
      return [];
    }
    calls := ApplyPriceChanges(ctx.(contractRateId := rateId.value), sorted, existing, succeeds);
  }

  /** After sorting, the first day the splice reads is the earliest date among the group's rows. */
  lemma SortedFirstDayEarliest(ctx: Context, rows: seq<Row>, first: Day)
    requires FirstDay(ctx, SortGroupRows(ctx.parseDate, ctx.columns, rows)) == Some(first)
    ensures exists r :: r in rows && RowSortDay(ctx.parseDate, ctx.columns, r) == first
    ensures forall r :: r in rows ==> first <= RowSortDay(ctx.parseDate, ctx.columns, r)
  {
    var sorted := SortGroupRows(ctx.parseDate, ctx.columns, rows);
    SortGroupRowsShape(ctx.parseDate, ctx.columns, rows, first);
    assert RowSortDay(ctx.parseDate, ctx.columns, sorted[0]) == first;
    assert sorted[0] in multiset(rows);
    forall r | r in rows ensures first <= RowSortDay(ctx.parseDate, ctx.columns, r) {
      assert r in multiset(sorted);
      var j :| 0 <= j < |sorted| && sorted[j] == r;
      if j > 0 {
        assert RowSortDay(ctx.parseDate, ctx.columns, sorted[0]) <= RowSortDay(ctx.parseDate, ctx.columns, sorted[j]);
      }
    }
  }

  /**
   * A group makes calls only when it has a currency, a CPQ contract id and a contract rate,
   * and then the splice is cut at the earliest date among its rows.
   */
  lemma GroupSplicesFromEarliest(ctx: Context, cpqContractId: string, rateId: Option<string>,
                                 rows: seq<Row>, existing: seq<Row>, succeeds: RemoteCall -> bool)
    requires GroupCalls(ctx, cpqContractId, rateId, rows, existing, succeeds) != []
    ensures ctx.currency != "" && cpqContractId != "" && rateId.Some? && rateId.value != ""
    ensures var first := FirstDay(ctx, SortGroupRows(ctx.parseDate, ctx.columns, rows));
            && first.Some?
            && (exists r :: r in rows && RowSortDay(ctx.parseDate, ctx.columns, r) == first.value)
            && (forall r :: r in rows ==> first.value <= RowSortDay(ctx.parseDate, ctx.columns, r))
  {
    var sorted := SortGroupRows(ctx.parseDate, ctx.columns, rows);
    var first := FirstDay(ctx.(contractRateId := rateId.value), sorted);
    assert first == FirstDay(ctx, sorted);
    SortedFirstDayEarliest(ctx, rows, first.value);
  }

  // ----- the dates of the created pricing -----

  /**
   * The two date readers agree on a row: the date `parse_iso_to_date` sorts it by, when it
   * has one, is the date `parse_date` takes from its effective or else its start column,
   * and a row without a sort date has neither column dated.
   */
  predicate ReadersAgree(parse: string -> Option<Day>, columns: Columns, row: Row) {
    var eff := Get(row, columns.effective);
    var start := Get(row, columns.start);
    ParseIso(parse, Either(row, columns.effective, columns.start))
      == if Dated(parse, eff) then parse(eff.value) else if Dated(parse, start) then parse(start.value) else None
  }

  /** Every payload assembled from some rows is one of those rows' payloads. */
  lemma {:induction false} AssembledFrom(outcome: Row -> Outcome, ladder: Row -> seq<Tier>, rows: seq<Row>, p: Payload)
    requires p in Assemble(outcome, ladder, rows).payloads
    ensures exists r :: r in rows && p in outcome(r).payloads
  {
    var before := rows[..|rows| - 1];
    var last := rows[|rows| - 1];
    if p in Assemble(outcome, ladder, before).payloads {
      AssembledFrom(outcome, ladder, before, p);
      var r :| r in before && p in outcome(r).payloads;
      assert r in rows;
    } else {
      assert p in outcome(last).payloads;
    }
  }

  /**
   * When the readers agree on every row and no row sorts before `first`, every payload
   * the splice creates starts on or after `first`.
   */
  lemma SplicePayloadsFromFirst(ctx: Context, rows: seq<Row>, first: Day)
    requires forall r :: r in rows ==> ReadersAgree(ctx.parseDate, ctx.columns, r) && first <= RowSortDay(ctx.parseDate, ctx.columns, r)
    ensures forall p :: p in SplicePayloads(ctx, rows, first) ==> first <= p.effective
  {
    var c := ctx.(fallbackStart := Some(first), index := None);
    forall p | p in SplicePayloads(ctx, rows, first) ensures first <= p.effective {
      AssembledFrom(row => RowOutcome(c, row), row => Canonical(c, row), rows, p);
      var r :| r in rows && p in RowOutcome(c, r).payloads;
      PayloadFields(c, r);
      EffectiveDayChoice(c, r);
    }
  }

  /** A created batch carries the splice's payloads; a shortening update ends the day before the cut. */
  lemma CallsCarry(plan: Plan, payloads: seq<Payload>, succeeds: RemoteCall -> bool, c: RemoteCall)
    requires c in Calls(plan, payloads, succeeds)
    ensures c.CreateBatch? ==> c.payloads == payloads
    ensures c.UpdateEnd? ==> plan.shorten.Some? && c.end == plan.shorten.value.end
  {
  }

  /**
   * When the readers agree on every row of a group, the splice leaves no overlap: the
   * shortened period ends the day before the cut and every created pricing starts on or
   * after it.
   */
  lemma GroupCreatesFromCut(ctx: Context, cpqContractId: string, rateId: Option<string>,
                            rows: seq<Row>, existing: seq<Row>, succeeds: RemoteCall -> bool)
    requires forall r :: r in rows ==> ReadersAgree(ctx.parseDate, ctx.columns, r)
    ensures var first := FirstDay(ctx, SortGroupRows(ctx.parseDate, ctx.columns, rows));
            forall c :: c in GroupCalls(ctx, cpqContractId, rateId, rows, existing, succeeds) ==>
              && first.Some?
              && (c.UpdateEnd? ==> c.end == first.value - 1)
              && (c.CreateBatch? ==> forall p :: p in c.payloads ==> first.value <= p.effective)
  {
    var calls := GroupCalls(ctx, cpqContractId, rateId, rows, existing, succeeds);
    if calls != [] {
      GroupSplicesFromEarliest(ctx, cpqContractId, rateId, rows, existing, succeeds);
      var sorted := SortGroupRows(ctx.parseDate, ctx.columns, rows);
      var first := FirstDay(ctx, sorted).value;
      var c := ctx.(contractRateId := rateId.value);
      assert FirstDay(c, sorted) == Some(first);
      SortGroupRowsShape(ctx.parseDate, ctx.columns, rows, first);
      forall r | r in sorted
        ensures ReadersAgree(ctx.parseDate, ctx.columns, r) && first <= RowSortDay(ctx.parseDate, ctx.columns, r)
      {
        assert r in multiset(rows);
      }
      SplicePayloadsFromFirst(c, sorted, first);
      var plan := PlanSplice(Periods(ctx.parseDate, existing), first);
      var payloads := SplicePayloads(c, sorted, first);
      PlanShape(Periods(ctx.parseDate, existing), first);
      assert calls == Calls(plan, payloads, succeeds);
      forall call | call in calls
        ensures call.UpdateEnd? ==> call.end == first - 1
        ensures call.CreateBatch? ==> forall p :: p in call.payloads ==> first <= p.effective
      {
        CallsCarry(plan, payloads, succeeds, call);
      }
    }
  }

  /**
   * A row whose effective cell carries a time (`2025-03-01T00:00:00`) sorts and cuts at its
   * date, but `parse_date` rejects the whole text and dates the row's pricing by its start
   * column (`2024-01-01`) instead. The existing period in force since that start day is
   * shortened to end the day before the cut, and the created pricing starts inside it.
   */
  lemma TimestampedEffectiveOverlaps(ctx: Context, row: Row, date: string, time: string, start: string, cut: Day, early: Day)
    requires date != [] && 'T' !in date && !IsSpace(date[0]) && !IsSpace(date[|date| - 1])
    requires ctx.parseDate(date) == Some(cut) && ctx.parseDate(date + "T" + time).None?
    requires start != [] && ctx.parseDate(start) == Some(early) && early < cut
    requires Get(row, ctx.columns.effective) == Some(date + "T" + time) && Get(row, ctx.columns.start) == Some(start)
    requires Get(row, ctx.columns.tiers) == None && forall key :: key in row ==> key == [] || key[0] != 't'
    ensures FirstDay(ctx, [row]) == Some(cut)
    ensures PlanSplice([Period(Some("p"), Some(early), None)], cut).shorten == Some(Shorten(Some("p"), cut - 1))
    ensures |SplicePayloads(ctx, [row], cut)| == 1 && SplicePayloads(ctx, [row], cut)[0].effective == early
  {
    var c := ctx.(fallbackStart := Some(cut), index := None);
    TimestampedDays(ctx, row, date, time, start, cut, early);
    FallbackLadder(c, row);
    NoIndexNoSkips(c, row);
    BuildSingle(c, row);
  }

  /** The timestamped row cuts at its date and is dated by its start column. */
  lemma TimestampedDays(ctx: Context, row: Row, date: string, time: string, start: string, cut: Day, early: Day)
    requires date != [] && 'T' !in date && !IsSpace(date[0]) && !IsSpace(date[|date| - 1])
    requires ctx.parseDate(date) == Some(cut) && ctx.parseDate(date + "T" + time).None?
    requires start != [] && ctx.parseDate(start) == Some(early)
    requires Get(row, ctx.columns.effective) == Some(date + "T" + time) && Get(row, ctx.columns.start) == Some(start)
    ensures FirstDay(ctx, [row]) == Some(cut)
    ensures EffectiveDay(ctx.(fallbackStart := Some(cut), index := None), row) == early
  {
    ParseIsoIgnoresTime(ctx.parseDate, date, time);
    PlainIsoDate(ctx.parseDate, date);
    EffectiveDayChoice(ctx.(fallbackStart := Some(cut), index := None), row);
  }

  /** A single row's build is that row's payloads. */
  lemma BuildSingle(ctx: Context, row: Row)
    ensures BuildPayloads(ctx, [row]).payloads == RowOutcome(ctx, row).payloads
  {
    BuildStep(ctx, [row], 0);
    assert [row][..1] == [row];
    assert BuildPayloads(ctx, [row][..0]).payloads == [] by {
      assert [row][..0] == [];
    }
  }

  /** A date without a time part or surrounding space is read by `parse_iso_to_date` as it stands. */
  lemma PlainIsoDate(parse: string -> Option<Day>, date: string)
    requires date != [] && 'T' !in date && !IsSpace(date[0]) && !IsSpace(date[|date| - 1])
    ensures ParseIso(parse, Some(date)) == parse(date)
  {
    SplitNoSep(date, 'T');
    StripNoSpace(date);
  }

  /** A row with neither structured slots nor a legacy column creates one unlimited tier from 0. */
  lemma FallbackLadder(ctx: Context, row: Row)
    requires forall key :: key in row ==> key == [] || key[0] != 't'
    requires Get(row, ctx.columns.tiers) == None
    ensures ValidPrefix(CreationOrder(ctx, row)) == [Tier(0.0, None, ctx.flatRate(row))]
  {
    NoStructuredSlots(row);
    var t := Tier(0.0, None, ctx.flatRate(row));
    assert Canonical(ctx, row) == [t];
    SortBySortedInput(TierKey, [t]);
  }

  /**
   * The rebuild as the splice evidently means it: each row's pricing starts on the date the
   * group was sorted by, and on `first` when the row has none.
   */
  function AlignedDay(ctx: Context, row: Row, first: Day): Day {
    ParseIso(ctx.parseDate, Either(row, ctx.columns.effective, ctx.columns.start)).GetOr(first)
  }

  function AlignedSplicePayloads(ctx: Context, rows: seq<Row>, first: Day): seq<Payload> {
    var c := ctx.(fallbackStart := Some(first), index := None);
    Assemble(row => Emit(c, AlignedDay(ctx, row, first), EndDay(c, row), CreationOrder(c, row)),
             row => Canonical(c, row), rows).payloads
  }

  /** With the sort dates as payload dates, no created pricing starts before the cut. */
  lemma AlignedFromFirst(ctx: Context, rows: seq<Row>, first: Day)
    requires forall r :: r in rows ==> first <= RowSortDay(ctx.parseDate, ctx.columns, r)
    ensures forall p :: p in AlignedSplicePayloads(ctx, rows, first) ==> first <= p.effective
  {
    var c := ctx.(fallbackStart := Some(first), index := None);
    var outcome := row => Emit(c, AlignedDay(ctx, row, first), EndDay(c, row), CreationOrder(c, row));
    forall p | p in AlignedSplicePayloads(ctx, rows, first) ensures first <= p.effective {
      AssembledFrom(outcome, row => Canonical(c, row), rows, p);
      var r :| r in rows && p in outcome(r).payloads;
      EmitDated(c, AlignedDay(ctx, r, first), EndDay(c, r), CreationOrder(c, r));
    }
  }

  /** Every payload a row emits carries the row's date. */
  lemma EmitDated(ctx: Context, effective: Day, end: Option<Day>, ordered: seq<Tier>)
    ensures forall p :: p in Emit(ctx, effective, end, ordered).payloads ==> p.effective == effective
  {
    var payloads := Emit(ctx, effective, end, ordered).payloads;
    forall p | p in payloads ensures p.effective == effective {
      var i :| 0 <= i < |payloads| && payloads[i] == p;
    }
  }

  /** Where the readers agree on every row, the corrected rebuild is the loader's. */
  lemma AlignedAgrees(ctx: Context, rows: seq<Row>, first: Day)
    requires forall r :: r in rows ==> ReadersAgree(ctx.parseDate, ctx.columns, r)
    ensures AlignedSplicePayloads(ctx, rows, first) == SplicePayloads(ctx, rows, first)
  {
    var c := ctx.(fallbackStart := Some(first), index := None);
    var aligned := row => Emit(c, AlignedDay(ctx, row, first), EndDay(c, row), CreationOrder(c, row));
    var loader := row => RowOutcome(c, row);
    forall r | r in rows ensures aligned(r) == loader(r) {
      EffectiveDayChoice(c, r);
      assert AlignedDay(ctx, r, first) == EffectiveDay(c, r);
    }
    AssembleSame(aligned, loader, row => Canonical(c, row), rows);
  }

  /** Assembling with two outcome functions that agree on the rows gives the same result. */
  lemma {:induction false} AssembleSame(f: Row -> Outcome, g: Row -> Outcome, ladder: Row -> seq<Tier>, rows: seq<Row>)
    requires forall r :: r in rows ==> f(r) == g(r)
    ensures Assemble(f, ladder, rows) == Assemble(g, ladder, rows)
  {
    if rows != [] {
      AssembleSame(f, g, ladder, rows[..|rows| - 1]);
      assert rows[|rows| - 1] in rows;
    }
  }

  /** Issues a plan's calls in order, rebuilding the payloads only once the update and the deletes went through. */
  method CarryOut(ctx: Context, rows: seq<Row>, first: Day, plan: Plan, succeeds: RemoteCall -> bool)
    returns (calls: seq<RemoteCall>)
    ensures calls == Calls(plan, SplicePayloads(ctx, rows, first), succeeds)
  {
    calls := [];
    ghost var updates := if plan.shorten.Some? then [UpdateEnd(plan.shorten.value.id, plan.shorten.value.end)] else [];
    ghost var deletes := if plan.deletes != [] then [DeleteBatch(plan.deletes)] else [];
    if plan.shorten.Some? {
      var update := UpdateEnd(plan.shorten.value.id, plan.shorten.value.end);
      calls := calls + [update];
      if !succeeds(update) {
        return;
      }
    }
    assert calls == updates;
    if plan.deletes != [] {
      var delete := DeleteBatch(plan.deletes);
      calls := calls + [delete];
      if !succeeds(delete) {
        return;
      }
    }
    assert calls == updates + deletes;
    var payloads := RebuildPayloads(ctx, rows, first);
    if payloads != [] {
      calls := calls + [CreateBatch(payloads)];
    }
  }

  /** The ladders of the group's rows, with `first` as the fallback start date and no existing-pricing index. */
  method RebuildPayloads(ctx: Context, rows: seq<Row>, first: Day) returns (payloads: seq<Payload>)
    ensures payloads == SplicePayloads(ctx, rows, first)
  {
    var built, _, _ := BuildPricingPayloads(ctx.(fallbackStart := Some(first), index := None), rows);
    payloads := built;
  }

  function Stage(c: RemoteCall): nat {
    match c
    case UpdateEnd(_, _) => 0
    case DeleteBatch(_) => 1
    case CreateBatch(_) => 2
  }

  /**
   * The calls come in the order update, delete, create, each at most once; every call but
   * the last succeeded (a failed update or delete stops the splice); and a create batch,
   * when made, carries exactly the rebuilt payloads.
   */
  lemma CallsOrdered(plan: Plan, payloads: seq<Payload>, succeeds: RemoteCall -> bool)
    ensures var calls := Calls(plan, payloads, succeeds);
            && (forall i, j :: 0 <= i < j < |calls| ==> Stage(calls[i]) < Stage(calls[j]))
            && (forall i :: 0 <= i < |calls| - 1 ==> succeeds(calls[i]))
            && (forall i :: 0 <= i < |calls| && calls[i].CreateBatch? ==> calls[i].payloads == payloads && payloads != [])
  {
  }

  /**
   * Each step happens exactly when it should: the update when the plan shortens a period;
   * the delete when there are ids to delete and no update failed; the create when there are
   * payloads and neither an update nor a delete failed.
   */
  lemma CallsComplete(plan: Plan, payloads: seq<Payload>, succeeds: RemoteCall -> bool)
    ensures var calls := Calls(plan, payloads, succeeds);
            var updated := plan.shorten.None? || succeeds(UpdateEnd(plan.shorten.value.id, plan.shorten.value.end));
            && (plan.shorten.Some? ==> UpdateEnd(plan.shorten.value.id, plan.shorten.value.end) in calls)
            && (plan.shorten.None? ==> forall c :: c in calls ==> !c.UpdateEnd?)
            && (DeleteBatch(plan.deletes) in calls <==> plan.deletes != [] && updated)
            && (CreateBatch(payloads) in calls <==>
                  payloads != [] && updated && (plan.deletes == [] || succeeds(DeleteBatch(plan.deletes))))
  {
  }

  /** No rows or an unreadable first date: nothing is called. */
  lemma NothingWithoutFirstDay(ctx: Context, rows: seq<Row>, existing: seq<Row>, succeeds: RemoteCall -> bool)
    requires FirstDay(ctx, rows).None?
    ensures SpliceCalls(ctx, rows, existing, succeeds) == []
  {
  }

  /** Without an existing-pricing index nothing is skipped: the splice never de-duplicates. */
  lemma {:induction false} NoSkipsWithoutIndex(ctx: Context, rows: seq<Row>)
    requires ctx.index.None?
    ensures BuildPayloads(ctx, rows).skipped == []
  {
    if rows != [] {
      NoSkipsWithoutIndex(ctx, rows[..|rows| - 1]);
      NoIndexNoSkips(ctx, rows[|rows| - 1]);
    }
  }
}
