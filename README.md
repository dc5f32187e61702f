# Tier ladders and pricing periods of the contract loader

This project models the part of the contract loader (`contract_loader.py`) that turns CSV
rows into tiered pricing and splices a price change into existing pricing periods. It
covers the following pieces.

- **Decimal rendering** (`Decimals`).
  - `format_decimal` renders a band or rate. Integral values get no fraction; other values
    are quantised to 10 places, half to even, with trailing zeros stripped.
  - `parse_pricing_band` reads a stored band back. A blank or unparsable text, and the
    sentinel `-1`, all mean "unlimited".
- **Tier parsers** (`Tiers`).
  - The legacy `upper:rate;upper:rate` column is read by `parse_legacy_pricing_tiers`.
  - The twelve structured `tierN_from_qty`/`tierN_to_qty`/`tierN_rate` slots are read by
    `parse_structured_pricing_tiers`.
  - `build_canonical_tiers_from_row` prefers the structured ladder. Otherwise it chains the
    legacy tiers from lower band 0, each next lower band being the previous upper band plus
    `TIER_INCREMENT` (10^-10), quantised. When neither gives a tier, it falls back to a
    single unlimited tier at the row's flat rate.
- **Payload builder** (`Payloads`). `build_pricing_payloads_from_rows` works row by row:
  - dates the row (effective, else start, else fallback or today; optional end);
  - orders its ladder for creation, bounded tiers first by lower band, with a stable sort;
  - stops the row at the first inverted tier;
  - skips tiers already present in the existing-pricing index;
  - emits one create payload per remaining tier.

  The index itself is built from the fetched pricing records.
- **Price-change splice** (`Splice`). `apply_price_changes_to_contract_rate` works in
  stages, and a failed update or delete stops the splice:
  - finds the period in force on the group's first effective date and, if it started
    earlier, shortens it to end the day before;
  - deletes every period starting on or after that date;
  - recreates the rows' ladders without de-duplication.

  `apply_price_change_for_group` runs this splice on the group's rows sorted by date, so the
  first day is the group's earliest date. It skips a group without a currency, a CPQ contract
  id or a contract rate.

  The recreated pricing is dated by `parse_date`, while the sort and the cut use
  `parse_iso_to_date`. The two can disagree on a row; see "## Findings".

  The plan is a pure function over the fetched periods. The driver is a method whose
  remote calls succeed or fail according to a parameter.
- **Smaller rules.**
  - `Amendments`: the amendment action partition and its quantity-then-price dispatch; the
    insertion-ordered grouping of rows into price-change groups, contract groups and
    product groups; the effective-date sort of a price-change group (in `Splice`).
  - `ContractNumbers`: the `<date>_<nn>` contract-number rule.
  - `Fields`: `parse_bool`, `parse_quantity`, `sanitize_value` and the `ACTIVE` status test
    of a quantity change.
  - `LadderExamples`: the worked legacy ladder `100:5;-1:3` and a worked structured ladder.

Representation choices:
- Decimals are `real`. Comparisons, `+ 10^-10` and quantisation are exact.
- Dates are day ordinals. Calendar parsing (`strptime`) and today's date are parameters.
- CSV rows and remote records are `map<string, string>`.
- Python's stable `sort` is a functional insertion sort. It is proved sorted, a
  permutation and stable.

The loader's loops are methods. Each one is proved equal to a specification
function, and the properties are proved about those functions:
- `ParseLegacyTiers`, `ParseStructuredTiers`, `BuildCanonicalTiers`;
- `EmitTiers`, `BuildPricingPayloads`, `BuildExistingIndex`;
- `FindCurrent`, `CollectDeletes`, `PlanFor`, `ApplyPriceChanges`, `CarryOut`;
- `SplitByAction`, `ProcessAmendments`, `GroupRows`;
- `NextContractNumber`.

Some consequences of the code that the model keeps:
- A fully blank structured slot is skipped (`continue`). It does not end the ladder.
- An explicit `from` quantity that does not continue the previous tier is kept, with only a
  warning. The ladder is not truncated there.
- In `build_canonical_tiers_from_row`, the branch that re-derives a missing structured lower
  band is never taken, because the structured parser always sets one.
- The `row-N` fallback contract key is never used. The `account:product` key always holds
  the `:`, so it is never empty (`Amendments.ContractKeyNonEmpty`).
- The `text or "0"` fallback in `format_decimal` is never taken.

## Model

| member | source | states |
|---|---|---|
| Decimals.RoundHalfEven | contract_loader.py:319 | the result is within one half of its input, and a tie goes to the even neighbour |
| Decimals.QuantizeOnto | contract_loader.py:319 | quantising lands on the 10^-10 grid |
| Decimals.QuantizeClose | contract_loader.py:319 | quantising moves a value by at most half a grid step |
| Decimals.QuantizeOnGrid | contract_loader.py:319 | a value already on the grid is unchanged by quantising |
| Decimals.FormatDecimalParse | contract_loader.py:316-321 | reading the rendered text back gives the value quantised to 10 places |
| Decimals.FormatDecimalRoundTrip | contract_loader.py:316-321 | a value with at most 10 fractional digits reads back from its rendering exactly |
| Decimals.FormatDecimalShape | contract_loader.py:316-321 | an integral value renders without a `.`; a `.` is always followed by 1 to 10 digits, the last not `0`; the text ends in a digit, and starts with one for a non-negative value |
| Decimals.FormatDecimalBand | contract_loader.py:446-459 | any rendered value reads back as its quantisation to 10 places, or as unlimited when that quantisation is -1 |
| Decimals.SentinelRendering | contract_loader.py:316-321 | every value that quantises to -1, bounded or not, renders as the sentinel text `-1` |
| Decimals.BlankBandUnlimited | contract_loader.py:446-452 | a missing band, and a blank or all-whitespace one, reads as unlimited |
| Decimals.SentinelSpellings | contract_loader.py:453-458 | the sentinel test is numeric: `-1.0`, `-1.00` and ` -1 ` all read as unlimited |
| Decimals.PricingBandRoundTrip | contract_loader.py:446-459 | a non-negative grid value rendered by `format_decimal` reads back as itself |
| Decimals.PricingBandSentinel | contract_loader.py:457-458 | the text `-1` reads as unlimited |
| Fields.ParseBool | contract_loader.py:309-311 | a missing cell is false |
| Fields.ParseBoolAccepts | contract_loader.py:309-313 | each true word, in any letter case and with whitespace around it, reads as true |
| Fields.ParseQuantity | contract_loader.py:288-296 | the quantity is at least 1, and is 1 for a blank, missing or non-integer cell |
| Fields.ParseQuantityReadsBack | contract_loader.py:288-293 | a positive integer, with whitespace around it, reads back as itself |
| Fields.ParseQuantityNonPositive | contract_loader.py:293 | zero and negative integers read as 1 |
| Fields.Sanitize | contract_loader.py:185-186 | the result is never shorter, and a value without quotes is unchanged |
| Fields.SanitizeRoundTrip | contract_loader.py:185-186 | unescaping doubled quotes gives the value back, and every quote in the result is doubled |
| Fields.IsActiveAnyCase | contract_loader.py:2093-2094 | with ASCII case mapping, a status is active exactly when it lower-cases to `active` |
| Fields.MissingNotActive | contract_loader.py:2093-2094 | a missing status reads as `None` and is not active |
| Fields.NotActive | contract_loader.py:2093-2094 | a status with whitespace around it is not active, because nothing is stripped |
| Text.Pad2RoundTrip | contract_loader.py:619 | a number rendered with `:02d` reads back as itself |
| Sorting.SortBySorted | contract_loader.py:543 | the sort's output is ordered by key and is a permutation of its input |
| Sorting.SortByStable | contract_loader.py:543 | items with equal keys keep their input order |
| Sorting.SortBySortedInput | contract_loader.py:543 | an already ordered input is unchanged |
| Tiers.NextLowerAbove | contract_loader.py:394 | the next lower band lies above the previous upper band, is on the grid, and is exactly upper + 10^-10 for an upper band on the grid |
| Tiers.LegacyEntryMeaning | contract_loader.py:329-348 | in a kept entry, the upper band is unlimited exactly when the stripped text before the first `:` is `-1`, and is otherwise that text's value; the rate is the value of the text after the `:` |
| Tiers.LegacyTiersOfJoin | contract_loader.py:324-349 | the column read as a whole gives the kept entries of its `;`-separated parts, in input order |
| Tiers.LegacyDropSkipped | contract_loader.py:330-347 | a skipped entry leaves the tiers read from the entries around it unchanged |
| Tiers.ParseLegacyTiers | contract_loader.py:324-349 | the loop returns the present entries of the split column, in order |
| Tiers.ReadSlot | contract_loader.py:362-430 | a slot is blank exactly when its three cells are blank; a taken tier is not inverted; with a blank `from`, its lower band is 0 or the previous upper + 10^-10 quantised; otherwise it is the `from` value as written |
| Tiers.TakenSlotCells | contract_loader.py:362-418 | a taken slot's rate is the value of its `rate` cell; its upper band is unlimited exactly when the `to` cell is blank or numerically -1, and otherwise is the `to` cell's value |
| Tiers.SlotTakenUnlessMalformed | contract_loader.py:362-430 | a slot with any cell written halts exactly when its rate is missing or unparsable, a written `from` or `to` is unparsable, or its bounded upper band is below its lower band; every other written slot is taken, with the lower band, upper band (unlimited for a blank or -1 `to`) and rate its cells give |
| Tiers.StructuredShape | contract_loader.py:356-434 | at most `max_tiers` tiers; every bounded tier has upper >= lower; an unlimited tier can only be last |
| Tiers.StopKeepsEarlier | contract_loader.py:370-428 | the first slot that stops the scan leaves exactly the tiers read before it |
| Tiers.AllBlankNoTiers | contract_loader.py:366-367 | a run of blank slots yields no tiers |
| Tiers.BlankSkipped | contract_loader.py:366-367 | a blank slot changes nothing and the scan goes on past it |
| Tiers.StructuredChained | contract_loader.py:390-404 | when no slot gives an explicit `from`, the ladder starts at 0 and each next tier at the previous upper + 10^-10, quantised |
| Tiers.ParseStructuredTiers | contract_loader.py:352-443 | the loop returns the structured ladder the scan defines |
| Tiers.ChainLegacyShape | contract_loader.py:486-500 | the chained tiers keep the legacy upper bands and rates in order; each lower band is the previous upper + 10^-10 quantised; an unlimited tier can only be last; when entries are dropped, the last kept tier is unlimited |
| Tiers.ChainLegacyStops | contract_loader.py:498-499 | tiers are dropped exactly when an unlimited entry comes before the last one |
| Tiers.CanonicalTiers | contract_loader.py:462-512 | the canonical ladder is never empty |
| Tiers.CanonicalShape | contract_loader.py:468-512 | a non-empty structured ladder is taken as is; otherwise, with kept legacy entries, the ladder has their upper bands and rates in order up to and including the first unlimited one; with neither, it is the single tier from 0, unlimited, at the flat rate; without structured tiers it is contiguous from 0; an unlimited tier can only be last |
| Tiers.BuildCanonicalTiers | contract_loader.py:462-512 | the loop returns the canonical ladder |
| Payloads.EffectiveDayChoice | contract_loader.py:530-533 | the effective date is the effective cell if it parses, else the start cell, else the fallback start, else today |
| Payloads.CreationOrderShape | contract_loader.py:542-543 | the creation order is a permutation of the ladder, with every bounded tier before any unlimited one and the bounded tiers by ascending lower band |
| Payloads.ContiguousKeepsOrder | contract_loader.py:542-543 | a chained, ordered ladder keeps its order |
| Payloads.ValidPrefix | contract_loader.py:554-562 | creation stops right before the first tier with upper < lower, and keeps all tiers before it |
| Payloads.EmitTiers | contract_loader.py:545-590 | the inner loop emits the payloads of the fresh tiers of the valid prefix, and the records of the known ones |
| Payloads.BuildPricingPayloads | contract_loader.py:515-592 | the outer loop returns the payloads, the last non-empty ladder and the skipped records of all rows |
| Payloads.FreshStep | contract_loader.py:565-577 | each tier adds either one payload or one skipped record, according to whether the index knows its key |
| Payloads.RowCounts | contract_loader.py:545-590 | the payloads and skipped records of a row never outnumber its canonical tiers |
| Payloads.NoIndexNoSkips | contract_loader.py:565 | without an index, nothing is skipped and every tier of the valid prefix gets a payload |
| Payloads.CreatedTiersInOrder | contract_loader.py:542-577 | the created tiers come bounded first by ascending lower band, are not inverted, are not known to the index, and come from the ladder |
| Payloads.PayloadFields | contract_loader.py:579-590 | every payload carries the currency, the contract rate, the row's effective date, its optional end date, and rerate flag "0" |
| Payloads.UpperBandReadsBack | contract_loader.py:551-563 | `UpperBand` is "-1" exactly for an unlimited tier or a bounded one whose upper band quantises to -1; it reads back as unlimited then, and otherwise as the quantised upper band, which is the upper band itself when it is on the grid |
| Payloads.BoundedUpperAsSentinel | contract_loader.py:551-563 | the bounded tier `-2..-1.00000000001` is not inverted, yet it is written with the sentinel `-1` and reads back as unlimited |
| Payloads.BuildConcat | contract_loader.py:529-590 | payloads and skipped records follow row order: building `a + b` is building `a`, then `b` |
| Payloads.LastCanonicalOfLastRow | contract_loader.py:538-540 | the returned ladder is the last row's, which is never empty |
| Payloads.BuildExistingIndex | contract_loader.py:1734-1740 | the loop builds the index of the fetched records |
| Payloads.IndexHolds | contract_loader.py:1734-1740 | every fetched record's key is in the index, and each key maps to a record with that key |
| Payloads.StoredKeyExact | contract_loader.py:1734-1740 | a tier's stored record is indexed under the tier's own key exactly when both bands are on the 10^-10 grid and neither is -1 |
| Payloads.CreatedTierKnown | contract_loader.py:565-568 | for a tier whose bands are on the grid and not -1: once the record created for it is fetched back, the tier is known to the index |
| Payloads.OffGridUpperNotKnown | contract_loader.py:1734-1740 | the record created for the tier `0..100.00000000001` is stored with upper band `100`, so the index does not know the tier |
| Payloads.RerunCreatesNothing | contract_loader.py:565-577 | when every tier of the row has its bands on the grid and not -1: re-running the row against the records it created makes no payload and skips one record per payload of the first run |
| Splice.ParseIsoIgnoresTime | contract_loader.py:275-285 | a timestamp reads as its date part |
| Splice.SortGroupRowsShape | contract_loader.py:1874-1878 | the group's rows are a permutation, ordered by sort day (effective, else start date), with undated rows at `MaxDay` (`date.max`); rows of the same day keep their order |
| Splice.ApplyPriceChangeForGroup | contract_loader.py:1865-1919 | the group step makes exactly the calls of the splice run on the date-sorted rows, and none when the currency, the CPQ contract id or the contract rate is missing |
| Splice.SortedFirstDayEarliest | contract_loader.py:1874-1878 | after the sort, the first day the splice reads is the earliest sort date among the group's rows |
| Splice.GroupSplicesFromEarliest | contract_loader.py:1874-1919 | a group that makes any call has a currency, a CPQ contract id and a contract rate, and its splice is cut at the earliest date among its rows |
| Splice.CurrentIsFirst | contract_loader.py:1951-1957 | the current period is the first fetched period in force on the first day, and there is none only when no period is in force |
| Splice.FindCurrent | contract_loader.py:1951-1957 | the first planning loop finds that period |
| Splice.CollectDeletes | contract_loader.py:1977-1983 | the second planning loop collects the ids to delete, in fetched order |
| Splice.PlanFor | contract_loader.py:1947-1983 | the planning step returns the splice plan |
| Splice.DeleteIdsExact | contract_loader.py:1977-1983 | an id is deleted exactly when it is the non-empty id of a period starting on or after the first day |
| Splice.PlanShape | contract_loader.py:1947-1965 | the cut is the day before the first day; a period is shortened exactly when the current one started earlier, and then it ends on the cut and does not start on or after the first day, so it is not marked for deletion |
| Splice.UndatedUntouched | contract_loader.py:1953-1955 | removing a period without a readable effective date does not change the plan |
| Splice.SplicedLedger | contract_loader.py:1947-2000 | with unique ids and at most one period in force: after a successful splice, every dated period left ends before the first day; every period that started earlier is kept; the covering one ends on the cut; undated periods are kept unchanged |
| Splice.NotRemoved | contract_loader.py:1977-1983 | with unique ids, a period that starts before the first day, or has no readable effective date, is not deleted |
| Splice.UndatedNotShortened | contract_loader.py:1959-1961 | with unique ids, a period without a readable effective date is never shortened |
| Splice.ApplyPriceChanges | contract_loader.py:1923-2030 | the driver makes exactly the calls that the plan, the rebuilt payloads and the calls' outcomes determine |
| Splice.CarryOut | contract_loader.py:1959-2028 | the calls are issued stage by stage, stopping at a failed update or delete |
| Splice.RebuildPayloads | contract_loader.py:2002-2010 | the recreated payloads are `build_pricing_payloads_from_rows` of the rows with the first day as fallback start date and no index |
| Splice.SplicePayloadsFromFirst | contract_loader.py:256-285 | when both date readers agree on every row and no row sorts before the first day, every recreated payload starts on or after it |
| Splice.TimestampedEffectiveOverlaps | contract_loader.py:256-285 | a row whose effective cell carries a time cuts at that date, but its created pricing is dated by its earlier start cell, inside the period shortened to end the day before the cut |
| Splice.AlignedFromFirst | contract_loader.py:1874-1878 | with each row dated by its sort date, else the first day, no created payload starts before the cut when no row sorts before it |
| Splice.AlignedAgrees | contract_loader.py:256-285 | where both date readers agree on every row, the sort-dated rebuild equals the loader's |
| Splice.GroupCreatesFromCut | contract_loader.py:1874-2010 | when both date readers agree on every row of a group, every call has a first day, a shortening update ends the day before it, and every created payload starts on or after it, so nothing created overlaps a kept period |
| Splice.CallsOrdered | contract_loader.py:1966-2028 | calls go update, delete, create, each at most once; every call but the last succeeded; a create carries exactly the rebuilt payloads |
| Splice.CallsComplete | contract_loader.py:1959-2014 | the update is issued exactly when a period is shortened; the delete exactly when there are ids and the update did not fail; the create exactly when there are payloads and neither earlier call failed |
| Splice.NothingWithoutFirstDay | contract_loader.py:1933-1945 | a group without a readable first date makes no call |
| Splice.NoSkipsWithoutIndex | contract_loader.py:2002-2010 | the rebuild never skips a tier |
| Amendments.SplitByAction | contract_loader.py:1813-1831 | the loop returns the quantity rows and the price rows, each in input order |
| Amendments.Partition | contract_loader.py:1816-1831 | a row is a quantity row exactly when its action asks for a quantity change, and a price row exactly when it asks for a price change |
| Amendments.AmendmentFileKeepsAll | contract_loader.py:1164-1168 | in an amendment file, no row is dropped |
| Amendments.ProcessAmendments | contract_loader.py:1813-1838 | the rows are partitioned, then dispatched |
| Amendments.DispatchOrder | contract_loader.py:1833-1838 | quantity rows are dispatched first and price rows last, and an empty batch is never dispatched |
| Amendments.GroupRows | contract_loader.py:1849-1859 | the grouping loop builds the insertion-ordered grouping |
| Amendments.GroupIsFilter | contract_loader.py:1849-1859 | each key is listed once; a key has a group exactly when some row carries it; its group is every such row in input order, and is never empty |
| Amendments.GroupKeysInOrder | contract_loader.py:1861 | keys are listed in order of first appearance |
| Amendments.ContractKeyNonEmpty | contract_loader.py:1175-1182 | every row gets a non-empty contract key |
| Amendments.ProductGroupsNamed | contract_loader.py:1523-1531 | rows without a product are not grouped, and every row of a product group names that product |
| ContractNumbers.MaxOr0 | contract_loader.py:618 | `max(..., default=0)`: 0 for no values, otherwise a member that bounds them all |
| ContractNumbers.NextContractNumber | contract_loader.py:608-619 | the loop returns the prefix, `_`, and one more than the largest suffix, padded to two digits |
| ContractNumbers.NextNumberFresh | contract_loader.py:608-619 | the new number differs from the number of every fetched record |
| ContractNumbers.NextNumberReadsBack | contract_loader.py:613-619 | the new number's suffix reads back as one more than the largest |
| ContractNumbers.NextNumberCountsUp | contract_loader.py:608-619 | once the new number exists, the next one is one higher |
| ContractNumbers.FirstOfTheDay | contract_loader.py:618-619 | the first number of a day ends in `_01` |
| LadderExamples.StructuredLadderExample | contract_loader.py:346-444 | a row with `tier1_to_qty=100, tier1_rate=5, tier2_to_qty=-1, tier2_rate=3` and no `from` cells gets the ladder [0..100 at 5, 100.0000000001..unlimited at 3], whatever its legacy column |
| LadderExamples.LegacyLadderExample | contract_loader.py:486-500 | a row with only `100:5;-1:3` gets the ladder [0..100 at 5, 100.0000000001..unlimited at 3] |

## Left out

- HTTP helpers, `login` and the SQL lookup: network I/O. Remote outcomes are a parameter
  of the splice driver, and the fetched records are inputs. `perform_lookup`
  (contract_loader.py:203-213) turns only a 404 into an empty result; any other failure of
  `lookup_contract_id_by_name`, `lookup_contract_rate_id` or `fetch_pricing_for_contract_rate`
  raises and ends the whole run, which the model does not represent.
- The `create_*`, `find_*`, `lookup_*`, `update_*`, `delete_*` and `get_*` wrappers:
  thin remote calls. The splice records each call it would make instead.
- The provisioning flow of `main`: argument parsing, account, billing-profile and
  contract creation, polling with `time.sleep`, `uuid`, and the summary printout. The
  product-id cache and `get_product_id` are left out as well.
- `parse_rate` returns a float, and the fallback tier rate goes float, then str, then
  Decimal. The fallback rate is a given per-row value (`flatRate`).
- Decimals: the `Decimal` grammar accepted is an optional sign and digits with at most
  one point. Exponents, `NaN`, `Infinity`, underscores and the 28-digit context
  precision are not modelled. Arithmetic is exact.
- Integers: `int()` is modelled as an optional sign and ASCII digits after stripping.
  Underscores and non-ASCII digits are not accepted.
- `strptime` and `date.today()` are parameters. ISO date rendering (`isoformat`) is not
  modelled: a payload carries its dates as day ordinals.
- File reading (`load_env`, `load_rows`) and all logging. The warning that a ladder's
  last tier is bounded is logging only.
- `handle_quantity_change`: only its `ACTIVE` status test is modelled, the rest is remote
  lookups.
- Batch atomicity of the remote create and delete: each batch call succeeds or fails as a
  whole.
- Splice.SplicedLedger: stated under two assumptions, unique period ids and at most one
  period in force on the first day. The loader makes neither assumption. With duplicate
  ids, deleting by id can also remove a period that was meant to be kept. It speaks of the
  periods left, not of the created pricing: `Splice.GroupCreatesFromCut` places the created
  pricing on or after the first day only when both date readers agree on every row, and
  "## Findings" shows a row on which they do not.
- Payloads.UpperBandReadsBack: the read-back is exact only for upper bands on the 10^-10
  grid other than -1. The loader accepts negative bands: a structured slot with `from` -2
  and `to` -1.00000000001 passes every check, its upper band quantises to -1 and is written
  as the sentinel `-1`, so the stored tier reads back as unlimited
  (`Payloads.BoundedUpperAsSentinel`). A legacy upper band spelled `-1.0` is bounded, because
  only the exact text `-1` means unlimited there, but it renders as `-1` too.
- Payloads.RerunCreatesNothing: holds only when every band is on the grid and none is -1
  (`Payloads.StoredKeyExact`). A legacy upper band is not quantised when it is read, so an
  entry such as `100.00000000001:5` is stored with upper band `100`, is not found under
  its own key, and is created again on every re-run (`Payloads.OffGridUpperNotKnown`).
- Fields.IsActiveAnyCase: `strip`, `lower` and `upper` are ASCII-only in this model.
  Python also strips non-ASCII whitespace (U+00A0, U+2000 to U+200A, U+3000 and others)
  and maps non-ASCII letters: `"actıve"` (with a dotless i, U+0131) upper-cases to `ACTIVE`. The same
  restriction applies to every stripped cell (`parse_bool`, the action cell, the group keys).
- Negative zero: `Decimal("-0")` renders as `-0` in the whole-number branch of
  `format_decimal`. A `real` has no negative zero, so the model renders it as `0`.
- The first day of a splice is not bounded below: the loader's
  `first_effective_date - timedelta(days=1)` raises `OverflowError` for 0001-01-01, while the
  model's cut is that day minus one.
- `apply_price_change_for_group`: the account, contract, product and contract-rate lookups
  are remote calls. Their combined outcome is a given optional contract-rate id, and the
  error logging of each skip is not modelled. The model covers only the skip (nothing
  found) and success outcomes: a non-404 failure of a lookup or of the pricing fetch
  (contract_loader.py:1893-1914, 1950) raises and ends the run.
- Amendments.ContractKeyNonEmpty: weaker than the loader on short CSV rows. `csv.DictReader`
  (contract_loader.py:178-182) fills the cells missing from a short row with `None`; when the
  contract cell is blank, the fallback key at contract_loader.py:1179 calls
  `row.get(args.account_column, '').strip()`, which raises `AttributeError` on such a `None`
  and ends the run. The model reads every missing cell as empty, so it always builds the key.

## Findings

| source | as written | input that shows it | evidently intended | confidence | as-written member | corrected member |
|---|---|---|---|---|---|---|
| contract_loader.py:256-285, 529-532, 1874-1878, 1937-1940 | the group is sorted and cut by `parse_iso_to_date` (text before `T`, stripped) of the effective-or-start cell, but each recreated row is dated by `parse_date`, which passes the whole effective text to `strptime` and otherwise falls back to the start cell | one row with effective `2025-03-01T00:00:00` and start `2024-01-01`: the cut is 2025-03-01, the period in force is shortened to end 2025-02-28, and the new pricing starts 2024-01-01, inside that period | recreated pricing starts on the date the group was sorted and cut by, so it never starts before the cut | not executed | Splice.TimestampedEffectiveOverlaps | Splice.AlignedFromFirst |

`Splice.AlignedSplicePayloads` dates each row by its sort date, else by the first day.
`Splice.AlignedFromFirst` proves that none of its payloads starts before the cut, and
`Splice.AlignedAgrees` proves that it equals the loader's rebuild wherever both readers
agree. The splice driver (`SpliceCalls`, `CarryOut`, `GroupCalls`) keeps the code as written.
