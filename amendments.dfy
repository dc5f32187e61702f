/**
 * How the loader sorts its input rows before any remote work: an amendment file's rows
 * are split by action into quantity changes and price changes (`process_amendments`),
 * and rows are bucketed by a key into insertion-ordered groups (price-change groups,
 * contract groups, product groups).
 */
module Amendments {
  import opened Wrappers
  import opened Text
  import opened Tiers

  /** The CSV column names the partitioning and grouping read. */
  datatype GroupColumns = GroupColumns(action: string, contract: string, account: string, product: string,
                                       currency: string, cpqContractId: string)

  /** A cell as `(row.get(column) or "").strip()`. */
  function Cell(row: Row, column: string): string {
    Strip(Get(row, column).GetOr(""))
  }

  /** The row's action, stripped and lower-cased. */
  function Action(cols: GroupColumns, row: Row): string {
    Lower(Cell(row, cols.action))
  }

  predicate WantsQuantity(action: string) {
    action == "quantity change" || action == "quantity and price change"
  }

  predicate WantsPrice(action: string) {
    action == "price change" || action == "quantity and price change"
  }

  /** The rows whose action is one of the three amendment actions. */
  predicate IsAmendmentRow(cols: GroupColumns, row: Row) {
    WantsQuantity(Action(cols, row)) || WantsPrice(Action(cols, row))
  }

  /** A file is an amendment file when every row carries an amendment action. */
  predicate IsAmendmentFile(cols: GroupColumns, rows: seq<Row>) {
    forall i :: 0 <= i < |rows| ==> IsAmendmentRow(cols, rows[i])
  }

  /** The rows passing `test`, in input order. */
  function Filter(test: Row -> bool, rows: seq<Row>): seq<Row> {
    if rows == [] then []
    else
      var row := rows[|rows| - 1];
      Filter(test, rows[..|rows| - 1]) + (if test(row) then [row] else [])
  }

  function QuantityTest(cols: GroupColumns): Row -> bool {
    (row: Row) => WantsQuantity(Action(cols, row))
  }

  function PriceTest(cols: GroupColumns): Row -> bool {
    (row: Row) => WantsPrice(Action(cols, row))
  }

  function QuantityRows(cols: GroupColumns, rows: seq<Row>): seq<Row> {
    Filter(QuantityTest(cols), rows)
  }

  function PriceRows(cols: GroupColumns, rows: seq<Row>): seq<Row> {
    Filter(PriceTest(cols), rows)
  }

  /** The handler a batch of amendment rows goes to. */
  datatype Dispatch = QuantityBatch(rows: seq<Row>) | PriceBatch(rows: seq<Row>)

  /** Quantity changes first, then price changes; an empty list is not dispatched. */
  function Dispatches(quantity: seq<Row>, price: seq<Row>): seq<Dispatch> {
    (if quantity != [] then [QuantityBatch(quantity)] else []) + (if price != [] then [PriceBatch(price)] else [])
  }

  /**
   * `process_amendments`: splits the rows by action (a row asking for both goes to both
   * lists, a row with any other action to neither) and dispatches the lists.
   */
  method ProcessAmendments(cols: GroupColumns, rows: seq<Row>) returns (dispatched: seq<Dispatch>)
    ensures dispatched == Dispatches(QuantityRows(cols, rows), PriceRows(cols, rows))
  {
    var quantityRows, priceRows := SplitByAction(cols, rows);
    dispatched := [];
    if quantityRows != [] {
      dispatched := dispatched + [QuantityBatch(quantityRows)];
    }
    if priceRows != [] {
      dispatched := dispatched + [PriceBatch(priceRows)];
    }
  }

  /** The partitioning loop of `process_amendments`. */
  method SplitByAction(cols: GroupColumns, rows: seq<Row>) returns (quantityRows: seq<Row>, priceRows: seq<Row>)
    ensures quantityRows == QuantityRows(cols, rows) && priceRows == PriceRows(cols, rows)
  {
    quantityRows, priceRows := [], [];
    for i := 0 to |rows|
      invariant quantityRows == QuantityRows(cols, rows[..i])
      invariant priceRows == PriceRows(cols, rows[..i])
    {
      FilterStep(QuantityTest(cols), rows, i);
      FilterStep(PriceTest(cols), rows, i);
      var row := rows[i];
      var action := Action(cols, row);
      ActionsDistinct();
      assert QuantityTest(cols)(row) == WantsQuantity(action) && PriceTest(cols)(row) == WantsPrice(action);
      if action == "quantity change" {
        quantityRows := quantityRows + [row];
      } else if action == "price change" {
        priceRows := priceRows + [row];
      } else if action == "quantity and price change" {
        quantityRows := quantityRows + [row];
        priceRows := priceRows + [row];
      }
    }
    assert rows[..|rows|] == rows;
  }

  /** The three action texts differ (they differ in length). */
  lemma ActionsDistinct()
    ensures "quantity change" != "price change"
    ensures "quantity change" != "quantity and price change"
    ensures "price change" != "quantity and price change"
  {
    assert |"quantity change"| == 15 && |"price change"| == 12 && |"quantity and price change"| == 25;
  }

  lemma FilterStep(test: Row -> bool, rows: seq<Row>, i: nat)
    requires i < |rows|
    ensures Filter(test, rows[..i + 1]) == Filter(test, rows[..i]) + (if test(rows[i]) then [rows[i]] else [])
  {
    assert rows[..i + 1][..i] == rows[..i];
  }

  /** A row is in the filtered list exactly when it is an input row that passes the test. */
  lemma {:induction false} FilterMembers(test: Row -> bool, rows: seq<Row>, row: Row)
    ensures row in Filter(test, rows) <==> row in rows && test(row)
  {
    if rows != [] {
      FilterMembers(test, rows[..|rows| - 1], row);
      assert rows == rows[..|rows| - 1] + [rows[|rows| - 1]];
    }
  }

  /**
   * The partition: a row is among the quantity changes exactly when its action asks for a
   * quantity change, and among the price changes exactly when it asks for a price change;
   * so a "quantity and price change" row is in both and a row with another action in neither.
   */
  lemma Partition(cols: GroupColumns, rows: seq<Row>, row: Row)
    ensures row in QuantityRows(cols, rows) <==> row in rows && WantsQuantity(Action(cols, row))
    ensures row in PriceRows(cols, rows) <==> row in rows && WantsPrice(Action(cols, row))
  {
    FilterMembers(QuantityTest(cols), rows, row);
    FilterMembers(PriceTest(cols), rows, row);
  }

  /** In an amendment file no row is dropped: each goes to at least one of the two lists. */
  lemma AmendmentFileKeepsAll(cols: GroupColumns, rows: seq<Row>, i: nat)
    requires IsAmendmentFile(cols, rows) && i < |rows|
    ensures rows[i] in QuantityRows(cols, rows) || rows[i] in PriceRows(cols, rows)
  {
    Partition(cols, rows, rows[i]);
  }

  /** The quantity batch, when there is one, is dispatched before the price batch, and each at most once. */
  lemma DispatchOrder(quantity: seq<Row>, price: seq<Row>)
    ensures var d := Dispatches(quantity, price);
            && |d| <= 2
            && (forall i :: 0 <= i < |d| ==> d[i].rows != [])
            && (quantity != [] <==> |d| > 0 && d[0] == QuantityBatch(quantity))
            && (price != [] <==> |d| > 0 && d[|d| - 1] == PriceBatch(price))
  {
  }

  // ----- insertion-ordered grouping -----

  /** A Python dict of lists: its keys in insertion order and the list under each key. */
  datatype Grouping<K> = Grouping(keys: seq<K>, groups: map<K, seq<Row>>)

  /** `groups.setdefault(k, []).append(row)` for every row with a key; rows without a key are skipped. */
  function Group<K(==)>(key: Row -> Option<K>, rows: seq<Row>): Grouping<K> {
    if rows == [] then Grouping([], map[])
    else
      var g := Group(key, rows[..|rows| - 1]);
      var row := rows[|rows| - 1];
      match key(row)
      case None => g
      case Some(k) =>
        if k in g.groups then Grouping(g.keys, g.groups[k := g.groups[k] + [row]])
        else Grouping(g.keys + [k], g.groups[k := [row]])
  }

  /** The grouping loop: the keys in insertion order and the rows under each. */
  method GroupRows<K(==)>(key: Row -> Option<K>, rows: seq<Row>) returns (keys: seq<K>, groups: map<K, seq<Row>>)
    ensures Grouping(keys, groups) == Group(key, rows)
  {
    keys, groups := [], map[];
    for i := 0 to |rows|
      invariant Grouping(keys, groups) == Group(key, rows[..i])
    {
      assert rows[..i + 1][..i] == rows[..i];
      var row := rows[i];
      var k := key(row);
      if k.None? {
        continue;
      }
      if k.value in groups {
        groups := groups[k.value := groups[k.value] + [row]];
      } else {
        keys := keys + [k.value];
        groups := groups[k.value := [row]];
      }
    }
    assert rows[..|rows|] == rows;
  }

  /** The rows carrying key `k`, in input order. */
  function Matching<K(==)>(key: Row -> Option<K>, k: K, rows: seq<Row>): seq<Row> {
    if rows == [] then []
    else Matching(key, k, rows[..|rows| - 1]) + (if key(rows[|rows| - 1]) == Some(k) then [rows[|rows| - 1]] else [])
  }

  /**
   * Each key is listed once and exactly the keys with a group are listed; a key has a
   * group exactly when some row carries it, and that group is every row carrying it, in
   * input order (so never empty).
   */
  lemma {:induction false} GroupIsFilter<K>(key: Row -> Option<K>, rows: seq<Row>)
    ensures var g := Group(key, rows);
            && (forall i, j :: 0 <= i < j < |g.keys| ==> g.keys[i] != g.keys[j])
            && (forall i :: 0 <= i < |g.keys| ==> g.keys[i] in g.groups)
            && (forall k :: k in g.groups ==> k in g.keys)
            && (forall k :: k in g.groups ==> g.groups[k] == Matching(key, k, rows) && g.groups[k] != [])
            && (forall k :: k !in g.groups ==> Matching(key, k, rows) == [])
  {
    if rows != [] {
      var init := rows[..|rows| - 1];
      var last := rows[|rows| - 1];
      GroupIsFilter(key, init);
      var g0 := Group(key, init);
      var g := Group(key, rows);
      forall k ensures Matching(key, k, rows) == Matching(key, k, init) + (if key(last) == Some(k) then [last] else []) {
      }
      if key(last).None? {
        assert g == g0;
        forall k ensures Matching(key, k, rows) == Matching(key, k, init) {
        }
      } else if key(last).value in g0.groups {
        var k0 := key(last).value;
        assert g.keys == g0.keys && g.groups == g0.groups[k0 := g0.groups[k0] + [last]];
        forall k | k in g.groups ensures g.groups[k] == Matching(key, k, rows) && g.groups[k] != [] {
          if k != k0 {
            assert g.groups[k] == g0.groups[k];
          }
        }
      } else {
        var k0 := key(last).value;
        assert g.keys == g0.keys + [k0] && g.groups == g0.groups[k0 := [last]];
        forall i, j | 0 <= i < j < |g.keys| ensures g.keys[i] != g.keys[j] {
          if j < |g0.keys| {
            assert g.keys[i] == g0.keys[i] && g.keys[j] == g0.keys[j];
          } else {
            assert g.keys[i] == g0.keys[i] && g0.keys[i] in g0.keys && g.keys[j] == k0;
          }
        }
        assert Matching(key, k0, rows) == [last];
        forall k | k in g.groups ensures g.groups[k] == Matching(key, k, rows) && g.groups[k] != [] {
          if k != k0 {
            assert g.groups[k] == g0.groups[k];
          }
        }
      }
    }
  }

  /** Some row among `rows` carries key `k`. */
  ghost predicate Carried<K>(key: Row -> Option<K>, k: K, rows: seq<Row>) {
    exists a :: 0 <= a < |rows| && key(rows[a]) == Some(k)
  }

  lemma {:induction false} MatchingCarried<K>(key: Row -> Option<K>, k: K, rows: seq<Row>)
    ensures Matching(key, k, rows) != [] <==> Carried(key, k, rows)
  {
    if rows != [] {
      var init := rows[..|rows| - 1];
      MatchingCarried(key, k, init);
      if Carried(key, k, init) {
        var a :| 0 <= a < |init| && key(init[a]) == Some(k);
        assert rows[a] == init[a];
      }
      if Carried(key, k, rows) && key(rows[|rows| - 1]) != Some(k) {
        var a :| 0 <= a < |rows| && key(rows[a]) == Some(k);
        assert init[a] == rows[a];
      }
    }
  }

  /** Grouping one more row keeps the keys listed so far and adds at most the last row's key. */
  lemma GroupKeysGrow<K>(key: Row -> Option<K>, rows: seq<Row>)
    requires rows != []
    ensures var g0 := Group(key, rows[..|rows| - 1]);
            var g := Group(key, rows);
            && |g0.keys| <= |g.keys| <= |g0.keys| + 1
            && g.keys[..|g0.keys|] == g0.keys
            && (|g.keys| > |g0.keys| ==> key(rows[|rows| - 1]) == Some(g.keys[|g0.keys|]) && g.keys[|g0.keys|] !in g0.groups)
  {
  }

  /**
   * The keys are listed in order of first appearance: before any row carrying a later
   * key there is a row carrying each earlier key.
   */
  lemma {:induction false} GroupKeysInOrder<K>(key: Row -> Option<K>, rows: seq<Row>, i: nat, j: nat, b: nat)
    requires var g := Group(key, rows); i < j < |g.keys| && b < |rows| && key(rows[b]) == Some(g.keys[j])
    ensures exists a :: 0 <= a < b && key(rows[a]) == Some(Group(key, rows).keys[i])
  {
    var init := rows[..|rows| - 1];
    var g0 := Group(key, init);
    var g := Group(key, rows);
    GroupKeysGrow(key, rows);
    GroupIsFilter(key, init);
    if j < |g0.keys| {
      assert g.keys[i] == g0.keys[i] && g.keys[j] == g0.keys[j];
      assert g0.keys[j] in g0.keys;
      var b' := b;
      if b == |rows| - 1 {
        // the last row carries a key listed before: an earlier row carries it too
        MatchingCarried(key, g0.keys[j], init);
        assert Carried(key, g0.keys[j], init);
        b' :| 0 <= b' < |init| && key(init[b']) == Some(g0.keys[j]);
      }
      assert init[b'] == rows[b'];
      GroupKeysInOrder(key, init, i, j, b');
      var a :| 0 <= a < b' && key(init[a]) == Some(g0.keys[i]);
      assert rows[a] == init[a];
    } else {
      // keys[j] is the key the last row introduced; no earlier row carries it
      assert g.keys[i] == g0.keys[i];
      if b < |rows| - 1 {
        assert init[b] == rows[b];
        assert Carried(key, g.keys[j], init);
        MatchingCarried(key, g.keys[j], init);
        assert false;
      }
      MatchingCarried(key, g0.keys[i], init);
      assert Carried(key, g0.keys[i], init);
      var a :| 0 <= a < |init| && key(init[a]) == Some(g0.keys[i]);
      assert rows[a] == init[a];
    }
  }

  // ----- the three groupings -----

  /** The key of a price-change group: the five stripped identifying cells. */
  datatype PriceGroup = PriceGroup(contract: string, account: string, product: string, currency: string,
                                   cpqContractId: string)

  /** `process_price_change_amendments`: every row has a key. */
  function PriceGroupKey(cols: GroupColumns): Row -> Option<PriceGroup> {
    (row: Row) => Some(PriceGroup(Cell(row, cols.contract), Cell(row, cols.account), Cell(row, cols.product),
                                  Cell(row, cols.currency), Cell(row, cols.cpqContractId)))
  }

  /** The group key of a new-contract row: its contract cell, else `account:product`. */
  function ContractKey(cols: GroupColumns): Row -> Option<string> {
    (row: Row) =>
      var contract := Cell(row, cols.contract);
      if contract != "" then Some(contract)
      else Some(Strip(Get(row, cols.account).GetOr("")) + ":" + Strip(Get(row, cols.product).GetOr("")))
  }

  /**
   * Every row gets a non-empty contract key, so the `row-N` fallback the loader keeps for
   * an empty `account:product` key is never taken.
   */
  lemma ContractKeyNonEmpty(cols: GroupColumns, row: Row)
    ensures ContractKey(cols)(row).Some? && ContractKey(cols)(row).value != ""
  {
  }

  /** A product group's key: the product name as written, and the row's currency or else the contract's. */
  datatype ProductGroup = ProductGroup(product: string, currency: Option<string>)

  /** Rows without a product name are skipped. */
  function ProductKey(cols: GroupColumns, contractCurrency: Option<string>): Row -> Option<ProductGroup> {
    (row: Row) =>
      var product := Get(row, cols.product);
      var currency := Get(row, cols.currency);
      if product.None? || product.value == "" then None
      else Some(ProductGroup(product.value, if currency.Some? && currency.value != "" then currency else contractCurrency))
  }

  /** Every row of a product group names that group's product, and no row without a product is grouped. */
  lemma ProductGroupsNamed(cols: GroupColumns, contractCurrency: Option<string>, rows: seq<Row>)
    ensures var g := Group(ProductKey(cols, contractCurrency), rows);
            forall k :: k in g.groups ==>
              k.product != "" && forall r :: r in g.groups[k] ==> Get(r, cols.product) == Some(k.product)
  {
    var key := ProductKey(cols, contractCurrency);
    var g := Group(key, rows);
    GroupIsFilter(key, rows);
    forall k: ProductGroup | k in g.groups
      ensures k.product != "" && forall r :: r in g.groups[k] ==> Get(r, cols.product) == Some(k.product)
    {
      MatchingKeyed(key, k, rows);
    }
  }

  /** Every row of `Matching(key, k, rows)` carries key `k`. */
  lemma {:induction false} MatchingKeyed<K>(key: Row -> Option<K>, k: K, rows: seq<Row>)
    ensures forall r :: r in Matching(key, k, rows) ==> key(r) == Some(k)
  {
    if rows != [] {
      MatchingKeyed(key, k, rows[..|rows| - 1]);
    }
  }
}
