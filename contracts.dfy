/**
 * The numbering rule of `next_contract_number`: contract numbers of a day read
 * `<date>_<nn>`, and a new contract takes one more than the largest suffix already
 * used under that day's prefix. The lookup of existing numbers is a parameter.
 */
module ContractNumbers {
  import opened Wrappers
  import opened Text
  import opened Tiers
  import opened Payloads

  /** The contract number an existing record carries, if any. */
  function NumberOf(entry: Row): Option<string> {
    Either(entry, "ContractNumber", "contractnumber")
  }

  /**
   * The suffix an existing record contributes: none unless its number starts with
   * `prefix` and an underscore, and none unless the text after the first underscore
   * reads as an integer.
   */
  function SuffixOf(prefix: string, entry: Row): Option<int> {
    var number := NumberOf(entry);
    if number.None? || number.value == "" || !(prefix + "_" <= number.value) then None
    else
      match IndexOf(number.value, '_')
      case None => None
      case Some(cut) => ParseInt(number.value[cut + 1..])
  }

  /** The suffixes the records contribute, in order. */
  function Suffixes(prefix: string, entries: seq<Row>): seq<int> {
    if entries == [] then []
    else
      var last := SuffixOf(prefix, entries[|entries| - 1]);
      Suffixes(prefix, entries[..|entries| - 1]) + (if last.Some? then [last.value] else [])
  }

  /** `max(values, default=0)`. */
  function MaxOr0(values: seq<int>): (m: int)
    ensures values == [] ==> m == 0
    ensures values != [] ==> m in values
    ensures forall k :: 0 <= k < |values| ==> values[k] <= m
  {
    if values == [] then 0
    else if |values| == 1 || values[0] >= MaxOr0(values[1..]) then values[0]
    else MaxOr0(values[1..])
  }

  /** The number a new contract gets under `prefix`. */
  function NextNumber(prefix: string, entries: seq<Row>): string {
    prefix + "_" + Pad2(MaxOr0(Suffixes(prefix, entries)) + 1)
  }

  /** `next_contract_number`, with the date already rendered as `prefix` and the lookup's records given. */
  method NextContractNumber(prefix: string, entries: seq<Row>) returns (number: string)
    ensures number == NextNumber(prefix, entries)
  {
    var suffixValues: seq<int> := [];
    for i := 0 to |entries|
      invariant suffixValues == Suffixes(prefix, entries[..i])
    {
      assert entries[..i + 1][..i] == entries[..i];
      var existing := NumberOf(entries[i]);
      if existing.None? || existing.value == "" || !(prefix + "_" <= existing.value) {
        continue;
      }
      var cut := IndexOf(existing.value, '_');
      if cut.None? {
        continue;
      }
      var suffix := ParseInt(existing.value[cut.value + 1..]);
      if suffix.None? {
        continue;
      }
      suffixValues := suffixValues + [suffix.value];
    }
    assert entries[..|entries|] == entries;
    number := prefix + "_" + Pad2(MaxOr0(suffixValues) + 1);
  }

  /** Every suffix a record contributes is among the suffixes. */
  lemma {:induction false} SuffixCounted(prefix: string, entries: seq<Row>, k: nat)
    requires k < |entries| && SuffixOf(prefix, entries[k]).Some?
    ensures SuffixOf(prefix, entries[k]).value in Suffixes(prefix, entries)
  {
    if k < |entries| - 1 {
      assert entries[..|entries| - 1][k] == entries[k];
      SuffixCounted(prefix, entries[..|entries| - 1], k);
    }
  }

  /** Under a prefix without underscores, a number's suffix is the text right after the prefix. */
  lemma SuffixAfterPrefix(prefix: string, number: string)
    requires '_' !in prefix && prefix + "_" <= number
    ensures IndexOf(number, '_') == Some(|prefix|)
    ensures number == prefix + "_" + number[|prefix| + 1..]
  {
    assert number[..|prefix|] == prefix;
    IndexOfFirst(number, '_', |prefix|);
  }

  /**
   * The new number is not the number of any fetched record: a record holding it would have
   * a readable suffix larger than every suffix. A rendered date never holds an underscore.
   */
  lemma NextNumberFresh(prefix: string, entries: seq<Row>, k: nat)
    requires '_' !in prefix
    requires k < |entries|
    ensures NumberOf(entries[k]) != Some(NextNumber(prefix, entries))
  {
    var next := MaxOr0(Suffixes(prefix, entries)) + 1;
    if NumberOf(entries[k]) == Some(NextNumber(prefix, entries)) {
      SuffixReadsBack(prefix, entries[k], next);
      SuffixCounted(prefix, entries, k);
    }
  }

  /** A record holding just a contract number. */
  function Created(number: string): Row {
    map["ContractNumber" := number]
  }

  lemma NumberOfCreated(number: string)
    requires number != ""
    ensures NumberOf(Created(number)) == Some(number)
  {
    assert Get(Created(number), "ContractNumber") == Some(number);
  }

  /** A number written under `prefix` with suffix `n` reads back as suffix `n`. */
  lemma SuffixReadsBack(prefix: string, entry: Row, n: int)
    requires '_' !in prefix && NumberOf(entry) == Some(prefix + "_" + Pad2(n))
    ensures SuffixOf(prefix, entry) == Some(n)
  {
    var number := prefix + "_" + Pad2(n);
    assert number[..|prefix| + 1] == prefix + "_";
    SuffixAfterPrefix(prefix, number);
    assert number[|prefix| + 1..] == Pad2(n);
    Pad2RoundTrip(n);
  }

  /** The new number reads back as one more than the largest suffix so far. */
  lemma NextNumberReadsBack(prefix: string, entries: seq<Row>)
    requires '_' !in prefix
    ensures SuffixOf(prefix, Created(NextNumber(prefix, entries))) == Some(MaxOr0(Suffixes(prefix, entries)) + 1)
  {
    NextNumberIs(prefix, entries, MaxOr0(Suffixes(prefix, entries)) + 1);
  }

  lemma NextNumberIs(prefix: string, entries: seq<Row>, n: int)
    requires '_' !in prefix && n == MaxOr0(Suffixes(prefix, entries)) + 1
    ensures SuffixOf(prefix, Created(NextNumber(prefix, entries))) == Some(n)
  {
    CreatedReadsBack(prefix, n, NextNumber(prefix, entries));
  }

  lemma CreatedReadsBack(prefix: string, n: int, number: string)
    requires '_' !in prefix && number == prefix + "_" + Pad2(n)
    ensures SuffixOf(prefix, Created(number)) == Some(n)
  {
    assert |number| > 0;
    NumberOfCreated(number);
    SuffixReadsBack(prefix, Created(number), n);
  }

  /**
   * Once a record carrying the new number exists (`NextNumberReadsBack` shows the created
   * contract's record is one), the following number takes the suffix after it: a day's
   * numbers count up.
   */
  lemma NextNumberCountsUp(prefix: string, entries: seq<Row>, created: Row)
    requires SuffixOf(prefix, created) == Some(MaxOr0(Suffixes(prefix, entries)) + 1)
    ensures NextNumber(prefix, entries + [created]) == prefix + "_" + Pad2(MaxOr0(Suffixes(prefix, entries)) + 2)
  {
    var before := Suffixes(prefix, entries);
    var n := MaxOr0(before) + 1;
    SuffixesAppend(prefix, entries, created, n);
    MaxOfAppended(before, n);
    NextNumberOf(prefix, entries + [created], n);
  }

  lemma NextNumberOf(prefix: string, entries: seq<Row>, m: int)
    requires MaxOr0(Suffixes(prefix, entries)) == m
    ensures NextNumber(prefix, entries) == prefix + "_" + Pad2(m + 1)
  {
  }

  lemma SuffixesAppend(prefix: string, entries: seq<Row>, entry: Row, n: int)
    requires SuffixOf(prefix, entry) == Some(n)
    ensures Suffixes(prefix, entries + [entry]) == Suffixes(prefix, entries) + [n]
  {
    assert (entries + [entry])[..|entries|] == entries;
  }

  /** Appending a value at least the maximum makes it the maximum. */
  lemma MaxOfAppended(values: seq<int>, n: int)
    requires n >= MaxOr0(values)
    ensures MaxOr0(values + [n]) == n
  {
    var m := MaxOr0(values + [n]);
    assert (values + [n])[|values|] == n;
    assert m in values + [n];
  }

  /** The first contract of a day is numbered `_01`. */
  lemma FirstOfTheDay(prefix: string)
    ensures NextNumber(prefix, []) == prefix + "_01"
  {
    assert NatDigits(1) == "1";
  }
}
