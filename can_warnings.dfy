/** `parseCANWarnings` (src/utils.cpp): the warning table is configured as
    `id,label` items separated by `;`.  Items are read with `getline`, an
    item without a `,` is skipped, the id is everything before the first
    `,` read by `std::stoi` in base 0, and the label is everything after it.
    A later item with the same id replaces the earlier label.  An id that
    `stoi` cannot read raises an exception that ends the whole parse. */
module CanWarnings {
  import opened Common
  import opened CNumbers

  type WarningTable = map<int, string>

  /** The items `std::getline(ss, item, d)` yields in turn: the pieces
      between separators, except that a trailing empty piece (text ending
      in `d`, or empty text) is not produced. */
  function GetlineItems(s: string, d: char): (items: seq<string>)
    ensures forall k :: 0 <= k < |items| ==> d !in items[k]
    ensures s == [] ==> items == []
  {
    var parts := Split(s, d);
    if parts[|parts| - 1] == [] then parts[..|parts| - 1] else parts
  }

  /** The effect of one item on the table built so far. */
  function ParseItem(table: WarningTable, item: string): Result<WarningTable, NumError>
  {
    match IndexOf(item, ',')
    case None => Ok(table)
    case Some(pos) =>
      match Stoi(item[..pos], Auto)
      case Err(e) => Err(e)
      case Ok(id) => Ok(table[id := item[pos + 1..]])
  }

  /** The items processed in order from an empty table; the first failing
      `stoi` decides the outcome. */
  function ParseItems(items: seq<string>): Result<WarningTable, NumError>
  {
    if items == [] then Ok(map[])
    else match ParseItems(items[..|items| - 1])
      case Err(e) => Err(e)
      case Ok(table) => ParseItem(table, items[|items| - 1])
  }

  lemma {:induction false} ErrorIsFinal(items: seq<string>, i: nat)
    requires i <= |items| && ParseItems(items[..i]).Err?
    ensures ParseItems(items) == ParseItems(items[..i])
    decreases |items| - i
  {
    if i < |items| {
      assert items[..i + 1][..i] == items[..i];
      ErrorIsFinal(items, i + 1);
    } else {
      assert items[..i] == items;
    }
  }

  /** parseCANWarnings, as the `getline` loop filling the result map. */
  method ParseCanWarnings(warnings: string) returns (r: Result<WarningTable, NumError>)
    ensures r == ParseItems(GetlineItems(warnings, ';'))
  {
    var items := GetlineItems(warnings, ';');
    var table: WarningTable := map[];
    var i := 0;
    while i < |items|
      invariant 0 <= i <= |items|
      invariant ParseItems(items[..i]) == Ok(table)
    {
      var item := items[i];
      assert items[..i + 1][..i] == items[..i];
      var pos := IndexOf(item, ',');
      if pos.Some? {
        var id := Stoi(item[..pos.value], Auto);
        if id.Err? {
          ErrorIsFinal(items, i + 1);
          return Err(id.error);
        }
        table := table[id.value := item[pos.value + 1..]];
      }
      i := i + 1;
    }
    assert items[..i] == items;
    return Ok(table);
  }

  // ---------------------------------------------------------------------
  // Properties of the item rules
  // ---------------------------------------------------------------------

  /** An item without a comma leaves the table as it was. */
  lemma ItemWithoutCommaIsSkipped(items: seq<string>, item: string)
    requires ',' !in item
    ensures ParseItems(items + [item]) == ParseItems(items)
  {
    assert (items + [item])[..|items|] == items;
  }

  /** An item with a comma and a readable id maps that id to the text after
      the first comma (later commas stay in the label), and keeps every
      other entry of the table. */
  lemma LabelIsTextAfterFirstComma(items: seq<string>, item: string, id: int)
    requires ParseItems(items).Ok?
    requires IndexOf(item, ',').Some? && Stoi(Before(item, ','), Auto) == Ok(id)
    ensures ParseItems(items + [item]).Ok?
    ensures var after := ParseItems(items + [item]).value;
            var before := ParseItems(items).value;
            after.Keys == before.Keys + {id} &&
            after[id] == item[IndexOf(item, ',').value + 1..] &&
            forall other :: other in before && other != id ==> after[other] == before[other]
  {
    assert (items + [item])[..|items|] == items;
  }

  /** Of two items with the same id, the later label is the one kept. */
  lemma DuplicateIdLastWins(items: seq<string>, first: string, second: string, id: int)
    requires ParseItems(items).Ok?
    requires IndexOf(first, ',').Some? && Stoi(Before(first, ','), Auto) == Ok(id)
    requires IndexOf(second, ',').Some? && Stoi(Before(second, ','), Auto) == Ok(id)
    ensures ParseItems(items + [first, second]).Ok?
    ensures ParseItems(items + [first, second]).value[id] == second[IndexOf(second, ',').value + 1..]
  {
    var all := items + [first, second];
    assert all[..|all| - 1] == items + [first];
    assert (items + [first])[..|items|] == items;
  }

  /** An item whose id text `stoi` cannot read makes the whole parse fail,
      whatever follows it: the source does not skip it. */
  lemma UnreadableIdFails(items: seq<string>, bad: string, rest: seq<string>)
    requires ParseItems(items).Ok?
    requires IndexOf(bad, ',').Some? && Stoi(Before(bad, ','), Auto).Err?
    ensures ParseItems(items + [bad] + rest) == Err(Stoi(Before(bad, ','), Auto).error)
  {
    var all := items + [bad] + rest;
    assert all[..|items| + 1] == items + [bad];
    assert (items + [bad])[..|items|] == items;
    ErrorIsFinal(all, |items| + 1);
  }

  // ---------------------------------------------------------------------
  // Round trip: writing a table and parsing it back
  // ---------------------------------------------------------------------

  /** The table a sequence of (id, label) entries denotes, later entries
      replacing earlier ones. */
  function EntriesToTable(entries: seq<(nat, string)>): WarningTable
  {
    if entries == [] then map[]
    else EntriesToTable(entries[..|entries| - 1])[entries[|entries| - 1].0 := entries[|entries| - 1].1]
  }

  function FormatItem(e: (nat, string)): string
  {
    NatToString(e.0) + "," + e.1
  }

  function FormatItems(entries: seq<(nat, string)>): (items: seq<string>)
    ensures |items| == |entries|
    ensures forall k :: 0 <= k < |entries| ==> items[k] == FormatItem(entries[k])
  {
    seq(|entries|, k requires 0 <= k < |entries| => FormatItem(entries[k]))
  }

  /** The configuration text for a table: decimal `id,label` items joined by `;`. */
  function FormatWarnings(entries: seq<(nat, string)>): string
  {
    Join(FormatItems(entries), ';')
  }

  predicate Writable(entries: seq<(nat, string)>)
  {
    forall k :: 0 <= k < |entries| ==> entries[k].0 <= IntMax && ';' !in entries[k].1
  }

  lemma ParseFormattedItem(table: WarningTable, e: (nat, string))
    requires e.0 <= IntMax
    ensures ParseItem(table, FormatItem(e)) == Ok(table[e.0 := e.1])
  {
    var item := FormatItem(e);
    var digits := NatToString(e.0);
    var k := |digits|;
    assert item[k] == ',' && item[..k] == digits;
    assert ',' !in digits by {
      forall j | 0 <= j < k ensures digits[j] != ',' { assert IsDigit(digits[j]); }
    }
    assert IndexOf(item, ',') == Some(k);
    StoiOfDecimal(e.0, Auto);
    assert item[k + 1..] == e.1;
  }

  lemma {:induction false} ParseFormattedItems(entries: seq<(nat, string)>)
    requires Writable(entries)
    ensures ParseItems(FormatItems(entries)) == Ok(EntriesToTable(entries))
  {
    if entries != [] {
      var n := |entries|;
      var init := entries[..n - 1];
      assert FormatItems(entries)[..n - 1] == FormatItems(init);
      ParseFormattedItems(init);
      ParseFormattedItem(EntriesToTable(init), entries[n - 1]);
    }
  }

  /** Parsing the written form of a table gives the table back, for
      non-negative ids in `int` range and labels without `;`. */
  lemma {:induction false} WarningsRoundTrip(entries: seq<(nat, string)>)
    requires Writable(entries)
    ensures ParseItems(GetlineItems(FormatWarnings(entries), ';')) == Ok(EntriesToTable(entries))
  {
    var items := FormatItems(entries);
    if entries == [] {
      assert FormatWarnings(entries) == [];
    } else {
      forall k | 0 <= k < |items| ensures ';' !in items[k] {
        var digits := NatToString(entries[k].0);
        assert items[k] == digits + "," + entries[k].1;
        forall j | 0 <= j < |digits| ensures digits[j] != ';' { assert IsDigit(digits[j]); }
      }
      SplitJoin(items, ';');
      var last := items[|items| - 1];
      assert last[|NatToString(entries[|items| - 1].0)|] == ',';
      assert GetlineItems(FormatWarnings(entries), ';') == items;
    }
    ParseFormattedItems(entries);
  }
}
