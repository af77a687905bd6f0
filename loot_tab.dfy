/** The loot entry logic of the loot tab: the manual-add record, the game-data import
    loop with its line format, and the loot pool total. */
module LootTab {
  import opened Wrappers
  import opened Constants
  import opened Seqs
  import opened Text

  /** `handleAddItem`: nothing for an empty name; otherwise one common item whose source is
      "Manual Add" and whose time left is "N/A", with the quantity as entered. */
  function NewManualItem(name: string, quantity: int, id: string): (item: Option<LootItem>)
    ensures item.None? <==> name == ""
    ensures item.Some? ==>
      && item.value.id == id && item.value.name == name
      && item.value.rarity == Common && item.value.quantity == quantity
      && item.value.source == Some("Manual Add") && item.value.timeLeft == Some("N/A")
  {
    if name == "" then None
    else Some(LootItem(id, name, Common, quantity, Some("Manual Add"), Some("N/A")))
  }

  /** The fields of an import line: the tab-separated ones, or the " - "-separated ones
      when splitting on tabs gives fewer than two. */
  function ImportFields(line: string): (parts: seq<string>)
    ensures |parts| >= 1
    ensures |parts| >= 2 <==> Contains(line, "\t") || Contains(line, " - ")
  {
    var parts := SplitOn(line, "\t");
    if |parts| < 2 then SplitOn(line, " - ") else parts
  }

  /** `parseInt(raw.replace(/[^0-9]/g, "")) || 1`: the number the digits of `raw` form,
      or 1 when there is no digit or the number is 0. */
  function ImportedQuantity(raw: string): (q: nat)
    ensures q >= 1
    ensures var d := DigitsOnly(raw); d != "" && DecimalValue(d) != 0 ==> q == DecimalValue(d)
    ensures var d := DigitsOnly(raw); d == "" || DecimalValue(d) == 0 ==> q == 1
  {
    var digits := DigitsOnly(raw);
    if digits == [] then 1
    else
      var n := DecimalValue(digits);
      if n == 0 then 1 else n
  }

  /** `parts[k] ? parts[k].trim() : otherwise`: a field that is absent or empty gives the default. */
  function OptionalField(parts: seq<string>, k: nat, otherwise: string): (f: string)
    ensures k < |parts| && parts[k] != "" ==> f == Trim(parts[k])
    ensures k >= |parts| || parts[k] == "" ==> f == otherwise
  {
    if k < |parts| && parts[k] != "" then Trim(parts[k]) else otherwise
  }

  /** The item the fields of one import line describe: none for fewer than two fields or an
      empty trimmed name; otherwise a common item with the trimmed name, the imported
      quantity of field 2, source field 3 (default "Unknown") and time field 4 (default
      empty). */
  function ParseFields(parts: seq<string>, id: string): (item: Option<LootItem>)
    ensures item.None? <==> |parts| < 2 || Trim(parts[0]) == ""
    ensures item.Some? ==>
      && item.value.id == id
      && item.value.name == Trim(parts[0]) && item.value.name != ""
      && item.value.rarity == Common
      && item.value.quantity == ImportedQuantity(Trim(parts[1]))
      && item.value.source == Some(OptionalField(parts, 2, "Unknown"))
      && item.value.timeLeft == Some(OptionalField(parts, 3, ""))
  {
    if |parts| < 2 then None
    else
      var name := Trim(parts[0]);
      if name == "" then None
      else
        Some(LootItem(id, name, Common, ImportedQuantity(Trim(parts[1])),
                      Some(OptionalField(parts, 2, "Unknown")), Some(OptionalField(parts, 3, ""))))
  }

  /** One import line, as the loop body handles it. */
  function ParseLootLine(line: string, id: string): Option<LootItem>
  {
    ParseFields(ImportFields(line), id)
  }

  /** The items the import builds from `lines`, the k-th item taking the k-th fresh id. */
  function ImportLines(lines: seq<string>, ids: nat -> string): (items: seq<LootItem>)
    ensures |items| <= |lines|
  {
    if lines == [] then []
    else
      var before := ImportLines(lines[..|lines| - 1], ids);
      match ParseLootLine(lines[|lines| - 1], ids(|before|))
      case Some(item) => before + [item]
      case None => before
  }

  /** A line the import turns into an item: it splits into two or more fields and the
      trimmed name is not empty. */
  predicate UsableLine(line: string)
  {
    |ImportFields(line)| >= 2 && Trim(ImportFields(line)[0]) != ""
  }

  /** A line gives an item exactly when it is usable, whatever the fresh id. */
  lemma ParseLootLineSomeIff(line: string, id: string)
    ensures ParseLootLine(line, id).Some? <==> UsableLine(line)
  {
  }

  /** The last line adds the item it parses to, with the next fresh id, when it is usable,
      and nothing otherwise. */
  lemma ImportLinesLast(lines: seq<string>, x: string, ids: nat -> string)
    ensures var before := ImportLines(lines, ids);
      ImportLines(lines + [x], ids)
        == before + (if UsableLine(x) then [ParseLootLine(x, ids(|before|)).value] else [])
  {
    assert (lines + [x])[..|lines|] == lines;
    ParseLootLineSomeIff(x, ids(|ImportLines(lines, ids)|));
  }

  /** The import makes exactly one item per usable line. */
  lemma {:induction false} ImportLinesCount(lines: seq<string>, ids: nat -> string)
    ensures |ImportLines(lines, ids)| == CountWhere(lines, UsableLine)
    decreases |lines|
  {
    if lines != [] {
      var init, x := lines[..|lines| - 1], lines[|lines| - 1];
      assert lines == init + [x];
      ImportLinesCount(init, ids);
      ImportLinesLast(init, x, ids);
      CountWhereSnoc(init, x, UsableLine);
    }
  }

  /** The result of `handleGameImport`: nothing for whitespace-only input; otherwise the
      items of the input's lines, in line order. */
  function GameImport(data: string, ids: nat -> string): (imported: Option<seq<LootItem>>)
    ensures imported.None? <==> Trim(data) == ""
    ensures imported.Some? ==> |imported.value| <= |SplitOn(data, "\n")|
  {
    if Trim(data) == "" then None else Some(ImportLines(SplitOn(data, "\n"), ids))
  }

  /** The `forEach` loop of `handleGameImport` that pushes an item for each usable line. */
  method HandleGameImport(data: string, ids: nat -> string) returns (imported: Option<seq<LootItem>>)
    ensures imported == GameImport(data, ids)
  {
    if Trim(data) == "" {
      return None;
    }
    var lines := SplitOn(data, "\n");
    var newItems: seq<LootItem> := [];
    for i := 0 to |lines|
      invariant newItems == ImportLines(lines[..i], ids)
    {
      var line := lines[i];
      var parts := SplitOn(line, "\t");
      if |parts| < 2 {
        parts := SplitOn(line, " - ");
      }
      assert parts == ImportFields(line);
      ImportStep(lines, i, ids);
      LoopBodyIsParse(parts, ids(|newItems|));
      if |parts| >= 2 {
        var name := Trim(parts[0]);
        var qtyRaw := Trim(parts[1]);
        var source := if 2 < |parts| && parts[2] != "" then Trim(parts[2]) else "Unknown";
        var timeLeft := if 3 < |parts| && parts[3] != "" then Trim(parts[3]) else "";
        var qty := ImportedQuantity(qtyRaw);
        if name != "" {
          newItems := newItems + [LootItem(ids(|newItems|), name, Common, qty, Some(source), Some(timeLeft))];
        }
      }
    }
    assert lines[..|lines|] == lines;
    return Some(newItems);
  }

  /** One more line extends the import by what that line parses to. */
  lemma ImportStep(lines: seq<string>, i: nat, ids: nat -> string)
    requires i < |lines|
    ensures var before := ImportLines(lines[..i], ids);
      ImportLines(lines[..i + 1], ids)
        == match ParseLootLine(lines[i], ids(|before|))
           case Some(item) => before + [item]
           case None => before
  {
    assert lines[..i + 1][..i] == lines[..i];
  }

  /** The statements of the loop body compute `ParseFields`. */
  lemma LoopBodyIsParse(parts: seq<string>, id: string)
    ensures ParseFields(parts, id)
        == if |parts| >= 2 && Trim(parts[0]) != "" then
             Some(LootItem(id, Trim(parts[0]), Common, ImportedQuantity(Trim(parts[1])),
                           Some(if 2 < |parts| && parts[2] != "" then Trim(parts[2]) else "Unknown"),
                           Some(if 3 < |parts| && parts[3] != "" then Trim(parts[3]) else "")))
           else None
  {
  }

  /** What the import promises of each item it makes: common, with a non-empty trimmed name
      and a quantity of at least 1. */
  predicate ImportedShape(item: LootItem)
  {
    && item.rarity == Common && item.quantity >= 1
    && item.name != "" && Trim(item.name) == item.name
  }

  /** A parsed item has the imported shape and the id it was given. */
  lemma ParsedItemWellFormed(line: string, id: string)
    ensures var item := ParseLootLine(line, id);
      item.Some? ==> item.value.id == id && ImportedShape(item.value)
  {
    var parts := ImportFields(line);
    if |parts| >= 2 {
      TrimIdempotent(parts[0]);
    }
  }

  /** Every imported item has the imported shape, and the k-th takes the k-th fresh id. */
  lemma {:induction false} ImportedItemsWellFormed(lines: seq<string>, ids: nat -> string)
    ensures var items := ImportLines(lines, ids);
      forall k :: 0 <= k < |items| ==> items[k].id == ids(k) && ImportedShape(items[k])
  {
    if lines != [] {
      var before := ImportLines(lines[..|lines| - 1], ids);
      var items := ImportLines(lines, ids);
      ImportedItemsWellFormed(lines[..|lines| - 1], ids);
      var last := ParseLootLine(lines[|lines| - 1], ids(|before|));
      ParsedItemWellFormed(lines[|lines| - 1], ids(|before|));
      if last.Some? {
        assert items == before + [last.value];
        forall k | 0 <= k < |items| ensures items[k].id == ids(k) && ImportedShape(items[k]) {
          if k < |before| {
            assert items[k] == before[k];
          } else {
            assert k == |before|;
            assert items[k] == last.value;
          }
        }
      } else {
        assert items == before;
      }
    }
  }

  /** A line with neither a tab nor " - " gives no item. */
  lemma LineWithoutSeparatorIgnored(line: string, id: string)
    requires !Contains(line, "\t") && !Contains(line, " - ")
    ensures ParseLootLine(line, id) == None
  {
  }

  // ---------------------------------------------------------------------------
  // round trip with the game's line format

  /** The game's line for an item: name, quantity, source and time left, tab-separated. */
  function FormatLootLine(name: string, quantity: nat, source: string, timeLeft: string): string
  {
    Join([name, NatToDecimal(quantity), source, timeLeft], "\t")
  }

  /** A field the game format can carry unchanged: no tab and no surrounding whitespace. */
  predicate CleanField(f: string)
  {
    && (forall k :: 0 <= k < |f| ==> f[k] != '\t')
    && (f == [] || (!IsWhitespace(f[0]) && !IsWhitespace(f[|f| - 1])))
  }

  lemma SplitOnCharCons(a: string, c: char, b: string)
    requires forall k :: 0 <= k < |a| ==> a[k] != c
    ensures SplitOn(a + [c] + b, [c]) == [a] + SplitOn(b, [c])
  {
    var s := a + [c] + b;
    var i := IndexOf(s, [c]);
    assert OccursAt(s, [c], |a|) by {
      assert s[|a|..|a| + 1] == [c];
    }
    forall k | 0 <= k < |a| ensures !OccursAt(s, [c], k) {
      assert s[k..k + 1] == [a[k]];
    }
    assert i == |a|;
    assert s[..|a|] == a;
    assert s[|a| + 1..] == b;
  }

  lemma SplitOnCharNone(a: string, c: char)
    requires forall k :: 0 <= k < |a| ==> a[k] != c
    ensures SplitOn(a, [c]) == [a]
  {
    forall k | 0 <= k < |a| ensures !OccursAt(a, [c], k) {
      assert a[k..k + 1] == [a[k]];
    }
    assert !Contains(a, [c]);
  }

  /** Splitting a tab-joined list of tab-free fields on tabs gives the fields back. */
  lemma {:induction false} SplitJoinTabs(parts: seq<string>)
    requires |parts| >= 1
    requires forall i, k :: 0 <= i < |parts| && 0 <= k < |parts[i]| ==> parts[i][k] != '\t'
    ensures SplitOn(Join(parts, "\t"), "\t") == parts
  {
    if |parts| == 1 {
      SplitOnCharNone(parts[0], '\t');
    } else {
      SplitJoinTabs(parts[1..]);
      assert Join(parts, "\t") == parts[0] + ['\t'] + Join(parts[1..], "\t");
      SplitOnCharCons(parts[0], '\t', Join(parts[1..], "\t"));
      assert [parts[0]] + parts[1..] == parts;
    }
  }

  /** The fields of the game's line are the item's four fields. */
  lemma FormatFields(name: string, quantity: nat, source: string, timeLeft: string)
    requires CleanField(name) && CleanField(source) && CleanField(timeLeft)
    ensures ImportFields(FormatLootLine(name, quantity, source, timeLeft))
         == [name, NatToDecimal(quantity), source, timeLeft]
  {
    var digits := NatToDecimal(quantity);
    var parts := [name, digits, source, timeLeft];
    assert forall k :: 0 <= k < |digits| ==> digits[k] != '\t';
    SplitJoinTabs(parts);
  }

  /** The quantity field the game writes for a quantity of at least 1 reads back as it. */
  lemma FormatQuantity(quantity: nat)
    requires quantity >= 1
    ensures ImportedQuantity(Trim(NatToDecimal(quantity))) == quantity
  {
    var digits := NatToDecimal(quantity);
    assert !IsWhitespace(digits[0]) && !IsWhitespace(digits[|digits| - 1]);
    TrimUntouched(digits);
    FilterKeepsAll(digits, IsDigit);
  }

  /** A trimmed, non-empty name field and the quantity field give an item with that name
      and quantity. */
  lemma ParseFieldsNameQuantity(name: string, digits: string, source: string, timeLeft: string,
                                quantity: nat, id: string)
    requires Trim(name) == name && name != ""
    requires ImportedQuantity(Trim(digits)) == quantity
    ensures ParseFields([name, digits, source, timeLeft], id).Some?
    ensures ParseFields([name, digits, source, timeLeft], id).value.name == name
    ensures ParseFields([name, digits, source, timeLeft], id).value.quantity == quantity
  {
  }

  /** Trimmed source and time fields are read back unchanged, for a non-empty source. */
  lemma OptionalFieldsTrimmed(name: string, digits: string, source: string, timeLeft: string)
    requires Trim(source) == source && source != "" && Trim(timeLeft) == timeLeft
    ensures OptionalField([name, digits, source, timeLeft], 2, "Unknown") == source
    ensures OptionalField([name, digits, source, timeLeft], 3, "") == timeLeft
  {
  }

  /** Parsing the game's line for an item gives back that item: the import reads the format
      the game writes, for a non-empty name, a quantity of at least 1 and a non-empty source. */
  lemma ParseFormatRoundTrip(name: string, quantity: nat, source: string, timeLeft: string, id: string)
    requires CleanField(name) && CleanField(source) && CleanField(timeLeft)
    requires name != "" && quantity >= 1 && source != ""
    ensures ParseLootLine(FormatLootLine(name, quantity, source, timeLeft), id)
         == Some(LootItem(id, name, Common, quantity, Some(source), Some(timeLeft)))
  {
    var digits := NatToDecimal(quantity);
    FormatFields(name, quantity, source, timeLeft);
    FormatQuantity(quantity);
    TrimUntouched(name);
    TrimUntouched(source);
    TrimUntouched(timeLeft);
    ParseFieldsNameQuantity(name, digits, source, timeLeft, quantity, id);
    OptionalFieldsTrimmed(name, digits, source, timeLeft);
  }

  // ---------------------------------------------------------------------------
  // loot pool total

  /** `lootItems.reduce((acc, i) => acc + i.quantity, 0)`. */
  function PoolTotal(items: seq<LootItem>): (total: int)
    ensures (forall k :: 0 <= k < |items| ==> items[k].quantity >= 0) ==> total >= 0
    ensures (forall k :: 0 <= k < |items| ==> items[k].quantity == 0) ==> total == 0
  {
    if items == [] then 0 else items[0].quantity + PoolTotal(items[1..])
  }

  /** The total of two lists put together is the sum of their totals. */
  lemma {:induction false} PoolTotalAppend(a: seq<LootItem>, b: seq<LootItem>)
    ensures PoolTotal(a + b) == PoolTotal(a) + PoolTotal(b)
  {
    if a == [] {
      assert a + b == b;
    } else {
      assert (a + b)[1..] == a[1..] + b;
      PoolTotalAppend(a[1..], b);
    }
  }

  /** With no negative quantity, the total is at least each item's quantity. */
  lemma {:induction false} PoolTotalBounds(items: seq<LootItem>)
    requires forall i :: 0 <= i < |items| ==> items[i].quantity >= 0
    ensures PoolTotal(items) >= 0
    ensures forall i :: 0 <= i < |items| ==> items[i].quantity <= PoolTotal(items)
  {
    if items != [] {
      PoolTotalBounds(items[1..]);
      forall i | 1 <= i < |items| ensures items[i].quantity <= PoolTotal(items) {
        assert items[i] == items[1..][i - 1];
      }
    }
  }
}
