/** The values the raffle tab derives from the state it is given: the largest selectable
    quantity, the Start button's enablement, the dropdown's toggle guard, the slice angles,
    the wheel labels, the colour cycle and the per-item quantity controls. */
module RaffleTab {
  import opened Constants
  import opened Raffle

  /** A quantity bound that may be `Infinity`, as `Math.min()` of no values is. */
  datatype Bound = Finite(v: int) | PosInfinity

  /** `maxQty`: 1 with nothing selected; otherwise `Math.min` of the selected items'
      quantities, which is `Infinity` when no selected id names an item. */
  function MaxQty(loot: seq<LootItem>, selected: seq<string>): (b: Bound)
    ensures selected == [] ==> b == Finite(1)
    ensures selected != [] && SelectedItems(loot, selected) == [] ==> b == PosInfinity
    ensures selected != [] && SelectedItems(loot, selected) != [] ==>
      && b.Finite?
      && (exists j :: 0 <= j < |loot| && loot[j].id in selected && loot[j].quantity == b.v)
      && (forall j :: 0 <= j < |loot| && loot[j].id in selected ==> b.v <= loot[j].quantity)
  {
    if selected == [] then Finite(1)
    else if SelectedItems(loot, selected) == [] then PosInfinity
    else Finite(NewMax(loot, selected))
  }

  /** `disabled={isRaffling || selectedItemIds.length === 0 || eligibleParticipants.length === 0}`. */
  function StartDisabled(isRaffling: bool, selected: seq<string>, eligible: seq<Participant>): bool
  {
    isRaffling || |selected| == 0 || |eligible| == 0
  }

  /** The Start button is enabled exactly when `runRaffle`'s guard lets it go ahead. */
  lemma StartEnabledIffGuard(isRaffling: bool, selected: seq<string>, eligible: seq<Participant>)
    ensures !StartDisabled(isRaffling, selected, eligible) <==> RaffleGuard(selected, eligible, isRaffling)
  {
  }

  /** A click on an item of the loot dropdown: `item.quantity > 0 && onToggleItemSelection(item.id)`. */
  function DropdownClick(item: LootItem, selected: seq<string>): (r: seq<string>)
    ensures item.quantity > 0 ==> r == Toggle(selected, item.id)
    ensures item.quantity <= 0 ==> r == selected
  {
    if item.quantity > 0 then Toggle(selected, item.id) else selected
  }

  /** An item without stock never enters the selection from the dropdown, and a click
      never changes whether any other id is selected. */
  lemma EmptyItemNeverSelected(item: LootItem, selected: seq<string>)
    requires item.quantity <= 0 && item.id !in selected
    ensures item.id !in DropdownClick(item, selected)
  {
  }

  /** Only the clicked id can change its membership. */
  lemma DropdownClickTouchesOnlyItem(item: LootItem, selected: seq<string>, other: string)
    requires other != item.id
    ensures other in DropdownClick(item, selected) <==> other in selected
  {
    if item.quantity > 0 && other in selected {
      var i :| 0 <= i < |selected| && selected[i] == other;
      assert selected[i] in Toggle(selected, item.id);
    }
  }

  /** `midAngle = i * sliceAngle + sliceAngle / 2` with `sliceAngle = 360 / n`. */
  function MidAngle(i: nat, n: nat): (a: real)
    requires n > 0
    ensures i < n ==> 0.0 < a < 360.0
  {
    var sliceAngle := 360.0 / n as real;
    assert sliceAngle == SliceAngle(n);
    assert i as real * sliceAngle + sliceAngle / 2.0 == CenterAngle(i, n);
    i as real * sliceAngle + sliceAngle / 2.0
  }

  /** The label of slice `i` is drawn at the angle the spin brings under the indicator. */
  lemma MidAngleIsCenterAngle(i: nat, n: nat)
    requires n > 0
    ensures MidAngle(i, n) == CenterAngle(i, n)
  {
  }

  /** `name.length > 15 ? name.substring(0, 12) + ".." : name`. */
  function WheelLabel(name: string): (r: string)
    ensures |name| <= 15 ==> r == name
    ensures |name| > 15 ==> |r| == 14 && r[..12] == name[..12] && r[12..] == ".."
    ensures |r| <= 15
  {
    if |name| > 15 then name[..12] + ".." else name
  }

  /** A label is short enough to be shown as it is. */
  lemma WheelLabelIdempotent(name: string)
    ensures WheelLabel(WheelLabel(name)) == WheelLabel(name)
  {
  }

  /** `i % WHEEL_COLORS.length`. */
  function ColorIndex(i: nat): (c: nat)
    ensures c < |WheelColors|
  {
    i % |WheelColors|
  }

  /** The colour of slice or entry `i`. */
  function WheelColor(i: nat): (color: string)
    ensures color in WheelColors
  {
    WheelColors[ColorIndex(i)]
  }

  /** The colours repeat every eight slices, and eight consecutive slices all differ. */
  lemma ColorsCycle(i: nat, j: nat)
    ensures ColorIndex(i + |WheelColors|) == ColorIndex(i)
    ensures i < j < i + |WheelColors| ==> WheelColor(i) != WheelColor(j)
  {
    if i < j < i + |WheelColors| {
      assert ColorIndex(i) != ColorIndex(j) by {
        var q := i / 8;
        if j / 8 == q {
          assert j % 8 - i % 8 == j - i;
        } else {
          assert j / 8 == q + 1;
          assert i % 8 - j % 8 == 8 - (j - i);
        }
      }
    }
  }

  /** `itemQuantities[item.id] ?? 1`: the amount the per-item control shows. */
  function DisplayedItemQty(overrides: map<string, int>, id: string): (q: int)
    ensures id in overrides ==> q == overrides[id]
    ensures id !in overrides ==> q == 1
  {
    if id in overrides then overrides[id] else 1
  }

  /** The control and the engine read an override differently: with no override the
      control shows 1 while the winner gets the shared quantity, and an override of 0
      shows 0 while the winner again gets the shared quantity. */
  lemma DisplayedQtyDiffersFromGiven(overrides: map<string, int>, shared: int, id: string)
    ensures id !in overrides ==> DisplayedItemQty(overrides, id) == 1 && AmountToGive(overrides, shared, id) == shared
    ensures id in overrides && overrides[id] == 0 ==>
      DisplayedItemQty(overrides, id) == 0 && AmountToGive(overrides, shared, id) == shared
    ensures id in overrides && overrides[id] != 0 ==>
      DisplayedItemQty(overrides, id) == AmountToGive(overrides, shared, id)
  {
  }

  /** The slider's range, `min={1} max={item.quantity}`. */
  predicate SliderAccepts(item: LootItem, v: int)
  {
    1 <= v <= item.quantity
  }

  /** A per-item amount set from the slider never exceeds the stock, so the settle step
      takes exactly that amount from the item without clamping at zero. */
  lemma SliderAmountNeverOverdraws(item: LootItem, overrides: map<string, int>, shared: int, selected: seq<string>)
    requires item.id in overrides && SliderAccepts(item, overrides[item.id])
    requires item.id in selected
    ensures AfterWin(item, selected, overrides, shared).quantity == item.quantity - overrides[item.id]
  {
  }
}
