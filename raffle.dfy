/** The values the main page computes for its handlers and for `runRaffle`: eligibility,
    toggling, removal by id, the per-item amount, the stock decrement, the post-win
    selection and shared quantity, the history record, and the wheel arithmetic. */
module Raffle {
  import opened Wrappers
  import opened Constants
  import opened Seqs
  import opened Text
  import opened Helpers

  // ---------------------------------------------------------------------------
  // eligibility and toggling

  /** `getEligibleParticipants`: everybody when no role filter is set; otherwise the
      participants whose role is in the filter, in list order. */
  function EligibleParticipants(participants: seq<Participant>, filterRoles: seq<ClassRole>): (r: seq<Participant>)
    ensures filterRoles == [] ==> r == participants
    ensures filterRoles != [] ==>
      forall i :: 0 <= i < |r| ==> r[i] in participants && r[i].role in filterRoles
    ensures filterRoles != [] ==>
      forall i :: 0 <= i < |participants| && participants[i].role in filterRoles ==> participants[i] in r
    ensures IsSubsequence(r, participants)
  {
    if |filterRoles| == 0 then
      SubsequenceReflexive(participants);
      participants
    else
      Filter(participants, (p: Participant) => p.role in filterRoles)
  }

  /** `xs.filter(y => y !== x)`. */
  function Without<T(==)>(xs: seq<T>, x: T): (r: seq<T>)
    ensures x !in r
    ensures forall i :: 0 <= i < |r| ==> r[i] in xs
    ensures forall i :: 0 <= i < |xs| && xs[i] != x ==> xs[i] in r
    ensures IsSubsequence(r, xs)
  {
    if xs == [] then []
    else if xs[0] == x then Without(xs[1..], x)
    else [xs[0]] + Without(xs[1..], x)
  }

  /** Removing a value that does not occur changes nothing. */
  lemma {:induction false} WithoutAbsent<T>(xs: seq<T>, x: T)
    requires x !in xs
    ensures Without(xs, x) == xs
  {
    if xs != [] {
      assert xs[0] != x;
      WithoutAbsent(xs[1..], x);
    }
  }

  /** Removing from a concatenation removes from both parts. */
  lemma {:induction false} WithoutAppend<T>(a: seq<T>, b: seq<T>, x: T)
    ensures Without(a + b, x) == Without(a, x) + Without(b, x)
  {
    if a == [] {
      assert a + b == b;
    } else {
      assert (a + b)[0] == a[0];
      assert (a + b)[1..] == a[1..] + b;
      WithoutAppend(a[1..], b, x);
    }
  }

  /** The toggle of `toggleRoleFilter` and `toggleItemSelection`: a present value is
      removed (every copy of it), an absent one is appended. */
  function Toggle<T(==)>(xs: seq<T>, x: T): (r: seq<T>)
    ensures x in r <==> x !in xs
    ensures x !in xs ==> r == xs + [x]
    ensures x in xs ==> IsSubsequence(r, xs)
    ensures forall i :: 0 <= i < |xs| && xs[i] != x ==> xs[i] in r
    ensures forall i :: 0 <= i < |r| && r[i] != x ==> r[i] in xs
  {
    if x in xs then Without(xs, x) else xs + [x]
  }

  /** Toggling an absent value twice gives the list back. */
  lemma ToggleTwiceRestores<T>(xs: seq<T>, x: T)
    requires x !in xs
    ensures Toggle(Toggle(xs, x), x) == xs
  {
    WithoutAppend(xs, [x], x);
    WithoutAbsent(xs, x);
    assert Without([x], x) == [];
    assert xs + [] == xs;
  }

  // ---------------------------------------------------------------------------
  // removal by id

  /** `lootItems.filter(i => i.id !== id)`. */
  function RemoveItemById(items: seq<LootItem>, id: string): (r: seq<LootItem>)
    ensures forall i :: 0 <= i < |r| ==> r[i].id != id && r[i] in items
    ensures forall i :: 0 <= i < |items| && items[i].id != id ==> items[i] in r
    ensures IsSubsequence(r, items)
  {
    Filter(items, (i: LootItem) => i.id != id)
  }

  /** `participants.filter(p => p.id !== id)`. */
  function RemoveParticipantById(ps: seq<Participant>, id: string): (r: seq<Participant>)
    ensures forall i :: 0 <= i < |r| ==> r[i].id != id && r[i] in ps
    ensures forall i :: 0 <= i < |ps| && ps[i].id != id ==> ps[i] in r
    ensures IsSubsequence(r, ps)
  {
    Filter(ps, (p: Participant) => p.id != id)
  }

  /** Removing an id nobody has leaves the participants as they are. */
  lemma RemoveAbsentParticipant(ps: seq<Participant>, id: string)
    requires forall i :: 0 <= i < |ps| ==> ps[i].id != id
    ensures RemoveParticipantById(ps, id) == ps
  {
    FilterKeepsAll(ps, (p: Participant) => p.id != id);
  }

  // ---------------------------------------------------------------------------
  // the amounts given and the stock decrement

  /** `itemQuantities[id] || raffleQtyToGive`: a missing override and an override of 0
      both fall back to the shared quantity. */
  function AmountToGive(overrides: map<string, int>, shared: int, id: string): (a: int)
    ensures id in overrides && overrides[id] != 0 ==> a == overrides[id]
    ensures id !in overrides || overrides[id] == 0 ==> a == shared
  {
    if id in overrides && overrides[id] != 0 then overrides[id] else shared
  }

  /** With a non-negative shared quantity and non-negative overrides, the amount given is
      non-negative. */
  lemma AmountNonNegative(overrides: map<string, int>, shared: int, id: string)
    requires shared >= 0
    requires forall k :: k in overrides ==> overrides[k] >= 0
    ensures AmountToGive(overrides, shared, id) >= 0
  {
  }

  /** `Math.max(0, a)`. */
  function Max0(a: int): (r: int)
    ensures r >= 0 && r >= a
    ensures r == a || r == 0
  {
    if a < 0 then 0 else a
  }

  /** One item after the win: a selected item loses the amount given (never below zero);
      any other item is returned as it was. */
  function AfterWin(item: LootItem, selected: seq<string>, overrides: map<string, int>, shared: int): (r: LootItem)
    ensures r == item.(quantity := r.quantity)
    ensures item.id !in selected ==> r == item
    ensures item.id in selected ==>
      r.quantity == Max0(item.quantity - AmountToGive(overrides, shared, item.id))
  {
    if item.id in selected then
      item.(quantity := Max0(item.quantity - AmountToGive(overrides, shared, item.id)))
    else item
  }

  /** The `lootItems.map` of the settle step that decreases stock. */
  function DecrementStock(loot: seq<LootItem>, selected: seq<string>, overrides: map<string, int>, shared: int): (r: seq<LootItem>)
    ensures |r| == |loot|
    ensures forall i {:trigger r[i]} :: 0 <= i < |loot| ==> r[i] == loot[i].(quantity := r[i].quantity)
    ensures forall i {:trigger r[i]} :: 0 <= i < |loot| && loot[i].id !in selected ==> r[i] == loot[i]
    ensures forall i {:trigger r[i]} :: 0 <= i < |loot| && loot[i].id in selected ==>
      r[i].quantity >= 0 &&
      r[i].quantity == Max0(loot[i].quantity - AmountToGive(overrides, shared, loot[i].id))
  {
    seq(|loot|, i requires 0 <= i < |loot| => AfterWin(loot[i], selected, overrides, shared))
  }

  /** Stock without negative quantities stays without them, and no quantity grows when the
      amounts are non-negative. */
  lemma DecrementBounds(loot: seq<LootItem>, selected: seq<string>, overrides: map<string, int>, shared: int)
    requires forall i :: 0 <= i < |loot| ==> loot[i].quantity >= 0
    requires shared >= 0
    requires forall k :: k in overrides ==> overrides[k] >= 0
    ensures var r := DecrementStock(loot, selected, overrides, shared);
      forall i :: 0 <= i < |r| ==> 0 <= r[i].quantity <= loot[i].quantity
  {
    var r := DecrementStock(loot, selected, overrides, shared);
    forall i | 0 <= i < |r| ensures 0 <= r[i].quantity <= loot[i].quantity {
      AmountNonNegative(overrides, shared, loot[i].id);
    }
  }

  // ---------------------------------------------------------------------------
  // selection, won items, bundle name and history record

  /** `lootItems.filter(i => selectedItemIds.includes(i.id))`. */
  function SelectedItems(loot: seq<LootItem>, selected: seq<string>): (r: seq<LootItem>)
    ensures forall i :: 0 <= i < |r| ==> r[i] in loot && r[i].id in selected
    ensures forall i :: 0 <= i < |loot| && loot[i].id in selected ==> loot[i] in r
    ensures IsSubsequence(r, loot)
  {
    Filter(loot, (i: LootItem) => i.id in selected)
  }

  /** After the decrement the same ids are selected, so there is a selected item after it
      exactly when there was one before. */
  lemma SelectionSurvivesDecrement(loot: seq<LootItem>, selected: seq<string>, overrides: map<string, int>, shared: int)
    ensures SelectedItems(DecrementStock(loot, selected, overrides, shared), selected) != []
        <==> SelectedItems(loot, selected) != []
  {
    var r := DecrementStock(loot, selected, overrides, shared);
    if SelectedItems(loot, selected) != [] {
      var it := SelectedItems(loot, selected)[0];
      var j :| 0 <= j < |loot| && loot[j] == it;
      assert r[j] in SelectedItems(r, selected);
    }
    if SelectedItems(r, selected) != [] {
      var it := SelectedItems(r, selected)[0];
      var j :| 0 <= j < |r| && r[j] == it;
      assert loot[j] in SelectedItems(loot, selected);
    }
  }

  /** The `wonItems` of the result: each selected item's name, rarity and amount given. */
  function WonItems(items: seq<LootItem>, overrides: map<string, int>, shared: int): (r: seq<WonItemDetail>)
    ensures |r| == |items|
    ensures forall i :: 0 <= i < |items| ==>
      r[i] == WonItemDetail(items[i].name, items[i].rarity, AmountToGive(overrides, shared, items[i].id))
  {
    seq(|items|, i requires 0 <= i < |items| =>
      WonItemDetail(items[i].name, items[i].rarity, AmountToGive(overrides, shared, items[i].id)))
  }

  /** `items.map(i => i.name)`. */
  function Names(items: seq<LootItem>): (r: seq<string>)
    ensures |r| == |items|
    ensures forall i :: 0 <= i < |items| ==> r[i] == items[i].name
  {
    seq(|items|, i requires 0 <= i < |items| => items[i].name)
  }

  /** The history `itemName`: the names joined with " + ", prefixed with "Bundle: " when
      there is more than one. */
  function BundleName(items: seq<LootItem>): (r: string)
    ensures |items| == 0 ==> r == ""
    ensures |items| == 1 ==> r == items[0].name
    ensures |items| > 1 ==> r == "Bundle: " + Join(Names(items), " + ")
  {
    var joined := Join(Names(items), " + ");
    if |items| > 1 then "Bundle: " + joined else joined
  }

  /** Every selected item's name appears in the bundle name. */
  lemma BundleNameMentionsEachItem(items: seq<LootItem>, k: nat)
    requires k < |items|
    ensures Contains(BundleName(items), items[k].name)
  {
    var names := Names(items);
    var p := items[k].name;
    assert names[k] == p;
    JoinedPartIsInfix(names, " + ", p);
    var joined := Join(names, " + ");
    var off :| 0 <= off <= |joined| - |p| && OccursAt(joined, p, off);
    if |items| > 1 {
      var prefix: string := "Bundle: ";
      var whole := prefix + joined;
      assert whole[|prefix| + off..|prefix| + off + |p|] == joined[off..off + |p|];
      assert OccursAt(whole, p, |prefix| + off);
    }
  }

  /** The history record: the bundle name, the highest rarity of the bundle, the winner's
      name and role, and the shared quantity (not the per-item amounts). */
  function MakeHistoryRecord(id: string, items: seq<LootItem>, winner: Participant, shared: int,
                             timestamp: string, displayTime: string, displayDate: string): (h: HistoryItem)
    ensures h.id == id && h.itemName == BundleName(items)
    ensures h.rarity == GetHighestRarity(items)
    ensures h.winnerName == winner.name && h.winnerRole == winner.role
    ensures h.quantityWon == shared
    ensures h.timestamp == timestamp && h.displayTime == displayTime && h.displayDate == displayDate
  {
    HistoryItem(id, BundleName(items), GetHighestRarity(items), winner.name, winner.role, shared,
                timestamp, displayTime, displayDate)
  }

  // ---------------------------------------------------------------------------
  // validation after the win

  /** A selected item with this id is at zero. */
  predicate RanOut(newLoot: seq<LootItem>, selected: seq<string>, id: string)
  {
    exists j :: 0 <= j < |newLoot| && newLoot[j].id == id && id in selected && newLoot[j].quantity == 0
  }

  /** The ids of the selected items the decrement left at zero, in loot order. */
  function RanOutIds(newLoot: seq<LootItem>, selected: seq<string>): (r: seq<string>)
    ensures forall id :: id in r <==> RanOut(newLoot, selected, id)
  {
    var ranOut := Filter(newLoot, (i: LootItem) => i.id in selected && i.quantity == 0);
    var ids := seq(|ranOut|, k requires 0 <= k < |ranOut| => ranOut[k].id);
    forall id | RanOut(newLoot, selected, id) ensures id in ids {
      var j :| 0 <= j < |newLoot| && newLoot[j].id == id && id in selected && newLoot[j].quantity == 0;
      assert newLoot[j] in ranOut;
      var k :| 0 <= k < |ranOut| && ranOut[k] == newLoot[j];
      assert ids[k] == id;
    }
    forall id | id in ids ensures RanOut(newLoot, selected, id) {
      var k :| 0 <= k < |ids| && ids[k] == id;
      assert ranOut[k] in newLoot;
    }
    ids
  }

  /** Some id ran out exactly when some selected item is at zero. */
  lemma RanOutIffSomeAtZero(newLoot: seq<LootItem>, selected: seq<string>)
    ensures RanOutIds(newLoot, selected) != [] <==>
      exists j :: 0 <= j < |newLoot| && newLoot[j].id in selected && newLoot[j].quantity == 0
  {
    var ranOut := RanOutIds(newLoot, selected);
    if exists j :: 0 <= j < |newLoot| && newLoot[j].id in selected && newLoot[j].quantity == 0 {
      var j :| 0 <= j < |newLoot| && newLoot[j].id in selected && newLoot[j].quantity == 0;
      assert RanOut(newLoot, selected, newLoot[j].id);
    }
    if ranOut != [] {
      assert RanOut(newLoot, selected, ranOut[0]);
    }
  }

  /** `Math.min(...)` of the selected quantities after the decrement. */
  function NewMax(newLoot: seq<LootItem>, selected: seq<string>): (m: int)
    requires SelectedItems(newLoot, selected) != []
    ensures exists j :: 0 <= j < |newLoot| && newLoot[j].id in selected && newLoot[j].quantity == m
    ensures forall j :: 0 <= j < |newLoot| && newLoot[j].id in selected ==> m <= newLoot[j].quantity
  {
    var items := SelectedItems(newLoot, selected);
    var qs := seq(|items|, i requires 0 <= i < |items| => items[i].quantity);
    var m := MinOf(qs);
    var i :| 0 <= i < |qs| && qs[i] == m;
    assert items[i] in newLoot;
    forall j | 0 <= j < |newLoot| && newLoot[j].id in selected ensures m <= newLoot[j].quantity {
      var k :| 0 <= k < |items| && items[k] == newLoot[j];
      assert qs[k] == newLoot[j].quantity;
    }
    m
  }

  /** The selection after the win: the current selection without the ids that ran out. */
  function PostWinSelection(current: seq<string>, ranOut: seq<string>): (r: seq<string>)
    ensures forall i :: 0 <= i < |r| ==> r[i] in current && r[i] !in ranOut
    ensures forall i :: 0 <= i < |current| && current[i] !in ranOut ==> current[i] in r
    ensures IsSubsequence(r, current)
  {
    Filter(current, (id: string) => id !in ranOut)
  }

  /** The shared quantity after the win: 1 when an item ran out; otherwise `newMax` when
      the quantity captured at the start exceeds it, and the current one when it does not. */
  function PostWinQty(snapshotQty: int, currentQty: int, newLoot: seq<LootItem>, selected: seq<string>): (q: int)
    requires SelectedItems(newLoot, selected) != []
    ensures RanOutIds(newLoot, selected) != [] ==> q == 1
    ensures RanOutIds(newLoot, selected) == [] && snapshotQty > NewMax(newLoot, selected) ==>
      q == NewMax(newLoot, selected)
    ensures RanOutIds(newLoot, selected) == [] && snapshotQty <= NewMax(newLoot, selected) ==>
      q == currentQty
  {
    if RanOutIds(newLoot, selected) != [] then 1
    else
      var newMax := NewMax(newLoot, selected);
      if snapshotQty > newMax then newMax else currentQty
  }

  /** When nobody changed the shared quantity during the spin and nothing ran out, it
      becomes the smaller of itself and the least remaining selected quantity. */
  lemma PostWinQtyIsClampedMin(qty: int, newLoot: seq<LootItem>, selected: seq<string>)
    requires SelectedItems(newLoot, selected) != []
    requires RanOutIds(newLoot, selected) == []
    ensures var q := PostWinQty(qty, qty, newLoot, selected);
      && q <= qty
      && (forall j :: 0 <= j < |newLoot| && newLoot[j].id in selected ==> q <= newLoot[j].quantity)
      && (q == qty || exists j :: 0 <= j < |newLoot| && newLoot[j].id in selected && newLoot[j].quantity == q)
  {
  }

  /** When nothing ran out, the new shared quantity is the current one, or else the least
      remaining selected stock, which is then below the captured quantity. */
  lemma PostWinQtyCurrentOrMin(snapshotQty: int, currentQty: int, newLoot: seq<LootItem>, selected: seq<string>)
    requires SelectedItems(newLoot, selected) != []
    requires RanOutIds(newLoot, selected) == []
    ensures var q := PostWinQty(snapshotQty, currentQty, newLoot, selected);
      || q == currentQty
      || (&& q < snapshotQty
          && (exists j :: 0 <= j < |newLoot| && newLoot[j].id in selected && newLoot[j].quantity == q)
          && (forall j :: 0 <= j < |newLoot| && newLoot[j].id in selected ==> q <= newLoot[j].quantity))
  {
  }

  /** An item that ran out is deselected. */
  lemma RanOutDeselected(current: seq<string>, newLoot: seq<LootItem>, selected: seq<string>, j: nat)
    requires j < |newLoot| && newLoot[j].id in selected && newLoot[j].quantity == 0
    ensures newLoot[j].id !in PostWinSelection(current, RanOutIds(newLoot, selected))
  {
    assert RanOut(newLoot, selected, newLoot[j].id);
  }

  // ---------------------------------------------------------------------------
  // the guard of runRaffle

  /** `runRaffle` goes ahead only with a selection, an eligible participant and no raffle
      in progress. */
  predicate RaffleGuard(selected: seq<string>, eligible: seq<Participant>, isRaffling: bool)
  {
    |selected| > 0 && |eligible| > 0 && !isRaffling
  }

  // ---------------------------------------------------------------------------
  // the wheel arithmetic

  /** `Math.floor(draw * n)` for a draw in [0, 1): the winner's index, whose slice of the
      unit interval holds the draw. */
  function WinnerIndex(draw: real, n: nat): (i: nat)
    requires 0.0 <= draw < 1.0 && n > 0
    ensures i < n
    ensures i as real <= draw * n as real < (i + 1) as real
  {
    (draw * n as real).Floor
  }

  /** `5 + Math.floor(draw * 3)`: five to seven full turns. */
  function SpinCount(draw: real): (s: nat)
    requires 0.0 <= draw < 1.0
    ensures 5 <= s <= 7
  {
    5 + (draw * 3.0).Floor
  }

  /** `360 / n`. */
  function SliceAngle(n: nat): (a: real)
    requires n > 0
    ensures a > 0.0 && a * n as real == 360.0
  {
    360.0 / n as real
  }

  /** `i * sliceAngle + sliceAngle / 2`: the middle of slice `i`. */
  function CenterAngle(i: nat, n: nat): (c: real)
    requires n > 0
    ensures i as real * SliceAngle(n) < c < (i + 1) as real * SliceAngle(n)
    ensures i < n ==> 0.0 < c < 360.0
  {
    var slice := SliceAngle(n);
    assert i < n ==> (i + 1) as real * slice <= n as real * slice;
    i as real * slice + slice / 2.0
  }

  /** `Math.trunc`: the integer part, rounding toward zero. */
  function Trunc(x: real): (t: int)
    ensures x >= 0.0 ==> t as real <= x < t as real + 1.0
    ensures x < 0.0 ==> t as real - 1.0 < x <= t as real
  {
    if x >= 0.0 then x.Floor else -((-x).Floor)
  }

  /** JavaScript's `x % 360`, whose result takes the sign of `x`. */
  function JsRem360(x: real): (r: real)
    ensures x >= 0.0 ==> 0.0 <= r < 360.0
    ensures x < 0.0 ==> -360.0 < r <= 0.0
    ensures r == x - 360.0 * Trunc(x / 360.0) as real
  {
    x - 360.0 * Trunc(x / 360.0) as real
  }

  /** A whole number of turns plus a remainder in [0, 360) leaves that remainder. */
  lemma JsRem360Turns(k: int, t: real)
    requires k >= 0 && 0.0 <= t < 360.0
    ensures JsRem360(360.0 * k as real + t) == t
  {
    var x := 360.0 * k as real + t;
    assert x / 360.0 == k as real + t / 360.0;
    assert Trunc(x / 360.0) == k;
  }

  /** `let adjustment = target - current; if (adjustment < 0) adjustment += 360`. */
  function Adjustment(target: real, current: real): (a: real)
    ensures 0.0 <= target < 360.0 && 0.0 <= current < 360.0 ==> 0.0 <= a < 360.0
    ensures a == target - current || a == target - current + 360.0
  {
    var adjustment := target - current;
    if adjustment < 0.0 then adjustment + 360.0 else adjustment
  }

  /** `(360 - centerAngle) % 360`: where the wheel must stop for the winner's slice. */
  function TargetAlignment(i: nat, n: nat): (t: real)
    requires n > 0
    ensures i < n ==> 0.0 <= t < 360.0
  {
    JsRem360(360.0 - CenterAngle(i, n))
  }

  /** `wheelRotation + 360 * spinCount + adjustment`: from a non-negative rotation, the wheel
      turns forward the whole spins and then less than one more turn. */
  function FinalRotation(rotation: real, i: nat, n: nat, spins: nat): (r: real)
    requires n > 0
    ensures i < n && rotation >= 0.0 ==>
      rotation + 360.0 * spins as real <= r < rotation + 360.0 * spins as real + 360.0
  {
    rotation + 360.0 * spins as real + Adjustment(TargetAlignment(i, n), JsRem360(rotation))
  }

  /** For the winner's slice, the target alignment is `360 - centerAngle` itself. */
  lemma TargetAlignmentValue(i: nat, n: nat)
    requires i < n
    ensures TargetAlignment(i, n) == 360.0 - CenterAngle(i, n)
  {
    JsRem360Turns(0, 360.0 - CenterAngle(i, n));
  }

  /** From a non-negative rotation, the wheel turns forward by the spin count's full turns
      plus an adjustment in [0, 360); it stops at the target alignment, which puts the
      middle of the winner's slice under the indicator. */
  lemma FinalRotationLandsOnWinner(rotation: real, i: nat, n: nat, spins: nat)
    requires rotation >= 0.0 && i < n
    ensures var a := Adjustment(TargetAlignment(i, n), JsRem360(rotation)); 0.0 <= a < 360.0
    ensures var f := FinalRotation(rotation, i, n, spins);
      360.0 * spins as real <= f - rotation < 360.0 * spins as real + 360.0
    ensures JsRem360(FinalRotation(rotation, i, n, spins)) == TargetAlignment(i, n)
    ensures JsRem360(FinalRotation(rotation, i, n, spins) + CenterAngle(i, n)) == 0.0
  {
    TargetAlignmentValue(i, n);
    var target := TargetAlignment(i, n);
    var current := JsRem360(rotation);
    var turns := Trunc(rotation / 360.0);
    assert rotation == 360.0 * turns as real + current;
    var f := FinalRotation(rotation, i, n, spins);
    var extra := if target - current < 0.0 then 1 else 0;
    assert f == 360.0 * (turns + spins + extra) as real + target;
    JsRem360Turns(turns + spins + extra, target);
    assert f + CenterAngle(i, n) == 360.0 * (turns + spins + extra + 1) as real;
    JsRem360Turns(turns + spins + extra + 1, 0.0);
  }
}
