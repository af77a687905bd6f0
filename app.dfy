/** The main page: the application state, its handlers, and the two phases of a raffle.
    `Start` checks the guard, draws the winner, sets the wheel's rotation and captures the
    values the deferred callback will read; `Settle` is that callback. */
module App {
  import opened Wrappers
  import opened Constants
  import opened Helpers
  import opened Raffle

  /** The values the 5 s callback closes over when the raffle starts. */
  datatype Snapshot = Snapshot(
    winner: Participant,
    lootItems: seq<LootItem>,
    selectedItemIds: seq<string>,
    itemQuantities: map<string, int>,
    raffleQtyToGive: int,
    history: seq<HistoryItem>,
    removeWinner: bool)

  /** Every field of the page's state, as one value. */
  datatype State = State(
    lootItems: seq<LootItem>,
    participants: seq<Participant>,
    history: seq<HistoryItem>,
    selectedItemIds: seq<string>,
    filterRoles: seq<ClassRole>,
    raffleQtyToGive: int,
    itemQuantities: map<string, int>,
    isRaffling: bool,
    raffleResult: Option<RaffleResult>,
    wheelRotation: real,
    removeWinner: bool,
    pending: Option<Snapshot>)

  /** A backup as `restoreData` receives it; a missing list is `None`. */
  datatype Backup = Backup(
    loot: Option<seq<LootItem>>,
    participants: Option<seq<Participant>>,
    history: Option<seq<HistoryItem>>)

  /** The wheel never turns backward from its initial 0, and a callback is pending only
      while a raffle is in progress. */
  predicate Consistent(st: State)
  {
    st.wheelRotation >= 0.0 && (st.pending.Some? ==> st.isRaffling)
  }

  /** `getEligibleParticipants` on a state. */
  function Eligible(st: State): seq<Participant>
  {
    EligibleParticipants(st.participants, st.filterRoles)
  }

  /** The synchronous part of `runRaffle`. When the guard fails the state is returned
      unchanged; otherwise the raffle is marked in progress, the result cleared, the wheel
      set to its final rotation and the callback's values captured. */
  function StartStep(st: State, drawWinner: real, drawSpin: real): (r: State)
    requires 0.0 <= drawWinner < 1.0 && 0.0 <= drawSpin < 1.0
    ensures !RaffleGuard(st.selectedItemIds, Eligible(st), st.isRaffling) ==> r == st
    ensures RaffleGuard(st.selectedItemIds, Eligible(st), st.isRaffling) ==>
      && r.isRaffling && r.raffleResult == None && r.pending.Some?
      && r == st.(isRaffling := true, raffleResult := None, wheelRotation := r.wheelRotation, pending := r.pending)
      && r.pending.value.winner in Eligible(st)
      && r.pending.value == Snapshot(r.pending.value.winner, st.lootItems, st.selectedItemIds,
                                     st.itemQuantities, st.raffleQtyToGive, st.history, st.removeWinner)
  {
    var eligible := Eligible(st);
    if !RaffleGuard(st.selectedItemIds, eligible, st.isRaffling) then st
    else
      var n := |eligible|;
      var winnerIndex := WinnerIndex(drawWinner, n);
      var winner := eligible[winnerIndex];
      var finalRotation := FinalRotation(st.wheelRotation, winnerIndex, n, SpinCount(drawSpin));
      st.(isRaffling := true, raffleResult := None, wheelRotation := finalRotation,
          pending := Some(Snapshot(winner, st.lootItems, st.selectedItemIds, st.itemQuantities,
                                   st.raffleQtyToGive, st.history, st.removeWinner)))
  }

  /** The state after a start that passes the guard, field by field. */
  lemma StartStepTaken(st: State, drawWinner: real, drawSpin: real)
    requires 0.0 <= drawWinner < 1.0 && 0.0 <= drawSpin < 1.0
    requires RaffleGuard(st.selectedItemIds, Eligible(st), st.isRaffling)
    ensures var n := |Eligible(st)|;
      var i := WinnerIndex(drawWinner, n);
      StartStep(st, drawWinner, drawSpin) ==
        st.(isRaffling := true, raffleResult := None,
            wheelRotation := FinalRotation(st.wheelRotation, i, n, SpinCount(drawSpin)),
            pending := Some(Snapshot(Eligible(st)[i], st.lootItems, st.selectedItemIds, st.itemQuantities,
                                     st.raffleQtyToGive, st.history, st.removeWinner)))
  {
  }

  /** A started raffle turns the wheel forward by five to seven full turns and less than
      one more, and stops with the middle of the winner's slice under the indicator. */
  lemma StartSpinsToWinner(st: State, drawWinner: real, drawSpin: real)
    requires 0.0 <= drawWinner < 1.0 && 0.0 <= drawSpin < 1.0
    requires st.wheelRotation >= 0.0
    requires RaffleGuard(st.selectedItemIds, Eligible(st), st.isRaffling)
    ensures var r := StartStep(st, drawWinner, drawSpin);
      var n := |Eligible(st)|;
      var i := WinnerIndex(drawWinner, n);
      && r.pending.value.winner == Eligible(st)[i]
      && 1800.0 <= r.wheelRotation - st.wheelRotation < 2880.0
      && JsRem360(r.wheelRotation + CenterAngle(i, n)) == 0.0
  {
    var n := |Eligible(st)|;
    var i := WinnerIndex(drawWinner, n);
    FinalRotationLandsOnWinner(st.wheelRotation, i, n, SpinCount(drawSpin));
  }

  /** Starting keeps the state consistent. */
  lemma StartKeepsConsistent(st: State, drawWinner: real, drawSpin: real)
    requires 0.0 <= drawWinner < 1.0 && 0.0 <= drawSpin < 1.0
    requires Consistent(st)
    ensures Consistent(StartStep(st, drawWinner, drawSpin))
  {
    if RaffleGuard(st.selectedItemIds, Eligible(st), st.isRaffling) {
      StartSpinsToWinner(st, drawWinner, drawSpin);
    }
  }

  /** The deferred callback of `runRaffle`, reading the captured values for the loot, the
      selection it filters by, the amounts, the history and `removeWinner`, and the
      current values where it uses a functional update (the selection it prunes and the
      participants) or leaves a value alone (the shared quantity). With no selected item
      left it does nothing, and the raffle stays in progress. */
  function SettleStep(st: State, recordId: string, timestamp: string, displayTime: string, displayDate: string): (r: State)
    requires st.pending.Some?
    ensures r.pending == None
    ensures SelectedItems(st.pending.value.lootItems, st.pending.value.selectedItemIds) == [] ==>
      r == st.(pending := None)
    ensures SelectedItems(st.pending.value.lootItems, st.pending.value.selectedItemIds) != [] ==>
      && !r.isRaffling
      && r.filterRoles == st.filterRoles && r.itemQuantities == st.itemQuantities
      && r.wheelRotation == st.wheelRotation && r.removeWinner == st.removeWinner
  {
    var s := st.pending.value;
    var items := SelectedItems(s.lootItems, s.selectedItemIds);
    if items == [] then st.(pending := None)
    else
      var won := WonItems(items, s.itemQuantities, s.raffleQtyToGive);
      var record := MakeHistoryRecord(recordId, items, s.winner, s.raffleQtyToGive, timestamp, displayTime, displayDate);
      var newLoot := DecrementStock(s.lootItems, s.selectedItemIds, s.itemQuantities, s.raffleQtyToGive);
      var ranOut := RanOutIds(newLoot, s.selectedItemIds);
      SelectionSurvivesDecrement(s.lootItems, s.selectedItemIds, s.itemQuantities, s.raffleQtyToGive);
      st.(
        raffleResult := Some(RaffleResult(s.winner, won)),
        isRaffling := false,
        history := [record] + s.history,
        lootItems := newLoot,
        selectedItemIds := if ranOut != [] then PostWinSelection(st.selectedItemIds, ranOut) else st.selectedItemIds,
        raffleQtyToGive := PostWinQty(s.raffleQtyToGive, st.raffleQtyToGive, newLoot, s.selectedItemIds),
        participants := if s.removeWinner then RemoveParticipantById(st.participants, s.winner.id) else st.participants,
        pending := None)
  }

  /** The state after a settle that found selected items, field by field. */
  lemma SettleStepFields(st: State, recordId: string, timestamp: string, displayTime: string, displayDate: string)
    requires st.pending.Some?
    requires SelectedItems(st.pending.value.lootItems, st.pending.value.selectedItemIds) != []
    ensures var s := st.pending.value;
      var items := SelectedItems(s.lootItems, s.selectedItemIds);
      var newLoot := DecrementStock(s.lootItems, s.selectedItemIds, s.itemQuantities, s.raffleQtyToGive);
      var ranOut := RanOutIds(newLoot, s.selectedItemIds);
      var r := SettleStep(st, recordId, timestamp, displayTime, displayDate);
      && SelectedItems(newLoot, s.selectedItemIds) != []
      && r.raffleResult == Some(RaffleResult(s.winner, WonItems(items, s.itemQuantities, s.raffleQtyToGive)))
      && r.history == [MakeHistoryRecord(recordId, items, s.winner, s.raffleQtyToGive, timestamp, displayTime, displayDate)] + s.history
      && r.lootItems == newLoot
      && (ranOut != [] ==> r.selectedItemIds == PostWinSelection(st.selectedItemIds, ranOut) && r.raffleQtyToGive == 1)
      && (ranOut == [] ==> r.selectedItemIds == st.selectedItemIds)
      && (ranOut == [] && s.raffleQtyToGive > NewMax(newLoot, s.selectedItemIds) ==> r.raffleQtyToGive == NewMax(newLoot, s.selectedItemIds))
      && (ranOut == [] && s.raffleQtyToGive <= NewMax(newLoot, s.selectedItemIds) ==> r.raffleQtyToGive == st.raffleQtyToGive)
      && (s.removeWinner ==> r.participants == RemoveParticipantById(st.participants, s.winner.id))
      && (!s.removeWinner ==> r.participants == st.participants)
      && r == st.(raffleResult := r.raffleResult, isRaffling := false, history := r.history, lootItems := r.lootItems,
                  selectedItemIds := r.selectedItemIds, raffleQtyToGive := r.raffleQtyToGive,
                  participants := r.participants, pending := None)
  {
    var s := st.pending.value;
    SelectionSurvivesDecrement(s.lootItems, s.selectedItemIds, s.itemQuantities, s.raffleQtyToGive);
  }

  /** Settling prepends exactly one record to the captured history: the bundle's name, its
      highest rarity, the winner, and the shared quantity. */
  lemma SettlePrependsRecord(st: State, recordId: string, timestamp: string, displayTime: string, displayDate: string)
    requires st.pending.Some?
    requires SelectedItems(st.pending.value.lootItems, st.pending.value.selectedItemIds) != []
    ensures var s := st.pending.value;
      var items := SelectedItems(s.lootItems, s.selectedItemIds);
      var r := SettleStep(st, recordId, timestamp, displayTime, displayDate);
      && |r.history| == |s.history| + 1 && r.history[1..] == s.history
      && r.history[0].itemName == BundleName(items)
      && r.history[0].rarity == GetHighestRarity(items)
      && r.history[0].winnerName == s.winner.name && r.history[0].winnerRole == s.winner.role
      && r.history[0].quantityWon == s.raffleQtyToGive
      && r.raffleResult == Some(RaffleResult(s.winner, WonItems(items, s.itemQuantities, s.raffleQtyToGive)))
  {
    var r := SettleStep(st, recordId, timestamp, displayTime, displayDate);
    assert r.history[1..] == st.pending.value.history;
  }

  /** Settling takes each selected item's amount from its stock, never below zero, and
      leaves every other item, the length and the order as captured. */
  lemma SettleDecrementsStock(st: State, recordId: string, timestamp: string, displayTime: string, displayDate: string)
    requires st.pending.Some?
    requires SelectedItems(st.pending.value.lootItems, st.pending.value.selectedItemIds) != []
    ensures var s := st.pending.value;
      var r := SettleStep(st, recordId, timestamp, displayTime, displayDate);
      && |r.lootItems| == |s.lootItems|
      && (forall i :: 0 <= i < |s.lootItems| ==> r.lootItems[i] == s.lootItems[i].(quantity := r.lootItems[i].quantity))
      && (forall i :: 0 <= i < |s.lootItems| && s.lootItems[i].id !in s.selectedItemIds ==> r.lootItems[i] == s.lootItems[i])
      && (forall i :: 0 <= i < |s.lootItems| && s.lootItems[i].id in s.selectedItemIds ==>
            r.lootItems[i].quantity >= 0 &&
            r.lootItems[i].quantity == Max0(s.lootItems[i].quantity - AmountToGive(s.itemQuantities, s.raffleQtyToGive, s.lootItems[i].id)))
  {
  }

  /** After settling, a selected item that ran out is no longer selected and the shared
      quantity is 1; the new selection is exactly the current ids that did not run out. */
  lemma SettleDeselectsRanOut(st: State, recordId: string, timestamp: string, displayTime: string, displayDate: string)
    requires st.pending.Some?
    requires SelectedItems(st.pending.value.lootItems, st.pending.value.selectedItemIds) != []
    ensures var s := st.pending.value;
      var r := SettleStep(st, recordId, timestamp, displayTime, displayDate);
      && (forall i :: 0 <= i < |r.selectedItemIds| ==> r.selectedItemIds[i] in st.selectedItemIds)
      && ((exists j :: 0 <= j < |r.lootItems| && r.lootItems[j].id in s.selectedItemIds && r.lootItems[j].quantity == 0) ==>
            r.raffleQtyToGive == 1)
      && (forall j :: 0 <= j < |r.lootItems| && r.lootItems[j].id in s.selectedItemIds && r.lootItems[j].quantity == 0 ==>
            r.lootItems[j].id !in r.selectedItemIds)
      && (forall i :: 0 <= i < |st.selectedItemIds| && !RanOut(r.lootItems, s.selectedItemIds, st.selectedItemIds[i]) ==>
            st.selectedItemIds[i] in r.selectedItemIds)
  {
    var s := st.pending.value;
    var newLoot := DecrementStock(s.lootItems, s.selectedItemIds, s.itemQuantities, s.raffleQtyToGive);
    RanOutIffSomeAtZero(newLoot, s.selectedItemIds);
  }

  /** When no selected item ran out, the selection is kept, and the shared quantity is
      either the current one or, when the captured one exceeded it, the least remaining
      selected stock. When the shared quantity was not changed during the spin, it ends
      as the smaller of itself and the least remaining selected stock. */
  lemma SettleCapsQuantity(st: State, recordId: string, timestamp: string, displayTime: string, displayDate: string)
    requires st.pending.Some?
    requires SelectedItems(st.pending.value.lootItems, st.pending.value.selectedItemIds) != []
    requires var s := st.pending.value;
      var newLoot := DecrementStock(s.lootItems, s.selectedItemIds, s.itemQuantities, s.raffleQtyToGive);
      forall j :: 0 <= j < |newLoot| && newLoot[j].id in s.selectedItemIds ==> newLoot[j].quantity != 0
    ensures var s := st.pending.value;
      var r := SettleStep(st, recordId, timestamp, displayTime, displayDate);
      && r.selectedItemIds == st.selectedItemIds
      && (r.raffleQtyToGive == st.raffleQtyToGive
          || (&& r.raffleQtyToGive < s.raffleQtyToGive
              && (exists j :: 0 <= j < |r.lootItems| && r.lootItems[j].id in s.selectedItemIds &&
                               r.lootItems[j].quantity == r.raffleQtyToGive)
              && (forall j :: 0 <= j < |r.lootItems| && r.lootItems[j].id in s.selectedItemIds ==>
                               r.raffleQtyToGive <= r.lootItems[j].quantity)))
      && (st.raffleQtyToGive == s.raffleQtyToGive ==>
            && r.raffleQtyToGive <= s.raffleQtyToGive
            && (forall j :: 0 <= j < |r.lootItems| && r.lootItems[j].id in s.selectedItemIds ==>
                  r.raffleQtyToGive <= r.lootItems[j].quantity)
            && (r.raffleQtyToGive == s.raffleQtyToGive
                || exists j :: 0 <= j < |r.lootItems| && r.lootItems[j].id in s.selectedItemIds &&
                                 r.lootItems[j].quantity == r.raffleQtyToGive))
  {
    var s := st.pending.value;
    var newLoot := DecrementStock(s.lootItems, s.selectedItemIds, s.itemQuantities, s.raffleQtyToGive);
    var r := SettleStep(st, recordId, timestamp, displayTime, displayDate);
    RanOutIffSomeAtZero(newLoot, s.selectedItemIds);
    SelectionSurvivesDecrement(s.lootItems, s.selectedItemIds, s.itemQuantities, s.raffleQtyToGive);
    assert RanOutIds(newLoot, s.selectedItemIds) == [];
    assert r.lootItems == newLoot && r.selectedItemIds == st.selectedItemIds;
    assert r.raffleQtyToGive == PostWinQty(s.raffleQtyToGive, st.raffleQtyToGive, newLoot, s.selectedItemIds);
    PostWinQtyCurrentOrMin(s.raffleQtyToGive, st.raffleQtyToGive, newLoot, s.selectedItemIds);
    if st.raffleQtyToGive == s.raffleQtyToGive {
      PostWinQtyIsClampedMin(s.raffleQtyToGive, newLoot, s.selectedItemIds);
    }
  }

  /** With `removeWinner` captured as set, exactly the entries with the winner's id leave
      the current participants; otherwise they are left as they are. */
  lemma SettleRemovesOnlyWinner(st: State, recordId: string, timestamp: string, displayTime: string, displayDate: string)
    requires st.pending.Some?
    requires SelectedItems(st.pending.value.lootItems, st.pending.value.selectedItemIds) != []
    ensures var s := st.pending.value;
      var r := SettleStep(st, recordId, timestamp, displayTime, displayDate);
      && (!s.removeWinner ==> r.participants == st.participants)
      && (s.removeWinner ==>
            && (forall i :: 0 <= i < |r.participants| ==> r.participants[i].id != s.winner.id && r.participants[i] in st.participants)
            && (forall i :: 0 <= i < |st.participants| && st.participants[i].id != s.winner.id ==> st.participants[i] in r.participants))
  {
  }

  /** Settling keeps the state consistent. */
  lemma SettleKeepsConsistent(st: State, recordId: string, timestamp: string, displayTime: string, displayDate: string)
    requires st.pending.Some? && Consistent(st)
    ensures Consistent(SettleStep(st, recordId, timestamp, displayTime, displayDate))
  {
  }

  /** When no captured selected id names a captured item, the callback only drops itself:
      the raffle stays in progress, so the next start does not get past the guard. Only
      `Start` and `Settle` change `isRaffling`, so neither does any start after it. */
  lemma SettleWithoutItemsLeavesRaffling(st: State, recordId: string, timestamp: string, displayTime: string, displayDate: string)
    requires st.pending.Some? && Consistent(st)
    requires SelectedItems(st.pending.value.lootItems, st.pending.value.selectedItemIds) == []
    ensures var r := SettleStep(st, recordId, timestamp, displayTime, displayDate);
      && r.isRaffling && r.pending == None
      && forall dw: real, ds: real :: 0.0 <= dw < 1.0 && 0.0 <= ds < 1.0 ==> StartStep(r, dw, ds) == r
  {
  }

  /** A restore keeps the selection while it replaces the loot, so the selection can be
      left naming no item at all. */
  lemma RestoreCanStrandSelection(st: State)
    ensures var r := RestoreStep(st, Some(Backup(Some([]), None, None)));
      && r.selectedItemIds == st.selectedItemIds && r.lootItems == []
      && SelectedItems(r.lootItems, r.selectedItemIds) == []
  {
  }

  /** The body of the 5 s callback, one queued state update after another in the order
      the source makes them. */
  method RunCallback(st: State, recordId: string, timestamp: string, displayTime: string, displayDate: string)
    returns (next: State)
    requires st.pending.Some?
    ensures next == SettleStep(st, recordId, timestamp, displayTime, displayDate)
  {
    next := st;
    var s := st.pending.value;
    var selectedItems := SelectedItems(s.lootItems, s.selectedItemIds);
    if |selectedItems| > 0 {
      SettleStepFields(st, recordId, timestamp, displayTime, displayDate);
      var wonItems := WonItems(selectedItems, s.itemQuantities, s.raffleQtyToGive);
      next := next.(raffleResult := Some(RaffleResult(s.winner, wonItems)));
      next := next.(isRaffling := false);
      var historyRecord := MakeHistoryRecord(recordId, selectedItems, s.winner, s.raffleQtyToGive,
                                             timestamp, displayTime, displayDate);
      next := next.(history := [historyRecord] + s.history);
      var newLootItems := DecrementStock(s.lootItems, s.selectedItemIds, s.itemQuantities, s.raffleQtyToGive);
      next := next.(lootItems := newLootItems);
      var ranOutIds := RanOutIds(newLootItems, s.selectedItemIds);
      if |ranOutIds| > 0 {
        next := next.(selectedItemIds := PostWinSelection(next.selectedItemIds, ranOutIds));
        next := next.(raffleQtyToGive := 1);
      } else {
        var newMax := NewMax(newLootItems, s.selectedItemIds);
        if s.raffleQtyToGive > newMax {
          next := next.(raffleQtyToGive := newMax);
        }
      }
      if s.removeWinner {
        next := next.(participants := RemoveParticipantById(next.participants, s.winner.id));
      }
    }
    next := next.(pending := None);
  }

  /** `restoreData`: each list of the backup replaces the current one, and a missing list
      becomes empty (`data.x || []`); the rest of the state is untouched. Nothing happens
      when the file could not be read. */
  function RestoreStep(st: State, data: Option<Backup>): (r: State)
    ensures data.None? ==> r == st
    ensures data.Some? ==>
      && r == st.(lootItems := r.lootItems, participants := r.participants, history := r.history)
      && (data.value.loot.Some? ==> r.lootItems == data.value.loot.value)
      && (data.value.loot.None? ==> r.lootItems == [])
      && (data.value.participants.Some? ==> r.participants == data.value.participants.value)
      && (data.value.participants.None? ==> r.participants == [])
      && (data.value.history.Some? ==> r.history == data.value.history.value)
      && (data.value.history.None? ==> r.history == [])
  {
    match data
    case None => st
    case Some(b) =>
      st.(lootItems := b.loot.GetOr([]), participants := b.participants.GetOr([]), history := b.history.GetOr([]))
  }

  /** The animation arithmetic of `runRaffle`, with its conditionally updated `adjustment`. */
  method SpinTo(wheelRotation: real, winnerIndex: nat, n: nat, spinCount: nat) returns (finalRotation: real)
    requires n > 0
    ensures finalRotation == FinalRotation(wheelRotation, winnerIndex, n, spinCount)
  {
    var sliceAngle := 360.0 / n as real;
    var centerAngle := winnerIndex as real * sliceAngle + sliceAngle / 2.0;
    var extraDegrees := 360.0 * spinCount as real;
    var targetAlignment := JsRem360(360.0 - centerAngle);
    var currentAlignment := JsRem360(wheelRotation);
    var adjustment := targetAlignment - currentAlignment;
    if adjustment < 0.0 {
      adjustment := adjustment + 360.0;
    }
    assert centerAngle == CenterAngle(winnerIndex, n);
    finalRotation := wheelRotation + extraDegrees + adjustment;
  }

  /** The page component: its hook-held state as fields and its handlers as methods. */
  class ClanLootSystem {
    var lootItems: seq<LootItem>
    var participants: seq<Participant>
    var history: seq<HistoryItem>
    var selectedItemIds: seq<string>
    var filterRoles: seq<ClassRole>
    var raffleQtyToGive: int
    var itemQuantities: map<string, int>
    var isRaffling: bool
    var raffleResult: Option<RaffleResult>
    var wheelRotation: real
    var removeWinner: bool
    /** The callback scheduled by `Start` and not yet run. */
    var pending: Option<Snapshot>

    /** The fields as one value. */
    function Fields(): State
      reads this
    {
      State(lootItems, participants, history, selectedItemIds, filterRoles, raffleQtyToGive,
            itemQuantities, isRaffling, raffleResult, wheelRotation, removeWinner, pending)
    }

    predicate Valid()
      reads this
    {
      Consistent(Fields())
    }

    /** The initial state: the three stored lists (empty when nothing is stored) and the
        `useState` defaults for the rest. */
    constructor (storedLoot: seq<LootItem>, storedParticipants: seq<Participant>, storedHistory: seq<HistoryItem>)
      ensures Valid()
      ensures Fields() == State(storedLoot, storedParticipants, storedHistory, [], [], 1, map[], false, None, 0.0, false, None)
    {
      lootItems := storedLoot;
      participants := storedParticipants;
      history := storedHistory;
      selectedItemIds := [];
      filterRoles := [];
      raffleQtyToGive := 1;
      itemQuantities := map[];
      isRaffling := false;
      raffleResult := None;
      wheelRotation := 0.0;
      removeWinner := false;
      pending := None;
    }

    /** Applies the state updates a handler queued, all at once, as React does after the
        handler returns. */
    method Commit(next: State)
      modifies this
      ensures Fields() == next
    {
      lootItems, participants, history := next.lootItems, next.participants, next.history;
      selectedItemIds, filterRoles := next.selectedItemIds, next.filterRoles;
      raffleQtyToGive, itemQuantities := next.raffleQtyToGive, next.itemQuantities;
      isRaffling, raffleResult, wheelRotation := next.isRaffling, next.raffleResult, next.wheelRotation;
      removeWinner, pending := next.removeWinner, next.pending;
    }

    /** `addItem`: appends one item. */
    method AddItem(item: LootItem)
      requires Valid()
      modifies this
      ensures Valid()
      ensures Fields() == old(Fields()).(lootItems := old(lootItems) + [item])
    {
      lootItems := lootItems + [item];
    }

    /** `deleteItem`: removes the id from the loot and from the selection. */
    method DeleteItem(id: string)
      requires Valid()
      modifies this
      ensures Valid()
      ensures Fields() == old(Fields()).(lootItems := RemoveItemById(old(lootItems), id),
                                         selectedItemIds := Without(old(selectedItemIds), id))
      ensures id !in selectedItemIds
    {
      lootItems := RemoveItemById(lootItems, id);
      selectedItemIds := Without(selectedItemIds, id);
    }

    /** `importItems`: appends the imported items in order. */
    method ImportItems(items: seq<LootItem>)
      requires Valid()
      modifies this
      ensures Valid()
      ensures Fields() == old(Fields()).(lootItems := old(lootItems) + items)
    {
      lootItems := lootItems + items;
    }

    /** `clearAllItems`: empties the loot and the selection. */
    method ClearAllItems()
      requires Valid()
      modifies this
      ensures Valid()
      ensures Fields() == old(Fields()).(lootItems := [], selectedItemIds := [])
    {
      lootItems := [];
      selectedItemIds := [];
    }

    /** `addParticipant`: appends one participant. */
    method AddParticipant(p: Participant)
      requires Valid()
      modifies this
      ensures Valid()
      ensures Fields() == old(Fields()).(participants := old(participants) + [p])
    {
      participants := participants + [p];
    }

    /** `addBulkParticipants`: appends the parsed participants in order. */
    method AddBulkParticipants(ps: seq<Participant>)
      requires Valid()
      modifies this
      ensures Valid()
      ensures Fields() == old(Fields()).(participants := old(participants) + ps)
    {
      participants := participants + ps;
    }

    /** `deleteParticipant`: removes every participant with the id. */
    method DeleteParticipant(id: string)
      requires Valid()
      modifies this
      ensures Valid()
      ensures Fields() == old(Fields()).(participants := RemoveParticipantById(old(participants), id))
    {
      participants := RemoveParticipantById(participants, id);
    }

    /** `clearAllParticipants`. */
    method ClearAllParticipants()
      requires Valid()
      modifies this
      ensures Valid()
      ensures Fields() == old(Fields()).(participants := [])
    {
      participants := [];
    }

    /** `getEligibleParticipants`. */
    function EligibleNow(): (r: seq<Participant>)
      reads this
      ensures r == Eligible(Fields())
    {
      EligibleParticipants(participants, filterRoles)
    }

    /** `toggleRoleFilter`. */
    method ToggleRoleFilter(role: ClassRole)
      requires Valid()
      modifies this
      ensures Valid()
      ensures Fields() == old(Fields()).(filterRoles := Toggle(old(filterRoles), role))
    {
      filterRoles := Toggle(filterRoles, role);
    }

    /** `toggleItemSelection`: toggles the id and resets the shared quantity to 1. */
    method ToggleItemSelection(id: string)
      requires Valid()
      modifies this
      ensures Valid()
      ensures Fields() == old(Fields()).(selectedItemIds := Toggle(old(selectedItemIds), id), raffleQtyToGive := 1)
    {
      selectedItemIds := Toggle(selectedItemIds, id);
      raffleQtyToGive := 1;
    }

    /** `setItemQuantity`: sets one item's override. */
    method SetItemQuantity(itemId: string, qty: int)
      requires Valid()
      modifies this
      ensures Valid()
      ensures Fields() == old(Fields()).(itemQuantities := old(itemQuantities)[itemId := qty])
    {
      itemQuantities := itemQuantities[itemId := qty];
    }

    /** `setRaffleQtyToGive`, handed to the raffle tab as `onSetRaffleQty`. */
    method SetRaffleQty(qty: int)
      requires Valid()
      modifies this
      ensures Valid()
      ensures Fields() == old(Fields()).(raffleQtyToGive := qty)
    {
      raffleQtyToGive := qty;
    }

    /** `setRemoveWinner`, handed to the raffle tab as `onToggleRemoveWinner`. */
    method SetRemoveWinner(checked: bool)
      requires Valid()
      modifies this
      ensures Valid()
      ensures Fields() == old(Fields()).(removeWinner := checked)
    {
      removeWinner := checked;
    }

    /** `onClearResult`. */
    method ClearResult()
      requires Valid()
      modifies this
      ensures Valid()
      ensures Fields() == old(Fields()).(raffleResult := None)
    {
      raffleResult := None;
    }

    /** `clearHistory`. */
    method ClearHistory()
      requires Valid()
      modifies this
      ensures Valid()
      ensures Fields() == old(Fields()).(history := [])
    {
      history := [];
    }

    /** `restoreData`, reached from the history tab only when its file parsed. */
    method RestoreData(data: Option<Backup>)
      requires Valid()
      modifies this
      ensures Valid()
      ensures Fields() == RestoreStep(old(Fields()), data)
    {
      if data.Some? {
        lootItems := data.value.loot.GetOr([]);
        participants := data.value.participants.GetOr([]);
        history := data.value.history.GetOr([]);
      }
    }

    /** `runRaffle` up to the `setTimeout`; the two draws stand for `Math.random()`. */
    method Start(drawWinner: real, drawSpin: real)
      requires Valid()
      requires 0.0 <= drawWinner < 1.0 && 0.0 <= drawSpin < 1.0
      modifies this
      ensures Valid()
      ensures Fields() == StartStep(old(Fields()), drawWinner, drawSpin)
    {
      var eligible := EligibleNow();
      if |selectedItemIds| == 0 || |eligible| == 0 {
        return;
      }
      if isRaffling {
        return;
      }
      ghost var st := Fields();
      StartKeepsConsistent(st, drawWinner, drawSpin);
      StartStepTaken(st, drawWinner, drawSpin);
      isRaffling := true;
      raffleResult := None;
      var n := |eligible|;
      var winnerIndex := WinnerIndex(drawWinner, n);
      var winner := eligible[winnerIndex];
      var finalRotation := SpinTo(wheelRotation, winnerIndex, n, SpinCount(drawSpin));
      wheelRotation := finalRotation;
      pending := Some(Snapshot(winner, lootItems, selectedItemIds, itemQuantities, raffleQtyToGive, history, removeWinner));
    }

    /** The 5 s callback of `runRaffle`; the record's id and the clock readings are
        parameters. */
    method Settle(recordId: string, timestamp: string, displayTime: string, displayDate: string)
      requires Valid() && pending.Some?
      modifies this
      ensures Valid()
      ensures Fields() == SettleStep(old(Fields()), recordId, timestamp, displayTime, displayDate)
    {
      SettleKeepsConsistent(Fields(), recordId, timestamp, displayTime, displayDate);
      var next := RunCallback(Fields(), recordId, timestamp, displayTime, displayDate);
      Commit(next);
    }
  }
}
