# Clan loot raffle — a Dafny model

This project models the core of a single-page tool a clan uses to share out loot. The
loot pool is a list of items with quantities, added by hand or imported from lines of game
data. The participants are a list of names with a class role, added one by one or in bulk
from text. A raffle draws one eligible participant on a spinning wheel. The role filter
decides who is eligible; an empty filter means everybody. The winner takes every selected
item. When the wheel stops, the tool:

- adds one record to the front of the history;
- lowers each selected item's stock by its per-item amount, or else by the shared amount;
- deselects any item that ran out;
- caps the shared amount;
- optionally removes the winner from the participants.

Modules follow the source files:

| module | file | models |
|---|---|---|
| `Constants` | `constants.dfy` | `lib/constants.ts`: rarities and their ranks, roles and labels, record types, the wheel palette |
| `Helpers` | `helpers.dfy` | `lib/helpers.ts`: the bundle's highest rarity, the history export text, the badge colour |
| `ParticipantsTab` | `participants_tab.dfy` | `components/ParticipantsTab.tsx`: the single add and the bulk parser |
| `LootTab` | `loot_tab.dfy` | `components/LootTab.tsx`: the manual add, the game-data import loop, the pool total |
| `RaffleTab` | `raffle_tab.dfy` | `components/RaffleTab.tsx`: the derived values the raffle tab shows and the guards it applies |
| `Raffle` | `raffle.dfy` | the pure computations of `app/page.tsx`: eligibility, toggles, stock decrement, post-win rules, wheel arithmetic |
| `App` | `app.dfy` | `app/page.tsx` itself: the state, the class `ClanLootSystem` with one method per handler, and the two phases of a raffle |

Three modules are library stand-ins for the JavaScript built-ins the source calls:

- `Wrappers`: `Option`.
- `Seqs`: filtering, subsequences, minimum.
- `Text`: `trim` with the ECMAScript whitespace set, `split`, `includes`, ASCII `toLowerCase`, `join`, decimal digits.

The page keeps its state in React hooks. It is modelled as the class `App.ClanLootSystem`:

- One field per hook.
- One method per handler. Each method states its whole new state in terms of the old one.
- `Fields()` gives the twelve fields as one `State` value.
- `Valid()` says two things: the wheel's rotation is non-negative, and a pending callback exists only while a raffle is in progress.

`runRaffle` is split at its `setTimeout` into two methods:

- `Start` is the synchronous part. It checks the guard, draws the winner, sets the final wheel rotation and records a `Snapshot` of the values the timer callback closes over.
- `Settle` is the callback. `RunCallback` computes its queued updates in source order. `Commit` then applies them together, as React does.

Each phase is specified by a function on `State`: `StartStep` and `SettleStep`. The lemmas
next to those functions state what the source promises about them.

The callback reads two kinds of value:

- **Captured** at start: the loot, the selection it filters by, the per-item amounts, the shared amount it compares, the history and `removeWinner`.
- **Current**: the selection it prunes and the participants it filters, because it updates those two with `prev =>` updaters. It also keeps the current shared amount when no clamping is needed.

A backup restore replaces the loot but keeps the selection. So a raffle can start whose
callback finds no selected item. That callback then does nothing, and the raffle stays in
progress with the Start button disabled. `SettleWithoutItemsLeavesRaffling` and
`RestoreCanStrandSelection` state this.

## Model

| member | source | states |
|---|---|---|
| Constants.RarityOrder | lib/constants.ts:64 | each rarity's rank lies in 1..5; rank 1 is exactly `common` and rank 5 exactly `legendary` |
| Constants.ClassLabel | lib/constants.ts:51-58 | every role's label is non-empty, and the label is "Member" exactly for the `unknown` role |
| Constants.RarityOrderIsStrictTotalOrder | lib/constants.ts:64 | the ranks strictly increase from `common` to `legendary`, and equal ranks mean equal rarities |
| Constants.TableSizes | lib/constants.ts:10-62 | five rarities and six roles, each listed once and all present; eight wheel colours |
| Constants.ClassLabelsDistinct | lib/constants.ts:51-58 | the six role labels are pairwise distinct |
| Helpers.GetRarityColor | lib/helpers.ts:3-5 | the badge colour is always the empty string |
| Helpers.PickHigher | lib/helpers.ts:10 | the reducer returns one of its two arguments, with a rank at least as high as both |
| Helpers.ReduceHighest | lib/helpers.ts:9-11 | the fold returns the start value or a list member, ranked at least as high as every element |
| Helpers.GetHighestRarity | lib/helpers.ts:7-12 | `common` for no items; otherwise the rarity of some item, ranked at least as high as every item's |
| Helpers.FirstMaximumStep | lib/helpers.ts:9-11 | one fold step keeps "the answer is the first element of highest rank" |
| Helpers.ReduceReturnsFirstMaximum | lib/helpers.ts:9-11 | the fold returns the first element of highest rank, because a later equal rank does not replace it |
| Helpers.HighestRarityIsFirstMaximum | lib/helpers.ts:7-12 | for a non-empty bundle the result is the rarity of the first item of highest rank |
| Helpers.RoleLabel | lib/helpers.ts:18 | the label written for a role is its table label, and "Member" for `unknown` |
| Helpers.HistoryText | lib/helpers.ts:14-19 | nothing exactly for an empty history; otherwise the text opens with the banner |
| Helpers.BuildHistoryText | lib/helpers.ts:14-19 | the `forEach`/`+=` loop builds nothing for an empty history; otherwise the banner followed by one line per record, in list order |
| Helpers.HistoryBodyAppend | lib/helpers.ts:17-19 | the text of two record lists put together is the two texts concatenated |
| Helpers.HistoryBodyCons | lib/helpers.ts:17-19 | the first record's line comes first, then the lines of the others |
| Helpers.IntTextOneLine | lib/helpers.ts:18 | the decimal text of the quantity won holds no line break |
| Helpers.LinePiecesFront | lib/helpers.ts:18 | every piece of a record's line except the final newline is free of line breaks |
| Helpers.HistoryLine | lib/helpers.ts:18 | a record's line opens with the bracket of its date and ends in a newline |
| Helpers.HistoryLineIsOneLine | lib/helpers.ts:18 | a record whose fields hold no line break gives exactly one line |
| Helpers.HistoryBodyLineCount | lib/helpers.ts:17-19 | the export body has exactly as many lines as there are records |
| ParticipantsTab.NewParticipant | components/ParticipantsTab.tsx:43-52 | nothing for an empty name; otherwise a participant with the given id, the name as typed and the chosen role |
| ParticipantsTab.DetectRole | components/ParticipantsTab.tsx:65-72 | `unknown` exactly when no keyword occurs in the segment; otherwise the role of a keyword that occurs |
| ParticipantsTab.DetectRoleIsFirstKeyword | components/ParticipantsTab.tsx:63-72 | the detected role belongs to the first keyword in warrior, berserker, skald, archer, volva order that occurs; `unknown` exactly when none occurs |
| ParticipantsTab.ParseParticipantLine | components/ParticipantsTab.tsx:60-79 | the name is the trimmed text before the first tab, comma or hyphen; a line without a delimiter gives its trimmed self with role `unknown` |
| ParticipantsTab.ParseStructuredLine | components/ParticipantsTab.tsx:60-72 | `name, role` gives the trimmed name and the role detected in the lowered, trimmed second segment; text after a second delimiter is ignored |
| ParticipantsTab.NonBlankLines | components/ParticipantsTab.tsx:56-58 | every kept line is non-blank, every non-blank line of the input is kept, as many are kept as the input has non-blank lines, and they keep the input's order |
| ParticipantsTab.BulkParticipants | components/ParticipantsTab.tsx:54-83 | nothing for empty text; otherwise exactly one participant per non-blank line, in order, the k-th with the k-th fresh id |
| ParticipantsTab.BlankTextAddsNobody | components/ParticipantsTab.tsx:54-58 | non-empty text made only of whitespace adds an empty list |
| ParticipantsTab.ArcherLineExample | components/ParticipantsTab.tsx:60-79 | the line `PlayerX - Archer` gives PlayerX with role archer |
| ParticipantsTab.BareLineExample | components/ParticipantsTab.tsx:60-79 | the line `PlayerY` gives PlayerY with role unknown |
| LootTab.NewManualItem | components/LootTab.tsx:38-51 | nothing for an empty name; otherwise a common item with the entered quantity, source "Manual Add" and time "N/A" |
| LootTab.ImportFields | components/LootTab.tsx:60-61 | a line has at least two fields exactly when it holds a tab or " - " |
| LootTab.ImportedQuantity | components/LootTab.tsx:69 | the quantity is the number formed by the digits of the trimmed quantity field, or 1 when it has none or they make 0; so it is at least 1 |
| LootTab.OptionalField | components/LootTab.tsx:66-67 | an absent or empty field gives the default; otherwise the trimmed field |
| LootTab.ParseFields | components/LootTab.tsx:63-81 | no item exactly for fewer than two fields or an empty trimmed name; otherwise a common item with the trimmed name, the parsed quantity, and the source and time fields |
| LootTab.ImportLines | components/LootTab.tsx:59-82 | the import makes at most one item per line |
| LootTab.ParseLootLine | components/LootTab.tsx:60-81 | (definition, no contract) the loop body for one line: its fields, parsed; `ParseLootLineSomeIff`, `ParsedItemWellFormed` and `LineWithoutSeparatorIgnored` state its properties |
| LootTab.ParseLootLineSomeIff | components/LootTab.tsx:60-80 | a line gives an item exactly when it splits into two or more fields with a non-empty trimmed name, whatever the fresh id |
| LootTab.ImportLinesLast | components/LootTab.tsx:59-82 | the last line adds exactly the item it parses to, with the next fresh id, when it is usable, and nothing otherwise |
| LootTab.ImportLinesCount | components/LootTab.tsx:59-82 | the import makes exactly one item per usable line |
| LootTab.GameImport | components/LootTab.tsx:53-87 | nothing exactly for whitespace-only input; otherwise at most one item per input line |
| LootTab.HandleGameImport | components/LootTab.tsx:53-87 | the `forEach`/`push` loop returns nothing for whitespace-only input; otherwise the items of the usable lines, in line order |
| LootTab.ParsedItemWellFormed | components/LootTab.tsx:63-80 | a parsed item has its id, is common, has a non-empty trimmed name and a quantity of at least 1 |
| LootTab.ImportedItemsWellFormed | components/LootTab.tsx:59-82 | every imported item has that shape, and the k-th has the k-th fresh id |
| LootTab.LineWithoutSeparatorIgnored | components/LootTab.tsx:60-63 | a line with neither a tab nor " - " gives no item |
| LootTab.SplitJoinTabs | components/LootTab.tsx:60 | tab-joined, tab-free fields split back into the same fields |
| LootTab.FormatFields | components/LootTab.tsx:60-61 | the fields of a tab-separated game line are the item's four fields |
| LootTab.FormatQuantity | components/LootTab.tsx:69 | a quantity of at least 1, written in decimal, reads back as itself |
| LootTab.ParseFieldsNameQuantity | components/LootTab.tsx:63-75 | a trimmed, non-empty name field gives an item with that name and the parsed quantity |
| LootTab.OptionalFieldsTrimmed | components/LootTab.tsx:66-67 | a trimmed, non-empty source and a trimmed time read back unchanged |
| LootTab.ParseFormatRoundTrip | components/LootTab.tsx:59-81 | parsing the game line of an item gives that item back (non-empty name, quantity at least 1, non-empty source, fields without tabs or surrounding blanks) |
| LootTab.PoolTotal | components/LootTab.tsx:149 | the total of non-negative quantities is non-negative, and the total of zero quantities is zero |
| LootTab.PoolTotalAppend | components/LootTab.tsx:149 | the pool total of two lists put together is the sum of their totals |
| LootTab.PoolTotalBounds | components/LootTab.tsx:149 | without negative quantities the total is non-negative and at least each item's quantity |
| Raffle.EligibleParticipants | app/page.tsx:92-95 | everybody for an empty filter; otherwise exactly the participants whose role is in the filter, in order |
| Raffle.Without | app/page.tsx:62 | the value is gone; every other member is kept and nothing new appears, in order |
| Raffle.WithoutAbsent | app/page.tsx:62 | removing an absent value changes nothing |
| Raffle.WithoutAppend | app/page.tsx:62 | removal distributes over concatenation |
| Raffle.Toggle | app/page.tsx:97-108 | afterwards the value is present exactly if it was absent before; an absent value is appended at the end; others keep their membership |
| Raffle.ToggleTwiceRestores | app/page.tsx:97-108 | toggling an absent value twice gives the list back |
| Raffle.RemoveItemById | app/page.tsx:60-63 | exactly the items without the id remain, in order |
| Raffle.RemoveParticipantById | app/page.tsx:83-85 | exactly the participants without the id remain, in order |
| Raffle.RemoveAbsentParticipant | app/page.tsx:83-85 | removing an id nobody has changes nothing |
| Raffle.AmountToGive | app/page.tsx:150 | a non-zero override wins; a missing or zero override gives the shared quantity |
| Raffle.AmountNonNegative | app/page.tsx:187 | non-negative inputs give a non-negative amount |
| Raffle.Max0 | app/page.tsx:190 | `Math.max(0, a)`: at least 0 and at least `a`, and equal to one of them |
| Raffle.AfterWin | app/page.tsx:185-194 | only the quantity can change; an unselected item is unchanged; a selected one goes to max(0, quantity - amount) |
| Raffle.DecrementStock | app/page.tsx:185-194 | same length and order; only quantities change; unselected items unchanged; selected quantities become max(0, quantity - amount) |
| Raffle.DecrementBounds | app/page.tsx:185-194 | stock without negative quantities stays so, and no quantity grows |
| Raffle.SelectedItems | app/page.tsx:142-144 | exactly the loot items whose id is selected, in loot order |
| Raffle.SelectionSurvivesDecrement | app/page.tsx:198-212 | some item is selected after the decrement exactly when some was before, so `newMax` is defined |
| Raffle.WonItems | app/page.tsx:147-151 | one entry per selected item with its name, rarity and amount given |
| Raffle.Names | app/page.tsx:161 | the names of the items, in order |
| Raffle.BundleName | app/page.tsx:161-167 | empty for no item; the item's name for one; "Bundle: " and the names joined by " + " for more |
| Raffle.BundleNameMentionsEachItem | app/page.tsx:161-167 | every selected item's name occurs in the bundle name |
| Raffle.MakeHistoryRecord | app/page.tsx:164-181 | the bundle name, the bundle's highest rarity, the winner's name and role, the shared quantity, the id and the clock readings |
| Raffle.RanOutIds | app/page.tsx:198-202 | an id is listed exactly when a selected item with that id is at zero after the decrement |
| Raffle.RanOutIffSomeAtZero | app/page.tsx:198-201 | the ran-out list is non-empty exactly when some selected item is at zero |
| Raffle.NewMax | app/page.tsx:208-212 | the result is some selected item's new quantity and is at most all of them |
| Raffle.PostWinSelection | app/page.tsx:203-205 | exactly the current ids that did not run out, in order |
| Raffle.PostWinQty | app/page.tsx:201-214 | 1 if anything ran out; otherwise `newMax` if the captured quantity exceeds it, else the current quantity |
| Raffle.PostWinQtyIsClampedMin | app/page.tsx:207-214 | with no change during the spin and nothing run out, the new shared quantity is at most the old one and at most every remaining selected stock, and it is either the old one or the stock of some remaining selected item: the least of the two |
| Raffle.PostWinQtyCurrentOrMin | app/page.tsx:207-214 | with nothing run out, the new shared quantity is the current one, or is below the captured one and equal to the least remaining stock among the selected items |
| Raffle.RanOutDeselected | app/page.tsx:198-205 | a selected item left at zero is not in the new selection |
| Raffle.RaffleGuard | app/page.tsx:118-120 | (definition, no contract) a selection, an eligible participant and no raffle in progress; `RaffleTab.StartEnabledIffGuard` and `App.StartStep` use it |
| Raffle.WinnerIndex | app/page.tsx:126 | `floor(draw * n)` is a valid index whose slice of [0, 1) holds the draw |
| Raffle.SpinCount | app/page.tsx:132 | 5 to 7 full turns |
| Raffle.SliceAngle | app/page.tsx:130 | n equal positive slices fill 360 degrees |
| Raffle.CenterAngle | app/page.tsx:131 | strictly inside slice i, and inside (0, 360) for a valid index |
| Raffle.Trunc | app/page.tsx:134-135 | rounding toward zero, for both signs |
| Raffle.JsRem360 | app/page.tsx:134-135 | JavaScript `% 360`: the result takes the dividend's sign, lies within one turn, and is x minus whole turns |
| Raffle.JsRem360Turns | app/page.tsx:135 | whole turns plus a remainder in [0, 360) leave that remainder |
| Raffle.Adjustment | app/page.tsx:136-137 | between two alignments in [0, 360) it lies in [0, 360), and it is the difference or the difference plus 360 |
| Raffle.TargetAlignment | app/page.tsx:134 | for a valid index the target lies in [0, 360) |
| Raffle.TargetAlignmentValue | app/page.tsx:134 | for a valid index the target is 360 minus the centre angle |
| Raffle.FinalRotation | app/page.tsx:138 | from a non-negative rotation, the final rotation adds the full turns and then less than one more turn |
| Raffle.FinalRotationLandsOnWinner | app/page.tsx:130-138 | the wheel turns forward by the spin count's full turns plus less than one; it stops at the target alignment, with the winner's centre under the indicator |
| RaffleTab.MaxQty | components/RaffleTab.tsx:76-82 | 1 with nothing selected; Infinity when the selection matches no item; otherwise the least selected quantity |
| RaffleTab.StartDisabled | components/RaffleTab.tsx:438 | (definition, no contract) the button's `disabled` expression; `StartEnabledIffGuard` relates it to the guard |
| RaffleTab.StartEnabledIffGuard | components/RaffleTab.tsx:438 | the Start button is enabled exactly when `runRaffle`'s guard lets a raffle go ahead |
| RaffleTab.DropdownClick | components/RaffleTab.tsx:307-308 | a click toggles the item in stock and ignores an item without stock |
| RaffleTab.EmptyItemNeverSelected | components/RaffleTab.tsx:307-308 | an item without stock cannot enter the selection from the dropdown |
| RaffleTab.DropdownClickTouchesOnlyItem | components/RaffleTab.tsx:307-308 | no other id changes membership |
| RaffleTab.MidAngle | components/RaffleTab.tsx:104 | the label angle of a valid slice lies in (0, 360) |
| RaffleTab.MidAngleIsCenterAngle | components/RaffleTab.tsx:104 | a slice's label is drawn at the angle the spin aims at |
| RaffleTab.WheelLabel | components/RaffleTab.tsx:124 | names up to 15 characters are kept; longer ones become their first 12 and ".."; never over 15 |
| RaffleTab.WheelLabelIdempotent | components/RaffleTab.tsx:124 | shortening a shortened label changes nothing |
| RaffleTab.ColorIndex | components/RaffleTab.tsx:110 | the palette index is in range |
| RaffleTab.WheelColor | components/RaffleTab.tsx:110 | every slice and list entry gets a palette colour |
| RaffleTab.ColorsCycle | components/RaffleTab.tsx:110 | the colours repeat every eight, and any eight consecutive slices have distinct colours |
| RaffleTab.DisplayedItemQty | components/RaffleTab.tsx:352 | the control shows the override, or 1 without one |
| RaffleTab.DisplayedQtyDiffersFromGiven | components/RaffleTab.tsx:352 | without an override the control shows 1 while the shared amount is given; an override of 0 shows 0 while the shared amount is given; a non-zero override agrees |
| RaffleTab.SliderAmountNeverOverdraws | components/RaffleTab.tsx:362-363 | a per-item amount set from the slider takes exactly that amount off the selected item's stock, never clamping |
| App.StartStep | app/page.tsx:117-139 | a failed guard changes nothing; otherwise the raffle is in progress, the result is cleared, an eligible winner and the current values are captured, and only the rotation changes besides |
| App.StartSpinsToWinner | app/page.tsx:126-139 | the winner is the drawn eligible participant; the wheel turns 1800 to under 2880 degrees forward and stops with the winner's centre under the indicator |
| App.StartKeepsConsistent | app/page.tsx:117-139 | starting keeps the rotation non-negative and a pending callback only while raffling |
| App.SettleStep | app/page.tsx:141-220 | the callback is consumed; with no selected item nothing else changes; otherwise raffling ends and the filter, the per-item amounts, the rotation and the switch are kept |
| App.SettlePrependsRecord | app/page.tsx:153-182 | the history grows by exactly one record in front: the bundle name, its highest rarity, the winner and the shared quantity; the result lists the won items |
| App.SettleDecrementsStock | app/page.tsx:184-195 | the captured loot keeps its length and order; unselected items are unchanged; each selected item loses its amount, never going below zero |
| App.SettleDeselectsRanOut | app/page.tsx:197-206 | when a selected item is left at zero, the shared quantity is reset to 1 and the new selection is exactly the current ids that did not run out |
| App.SettleCapsQuantity | app/page.tsx:207-214 | with nothing run out the selection is kept, and the shared quantity is the current one or the least remaining selected stock when that is below the captured one; when the quantity was not changed during the spin it ends at most the old one and every remaining selected stock, and equals one of them |
| App.SettleRemovesOnlyWinner | app/page.tsx:216-218 | with the switch set, exactly the participants with the winner's id leave; otherwise the participants stay as they are |
| App.SettleKeepsConsistent | app/page.tsx:141-220 | settling keeps the state consistent |
| App.SettleWithoutItemsLeavesRaffling | app/page.tsx:141-158 | with no captured selected item the raffle stays in progress and the callback is dropped, and the next start is refused |
| App.RestoreCanStrandSelection | app/page.tsx:228-236 | a restore keeps the selection while replacing the loot, so the selection can name no item |
| App.RunCallback | app/page.tsx:141-220 | the callback's updates, applied in source order, give exactly the settle step |
| App.RestoreStep | app/page.tsx:228-236 | nothing without a parsed backup; otherwise each list is replaced, a missing list becomes empty, and nothing else changes |
| App.SpinTo | app/page.tsx:130-138 | the animation arithmetic, with its conditional `adjustment += 360`, gives the final rotation |
| App.ClanLootSystem.constructor | app/page.tsx:28-49 | the stored lists and the hook defaults: empty selection and filter, shared quantity 1, no overrides, not raffling, no result, rotation 0, switch off |
| App.ClanLootSystem.Commit | app/page.tsx:141-220 | the batched updates become the new state |
| App.ClanLootSystem.AddItem | app/page.tsx:56-58 | the item is appended and nothing else changes |
| App.ClanLootSystem.DeleteItem | app/page.tsx:60-63 | the id leaves the loot and the selection, and nothing else changes |
| App.ClanLootSystem.ImportItems | app/page.tsx:65-67 | the items are appended in order |
| App.ClanLootSystem.ClearAllItems | app/page.tsx:69-72 | loot and selection are emptied |
| App.ClanLootSystem.AddParticipant | app/page.tsx:75-77 | the participant is appended |
| App.ClanLootSystem.AddBulkParticipants | app/page.tsx:79-81 | the participants are appended in order |
| App.ClanLootSystem.DeleteParticipant | app/page.tsx:83-85 | participants with the id are removed |
| App.ClanLootSystem.ClearAllParticipants | app/page.tsx:87-89 | the participants are emptied |
| App.ClanLootSystem.EligibleNow | app/page.tsx:92-95 | the eligible participants of the current state |
| App.ClanLootSystem.ToggleRoleFilter | app/page.tsx:97-101 | the role is toggled in the filter |
| App.ClanLootSystem.ToggleItemSelection | app/page.tsx:103-108 | the id is toggled and the shared quantity reset to 1 |
| App.ClanLootSystem.SetItemQuantity | app/page.tsx:110-115 | one item's override is set and the others kept |
| App.ClanLootSystem.SetRaffleQty | app/page.tsx:312 | the shared quantity is set |
| App.ClanLootSystem.SetRemoveWinner | app/page.tsx:314 | the switch is set |
| App.ClanLootSystem.ClearResult | app/page.tsx:316 | the result is cleared |
| App.ClanLootSystem.ClearHistory | app/page.tsx:224-226 | the history is emptied |
| App.ClanLootSystem.RestoreData | app/page.tsx:228-236 | the new state is the restore step of the old one |
| App.ClanLootSystem.Start | app/page.tsx:117-139 | the new state is the start step of the old one, and the state stays valid |
| App.ClanLootSystem.Settle | app/page.tsx:141-220 | the new state is the settle step of the old one, and the state stays valid |

## Left out

- Rendering, layout, tabs and dropdown open/close state are not modelled, because they compute no application state. The captions of the filter and item dropdowns are left out for the same reason.
- The SVG slice paths are not modelled, because they use cosine and sine of the slice angles. Only the slice and label angles and the colours are.
- `Math.random` is not modelled. The two draws are parameters in [0, 1).
- `crypto.randomUUID` is not modelled. Fresh ids are parameters; the importers take a function from position to id.
- `Date`, `toISOString` and the locale time and date strings are not modelled. They are string parameters of `Settle`.
- The 5-second `setTimeout` is modelled as two separate steps, `Start` and `Settle`, with the callback's values captured in between. How the timer interleaves with other handlers is left to the caller. A second start is refused while one is pending.
- Persistence in `localStorage` is not modelled. The constructor takes the stored lists. `useLocalStorage` is not part of this model.
- Creating the file download is not modelled: the `Blob`, the object URL and the link click in `downloadHistoryTxt`, and `downloadBackupJson` in full. The history export is modelled as the text it would download.
- JSON parsing and the history tab are not part of this model. `RestoreData` takes a backup whose lists may be missing, or `None` when the file could not be read.
- `alert` after an import is left out.
- Numbers are modelled as exact values. Quantities and amounts are integers; wheel angles are exact reals.
  - NaN, fractional quantities, floating-point rounding of angles and `parseInt` precision loss on very long digit runs are not modelled.
  - A manual quantity is any integer, standing for whatever `Number` the input field produced.
- String lengths count code points, not UTF-16 code units. This matters only for the 15-character wheel label of names outside the Basic Multilingual Plane.
- Text.ToLower: lowers the ASCII letters only. JavaScript's `toLowerCase` also lowers other letters, some of them to ASCII: KELVIN SIGN (U+212A) lowers to "k", so the segment `S\u212AALD` of `P - S\u212AALD` gives the skald role in the source and the unknown role here.
- `onSetRaffleQty` is handed to the raffle tab but never called there. `SetRaffleQty` is modelled as the plain setter it is.
- `maxQty` is computed by the raffle tab and not used by it. `RaffleTab.MaxQty` models its value.
- App.SettleCapsQuantity: the bound by the old quantity and the equality with one of the bounds are stated only when the shared quantity did not change during the spin. When it did change, the callback keeps the current value unless the captured value exceeds the least stock.
- `App.ClanLootSystem.Start` and `App.ClanLootSystem.Settle` state their new state through `StartStep` and `SettleStep`. The properties are proved about those functions.
- A loot edit made during the spin is overwritten by the callback, which decrements the captured loot. A selection change or participant change during the spin is kept, because those two updates use the current value.
- `restoreData` turns a missing list into an empty one (`data.x || []`). It does not keep the old list.
