# Repair-case store of the partner app, in Dafny

This project models the repair-case store of a device-repair partner app. It
also models the small decision rules that the two repair screens apply before
they call the store.

**The store** is the context provider in `src/context/RepairCasesContext.tsx`:
- It holds a list of repair cases.
- Every operation is a pure per-case updater. The updater is applied through
  `updateCase`, which replaces only the cases whose id matches.
- The lifecycle is `STATUS_FLOW`, seven stages in a fixed order:
  점검대기 (awaiting inspection) → 점검중 (inspecting) → 견적 전달 (estimate
  delivered) → 부품 준비 (parts preparation) → 수리 진행 중 (in repair) → 수리 완료
  (repair completed) → 수령 완료 (picked up).
- `goToNextStatus` moves one stage forward. It refuses to enter parts
  preparation until an estimate has been sent.
- `goToPrevStatus` moves one stage back.
- `setStatus` jumps to any stage without a guard.
- Entering repair-completed or picked-up stamps a time, but only when that
  stamp is missing.

**The screens** are `RepairDetailScreen.tsx` and `RepairManageScreen.tsx`
under `src/screens/partners/`. Their rules modelled here:
- the 48-entry half-hour time table;
- the due-date stamp and the amount check;
- which panels a stage shows;
- the checklist gate in front of a manual advance;
- the same-serial repair-history list.

Layout:
- `js_values.dfy`: the JavaScript conventions the code leans on. These are
  `undefined` (as `Option`), falsiness, `slice`, `toString` and `padStart`.
- `status_flow.dfy`: `STATUS_FLOW` and `indexOf`.
- `repair_case.dfy`: the records, `updateCase`, `findCase` and one pure
  updater per store operation, with the lemmas about them.
- `store.dfy`: the provider as a class. Its `cases` field is reassigned by
  one method per operation.
- `screen_common.dfy`, `detail_screen.dfy`, `manage_screen.dfy`: the screen
  rules.

Modelling choices:
- **Clock and ids.** The clock is a parameter: `now` stands for `nowIso()`,
  and `clock` stands for `Date.now()` in a minted item id.
- **Statuses are strings.** `indexOf` returns -1 for a name outside the flow,
  exactly as in the code. The store's invariant `Valid()` says that every
  case's status is a stage of the flow. The TypeScript type `RepairStatus`
  guarantees this in the code.
- **Names the store does not define.** The screens are written against a
  store that defines more than this context does: stages such as
  `INTAKE_COMPLETED`, `STATUS_LABEL`, `MANUAL_STATUS_START_INDEX`,
  `getNextStatus`, `canManuallyMoveToNextStatus`, `acceptEstimate`,
  `saveCompletionDueAt`, and case fields such as `estimates`,
  `repairHistory`, `completionDueAt`, `customerPhone`, `requestNote` and
  `selectedEstimateId`. The model takes those stage indices, the next
  status and the permission to move as parameters.
  With the context as it stands, neither screen gets as far as deciding a
  panel for an existing case. The provider's value
  (`RepairCasesContext.tsx:235-246`) has no `getNextStatus`, so the
  destructured name is `undefined`. The call `getNextStatus(item)` therefore
  throws a `TypeError` at `RepairDetailScreen.tsx:52` and
  `RepairManageScreen.tsx:49`, during the render.
  `PanelsWithContextFlow` and `ManagePanelsWithContextFlow` only evaluate the
  panel predicates (`RepairDetailScreen.tsx:54-57`,
  `RepairManageScreen.tsx:51-53`) at the indices the screens would compute.
  Every stage name they look up is missing from the flow, so those indices
  are -1.
  Two related facts hold as well:
  - The detail screen's checklist gate compares the status with
    `'IN_REPAIR'`, which no stage of the context's flow equals. So it never
    blocks (`ChecklistGateWithContextFlow`).
  - The store's `goToNextStatus` moves 수리 진행 중 to 수리 완료 whatever the
    checklist holds (`NextStatusIgnoresChecklist`).
- **What the store does not check.**
  - `setStatus` has no guard. Re-setting the current status is not a no-op
    either: it may write a missing stamp.
  - `goToNextStatus` checks neither a manual-advance cutoff nor the checklist.
  - `addRepairItem` does not check the title.
  - The context keeps no timeline and no list of estimates. It has a single
    estimate per case and no acceptance of it.

## Model

| member | source | states |
|---|---|---|
| `StatusFlow.IndexOf` | src/context/RepairCasesContext.tsx:152 | `indexOf` gives the first position holding the name, or -1 exactly when the name is absent |
| `StatusFlow.FlowIndices` | src/context/RepairCasesContext.tsx:3-11 | the flow has seven stages and each named stage sits at its index 0..6, so the order is total |
| `StatusFlow.LatinNamesNotInFlow` | src/screens/partners/RepairDetailScreen.tsx:50-51 | a stage name the screens use, such as `INTAKE_COMPLETED`, is not a stage of the context's flow, so `indexOf` gives -1 for it |
| `RepairCases.UpdateCase` | src/context/RepairCasesContext.tsx:128-129 | `updateCase` keeps the list's length and order, leaves every case with another id identical, and applies the updater to each matching case |
| `RepairCases.FindAfterUpdate` | src/context/RepairCasesContext.tsx:128-129 | after an id-preserving update, `findCase` finds the updated version of the case it found before, and still finds nothing when nothing matched |
| `RepairCases.UpdateCaseNoop` | src/context/RepairCasesContext.tsx:128-129 | an updater that returns the case unchanged (the refused moves) leaves the whole list unchanged |
| `RepairCases.UpdateCaseKeepsIds` | src/context/RepairCasesContext.tsx:128-129 | the ids of the list, position by position, survive every update |
| `RepairCases.FindCase` | src/context/RepairCasesContext.tsx:233 | `findCase` returns the first case with the id, and returns nothing exactly when the id is `undefined` or no case has it |
| `RepairCases.SetStatusUpdate` | src/context/RepairCasesContext.tsx:134-146 | `setStatus` sets any status without a guard. It writes a completion or pickup stamp only on entering that stage when the stamp is missing (an existing stamp is never overwritten). Nothing else changes |
| `RepairCases.SetStatusIdempotent` | src/context/RepairCasesContext.tsx:138-143 | setting the same status twice equals setting it once, even with a later clock reading, because stamps are written only when missing |
| `RepairCases.NextStatusUpdate` | src/context/RepairCasesContext.tsx:149-170 | `goToNextStatus` never changes the id, the estimate or the checklist |
| `RepairCases.CanAdvanceIndex` | src/context/RepairCasesContext.tsx:152-159 | a case can move forward exactly when its index is in 0..5 and, at index 2 (estimate delivered), an estimate has been sent |
| `RepairCases.NextStatusStep` | src/context/RepairCasesContext.tsx:152-167 | `goToNextStatus` either raises the stage index by exactly one (applying `setStatus`'s stamping) or leaves the case identical. It never skips a stage or goes back |
| `RepairCases.NextStatusStopsAtEnd` | src/context/RepairCasesContext.tsx:153-155 | at the last stage, or with a status outside the flow, `goToNextStatus` changes nothing |
| `RepairCases.NextStatusEstimateGate` | src/context/RepairCasesContext.tsx:157-159 | from estimate delivered, the case enters parts preparation if and only if an estimate's `sentAt` is set. Otherwise the case is unchanged |
| `RepairCases.EstimateSent` | src/context/RepairCasesContext.tsx:157 | the gate's condition: the case has an estimate whose `sentAt` is truthy |
| `RepairCases.NextStatusIgnoresChecklist` | src/context/RepairCasesContext.tsx:149-170 | from 수리 진행 중 the forward move goes to 수리 완료 for any case, whatever its checklist holds |
| `RepairCases.NextStatusIndex` | src/context/RepairCasesContext.tsx:152-167 | a forward move, seen as stage indices: +1 when allowed, else the same index. The case stays in the flow and its sent-estimate state is unchanged |
| `RepairCases.AdvanceStep` | src/context/RepairCasesContext.tsx:149-170 | one forward move followed by n - 1 more reaches the same stage as n moves from the start, and it stays in the flow |
| `RepairCases.AdvanceTimes` | src/context/RepairCasesContext.tsx:149-170 | repeated forward moves never touch the estimate. From stage i they reach stage min(i + n, 6). Without a sent estimate, from a stage before parts preparation, they stop at estimate delivered (index 2) |
| `RepairCases.PrevStatusUpdate` | src/context/RepairCasesContext.tsx:172-182 | `goToPrevStatus` changes only the status, so completion stamps are not cleared |
| `RepairCases.PrevStatusStep` | src/context/RepairCasesContext.tsx:175-179 | `goToPrevStatus` does nothing at index 0 or outside the flow, and otherwise lowers the index by exactly one |
| `RepairCases.PrevAfterNext` | src/context/RepairCasesContext.tsx:149-182 | going back after a forward move restores the status. It restores the whole case unless the forward move stamped a missing completion or pickup time |
| `RepairCases.NextAfterPrev` | src/context/RepairCasesContext.tsx:149-182 | going forward after a backward move restores the case, when the gate allows it and no stamp is missing |
| `RepairCases.SaveInspectionUpdate` | src/context/RepairCasesContext.tsx:184-192 | `saveInspection` replaces the inspection. It moves the status only from awaiting inspection to inspecting. Nothing else changes |
| `RepairCases.SaveInspectionIdempotent` | src/context/RepairCasesContext.tsx:186-190 | saving the same inspection twice equals saving it once |
| `RepairCases.MintItemId` | src/context/RepairCasesContext.tsx:198 | the new item id is the case id, then `-I-`, then the decimal clock reading |
| `RepairCases.MintedIdsDiffer` | src/context/RepairCasesContext.tsx:198 | items added to a case at different clock readings get different ids |
| `RepairCases.ItemFromDraft` | src/context/RepairCasesContext.tsx:198 | `{ ...payload, id }`: the new item has the given id and every other field of the payload |
| `RepairCases.AddRepairItemUpdate` | src/context/RepairCasesContext.tsx:194-201 | `addRepairItem` appends exactly one item, carrying the minted id and the payload's fields, after the unchanged prior items. Nothing else changes |
| `RepairCases.ToggleItem` | src/context/RepairCasesContext.tsx:209-213 | toggling negates `done` and sets `completedAt` to now exactly when the new `done` is true. Otherwise it clears `completedAt` |
| `RepairCases.ToggleItems` | src/context/RepairCasesContext.tsx:207-215 | the checklist keeps its length and order. Only items with the matching id are toggled, and the others are identical |
| `RepairCases.ToggleRepairItemUpdate` | src/context/RepairCasesContext.tsx:203-218 | `toggleRepairItem` changes only the checklist, and an unknown item id leaves the case unchanged |
| `RepairCases.ToggleKeepsCompletionConsistent` | src/context/RepairCasesContext.tsx:207-215 | if every item has `completedAt` exactly when `done`, that still holds after a toggle |
| `RepairCases.ToggleExactlyOne` | src/context/RepairCasesContext.tsx:207-215 | with distinct item ids, a toggle flips exactly one item and leaves every other unchanged. Toggling again restores `done` |
| `RepairCases.SendEstimateUpdate` | src/context/RepairCasesContext.tsx:220-231 | `sendEstimate` overwrites the single estimate with amount, note and `sentAt`, and changes nothing else. With a non-empty clock reading the estimate counts as sent |
| `RepairCases.SendEstimateEnablesPartsPreparation` | src/context/RepairCasesContext.tsx:220-231 | after `sendEstimate`, a case at estimate delivered moves on to parts preparation |
| `RepairCases.UpdatersKeepFlow` | src/context/RepairCasesContext.tsx:134-231 | every operation leaves a case of the flow in the flow, given a status of the flow for `setStatus` |
| `RepairStore.UpdateCaseKeepsFlow` | src/context/RepairCasesContext.tsx:128-129 | an update whose updater keeps statuses in the flow keeps the whole list in the flow |
| `RepairStore.InitialCasesWellFormed` | src/context/RepairCasesContext.tsx:72-126 | the three starting cases have distinct ids and statuses of the flow. Their checklist items have `completedAt` exactly when `done` |
| `RepairStore.RepairCasesStore.constructor` | src/context/RepairCasesContext.tsx:132 | the store starts with the initial cases, all in the flow |
| `RepairStore.RepairCasesStore.Find` | src/context/RepairCasesContext.tsx:233 | the case found is in the list and has the id. Nothing is found exactly when the id is absent or unknown |
| `RepairStore.RepairCasesStore.SetStatus` | src/context/RepairCasesContext.tsx:134-147 | the new list is `updateCase` with the `setStatus` updater; the invariant is kept |
| `RepairStore.RepairCasesStore.GoToNextStatus` | src/context/RepairCasesContext.tsx:149-170 | the new list is `updateCase` with the `goToNextStatus` updater, and the invariant is kept. Every targeted case's stage index rises by one when the move is allowed, and otherwise stays |
| `RepairStore.RepairCasesStore.GoToPrevStatus` | src/context/RepairCasesContext.tsx:172-182 | the new list is `updateCase` with the `goToPrevStatus` updater, and the invariant is kept. Every targeted case's stage index falls by one above index 0, and otherwise stays |
| `RepairStore.RepairCasesStore.SaveInspection` | src/context/RepairCasesContext.tsx:184-192 | the new list is `updateCase` with the `saveInspection` updater; the invariant is kept |
| `RepairStore.RepairCasesStore.AddRepairItem` | src/context/RepairCasesContext.tsx:194-201 | the new list is `updateCase` with the `addRepairItem` updater; the invariant is kept |
| `RepairStore.RepairCasesStore.ToggleRepairItem` | src/context/RepairCasesContext.tsx:203-218 | the new list is `updateCase` with the `toggleRepairItem` updater; the invariant is kept |
| `RepairStore.RepairCasesStore.SendEstimate` | src/context/RepairCasesContext.tsx:220-231 | the new list is `updateCase` with the `sendEstimate` updater; the invariant is kept |
| `RepairStore.EstimateThenAdvance` | src/context/RepairCasesContext.tsx:157-159 | a caller that sends an estimate and then advances sees every targeted case at estimate delivered move to parts preparation. Every other case is untouched |
| `JsValues.Truthy` | src/context/RepairCasesContext.tsx:138-143 | an optional string is truthy when it is present and non-empty, as in `!item.repairCompletedAt` |
| `JsValues.NumberTruthy` | src/screens/partners/RepairDetailScreen.tsx:146 | `!amount` holds for 0 and NaN only |
| `JsValues.Slice` | src/screens/partners/RepairDetailScreen.tsx:31-32 | `slice(start, end)` clamps both ends to the length: the substring when the range is inside, the rest of the string from `start` when `end` runs past the length, and empty when the range is empty |
| `JsValues.PadStart2` | src/screens/partners/RepairDetailScreen.tsx:22 | `padStart(2, '0')` leaves a string of two or more characters alone, and otherwise pads it on the left with zeros to length 2 |
| `JsValues.DecimalString` | src/context/RepairCasesContext.tsx:198 | the decimal rendering of a clock reading or an hour: at least one digit, all digits, no leading zero, one digit exactly below 10 and two below 100 |
| `JsValues.TwoDigits` | src/screens/partners/RepairDetailScreen.tsx:22 | `h.toString().padStart(2, '0')` for an hour below 100 is its tens digit followed by its units digit |
| `ScreenCommon.TimeSlots` | src/screens/partners/RepairDetailScreen.tsx:22 | the time table has 48 entries |
| `ScreenCommon.TimeSlotShape` | src/screens/partners/RepairDetailScreen.tsx:22 | entry k is the two-digit hour ⌊k/2⌋, then `:00` for even k and `:30` for odd k |
| `ScreenCommon.SlotIndex` | src/screens/partners/RepairManageScreen.tsx:22 | reading a time string back gives an index below 48, or nothing |
| `ScreenCommon.TimeSlotsRoundTrip` | src/screens/partners/RepairManageScreen.tsx:22 | every entry reads back as its own index, so the 48 entries are distinct |
| `ScreenCommon.TimeSlotsComplete` | src/screens/partners/RepairManageScreen.tsx:22 | every HH:00 or HH:30 time of the day appears in the table, at the index it reads back as |
| `ScreenCommon.DefaultDueTimeIsASlot` | src/screens/partners/RepairDetailScreen.tsx:32 | the default time `09:00` is entry 18 of the table |
| `ScreenCommon.DueDateStamp` | src/screens/partners/RepairDetailScreen.tsx:209-210 | a due date is saved only when both the date and the time are non-empty. The stamp is the date, then `T`, then the time, then `:00.000Z` |
| `ScreenCommon.DueDateRoundTrip` | src/screens/partners/RepairDetailScreen.tsx:31-32 | re-reading a saved stamp with `slice(0, 10)` and `slice(11, 16)` gives back a ten-character date and a five-character time |
| `ScreenCommon.SlotDueDateRoundTrip` | src/screens/partners/RepairManageScreen.tsx:176-177 | every entry of the time table survives the save and the re-read |
| `ScreenCommon.EstimateComposerShown` | src/screens/partners/RepairDetailScreen.tsx:56 | the estimate composer shows while the stage index is below that of `ESTIMATE_ACCEPTED` |
| `ScreenCommon.SubmitEstimate` | src/screens/partners/RepairDetailScreen.tsx:144-147 | the send button changes nothing when `Number(amount)` is falsy. Otherwise it applies `sendEstimate` to the matching cases only |
| `ScreenCommon.AmountCheck` | src/screens/partners/RepairManageScreen.tsx:112-113 | NaN and 0 are refused. Negative amounts, +Infinity and -Infinity pass |
| `RepairDetailRules.DueDateShown` | src/screens/partners/RepairDetailScreen.tsx:54 | the due date shows from intake-completed up to, not including, repair-completed |
| `RepairDetailRules.RepairItemsShown` | src/screens/partners/RepairDetailScreen.tsx:55 | the checklist shows from intake-completed on |
| `RepairDetailRules.RepairCompletedOrLater` | src/screens/partners/RepairDetailScreen.tsx:57 | the checklist is locked from repair-completed on |
| `RepairDetailRules.Panels` | src/screens/partners/RepairDetailScreen.tsx:54-57 | the due-date panel shows exactly when the checklist shows and is not locked |
| `RepairDetailRules.PanelsAlongFlow` | src/screens/partners/RepairDetailScreen.tsx:54-57 | in a flow where intake-completed precedes repair-completed, the due date shows iff intake ≤ index < repair-completed, and the items are locked iff index ≥ repair-completed. Showing and locking the items persist at later stages, and the estimate composer only disappears |
| `RepairDetailRules.PanelsWithContextFlow` | src/screens/partners/RepairDetailScreen.tsx:49-57 | with the context's own flow, every stage index the screen looks up is -1. At those indices the predicates of lines 54-57 give no due date, no estimate composer and a locked checklist. The render itself throws before that, at the call of the missing `getNextStatus` (line 52) |
| `RepairDetailRules.HasIncompleteItems` | src/screens/partners/RepairDetailScreen.tsx:73 | some checklist item is not done |
| `RepairDetailRules.OnManualNextStatus` | src/screens/partners/RepairDetailScreen.tsx:69-78 | no advance without a next status. The advance is blocked exactly when it goes from in-repair to repair-completed while an item is not done. Otherwise the dialog names the next status |
| `RepairDetailRules.ManualAdvanceEffect` | src/screens/partners/RepairDetailScreen.tsx:69-89 | the store's `goToNextStatus` runs only when the button is offered, the gate lets the advance through and the operator confirms. Otherwise the cases are unchanged |
| `RepairDetailRules.ChecklistGate` | src/screens/partners/RepairDetailScreen.tsx:72-78 | from in-repair to repair-completed, an open item keeps the store unchanged whatever the operator does. With all items done, a confirmed advance calls `goToNextStatus` |
| `RepairDetailRules.ChecklistGateWithContextFlow` | src/screens/partners/RepairDetailScreen.tsx:72-78 | with the context's flow, the gate's `'IN_REPAIR'` matches no case, so the gate never blocks, whatever the checklist holds |
| `RepairDetailRules.SameSerialHistory` | src/screens/partners/RepairDetailScreen.tsx:60-62 | the entries of the other cases with the same serial number, case by case in list order |
| `RepairDetailRules.SerialHistory` | src/screens/partners/RepairDetailScreen.tsx:64 | the case's own entries followed by the same-serial entries, before the date sort |
| `RepairDetailRules.SameSerialHistoryMembers` | src/screens/partners/RepairDetailScreen.tsx:60-62 | the same-serial part holds exactly the entries of the other cases (different id) with the same serial number |
| `RepairDetailRules.SerialHistoryMembers` | src/screens/partners/RepairDetailScreen.tsx:59-65 | the merged history holds exactly the case's own entries plus those of the other cases with the same serial number |
| `RepairDetailRules.SerialHistoryLength` | src/screens/partners/RepairDetailScreen.tsx:60-64 | the merged history has one entry per source entry: the case's own plus each same-serial case's |
| `RepairDetailRules.SameSerialHistoryMultiset` | src/screens/partners/RepairDetailScreen.tsx:60-62 | each entry occurs in the same-serial part as often as in the histories of the other same-serial cases together |
| `RepairDetailRules.SerialHistoryMultiset` | src/screens/partners/RepairDetailScreen.tsx:59-64 | each entry occurs in the merged history as often as in the case's own history plus the same-serial histories. The date sort keeps this multiset |
| `RepairDetailRules.VisibleHistory` | src/screens/partners/RepairDetailScreen.tsx:67 | expanded, the whole history is visible. Collapsed, the first min(2, length) entries are |
| `RepairDetailRules.HistoryToggle` | src/screens/partners/RepairDetailScreen.tsx:266-268 | no button up to two entries. Above that, "collapse" when expanded and "more (length − 2)" when collapsed |
| `RepairDetailRules.HistoryToggleCountsHidden` | src/screens/partners/RepairDetailScreen.tsx:266-268 | the collapsed list plus the hidden rest is the full history. The "more" button appears only when entries are hidden, and its count (length − 2) is exactly the number hidden |
| `RepairManageRules.PastManualCutoff` | src/screens/partners/RepairManageScreen.tsx:51-52 | `statusIdx >= MANUAL_STATUS_START_INDEX`, false when the cutoff is `undefined` |
| `RepairManageRules.AcceptOffered` | src/screens/partners/RepairManageScreen.tsx:94 | the accept action is offered exactly on a case whose status is `ESTIMATE_PENDING` |
| `RepairManageRules.PanelsFor` | src/screens/partners/RepairManageScreen.tsx:51-53 | the due-date and checklist panels always show together, and never when the cutoff is `undefined` |
| `RepairManageRules.ManagePanelsAlongFlow` | src/screens/partners/RepairManageScreen.tsx:51-53 | the two panels show iff the stage index ≥ `MANUAL_STATUS_START_INDEX`. They persist at later stages, while the estimate composer only disappears |
| `RepairManageRules.AcceptOfferedBeforeAccepted` | src/screens/partners/RepairManageScreen.tsx:94-98 | when pending precedes accepted in the flow, a case offering the accept action also shows the estimate composer. At the accepted stage the screen offers neither |
| `RepairManageRules.ManagePanelsWithContextFlow` | src/screens/partners/RepairManageScreen.tsx:48-53 | with the context's flow and no cutoff, the predicates of lines 51-53 and 94 are all false for every case. The render itself throws before that, at the call of the missing `getNextStatus` (line 49) |
| `RepairManageRules.ManageAdvanceEffect` | src/screens/partners/RepairManageScreen.tsx:55-61 | `goToNextStatus` runs exactly when the button is offered, there is a next status and the operator confirms |
| `RepairManageRules.ScreensAdvanceAlike` | src/screens/partners/RepairManageScreen.tsx:55-61 | the two screens' manual advances agree except when the detail screen's checklist gate blocks. In that case the detail screen leaves the cases unchanged |

## Left out

- Rendering, layout, styles, `StatusBadge` and `StatusStepBar` are not modelled. They are presentational; the step bar is one index comparison.
- Navigation and the app entry points are not part of this model.
- Alert dialogs are not modelled. Only their outcome is: a `confirmed` flag decides whether `goToNextStatus` is called.
- `createDateList` is not modelled. It reads the wall clock and does date arithmetic. A date is any ten-character string here.
- The date sort of the merged history (`RepairDetailScreen.tsx:64`) is not modelled, because it parses dates. `SerialHistoryMultiset` states how often each entry occurs, which the sort keeps, but not the order.
- String-to-number parsing (`Number(text)`) is not modelled. The parsed value is a parameter that is NaN, a finite real or an infinity.
- `saveCompletionDueAt`, `acceptEstimate`, `getNextStatus` and `canManuallyMoveToNextStatus` are not defined by the context. The model states only when the screens call them, and takes their results as parameters.
- The timeline, the list of estimates and estimate acceptance are not modelled, because the context has none of them.
- `consumerEstimateApi.ts` is not modelled. It is an asynchronous mock notifier, and the context's `sendEstimate` never calls it.
- The report screens are not modelled. They only read cases and compute with floating point and dates.
- The inspection and list screens and the static mock screens are not modelled. Their only effect on the store is `saveInspection`, which is modelled.
- React's state machinery is not modelled: `useMemo`, and the batching of `setCases(prev => …)`. Each method replaces the whole list at once, as the functional update does.
- The error thrown by `useRepairCases` outside its provider is not modelled.
- Locale formatting (`toLocaleString`) is not modelled.
- `SetStatusIdempotent`: the result is independent of the later clock reading only when the first reading is non-empty. An empty stamp is falsy and would be overwritten; `nowIso()` never returns one.
- `RepairStore.RepairCasesStore.Find`: its contract does not say which case is found when ids repeat. `RepairCases.FindCase` states that it is the first.
- One clock reading per operation: the source calls `nowIso()` again inside the updater for each matching case or item (`RepairCasesContext.tsx:139`, `:162`, `:212`). Cases or items that share an id can therefore get different stamps, while the model gives them all the same `now`. This matters only when ids repeat, for example two items added in the same millisecond, which `MintedIdsDiffer` excludes.
