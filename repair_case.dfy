/** The repair case and its sub-records, the list update every operation goes
    through (`updateCase`), the per-case updaters of the store's operations,
    and `findCase`. Every updater is a pure function of the case; the clock
    (`nowIso()`, `Date.now()`) is a parameter. */
module RepairCases {
  import opened JsValues
  import opened StatusFlow

  /** One checklist task of a repair. */
  datatype RepairItem = RepairItem(
    id: string,
    title: string,
    note: Option<string>,
    expectedHours: Option<real>,
    actualHours: Option<real>,
    done: bool,
    completedAt: Option<string>)

  /** What a caller hands to `addRepairItem`: a repair item without its id. */
  datatype ItemDraft = ItemDraft(
    title: string,
    note: Option<string>,
    expectedHours: Option<real>,
    actualHours: Option<real>,
    done: bool,
    completedAt: Option<string>)

  /** The intake inspection sheet. */
  datatype Inspection = Inspection(
    brake: bool,
    tire: bool,
    battery: bool,
    drivetrain: bool,
    other: bool,
    otherText: Option<string>,
    memo: Option<string>)

  /** The single estimate a case carries. */
  datatype Estimate = Estimate(amount: Option<JsNumber>, note: Option<string>, sentAt: Option<string>)

  datatype RepairCase = RepairCase(
    id: string,
    customerName: Option<string>,
    deviceModel: string,
    serialNumber: string,
    intakeNumber: string,
    intakeAt: string,
    status: Status,
    inspection: Option<Inspection>,
    estimate: Option<Estimate>,
    repairItems: seq<RepairItem>,
    repairCompletedAt: Option<string>,
    pickupCompletedAt: Option<string>)

  // ---------------------------------------------------------------------------
  // updateCase and findCase

  /** `updateCase`: apply `updater` to every case whose id is `id`, keep the others. */
  function UpdateCase(list: seq<RepairCase>, id: string, updater: RepairCase -> RepairCase): (r: seq<RepairCase>)
    ensures |r| == |list|
    ensures forall i :: 0 <= i < |list| && list[i].id != id ==> r[i] == list[i]
    ensures forall i :: 0 <= i < |list| && list[i].id == id ==> r[i] == updater(list[i])
  {
    if list == [] then []
    else [if list[0].id == id then updater(list[0]) else list[0]] + UpdateCase(list[1..], id, updater)
  }

  /** `findCase`: the first case with the given id; an absent id (`undefined`) matches no case. */
  function FindCase(list: seq<RepairCase>, id: Option<string>): (r: Option<RepairCase>)
    ensures r.None? <==> id.None? || forall c :: c in list ==> c.id != id.value
    ensures r.Some? ==> exists i :: 0 <= i < |list| && list[i] == r.value && r.value.id == id.value
                                   && forall j :: 0 <= j < i ==> list[j].id != id.value
  {
    if id.None? || list == [] then None
    else if list[0].id == id.value then Some(list[0])
    else
      var r := FindCase(list[1..], id);
      assert r.Some? ==> exists i :: 0 <= i < |list| && list[i] == r.value && r.value.id == id.value
                                    && forall j :: 0 <= j < i ==> list[j].id != id.value by {
        if r.Some? {
          var i :| 0 <= i < |list[1..]| && list[1..][i] == r.value && r.value.id == id.value
                   && forall j :: 0 <= j < i ==> list[1..][j].id != id.value;
          assert list[i + 1] == r.value;
          assert forall j :: 0 <= j < i + 1 ==> list[j].id != id.value by {
            forall j | 0 <= j < i + 1 ensures list[j].id != id.value {
              if j > 0 { assert list[j] == list[1..][j - 1]; }
            }
          }
        }
      }
      r
  }

  /** Looking a case up after updating it finds the updated case: the update lands
      on exactly the case `findCase` would have returned. */
  lemma {:induction false} FindAfterUpdate(list: seq<RepairCase>, id: string, updater: RepairCase -> RepairCase)
    requires forall c :: updater(c).id == c.id
    ensures FindCase(UpdateCase(list, id, updater), Some(id)) ==
            (match FindCase(list, Some(id)) case None => None case Some(c) => Some(updater(c)))
  {
    if list != [] && list[0].id != id {
      var r := UpdateCase(list, id, updater);
      assert r[1..] == UpdateCase(list[1..], id, updater);
      FindAfterUpdate(list[1..], id, updater);
    }
  }

  /** Updating with an updater that does not change the targeted cases leaves the list as it was. */
  lemma UpdateCaseNoop(list: seq<RepairCase>, id: string, updater: RepairCase -> RepairCase)
    requires forall c :: c in list && c.id == id ==> updater(c) == c
    ensures UpdateCase(list, id, updater) == list
  {
    var r := UpdateCase(list, id, updater);
    assert forall i :: 0 <= i < |list| ==> r[i] == list[i];
  }

  /** Updating keeps the ids of all cases, in order, when the updater keeps the id. */
  lemma UpdateCaseKeepsIds(list: seq<RepairCase>, id: string, updater: RepairCase -> RepairCase, i: int)
    requires forall c :: updater(c).id == c.id
    requires 0 <= i < |list|
    ensures UpdateCase(list, id, updater)[i].id == list[i].id
  {
  }

  // ---------------------------------------------------------------------------
  // Status transitions

  /** Whether the case's estimate has been sent: `!!item.estimate?.sentAt`. */
  predicate EstimateSent(c: RepairCase) {
    c.estimate.Some? && Truthy(c.estimate.value.sentAt)
  }

  /** The new case `setStatus` builds (and `goToNextStatus` once it has picked the
      next stage): the new status, plus the completion or pickup stamp when that
      stage is entered and the stamp is missing. */
  function SetStatusUpdate(c: RepairCase, status: Status, now: string): (r: RepairCase)
    ensures r.status == status
    ensures r == c.(status := status, repairCompletedAt := r.repairCompletedAt, pickupCompletedAt := r.pickupCompletedAt)
    ensures Truthy(c.repairCompletedAt) || status != RepairCompleted ==> r.repairCompletedAt == c.repairCompletedAt
    ensures Truthy(c.pickupCompletedAt) || status != PickupCompleted ==> r.pickupCompletedAt == c.pickupCompletedAt
    ensures status == RepairCompleted && !Truthy(c.repairCompletedAt) ==> r.repairCompletedAt == Some(now)
    ensures status == PickupCompleted && !Truthy(c.pickupCompletedAt) ==> r.pickupCompletedAt == Some(now)
  {
    var withRepair := if status == RepairCompleted && !Truthy(c.repairCompletedAt) then Some(now) else c.repairCompletedAt;
    var withPickup := if status == PickupCompleted && !Truthy(c.pickupCompletedAt) then Some(now) else c.pickupCompletedAt;
    c.(status := status, repairCompletedAt := withRepair, pickupCompletedAt := withPickup)
  }

  /** Setting the same status a second time changes nothing, whatever the clock says
      then, because a stamp is only written when it is missing and `nowIso()` is never empty. */
  lemma SetStatusIdempotent(c: RepairCase, status: Status, now: string, later: string)
    requires now != ""
    ensures SetStatusUpdate(SetStatusUpdate(c, status, now), status, later) == SetStatusUpdate(c, status, now)
  {
  }

  /** The updater of `goToNextStatus`: one stage forward, unless the case is at the
      last stage or outside the flow, or the next stage is parts preparation and no
      estimate has been sent. */
  function NextStatusUpdate(c: RepairCase, now: string): (r: RepairCase)
    ensures r.id == c.id && r.estimate == c.estimate && r.repairItems == c.repairItems
  {
    var currentIdx := IndexOf(Flow, c.status);
    if currentIdx < 0 || currentIdx >= |Flow| - 1 then c
    else
      var nextStatus := Flow[currentIdx + 1];
      if nextStatus == PartsPreparation && !EstimateSent(c) then c
      else SetStatusUpdate(c, nextStatus, now)
  }

  /** Whether `goToNextStatus` moves the case: it is inside the flow, not at the last
      stage, and the estimate gate does not hold it back. */
  predicate CanAdvance(c: RepairCase) {
    var i := IndexOf(Flow, c.status);
    0 <= i < LastIndex && (Flow[i + 1] != PartsPreparation || EstimateSent(c))
  }

  /** The only gated stage is the one after estimate-delivered (index 2). */
  lemma CanAdvanceIndex(c: RepairCase)
    ensures var i := IndexOf(Flow, c.status);
            CanAdvance(c) <==> 0 <= i < LastIndex && (i != 2 || EstimateSent(c))
  {
    var i := IndexOf(Flow, c.status);
    if 0 <= i < LastIndex {
      FlowDistinct();
      assert PartsPreparation == Flow[3];
      assert Flow[i + 1] == Flow[3] <==> i + 1 == 3;
    }
  }

  /** `goToNextStatus` either moves exactly one stage forward or leaves the case
      untouched; it never skips a stage and never goes back. */
  lemma NextStatusStep(c: RepairCase, now: string)
    ensures var r := NextStatusUpdate(c, now);
            var i := IndexOf(Flow, c.status);
            && (CanAdvance(c) ==> IndexOf(Flow, r.status) == i + 1 && r == SetStatusUpdate(c, Flow[i + 1], now))
            && (!CanAdvance(c) ==> r == c)
  {
    var i := IndexOf(Flow, c.status);
    if CanAdvance(c) {
      FlowIndexOf(i + 1);
    }
  }

  /** At the last stage, or with a status outside the flow, `goToNextStatus` does nothing. */
  lemma NextStatusStopsAtEnd(c: RepairCase, now: string)
    requires c.status == PickupCompleted || !InFlow(c.status)
    ensures NextStatusUpdate(c, now) == c
  {
    FlowIndices();
  }

  /** The estimate gate: from the estimate-delivered stage the case only enters parts
      preparation once an estimate has been sent, and then it does. */
  lemma NextStatusEstimateGate(c: RepairCase, now: string)
    requires c.status == EstimateDelivered
    ensures NextStatusUpdate(c, now).status == (if EstimateSent(c) then PartsPreparation else EstimateDelivered)
    ensures !EstimateSent(c) ==> NextStatusUpdate(c, now) == c
  {
    FlowIndices();
  }

  /** The updater of `goToPrevStatus`: one stage back, stopping at the first stage;
      nothing but the status changes, so completion stamps stay. */
  function PrevStatusUpdate(c: RepairCase): (r: RepairCase)
    ensures r == c.(status := r.status)
  {
    var currentIdx := IndexOf(Flow, c.status);
    if currentIdx <= 0 then c else c.(status := Flow[currentIdx - 1])
  }

  /** `goToPrevStatus` is a no-op at the first stage (and outside the flow) and
      otherwise lowers the stage index by exactly one. */
  lemma PrevStatusStep(c: RepairCase)
    ensures var i := IndexOf(Flow, c.status);
            && (i <= 0 ==> PrevStatusUpdate(c) == c)
            && (i > 0 ==> IndexOf(Flow, PrevStatusUpdate(c).status) == i - 1)
  {
    var i := IndexOf(Flow, c.status);
    if i > 0 {
      FlowIndexOf(i - 1);
    }
  }

  /** Going back after a forward move restores the case, unless the forward move
      stamped a completion or pickup time: going back does not clear stamps. */
  lemma PrevAfterNext(c: RepairCase, now: string)
    requires CanAdvance(c)
    ensures var i := IndexOf(Flow, c.status);
            var back := PrevStatusUpdate(NextStatusUpdate(c, now));
            var noNewStamp := (Flow[i + 1] != RepairCompleted || Truthy(c.repairCompletedAt)) &&
                              (Flow[i + 1] != PickupCompleted || Truthy(c.pickupCompletedAt));
            back.status == c.status && (noNewStamp ==> back == c)
  {
    var i := IndexOf(Flow, c.status);
    NextStatusStep(c, now);
    FlowIndexOf(i + 1);
    FlowIndexOf(i);
  }

  /** Going forward after a backward move restores the case, provided the forward
      move is allowed (the estimate gate) and does not add a missing stamp. */
  lemma NextAfterPrev(c: RepairCase, now: string)
    requires 0 < IndexOf(Flow, c.status)
    requires c.status == PartsPreparation ==> EstimateSent(c)
    requires c.status == RepairCompleted ==> Truthy(c.repairCompletedAt)
    requires c.status == PickupCompleted ==> Truthy(c.pickupCompletedAt)
    ensures NextStatusUpdate(PrevStatusUpdate(c), now) == c
  {
    var i := IndexOf(Flow, c.status);
    var p := PrevStatusUpdate(c);
    FlowIndexOf(i - 1);
    FlowIndexOf(i);
    assert IndexOf(Flow, p.status) == i - 1;
  }

  /** One forward move seen through stage indices only. */
  lemma NextStatusIndex(c: RepairCase, now: string)
    requires InFlow(c.status)
    ensures var i := IndexOf(Flow, c.status);
            var d := NextStatusUpdate(c, now);
            && InFlow(d.status)
            && EstimateSent(d) == EstimateSent(c)
            && IndexOf(Flow, d.status) == if 0 <= i < LastIndex && (i != 2 || EstimateSent(c)) then i + 1 else i
  {
    NextStatusStep(c, now);
    CanAdvanceIndex(c);
    var i := IndexOf(Flow, c.status);
    if CanAdvance(c) {
      assert NextStatusUpdate(c, now).status == Flow[i + 1];
    }
  }

  /** The stage index `n` forward moves reach from index `i`: one stage per move up to
      the last stage, or, without a sent estimate, up to estimate delivered (index 2). */
  function ReachedIndex(i: int, n: nat, sent: bool): int {
    var stop := if sent || i > 2 then LastIndex else 2;
    if i + n < stop then i + n else stop
  }

  /** One forward move, then `n - 1` more, reach the stage `n` moves reach. */
  lemma AdvanceStep(c: RepairCase, n: nat, now: string)
    requires n > 0
    ensures var d := NextStatusUpdate(c, now);
            InFlow(c.status) ==>
              && InFlow(d.status)
              && ReachedIndex(IndexOf(Flow, d.status), n - 1, EstimateSent(d)) ==
                 ReachedIndex(IndexOf(Flow, c.status), n, EstimateSent(c))
  {
    if InFlow(c.status) {
      NextStatusIndex(c, now);
    }
  }

  /** `goToNextStatus` applied `n` times with the same clock reading: the estimate is never
      touched, and from a stage of the flow the moves climb one stage each until they reach
      the last stage, or, without a sent estimate, the estimate-delivered stage. */
  function AdvanceTimes(c: RepairCase, n: nat, now: string): (r: RepairCase)
    ensures r.estimate == c.estimate
    ensures InFlow(c.status) ==>
              InFlow(r.status) && IndexOf(Flow, r.status) == ReachedIndex(IndexOf(Flow, c.status), n, EstimateSent(c))
    decreases n
  {
    if n == 0 then c
    else
      AdvanceStep(c, n, now);
      AdvanceTimes(NextStatusUpdate(c, now), n - 1, now)
  }

  // ---------------------------------------------------------------------------
  // Inspection, checklist and estimate

  /** The updater of `saveInspection`: store the sheet, and start inspecting a case
      that was waiting for inspection. */
  function SaveInspectionUpdate(c: RepairCase, payload: Inspection): (r: RepairCase)
    ensures r == c.(inspection := Some(payload), status := r.status)
    ensures c.status == AwaitingInspection ==> r.status == Inspecting
    ensures c.status != AwaitingInspection ==> r.status == c.status
  {
    c.(inspection := Some(payload), status := if c.status == AwaitingInspection then Inspecting else c.status)
  }

  /** Saving the same sheet twice is the same as saving it once. */
  lemma SaveInspectionIdempotent(c: RepairCase, payload: Inspection)
    ensures SaveInspectionUpdate(SaveInspectionUpdate(c, payload), payload) == SaveInspectionUpdate(c, payload)
  {
  }

  /** The id `addRepairItem` mints: `${id}-I-${Date.now()}`. */
  function MintItemId(caseId: string, clock: nat): (r: string)
    ensures |r| == |caseId| + 3 + |DecimalString(clock)|
    ensures r[..|caseId|] == caseId && r[|caseId|..|caseId| + 3] == "-I-"
    ensures r[|caseId| + 3..] == DecimalString(clock)
  {
    caseId + "-I-" + DecimalString(clock)
  }

  /** Items added to one case at different clock readings get different ids. */
  lemma MintedIdsDiffer(caseId: string, clock1: nat, clock2: nat)
    requires clock1 != clock2
    ensures MintItemId(caseId, clock1) != MintItemId(caseId, clock2)
  {
    if MintItemId(caseId, clock1) == MintItemId(caseId, clock2) {
      DecimalStringInjective(clock1, clock2);
    }
  }

  /** `{ ...payload, id }`. */
  function ItemFromDraft(draft: ItemDraft, id: string): (r: RepairItem)
    ensures r.id == id && r.title == draft.title && r.note == draft.note && r.done == draft.done
    ensures r.expectedHours == draft.expectedHours && r.actualHours == draft.actualHours
    ensures r.completedAt == draft.completedAt
  {
    RepairItem(id, draft.title, draft.note, draft.expectedHours, draft.actualHours, draft.done, draft.completedAt)
  }

  /** The updater of `addRepairItem`: exactly one item appended after the existing ones. */
  function AddRepairItemUpdate(c: RepairCase, caseId: string, draft: ItemDraft, clock: nat): (r: RepairCase)
    ensures r == c.(repairItems := r.repairItems)
    ensures |r.repairItems| == |c.repairItems| + 1
    ensures r.repairItems[..|c.repairItems|] == c.repairItems
    ensures r.repairItems[|c.repairItems|] == ItemFromDraft(draft, MintItemId(caseId, clock))
  {
    c.(repairItems := c.repairItems + [ItemFromDraft(draft, MintItemId(caseId, clock))])
  }

  /** Flip one checklist item: `done` is negated and `completedAt` follows it. */
  function ToggleItem(item: RepairItem, now: string): (r: RepairItem)
    ensures r == item.(done := r.done, completedAt := r.completedAt)
    ensures r.done == !item.done
    ensures r.completedAt == if r.done then Some(now) else None
  {
    item.(done := !item.done, completedAt := if !item.done then Some(now) else None)
  }

  /** `repairItems.map(...)` of `toggleRepairItem`: flip the items with the given id. */
  function ToggleItems(items: seq<RepairItem>, itemId: string, now: string): (r: seq<RepairItem>)
    ensures |r| == |items|
    ensures forall k :: 0 <= k < |items| && items[k].id != itemId ==> r[k] == items[k]
    ensures forall k :: 0 <= k < |items| && items[k].id == itemId ==> r[k] == ToggleItem(items[k], now)
  {
    if items == [] then []
    else [if items[0].id == itemId then ToggleItem(items[0], now) else items[0]] + ToggleItems(items[1..], itemId, now)
  }

  /** The updater of `toggleRepairItem`: only the checklist changes. */
  function ToggleRepairItemUpdate(c: RepairCase, itemId: string, now: string): (r: RepairCase)
    ensures r == c.(repairItems := r.repairItems)
    ensures (forall item :: item in c.repairItems ==> item.id != itemId) ==> r == c
  {
    var r := c.(repairItems := ToggleItems(c.repairItems, itemId, now));
    assert (forall item :: item in c.repairItems ==> item.id != itemId) ==> r.repairItems == c.repairItems;
    r
  }

  /** The checklist invariant: a completion time is present exactly when the item is done. */
  predicate CompletionConsistent(item: RepairItem) {
    item.completedAt.Some? <==> item.done
  }

  /** Toggling keeps every item's completion time in step with its `done` flag. */
  lemma ToggleKeepsCompletionConsistent(c: RepairCase, itemId: string, now: string)
    requires forall item :: item in c.repairItems ==> CompletionConsistent(item)
    ensures forall item :: item in ToggleRepairItemUpdate(c, itemId, now).repairItems ==> CompletionConsistent(item)
  {
    var items := ToggleRepairItemUpdate(c, itemId, now).repairItems;
    forall item | item in items ensures CompletionConsistent(item) {
      var k :| 0 <= k < |items| && items[k] == item;
      assert c.repairItems[k] in c.repairItems;
    }
  }

  /** With distinct item ids, toggling an existing id changes exactly that one item,
      and toggling it again restores its `done` flag. */
  lemma ToggleExactlyOne(c: RepairCase, k: int, now: string, later: string)
    requires forall i, j :: 0 <= i < j < |c.repairItems| ==> c.repairItems[i].id != c.repairItems[j].id
    requires 0 <= k < |c.repairItems|
    ensures var r := ToggleRepairItemUpdate(c, c.repairItems[k].id, now).repairItems;
            && r[k].done == !c.repairItems[k].done
            && (forall j :: 0 <= j < |r| && j != k ==> r[j] == c.repairItems[j])
    ensures var twice := ToggleRepairItemUpdate(ToggleRepairItemUpdate(c, c.repairItems[k].id, now), c.repairItems[k].id, later);
            twice.repairItems[k].done == c.repairItems[k].done
  {
  }

  /** The updater of `sendEstimate`: overwrite the single estimate, stamped now. */
  function SendEstimateUpdate(c: RepairCase, amount: JsNumber, note: string, now: string): (r: RepairCase)
    ensures r == c.(estimate := r.estimate)
    ensures r.estimate == Some(Estimate(Some(amount), Some(note), Some(now)))
    ensures now != "" ==> EstimateSent(r)
  {
    c.(estimate := Some(Estimate(Some(amount), Some(note), Some(now))))
  }

  /** Sending an estimate opens the gate: a case at the estimate-delivered stage then
      moves on to parts preparation. */
  lemma SendEstimateEnablesPartsPreparation(c: RepairCase, amount: JsNumber, note: string, now: string, later: string)
    requires c.status == EstimateDelivered
    requires now != ""
    ensures NextStatusUpdate(SendEstimateUpdate(c, amount, note, now), later).status == PartsPreparation
  {
    NextStatusEstimateGate(SendEstimateUpdate(c, amount, note, now), later);
  }

  /** The forward move out of in-repair looks at no checklist: whatever the case's items
      hold, it moves on to repair-completed. */
  lemma NextStatusIgnoresChecklist(c: RepairCase, now: string)
    requires c.status == InRepair
    ensures NextStatusUpdate(c, now).status == RepairCompleted
  {
    FlowIndexOf(4);
    CanAdvanceIndex(c);
    NextStatusStep(c, now);
    assert Flow[5] == RepairCompleted;
  }

  // ---------------------------------------------------------------------------
  // Every updater keeps the case's identity and a status of the flow

  lemma UpdatersKeepFlow(c: RepairCase, status: Status, now: string, payload: Inspection, itemId: string,
                         caseId: string, draft: ItemDraft, clock: nat, amount: JsNumber, note: string)
    requires InFlow(c.status) && InFlow(status)
    ensures InFlow(SetStatusUpdate(c, status, now).status)
    ensures InFlow(NextStatusUpdate(c, now).status)
    ensures InFlow(PrevStatusUpdate(c).status)
    ensures InFlow(SaveInspectionUpdate(c, payload).status)
    ensures InFlow(AddRepairItemUpdate(c, caseId, draft, clock).status)
    ensures InFlow(ToggleRepairItemUpdate(c, itemId, now).status)
    ensures InFlow(SendEstimateUpdate(c, amount, note, now).status)
  {
  }
}
