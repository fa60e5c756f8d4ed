/** The decision rules of the repair status-update screen: the panels shown from
    the manual-advance cutoff on, the estimate composer, the accept action on the
    estimates, and its manual advance, which has no checklist gate. The cutoff
    `MANUAL_STATUS_START_INDEX` is not exported by `RepairCasesContext.tsx`; it is a
    parameter that may be absent (`undefined`). */
module RepairManageRules {
  import opened JsValues
  import opened StatusFlow
  import opened RepairCases
  import opened ScreenCommon
  import opened RepairDetailRules

  /** `statusIdx >= MANUAL_STATUS_START_INDEX`; a comparison with `undefined` is false. */
  predicate PastManualCutoff(statusIdx: int, manualStart: Option<int>) {
    manualStart.Some? && statusIdx >= manualStart.value
  }

  /** The panels of a stage, as this screen decides them. */
  datatype ManagePanels = ManagePanels(dueDate: bool, repairItems: bool, estimateComposer: bool)

  function PanelsFor(statusIdx: int, manualStart: Option<int>, acceptedIdx: int): (p: ManagePanels)
    ensures p.dueDate == p.repairItems
    ensures manualStart.None? ==> !p.dueDate
  {
    ManagePanels(PastManualCutoff(statusIdx, manualStart), PastManualCutoff(statusIdx, manualStart),
                 EstimateComposerShown(statusIdx, acceptedIdx))
  }

  /** Along any flow, once a stage shows the due-date and checklist panels every later
      stage does, and once a stage hides the estimate composer every later stage does. */
  lemma ManagePanelsAlongFlow(flow: seq<Status>, manualStart: Option<int>, accepted: Status, i: int, j: int)
    requires Distinct(flow)
    requires 0 <= i <= j < |flow|
    ensures var x := IndexOf(flow, accepted);
            var p, q := PanelsFor(IndexOf(flow, flow[i]), manualStart, x), PanelsFor(IndexOf(flow, flow[j]), manualStart, x);
            && (p.dueDate ==> q.dueDate)
            && (q.estimateComposer ==> p.estimateComposer)
            && (p.dueDate <==> manualStart.Some? && i >= manualStart.value)
  {
    IndexOfDistinct(flow, i);
    IndexOfDistinct(flow, j);
  }

  /** `item.status === 'ESTIMATE_PENDING'`: the accept action is offered on every estimate or on none. */
  predicate AcceptOffered(status: Status, pending: Status) {
    status == pending
  }

  /** When the pending stage comes before the accepted stage, a case offering the accept
      action also shows the estimate composer; the accepted stage itself offers neither. */
  lemma AcceptOfferedBeforeAccepted(flow: seq<Status>, s: Status, pending: Status, accepted: Status, manualStart: Option<int>)
    requires Distinct(flow)
    requires pending in flow && accepted in flow
    requires IndexOf(flow, pending) < IndexOf(flow, accepted)
    ensures AcceptOffered(s, pending) ==>
              PanelsFor(IndexOf(flow, s), manualStart, IndexOf(flow, accepted)).estimateComposer
    ensures s == accepted ==>
              !AcceptOffered(s, pending) && !PanelsFor(IndexOf(flow, s), manualStart, IndexOf(flow, accepted)).estimateComposer
  {
  }

  /** With the flow the context defines and the cutoff missing, this screen shows neither
      the due-date and checklist panels nor the estimate composer for any case, and it
      offers the accept action on none. */
  lemma ManagePanelsWithContextFlow(s: Status)
    requires InFlow(s)
    ensures PanelsFor(IndexOf(Flow, s), None, IndexOf(Flow, "ESTIMATE_ACCEPTED")) == ManagePanels(false, false, false)
    ensures !AcceptOffered(s, "ESTIMATE_PENDING")
  {
    LatinNamesNotInFlow("ESTIMATE_ACCEPTED");
    LatinNamesNotInFlow("ESTIMATE_PENDING");
  }

  /** This screen's "next stage" button: no advance without a next status, otherwise the
      store's `goToNextStatus` once the operator confirms. */
  function ManageAdvanceEffect(cases: seq<RepairCase>, c: RepairCase, canManuallyMove: bool, nextStatus: Option<Status>,
                               confirmed: bool, now: string): (r: seq<RepairCase>)
    ensures !(canManuallyMove && Truthy(nextStatus) && confirmed) ==> r == cases
    ensures canManuallyMove && Truthy(nextStatus) && confirmed ==> r == UpdateCase(cases, c.id, x => NextStatusUpdate(x, now))
  {
    if canManuallyMove && Truthy(nextStatus) && confirmed then UpdateCase(cases, c.id, x => NextStatusUpdate(x, now))
    else cases
  }

  /** The two screens advance alike except that the detail screen holds back the move into
      repair-completed while a checklist item is open. */
  lemma ScreensAdvanceAlike(cases: seq<RepairCase>, c: RepairCase, canManuallyMove: bool, nextStatus: Option<Status>,
                            inRepair: Status, repairDone: Status, confirmed: bool, now: string)
    ensures var detail := ManualAdvanceEffect(cases, c, canManuallyMove, nextStatus, inRepair, repairDone, confirmed, now);
            var manage := ManageAdvanceEffect(cases, c, canManuallyMove, nextStatus, confirmed, now);
            && (!OnManualNextStatus(c, nextStatus, inRepair, repairDone).BlockedByChecklist? ==> detail == manage)
            && (OnManualNextStatus(c, nextStatus, inRepair, repairDone).BlockedByChecklist? ==> detail == cases)
  {
  }
}
