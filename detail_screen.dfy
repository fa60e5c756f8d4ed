/** The decision rules of the repair detail screen: which panels a case's stage
    shows, the checklist gate in front of a manual advance, and the same-serial
    history list. The screen names stages, a stage-index cutoff and store helpers
    that `RepairCasesContext.tsx` does not define; those arrive here as parameters
    (stage indices, the next status, whether a manual move is allowed). */
module RepairDetailRules {
  import opened JsValues
  import opened StatusFlow
  import opened RepairCases
  import opened ScreenCommon

  // ---------------------------------------------------------------------------
  // Stage visibility

  /** `statusIdx >= intakeCompletedIndex && statusIdx < repairCompletedIndex`. */
  predicate DueDateShown(statusIdx: int, intakeIdx: int, repairDoneIdx: int) {
    intakeIdx <= statusIdx && statusIdx < repairDoneIdx
  }

  /** `statusIdx >= intakeCompletedIndex`. */
  predicate RepairItemsShown(statusIdx: int, intakeIdx: int) {
    statusIdx >= intakeIdx
  }

  /** `statusIdx >= repairCompletedIndex`: toggling and adding items are disabled. */
  predicate RepairCompletedOrLater(statusIdx: int, repairDoneIdx: int) {
    statusIdx >= repairDoneIdx
  }

  /** The panels of a stage, as the screen decides them. */
  datatype DetailPanels = DetailPanels(dueDate: bool, repairItems: bool, itemsLocked: bool, estimateComposer: bool)

  function Panels(statusIdx: int, intakeIdx: int, repairDoneIdx: int, acceptedIdx: int): (p: DetailPanels)
    ensures p.dueDate <==> p.repairItems && !p.itemsLocked
  {
    DetailPanels(DueDateShown(statusIdx, intakeIdx, repairDoneIdx), RepairItemsShown(statusIdx, intakeIdx),
                 RepairCompletedOrLater(statusIdx, repairDoneIdx), EstimateComposerShown(statusIdx, acceptedIdx))
  }

  /** Over a flow whose intake-completed stage precedes its repair-completed stage, the
      stages fall into three runs: before intake nothing of the checklist is shown; from
      intake to before repair-completed the due date and an editable checklist are shown;
      from repair-completed on the checklist is shown locked. Each panel's set of stages
      is closed upwards or downwards accordingly. */
  lemma PanelsAlongFlow(flow: seq<Status>, intake: Status, repairDone: Status, accepted: Status, i: int, j: int)
    requires Distinct(flow)
    requires intake in flow && repairDone in flow
    requires IndexOf(flow, intake) < IndexOf(flow, repairDone)
    requires 0 <= i <= j < |flow|
    ensures var a, b, x := IndexOf(flow, intake), IndexOf(flow, repairDone), IndexOf(flow, accepted);
            var p, q := Panels(IndexOf(flow, flow[i]), a, b, x), Panels(IndexOf(flow, flow[j]), a, b, x);
            && (p.repairItems ==> q.repairItems)
            && (p.itemsLocked ==> q.itemsLocked)
            && (q.estimateComposer ==> p.estimateComposer)
            && (p.dueDate <==> a <= i < b)
            && (p.itemsLocked <==> i >= b)
  {
    IndexOfDistinct(flow, i);
    IndexOfDistinct(flow, j);
  }

  /** The flow the context actually defines has none of the screen's stage names, so
      every `indexOf` the screen takes of them is -1: for every case of that flow the
      due-date panel never shows, the estimate composer never shows, and the checklist
      shows but is always locked. */
  lemma PanelsWithContextFlow(s: Status)
    requires InFlow(s)
    ensures var a, b, x := IndexOf(Flow, "INTAKE_COMPLETED"), IndexOf(Flow, "REPAIR_COMPLETED"), IndexOf(Flow, "ESTIMATE_ACCEPTED");
            a == -1 && b == -1 && x == -1 &&
            Panels(IndexOf(Flow, s), a, b, x) == DetailPanels(false, true, true, false)
  {
    LatinNamesNotInFlow("INTAKE_COMPLETED");
    LatinNamesNotInFlow("REPAIR_COMPLETED");
    LatinNamesNotInFlow("ESTIMATE_ACCEPTED");
  }

  // ---------------------------------------------------------------------------
  // Manual advance

  /** What pressing "next stage" leads to. */
  datatype ManualAdvance = NoNextStatus | BlockedByChecklist | AskToAdvance(next: Status)

  /** Whether any checklist item is still open: `repairItems.some((r) => !r.done)`. */
  predicate HasIncompleteItems(c: RepairCase) {
    exists k :: 0 <= k < |c.repairItems| && !c.repairItems[k].done
  }

  /** `onManualNextStatus`: nothing without a next status; blocked when the move is from
      in-repair to repair-completed and an item is still open; otherwise the confirmation
      dialog for the next status. */
  function OnManualNextStatus(c: RepairCase, nextStatus: Option<Status>, inRepair: Status, repairDone: Status): (r: ManualAdvance)
    ensures r.NoNextStatus? <==> !Truthy(nextStatus)
    ensures r.BlockedByChecklist? <==>
              Truthy(nextStatus) && c.status == inRepair && nextStatus.value == repairDone && HasIncompleteItems(c)
    ensures r.AskToAdvance? ==> r.next == nextStatus.value
  {
    if !Truthy(nextStatus) then NoNextStatus
    else if c.status == inRepair && nextStatus.value == repairDone && HasIncompleteItems(c) then BlockedByChecklist
    else AskToAdvance(nextStatus.value)
  }

  /** The case list after the operator uses the "next stage" button. The button is there
      only when a manual move is allowed and there is a next status; the store's
      `goToNextStatus` is called only once the operator confirms the dialog. */
  function ManualAdvanceEffect(cases: seq<RepairCase>, c: RepairCase, canManuallyMove: bool, nextStatus: Option<Status>,
                               inRepair: Status, repairDone: Status, confirmed: bool, now: string): (r: seq<RepairCase>)
    ensures !canManuallyMove || !confirmed ==> r == cases
    ensures !OnManualNextStatus(c, nextStatus, inRepair, repairDone).AskToAdvance? ==> r == cases
    ensures canManuallyMove && confirmed && OnManualNextStatus(c, nextStatus, inRepair, repairDone).AskToAdvance? ==>
              r == UpdateCase(cases, c.id, x => NextStatusUpdate(x, now))
  {
    if canManuallyMove && Truthy(nextStatus) && confirmed
       && OnManualNextStatus(c, nextStatus, inRepair, repairDone).AskToAdvance?
    then UpdateCase(cases, c.id, x => NextStatusUpdate(x, now))
    else cases
  }

  /** The checklist gate: a move from in-repair to repair-completed with an open item
      never reaches the store, whatever the operator does; with every item done it does. */
  lemma ChecklistGate(cases: seq<RepairCase>, c: RepairCase, inRepair: Status, repairDone: Status, confirmed: bool, now: string)
    requires c.status == inRepair && repairDone != ""
    ensures HasIncompleteItems(c) ==>
              ManualAdvanceEffect(cases, c, true, Some(repairDone), inRepair, repairDone, confirmed, now) == cases
    ensures !HasIncompleteItems(c) && confirmed ==>
              ManualAdvanceEffect(cases, c, true, Some(repairDone), inRepair, repairDone, confirmed, now) ==
              UpdateCase(cases, c.id, x => NextStatusUpdate(x, now))
  {
  }

  /** The gate compares the status with `'IN_REPAIR'`, which is no stage of the context's
      flow: for every case of that flow it never blocks, whatever the checklist holds. */
  lemma ChecklistGateWithContextFlow(c: RepairCase, nextStatus: Option<Status>)
    requires InFlow(c.status)
    ensures !OnManualNextStatus(c, nextStatus, "IN_REPAIR", "REPAIR_COMPLETED").BlockedByChecklist?
  {
    LatinNamesNotInFlow("IN_REPAIR");
  }

  // ---------------------------------------------------------------------------
  // Same-serial repair history

  /** One past repair as the history list shows it. */
  datatype HistoryEntry = HistoryEntry(date: string, repairItem: string, memo: string)

  /** The fields of a case the history list reads. */
  datatype HistoryCase = HistoryCase(id: string, serialNumber: string, repairHistory: seq<HistoryEntry>)

  /** Another case with the same serial number. */
  predicate SameSerialOther(other: HistoryCase, item: HistoryCase) {
    other.id != item.id && other.serialNumber == item.serialNumber
  }

  /** `cases.filter(sameSerialOther).flatMap((c) => c.repairHistory)`. */
  function SameSerialHistory(cases: seq<HistoryCase>, item: HistoryCase): seq<HistoryEntry> {
    if cases == [] then []
    else (if SameSerialOther(cases[0], item) then cases[0].repairHistory else []) + SameSerialHistory(cases[1..], item)
  }

  /** `[...item.repairHistory, ...sameSerialHistory]` (before sorting by date). */
  function SerialHistory(cases: seq<HistoryCase>, item: HistoryCase): seq<HistoryEntry> {
    item.repairHistory + SameSerialHistory(cases, item)
  }

  /** The merged history holds exactly the case's own entries and those of the other
      cases with the same serial number. */
  lemma {:induction false} SameSerialHistoryMembers(cases: seq<HistoryCase>, item: HistoryCase, h: HistoryEntry)
    ensures h in SameSerialHistory(cases, item) <==>
            exists k :: 0 <= k < |cases| && SameSerialOther(cases[k], item) && h in cases[k].repairHistory
  {
    if cases != [] {
      SameSerialHistoryMembers(cases[1..], item, h);
      if h in SameSerialHistory(cases[1..], item) {
        var k :| 0 <= k < |cases[1..]| && SameSerialOther(cases[1..][k], item) && h in cases[1..][k].repairHistory;
        assert cases[k + 1] == cases[1..][k];
      }
      if exists k :: 0 <= k < |cases| && SameSerialOther(cases[k], item) && h in cases[k].repairHistory {
        var k :| 0 <= k < |cases| && SameSerialOther(cases[k], item) && h in cases[k].repairHistory;
        if k > 0 {
          assert cases[1..][k - 1] == cases[k];
        }
      }
    }
  }

  lemma SerialHistoryMembers(cases: seq<HistoryCase>, item: HistoryCase, h: HistoryEntry)
    ensures h in SerialHistory(cases, item) <==>
            h in item.repairHistory ||
            exists k :: 0 <= k < |cases| && SameSerialOther(cases[k], item) && h in cases[k].repairHistory
  {
    SameSerialHistoryMembers(cases, item, h);
  }

  /** The entries of every other case with the same serial number, counted with repetition. */
  function SameSerialEntries(cases: seq<HistoryCase>, item: HistoryCase): multiset<HistoryEntry> {
    if cases == [] then multiset{}
    else (if SameSerialOther(cases[0], item) then multiset(cases[0].repairHistory) else multiset{})
         + SameSerialEntries(cases[1..], item)
  }

  /** Each entry occurs in the merged history exactly as often as in the case's own history
      plus the histories of the other cases with the same serial number; the sort by date
      that follows on the screen keeps this multiset. */
  lemma {:induction false} SerialHistoryMultiset(cases: seq<HistoryCase>, item: HistoryCase)
    ensures multiset(SerialHistory(cases, item)) == multiset(item.repairHistory) + SameSerialEntries(cases, item)
  {
    SameSerialHistoryMultiset(cases, item);
  }

  lemma {:induction false} SameSerialHistoryMultiset(cases: seq<HistoryCase>, item: HistoryCase)
    ensures multiset(SameSerialHistory(cases, item)) == SameSerialEntries(cases, item)
  {
    if cases != [] {
      SameSerialHistoryMultiset(cases[1..], item);
      var head := if SameSerialOther(cases[0], item) then cases[0].repairHistory else [];
      assert SameSerialHistory(cases, item) == head + SameSerialHistory(cases[1..], item);
    }
  }

  /** The list holds every entry once per case it comes from: its length is the case's own
      entries plus the entries of every other case with the same serial number. */
  function SameSerialCount(cases: seq<HistoryCase>, item: HistoryCase): nat {
    if cases == [] then 0
    else (if SameSerialOther(cases[0], item) then |cases[0].repairHistory| else 0) + SameSerialCount(cases[1..], item)
  }

  lemma {:induction false} SerialHistoryLength(cases: seq<HistoryCase>, item: HistoryCase)
    ensures |SerialHistory(cases, item)| == |item.repairHistory| + SameSerialCount(cases, item)
  {
    if cases != [] {
      SerialHistoryLength(cases[1..], item);
    }
  }

  /** `showFullHistory ? serialHistory : serialHistory.slice(0, 2)`. */
  function VisibleHistory(history: seq<HistoryEntry>, expanded: bool): (r: seq<HistoryEntry>)
    ensures expanded ==> r == history
    ensures !expanded ==> |r| == (if |history| < 2 then |history| else 2) && r == history[..|r|]
  {
    if expanded then history else if |history| < 2 then history else history[..2]
  }

  /** The toggle under the history list. */
  datatype HistoryButton = NoButton | ShowMore(hidden: nat) | Collapse

  /** `serialHistory.length > 2 && (showFullHistory ? '접기' : `더보기 (${length - 2}건)`)`. */
  function HistoryToggle(history: seq<HistoryEntry>, expanded: bool): HistoryButton {
    if |history| <= 2 then NoButton else if expanded then Collapse else ShowMore(|history| - 2)
  }

  /** Collapsed, the list shows a prefix and the "more" button counts exactly the entries
      it leaves out; there is a button only when something would be hidden. */
  lemma HistoryToggleCountsHidden(history: seq<HistoryEntry>, expanded: bool)
    ensures var shown := VisibleHistory(history, false);
            && shown + history[|shown|..] == history
            && (HistoryToggle(history, false) == if |history[|shown|..]| == 0 then NoButton else ShowMore(|history[|shown|..]|))
            && (HistoryToggle(history, expanded).NoButton? <==> VisibleHistory(history, false) == history)
  {
  }
}
