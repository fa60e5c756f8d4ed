/** The provider's state: the list of repair cases, replaced as a whole by every
    operation (`setCases(prev => updateCase(prev, id, updater))`). */
module RepairStore {
  import opened JsValues
  import opened StatusFlow
  import opened RepairCases

  /** The three cases the provider starts with. */
  const InitialCases: seq<RepairCase> := [
    RepairCase("RC-1001", Some("김민수"), "Road Bike Pro 3", "RBP3-2391-AX", "IN-2026-0001",
               "2026-02-11T09:10:00.000Z", AwaitingInspection, None, None, [], None, None),
    RepairCase("RC-1002", Some("박지우"), "Urban E-Bike M2", "UEM2-7710-QP", "IN-2026-0002",
               "2026-02-11T10:25:00.000Z", Inspecting,
               Some(Inspection(true, false, true, true, false, None, Some("배터리 잔량 저하 이슈 확인 필요"))),
               None, [], None, None),
    RepairCase("RC-1003", Some("이서연"), "City Fold Mini", "CFM-3221-KK", "IN-2026-0003",
               "2026-02-10T16:45:00.000Z", InRepair, None, None,
               [RepairItem("ITEM-1", "브레이크 패드 교체", Some("앞바퀴 패드 마모 심함"), Some(1.0), None, true,
                           Some("2026-02-11T07:45:00.000Z")),
                RepairItem("ITEM-2", "체인 장력 조정", None, Some(0.5), None, false, None)],
               None, None)
  ]

  /** Every case's status is a stage of the flow (the `RepairStatus` type). */
  predicate AllInFlow(list: seq<RepairCase>) {
    forall c :: c in list ==> InFlow(c.status)
  }

  /** An update whose updater keeps statuses in the flow keeps the whole list in the flow. */
  lemma UpdateCaseKeepsFlow(list: seq<RepairCase>, id: string, updater: RepairCase -> RepairCase)
    requires AllInFlow(list)
    requires forall c: RepairCase :: InFlow(c.status) ==> InFlow(updater(c).status)
    ensures AllInFlow(UpdateCase(list, id, updater))
  {
    var r := UpdateCase(list, id, updater);
    forall c | c in r ensures InFlow(c.status) {
      var i :| 0 <= i < |r| && r[i] == c;
      assert list[i] in list;
    }
  }

  /** The starting cases have distinct ids and statuses of the flow, and their checklists
      keep completion times in step with `done`. */
  lemma InitialCasesWellFormed()
    ensures AllInFlow(InitialCases)
    ensures forall i, j :: 0 <= i < j < |InitialCases| ==> InitialCases[i].id != InitialCases[j].id
    ensures forall c, item :: c in InitialCases && item in c.repairItems ==> CompletionConsistent(item)
  {
  }

  class RepairCasesStore {
    var cases: seq<RepairCase>

    ghost predicate Valid()
      reads this
    {
      AllInFlow(cases)
    }

    /** `useState(initialCases)`. */
    constructor ()
      ensures Valid() && cases == InitialCases
    {
      cases := InitialCases;
    }

    /** `findCase`: the first case with the given id, or none. */
    function Find(id: Option<string>): (r: Option<RepairCase>)
      reads this
      ensures r.Some? ==> id.Some? && r.value in cases && r.value.id == id.value
      ensures r.None? ==> id.None? || forall c :: c in cases ==> c.id != id.value
    {
      FindCase(cases, id)
    }

    /** `setStatus`: jump to any status of the flow. */
    method SetStatus(id: string, status: Status, now: string)
      requires Valid() && InFlow(status)
      modifies this
      ensures Valid()
      ensures cases == UpdateCase(old(cases), id, c => SetStatusUpdate(c, status, now))
    {
      UpdateCaseKeepsFlow(cases, id, c => SetStatusUpdate(c, status, now));
      cases := UpdateCase(cases, id, c => SetStatusUpdate(c, status, now));
    }

    /** `goToNextStatus`. */
    method GoToNextStatus(id: string, now: string)
      requires Valid()
      modifies this
      ensures Valid()
      ensures cases == UpdateCase(old(cases), id, c => NextStatusUpdate(c, now))
      ensures forall i :: 0 <= i < |cases| && old(cases)[i].id == id ==>
                var k := IndexOf(Flow, old(cases)[i].status);
                IndexOf(Flow, cases[i].status) == if k < LastIndex && (k != 2 || EstimateSent(old(cases)[i])) then k + 1 else k
    {
      forall c: RepairCase | InFlow(c.status) ensures InFlow(NextStatusUpdate(c, now).status) {
        NextStatusIndex(c, now);
      }
      UpdateCaseKeepsFlow(cases, id, c => NextStatusUpdate(c, now));
      cases := UpdateCase(cases, id, c => NextStatusUpdate(c, now));
      forall i | 0 <= i < |cases| && old(cases)[i].id == id
        ensures var k := IndexOf(Flow, old(cases)[i].status);
                IndexOf(Flow, cases[i].status) == if k < LastIndex && (k != 2 || EstimateSent(old(cases)[i])) then k + 1 else k
      {
        assert old(cases)[i] in old(cases);
        NextStatusIndex(old(cases)[i], now);
      }
    }

    /** `goToPrevStatus`. */
    method GoToPrevStatus(id: string)
      requires Valid()
      modifies this
      ensures Valid()
      ensures cases == UpdateCase(old(cases), id, PrevStatusUpdate)
      ensures forall i :: 0 <= i < |cases| && old(cases)[i].id == id ==>
                var k := IndexOf(Flow, old(cases)[i].status);
                IndexOf(Flow, cases[i].status) == if k > 0 then k - 1 else k
    {
      UpdateCaseKeepsFlow(cases, id, PrevStatusUpdate);
      cases := UpdateCase(cases, id, PrevStatusUpdate);
      forall i | 0 <= i < |cases| && old(cases)[i].id == id
        ensures var k := IndexOf(Flow, old(cases)[i].status);
                IndexOf(Flow, cases[i].status) == if k > 0 then k - 1 else k
      {
        PrevStatusStep(old(cases)[i]);
      }
    }

    /** `saveInspection`. */
    method SaveInspection(id: string, payload: Inspection)
      requires Valid()
      modifies this
      ensures Valid()
      ensures cases == UpdateCase(old(cases), id, c => SaveInspectionUpdate(c, payload))
    {
      UpdateCaseKeepsFlow(cases, id, c => SaveInspectionUpdate(c, payload));
      cases := UpdateCase(cases, id, c => SaveInspectionUpdate(c, payload));
    }

    /** `addRepairItem`; `clock` is the `Date.now()` reading the new id is minted from. */
    method AddRepairItem(id: string, payload: ItemDraft, clock: nat)
      requires Valid()
      modifies this
      ensures Valid()
      ensures cases == UpdateCase(old(cases), id, c => AddRepairItemUpdate(c, id, payload, clock))
    {
      UpdateCaseKeepsFlow(cases, id, c => AddRepairItemUpdate(c, id, payload, clock));
      cases := UpdateCase(cases, id, c => AddRepairItemUpdate(c, id, payload, clock));
    }

    /** `toggleRepairItem`. */
    method ToggleRepairItem(id: string, itemId: string, now: string)
      requires Valid()
      modifies this
      ensures Valid()
      ensures cases == UpdateCase(old(cases), id, c => ToggleRepairItemUpdate(c, itemId, now))
    {
      UpdateCaseKeepsFlow(cases, id, c => ToggleRepairItemUpdate(c, itemId, now));
      cases := UpdateCase(cases, id, c => ToggleRepairItemUpdate(c, itemId, now));
    }

    /** `sendEstimate`. */
    method SendEstimate(id: string, amount: JsNumber, note: string, now: string)
      requires Valid()
      modifies this
      ensures Valid()
      ensures cases == UpdateCase(old(cases), id, c => SendEstimateUpdate(c, amount, note, now))
    {
      UpdateCaseKeepsFlow(cases, id, c => SendEstimateUpdate(c, amount, note, now));
      cases := UpdateCase(cases, id, c => SendEstimateUpdate(c, amount, note, now));
    }
  }

  /** A client of the store: after `sendEstimate`, `goToNextStatus` moves a case at the
      estimate-delivered stage on to parts preparation, and other cases stay as they were. */
  method EstimateThenAdvance(store: RepairCasesStore, id: string, amount: JsNumber, note: string, now: string, later: string)
    requires store.Valid() && now != ""
    requires forall c :: c in store.cases && c.id == id ==> c.status == EstimateDelivered
    modifies store
    ensures store.Valid()
    ensures |store.cases| == |old(store.cases)|
    ensures forall i :: 0 <= i < |store.cases| && old(store.cases[i]).id != id ==> store.cases[i] == old(store.cases[i])
    ensures forall i :: 0 <= i < |store.cases| && old(store.cases[i]).id == id ==> store.cases[i].status == PartsPreparation
  {
    store.SendEstimate(id, amount, note, now);
    store.GoToNextStatus(id, later);
    forall i | 0 <= i < |store.cases| && old(store.cases[i]).id == id
      ensures store.cases[i].status == PartsPreparation
    {
      assert old(store.cases[i]) in old(store.cases);
      SendEstimateEnablesPartsPreparation(old(store.cases[i]), amount, note, now, later);
    }
  }
}
