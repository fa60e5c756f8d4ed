/** The repair lifecycle: `STATUS_FLOW`, a fixed, totally ordered list of seven
    stages, and the `indexOf` lookup every transition is computed from. */
module StatusFlow {

  /** A status is the stage's name; the store's type only admits the names in `Flow`. */
  type Status = string

  const AwaitingInspection: Status := "점검대기"
  const Inspecting: Status := "점검중"
  const EstimateDelivered: Status := "견적 전달"
  const PartsPreparation: Status := "부품 준비"
  const InRepair: Status := "수리 진행 중"
  const RepairCompleted: Status := "수리 완료"
  const PickupCompleted: Status := "수령 완료"

  /** `STATUS_FLOW`, first stage to last. */
  const Flow: seq<Status> := [AwaitingInspection, Inspecting, EstimateDelivered, PartsPreparation,
                               InRepair, RepairCompleted, PickupCompleted]

  /** Index of the last stage, `STATUS_FLOW.length - 1`. */
  const LastIndex: int := |Flow| - 1

  predicate InFlow(s: Status) {
    s in Flow
  }

  /** `xs.indexOf(x)`: the first position holding `x`, or -1 when there is none. */
  function IndexOf<T(==)>(xs: seq<T>, x: T): (r: int)
    ensures -1 <= r < |xs|
    ensures r >= 0 ==> xs[r] == x && forall j :: 0 <= j < r ==> xs[j] != x
    ensures r < 0 <==> x !in xs
  {
    if xs == [] then -1
    else if xs[0] == x then 0
    else
      var k := IndexOf(xs[1..], x);
      if k < 0 then -1 else k + 1
  }

  /** No stage name occurs twice in the flow. */
  predicate Distinct<T(==)>(xs: seq<T>) {
    forall i, j :: 0 <= i < j < |xs| ==> xs[i] != xs[j]
  }

  lemma FlowDistinct()
    ensures Distinct(Flow)
  {
  }

  /** In a list without repetitions, looking up the element at `i` finds `i`. */
  lemma IndexOfDistinct<T>(xs: seq<T>, i: int)
    requires Distinct(xs)
    requires 0 <= i < |xs|
    ensures IndexOf(xs, xs[i]) == i
  {
  }

  /** The stage index of a status of the flow; the positions of the named stages. */
  lemma FlowIndices()
    ensures |Flow| == 7 && LastIndex == 6
    ensures IndexOf(Flow, AwaitingInspection) == 0
    ensures IndexOf(Flow, Inspecting) == 1
    ensures IndexOf(Flow, EstimateDelivered) == 2
    ensures IndexOf(Flow, PartsPreparation) == 3
    ensures IndexOf(Flow, InRepair) == 4
    ensures IndexOf(Flow, RepairCompleted) == 5
    ensures IndexOf(Flow, PickupCompleted) == 6
  {
    FlowIndexOf(0);
    FlowIndexOf(1);
    FlowIndexOf(2);
    FlowIndexOf(3);
    FlowIndexOf(4);
    FlowIndexOf(5);
    FlowIndexOf(6);
  }

  /** Every stage name starts with a Hangul syllable. */
  lemma FlowNamesHangul()
    ensures forall i :: 0 <= i < |Flow| ==> |Flow[i]| > 0 && '가' <= Flow[i][0]
  {
    assert '가' <= AwaitingInspection[0] && '가' <= Inspecting[0] && '가' <= EstimateDelivered[0];
    assert '가' <= PartsPreparation[0] && '가' <= InRepair[0];
    assert '가' <= RepairCompleted[0] && '가' <= PickupCompleted[0];
  }

  /** The stage names are Hangul: no name starting with a Latin capital is a stage (so
      `IndexOf` gives -1 for it). */
  lemma LatinNamesNotInFlow(name: string)
    requires |name| > 0 && 'A' <= name[0] <= 'Z'
    ensures !InFlow(name)
  {
    FlowNamesHangul();
    NotInByFirstChar(Flow, name, '가');
  }

  /** A name whose first character sorts below every element's first character is absent. */
  lemma NotInByFirstChar(xs: seq<string>, name: string, lo: char)
    requires forall i :: 0 <= i < |xs| ==> |xs[i]| > 0 && lo <= xs[i][0]
    requires |name| > 0 && name[0] < lo
    ensures name !in xs && IndexOf(xs, name) == -1
  {
    forall i | 0 <= i < |xs| ensures xs[i] != name {
      assert xs[i][0] != name[0];
    }
  }

  /** Every stage's index is its position: the flow is a total order on its names. */
  lemma FlowIndexOf(i: int)
    requires 0 <= i < |Flow|
    ensures IndexOf(Flow, Flow[i]) == i
  {
    FlowDistinct();
    IndexOfDistinct(Flow, i);
  }
}
