/** Rules the two repair screens share word for word: the half-hour time table of
    the due-time picker, the due-date stamp they compose, the amount check before
    an estimate is sent, and when the estimate composer is shown. */
module ScreenCommon {
  import opened JsValues
  import opened StatusFlow
  import opened RepairCases

  // ---------------------------------------------------------------------------
  // timeSlots

  /** Entry `idx` of `timeSlots`: the hour `idx / 2` padded to two digits, then `:00` or `:30`. */
  function TimeSlot(idx: nat): string {
    PadStart2(DecimalString(idx / 2)) + ":" + (if idx % 2 == 0 then "00" else "30")
  }

  /** `Array.from({ length: 48 }, (_, idx) => ...)`. */
  function TimeSlots(): (r: seq<string>)
    ensures |r| == 48
  {
    seq(48, idx requires 0 <= idx => TimeSlot(idx))
  }

  /** Entry `k` spells the hour `k / 2` with two digits and the minute 00 or 30. */
  lemma TimeSlotShape(k: nat)
    requires k < 48
    ensures TimeSlots()[k] == [DigitChar(k / 2 / 10), DigitChar(k / 2 % 10), ':', if k % 2 == 0 then '0' else '3', '0']
  {
    TwoDigits(k / 2);
  }

  /** Reading a picker value back: which entry of the table spells it, if any. */
  function SlotIndex(s: string): (r: Option<nat>)
    ensures r.Some? ==> r.value < 48
  {
    if |s| == 5 && IsDigit(s[0]) && IsDigit(s[1]) && s[2] == ':' && (s[3] == '0' || s[3] == '3') && s[4] == '0'
       && 10 * DigitValue(s[0]) + DigitValue(s[1]) < 24
    then Some(2 * (10 * DigitValue(s[0]) + DigitValue(s[1])) + (if s[3] == '3' then 1 else 0))
    else None
  }

  /** Every entry reads back as its own index: the 48 entries are distinct and in order of time. */
  lemma TimeSlotsRoundTrip(k: nat)
    requires k < 48
    ensures SlotIndex(TimeSlots()[k]) == Some(k)
  {
    TimeSlotShape(k);
    var h := k / 2;
    var s := TimeSlots()[k];
    assert DigitValue(s[0]) == h / 10 && DigitValue(s[1]) == h % 10;
    assert 10 * (h / 10) + h % 10 == h;
    assert (s[3] == '3') == (k % 2 == 1);
    assert 2 * h + k % 2 == k;
  }

  /** Every HH:00 or HH:30 time of the day is in the table, at the index it reads back as. */
  lemma TimeSlotsComplete(s: string)
    requires SlotIndex(s).Some?
    ensures TimeSlots()[SlotIndex(s).value] == s
  {
    var k := SlotIndex(s).value;
    var h := 10 * DigitValue(s[0]) + DigitValue(s[1]);
    assert k / 2 == h && k % 2 == (if s[3] == '3' then 1 else 0);
    assert h / 10 == DigitValue(s[0]) && h % 10 == DigitValue(s[1]);
    TimeSlotShape(k);
    assert TimeSlots()[k] == [s[0], s[1], s[2], s[3], s[4]];
  }

  /** The picker's default time `'09:00'` is one of the entries. */
  lemma DefaultDueTimeIsASlot()
    ensures TimeSlots()[18] == "09:00"
  {
    TimeSlotShape(18);
  }

  // ---------------------------------------------------------------------------
  // Due date

  /** `if (!dueDate || !dueTime) return; saveCompletionDueAt(id, `${dueDate}T${dueTime}:00.000Z`)`:
      the stamp to save, or none when the date or the time is empty. */
  function DueDateStamp(dueDate: string, dueTime: string): (r: Option<string>)
    ensures r.None? <==> dueDate == "" || dueTime == ""
    ensures r.Some? ==> |r.value| == |dueDate| + |dueTime| + 9
    ensures r.Some? ==> && r.value[..|dueDate|] == dueDate
                        && r.value[|dueDate|] == 'T'
                        && r.value[|dueDate| + 1..|dueDate| + 1 + |dueTime|] == dueTime
                        && r.value[|dueDate| + 1 + |dueTime|..] == ":00.000Z"
  {
    if dueDate == "" || dueTime == "" then None else Some(dueDate + "T" + dueTime + ":00.000Z")
  }

  /** The screen re-reads a saved stamp with `slice(0, 10)` and `slice(11, 16)`: for a
      ten-character date and a five-character time that gives back the same date and time. */
  lemma DueDateRoundTrip(dueDate: string, dueTime: string)
    requires |dueDate| == 10 && |dueTime| == 5
    ensures DueDateStamp(dueDate, dueTime).Some?
    ensures Slice(DueDateStamp(dueDate, dueTime).value, 0, 10) == dueDate
    ensures Slice(DueDateStamp(dueDate, dueTime).value, 11, 16) == dueTime
  {
    var stamp := DueDateStamp(dueDate, dueTime).value;
    assert stamp[0..10] == dueDate;
    assert stamp[11..16] == dueTime;
  }

  /** Any entry of the time table with a ten-character date round-trips through the saved stamp. */
  lemma SlotDueDateRoundTrip(dueDate: string, k: nat)
    requires |dueDate| == 10 && k < 48
    ensures Slice(DueDateStamp(dueDate, TimeSlots()[k]).value, 11, 16) == TimeSlots()[k]
  {
    TimeSlotShape(k);
    DueDateRoundTrip(dueDate, TimeSlots()[k]);
  }

  // ---------------------------------------------------------------------------
  // Estimate composer

  /** `statusIdx < STATUS_FLOW.indexOf('ESTIMATE_ACCEPTED')`. */
  predicate EstimateComposerShown(statusIdx: int, acceptedIdx: int) {
    statusIdx < acceptedIdx
  }

  /** `const amount = Number(estimateAmount); if (!amount) return; await sendEstimate(item.id, amount, note)`:
      the case list after pressing the send button, given the parsed amount. */
  function SubmitEstimate(cases: seq<RepairCase>, id: string, amount: JsNumber, note: string, now: string): (r: seq<RepairCase>)
    ensures !NumberTruthy(amount) ==> r == cases
    ensures |r| == |cases|
    ensures forall i :: 0 <= i < |cases| && cases[i].id != id ==> r[i] == cases[i]
    ensures forall i :: 0 <= i < |cases| && cases[i].id == id && NumberTruthy(amount) ==>
              r[i] == cases[i].(estimate := Some(Estimate(Some(amount), Some(note), Some(now))))
  {
    if !NumberTruthy(amount) then cases
    else UpdateCase(cases, id, c => SendEstimateUpdate(c, amount, note, now))
  }

  /** Zero and NaN are refused; negative and infinite amounts go through. */
  lemma AmountCheck(cases: seq<RepairCase>, id: string, note: string, now: string, x: real)
    ensures SubmitEstimate(cases, id, NaN, note, now) == cases
    ensures SubmitEstimate(cases, id, Finite(0.0), note, now) == cases
    ensures x < 0.0 ==> SubmitEstimate(cases, id, Finite(x), note, now) ==
                        UpdateCase(cases, id, c => SendEstimateUpdate(c, Finite(x), note, now))
    ensures SubmitEstimate(cases, id, Infinite(true), note, now) ==
            UpdateCase(cases, id, c => SendEstimateUpdate(c, Infinite(true), note, now))
    ensures SubmitEstimate(cases, id, Infinite(false), note, now) ==
            UpdateCase(cases, id, c => SendEstimateUpdate(c, Infinite(false), note, now))
  {
  }
}
