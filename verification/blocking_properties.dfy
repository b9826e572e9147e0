/**
 * What the blocked-slot computation promises: which labels a single
 * appointment blocks, how many, and how the runs of several appointments
 * combine. Most facts hold for any table of distinct labels and are stated
 * for `BlockedIn(t, ·)`; the lookup itself is `BlockedIn(Slots, ·)`.
 */
module BlockingProperties {
  import opened Wrappers
  import opened Js
  import opened SlotTable
  import opened SlotBlocking
  import opened Sequences

  /**
   * The time window an appointment occupies: `slot` reads as a time of day
   * no earlier than the start label and less than `duration` minutes after it.
   */
  predicate InWindow(start: string, duration: int, slot: string) {
    match (ClockMinutes(start), ClockMinutes(slot))
    case (Some(a), Some(b)) => a <= b < a + duration
    case _ => false
  }

  /** Labels that read as different times are different labels. */
  lemma GridDistinct(t: seq<string>)
    requires IsGrid(t)
    ensures Distinct(t)
  {
    forall i, j | 0 <= i < j < |t|
      ensures t[i] != t[j]
    {
      assert ClockMinutes(t[i]) != ClockMinutes(t[j]);
    }
  }

  lemma DistinctIndex(t: seq<string>, i: nat)
    requires Distinct(t) && i < |t|
    ensures IndexOf(t, t[i]) == i
  {
  }

  /**
   * In a table without repeats, the labels an appointment blocks are a
   * contiguous run that begins at its start label, found at its unique
   * position `s`; the run is `Math.ceil(duration / 15)` long, cut off at the
   * end of the table.
   */
  lemma BlockIsRun(t: seq<string>, row: SlotRow, s: nat)
    requires Distinct(t) && s < |t| && t[s] == row.time
    ensures StartIndex(t, row) == s
    ensures SlotsToBlock(row) <= 0 ==> BlockIn(t, row) == []
    ensures SlotsToBlock(row) > 0 ==>
      && BlockIn(t, row) == t[s .. Min(s + SlotsToBlock(row), |t|)]
      && |BlockIn(t, row)| == Min(SlotsToBlock(row), |t| - s)
      && BlockIn(t, row)[0] == row.time
  {
    DistinctIndex(t, s);
  }

  /** An appointment whose start is not a label of the table blocks nothing. */
  lemma UnknownStartBlocksNothing(t: seq<string>, row: SlotRow)
    requires row.time !in t
    ensures StartIndex(t, row) == -1
    ensures BlockIn(t, row) == []
  {
  }

  /**
   * On a grid, a label is blocked by an appointment exactly when the
   * appointment starts at a grid label and the label's time falls within
   * [start, start + duration) minutes. A null or zero duration counts as 60
   * minutes; a negative one makes the window empty.
   */
  lemma BlockCoversWindow(t: seq<string>, row: SlotRow, slot: string)
    requires IsGrid(t) && slot in t
    ensures slot in BlockIn(t, row) <==> row.time in t && InWindow(row.time, Duration(row), slot)
  {
    if slot in BlockIn(t, row) {
      BlockedIsInWindow(t, row, slot);
    }
    if row.time in t && InWindow(row.time, Duration(row), slot) {
      InWindowIsBlocked(t, row, slot);
    }
  }

  lemma BlockedIsInWindow(t: seq<string>, row: SlotRow, slot: string)
    requires IsGrid(t) && slot in BlockIn(t, row)
    ensures row.time in t && InWindow(row.time, Duration(row), slot)
  {
    GridDistinct(t);
    var s := StartIndex(t, row);
    var n := SlotsToBlock(row);
    var b := BlockIn(t, row);
    var p :| 0 <= p < |b| && b[p] == slot;
    assert t[s + p] == slot;
    assert p < n;
    assert SlotMinutes * (n - 1) < Duration(row);
    assert ClockMinutes(row.time) == Some(SlotTime(s));
    assert ClockMinutes(slot) == Some(SlotTime(s + p));
  }

  lemma InWindowIsBlocked(t: seq<string>, row: SlotRow, slot: string)
    requires IsGrid(t) && slot in t && row.time in t
    requires InWindow(row.time, Duration(row), slot)
    ensures slot in BlockIn(t, row)
  {
    GridDistinct(t);
    var s := StartIndex(t, row);
    var j := IndexOf(t, slot);
    var n := SlotsToBlock(row);
    assert Duration(row) <= SlotMinutes * n;
    assert ClockMinutes(row.time) == Some(SlotTime(s));
    assert ClockMinutes(slot) == Some(SlotTime(j));
    assert s <= j && j - s < n;
    assert BlockIn(t, row)[j - s] == slot;
  }

  /** The same, for the store's own grid. */
  lemma SlotBlockedIffInWindow(row: SlotRow, slot: string)
    requires slot in Slots
    ensures slot in Block(row) <==> row.time in Slots && InWindow(row.time, Duration(row), slot)
  {
    LabelTimes();
    BlockCoversWindow(Slots, row, slot);
  }

  /** In a table without repeats, starting at the last label blocks only that label. */
  lemma LastLabelBlocksOnlyItself(t: seq<string>, row: SlotRow)
    requires Distinct(t) && |t| > 0 && t[|t| - 1] == row.time && SlotsToBlock(row) > 0
    ensures BlockIn(t, row) == [row.time]
  {
    BlockIsRun(t, row, |t| - 1);
    assert t[|t| - 1 .. |t|] == [t[|t| - 1]];
  }

  /** Starting at "8:00 PM", the last slot of the grid, any positive duration blocks only that slot. */
  lemma LastSlotBlocksOnlyItself(row: SlotRow)
    requires row.time == "8:00 PM" && Duration(row) > 0
    ensures Block(row) == [row.time]
  {
    SlotsDistinct();
    GridEnds();
    LastLabelBlocksOnlyItself(Slots, row);
  }

  /** A null or zero duration counts as an hour: four slots from the start when the table has room. */
  lemma DefaultDurationBlocksHour(t: seq<string>, row: SlotRow, s: nat)
    requires Distinct(t) && !TruthyNumber(row.duration)
    requires s + 4 <= |t| && t[s] == row.time
    ensures BlockIn(t, row) == t[s .. s + 4]
  {
    BlockIsRun(t, row, s);
    assert SlotsToBlock(row) == 4;
  }

  /** "10:00 AM" with no usable duration blocks "10:00 AM" through "10:45 AM". */
  lemma OpeningHourDefault(row: SlotRow)
    requires row.time == "10:00 AM" && !TruthyNumber(row.duration)
    ensures Block(row) == ["10:00 AM", "10:15 AM", "10:30 AM", "10:45 AM"]
  {
    SlotsDistinct();
    GridEnds();
    DefaultDurationBlocksHour(Slots, row, 0);
    OpeningHour();
  }

  /** Every label in the result is a label of the table. */
  lemma BlockedLabelsInTable(t: seq<string>, rows: seq<SlotRow>, slot: string)
    requires slot in BlockedIn(t, rows)
    ensures slot in t
  {
    FlatMapMembers(row => BlockIn(t, row), rows, slot);
  }

  /** The result for `a + b` is that of `a` followed by that of `b`. */
  lemma BlockedAppend(t: seq<string>, a: seq<SlotRow>, b: seq<SlotRow>)
    ensures BlockedIn(t, a + b) == BlockedIn(t, a) + BlockedIn(t, b)
  {
    FlatMapAppend(row => BlockIn(t, row), a, b);
  }

  /** Rows are taken in order: the first row's run comes first, then the rest. */
  lemma BlockedInOrder(t: seq<string>, row: SlotRow, rows: seq<SlotRow>)
    ensures BlockedIn(t, [row] + rows) == BlockIn(t, row) + BlockedIn(t, rows)
  {
    FlatMapCons(r => BlockIn(t, r), row, rows);
  }

  /** Number of labels one appointment blocks: min(ceil(duration / 15), |t| - start), and 0 without a start. */
  function BlockCount(t: seq<string>, row: SlotRow): nat {
    var s := StartIndex(t, row);
    var n := SlotsToBlock(row);
    if s == -1 || n <= 0 then 0 else Min(n, |t| - s)
  }

  /** Sum of the per-appointment counts, first row first. */
  function TotalCount(t: seq<string>, rows: seq<SlotRow>): nat {
    if |rows| == 0 then 0 else BlockCount(t, rows[0]) + TotalCount(t, rows[1..])
  }

  lemma {:induction false} CountsAgree(t: seq<string>, rows: seq<SlotRow>)
    ensures SumLengths(row => BlockIn(t, row), rows) == TotalCount(t, rows)
    decreases |rows|
  {
    if |rows| > 0 {
      CountsAgree(t, rows[1..]);
    }
  }

  /** The result is exactly as long as the per-appointment counts add up to: nothing is merged away. */
  lemma BlockedLength(t: seq<string>, rows: seq<SlotRow>)
    ensures |BlockedIn(t, rows)| == TotalCount(t, rows)
  {
    FlatMapLength(row => BlockIn(t, row), rows);
    CountsAgree(t, rows);
  }

  /** In a table without repeats, one appointment's run holds each label at most once. */
  lemma BlockDistinct(t: seq<string>, row: SlotRow)
    requires Distinct(t)
    ensures Distinct(BlockIn(t, row))
  {
    var b := BlockIn(t, row);
    var s := StartIndex(t, row);
    if b != [] {
      assert forall p | 0 <= p < |b| :: b[p] == t[s + p];
    }
  }

  /**
   * Overlapping appointments are not merged: a label occurs in the result
   * once for every appointment whose run covers it.
   */
  lemma OverlapDepth(t: seq<string>, rows: seq<SlotRow>, slot: string)
    requires Distinct(t)
    ensures multiset(BlockedIn(t, rows))[slot] == CountContaining(row => BlockIn(t, row), rows, slot)
  {
    forall i | 0 <= i < |rows|
      ensures Distinct(BlockIn(t, rows[i]))
    {
      BlockDistinct(t, rows[i]);
    }
    FlatMapMultiplicity(row => BlockIn(t, row), rows, slot);
  }
}
