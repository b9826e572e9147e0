/**
 * The blocked-slot computation of the appointment lookup by barber and
 * date: each fetched appointment row blocks the run of grid slots its
 * duration covers, and the runs are concatenated in row order.
 */
module SlotBlocking {
  import opened Wrappers
  import opened Js
  import opened SlotTable
  import opened Sequences

  /** The two columns the lookup fetches: start label and duration in minutes. */
  datatype SlotRow = SlotRow(time: string, duration: Option<int>)

  /** Minutes an appointment lasts as the lookup reads it (`duration || 60`). */
  function Duration(row: SlotRow): int {
    NumberOr(row.duration, DefaultDuration)
  }

  /** Position of the start label in `table`, or -1 when it is not there. */
  function StartIndex(table: seq<string>, row: SlotRow): int {
    IndexOf(table, row.time)
  }

  /** Number of slots the appointment asks for, `Math.ceil(duration / 15)`. */
  function SlotsToBlock(row: SlotRow): int {
    CeilDiv(Duration(row), SlotMinutes)
  }

  /**
   * The run of `table` from position `start` that is `count` long, cut off
   * at the end of the table; empty when there is no start or no count.
   */
  function Run(table: seq<string>, start: int, count: int): seq<string>
    requires -1 <= start < |table|
  {
    if start == -1 || count <= 0 then [] else table[start .. Min(start + count, |table|)]
  }

  /** The labels of `table` one appointment blocks. */
  function BlockIn(table: seq<string>, row: SlotRow): seq<string> {
    Run(table, StartIndex(table, row), SlotsToBlock(row))
  }

  /** All labels of `table` that `rows` block, each row's run after the previous ones, duplicates kept. */
  function BlockedIn(table: seq<string>, rows: seq<SlotRow>): seq<string> {
    FlatMap(row => BlockIn(table, row), rows)
  }

  /** The grid labels one appointment blocks. */
  function Block(row: SlotRow): seq<string> {
    BlockIn(Slots, row)
  }

  /** The lookup's answer for the fetched rows. */
  function BlockedSlots(rows: seq<SlotRow>): seq<string> {
    BlockedIn(Slots, rows)
  }

  /** A run of `t` from `s` grows by one element at a time. */
  lemma RunGrows(t: seq<string>, s: nat, e: nat)
    requires s <= e < |t|
    ensures t[s .. e + 1] == t[s .. e] + [t[e]]
  {
  }

  /**
   * The inner `for` loop of the per-row callback: push `table[start + i]`
   * for `i` from 0 while `i < count`, skipping positions past the end.
   */
  method PushRun(table: seq<string>, blocked: seq<string>, start: nat, count: int)
      returns (pushed: seq<string>)
    requires start < |table|
    ensures pushed == blocked + Run(table, start, count)
  {
    pushed := blocked;
    var i := 0;
    while i < count
      invariant 0 <= i <= (if count < 0 then 0 else count)
      invariant pushed == blocked + table[start .. Min(start + i, |table|)]
    {
      var slotIndex := start + i;
      if slotIndex < |table| {
        RunGrows(table, start, slotIndex);
        pushed := pushed + [table[slotIndex]];
      }
      i := i + 1;
    }
    if count <= 0 {
      assert table[start .. start] == [];
    } else {
      assert i == count;
    }
  }

  /**
   * The per-row callback of the lookup's `forEach`: read the duration with
   * its default, find the start label, and push the run when it is found.
   */
  method PushBlock(blocked: seq<string>, row: SlotRow) returns (pushed: seq<string>)
    ensures pushed == blocked + BlockIn(Slots, row)
  {
    pushed := blocked;
    var duration := NumberOr(row.duration, DefaultDuration);
    var startIndex := IndexOf(Slots, row.time);
    if startIndex != -1 {
      var slotsToBlock := CeilDiv(duration, SlotMinutes);
      pushed := PushRun(Slots, blocked, startIndex, slotsToBlock);
    }
  }

  /** The lookup's loop over the fetched rows, starting from an empty list. */
  method ComputeBlockedSlots(rows: seq<SlotRow>) returns (blocked: seq<string>)
    ensures blocked == BlockedIn(Slots, rows)
  {
    blocked := [];
    var k := 0;
    while k < |rows|
      invariant 0 <= k <= |rows|
      invariant blocked == BlockedIn(Slots, rows[..k])
    {
      blocked := PushBlock(blocked, rows[k]);
      assert rows[..k + 1][..k] == rows[..k];
      k := k + 1;
    }
    assert rows[..k] == rows;
  }
}
