/**
 * The fixed daily grid of 15-minute slot labels that the appointment lookup
 * blocks against, and what a label means as a time of day.
 */
module SlotTable {
  import opened Wrappers
  import opened Js
  import opened Sequences

  /** The grid in the order the store lists it: "10:00 AM" through "8:00 PM". */
  const Slots: seq<string> := [
    "10:00 AM", "10:15 AM", "10:30 AM", "10:45 AM",
    "11:00 AM", "11:15 AM", "11:30 AM", "11:45 AM", "12:00 PM", "12:15 PM", "12:30 PM", "12:45 PM",
    "1:00 PM", "1:15 PM", "1:30 PM", "1:45 PM", "2:00 PM", "2:15 PM", "2:30 PM", "2:45 PM",
    "3:00 PM", "3:15 PM", "3:30 PM", "3:45 PM", "4:00 PM", "4:15 PM", "4:30 PM", "4:45 PM",
    "5:00 PM", "5:15 PM", "5:30 PM", "5:45 PM", "6:00 PM", "6:15 PM", "6:30 PM", "6:45 PM",
    "7:00 PM", "7:15 PM", "7:30 PM", "7:45 PM", "8:00 PM"
  ]

  /** Number of labels in the grid. */
  const SlotCount: nat := 41

  /** Minutes after midnight of the first slot, 10:00 AM. */
  const OpeningMinutes: nat := 600

  /** Length of one slot in minutes. */
  const SlotMinutes: nat := 15

  function DigitValue(c: char): Option<nat> {
    if '0' <= c <= '9' then Some(c as nat - '0' as nat) else None
  }

  /** Value of the two-digit decimal numeral `hi lo`. */
  function TwoDigits(hi: char, lo: char): Option<nat> {
    if DigitValue(hi).Some? && DigitValue(lo).Some? then
      Some(10 * DigitValue(hi).value + DigitValue(lo).value)
    else None
  }

  /**
   * Reading of a 12-hour clock label "h:mm AM" / "hh:mm PM" as minutes after
   * midnight; `None` for a string that is not such a label. This is the
   * meaning the grid's labels carry; the store itself only compares them.
   */
  function ClockMinutes(s: string): (r: Option<nat>)
    ensures r.Some? ==> r.value < 24 * 60
  {
    var n := |s|;
    if (n != 7 && n != 8) || s[n - 6] != ':' || s[n - 3] != ' ' || s[n - 1] != 'M'
       || (s[n - 2] != 'A' && s[n - 2] != 'P') then None
    else
      var hour := if n == 7 then DigitValue(s[0]) else TwoDigits(s[0], s[1]);
      var minute := TwoDigits(s[n - 5], s[n - 4]);
      if hour.None? || minute.None? || hour.value < 1 || hour.value > 12 || minute.value > 59 then None
      else
        var h24 := (if hour.value == 12 then 0 else hour.value) + (if s[n - 2] == 'P' then 12 else 0);
        Some(60 * h24 + minute.value)
  }

  /** Time of day of the `i`-th grid slot. */
  function SlotTime(i: nat): nat {
    OpeningMinutes + SlotMinutes * i
  }

  /** The labels of the 10 AM hour read as their grid times. */
  lemma HourLabels10()
    ensures forall i | 0 <= i < 4 :: ClockMinutes(Slots[i]) == Some(SlotTime(i))
  {
    assert ClockMinutes(Slots[0]) == Some(600);
    assert ClockMinutes(Slots[1]) == Some(615);
    assert ClockMinutes(Slots[2]) == Some(630);
    assert ClockMinutes(Slots[3]) == Some(645);
  }

  /** The labels of the 11 AM hour read as their grid times. */
  lemma HourLabels11()
    ensures forall i | 4 <= i < 8 :: ClockMinutes(Slots[i]) == Some(SlotTime(i))
  {
    assert ClockMinutes(Slots[4]) == Some(660);
    assert ClockMinutes(Slots[5]) == Some(675);
    assert ClockMinutes(Slots[6]) == Some(690);
    assert ClockMinutes(Slots[7]) == Some(705);
  }

  /** The labels of the 12 PM hour read as their grid times. */
  lemma HourLabels12()
    ensures forall i | 8 <= i < 12 :: ClockMinutes(Slots[i]) == Some(SlotTime(i))
  {
    assert ClockMinutes(Slots[8]) == Some(720);
    assert ClockMinutes(Slots[9]) == Some(735);
    assert ClockMinutes(Slots[10]) == Some(750);
    assert ClockMinutes(Slots[11]) == Some(765);
  }

  /** The labels of the 1 PM hour read as their grid times. */
  lemma HourLabels13()
    ensures forall i | 12 <= i < 16 :: ClockMinutes(Slots[i]) == Some(SlotTime(i))
  {
    assert ClockMinutes(Slots[12]) == Some(780);
    assert ClockMinutes(Slots[13]) == Some(795);
    assert ClockMinutes(Slots[14]) == Some(810);
    assert ClockMinutes(Slots[15]) == Some(825);
  }

  /** The labels of the 2 PM hour read as their grid times. */
  lemma HourLabels14()
    ensures forall i | 16 <= i < 20 :: ClockMinutes(Slots[i]) == Some(SlotTime(i))
  {
    assert ClockMinutes(Slots[16]) == Some(840);
    assert ClockMinutes(Slots[17]) == Some(855);
    assert ClockMinutes(Slots[18]) == Some(870);
    assert ClockMinutes(Slots[19]) == Some(885);
  }

  /** The labels of the 3 PM hour read as their grid times. */
  lemma HourLabels15()
    ensures forall i | 20 <= i < 24 :: ClockMinutes(Slots[i]) == Some(SlotTime(i))
  {
    assert ClockMinutes(Slots[20]) == Some(900);
    assert ClockMinutes(Slots[21]) == Some(915);
    assert ClockMinutes(Slots[22]) == Some(930);
    assert ClockMinutes(Slots[23]) == Some(945);
  }

  /** The labels of the 4 PM hour read as their grid times. */
  lemma HourLabels16()
    ensures forall i | 24 <= i < 28 :: ClockMinutes(Slots[i]) == Some(SlotTime(i))
  {
    assert ClockMinutes(Slots[24]) == Some(960);
    assert ClockMinutes(Slots[25]) == Some(975);
    assert ClockMinutes(Slots[26]) == Some(990);
    assert ClockMinutes(Slots[27]) == Some(1005);
  }

  /** The labels of the 5 PM hour read as their grid times. */
  lemma HourLabels17()
    ensures forall i | 28 <= i < 32 :: ClockMinutes(Slots[i]) == Some(SlotTime(i))
  {
    assert ClockMinutes(Slots[28]) == Some(1020);
    assert ClockMinutes(Slots[29]) == Some(1035);
    assert ClockMinutes(Slots[30]) == Some(1050);
    assert ClockMinutes(Slots[31]) == Some(1065);
  }

  /** The labels of the 6 PM hour read as their grid times. */
  lemma HourLabels18()
    ensures forall i | 32 <= i < 36 :: ClockMinutes(Slots[i]) == Some(SlotTime(i))
  {
    assert ClockMinutes(Slots[32]) == Some(1080);
    assert ClockMinutes(Slots[33]) == Some(1095);
    assert ClockMinutes(Slots[34]) == Some(1110);
    assert ClockMinutes(Slots[35]) == Some(1125);
  }

  /** The labels of the 7 PM hour read as their grid times. */
  lemma HourLabels19()
    ensures forall i | 36 <= i < 40 :: ClockMinutes(Slots[i]) == Some(SlotTime(i))
  {
    assert ClockMinutes(Slots[36]) == Some(1140);
    assert ClockMinutes(Slots[37]) == Some(1155);
    assert ClockMinutes(Slots[38]) == Some(1170);
    assert ClockMinutes(Slots[39]) == Some(1185);
  }

  /** The labels of the 8 PM hour read as their grid times. */
  lemma HourLabels20()
    ensures forall i | 40 <= i < 41 :: ClockMinutes(Slots[i]) == Some(SlotTime(i))
  {
    assert ClockMinutes(Slots[40]) == Some(1200);
  }

  /** Every label of `t` reads as the time of its position on the 15-minute grid from 10:00 AM. */
  predicate IsGrid(t: seq<string>) {
    forall i | 0 <= i < |t| :: ClockMinutes(t[i]) == Some(SlotTime(i))
  }

  /**
   * Every label of the grid reads as the time of its slot: the grid runs
   * from 10:00 AM in 15-minute steps.
   */
  lemma LabelTimes()
    ensures |Slots| == SlotCount
    ensures IsGrid(Slots)
  {
    forall i | 0 <= i < SlotCount
      ensures ClockMinutes(Slots[i]) == Some(SlotTime(i))
    {
      if i < 4 {
        HourLabels10();
      } else if i < 8 {
        HourLabels11();
      } else if i < 12 {
        HourLabels12();
      } else if i < 16 {
        HourLabels13();
      } else if i < 20 {
        HourLabels14();
      } else if i < 24 {
        HourLabels15();
      } else if i < 28 {
        HourLabels16();
      } else if i < 32 {
        HourLabels17();
      } else if i < 36 {
        HourLabels18();
      } else if i < 40 {
        HourLabels19();
      } else {
        HourLabels20();
      }
    }
  }

  /** The grid opens with the hour from "10:00 AM" and closes with "8:00 PM". */
  lemma GridEnds()
    ensures |Slots| == SlotCount
    ensures Slots[0] == "10:00 AM" && Slots[1] == "10:15 AM" && Slots[2] == "10:30 AM" && Slots[3] == "10:45 AM"
    ensures Slots[SlotCount - 1] == "8:00 PM"
  {
  }

  /** The first hour of the grid. */
  lemma OpeningHour()
    ensures Slots[0 .. 4] == ["10:00 AM", "10:15 AM", "10:30 AM", "10:45 AM"]
  {
    GridEnds();
    assert Slots[0 .. 4] == [Slots[0], Slots[1], Slots[2], Slots[3]];
  }

  /** The grid's labels are pairwise distinct. */
  lemma SlotsDistinct()
    ensures |Slots| == SlotCount
    ensures Distinct(Slots)
  {
    LabelTimes();
  }

  /** `indexOf` on the grid finds each label at its own position. */
  lemma SlotIndex()
    ensures forall i | 0 <= i < SlotCount :: IndexOf(Slots, Slots[i]) == i
  {
    SlotsDistinct();
  }
}
