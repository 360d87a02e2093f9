/** The hour grid of the timeline screen: one row per hour of the
    schedule-day, from 05 of the selected date up to 04 of the next, each
    labelled with its hour of the day and split into six ten-minute
    columns. */
module TimelineScreen {
  import opened JsText
  import opened CreateTimeline

  /** One row: its React key (the loop's hour, 5..28), the label shown and
      the keys of its six columns. */
  datatype Row = Row(key: int, hourText: string, columnKeys: seq<int>)

  const FirstHour: int := 5
  const LastHour: int := 28

  /** The keys of the columns, the indices of the six-element array mapped
      over. */
  const ColumnKeys: seq<int> := [0, 1, 2, 3, 4, 5]

  /** `(hour % 24).toString().padStart(2, '0')`. The loop's hours are
      positive, where JavaScript's `%` agrees with Dafny's. */
  function HourLabel(hour: nat): string {
    PadStart2(NumberToString(hour % 24))
  }

  /** The row the loop pushes for `hour`. */
  function HourRow(hour: nat): Row {
    Row(hour, HourLabel(hour), ColumnKeys)
  }

  /** The grid: the rows for hours 5 to 28, in order. */
  function TimeTable(): (t: seq<Row>)
    ensures |t| == LastHour - FirstHour + 1
    ensures forall i :: 0 <= i < |t| ==> t[i] == HourRow(FirstHour + i)
  {
    seq(LastHour - FirstHour + 1, i requires 0 <= i => HourRow(FirstHour + i))
  }

  /** `generateTimeTableData`: the loop over `hour` from 5 to 28 that pushes
      one row per hour. */
  method GenerateTimeTableData() returns (rows: seq<Row>)
    ensures rows == TimeTable()
  {
    rows := [];
    var hour := FirstHour;
    while hour <= LastHour
      invariant FirstHour <= hour <= LastHour + 1
      invariant |rows| == hour - FirstHour
      invariant forall i :: 0 <= i < |rows| ==> rows[i] == HourRow(FirstHour + i)
    {
      var hourText := PadStart2(NumberToString(hour % 24));
      rows := rows + [Row(hour, hourText, ColumnKeys)];
      hour := hour + 1;
    }
  }

  // ----- Properties of the grid -----

  /** 24 rows with keys 5..28, strictly increasing, each with six columns. */
  lemma TableShape()
    ensures |TimeTable()| == 24
    ensures forall i :: 0 <= i < 24 ==> TimeTable()[i].key == 5 + i
    ensures forall i, j :: 0 <= i < j < 24 ==> TimeTable()[i].key < TimeTable()[j].key
    ensures forall i :: 0 <= i < 24 ==> |TimeTable()[i].columnKeys| == 6
  {
  }

  /** The hour of the day that row `i` stands for. */
  function RowHour(i: nat): nat {
    (FirstHour + i) % 24
  }

  /** Each label is its hour of the day written with exactly two digits. */
  lemma LabelDigits(i: nat)
    requires i < 24
    ensures TimeTable()[i].hourText == [DigitChar(RowHour(i) / 10), DigitChar(RowHour(i) % 10)]
  {
    PaddedTwoDigits(RowHour(i));
  }

  /** Each label reads back, with `parseInt`, as the hour of its row. */
  lemma LabelParses(i: nat)
    requires i < 24
    ensures ParseInt(TimeTable()[i].hourText) == Some(RowHour(i))
  {
    ParsePaddedNumberString(RowHour(i));
  }

  /** The hour of row `i` without the remainder: 05..23, then 00..04. */
  lemma RowHourValue(i: nat)
    requires i < 24
    ensures RowHour(i) == if i < 19 then i + 5 else i - 19
  {
  }

  /** No two rows carry the same label: equal labels would read back as
      the same hour. */
  lemma LabelsDistinct(i: nat, j: nat)
    requires i < 24 && j < 24 && i != j
    ensures TimeTable()[i].hourText != TimeTable()[j].hourText
  {
    RowHourValue(i);
    RowHourValue(j);
    var a, b := TimeTable()[i].hourText, TimeTable()[j].hourText;
    assert ParseInt(a) == Some(RowHour(i)) by { LabelParses(i); }
    assert ParseInt(b) == Some(RowHour(j)) by { LabelParses(j); }
  }

  /** Every hour of the day, 00 to 23, labels some row: row `(h + 19) % 24`. */
  lemma LabelsCoverDay(h: nat)
    requires h < 24
    ensures var i := (h + 19) % 24;
      TimeTable()[i].hourText == PadStart2(NumberToString(h))
  {
    var i := (h + 19) % 24;
    assert RowHour(i) == h;
  }

  /** The grid opens at "05", has "00" straight after "23", and closes at
      "04". */
  lemma LabelsAroundMidnight()
    ensures TimeTable()[0].hourText == "05"
    ensures TimeTable()[18].hourText == "23" && TimeTable()[19].hourText == "00"
    ensures TimeTable()[23].hourText == "04"
  {
    LabelIs(0, "05");
    LabelIs(18, "23");
    LabelIs(19, "00");
    LabelIs(23, "04");
  }

  /** Row `i`'s label is the two digits of its hour. */
  lemma LabelIs(i: nat, text: string)
    requires i < 24
    requires text == [DigitChar(RowHour(i) / 10), DigitChar(RowHour(i) % 10)]
    ensures TimeTable()[i].hourText == text
  {
    LabelDigits(i);
  }

  /** The grid is the schedule-day that `calculateDate` is built around: the label
      of row `i`, entered as a start hour with minute 0, is placed by the
      timeline modal at hour `5 + i` counted from the selected date, so the
      rows run over consecutive hours with no jump at midnight. */
  lemma RowsAreScheduleDayHours(date: int, i: nat)
    requires i < 24
    ensures ParseInt(TimeTable()[i].hourText) == Some(RowHour(i))
    ensures var h := RowHour(i);
      Instant(CalculateDate(date, h, true), h, 0) == Instant(date, TimeTable()[i].key, 0)
  {
    LabelParses(i);
    RowHourValue(i);
  }

  /** As an end hour the same labels close one hour later each: the end of
      row `i`'s hour, the label of the next row (and "05" after the last),
      is placed at hour `6 + i` from the selected date. */
  lemma RowEndsAreScheduleDayHours(date: int, i: nat)
    requires i < 24
    ensures var k := FirstHour + i + 1;
      var h := k % 24;
      Instant(CalculateDate(date, h, false), h, 0) == Instant(date, k, 0)
  {
  }
}
