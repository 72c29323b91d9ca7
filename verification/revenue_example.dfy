/** A worked example: two `JE-PRG` lines of one entry, one line of another
    journal, and the footer. */
module RevenueExample {
  import opened Seqs
  import opened Journal
  import opened Pivot
  import opened MemoJoin
  import opened Summary
  import opened Output
  import opened Revenue

  const Desk: Option<string> := Some("Front Desk")
  const Cash: Row := Row("JE-PRG001", "Cash Clearance Prigen", 100, Desk)
  const Card: Row := Row("JE-PRG001", "A/R - Credit Card", 50, Desk)
  const Other: Row := Row("JE-OTHER002", "Cash Clearance Prigen", 999, Some("Ignored"))
  const Footer: Row := Row("TOTAL", "", 1149, None)

  lemma ExampleKept()
    ensures Kept([Cash, Card, Other, Footer]) == [Cash, Card]
  {
    var input := [Cash, Card, Other, Footer];
    assert DropTrailing(input) == [Cash, Card, Other];
    assert !(DocPrefix <= Other.doc) by { assert Other.doc[3] != DocPrefix[3]; }
    assert Filter([Other], Prefixed) == [];
    assert Filter([Cash, Card, Other], Prefixed) == [Cash, Card] by {
      assert [Cash, Card, Other][1..] == [Card, Other];
      assert [Card, Other][1..] == [Other];
      assert [Other][1..] == [];
    }
  }

  const Input: seq<Row> := [Cash, Card, Other, Footer]

  lemma ExampleSums(c: string)
    ensures SumOf([Cash, Card], "JE-PRG001", c) == if c == Cash.coa then 100 else if c == Card.coa then 50 else 0
    ensures c == Label(TicketClearance) ==> SumOf([Cash, Card], "JE-PRG001", c) == 0
  {
    var d := "JE-PRG001";
    assert [Cash, Card][1..] == [Card];
    assert [Card][1..] == [];
    assert SumOf([Card], d, c) == (if c == Card.coa then 50 else 0) + SumOf([], d, c);
    assert SumOf([Cash, Card], d, c) == (if c == Cash.coa then 100 else 0) + SumOf([Card], d, c);
    assert |Cash.coa| != |Card.coa| && |Cash.coa| != |Label(TicketClearance)| && |Card.coa| != |Label(TicketClearance)|;
  }

  /** The example's `JE-PRG` entry has a pivot row: cash 100, credit card 50,
      every other column zero, ticket clearance zero for lack of a "pajak" line. */
  lemma ExamplePivotCell(input: seq<Row>, c: string)
    requires Kept(input) == [Cash, Card]
    ensures "JE-PRG001" in Gated(input).cells
    ensures c in Gated(input).columns ==>
      Gated(input).cells["JE-PRG001"][c] == if c == Cash.coa then 100 else if c == Card.coa then 50 else 0
  {
    PivotDocuments(input, "JE-PRG001");
    assert Cash in Kept(input);
    if c in Gated(input).columns {
      PivotCells(input, "JE-PRG001", c);
      ExampleSums(c);
    }
  }

  lemma ExampleKeys()
    ensures KeyPairs([Cash, Card]) == [("JE-PRG001", Desk)]
  {
    var key: Key := ("JE-PRG001", Desk);
    assert [Cash, Card][1..] == [Card];
    assert [Card][1..] == [];
    assert Pairs([Card]) == [key] + Pairs([]);
    assert Pairs([Cash, Card]) == [key, key];
    assert [key, key][..1] == [key];
    assert [key][..0] == [];
    assert Dedup([key]) == [key];
    assert Dedup([key, key]) == [key];
  }

  lemma JoinSingle(g: Table, key: Key)
    requires key.0 in g.cells
    ensures Join(g, [key]) == [Line(key.0, key.1, g.cells[key.0])]
  {
    assert [key][1..] == [];
  }

  /** The one memo key meets the one pivot row. */
  lemma ExampleJoined(input: seq<Row>)
    requires Kept(input) == [Cash, Card]
    requires "JE-PRG001" in Gated(input).cells
    ensures Joined(input) == [Line("JE-PRG001", Desk, Gated(input).cells["JE-PRG001"])]
  {
    ExampleKeys();
    JoinSingle(Gated(input), ("JE-PRG001", Desk));
  }

  lemma ExampleValues(row: map<string, int>)
    requires RequiredLabels <= row.Keys
    requires forall c :: c in row ==> row[c] == if c == Cash.coa then 100 else if c == Card.coa then 50 else 0
    ensures Project(row) == [100, 0, 0, 0, 50, 0, 0, 0, 0]
  {
    ProjectColumns(row);
    forall c | c != CashClearancePrigen && c != CreditCard ensures At(row, c) == 0 {
      LabelInjective(c, CashClearancePrigen);
      LabelInjective(c, CreditCard);
    }
  }

  /** The summary row of the example's one joined row. */
  const Desk150: Summary := Summary("Front Desk", [100, 0, 0, 0, 50, 0, 0, 0, 0], 150)

  lemma ExampleRow(input: seq<Row>)
    requires Kept(input) == [Cash, Card]
    ensures "JE-PRG001" in Gated(input).cells
    ensures Project(Gated(input).cells["JE-PRG001"]) == [100, 0, 0, 0, 50, 0, 0, 0, 0]
  {
    ExamplePivotCell(input, "");
    var row := Gated(input).cells["JE-PRG001"];
    forall c | c in row
      ensures row[c] == if c == Cash.coa then 100 else if c == Card.coa then 50 else 0
    {
      ExamplePivotCell(input, c);
    }
    ExampleValues(row);
  }

  lemma ExampleRows(input: seq<Row>)
    requires Kept(input) == [Cash, Card]
    ensures SummaryRows(input) == [Desk150]
  {
    ExampleLine(input);
    ExampleSummarize(Joined(input)[0]);
  }

  lemma ExampleLine(input: seq<Row>)
    requires Kept(input) == [Cash, Card]
    ensures |Joined(input)| == 1 && Joined(input)[0].memo == Desk
    ensures RequiredLabels <= Joined(input)[0].cells.Keys
    ensures Project(Joined(input)[0].cells) == [100, 0, 0, 0, 50, 0, 0, 0, 0]
  {
    ExampleRow(input);
    ExampleJoined(input);
  }

  lemma ExampleSummarize(l: Line)
    requires RequiredLabels <= l.cells.Keys && l.memo == Desk
    requires Project(l.cells) == [100, 0, 0, 0, 50, 0, 0, 0, 0]
    ensures Summarize(l) == Desk150
  {
    var v := Project(l.cells);
    SumNine(v);
    assert Sum(v) == 150;
    assert MemoName(l.memo) == "Front Desk";
  }

  /** A single summary row is its own group and its own sorted order. */
  lemma SingleGroup(s: Summary)
    ensures SortByTotal(GroupByMemo([s])) == [s]
  {
    assert [s][1..] == [];
    PlusZeros(s.values);
    assert GroupByMemo([s]) == AddToGroups([], s);
  }

  lemma ExampleRender()
    ensures Render(Desk150) ==
      OutputRow("Front Desk", [Num(100), Blank, Blank, Blank, Num(50), Blank, Blank, Blank, Blank], Num(150))
  {
    var o := Render(Desk150);
    assert o.cells[0] == Num(100) && o.cells[4] == Num(50);
    assert o.cells == [Num(100), Blank, Blank, Blank, Num(50), Blank, Blank, Blank, Blank];
  }

  lemma ExampleShown(input: seq<Row>)
    requires Kept(input) == [Cash, Card]
    ensures Transform(input) ==
      [OutputRow("Front Desk", [Num(100), Blank, Blank, Blank, Num(50), Blank, Blank, Blank, Blank], Num(150))]
  {
    ExampleSummarized(input);
    ShownSingle(input, Desk150);
    ExampleRender();
  }

  lemma ExampleSummarized(input: seq<Row>)
    requires Kept(input) == [Cash, Card]
    ensures Summarized(input) == [Desk150]
  {
    ExampleRows(input);
    SingleGroup(Desk150);
  }

  /** A summary of one row is displayed as that row. */
  lemma ShownSingle(input: seq<Row>, s: Summary)
    requires Summarized(input) == [s]
    ensures Transform(input) == [Render(s)]
  {
  }

  /** The worked example end to end: the footer and the other journal's line are
      ignored, leaving one row for "Front Desk" that shows cash 100 and credit
      card 50, every other cell empty, Total 150. */
  lemma ExampleSummary()
    ensures Transform(Input) ==
      [OutputRow("Front Desk", [Num(100), Blank, Blank, Blank, Num(50), Blank, Blank, Blank, Blank], Num(150))]
  {
    ExampleKept();
    ExampleShown(Input);
  }
}
