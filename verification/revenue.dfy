/** The revenue summary of a journal export (app.py lines 6-53), composed from
    its stages, and the properties of the whole pipeline. */
module Revenue {
  import opened Seqs
  import opened Journal
  import opened Pivot
  import opened MemoJoin
  import opened Summary
  import opened Output

  /** The lines the summary looks at: the footer dropped, `JE-PRG` entries kept
      (app.py lines 7-8). The tax scan and the memo lookup read these lines,
      zero amounts included. */
  function Kept(input: seq<Row>): seq<Row>
  {
    KeepPrefixed(DropTrailing(input))
  }

  /** The pivot of the non-zero kept lines with the required columns, after the
      tax gate (app.py lines 10-33). */
  function Gated(input: seq<Row>): (t: Table)
    ensures Full(t) && RequiredLabels <= t.columns
  {
    var rows := Kept(input);
    RequiredComplete(TicketClearance);
    TicketGate(PivotTable(NonZeroLines(rows)), PajakDocs(rows))
  }

  /** The pivot joined with the memo keys (app.py lines 35-36). */
  function Joined(input: seq<Row>): (ls: seq<Line>)
    ensures forall l :: l in ls ==> RequiredLabels <= l.cells.Keys
  {
    Join(Gated(input), KeyPairs(Kept(input)))
  }

  /** One summary row per joined row (app.py lines 38-48). */
  function SummaryRows(input: seq<Row>): (ss: seq<Summary>)
    ensures |ss| == |Joined(input)|
    ensures forall i :: 0 <= i < |ss| ==> ss[i] == Summarize(Joined(input)[i])
    ensures forall i :: 0 <= i < |ss| ==>
      && ss[i].memo == MemoName(Joined(input)[i].memo)
      && ss[i].values == Project(Joined(input)[i].cells)
      && Consistent(ss[i])
      && ss[i].total == SumOver(Joined(input)[i].cells, Required)
  {
    var ls := Joined(input);
    seq(|ls|, i requires 0 <= i < |ls| => assert ls[i] in ls; Summarize(ls[i]))
  }

  /** The summary before display (app.py lines 6-50): one row per memo, each
      holding the sums of that memo's rows, ordered by descending Total. */
  function Summarized(input: seq<Row>): (out: seq<Summary>)
    ensures DistinctMemos(out)
    ensures ByTotalDesc(out)
    ensures forall s :: s in out ==> Consistent(s)
    ensures forall m :: HasMemo(out, m) <==> HasMemo(SummaryRows(input), m)
    ensures forall s :: s in out ==>
      s.values == MemoValues(SummaryRows(input), s.memo) && s.total == MemoTotal(SummaryRows(input), s.memo)
  {
    var rows := SummaryRows(input);
    var groups := GroupByMemo(rows);
    GroupsAreSums(rows);
    GroupsConsistent(rows);
    var out := SortByTotal(groups);
    assert forall m :: HasMemo(out, m) <==> HasMemo(rows, m) by {
      forall m ensures HasMemo(out, m) <==> HasMemo(rows, m) {
        GroupByMemoMemos(rows, m);
        if HasMemo(groups, m) {
          var g :| g in groups && g.memo == m;
          assert g in out;
        }
      }
    }
    out
  }

  /** The displayed summary (app.py lines 6-53): memos pairwise distinct, Totals
      non-increasing, every zero shown empty, and every shown row reads back as
      the summary row it displays. */
  function Transform(input: seq<Row>): (out: seq<OutputRow>)
    ensures |out| == |Summarized(input)|
    ensures forall i, j :: 0 <= i < j < |out| ==> out[i].memo != out[j].memo
    ensures forall i, j :: 0 <= i < j < |out| ==> Unshow(out[i].total) >= Unshow(out[j].total)
    ensures forall i :: 0 <= i < |out| ==> Shows(out[i], Summarized(input)[i])
  {
    var ss := Summarized(input);
    RenderAll(ss)
  }

  /** The footer line never matters: whatever the last line holds, the summary
      is the same (app.py line 7). */
  lemma TrailingRowIgnored(rows: seq<Row>, x: Row, y: Row)
    ensures Transform(rows + [x]) == Transform(rows + [y])
  {
    assert DropTrailing(rows + [x]) == rows == DropTrailing(rows + [y]);
  }

  /** The summary depends on the input only through the kept lines. */
  lemma KeptDetermines(x: seq<Row>, y: seq<Row>)
    requires Kept(x) == Kept(y)
    ensures Transform(x) == Transform(y)
  {
    assert Gated(x) == Gated(y);
    assert Joined(x) == Joined(y);
    assert SummaryRows(x) == SummaryRows(y);
    assert Summarized(x) == Summarized(y);
  }

  /** Dropping a non-`JE-PRG` line that is not the footer leaves the kept lines unchanged. */
  lemma KeptWithoutUnprefixed(a: seq<Row>, r: Row, b: seq<Row>)
    requires !(DocPrefix <= r.doc)
    requires |b| > 0
    ensures Kept(a + [r] + b) == Kept(a + b)
  {
    var b' := b[..|b| - 1];
    assert DropTrailing(a + [r] + b) == a + [r] + b' by {
      assert a + [r] + b == (a + [r] + b') + [b[|b| - 1]];
    }
    assert DropTrailing(a + b) == a + b' by {
      assert a + b == (a + b') + [b[|b| - 1]];
    }
    FilterConcat(a + [r], b', Prefixed);
    FilterConcat(a, [r], Prefixed);
    FilterConcat(a, b', Prefixed);
    assert Filter([r], Prefixed) == [];
    assert Filter(a + [r], Prefixed) == Filter(a, Prefixed);
  }

  /** A line outside the `JE-PRG` entries never matters: removing it leaves the
      summary unchanged, unless it is the footer itself (app.py line 8). */
  lemma UnprefixedRowIgnored(a: seq<Row>, r: Row, b: seq<Row>)
    requires !(DocPrefix <= r.doc)
    requires |b| > 0
    ensures Transform(a + [r] + b) == Transform(a + b)
  {
    KeptWithoutUnprefixed(a, r, b);
    KeptDetermines(a + [r] + b, a + b);
  }

  /** A document has a pivot row exactly when one of its kept lines has a
      non-zero amount; a document whose lines are all zero produces nothing
      (app.py lines 11-19). */
  lemma PivotDocuments(input: seq<Row>, d: string)
    ensures d in Gated(input).cells <==> exists r :: r in Kept(input) && r.doc == d && r.amount != 0
  {
  }

  /** Every pivot cell other than ticket clearance is the sum of the document's
      kept amounts under that description, zero when it has none; the ticket
      clearance cell keeps its sum only for documents with a "pajak" line, zero
      amounts included (app.py lines 13-33). */
  lemma PivotCells(input: seq<Row>, d: string, c: string)
    requires d in Gated(input).cells && c in Gated(input).columns
    ensures Gated(input).cells[d][c] ==
      if c == Label(TicketClearance) && !(exists r :: r in Kept(input) && r.doc == d && MentionsPajak(r.coa))
      then 0 else SumOf(Kept(input), d, c)
  {
    SumOfNonZero(Kept(input), d, c);
  }

  /** The pivot's columns are the descriptions of the non-zero kept lines plus
      the required ones (app.py lines 13-28). */
  lemma PivotColumns(input: seq<Row>)
    ensures Gated(input).columns == Labels(NonZeroLines(Kept(input))) + RequiredLabels
  {
  }

  /** The memo join repeats a pivot row once per distinct memo value its kept
      lines carry, an empty memo counting as a value of its own (app.py lines 35-36). */
  lemma JoinedOncePerMemo(input: seq<Row>, d: string, m: Option<string>)
    ensures LineCount(Joined(input), d, m) ==
      if d in Gated(input).cells && (exists r :: r in Kept(input) && r.doc == d && r.memo == m) then 1 else 0
  {
    JoinOnce(Gated(input), KeyPairs(Kept(input)), d, m);
  }

  /** No pivot row is lost by the join: each one meets at least one memo value. */
  lemma EveryDocumentJoined(input: seq<Row>, d: string)
    requires d in Gated(input).cells
    ensures exists m :: LineCount(Joined(input), d, m) == 1
  {
    PivotDocuments(input, d);
    var r :| r in Kept(input) && r.doc == d && r.amount != 0;
    JoinedOncePerMemo(input, d, r.memo);
  }

  /** For a pivot document, a "pajak" line among all lines is a "pajak" line
      among the `JE-PRG` lines: the document number itself carries the prefix. */
  lemma PajakDocsAgree(input: seq<Row>, d: string)
    requires d in PivotTable(NonZeroLines(Kept(input))).cells
    ensures d in PajakDocs(DropTrailing(input)) <==> d in PajakDocs(Kept(input))
  {
    var w :| w in NonZeroLines(Kept(input)) && w.doc == d;
    assert DocPrefix <= d;
    if d in PajakDocs(DropTrailing(input)) {
      var r :| r in DropTrailing(input) && r.doc == d && MentionsPajak(r.coa);
      assert r in Kept(input);
    }
  }

  /** Scanning all lines for "pajak" instead of the `JE-PRG` ones gates the same
      cells, because every pivot document is a `JE-PRG` document. */
  lemma PajakScopeIrrelevant(input: seq<Row>)
    ensures TicketGate(PivotTable(NonZeroLines(Kept(input))), PajakDocs(DropTrailing(input))) == Gated(input)
  {
    var p := PivotTable(NonZeroLines(Kept(input)));
    RequiredComplete(TicketClearance);
    forall d | d in p.cells ensures d in PajakDocs(DropTrailing(input)) <==> d in PajakDocs(Kept(input)) {
      PajakDocsAgree(input, d);
    }
    GateLooksAtPivotDocs(p, PajakDocs(DropTrailing(input)), PajakDocs(Kept(input)));
  }
}
