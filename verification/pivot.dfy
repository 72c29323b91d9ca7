/** The pivot of the surviving lines by (document, COA description), the required
    columns added as zero, and the tax gate on the ticket-clearance column. */
module Pivot {
  import opened Seqs
  import opened Journal

  /** Sparse pivot: document -> COA description -> summed amount. A missing
      entry is a combination no line carried. */
  type Cells = map<string, map<string, int>>

  /** A pivot after its columns are complete: every document row has one numeric
      cell per column. */
  datatype Table = Table(columns: set<string>, cells: Cells)

  predicate Full(t: Table)
  {
    forall d :: d in t.cells ==> t.cells[d].Keys == t.columns
  }

  /** Reference definition: the summed amount of the lines of document `d`
      booked under description `c`. */
  function SumOf(lines: seq<Row>, d: string, c: string): int
  {
    if |lines| == 0 then 0
    else (if lines[0].doc == d && lines[0].coa == c then lines[0].amount else 0) + SumOf(lines[1..], d, c)
  }

  predicate HasDoc(lines: seq<Row>, d: string)
  {
    exists r :: r in lines && r.doc == d
  }

  predicate HasLine(lines: seq<Row>, d: string, c: string)
  {
    exists r :: r in lines && r.doc == d && r.coa == c
  }

  /** The value of a pivot cell, zero where the combination never occurred. */
  function Cell(m: Cells, d: string, c: string): int
  {
    if d in m && c in m[d] then m[d][c] else 0
  }

  /** Adds one line's amount into its (document, description) cell. */
  function Book(m: Cells, r: Row): (m': Cells)
    ensures m'.Keys == m.Keys + {r.doc}
    ensures forall d, c :: (d in m' && c in m'[d]) <==> (d in m && c in m[d]) || (d == r.doc && c == r.coa)
    ensures forall d, c :: Cell(m', d, c) == Cell(m, d, c) + (if d == r.doc && c == r.coa then r.amount else 0)
  {
    var row := if r.doc in m then m[r.doc] else map[];
    m[r.doc := row[r.coa := Cell(m, r.doc, r.coa) + r.amount]]
  }

  /** The pivot with summation (app.py lines 13-19): one row per document that
      has a line, one cell per description that document used. */
  function Sums(lines: seq<Row>): (m: Cells)
    ensures forall d, c :: Cell(m, d, c) == SumOf(lines, d, c)
  {
    if |lines| == 0 then map[] else Book(Sums(lines[1..]), lines[0])
  }

  /** The pivot has a row for exactly the documents that have a line. */
  lemma {:induction false} SumsDocs(lines: seq<Row>, d: string)
    ensures d in Sums(lines) <==> HasDoc(lines, d)
  {
    if |lines| > 0 {
      assert forall r :: r in lines <==> r == lines[0] || r in lines[1..] by {
        assert lines == [lines[0]] + lines[1..];
      }
      SumsDocs(lines[1..], d);
    }
  }

  /** The pivot is sparse: it has a cell exactly where some line has that
      document and description (pandas leaves the other cells empty). */
  lemma {:induction false} SumsSparse(lines: seq<Row>, d: string, c: string)
    ensures (d in Sums(lines) && c in Sums(lines)[d]) <==> HasLine(lines, d, c)
  {
    if |lines| > 0 {
      assert forall r :: r in lines <==> r == lines[0] || r in lines[1..] by {
        assert lines == [lines[0]] + lines[1..];
      }
      SumsSparse(lines[1..], d, c);
      if HasLine(lines, d, c) && !(lines[0].doc == d && lines[0].coa == c) {
        assert HasLine(lines[1..], d, c);
      }
    }
  }

  /** The descriptions that occur among the lines: the pivot's columns. */
  function Labels(lines: seq<Row>): set<string>
  {
    set r | r in lines :: r.coa
  }

  /** Adds every missing required column and fills every missing cell with zero
      (app.py lines 26-30). */
  function WithRequired(m: Cells, columns: set<string>): (t: Table)
    ensures Full(t)
    ensures t.columns == columns + RequiredLabels
    ensures t.cells.Keys == m.Keys
    ensures forall d, c :: d in t.cells && c in t.columns ==> t.cells[d][c] == Cell(m, d, c)
  {
    var cols := columns + RequiredLabels;
    Table(cols, map d | d in m :: map c | c in cols :: Cell(m, d, c))
  }

  /** The complete pivot of the lines that survive the filters. */
  function PivotTable(lines: seq<Row>): (t: Table)
    ensures Full(t)
    ensures t.columns == Labels(lines) + RequiredLabels
    ensures forall d :: d in t.cells <==> HasDoc(lines, d)
    ensures forall d, c :: d in t.cells && c in t.columns ==> t.cells[d][c] == SumOf(lines, d, c)
  {
    forall d ensures d in Sums(lines) <==> HasDoc(lines, d) { SumsDocs(lines, d); }
    WithRequired(Sums(lines), Labels(lines))
  }

  /** A description that no line of the document carries sums to zero. */
  lemma {:induction false} SumOfAbsent(lines: seq<Row>, d: string, c: string)
    requires !HasLine(lines, d, c)
    ensures SumOf(lines, d, c) == 0
  {
    if |lines| > 0 {
      assert lines[0] in lines;
      assert !HasLine(lines[1..], d, c) by {
        forall r | r in lines[1..] ensures !(r.doc == d && r.coa == c) {
          assert r in lines;
        }
      }
      SumOfAbsent(lines[1..], d, c);
    }
  }

  /** Zero-amount lines add nothing to any cell, so dropping them keeps every sum. */
  lemma {:induction false} SumOfNonZero(rows: seq<Row>, d: string, c: string)
    ensures SumOf(NonZeroLines(rows), d, c) == SumOf(rows, d, c)
  {
    if |rows| > 0 {
      assert rows == [rows[0]] + rows[1..];
      FilterConcat([rows[0]], rows[1..], NonZero);
      SumOfNonZero(rows[1..], d, c);
      if rows[0].amount != 0 {
        assert NonZeroLines([rows[0]]) == [rows[0]];
        assert NonZeroLines(rows)[1..] == NonZeroLines(rows[1..]);
      } else {
        assert NonZeroLines([rows[0]]) == [];
      }
    }
  }

  /** The documents with at least one line whose description mentions "pajak". */
  function PajakDocs(rows: seq<Row>): (s: set<string>)
    ensures forall d :: d in s <==> exists r :: r in rows && r.doc == d && MentionsPajak(r.coa)
  {
    set r | r in rows && MentionsPajak(r.coa) :: r.doc
  }

  /** A document row with its ticket-clearance cell zeroed unless `taxed`. */
  function GateRow(row: map<string, int>, taxed: bool): map<string, int>
  {
    if taxed then row else row[Label(TicketClearance) := 0]
  }

  /** The tax gate (app.py lines 32-33): the ticket-clearance cell of every
      document outside `pajak` becomes zero; every other cell is kept. */
  function TicketGate(t: Table, pajak: set<string>): (g: Table)
    requires Full(t) && Label(TicketClearance) in t.columns
    ensures Full(g)
    ensures g.columns == t.columns && g.cells.Keys == t.cells.Keys
    ensures forall d, c :: d in g.cells && c in g.columns ==>
      g.cells[d][c] == if c == Label(TicketClearance) && d !in pajak then 0 else t.cells[d][c]
  {
    Table(t.columns, map d | d in t.cells :: GateRow(t.cells[d], d in pajak))
  }

  /** The gate only asks about the pivot's own documents. */
  lemma GateLooksAtPivotDocs(t: Table, a: set<string>, b: set<string>)
    requires Full(t) && Label(TicketClearance) in t.columns
    requires forall d :: d in t.cells ==> (d in a <==> d in b)
    ensures TicketGate(t, a) == TicketGate(t, b)
  {
    var ga := TicketGate(t, a);
    var gb := TicketGate(t, b);
    assert ga.cells.Keys == gb.cells.Keys;
    forall d | d in ga.cells ensures ga.cells[d] == gb.cells[d] {
      assert ga.cells[d] == GateRow(t.cells[d], d in a);
      assert gb.cells[d] == GateRow(t.cells[d], d in b);
    }
    assert ga.cells == gb.cells;
  }
}
