/** The per-line revenue summary (DP merge, projection, memo default, Total) and
    the group-by over memos (app.py lines 38-49). */
module Summary {
  import opened Seqs
  import opened Journal
  import opened MemoJoin

  /** The nine category values of one summary row, in `OutputColumns` order. */
  type Amounts = v: seq<int> | |v| == Width witness [0, 0, 0, 0, 0, 0, 0, 0, 0]

  /** A summary row: a memo, its category values and their `Total`. */
  datatype Summary = Summary(memo: string, values: Amounts, total: int)

  /** The memo that stands in for an empty memo cell. */
  const Placeholder: string := "Biru"

  function MemoName(m: Option<string>): string
  {
    match m
    case Some(s) => s
    case None => Placeholder
  }

  /** A category's amount in a row of pivot cells. The gated pivot carries
      every required column (app.py lines 27-30), so the default 0 is only the
      value of a column the row does not have. */
  function At(cells: map<string, int>, c: Category): (v: int)
    ensures Label(c) in cells ==> v == cells[Label(c)]
    ensures Label(c) !in cells ==> v == 0
  {
    if Label(c) in cells then cells[Label(c)] else 0
  }

  /** The amount of the categories `cs` in a row of pivot cells. */
  function SumOver(cells: map<string, int>, cs: seq<Category>): int
  {
    if |cs| == 0 then 0 else At(cells, cs[0]) + SumOver(cells, cs[1..])
  }

  /** The value a category shows in the summary: the website-online column
      absorbs the website down-payment column (app.py lines 38-39). */
  function Merged(cells: map<string, int>, c: Category): int
  {
    if c == WebsiteOnline then At(cells, WebsiteOnline) + At(cells, WebsiteDownPayment)
    else At(cells, c)
  }

  /** The down-payment column is merged and not shown; every shown column is required. */
  lemma OutputColumnsRequired()
    ensures WebsiteDownPayment !in OutputColumns
    ensures forall c :: c in OutputColumns ==> c in Required
    ensures Distinct(OutputColumns)
  {
  }

  lemma SumNine(v: seq<int>)
    requires |v| == 9
    ensures Sum(v) == v[0] + v[1] + v[2] + v[3] + v[4] + v[5] + v[6] + v[7] + v[8]
  {
    assert Sum(v[8..]) == v[8] by { assert v[8..][1..] == []; }
    assert Sum(v[7..]) == v[7] + Sum(v[8..]) by { assert v[7..][1..] == v[8..]; }
    assert Sum(v[6..]) == v[6] + Sum(v[7..]) by { assert v[6..][1..] == v[7..]; }
    assert Sum(v[5..]) == v[5] + Sum(v[6..]) by { assert v[5..][1..] == v[6..]; }
    assert Sum(v[4..]) == v[4] + Sum(v[5..]) by { assert v[4..][1..] == v[5..]; }
    assert Sum(v[3..]) == v[3] + Sum(v[4..]) by { assert v[3..][1..] == v[4..]; }
    assert Sum(v[2..]) == v[2] + Sum(v[3..]) by { assert v[2..][1..] == v[3..]; }
    assert Sum(v[1..]) == v[1] + Sum(v[2..]) by { assert v[1..][1..] == v[2..]; }
  }

  /** The required columns' amount, written out category by category. */
  lemma SumOverRequired(cells: map<string, int>)
    ensures SumOver(cells, Required) ==
      At(cells, CashClearancePrigen) + At(cells, CreditCardBCA) + At(cells, CreditCardMandiri)
      + At(cells, CreditCard) + At(cells, MandiriTransfer) + At(cells, WebsiteOnline)
      + At(cells, TicketClearance) + At(cells, Voucher) + At(cells, ChargeToRoom)
      + At(cells, WebsiteDownPayment)
  {
    var r := Required;
    assert SumOver(cells, r[9..]) == At(cells, WebsiteDownPayment) by { assert r[9..][1..] == []; }
    assert SumOver(cells, r[8..]) == At(cells, r[8]) + SumOver(cells, r[9..]) by { assert r[8..][1..] == r[9..]; }
    assert SumOver(cells, r[7..]) == At(cells, r[7]) + SumOver(cells, r[8..]) by { assert r[7..][1..] == r[8..]; }
    assert SumOver(cells, r[6..]) == At(cells, r[6]) + SumOver(cells, r[7..]) by { assert r[6..][1..] == r[7..]; }
    assert SumOver(cells, r[5..]) == At(cells, r[5]) + SumOver(cells, r[6..]) by { assert r[5..][1..] == r[6..]; }
    assert SumOver(cells, r[4..]) == At(cells, r[4]) + SumOver(cells, r[5..]) by { assert r[4..][1..] == r[5..]; }
    assert SumOver(cells, r[3..]) == At(cells, r[3]) + SumOver(cells, r[4..]) by { assert r[3..][1..] == r[4..]; }
    assert SumOver(cells, r[2..]) == At(cells, r[2]) + SumOver(cells, r[3..]) by { assert r[2..][1..] == r[3..]; }
    assert SumOver(cells, r[1..]) == At(cells, r[1]) + SumOver(cells, r[2..]) by { assert r[1..][1..] == r[2..]; }
  }

  /** The DP merge and the projection onto the nine output columns
      (app.py lines 38-45): every shown column keeps its pivot value except
      website-online, which adds the down payment. */
  function Project(cells: map<string, int>): (v: Amounts)
    requires RequiredLabels <= cells.Keys
    ensures forall i :: 0 <= i < Width && OutputColumns[i] != WebsiteOnline ==>
      Label(OutputColumns[i]) in cells && v[i] == cells[Label(OutputColumns[i])]
    ensures forall i :: 0 <= i < Width && OutputColumns[i] == WebsiteOnline ==>
      v[i] == cells[Label(WebsiteOnline)] + cells[Label(WebsiteDownPayment)]
  {
    forall c | c in Required ensures Label(c) in cells {
      RequiredComplete(c);
    }
    seq(Width, i requires 0 <= i < Width => Merged(cells, OutputColumns[i]))
  }

  /** The projection written out column by column. */
  lemma ProjectColumns(cells: map<string, int>)
    requires RequiredLabels <= cells.Keys
    ensures Project(cells) == [
      At(cells, CashClearancePrigen), At(cells, CreditCardBCA), At(cells, CreditCardMandiri),
      At(cells, MandiriTransfer), At(cells, CreditCard),
      At(cells, WebsiteOnline) + At(cells, WebsiteDownPayment),
      At(cells, TicketClearance), At(cells, Voucher), At(cells, ChargeToRoom)]
  {
    var v := Project(cells);
    assert v[0] == Merged(cells, OutputColumns[0]);
    assert v[1] == Merged(cells, OutputColumns[1]);
    assert v[2] == Merged(cells, OutputColumns[2]);
    assert v[3] == Merged(cells, OutputColumns[3]);
    assert v[4] == Merged(cells, OutputColumns[4]);
    assert v[5] == Merged(cells, OutputColumns[5]);
    assert v[6] == Merged(cells, OutputColumns[6]);
    assert v[7] == Merged(cells, OutputColumns[7]);
    assert v[8] == Merged(cells, OutputColumns[8]);
  }

  /** The shown values add up to the amount of all ten required columns: the
      down payment is counted once, inside website-online. */
  lemma ProjectTotal(cells: map<string, int>)
    requires RequiredLabels <= cells.Keys
    ensures Sum(Project(cells)) == SumOver(cells, Required)
  {
    ProjectColumns(cells);
    SumNine(Project(cells));
    SumOverRequired(cells);
  }

  /** A summary row whose Total is the sum of its shown values. */
  predicate Consistent(s: Summary)
  {
    s.total == Sum(s.values)
  }

  /** One joined row as a summary row (app.py lines 41-48): the memo defaulted
      to the placeholder, the nine shown values, and a Total that counts every
      required column once. */
  function Summarize(l: Line): (s: Summary)
    requires RequiredLabels <= l.cells.Keys
    ensures s.memo == MemoName(l.memo)
    ensures l.memo.None? ==> s.memo == Placeholder
    ensures s.values == Project(l.cells)
    ensures Consistent(s)
    ensures s.total == SumOver(l.cells, Required)
  {
    var v := Project(l.cells);
    ProjectTotal(l.cells);
    Summary(MemoName(l.memo), v, Sum(v))
  }

  predicate DistinctMemos(gs: seq<Summary>)
  {
    forall i, j :: 0 <= i < j < |gs| ==> gs[i].memo != gs[j].memo
  }

  predicate HasMemo(gs: seq<Summary>, m: string)
  {
    exists g :: g in gs && g.memo == m
  }

  /** Distinct memos, one row at a time. */
  lemma DistinctMemosCons(h: Summary, t: seq<Summary>)
    ensures DistinctMemos([h] + t) <==> !HasMemo(t, h.memo) && DistinctMemos(t)
  {
    var s := [h] + t;
    assert s[1..] == t;
    if DistinctMemos(s) {
      forall g | g in t ensures g.memo != h.memo {
        var k :| 0 <= k < |t| && t[k] == g;
        assert s[0] == h && s[k + 1] == g;
      }
      forall i, j | 0 <= i < j < |t| ensures t[i].memo != t[j].memo {
        assert s[i + 1] == t[i] && s[j + 1] == t[j];
      }
    }
    if !HasMemo(t, h.memo) && DistinctMemos(t) {
      forall i, j | 0 <= i < j < |s| ensures s[i].memo != s[j].memo {
        assert s[j] == t[j - 1];
        if i > 0 {
          assert s[i] == t[i - 1];
        } else {
          assert s[j] in t;
        }
      }
    }
  }

  /** Reference definition: the column-wise sum of the rows with memo `m`. */
  function MemoValues(rows: seq<Summary>, m: string): Amounts
  {
    if |rows| == 0 then Zeros(Width)
    else if rows[0].memo == m then Plus(rows[0].values, MemoValues(rows[1..], m))
    else MemoValues(rows[1..], m)
  }

  /** Reference definition: the sum of the Totals of the rows with memo `m`. */
  function MemoTotal(rows: seq<Summary>, m: string): int
  {
    if |rows| == 0 then 0
    else (if rows[0].memo == m then rows[0].total else 0) + MemoTotal(rows[1..], m)
  }

  /** The first group with memo `m`, or an all-zero group when there is none. */
  function GroupOf(gs: seq<Summary>, m: string): Summary
  {
    if |gs| == 0 then Summary(m, Zeros(Width), 0)
    else if gs[0].memo == m then gs[0]
    else GroupOf(gs[1..], m)
  }

  /** In groups with distinct memos, looking a group up by its memo finds it. */
  lemma {:induction false} GroupOfMember(gs: seq<Summary>, g: Summary)
    requires DistinctMemos(gs) && g in gs
    ensures GroupOf(gs, g.memo) == g
  {
    if gs[0] != g {
      assert g in gs[1..];
      var k :| 0 <= k < |gs| - 1 && gs[1..][k] == g;
      assert gs[k + 1] == g;
      GroupOfMember(gs[1..], g);
    }
  }

  /** Adds one row into the groups: into the group of its memo when there is
      one, as a new group otherwise. Every column and the Total are summed. */
  function AddToGroups(gs: seq<Summary>, s: Summary): (r: seq<Summary>)
    ensures forall m :: GroupOf(r, m).values ==
              (if m == s.memo then Plus(s.values, GroupOf(gs, m).values) else GroupOf(gs, m).values)
    ensures forall m :: GroupOf(r, m).total ==
              (if m == s.memo then s.total + GroupOf(gs, m).total else GroupOf(gs, m).total)
  {
    if |gs| == 0 then
      PlusZeros(s.values);
      [s]
    else if gs[0].memo == s.memo then
      var r := [Summary(s.memo, Plus(s.values, gs[0].values), s.total + gs[0].total)] + gs[1..];
      assert r[1..] == gs[1..];
      r
    else
      var r := [gs[0]] + AddToGroups(gs[1..], s);
      assert r[1..] == AddToGroups(gs[1..], s);
      r
  }

  /** Adding a row adds its memo to the memos of the groups and nothing else. */
  lemma {:induction false} AddToGroupsMemos(gs: seq<Summary>, s: Summary, m: string)
    ensures HasMemo(AddToGroups(gs, s), m) <==> HasMemo(gs, m) || m == s.memo
  {
    var r := AddToGroups(gs, s);
    if |gs| == 0 {
      assert r[0] == s;
    } else {
      assert gs == [gs[0]] + gs[1..];
      assert forall g :: g in gs <==> g == gs[0] || g in gs[1..];
      if gs[0].memo == s.memo {
        assert r[1..] == gs[1..];
        assert forall g :: g in r <==> g == r[0] || g in gs[1..];
        assert r[0].memo == gs[0].memo;
      } else {
        var rest := AddToGroups(gs[1..], s);
        AddToGroupsMemos(gs[1..], s, m);
        assert r == [gs[0]] + rest;
        assert forall g :: g in r <==> g == gs[0] || g in rest;
        if HasMemo(gs, m) && gs[0].memo != m {
          assert HasMemo(gs[1..], m);
        }
      }
    }
  }

  /** Adding a row keeps the group memos distinct. */
  lemma {:induction false} AddToGroupsDistinct(gs: seq<Summary>, s: Summary)
    requires DistinctMemos(gs)
    ensures DistinctMemos(AddToGroups(gs, s))
  {
    if |gs| == 0 {
    } else {
      assert gs == [gs[0]] + gs[1..];
      DistinctMemosCons(gs[0], gs[1..]);
      if gs[0].memo == s.memo {
        var r := AddToGroups(gs, s);
        assert r == [r[0]] + gs[1..];
        DistinctMemosCons(r[0], gs[1..]);
      } else {
        var rest := AddToGroups(gs[1..], s);
        AddToGroupsDistinct(gs[1..], s);
        AddToGroupsMemos(gs[1..], s, gs[0].memo);
        DistinctMemosCons(gs[0], rest);
      }
    }
  }

  /** The group-by over memos with summation of every numeric column, Total
      included (app.py line 49): one group per memo, holding the column-wise
      sums and the Total sum of the rows with that memo. */
  function GroupByMemo(rows: seq<Summary>): (gs: seq<Summary>)
    ensures DistinctMemos(gs)
    ensures forall m :: GroupOf(gs, m).values == MemoValues(rows, m)
    ensures forall m :: GroupOf(gs, m).total == MemoTotal(rows, m)
  {
    if |rows| == 0 then []
    else
      var rest := GroupByMemo(rows[1..]);
      AddToGroupsDistinct(rest, rows[0]);
      AddToGroups(rest, rows[0])
  }

  /** There is a group for a memo exactly when some row has that memo. */
  lemma {:induction false} GroupByMemoMemos(rows: seq<Summary>, m: string)
    ensures HasMemo(GroupByMemo(rows), m) <==> HasMemo(rows, m)
  {
    if |rows| > 0 {
      GroupByMemoMemos(rows[1..], m);
      AddToGroupsMemos(GroupByMemo(rows[1..]), rows[0], m);
      assert forall g :: g in rows <==> g == rows[0] || g in rows[1..] by {
        assert rows == [rows[0]] + rows[1..];
      }
    }
  }

  /** Each group holds exactly the sums of its memo's rows. */
  lemma GroupsAreSums(rows: seq<Summary>)
    ensures forall g :: g in GroupByMemo(rows) ==>
      g.values == MemoValues(rows, g.memo) && g.total == MemoTotal(rows, g.memo)
  {
    var gs := GroupByMemo(rows);
    forall g | g in gs ensures g.values == MemoValues(rows, g.memo) && g.total == MemoTotal(rows, g.memo) {
      GroupOfMember(gs, g);
    }
  }

  /** When every row's Total is the sum of its values, so is every memo's. */
  lemma {:induction false} MemoSumsConsistent(rows: seq<Summary>, m: string)
    requires forall s :: s in rows ==> Consistent(s)
    ensures MemoTotal(rows, m) == Sum(MemoValues(rows, m))
  {
    if |rows| > 0 {
      assert rows[0] in rows;
      assert forall s :: s in rows[1..] ==> s in rows;
      MemoSumsConsistent(rows[1..], m);
    }
  }

  /** Summing Totals along with the columns keeps every group's Total equal to
      the sum of its shown values. */
  lemma GroupsConsistent(rows: seq<Summary>)
    requires forall s :: s in rows ==> Consistent(s)
    ensures forall g :: g in GroupByMemo(rows) ==> Consistent(g)
  {
    GroupsAreSums(rows);
    forall g | g in GroupByMemo(rows) ensures Consistent(g) {
      MemoSumsConsistent(rows, g.memo);
    }
  }
}
