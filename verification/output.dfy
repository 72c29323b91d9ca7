/** The final ordering by Total and the blanking of zero cells (app.py lines 50-51). */
module Output {
  import opened Journal
  import opened Summary

  /** Non-increasing in Total. */
  predicate ByTotalDesc(s: seq<Summary>)
  {
    forall i, j :: 0 <= i < j < |s| ==> s[i].total >= s[j].total
  }

  /** Places `x` before the first row whose Total is not larger. */
  function Insert(x: Summary, s: seq<Summary>): (r: seq<Summary>)
    ensures multiset(r) == multiset(s) + multiset{x}
    ensures forall y :: y in r <==> y == x || y in s
  {
    if |s| == 0 then [x]
    else if x.total >= s[0].total then [x] + s
    else
      assert s == [s[0]] + s[1..];
      [s[0]] + Insert(x, s[1..])
  }

  /** Descending order, one row at a time. */
  lemma SortedCons(h: Summary, t: seq<Summary>)
    ensures ByTotalDesc([h] + t) <==> (forall y :: y in t ==> h.total >= y.total) && ByTotalDesc(t)
  {
    var s := [h] + t;
    assert s[1..] == t;
    if ByTotalDesc(s) {
      forall y | y in t ensures h.total >= y.total {
        var k :| 0 <= k < |t| && t[k] == y;
        assert s[0] == h && s[k + 1] == y;
      }
    }
    if (forall y :: y in t ==> h.total >= y.total) && ByTotalDesc(t) {
      forall i, j | 0 <= i < j < |s| ensures s[i].total >= s[j].total {
        assert s[j] == t[j - 1];
        if i > 0 {
          assert s[i] == t[i - 1];
        }
      }
    }
  }

  /** Insertion keeps the order by descending Total. */
  lemma {:induction false} InsertSorted(x: Summary, s: seq<Summary>)
    requires ByTotalDesc(s)
    ensures ByTotalDesc(Insert(x, s))
  {
    if |s| > 0 {
      assert s == [s[0]] + s[1..];
      SortedCons(s[0], s[1..]);
      if x.total >= s[0].total {
        SortedCons(x, s);
      } else {
        InsertSorted(x, s[1..]);
        SortedCons(s[0], Insert(x, s[1..]));
      }
    }
  }

  /** Inserting a row with a new memo keeps the memos distinct. */
  lemma {:induction false} InsertKeepsDistinct(x: Summary, s: seq<Summary>)
    requires DistinctMemos(s) && !HasMemo(s, x.memo)
    ensures DistinctMemos(Insert(x, s))
  {
    if |s| == 0 {
      DistinctMemosCons(x, s);
    } else if x.total >= s[0].total {
      DistinctMemosCons(x, s);
    } else {
      assert s == [s[0]] + s[1..];
      DistinctMemosCons(s[0], s[1..]);
      assert !HasMemo(s[1..], x.memo) by {
        forall y | y in s[1..] ensures y.memo != x.memo {
          assert y in s;
        }
      }
      InsertKeepsDistinct(x, s[1..]);
      var rest := Insert(x, s[1..]);
      assert !HasMemo(rest, s[0].memo) by {
        assert s[0] in s;
      }
      DistinctMemosCons(s[0], rest);
    }
  }

  /** Sorting by Total, descending (app.py line 50). The source's sort does not
      fix the order of equal Totals; this insertion sort is one admissible order. */
  function SortByTotal(s: seq<Summary>): (r: seq<Summary>)
    ensures ByTotalDesc(r)
    ensures multiset(r) == multiset(s)
    ensures forall y :: y in r <==> y in s
    ensures DistinctMemos(s) ==> DistinctMemos(r)
  {
    if |s| == 0 then []
    else
      assert s == [s[0]] + s[1..];
      var rest := SortByTotal(s[1..]);
      DistinctMemosCons(s[0], s[1..]);
      InsertSorted(s[0], rest);
      if DistinctMemos(s) then
        InsertKeepsDistinct(s[0], rest);
        Insert(s[0], rest)
      else Insert(s[0], rest)
  }

  /** A displayed cell: zero is shown empty. */
  datatype Shown = Blank | Num(value: int)

  /** A displayed summary row. */
  datatype OutputRow = OutputRow(memo: string, cells: seq<Shown>, total: Shown)

  /** The number a displayed cell stands for. */
  function Unshow(c: Shown): int
  {
    match c
    case Blank => 0
    case Num(v) => v
  }

  /** Zero becomes the empty cell and every other value is shown unchanged
      (app.py line 51); nothing is lost, since an empty cell reads back as zero. */
  function Show(v: int): (c: Shown)
    ensures c.Blank? <==> v == 0
    ensures c.Num? ==> c.value == v
    ensures Unshow(c) == v
  {
    if v == 0 then Blank else Num(v)
  }

  /** Displays one summary row; the memo is text and is never blanked. */
  function Render(s: Summary): (o: OutputRow)
    ensures o.memo == s.memo && |o.cells| == Width
    ensures forall i :: 0 <= i < Width ==> (o.cells[i].Blank? <==> s.values[i] == 0)
    ensures forall i :: 0 <= i < Width ==> Unshow(o.cells[i]) == s.values[i]
    ensures o.total.Blank? <==> s.total == 0
    ensures Unshow(o.total) == s.total
  {
    OutputRow(s.memo, seq(Width, i requires 0 <= i < Width => Show(s.values[i])), Show(s.total))
  }

  /** Reads a displayed row back as numbers. */
  function Unrender(o: OutputRow): Summary
    requires |o.cells| == Width
  {
    Summary(o.memo, seq(Width, i requires 0 <= i < Width => Unshow(o.cells[i])), Unshow(o.total))
  }

  /** Blanking is lossless: the numbers can be read back from the displayed row. */
  lemma RenderRoundTrip(s: Summary)
    ensures Unrender(Render(s)) == s
  {
    assert Unrender(Render(s)).values == s.values;
  }

  /** `o` displays `s`: the same memo, every zero category cell and a zero
      Total shown empty, every other value shown unchanged. */
  predicate Shows(o: OutputRow, s: Summary)
  {
    && o.memo == s.memo
    && |o.cells| == Width
    && (forall k :: 0 <= k < Width ==> (o.cells[k].Blank? <==> s.values[k] == 0))
    && (o.total.Blank? <==> s.total == 0)
    && Unrender(o) == s
  }

  /** Displays every summary row, in order; each displayed row reads back as
      the row it shows, so distinct memos and the order by Total carry over. */
  function RenderAll(ss: seq<Summary>): (out: seq<OutputRow>)
    ensures |out| == |ss|
    ensures forall i :: 0 <= i < |out| ==> Shows(out[i], ss[i])
    ensures DistinctMemos(ss) ==> forall i, j :: 0 <= i < j < |out| ==> out[i].memo != out[j].memo
    ensures ByTotalDesc(ss) ==> forall i, j :: 0 <= i < j < |out| ==> Unshow(out[i].total) >= Unshow(out[j].total)
  {
    var out := seq(|ss|, i requires 0 <= i < |ss| => Render(ss[i]));
    forall i | 0 <= i < |ss| ensures Shows(out[i], ss[i]) {
      RenderRoundTrip(ss[i]);
    }
    out
  }
}
