/** The memo lookup and the left join of the pivot with it (app.py lines 35-36). */
module MemoJoin {
  import opened Seqs
  import opened Journal
  import opened Pivot

  /** A (document number, memo) pair as read from one line. */
  type Key = (string, Option<string>)

  function Pairs(rows: seq<Row>): (ks: seq<Key>)
    ensures |ks| == |rows|
    ensures forall k :: k in ks <==> exists r :: r in rows && r.doc == k.0 && r.memo == k.1
  {
    if |rows| == 0 then []
    else
      assert forall r :: r in rows <==> r == rows[0] || r in rows[1..] by {
        assert rows == [rows[0]] + rows[1..];
      }
      [(rows[0].doc, rows[0].memo)] + Pairs(rows[1..])
  }

  /** The distinct (document, memo) pairs: a document whose lines carry two
      different memos (or a memo and an empty cell) has two keys. */
  function KeyPairs(rows: seq<Row>): (ks: seq<Key>)
    ensures Distinct(ks)
    ensures forall k :: k in ks <==> exists r :: r in rows && r.doc == k.0 && r.memo == k.1
  {
    Dedup(Pairs(rows))
  }

  /** One row of the joined table: a document's pivot cells under one of its memos. */
  datatype Line = Line(doc: string, memo: Option<string>, cells: map<string, int>)

  /** How many joined rows carry document `d` with memo `m`. */
  function LineCount(lines: seq<Line>, d: string, m: Option<string>): nat
  {
    if |lines| == 0 then 0
    else (if lines[0].doc == d && lines[0].memo == m then 1 else 0) + LineCount(lines[1..], d, m)
  }

  /** The left join of the pivot with the memo keys: every pivot row is repeated
      once per key of its document, and keys of documents the pivot lacks are dropped. */
  function Join(t: Table, keys: seq<Key>): (lines: seq<Line>)
    ensures forall l :: l in lines ==> l.doc in t.cells && l.cells == t.cells[l.doc]
    ensures forall d, m :: LineCount(lines, d, m) == if d in t.cells then multiset(keys)[(d, m)] else 0
  {
    if |keys| == 0 then []
    else
      assert keys == [keys[0]] + keys[1..];
      var rest := Join(t, keys[1..]);
      if keys[0].0 in t.cells then
        var lines := [Line(keys[0].0, keys[0].1, t.cells[keys[0].0])] + rest;
        assert lines[1..] == rest;
        lines
      else rest
  }

  /** With distinct keys, each (document, memo) pair of a pivot document is
      joined exactly once. */
  lemma JoinOnce(t: Table, keys: seq<Key>, d: string, m: Option<string>)
    requires Distinct(keys)
    ensures LineCount(Join(t, keys), d, m) == if d in t.cells && (d, m) in keys then 1 else 0
  {
    DistinctCount(keys, (d, m));
  }
}
