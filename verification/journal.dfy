/** Journal-entry lines of the accounting export, the revenue categories the
    summary reports, and the row-level filters applied before pivoting. */
module Journal {
  import opened Seqs

  datatype Option<T> = None | Some(value: T)

  /** One line of a journal entry: the four columns the summary reads.
      Amounts are exact (for instance cents); `memo` is None for an empty cell. */
  datatype Row = Row(doc: string, coa: string, amount: int, memo: Option<string>)

  /** The revenue categories, by chart-of-accounts description. */
  datatype Category =
    | CashClearancePrigen
    | CreditCardBCA
    | CreditCardMandiri
    | CreditCard
    | MandiriTransfer
    | WebsiteOnline
    | TicketClearance
    | Voucher
    | ChargeToRoom
    | WebsiteDownPayment

  /** The COA description text under which a category appears in the export. */
  function Label(c: Category): string
  {
    match c
    case CashClearancePrigen => "Cash Clearance Prigen"
    case CreditCardBCA => "A/R - Credit Card BCA"
    case CreditCardMandiri => "A/R - Credit Card Mandiri"
    case CreditCard => "A/R - Credit Card"
    case MandiriTransfer => "Mandiri by TF (temp)"
    case WebsiteOnline => "A/R - Website Online"
    case TicketClearance => "Tiket Clearance"
    case Voucher => "VOUCHER (temp)"
    case ChargeToRoom => "Charge To Room"
    case WebsiteDownPayment => "DP - Website On Line"
  }

  /** Distinct categories have distinct descriptions, so each owns its own pivot column. */
  lemma LabelInjective(c: Category, d: Category)
    ensures Label(c) == Label(d) ==> c == d
  {
  }

  /** The columns the pivot must carry, in the order they are listed (app.py lines 21-25). */
  const Required: seq<Category> := [
    CashClearancePrigen, CreditCardBCA, CreditCardMandiri, CreditCard, MandiriTransfer,
    WebsiteOnline, TicketClearance, Voucher, ChargeToRoom, WebsiteDownPayment
  ]

  const RequiredLabels: set<string> := set c | c in Required :: Label(c)

  /** Every category is a required column. */
  lemma RequiredComplete(c: Category)
    ensures c in Required && Label(c) in RequiredLabels
  {
    match c
    case CashClearancePrigen => assert Required[0] == c;
    case CreditCardBCA => assert Required[1] == c;
    case CreditCardMandiri => assert Required[2] == c;
    case CreditCard => assert Required[3] == c;
    case MandiriTransfer => assert Required[4] == c;
    case WebsiteOnline => assert Required[5] == c;
    case TicketClearance => assert Required[6] == c;
    case Voucher => assert Required[7] == c;
    case ChargeToRoom => assert Required[8] == c;
    case WebsiteDownPayment => assert Required[9] == c;
  }

  /** The category columns of the summary, in output order (app.py lines 41-45). */
  const OutputColumns: seq<Category> := [
    CashClearancePrigen, CreditCardBCA, CreditCardMandiri, MandiriTransfer, CreditCard,
    WebsiteOnline, TicketClearance, Voucher, ChargeToRoom
  ]

  const Width: nat := |OutputColumns|

  const DocPrefix: string := "JE-PRG"

  /** The export's last line is a footer and is dropped by position. */
  function DropTrailing(rows: seq<Row>): (r: seq<Row>)
    ensures |rows| == 0 ==> r == []
    ensures |rows| > 0 ==> rows == r + [rows[|rows| - 1]]
  {
    if |rows| == 0 then [] else rows[..|rows| - 1]
  }

  predicate Prefixed(r: Row)
  {
    DocPrefix <= r.doc
  }

  /** The lines of `JE-PRG` journal entries, in input order. */
  function KeepPrefixed(rows: seq<Row>): (r: seq<Row>)
    ensures forall x :: x in r <==> x in rows && DocPrefix <= x.doc
  {
    Filter(rows, Prefixed)
  }

  /** Each `JE-PRG` line is kept as often as it occurs; no other line is kept. */
  lemma KeepPrefixedCount(rows: seq<Row>, x: Row)
    ensures multiset(KeepPrefixed(rows))[x] == if DocPrefix <= x.doc then multiset(rows)[x] else 0
  {
    FilterMultiset(rows, Prefixed, x);
  }

  predicate NonZero(r: Row)
  {
    r.amount != 0
  }

  /** The lines that carry an amount; zero-amount lines never reach the pivot. */
  function NonZeroLines(rows: seq<Row>): (r: seq<Row>)
    ensures forall x :: x in r <==> x in rows && x.amount != 0
  {
    Filter(rows, NonZero)
  }

  /** Each line with an amount is kept as often as it occurs; no zero line is kept. */
  lemma NonZeroLinesCount(rows: seq<Row>, x: Row)
    ensures multiset(NonZeroLines(rows))[x] == if x.amount != 0 then multiset(rows)[x] else 0
  {
    FilterMultiset(rows, NonZero, x);
  }

  /** ASCII lower-casing of one character. */
  function LowerChar(c: char): char
  {
    if 'A' <= c <= 'Z' then (c as int + 32) as char else c
  }

  function Lower(s: string): (r: string)
    ensures |r| == |s|
    ensures forall i :: 0 <= i < |s| ==> r[i] == LowerChar(s[i])
  {
    if |s| == 0 then [] else [LowerChar(s[0])] + Lower(s[1..])
  }

  /** Whether `t` occurs in `s` as a contiguous piece. */
  function Contains(s: string, t: string): bool
  {
    t <= s || (|s| > 0 && Contains(s[1..], t))
  }

  /** `t` occurs in `s` starting at position `i`. */
  predicate OccursAt(s: string, t: string, i: int)
  {
    0 <= i && i + |t| <= |s| && s[i..i + |t|] == t
  }

  /** The scan agrees with the positional definition of a substring occurrence. */
  lemma {:induction false} ContainsIff(s: string, t: string)
    ensures Contains(s, t) <==> exists i :: OccursAt(s, t, i)
  {
    if t <= s {
      assert OccursAt(s, t, 0);
    } else if |s| > 0 {
      ContainsIff(s[1..], t);
      forall i | OccursAt(s, t, i)
        ensures OccursAt(s[1..], t, i - 1)
      {
        assert i == 0 ==> t <= s;
        assert i >= 1 ==> s[1..][i - 1..i - 1 + |t|] == s[i..i + |t|];
      }
      if Contains(s[1..], t) {
        var j :| OccursAt(s[1..], t, j);
        assert s[1..][j..j + |t|] == s[j + 1..j + 1 + |t|];
        assert OccursAt(s, t, j + 1);
      }
    }
  }

  /** Whether a COA description contains "pajak" (tax), ignoring letter case. */
  predicate MentionsPajak(coa: string)
  {
    Contains(Lower(coa), "pajak")
  }

  /** The tax test ignores letter case: it looks at the description only through `Lower`. */
  lemma {:induction false} MentionsPajakCaseInsensitive(a: string, b: string)
    requires |a| == |b|
    requires forall i :: 0 <= i < |a| ==> LowerChar(a[i]) == LowerChar(b[i])
    ensures MentionsPajak(a) <==> MentionsPajak(b)
  {
    assert Lower(a) == Lower(b);
  }
}
