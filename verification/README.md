# Revenue summary of a journal export

A Dafny model of `process_excel_data` (app.py:6-53). The function turns an
accounting export of journal-entry lines into a revenue reconciliation
summary. It keeps one row per memo, shows nine revenue categories and a
Total, and orders the rows by descending Total. The steps are:

1. Drop the footer line.
2. Keep the `JE-PRG` journal entries.
3. Drop zero amounts.
4. Pivot amounts by (document number, COA description), summing them.
5. Add each missing required category column, filled with zero.
6. Zero the ticket-clearance cell of every document that has no "pajak"
   (tax) line.
7. Left-join the memos.
8. Merge the website down payment into website-online.
9. Project onto the nine output columns, default a missing memo to `"Biru"`,
   and add the Total.
10. Group by memo, summing.
11. Sort by Total, descending.
12. Show zero cells as empty.

Modules follow the stages:

- `Seqs`: sequence helpers (filter, sums, de-duplication).
- `Journal`: input lines, the categories and their descriptions, the row
  filters and the case-insensitive "pajak" test.
- `Pivot`: the pivot table, the required columns and the tax gate.
- `MemoJoin`: the distinct (document, memo) keys and the left join.
- `Summary`: the DP merge, the projection, the memo default, the Total and
  the group-by.
- `Output`: the sort and the blanking of zeros.
- `Revenue`: the whole pipeline and the properties that span stages.
- `RevenueExample`: a worked example, end to end.

Each stage has a reference definition to check it against:

- `SumOf` is the sum of one document's amounts under one description.
- `PajakDocs` is the set of documents with a "pajak" line.
- `MemoValues` and `MemoTotal` are the column-wise sums of one memo's rows.
- `ByTotalDesc` is the required order.
- `Unshow` reads a displayed cell back as a number.

The contracts and lemmas relate every stage to its reference definition.

Two details of the code are easy to misread:

- **Memo lookup.** The lookup is built from the distinct (document, memo)
  pairs of the `JE-PRG` lines (app.py:35). The code has no rule that picks
  one memo per document. A document whose lines carry two memos is
  therefore joined twice, once under each memo.
  `Revenue.JoinedOncePerMemo` states this.
- **Tax scan.** The "pajak" scan reads the `JE-PRG` lines, not all lines
  after the footer is dropped. At app.py:32, `df` already holds only the
  prefixed lines (app.py:8). `Revenue.PajakScopeIrrelevant` proves that the
  two readings gate the same cells.

## Model

| member | source | states |
|---|---|---|
| Journal.DropTrailing | app.py:7 | The input is the result followed by exactly one dropped line, whatever that line holds. An empty input gives an empty result. |
| Journal.KeepPrefixed | app.py:8 | A line is kept exactly when it is an input line whose document number starts with `JE-PRG`. |
| Journal.KeepPrefixedCount | app.py:8 | Each `JE-PRG` line is kept as many times as it occurs. No other line is kept. |
| Journal.NonZeroLines | app.py:10-11 | A line survives exactly when it is a kept line with a non-zero amount. |
| Journal.NonZeroLinesCount | app.py:10-11 | Each non-zero line survives as many times as it occurs. The ascending sort followed by `sort_index` leaves no trace. |
| Journal.LabelInjective | app.py:21-25 | The ten required descriptions are pairwise different, so each category owns its own column. |
| Journal.RequiredComplete | app.py:21-25 | Every revenue category is in the required-column list. |
| Journal.ContainsIff | app.py:32 | The substring scan finds the text exactly when it occurs at some position of the description. |
| Journal.MentionsPajakCaseInsensitive | app.py:32 | The "pajak" test ignores letter case. Two descriptions that agree up to ASCII case get the same answer. |
| Seqs.Dedup | app.py:35 | Duplicate removal leaves no repeated pair and loses no pair. |
| Pivot.Sums | app.py:13-19 | Every pivot cell equals the reference sum of that document's amounts under that description. |
| Pivot.SumsDocs | app.py:13-19 | The pivot has a row for exactly the documents that have a surviving line. |
| Pivot.SumsSparse | app.py:13-19 | Before filling, the pivot has a cell exactly where some line has that document and description. |
| Pivot.WithRequired | app.py:26-30 | Every missing required column is added. Every missing cell becomes 0. Rows and the other cells are unchanged. |
| Pivot.PivotTable | app.py:13-30 | The filled pivot has one row per document with a line, the line descriptions plus the required ones as columns, and each cell equal to the reference sum (0 for an absent combination). |
| Pivot.SumOfAbsent | app.py:28-30 | A combination that no line carries is worth 0. |
| Pivot.SumOfNonZero | app.py:11 | Dropping zero-amount lines changes no sum. |
| Pivot.PajakDocs | app.py:32 | A document is in the tax set exactly when one of its lines mentions "pajak". |
| Pivot.TicketGate | app.py:33 | The ticket-clearance cell of every document outside the tax set becomes 0. Every other cell, every row and every column is kept. |
| Pivot.GateLooksAtPivotDocs | app.py:32-33 | Two tax sets that agree on the pivot's documents gate the same table. |
| MemoJoin.KeyPairs | app.py:35 | The lookup keys are distinct. They are exactly the (document, memo) pairs some line carries. |
| MemoJoin.Join | app.py:36 | Each joined row carries its document's pivot row. A (document, memo) pair is joined as often as it occurs among the keys, and never when the pivot lacks the document. |
| MemoJoin.JoinOnce | app.py:35-36 | With distinct keys, each pair of a pivot document is joined exactly once. |
| Summary.OutputColumnsRequired | app.py:41-45 | The nine shown columns are distinct and all required. The down-payment column is not shown. |
| Summary.Project | app.py:38-45 | Each shown column keeps its pivot value, except website-online, which adds the down payment. |
| Summary.ProjectColumns | app.py:38-45 | The shown values, column by column in output order. |
| Summary.ProjectTotal | app.py:38-48 | The shown values add up to the amount of all ten required columns. The down payment is counted once. |
| Summary.Summarize | app.py:41-48 | A row's memo is its own, or "Biru" when it is empty. Its values are the projection. Its Total is the sum of its values, which is also the sum of the ten required columns. |
| Summary.AddToGroups | app.py:49 | Adding a row changes only its own memo's group, by adding its values and its Total. |
| Summary.AddToGroupsMemos | app.py:49 | Adding a row adds its memo to the group memos, and nothing else. |
| Summary.GroupByMemo | app.py:49 | Group memos are distinct. Each memo's group holds the column-wise sums and the Total sum of that memo's rows. |
| Summary.GroupByMemoMemos | app.py:49 | There is a group for a memo exactly when some row has that memo. |
| Summary.GroupsAreSums | app.py:49 | Every group equals the reference sums of its memo's rows. |
| Summary.MemoSumsConsistent | app.py:48-49 | When each row's Total is the sum of its values, so is the sum over any memo. |
| Summary.GroupsConsistent | app.py:48-49 | After grouping, every Total is still the sum of its row's shown values. |
| Output.Insert | app.py:50 | Insertion adds exactly the one row, as a permutation. |
| Output.SortedCons | app.py:50 | A row followed by a descending sequence is descending exactly when no later Total exceeds it. |
| Output.InsertSorted | app.py:50 | Insertion into a descending sequence keeps it descending. |
| Output.SortByTotal | app.py:50 | The result is ordered by descending Total and is a permutation of the input. Distinct memos stay distinct. |
| Output.Show | app.py:51 | A cell is blank exactly when its value is 0. Otherwise it shows the value unchanged, and it always reads back as that value. |
| Output.Render | app.py:51 | Each shown cell and the Total are blank exactly when 0 and read back as their values. The memo is never blanked. |
| Output.RenderRoundTrip | app.py:51 | Blanking is lossless: a displayed row reads back as the summary row it shows. |
| Output.RenderAll | app.py:51 | Displaying keeps the row order. Each displayed row `Shows` its summary row: same memo, every category cell and the Total blank exactly when the value is 0, and reading back as that row. Distinct memos and the descending order by Total carry over. |
| Revenue.Gated | app.py:10-33 | The gated pivot is complete and carries every required column. |
| Revenue.Joined | app.py:35-36 | Every joined row carries all required columns. |
| Revenue.SummaryRows | app.py:38-48 | There is one summary row per joined row, in order. Each carries its joined row's memo, or "Biru" when that is empty, the projected values, and a Total that is both the sum of those values and the amount of the ten required columns. |
| Revenue.Summarized | app.py:6-50 | Memos are distinct. Rows are ordered by descending Total and each Total is the sum of its values. There is a row for exactly the memos present. Each row holds the sums of its memo's rows. |
| Revenue.Transform | app.py:6-53 | Memos are distinct and Totals non-increasing. Each displayed row `Shows` the corresponding summary row: every category cell and the Total blank exactly when the value is 0, and reading back as that row. |
| Revenue.TrailingRowIgnored | app.py:7 | The summary does not depend on what the last line holds. |
| Revenue.KeptDetermines | app.py:7-53 | The summary depends on the input only through the kept `JE-PRG` lines. |
| Revenue.KeptWithoutUnprefixed | app.py:7-8 | Removing a non-`JE-PRG` line that is not the last line leaves the kept lines unchanged. |
| Revenue.UnprefixedRowIgnored | app.py:8 | Removing a non-`JE-PRG` line that is not the last line leaves the summary unchanged. |
| Revenue.PivotDocuments | app.py:8-19 | A document has a pivot row exactly when one of its kept lines has a non-zero amount. |
| Revenue.PivotCells | app.py:13-33 | A pivot cell is the document's summed amount under that description. The exception is ticket clearance, which is 0 unless the document has a "pajak" line; zero-amount lines count for that test. |
| Revenue.PivotColumns | app.py:13-28 | The columns are the descriptions of the non-zero kept lines plus the required ones. |
| Revenue.JoinedOncePerMemo | app.py:35-36 | A pivot document appears once under each distinct memo value its lines carry, an empty memo included, and never under any other memo. |
| Revenue.EveryDocumentJoined | app.py:35-36 | The left join finds at least one memo for every pivot document, so no row is joined without one. |
| Revenue.PajakDocsAgree | app.py:8-32 | For a pivot document, a "pajak" line among all lines after the footer is one among the `JE-PRG` lines. |
| Revenue.PajakScopeIrrelevant | app.py:32-33 | Scanning all lines after the footer for "pajak" gates the same cells as scanning the `JE-PRG` lines. |
| RevenueExample.ExampleSummary | app.py:6-53 | Take two `JE-PRG001` lines (cash 100, credit card 50, memo "Front Desk"), one `JE-OTHER002` line and a footer. The output is exactly one row: "Front Desk" showing 100 and 50, every other cell empty, Total 150. |

## Left out

- The Streamlit page, file upload, CSV parsing, the CSV and spreadsheet downloads and the error banner (app.py:56-97): these are I/O around the function.
- Schema errors for missing input columns: a `Row` always has its four columns.
- Coercion of non-numeric amounts to 0 (app.py:30): amounts are integers throughout.
- Blank amount cells: an amount is never missing in the model. In the code, a blank "Amount (Debit)" cell reads as NaN, and NaN passes the zero filter (app.py:11). The pivot's sum skips NaN, giving 0. So a `JE-PRG` document whose amount cells are all blank, or blank and zero, still gets a pivot row and an all-blank output row for its memo. The model drops such a document (`Journal.NonZeroLines`, `Revenue.PivotDocuments`). This behaviour of app.py:11 is not modelled.
- Floating point: amounts are exact integers, as if kept in cents. A float sum's rounding is not modelled.
- Missing document numbers or COA descriptions (pandas NaN): both are always present strings. A NaN description never mentions "pajak" (`na=False`), so the tax set is unaffected.
- Journal.MentionsPajak: case folding is ASCII only. Python's `case=False` also folds non-ASCII letters.
- The intermediate sort by amount (app.py:10): only the set of surviving lines reaches the pivot, and `sort_index` restores their order.
- MemoJoin.Join: joined rows follow the order of the lookup keys, not the pivot's row order. The contract counts rows and does not order them. The order is lost anyway in the group-by and the sort.
- Summary.GroupByMemo: groups appear in the order memos are first met when the rows are read from last to first, not in pandas' sorted key order. The contract does not fix the order, and the sort by Total comes next.
- Output.SortByTotal: pandas does not fix the order of equal Totals. The insertion sort here is one admissible order. The contract allows any descending permutation.
- An input with nothing left after filtering: pandas' behaviour on an empty pivot depends on its version. The model yields an empty summary.
- A COA description equal to an input column name: a non-zero `JE-PRG` line described as "Document Number" makes `reset_index` raise (app.py:19), and one described as "Memo (Main)" makes the merge rename both memo columns so that the projection raises (app.py:36-41). The model treats such a description as an ordinary category and returns a summary.
- Memos are modelled as text. A numeric memo cell would be summed by the group-by like any other number; that case is not modelled.
