# Customer ranking report, modelled in Dafny

`src/main.py` reads a tab-separated customer list and prints one table per
sales area. Each table holds the area's best customers, at most eight of
them, ranked by score. The score is the customer's affinity for a product ×
the midpoint of their weekly budget × the midpoint of their weekly orders.
Weed affinity ranks NORTHTOWN, WESTVILLE and DOWNTOWN; coca affinity ranks
DOCKS. A single customer pool is threaded through the four areas in that
order. Every listed customer is removed from the pool, so nobody is listed
twice. Each table ends with averages, which are always divided by eight,
and a "Sector Valuability" line.

The model is functional. Customers are immutable datatypes and the pool is
a `seq<Customer>`. Each area pass is a pure function from a pool to a
cohort and a smaller pool.

| file | module | what it holds |
|---|---|---|
| `wrappers.dfy` | `Wrappers` | `Option` and `Result` |
| `text.dfy` | `Text` | `str.split`/`join` on one separator, ASCII `upper`, `replace`, string repetition, `strfield` |
| `enums.dfy` | `Enums` | `Area`, `Standard` and their `find` lookups by member name |
| `customers.dfy` | `Customers` | `MinMax`, `Customer` and `Customer.parse` |
| `scoring.dfy` | `Scoring` | the affinity axis and the sort key |
| `seqs.dfy` | `Seqs` | filtering, prefixes, `list.remove` and removing a whole cohort |
| `sorting.dfy` | `StableSort` | a stable descending sort and its characterisation |
| `aggregate.dfy` | `Aggregation` | the running totals and the printed averages and valuability |
| `ranking.dfy` | `Ranking` | one area pass: the cohort, the pool after it, and the loop as a method |
| `report.dfy` | `Report` | the four passes in order, and what the whole report guarantees |

Both ranking loops (lines 125-153 and 157-185) are modelled once, as a
pass with an `Axis` parameter. `Report.Plan` lists the passes the report
runs.

The lookups by name are exact and case-sensitive. `parse` upper-cases the
area key before the lookup. It upper-cases the standard key and replaces
its spaces with `_`.

A line's numbers are read by Python's `float()` and `int()`. Here those
become the parameters `toReal` and `toInt`. They are partial functions:
`None` is a conversion error.

### Behaviour worth knowing

- **Removal is by value.** `customers.remove(c)` removes the first
  customer that compares equal to `c` (dataclass equality). The model
  removes the first equal element (`Seqs.RemoveFirst`).
- **An unknown area or standard key is not an error.** `find` returns
  `None`, and `parse` stores it in the customer. A customer whose area is
  `None` is never listed. The standard plays no part in ranking, so an
  unknown standard changes nothing about where a customer is listed.
- **The valuability uses the undivided sums.** Line 152 multiplies the
  running sums, not the printed averages. The result is 512 × the product
  of the printed averages / 1,000,000.
- **The averages always divide by eight**, whatever the size of the cohort.
- **The order of the areas does not change any table.** Each customer has
  one area, value-equal customers share it, and the areas are distinct. So every table equals the cohort its
  area would have in the untouched pool (`Report.RunCohortIndependent`).

## Model

| member | source | states |
|---|---|---|
| `Enums.FindArea` | src/main.py:17-22 | `Area.find(key)` returns a member only when the key is that member's exact name, and `None` exactly when no member has that name; it never fails |
| `Enums.FindAreaName` | src/main.py:9-22 | looking up a member's own name gives back that member |
| `Enums.FindAreaIsExact` | src/main.py:17-22 | the lookup is case-sensitive: `"docks"` is not found, `"DOCKS"` is |
| `Enums.FindStandard` | src/main.py:31-36 | `Standard.find(key)` returns a tier only for its exact name, and `None` exactly when no tier has that name |
| `Enums.FindStandardName` | src/main.py:24-36 | looking up a tier's own name gives back that tier |
| `Text.Split` | src/main.py:74 | `line.split('\t')` gives at least one field, and no field contains the separator |
| `Text.JoinSplit` | src/main.py:74 | joining the split fields with the separator gives back the line |
| `Text.SplitJoin` | src/main.py:83 | splitting a join of separator-free fields gives back exactly those fields |
| `Text.Join` | src/main.py:83 | `'\t'.join(fields)`: the fields with one tab between neighbours. `Text.JoinSplit` and `Text.SplitJoin` make it the inverse of `Text.Split` |
| `Text.UpperChar` | src/main.py:76 | a lower-case ASCII letter becomes its capital (code point − 32); every other character is unchanged |
| `Text.Upper` | src/main.py:76-77 | `upper()` keeps the length. It turns each lower-case ASCII letter into its own capital (code point − 32) and keeps every other character in place. It leaves no lower-case letter, and does nothing to a string already in upper case |
| `Text.UpperCaseVariant` | src/main.py:76-77 | upper-casing any spelling of an upper-case name, with any of its letters in lower case, gives the name |
| `Text.ReplaceChar` | src/main.py:77 | `replace(' ', '_')` keeps the length, puts `_` exactly where there was a space, and leaves no space |
| `Text.UpperReplaceStaysUpper` | src/main.py:77 | the standard key built by `parse` has no lower-case letter |
| `Text.Repeat` | src/main.py:44 | `space * k` is empty for `k ≤ 0`. Otherwise it is `k` copies long, starts with `space` and repeats with period `len(space)`: `k` whole copies of `space` in order |
| `Text.StrField` | src/main.py:43-44 | `strfield` starts with the data and never cuts it short; its length is `len(data) + len(space) × max(length − len(data), 0)`; past the data it holds whole copies of `space` in order: the first `len(space)` characters are `space`, and each later one repeats the character `len(space)` before it |
| `Text.StrFieldWidth` | src/main.py:43-44 | with a one-character pad the field is exactly `max(length, len(data))` wide, padded only with that character, and the data alone when it is already wide enough |
| `Customers.DropFirst` | src/main.py:81 | `s[1:]` drops exactly one leading character, whatever it is; the empty string stays empty |
| `Customers.Parse` | src/main.py:72-86 | the line parses exactly when fields 1-9 exist and fields 3-9 convert. Otherwise the error names the first field that is missing or does not convert, and says which. On success each field lands in its place |
| `Customers.ShortLineFails` | src/main.py:74-82 | a line with fewer than ten tab-separated fields never parses |
| `Customers.ParseFields` | src/main.py:74-86 | for ten or more tab-free fields whose numbers convert, parsing their join gives: the name = field 0; area = `find(upper(field 1))`; standard = `find` of field 2 upper-cased with spaces as `_`; affinities = fields 3-5; budget = fields 6-7, each less its first character; orders = fields 8-9; `additional` = fields 10.. joined by tab, empty when there are exactly ten |
| `Customers.UnknownAreaIsKept` | src/main.py:76 | a line whose area key names no area still parses, with area `None` |
| `Customers.AreaKey` | src/main.py:76 | `fields[1].upper()`, the key handed to `Area.find`; `Customers.AreaKeyFinds` states what it finds |
| `Customers.AreaKeyFinds` | src/main.py:76 | for every region `raw` and area `a`: `Area.find(raw.upper())` is `a` exactly when `raw.upper()` is `a`'s name |
| `Customers.AreaKeyIgnoresCase` | src/main.py:76 | any spelling of an area's name, with any of its letters in lower case, finds that area |
| `Customers.StandardKey` | src/main.py:77 | `fields[2].upper().replace(' ', '_')`, the key handed to `Standard.find`; `Customers.StandardKeyFinds` states what it finds |
| `Customers.StandardKeyFinds` | src/main.py:77 | for every tier `raw` and standard `s`: the lookup finds `s` exactly when the upper-cased tier, with spaces as `_`, is `s`'s name |
| `Customers.StandardKeyIgnoresCase` | src/main.py:77 | any spelling of a tier's name, with any of its letters in lower case and a space for each `_`, finds that tier |
| `Scoring.Affinity` | src/main.py:126-145 | the affinity a pass ranks and sums by, chosen by the axis. The weed loop reads `weed_affinity` (lines 127, 145) and the coca loop reads `coca_affinity` (lines 159, 177) |
| `Scoring.Score` | src/main.py:126-132 | the sort key: the axis's affinity × the budget midpoint × the order midpoint. `Scoring.ScoreFollowsAffinity` relates it to the affinity |
| `Scoring.Mid` | src/main.py:128 | `(min + max) / 2` lies between the bounds and is exactly half their sum |
| `Scoring.ScoreFollowsAffinity` | src/main.py:126-132 | for equal, positive budget and order ranges, the score orders customers exactly as the affinity does: higher is higher, equal ties |
| `Seqs.Filter` | src/main.py:141 | the customers that pass the area test, no more of them than the pool holds |
| `Seqs.FilterMultiset` | src/main.py:141 | filtering keeps every matching customer as many times as the pool holds it, and no other |
| `Seqs.IndexOf` | src/main.py:146 | the position of the first element equal to the value |
| `Seqs.RemoveFirst` | src/main.py:146 | `list.remove` on a pool holding the value makes the pool one shorter |
| `Seqs.RemoveFirstAt` | src/main.py:146 | `list.remove(x)` cuts out the first occurrence of `x` and keeps everything else in order |
| `Seqs.RemoveFirstAtIndexOf` | src/main.py:146 | the same, at the position `IndexOf` finds |
| `Seqs.RemoveFirstMultiset` | src/main.py:146 | `list.remove(x)` takes away exactly one `x` |
| `Seqs.RemoveFirstSubsequence` | src/main.py:146 | what `list.remove` leaves is a subsequence of the pool |
| `Seqs.RemoveEach` | src/main.py:139-147 | removing each kept customer in turn shortens the pool by the cohort size and takes away exactly the cohort's multiset |
| `Seqs.RemoveEachSnoc` | src/main.py:146 | removing one more kept customer is one more `list.remove` on the pool so far, and that customer is still in it |
| `Seqs.RemoveEachSubsequence` | src/main.py:146 | the pool after removing the whole cohort keeps the rest in their original relative order |
| `Seqs.FilterRemoveEachOther` | src/main.py:146 | removing customers who fail a test leaves the customers who pass it untouched, in order |
| `StableSort.SortDesc` | src/main.py:126-132 | the sorted list is as long as the pool |
| `StableSort.SortDescMultiset` | src/main.py:126-132 | `sorted` returns a permutation of the pool |
| `StableSort.SortDescSorted` | src/main.py:126-132 | with `reverse=1` the keys never increase |
| `StableSort.SortDescStable` | src/main.py:126-132 | customers with equal keys keep their pool order (the sort is stable) |
| `StableSort.SortedUnique` | src/main.py:126-132 | two descending orders with the same customers per key, in the same order, are equal |
| `StableSort.SortDescCharacterized` | src/main.py:126-132 | a list is the result of the sort exactly when it is descending and keeps each key's customers in pool order; both directions |
| `StableSort.FilterSortDesc` | src/main.py:126-141 | keeping one area's customers of the sorted pool is the same as sorting that area's customers |
| `StableSort.InsertSorted` | src/main.py:126-132 | inserting into a descending list keeps it descending |
| `StableSort.TakeSorted` | src/main.py:139-147 | a prefix of a descending list is descending |
| `StableSort.TakeBehind` | src/main.py:139-147 | a customer that a descending list holds beyond its first `n` entries scores at most as much as each of those `n` |
| `Aggregation.Aggregate` | src/main.py:149-152 | each printed average × 8 is its sum, and the valuability × 1,000,000 is the product of the three undivided sums |
| `Aggregation.ValuabilityOfAverages` | src/main.py:149-152 | the valuability is 512 × the product of the three printed averages / 1,000,000 |
| `Aggregation.ValuabilityExample` | src/main.py:149-152 | sums 80, 4000 and 6.4 print averages 10, 500 and 0.8 and a valuability of 2.048, which is 512 times the product of the averages / 1,000,000 (0.004) |
| `Aggregation.TotalsOf` | src/main.py:143-145 | the three running sums once the loop has added every cohort member. `Aggregation.TotalsOfSnoc`, `Aggregation.TotalsOfAppend` and `Aggregation.TotalsOfPermutation` state how they grow |
| `Aggregation.TotalsOfSnoc` | src/main.py:143-145 | each listed customer adds its order midpoint, budget midpoint and affinity to the sums |
| `Aggregation.TotalsOfAppend` | src/main.py:143-145 | the sums over two runs of customers add up |
| `Aggregation.TotalsOfPermutation` | src/main.py:143-145 | the sums do not depend on the order of the customers |
| `Aggregation.FixedMean` | src/main.py:149-151 | one printed average, sum / 8, over `n` members is the true mean × (n / 8): the true mean for a full cohort, and strictly below it for a short cohort with a positive sum |
| `Aggregation.ScaledAverage` | src/main.py:149-151 | the same, for each of the three printed averages: orders, budget and affinity |
| `Aggregation.FixedDivisor` | src/main.py:149-151 | the same for all three averages, for the sums of an actual cohort of 1 to 8 customers |
| `Ranking.Ranked` | src/main.py:126-132 | `sorted(customers, key=score, reverse=1)`: the pool in stable descending score order. `StableSort.SortDescCharacterized` states what that order is |
| `Ranking.AreaRanked` | src/main.py:126-141 | the area's customers, in the order the loop meets them, are the area's customers sorted on their own |
| `Ranking.Cohort` | src/main.py:139-147 | the cohort holds `min(8, #area customers in the pool)` customers, all of the area, each taken from the pool |
| `Ranking.CohortSorted` | src/main.py:126-147 | the cohort's scores never increase from row to row |
| `Ranking.CohortOfArea` | src/main.py:126-147 | the cohort is the first `min(8, …)` of the area's customers, in stable descending order |
| `Ranking.Select` | src/main.py:139-147 | one pass lists the cohort; the pool shrinks by the cohort size and loses exactly the cohort |
| `Ranking.SelectKeepsOrder` | src/main.py:146 | the pool after a pass keeps its remaining customers in their original relative order |
| `Ranking.SelectKeepsOthers` | src/main.py:141-146 | a pass leaves every customer of another area, or of none, in place and in order |
| `Ranking.LeftBehind` | src/main.py:139-147 | a customer of the area still in the pool after a pass has more copies in the area's customers than the cohort took |
| `Ranking.SelectTakesTop` | src/main.py:139-147 | if a customer of the area is left in the pool, the cohort is full and every row scores at least as much as that customer |
| `Ranking.ScanSkip` | src/main.py:140-141 | a skipped entry — cohort full or another area — changes nothing |
| `Ranking.ScanKeep` | src/main.py:142-147 | a kept entry is still in the pool; it is added to the cohort and the sums and removed from the pool |
| `Ranking.ScanDone` | src/main.py:139-147 | after the whole sorted list: the kept entries are the cohort, the pool is the one a pass leaves, and the sums are the cohort's |
| `Ranking.SelectArea` | src/main.py:126-147 | the loop as written (sort, skip, keep, add, `remove`) returns exactly that pass's cohort and shrunken pool, and the cohort's sums |
| `Report.Run` | src/main.py:123-185 | the report prints one table per pass |
| `Report.RunFits` | src/main.py:123-185 | table `i` is for pass `i`'s area and affinity, has at most 8 rows, and lists only customers of that area |
| `Report.RunConserves` | src/main.py:123-185 | every customer is listed in exactly one table or left in the pool, counted with multiplicity; the rows plus what is left make up the pool |
| `Report.SelectKeepsArea` | src/main.py:141-146 | a pass over another area leaves that area's customers, or the ones with no area, in place |
| `Report.RunKeepsArea` | src/main.py:123-185 | customers of an area no pass lists all remain, in their original order |
| `Report.PlanKeepsUnlisted` | src/main.py:123-155 | SUBURBIA, UPTOWN and unrecognised-area customers are never listed and all remain, in order |
| `Report.CohortAfterOtherPass` | src/main.py:139-147 | a pass over one area does not change the cohort of another |
| `Report.RunCohortIndependent` | src/main.py:123-178 | with distinct areas each table is its area's cohort of the untouched pool, whatever the order of the passes |
| `Report.LeftAfterFirst` | src/main.py:146 | a customer left at the end was already left by the first pass |
| `Report.RunTakesTop` | src/main.py:139-147 | a customer of a listed area left in the pool means that area's table is full, and every row outscores or ties them on that table's affinity |
| `Report.PlanReports` | src/main.py:123-178 | the report prints four tables: NORTHTOWN, WESTVILLE and DOWNTOWN ranked by weed, then DOCKS by coca. Each is that area's cohort of the full customer list |
| `Report.PlanWeedTablesHaveNoDocks` | src/main.py:123-147 | the first three tables are weed tables and list no DOCKS customer |
| `Report.RankAll` | src/main.py:123-185 | the two loops as `main` runs them: the tables and the final pool are exactly those of `Run`, and each summary is the table's `Aggregate` |

## Left out

- Reading `./data/customers`, the per-line `strip()` (lines 107-108) and `clear_terminal` (lines 102-103): file and shell I/O. `parse` is modelled on an already-stripped line.
- The commented-out command loop (lines 111-121): dead code.
- `print`, `Customer.__repr__` and `get_table_headers` (lines 58-70, 88-100, 133-134, 142, 148-153): their text depends on Python's `str()` of enums and floats. `strfield` is modelled on strings; `str(data)` of a non-string is not.
- Python's `float()` and `int()` string grammars: they are the `toReal`/`toInt` parameters of `Customers.Parse`.
- IEEE-754 rounding, infinities and NaN: scores, sums and averages use exact `real` arithmetic.
- Scoring.Mid: always returns the exact midpoint. In Python, `(min + max) / 2` (lines 128, 130, 143-144, 160, 162 and 175-176) divides two ints and raises `OverflowError` when the quotient is beyond float range (about 1.8 × 10^308). That error would abort the report. Budgets and order counts that large are not modelled.
- `MinMax` fields are annotated `float` but hold the `int`s that `parse` stores; the model keeps `int`.
- The enum integer values (lines 10-15, 25-29): nothing in the core reads them.
- Timsort internals: `sorted(..., reverse=1)` is replaced by a stable insertion sort. `StableSort.SortDescCharacterized` shows it is the only order that is descending and keeps equal keys in pool order. That is the order Python guarantees for a stable reverse sort.
- Unicode case mapping: `Text.Upper` maps only ASCII `a`-`z`. Characters that Python upper-cases differently, or into several characters, are left as they are.
- The two `continue` guards (lines 140-141 and 172-173) are one combined test in `Ranking.SelectArea`. They skip the same entries.
- Seqs.RemoveFirst: requires the value to be in the pool, because `list.remove` raises `ValueError` otherwise; `Ranking.ScanKeep` proves this always holds. Its own contract states only the length; `Seqs.RemoveFirstAt` and `Seqs.RemoveFirstMultiset` state which element goes. Keeping this contract short keeps every proof that unfolds the function small.
- StableSort.SortDesc: its own contract states only the length. `StableSort.SortDescMultiset`, `StableSort.SortDescSorted`, `StableSort.SortDescStable` and `StableSort.SortDescCharacterized` state the rest, for the same reason.
- Report.Run: its own contract states only the number of tables. `Report.RunFits`, `Report.RunConserves`, `Report.RunKeepsArea`, `Report.RunCohortIndependent` and `Report.RunTakesTop` state what the tables hold.
- Meth affinity: it is parsed and kept in `Customer`, and `Scoring.Axis` has it, but no report pass ranks by it.
