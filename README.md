# LC Companywise: client state and derivations

LC Companywise is a single-page React client. It lists interview questions per company and
per time period. A user can mark questions solved and see their progress. This project models
its client-side core in Dafny:

- **The solved ledger.** It maps company → question id → flag. It is restored from the
  `lc_solved` entry of the browser's key-value store, and a missing or corrupt entry gives the
  empty ledger. `toggleSolved` flips one entry under the selected company and writes the whole
  ledger back. `solvedCount` counts the loaded rows marked solved under the selected company
  (`Ledger`, and the `App` class in `App`).
- **The dataset load.** With a company selected, the load effect raises `loading` and requests
  `/data/<company>/<period>.csv`. Every outcome lowers `loading`. A parse success installs the
  rows. A not-found response, a failed request and a parser error all install the empty list
  (`App`).
- **The view pipeline.** `processedQuestions` keeps the rows whose lower-cased title contains
  the lower-cased search term and whose difficulty passes the difficulty filter. It then sorts
  them stably by frequency (descending), title (ascending) or difficulty rank (ascending)
  (`Questions`). The sort is modelled as a stable insertion sort over a total preorder
  (`StableSort`). `AnyStableSortIsProcess` shows that any stable sort gives the same result.
- **The progress page.** `solvedStats` walks the ledger with nested loops and produces three
  things: the number of distinct solved ids, per-company counts, and per-difficulty counts
  read from the metadata cache. The page also derives the top-ten company chart, the
  difficulty chart, "Companies Practiced" and "Focus Area" (`Profile`).
- **The company list.** `filteredCompanies` is an order-preserving, case-insensitive
  substring filter (`Sidebar`).

Shared pieces:

- `Seqs` holds `Array.prototype.filter` as a recursive `Filter`.
- `Text` holds ASCII lower-casing, substring containment and the lexicographic order that
  stands in for `localeCompare`.

The state that React keeps in `useState` hooks becomes the fields of the class `App.App`. The
setters become methods with `modifies` clauses. The network, the CSV parser and the store are
inputs: the `FetchOutcome` and `StoredBlob` datatypes, plus the field `persisted`. The `useMemo`
expressions become functions. The loops of `solvedStats` are `while` loops proved against
functions on sets and maps.

## Model

| member | source | states |
|---|---|---|
| Ledger.IsSolved | src/App.jsx:84 | The lookup of `id` in the company's sub-map, an absent sub-map reading as `{}`, taken as a flag: true only when the company has a sub-map holding `id` mapped to true. |
| Ledger.Toggled | src/App.jsx:80-86 | The ledger `toggleSolved` builds. The entry for (selected company, `id`) is the negation of its old solved-state, and the company keys gain the selected company. |
| Ledger.Restore | src/App.jsx:27-33 | A stored ledger is restored as it is. A missing entry, unparseable text or a falsy parse gives the empty ledger. |
| Ledger.Save | src/App.jsx:87 | What is written back restores to exactly the whole ledger, not a delta. |
| Ledger.ToggleFlips | src/App.jsx:78-86 | The toggled entry becomes the negation of its old solved-state, an absent entry reading as unsolved. So the first toggle of an absent entry marks it solved. |
| Ledger.ToggleFrame | src/App.jsx:80-85 | Other companies keep their sub-maps. The selected company's sub-map is created if absent and gains at most the key `id`. Every other (company, id) keeps its solved-state. |
| Ledger.ToggleTwice | src/App.jsx:78-86 | Two toggles give back the original solved-state of every entry. |
| Ledger.SolvedCount | src/App.jsx:111-114 | The count is at most the number of loaded rows, and it is 0 when the company has no sub-map. |
| Ledger.SolvedCountExtremes | src/App.jsx:111-114 | The count is 0 iff no loaded row's id is marked solved under the company. It equals the number of loaded rows iff every row's id is. |
| Ledger.ToggleMovesCount | src/App.jsx:111-114 | A toggle moves the company's count by the number of loaded rows with that id: up when the id becomes solved, down when it becomes unsolved. |
| Ledger.ToggleKeepsOtherCounts | src/App.jsx:111-114 | A toggle leaves every other company's count unchanged. |
| App.App.constructor | src/App.jsx:17-33 | The initial state: no companies, no selection, period `thirty-days`, empty company search, no rows, not loading, empty question search, filter `All`, sort by frequency. The ledger is restored from the stored entry, and the store agrees with it. |
| App.App.LoadEffect | src/App.jsx:45-51 | With no company selected, it makes no request and leaves `loading` alone. Otherwise it requests `/data/<company>/<period>.csv` and sets `loading`. |
| App.App.LoadSettled | src/App.jsx:52-75 | Every outcome clears `loading`. The rows become the parsed rows on success and empty on every failure. |
| App.LoadedRows | src/App.jsx:56-75 | A parse success yields its rows. A not-found response, a fetch failure and a parse error yield `[]`. |
| App.App.SelectCompany | src/App.jsx:121-124 | Selecting a different non-empty company requests its file for the current period and sets `loading`. Re-selecting the same company requests nothing. |
| App.App.SelectPeriod | src/App.jsx:157 | Selecting a different period with a company selected requests the file for that period. Otherwise it requests nothing. |
| App.App.CompaniesLoaded | src/App.jsx:35-43 | A list that arrives is stored, and a non-empty list selects its first company. A file is requested iff a non-empty list arrives whose first company is non-empty and differs from the old selection. In every other case, including a failed request, nothing is requested, `loading` is unchanged, and a failed request leaves the list and the selection as they were. |
| App.App.ToggleSolved | src/App.jsx:78-90 | The ledger becomes the toggled ledger for the selected company. The store holds the serialised new ledger, and restoring it gives back the ledger in memory. |
| App.App.SolvedCount | src/App.jsx:111-114 | The progress count never exceeds the number of loaded rows. |
| App.App.FilteredCompanies | src/components/Sidebar.jsx:5-7 | The sidebar lists a company iff it is loaded and its name contains the company search, ignoring case. |
| App.App.ProcessedQuestions | src/App.jsx:92-109 | The table shows a row exactly when it is loaded and matches both controls. It never shows more rows than are loaded. |
| App.DataPath | src/App.jsx:49-51 | The requested path is `/data/`, then the company, then `/`, then the period, then `.csv`. Each piece's position is stated. |
| App.DataPathInjective | src/App.jsx:49-51 | Distinct (company, period) selections request distinct files, provided company names hold no `/`. |
| Questions.Matches | src/App.jsx:93-96 | The filter callback: the row has a title, its lower-cased title contains the lower-cased term, and the filter is `All` or equals its difficulty. |
| Questions.Freq | src/App.jsx:101-102 | The parsed frequency, or 0 when it does not parse. |
| Questions.Rank | src/App.jsx:106 | `diffMap`: Easy 1, Medium 2, Hard 3, and 0 for any other difficulty. |
| Questions.Before | src/App.jsx:99-108 | The comparator read as "a may come before b": higher or equal frequency, lexicographically smaller or equal title, or lower or equal rank. |
| Questions.Process | src/App.jsx:92-109 | `processedQuestions`: the filtered rows, stably sorted by the selected key. Its multiset is that of the filtered rows. |
| Questions.OrderIsTotalPreorder | src/App.jsx:99-108 | Each of the three comparators is total and transitive, so the sort is well defined. |
| Questions.ProcessKeepsExactlyMatches | src/App.jsx:92-109 | The view holds every occurrence of each matching row and no other row. It is a permutation of the filtered rows. |
| Questions.ProcessShowsExactlyMatches | src/App.jsx:93-97 | A row is shown iff it is loaded, its lower-cased title contains the lower-cased term, and the filter is `All` or equals its difficulty. |
| Questions.UntitledRowsExcluded | src/App.jsx:94 | A row without a title is never shown. |
| Questions.OtherDifficultyExcluded | src/App.jsx:95 | With a specific difficulty selected, the filter callback rejects a row of another difficulty, and that row is never in the view. |
| Questions.ProcessOrdered | src/App.jsx:99-108 | Every pair of positions in the view is ordered by the selected key. |
| Questions.FrequencyDescending | src/App.jsx:100-104 | Frequency is non-increasing along the view, and an unparseable frequency counts as 0. |
| Questions.TitleAscending | src/App.jsx:105 | Titles are non-decreasing along the view. |
| Questions.DifficultyAscending | src/App.jsx:106-107 | Difficulty rank is non-decreasing along the view, with Easy 1 < Medium 2 < Hard 3. |
| Questions.ProcessStable | src/App.jsx:99 | Rows that tie under the key (for frequency: equal frequency) keep their relative input order. |
| Questions.AnyStableSortIsProcess | src/App.jsx:99-108 | Any sorted, stable reordering of the filtered rows is the view, so the choice of stable algorithm does not matter. |
| Questions.ProcessIdempotent | src/App.jsx:92-109 | Running the pipeline again on its own output with the same controls changes nothing. |
| App.NotFoundScenario | src/App.jsx:35-75 | A run: the company list first fails, which changes nothing. Then it arrives, the request for `/data/AcmeCorp/thirty-days.csv` is raised, and that file is not found. The rows end empty, `loading` ends false, and the ledger and its count are unchanged. The same first company arriving again requests nothing. |
| Questions.TwoSumExample | src/App.jsx:93-97 | The search "two sum" with filter Easy keeps the Easy "Two Sum" row and drops the Medium "Two Sum II" row. |
| Seqs.Filter | src/App.jsx:93 | The filter result is no longer than its input, and holds exactly the input elements that pass the test. |
| Seqs.FilterSubsequence | src/components/Sidebar.jsx:5 | The filter result is a subsequence of its input, in the input's order. |
| Seqs.FilterCount | src/App.jsx:93-97 | Each passing element keeps its multiplicity, and failing elements vanish. |
| Seqs.FilterAppend | src/App.jsx:93 | Filtering distributes over concatenation. |
| Seqs.FilterKeepsAll | src/App.jsx:93 | When every element passes, the filter returns its input. |
| Seqs.FilterIdempotent | src/components/Sidebar.jsx:5-7 | Filtering twice with the same test equals filtering once. |
| Seqs.FilterEmptyIff | src/components/Sidebar.jsx:38 | The result is empty iff no element passes. |
| Seqs.FilterFullIff | src/App.jsx:113 | The result keeps the full length iff every element passes. |
| Seqs.FilterCongruent | src/App.jsx:113 | Tests that agree on the input give the same result. |
| Text.Lower | src/App.jsx:94 | Lower-casing keeps the length, maps each character through `LowerChar` and leaves no upper-case ASCII letter. |
| Text.LowerIdempotent | src/components/Sidebar.jsx:6 | Lower-casing twice equals lower-casing once. |
| Text.ContainsEmpty | src/components/Sidebar.jsx:6 | Every string contains the empty string. |
| Text.ContainsIffOccurs | src/components/Sidebar.jsx:6 | `includes` holds iff the needle occurs at some position of the haystack. |
| Text.LexLeTotal | src/App.jsx:105 | Any two titles are comparable. |
| Text.LexLeTrans | src/App.jsx:105 | The title order is transitive. |
| Text.LexLeAntisymmetric | src/App.jsx:105 | Titles that compare both ways are equal. |
| StableSort.SortPermutes | src/App.jsx:99 | Sorting gives a permutation of its input: same multiset, same length. |
| StableSort.InsertPermutes | src/App.jsx:99 | Inserting adds exactly one occurrence of the element. |
| StableSort.SortSorted | src/App.jsx:99-108 | Sorting with a total preorder gives adjacent-wise ordered output. |
| StableSort.InsertSorted | src/App.jsx:99-108 | Inserting into an ordered sequence keeps it ordered. |
| StableSort.InsertHead | src/App.jsx:99-108 | Insertion adds one element, and the new head is either the inserted element or the old head. |
| StableSort.SortedPairs | src/App.jsx:99-108 | Adjacent-wise order of a sequence extends to every pair of positions. |
| StableSort.SortStable | src/App.jsx:99 | Sorting keeps each tie class in its input order. |
| StableSort.InsertTies | src/App.jsx:99 | Insertion places the new element, when it ties, ahead of the old tie class: an earlier input element stays earlier. |
| StableSort.TiesCons | src/App.jsx:99 | The tie class of a cons is the head, if it ties, followed by the tie class of the tail. |
| StableSort.TiesMember | src/App.jsx:99 | Every member of a tie class is an element of the sequence that ties with the class's key. |
| StableSort.TiesOfHead | src/App.jsx:99 | The head of a sequence heads its own tie class. |
| StableSort.SortedUnique | src/App.jsx:99-108 | Two ordered sequences with the same tie classes are equal. |
| StableSort.SortOfSorted | src/App.jsx:99-108 | Sorting an ordered sequence returns it. |
| StableSort.SortIdempotent | src/App.jsx:99-108 | Sorting twice equals sorting once. |
| Profile.VisitCompany | src/components/ProfilePage.jsx:16-23 | The inner loop adds exactly the company's true ids to the id set. It raises the company's count by their number, starting from its old count or 0, and creates the key only when there is a true entry. |
| Profile.CountDifficulties | src/components/ProfilePage.jsx:29-36 | The difficulty loop yields, for Easy, Medium and Hard, the number of ids whose cached difficulty is that key. |
| Profile.SolvedStats | src/components/ProfilePage.jsx:7-39 | `total` is the number of distinct ids true under any company. `companyCounts` maps each company with a true entry to its number of true entries. `difficultyCounts` tallies the solved ids by cached difficulty. |
| Profile.AllSolvedIff | src/components/ProfilePage.jsx:13-26 | An id counts in `total` iff some company marks it true, so an id solved under two companies counts once. |
| Profile.CompanyCountsIff | src/components/ProfilePage.jsx:15-24 | A company has a count iff it marks some id true, and the count is its number of true entries, always positive. |
| Profile.CompaniesPracticed | src/components/ProfilePage.jsx:101 | "Companies Practiced": the number of keys of `companyCounts`. |
| Profile.CompaniesPracticedCount | src/components/ProfilePage.jsx:101 | "Companies Practiced" equals the number of companies with at least one solved id. |
| Profile.CountsEqualTotalIff | src/components/ProfilePage.jsx:15-26 | The per-company counts sum to exactly `total` iff no id is marked true under two different companies. |
| Profile.CountsCoverTotal | src/components/ProfilePage.jsx:17-26 | The per-company counts sum to at least `total`. |
| Profile.SumValuesRemove | src/components/ProfilePage.jsx:21 | The sum of the counts may be taken starting from any company. |
| Profile.SameSolvedStateSameStats | src/components/ProfilePage.jsx:17 | Ledgers that agree on every solved-state give the same `total` and `companyCounts`. So entries set to false count for nothing. |
| Profile.ToggleTwiceKeepsStats | src/components/ProfilePage.jsx:15-24 | Marking a question solved and then unsolved again leaves `total` and `companyCounts` as they were. |
| Profile.DifficultyTallyBounded | src/components/ProfilePage.jsx:9-36 | `difficultyCounts` has exactly the keys Easy, Medium and Hard. Its three counts sum to at most the number of solved ids. |
| Profile.WithDifficultyDisjoint | src/components/ProfilePage.jsx:31-33 | No id is counted under two difficulties. |
| Profile.SharedIdExample | src/components/ProfilePage.jsx:7-39 | Take `q1` solved under two companies and cached as Medium. Then `total` is 1, each company counts 1, and only Medium counts 1. |
| Profile.CompanyData | src/components/ProfilePage.jsx:41-44 | `companyData`: the listing stably sorted by count, largest first, cut to ten. It has at most ten entries and no more than the listing. |
| Profile.CompanyDataTopTen | src/components/ProfilePage.jsx:41-44 | The chart has min(10, n) entries, a sub-multiset of the listing, by non-increasing count. No entry left out has a larger count than one kept. |
| Profile.CompanyDataFromCounts | src/components/ProfilePage.jsx:41-42 | Every chart entry is a company from `companyCounts` with its positive count. |
| Profile.FocusArea | src/components/ProfilePage.jsx:112 | "Focus Area": the first chart name, or `'None'` for an empty chart. |
| Profile.FocusAreaIsTop | src/components/ProfilePage.jsx:112 | "Focus Area" is `'None'` for an empty chart, and otherwise a company with the largest count. |
| Profile.DifficultyData | src/components/ProfilePage.jsx:46-50 | `difficultyData`: the Easy, Medium and Hard slices with zero slices dropped. It has at most three slices, all with positive values. |
| Profile.DifficultyDataShape | src/components/ProfilePage.jsx:46-50 | The chart keeps the order Easy, Medium, Hard. It has a slice for a difficulty iff that count is positive, and the slice shows that count. |
| Sidebar.FilteredCompanies | src/components/Sidebar.jsx:5-7 | `filteredCompanies`: a company is kept iff it is in the list and its lower-cased name contains the lower-cased search, so the filter is both sound and complete. The result is no longer than the list. |
| Sidebar.ShowsNoCompanies | src/components/Sidebar.jsx:38 | "No companies found" is shown when the filtered list has length 0. |
| Sidebar.FilteredKeepsOrder | src/components/Sidebar.jsx:5 | The listed companies are a subsequence of the full list, and each keeps its multiplicity. |
| Sidebar.EmptySearchListsAll | src/components/Sidebar.jsx:5-7 | An empty search lists every company. |
| Sidebar.SearchCaseIgnored | src/components/Sidebar.jsx:6 | Lower-casing the search first changes nothing. |
| Sidebar.FilterTwice | src/components/Sidebar.jsx:5-7 | Filtering the filtered list again with the same search changes nothing. |
| Sidebar.NoCompaniesIff | src/components/Sidebar.jsx:38 | "No companies found" shows iff no company name matches the search. |

## Left out

- The network, the CSV parser, storage and React are not modelled. `fetch`, `Papa.parse`,
  `localStorage`, the hooks, rendering and `window.scrollTo` become the inputs `FetchOutcome`
  and `StoredBlob` and the field `App.App.persisted`. The effect runs as an explicit method
  call, not as a React re-render.
- Stale responses: the load effect has no generation check, so every response is applied when
  it arrives, including one to an older request; `App.App.LoadSettled` applies any outcome.
- Period fallback: the code has no period-availability fallback; it only starts from
  `thirty-days` (src/App.jsx:20).
- Metadata cache: `solvedMeta` is only read. Filling it is not in the code, so the cache is an
  input of `Profile.SolvedStats`. A cache that is not passed at all is the empty map.
- Questions.Question: frequency is already parsed. `parseFloat` is not modelled, an
  unparseable value is `None`, and `Questions.Freq` reads `None` as 0. Rows with no `ID` or
  no `Difficulty` field are not modelled.
- Questions.TitleAscending: `localeCompare` is replaced by plain lexicographic order on
  code points, because locale collation is not available.
- Text.Lower: only ASCII letters are lower-cased. Unicode case mapping is not available.
- Questions.Rank, Questions.DifficultyAscending: a difficulty outside Easy/Medium/Hard makes the source
  comparator return NaN, and the engine's order is then implementation-defined. The model
  gives such a row rank 0.
- Profile.CompanyDataTopTen: `Object.entries` order is not modelled. The listing of
  `companyCounts` is an input, related to the map by `Profile.Enumerates`.
- JavaScript object-key quirks are not modelled: keys such as `constructor` or `__proto__`
  that hit `Object.prototype` in `companyCounts`, `difficultyCounts` or `solvedState`.
- Error paths that leave the modelled state alone are not modelled: the `console.error`
  logging (src/App.jsx:42, 65, 72); a `companies.json` payload that parses but is not an
  array, such as `null`, which is stored and then makes `data.length` throw (src/App.jsx:39-40);
  and a `localStorage.setItem` that throws inside the updater (src/App.jsx:87).
- Ledger.StoredBlob: an entry that parses to a truthy non-object (a number, a string) is not
  modelled. `Json` always holds a well-formed ledger.
- The company-search, question-search, difficulty and sort setters only assign a field, so
  there is no method for them. There is one `App.App.sortBy` field with the three options of the sort menu.
- Chart colours, `renderCustomizedLabel` (trigonometry), src/components/Stats.jsx
  (floating-point percentage), src/components/QuestionTable.jsx (rendering and frequency bands)
  and generate_index.js (a directory scan and file write) are not part of this model.
