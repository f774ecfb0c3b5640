/**
 * The question-list view of App.jsx: the CSV rows of one company and period, filtered by
 * the search box and the difficulty select, then sorted by the selected key.
 */
module Questions {
  import opened Options
  import Text
  import Seqs
  import StableSort

  /**
   * One parsed CSV row. `title` is `None` when the row has no `Title` cell; `frequency` is
   * the already-parsed `Frequency %` cell, `None` when it does not parse (`parseFloat` gives NaN).
   * An empty `Difficulty` cell is the empty string.
   */
  datatype Question = Question(id: string, title: Option<string>, difficulty: string, frequency: Option<real>)

  /** The values of the sort select. */
  datatype SortKey = ByFrequency | ByTitle | ByDifficulty

  const AllDifficulties := "All"

  /** `parseFloat(q['Frequency %']) || 0`. */
  function Freq(q: Question): real {
    q.frequency.GetOr(0.0)
  }

  /** `{ 'Easy': 1, 'Medium': 2, 'Hard': 3 }`; any other difficulty gets 0. */
  function Rank(difficulty: string): int {
    if difficulty == "Easy" then 1
    else if difficulty == "Medium" then 2
    else if difficulty == "Hard" then 3
    else 0
  }

  function TitleText(q: Question): string {
    q.title.GetOr("")
  }

  /** The filter callback: the row has a title containing the search term, ignoring case, and the difficulty passes. */
  predicate Matches(q: Question, term: string, difficultyFilter: string) {
    && (difficultyFilter == AllDifficulties || q.difficulty == difficultyFilter)
    && q.title.Some?
    && Text.Contains(Text.Lower(q.title.value), Text.Lower(term))
  }

  function MatchFn(term: string, difficultyFilter: string): Question -> bool {
    q => Matches(q, term, difficultyFilter)
  }

  /** `questions.filter(...)`. */
  function FilterRows(qs: seq<Question>, term: string, difficultyFilter: string): seq<Question> {
    Seqs.Filter(qs, MatchFn(term, difficultyFilter))
  }

  /** The sort comparator read as "a need not come after b". */
  predicate Before(key: SortKey, a: Question, b: Question) {
    match key
    case ByFrequency => Freq(a) >= Freq(b)
    case ByTitle => Text.LexLe(TitleText(a), TitleText(b))
    case ByDifficulty => Rank(a.difficulty) <= Rank(b.difficulty)
  }

  function Order(key: SortKey): (Question, Question) -> bool {
    (a, b) => Before(key, a, b)
  }

  /** Every sort key is a consistent comparator. */
  lemma OrderIsTotalPreorder(key: SortKey)
    ensures StableSort.TotalPreorder(Order(key))
  {
    if key == ByTitle {
      forall a, b ensures Order(key)(a, b) || Order(key)(b, a) {
        Text.LexLeTotal(TitleText(a), TitleText(b));
      }
      forall a, b, c | Order(key)(a, b) && Order(key)(b, c) ensures Order(key)(a, c) {
        Text.LexLeTrans(TitleText(a), TitleText(b), TitleText(c));
      }
    }
  }

  /** `processedQuestions`: filter, then stable sort. */
  function Process(qs: seq<Question>, term: string, difficultyFilter: string, key: SortKey): (view: seq<Question>)
    ensures multiset(view) == multiset(FilterRows(qs, term, difficultyFilter))
  {
    StableSort.SortPermutes(Order(key), FilterRows(qs, term, difficultyFilter));
    StableSort.Sort(Order(key), FilterRows(qs, term, difficultyFilter))
  }

  /** The view holds every occurrence of each matching row and nothing else. */
  lemma ProcessKeepsExactlyMatches(qs: seq<Question>, term: string, difficultyFilter: string, key: SortKey, q: Question)
    ensures multiset(Process(qs, term, difficultyFilter, key))[q]
         == if Matches(q, term, difficultyFilter) then multiset(qs)[q] else 0
  {
    StableSort.SortPermutes(Order(key), FilterRows(qs, term, difficultyFilter));
    Seqs.FilterCount(qs, MatchFn(term, difficultyFilter), q);
  }

  /** The view shows a row exactly when the row is loaded and matches both controls. */
  lemma ProcessShowsExactlyMatches(qs: seq<Question>, term: string, difficultyFilter: string, key: SortKey)
    ensures forall q :: q in Process(qs, term, difficultyFilter, key) <==> q in qs && Matches(q, term, difficultyFilter)
    ensures |Process(qs, term, difficultyFilter, key)| <= |qs|
  {
    StableSort.SortPermutes(Order(key), FilterRows(qs, term, difficultyFilter));
    forall q ensures q in Process(qs, term, difficultyFilter, key) <==> q in qs && Matches(q, term, difficultyFilter) {
      ProcessKeepsExactlyMatches(qs, term, difficultyFilter, key, q);
      assert q in Process(qs, term, difficultyFilter, key) <==> q in multiset(Process(qs, term, difficultyFilter, key));
    }
  }

  /** A row without a title is never shown. */
  lemma UntitledRowsExcluded(qs: seq<Question>, term: string, difficultyFilter: string, key: SortKey, q: Question)
    requires q.title.None?
    ensures q !in Process(qs, term, difficultyFilter, key)
  {
    ProcessKeepsExactlyMatches(qs, term, difficultyFilter, key, q);
  }

  /** The view is ordered by the selected key, for every pair of positions. */
  lemma ProcessOrdered(qs: seq<Question>, term: string, difficultyFilter: string, key: SortKey)
    ensures var r := Process(qs, term, difficultyFilter, key);
      forall i, j :: 0 <= i < j < |r| ==> Before(key, r[i], r[j])
  {
    var r := Process(qs, term, difficultyFilter, key);
    OrderIsTotalPreorder(key);
    StableSort.SortSorted(Order(key), FilterRows(qs, term, difficultyFilter));
    forall i, j | 0 <= i < j < |r| ensures Before(key, r[i], r[j]) {
      StableSort.SortedPairs(Order(key), r, i, j);
    }
  }

  /** Frequency order: non-increasing frequency, an unparseable frequency counting as 0. */
  lemma FrequencyDescending(qs: seq<Question>, term: string, difficultyFilter: string)
    ensures var r := Process(qs, term, difficultyFilter, ByFrequency);
      forall i, j :: 0 <= i < j < |r| ==> Freq(r[i]) >= Freq(r[j])
  {
    ProcessOrdered(qs, term, difficultyFilter, ByFrequency);
  }

  /** Title order: titles are non-decreasing. */
  lemma TitleAscending(qs: seq<Question>, term: string, difficultyFilter: string)
    ensures var r := Process(qs, term, difficultyFilter, ByTitle);
      forall i, j :: 0 <= i < j < |r| ==> Text.LexLe(TitleText(r[i]), TitleText(r[j]))
  {
    ProcessOrdered(qs, term, difficultyFilter, ByTitle);
  }

  /** Difficulty order: Easy before Medium before Hard. */
  lemma DifficultyAscending(qs: seq<Question>, term: string, difficultyFilter: string)
    ensures var r := Process(qs, term, difficultyFilter, ByDifficulty);
      forall i, j :: 0 <= i < j < |r| ==> Rank(r[i].difficulty) <= Rank(r[j].difficulty)
  {
    ProcessOrdered(qs, term, difficultyFilter, ByDifficulty);
  }

  /**
   * Stability: the rows that tie with `q` under the selected key (for the frequency key:
   * the rows with the same frequency) appear in the same relative order as in the filtered input.
   */
  lemma ProcessStable(qs: seq<Question>, term: string, difficultyFilter: string, key: SortKey, q: Question)
    ensures StableSort.Ties(Order(key), q, Process(qs, term, difficultyFilter, key))
         == StableSort.Ties(Order(key), q, FilterRows(qs, term, difficultyFilter))
  {
    OrderIsTotalPreorder(key);
    StableSort.SortStable(Order(key), FilterRows(qs, term, difficultyFilter), q);
  }

  /**
   * Any ordering of the filtered rows that is sorted by the key and stable is the view,
   * whatever stable algorithm the JavaScript engine runs.
   */
  lemma AnyStableSortIsProcess(qs: seq<Question>, term: string, difficultyFilter: string, key: SortKey, out: seq<Question>)
    requires StableSort.Sorted(Order(key), out)
    requires forall q :: StableSort.Ties(Order(key), q, out) == StableSort.Ties(Order(key), q, FilterRows(qs, term, difficultyFilter))
    ensures out == Process(qs, term, difficultyFilter, key)
  {
    var f := FilterRows(qs, term, difficultyFilter);
    OrderIsTotalPreorder(key);
    StableSort.SortSorted(Order(key), f);
    forall q ensures StableSort.Ties(Order(key), q, out) == StableSort.Ties(Order(key), q, Process(qs, term, difficultyFilter, key)) {
      StableSort.SortStable(Order(key), f, q);
    }
    StableSort.SortedUnique(Order(key), out, Process(qs, term, difficultyFilter, key));
  }

  /** Re-applying the pipeline with the same controls to its own output changes nothing. */
  lemma ProcessIdempotent(qs: seq<Question>, term: string, difficultyFilter: string, key: SortKey)
    ensures Process(Process(qs, term, difficultyFilter, key), term, difficultyFilter, key)
         == Process(qs, term, difficultyFilter, key)
  {
    var p := MatchFn(term, difficultyFilter);
    var f := FilterRows(qs, term, difficultyFilter);
    var r := Process(qs, term, difficultyFilter, key);
    OrderIsTotalPreorder(key);
    StableSort.SortPermutes(Order(key), f);
    forall x | x in r ensures p(x) {
      assert x in multiset(r);
    }
    Seqs.FilterKeepsAll(r, p);
    StableSort.SortSorted(Order(key), f);
    StableSort.SortOfSorted(Order(key), r);
  }

  lemma LowerTwoSum()
    ensures Text.Lower("Two Sum") == "two sum" && Text.Lower("two sum") == "two sum"
  {
    var lowered := Text.Lower("Two Sum");
    assert lowered[0] == 't' && lowered[4] == 's';
    Text.LowerIdempotent("Two Sum");
  }

  /** With a difficulty other than "All" selected, a row of any other difficulty is never shown. */
  lemma OtherDifficultyExcluded(qs: seq<Question>, term: string, difficultyFilter: string, key: SortKey, q: Question)
    requires difficultyFilter != AllDifficulties && q.difficulty != difficultyFilter
    ensures !MatchFn(term, difficultyFilter)(q)
    ensures q !in Process(qs, term, difficultyFilter, key)
  {
    ProcessKeepsExactlyMatches(qs, term, difficultyFilter, key, q);
  }

  /** An example: "Two Sum" passes the search "two sum" with the Easy filter. */
  lemma TwoSumRowMatches(a: Question)
    requires a == Question("1", Some("Two Sum"), "Easy", Some(50.0))
    ensures MatchFn("two sum", "Easy")(a)
  {
    LowerTwoSum();
    assert Text.Contains("two sum", "two sum");
  }

  /** An example: "two sum" with the Easy filter keeps "Two Sum" and drops the Medium "Two Sum II". */
  lemma TwoSumExample(a: Question, b: Question)
    requires a == Question("1", Some("Two Sum"), "Easy", Some(50.0))
    requires b == Question("167", Some("Two Sum II"), "Medium", Some(30.0))
    ensures FilterRows([a, b], "two sum", "Easy") == [a]
  {
    TwoSumRowMatches(a);
    OtherDifficultyExcluded([a, b], "two sum", "Easy", ByFrequency, b);
    KeepsFirstOfTwo(a, b, "two sum", "Easy");
  }

  /** Filtering two rows of which only the first matches. */
  lemma KeepsFirstOfTwo(a: Question, b: Question, term: string, difficultyFilter: string)
    requires MatchFn(term, difficultyFilter)(a) && !MatchFn(term, difficultyFilter)(b)
    ensures FilterRows([a, b], term, difficultyFilter) == [a]
  {
    var p := MatchFn(term, difficultyFilter);
    calc {
      Seqs.Filter([a, b], p);
      { assert [a, b][1..] == [b]; }
      [a] + Seqs.Filter([b], p);
      { assert [b][1..] == []; }
      [a];
    }
  }
}
