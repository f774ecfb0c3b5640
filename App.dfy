/**
 * The `App` component's state (App.jsx): the selected company and period, the loaded
 * question rows, the loading flag, the solved ledger and the `lc_solved` store entry,
 * and the effects and handlers that change them.
 */
module App {
  import opened Options
  import Questions
  import Ledger
  import Sidebar

  /** The period selected at start-up. */
  const DefaultPeriod := "thirty-days"

  /**
   * How one request for a data file ends: the response is not `ok` (not found), the
   * request or `res.text()` fails, the CSV parser reports an error, or it completes with rows.
   */
  datatype FetchOutcome = NotFound | FetchFailed | ParseFailed | Parsed(rows: seq<Questions.Question>)

  /** `/data/${selectedCompany}/${selectedPeriod}.csv`. */
  function DataPath(company: string, period: string): (path: string)
    ensures |path| == |company| + |period| + 11
    ensures path[..6] == "/data/" && path[6..6 + |company|] == company && path[6 + |company|] == '/'
    ensures path[7 + |company|..|path| - 4] == period && path[|path| - 4..] == ".csv"
  {
    "/data/" + company + "/" + period + ".csv"
  }

  /** In a data path whose company holds no `/`, the first `/` after `/data/` ends the company. */
  lemma SlashEndsCompany(company: string, period: string, k: nat)
    requires '/' !in company && k <= |company|
    ensures DataPath(company, period)[6 + k] == '/' <==> k == |company|
  {
    var path := DataPath(company, period);
    if k < |company| {
      assert path[6 + k] == path[6..6 + |company|][k];
    }
  }

  /** Distinct selections fetch distinct files, as long as company names hold no `/`. */
  lemma DataPathInjective(c1: string, p1: string, c2: string, p2: string)
    requires '/' !in c1 && '/' !in c2
    requires DataPath(c1, p1) == DataPath(c2, p2)
    ensures c1 == c2 && p1 == p2
  {
    var k := if |c1| < |c2| then |c1| else |c2|;
    SlashEndsCompany(c1, p1, k);
    SlashEndsCompany(c2, p2, k);
    assert |c1| == |c2|;
  }

  /** The rows `setQuestions` receives when a request ends: the parsed rows, or `[]` on any failure. */
  function LoadedRows(outcome: FetchOutcome): (rows: seq<Questions.Question>)
    ensures outcome.Parsed? ==> rows == outcome.rows
    ensures !outcome.Parsed? ==> rows == []
  {
    if outcome.Parsed? then outcome.rows else []
  }

  class App {
    var companies: seq<string>
    var selectedCompany: string
    /** The text of the sidebar's company search box. */
    var companySearch: string
    var selectedPeriod: string
    var questions: seq<Questions.Question>
    var loading: bool
    var searchTerm: string
    var difficultyFilter: string
    var sortBy: Questions.SortKey
    var solved: Ledger.SolvedMap
    /** The `lc_solved` entry of the key-value store. */
    var persisted: Ledger.StoredBlob

    /** Restoring the store entry gives back the ledger in memory: nothing solved is lost on a reload. */
    predicate Durable()
      reads this
    {
      Ledger.Restore(persisted) == solved
    }

    /** The first render, given what the store holds under `lc_solved`. */
    constructor (stored: Ledger.StoredBlob)
      ensures companies == [] && selectedCompany == "" && companySearch == "" && selectedPeriod == DefaultPeriod
      ensures questions == [] && !loading
      ensures searchTerm == "" && difficultyFilter == Questions.AllDifficulties && sortBy == Questions.ByFrequency
      ensures solved == Ledger.Restore(stored) && persisted == stored
      ensures Durable()
    {
      companies := [];
      selectedCompany := "";
      companySearch := "";
      selectedPeriod := DefaultPeriod;
      questions := [];
      loading := false;
      searchTerm := "";
      difficultyFilter := Questions.AllDifficulties;
      sortBy := Questions.ByFrequency;
      solved := Ledger.Restore(stored);
      persisted := stored;
    }

    /**
     * The body of the load effect: with no company selected it does nothing; otherwise it
     * raises `loading` and requests the file of the selected company and period.
     */
    method LoadEffect() returns (request: Option<string>)
      modifies this`loading
      ensures selectedCompany == "" ==> request == None && loading == old(loading)
      ensures selectedCompany != "" ==> request == Some(DataPath(selectedCompany, selectedPeriod)) && loading
    {
      if selectedCompany == "" {
        return None;
      }
      loading := true;
      request := Some(DataPath(selectedCompany, selectedPeriod));
    }

    /** A request ends: every outcome lowers `loading`; a failure of any kind empties the rows. */
    method LoadSettled(outcome: FetchOutcome)
      modifies this`questions, this`loading
      ensures !loading
      ensures questions == LoadedRows(outcome)
    {
      match outcome
      case Parsed(rows) =>
        questions := rows;
        loading := false;
      case _ =>
        questions := [];
        loading := false;
    }

    /** Selecting a company; the load effect runs when the selection actually changes. */
    method SelectCompany(company: string) returns (request: Option<string>)
      modifies this`selectedCompany, this`loading
      ensures selectedCompany == company
      ensures company == old(selectedCompany) ==> request == None && loading == old(loading)
      ensures company != old(selectedCompany) && company != "" ==>
        request == Some(DataPath(company, selectedPeriod)) && loading
      ensures company != old(selectedCompany) && company == "" ==> request == None && loading == old(loading)
    {
      if company == selectedCompany {
        return None;
      }
      selectedCompany := company;
      request := LoadEffect();
    }

    /** Selecting a period; the load effect runs when the selection actually changes. */
    method SelectPeriod(period: string) returns (request: Option<string>)
      modifies this`selectedPeriod, this`loading
      ensures selectedPeriod == period
      ensures period == old(selectedPeriod) || selectedCompany == "" ==> request == None && loading == old(loading)
      ensures period != old(selectedPeriod) && selectedCompany != "" ==>
        request == Some(DataPath(selectedCompany, period)) && loading
    {
      if period == selectedPeriod {
        return None;
      }
      selectedPeriod := period;
      request := LoadEffect();
    }

    /**
     * The company list arrives (`None`: the request or its JSON failed, and nothing changes).
     * A non-empty list selects its first company.
     */
    method CompaniesLoaded(data: Option<seq<string>>) returns (request: Option<string>)
      modifies this`companies, this`selectedCompany, this`loading
      ensures data.None? ==> companies == old(companies) && selectedCompany == old(selectedCompany)
      ensures data.Some? ==> companies == data.value
      ensures data.Some? && data.value != [] ==> selectedCompany == data.value[0]
      ensures data.Some? && data.value == [] ==> selectedCompany == old(selectedCompany)
      ensures request.Some? ==> request == Some(DataPath(selectedCompany, selectedPeriod)) && loading
      ensures request.None? ==> loading == old(loading)
      ensures request.Some? <==>
        data.Some? && data.value != [] && data.value[0] != old(selectedCompany) && data.value[0] != ""
    {
      request := None;
      if data.Some? {
        companies := data.value;
        if data.value != [] {
          request := SelectCompany(data.value[0]);
        }
      }
    }

    /** `toggleSolved(id)`: flips the entry under the selected company and writes the whole ledger back. */
    method ToggleSolved(id: string)
      modifies this`solved, this`persisted
      ensures solved == Ledger.Toggled(old(solved), selectedCompany, id)
      ensures persisted == Ledger.Save(solved)
      ensures Durable()
    {
      solved := Ledger.Toggled(solved, selectedCompany, id);
      persisted := Ledger.Save(solved);
    }

    /** The progress count shown for the selected company. */
    function SolvedCount(): (n: nat)
      reads this
      ensures n <= |questions|
    {
      Ledger.SolvedCount(solved, selectedCompany, questions)
    }

    /** The companies the sidebar lists for the current search: those whose name contains it, ignoring case. */
    function FilteredCompanies(): (listed: seq<string>)
      reads this
      ensures forall c :: c in listed <==> c in companies && Sidebar.NameMatches(c, companySearch)
      ensures |listed| <= |companies|
    {
      Sidebar.FilteredCompanies(companies, companySearch)
    }

    /** The rows the table shows: the loaded rows that match the search and the difficulty filter. */
    function ProcessedQuestions(): (rows: seq<Questions.Question>)
      reads this
      ensures forall q :: q in rows <==> q in questions && Questions.Matches(q, searchTerm, difficultyFilter)
      ensures |rows| <= |questions|
    {
      Questions.ProcessShowsExactlyMatches(questions, searchTerm, difficultyFilter, sortBy);
      Questions.Process(questions, searchTerm, difficultyFilter, sortBy)
    }
  }

  /**
   * A failed company list changes nothing; a not-found data file then leaves an empty table, a
   * lowered loading flag and the ledger as it was; the same list arriving again requests nothing.
   */
  method NotFoundScenario(stored: Ledger.StoredBlob) {
    var app := new App(stored);
    var ledger := app.solved;
    var failed := app.CompaniesLoaded(None);
    assert failed == None && !app.loading && app.companies == [] && app.selectedCompany == "";
    var request := app.CompaniesLoaded(Some(["AcmeCorp", "Globex"]));
    assert ["AcmeCorp", "Globex"][0] == "AcmeCorp";
    assert request == Some(DataPath("AcmeCorp", "thirty-days"));
    assert app.loading;
    app.LoadSettled(NotFound);
    assert app.questions == [] && !app.loading;
    assert app.solved == ledger && app.Durable();
    assert app.SolvedCount() == 0;
    var again := app.CompaniesLoaded(Some(["AcmeCorp"]));
    assert ["AcmeCorp"][0] == "AcmeCorp";
    assert again == None && !app.loading;
  }
}
