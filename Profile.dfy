/**
 * The progress page (ProfilePage.jsx): totals over the whole solved ledger, per-company and
 * per-difficulty counts, the top-ten company chart, the difficulty chart and the focus area.
 */
module Profile {
  import Seqs
  import StableSort
  import Ledger

  type SolvedMap = Ledger.SolvedMap

  /** One entry of the metadata cache (`solvedMeta[id]`); an absent difficulty is the empty string. */
  datatype SolvedMeta = SolvedMeta(title: string, difficulty: string)

  /** `solvedMeta`; the component receiving no cache at all is the empty map. */
  type MetaCache = map<string, SolvedMeta>

  /** The value `solvedStats` computes. */
  datatype Stats = Stats(total: nat, companyCounts: map<string, nat>, difficultyCounts: map<string, nat>)

  /** A `{ name, value }` chart slice. */
  datatype Slice = Slice(name: string, value: nat)

  // ---------------------------------------------------------------------------------------
  // Specification of solvedStats

  /** The ids marked true in one company's sub-map. */
  function Trues(sub: map<string, bool>): set<string> {
    set id | id in sub && sub[id]
  }

  /** Every id marked true under some company: the final `allSolvedIds`. */
  function AllSolved(l: SolvedMap): set<string> {
    set c, id | c in l && id in l[c] && l[c][id] :: id
  }

  /** `companyCounts`: a key for each company with a true entry, mapped to its number of true entries. */
  function CompanyCounts(l: SolvedMap): map<string, nat> {
    map c | c in l && Trues(l[c]) != {} :: |Trues(l[c])|
  }

  /** The ids of `ids` whose cached difficulty is `d`. */
  function WithDifficulty(ids: set<string>, meta: MetaCache, d: string): set<string> {
    set id | id in ids && id in meta && meta[id].difficulty == d
  }

  /** `difficultyCounts` after counting the ids of `ids`. */
  function DifficultyTally(ids: set<string>, meta: MetaCache): map<string, nat> {
    map["Easy" := |WithDifficulty(ids, meta, "Easy")|,
        "Medium" := |WithDifficulty(ids, meta, "Medium")|,
        "Hard" := |WithDifficulty(ids, meta, "Hard")|]
  }

  /** The companies of `l` not in `pending`: those the outer loop has finished. */
  function Done(l: SolvedMap, pending: set<string>): SolvedMap {
    map c | c in l && c !in pending :: l[c]
  }

  /** Peeling one company off the ledger: its true ids join those of the others. */
  lemma PeelSolved(l: SolvedMap, c: string)
    requires c in l
    ensures AllSolved(l) == AllSolved(l - {c}) + Trues(l[c])
  {
    var rest := l - {c};
    forall id | id in AllSolved(l) ensures id in AllSolved(rest) || id in Trues(l[c]) {
      var c' :| c' in l && id in l[c'] && l[c'][id];
      if c' != c {
        assert c' in rest && rest[c'] == l[c'];
      }
    }
    forall id | id in AllSolved(rest) ensures id in AllSolved(l) {
      var c' :| c' in rest && id in rest[c'] && rest[c'][id];
      assert c' in l && l[c'] == rest[c'];
    }
    forall id | id in Trues(l[c]) ensures id in AllSolved(l) {
      assert c in l && id in l[c] && l[c][id];
    }
  }

  /** Peeling one company off the ledger: its count, if it has one, joins those of the others. */
  lemma PeelCounts(l: SolvedMap, c: string)
    requires c in l
    ensures CompanyCounts(l) == if Trues(l[c]) == {} then CompanyCounts(l - {c})
                                else CompanyCounts(l - {c})[c := |Trues(l[c])|]
  {
    var rest := l - {c};
    assert forall k :: k in rest ==> rest[k] == l[k];
  }

  /** Finishing one more company in the outer loop. */
  lemma FinishCompany(l: SolvedMap, pending: set<string>, c: string)
    requires c in pending && pending <= l.Keys
    ensures AllSolved(Done(l, pending - {c})) == AllSolved(Done(l, pending)) + Trues(l[c])
    ensures c !in CompanyCounts(Done(l, pending))
    ensures CompanyCounts(Done(l, pending - {c})) ==
      if Trues(l[c]) == {} then CompanyCounts(Done(l, pending))
      else CompanyCounts(Done(l, pending))[c := |Trues(l[c])|]
  {
    var after := Done(l, pending - {c});
    assert after - {c} == Done(l, pending);
    PeelSolved(after, c);
    PeelCounts(after, c);
  }

  /** Visiting one more id of a company in the inner loop. */
  lemma VisitId(questions: map<string, bool>, ids: set<string>, id: string, seen: set<string>, acc: set<string>, ids0: set<string>)
    requires ids <= questions.Keys && id in ids
    requires seen == Trues(questions) - ids && acc == ids0 + seen
    ensures id !in seen
    ensures questions[id] ==> seen + {id} == Trues(questions) - (ids - {id}) && acc + {id} == ids0 + (seen + {id})
    ensures !questions[id] ==> seen == Trues(questions) - (ids - {id})
    ensures questions[id] ==> |seen + {id}| == |seen| + 1
  {
  }

  /** `counts` once a company that started at `start` has had `n` true entries counted. */
  function Bumped(counts: map<string, nat>, company: string, start: nat, n: nat): map<string, nat> {
    if n == 0 then counts else counts[company := start + n]
  }

  /** One more true entry: `(companyCounts[company] || 0) + 1`. */
  lemma BumpStep(counts0: map<string, nat>, company: string, start: nat, n: nat)
    requires start == if company in counts0 then counts0[company] else 0
    ensures var cur := Bumped(counts0, company, start, n);
      cur[company := (if company in cur then cur[company] else 0) + 1] == Bumped(counts0, company, start, n + 1)
  {
  }

  /**
   * The inner `forEach` over one company's entries: each true entry adds its id to the
   * shared id set and bumps the company's count, `(companyCounts[company] || 0) + 1`.
   */
  method VisitCompany(company: string, questions: map<string, bool>,
                      ids0: set<string>, counts0: map<string, nat>)
    returns (allSolvedIds: set<string>, companyCounts: map<string, nat>)
    ensures allSolvedIds == ids0 + Trues(questions)
    ensures companyCounts == Bumped(counts0, company, if company in counts0 then counts0[company] else 0, |Trues(questions)|)
  {
    allSolvedIds, companyCounts := ids0, counts0;
    var start := if company in counts0 then counts0[company] else 0;
    var ids := questions.Keys;
    ghost var seen: set<string> := {};
    while ids != {}
      invariant ids <= questions.Keys
      invariant seen == Trues(questions) - ids
      invariant allSolvedIds == ids0 + seen
      invariant companyCounts == Bumped(counts0, company, start, |seen|)
      decreases ids
    {
      var id :| id in ids;
      VisitId(questions, ids, id, seen, allSolvedIds, ids0);
      if questions[id] {
        allSolvedIds := allSolvedIds + {id};
        BumpStep(counts0, company, start, |seen|);
        companyCounts := companyCounts[company := (if company in companyCounts then companyCounts[company] else 0) + 1];
        seen := seen + {id};
      }
      ids := ids - {id};
    }
    assert seen == Trues(questions);
  }

  /** The `forEach` over the solved ids: each id whose cached difficulty is one of the three keys bumps that key. */
  method CountDifficulties(allSolvedIds: set<string>, meta: MetaCache) returns (difficultyCounts: map<string, nat>)
    ensures difficultyCounts == DifficultyTally(allSolvedIds, meta)
  {
    difficultyCounts := map["Easy" := 0, "Medium" := 0, "Hard" := 0];
    var rest := allSolvedIds;
    while rest != {}
      invariant rest <= allSolvedIds
      invariant difficultyCounts == DifficultyTally(allSolvedIds - rest, meta)
      decreases rest
    {
      var id :| id in rest;
      TallyStep(allSolvedIds, rest, id, meta);
      if id in meta && meta[id].difficulty != "" {
        var diff := meta[id].difficulty;
        if diff in difficultyCounts {
          difficultyCounts := difficultyCounts[diff := difficultyCounts[diff] + 1];
        }
      }
      rest := rest - {id};
    }
    assert allSolvedIds - rest == allSolvedIds;
  }

  /** `solvedStats`: the outer `forEach` over the companies, then the size of the id set and the difficulty pass. */
  method SolvedStats(l: SolvedMap, meta: MetaCache) returns (stats: Stats)
    ensures stats.total == |AllSolved(l)|
    ensures stats.companyCounts == CompanyCounts(l)
    ensures stats.difficultyCounts == DifficultyTally(AllSolved(l), meta)
  {
    var companyCounts: map<string, nat> := map[];
    var allSolvedIds: set<string> := {};
    var pending := l.Keys;
    while pending != {}
      invariant pending <= l.Keys
      invariant allSolvedIds == AllSolved(Done(l, pending))
      invariant companyCounts == CompanyCounts(Done(l, pending))
      decreases pending
    {
      var company :| company in pending;
      FinishCompany(l, pending, company);
      allSolvedIds, companyCounts := VisitCompany(company, l[company], allSolvedIds, companyCounts);
      pending := pending - {company};
    }
    assert Done(l, pending) == l;
    var total := |allSolvedIds|;
    var difficultyCounts := CountDifficulties(allSolvedIds, meta);
    stats := Stats(total, companyCounts, difficultyCounts);
  }

  /** Counting one more id adds one to the count of its own cached difficulty and to no other. */
  lemma WithDifficultyStep(seen: set<string>, id: string, meta: MetaCache, d: string)
    requires id !in seen
    ensures |WithDifficulty(seen + {id}, meta, d)|
      == |WithDifficulty(seen, meta, d)| + (if id in meta && meta[id].difficulty == d then 1 else 0)
  {
    if id in meta && meta[id].difficulty == d {
      assert WithDifficulty(seen + {id}, meta, d) == WithDifficulty(seen, meta, d) + {id};
    } else {
      assert WithDifficulty(seen + {id}, meta, d) == WithDifficulty(seen, meta, d);
    }
  }

  /** Counting one more id raises only the count of its own cached difficulty, by one. */
  lemma TallyStep(all: set<string>, rest: set<string>, id: string, meta: MetaCache)
    requires id in rest && rest <= all
    ensures DifficultyTally(all - (rest - {id}), meta) ==
      var before := DifficultyTally(all - rest, meta);
      if id in meta && meta[id].difficulty in before
      then before[meta[id].difficulty := before[meta[id].difficulty] + 1]
      else before
  {
    var seen := all - rest;
    assert all - (rest - {id}) == seen + {id};
    WithDifficultyStep(seen, id, meta, "Easy");
    WithDifficultyStep(seen, id, meta, "Medium");
    WithDifficultyStep(seen, id, meta, "Hard");
  }

  // ---------------------------------------------------------------------------------------
  // Properties of the statistics

  /** An id counts towards the total exactly when some company marks it true, however many do. */
  lemma AllSolvedIff(l: SolvedMap, id: string)
    ensures id in AllSolved(l) <==> exists c :: Ledger.IsSolved(l, c, id)
  {
    if exists c :: Ledger.IsSolved(l, c, id) {
      var c :| Ledger.IsSolved(l, c, id);
      assert c in l && id in l[c] && l[c][id];
    }
    if id in AllSolved(l) {
      var c :| c in l && id in l[c] && l[c][id];
      assert Ledger.IsSolved(l, c, id);
    }
  }

  /** A company has a count exactly when it marks some id true, and its count is the number of such ids. */
  lemma CompanyCountsIff(l: SolvedMap, c: string)
    ensures c in CompanyCounts(l) <==> exists id :: Ledger.IsSolved(l, c, id)
    ensures c in CompanyCounts(l) ==> CompanyCounts(l)[c] == |Trues(l[c])| > 0
  {
    if exists id :: Ledger.IsSolved(l, c, id) {
      var id :| Ledger.IsSolved(l, c, id);
      assert id in Trues(l[c]);
    }
    if c in CompanyCounts(l) {
      var id :| id in Trues(l[c]);
      assert Ledger.IsSolved(l, c, id);
    }
  }

  /** "Companies Practiced": `Object.keys(companyCounts).length`. */
  function CompaniesPracticed(stats: Stats): nat {
    |stats.companyCounts|
  }

  /** The companies with at least one id marked true. */
  function PracticedCompanies(l: SolvedMap): set<string> {
    set c, id | c in l && id in l[c] && l[c][id] :: c
  }

  /** "Companies Practiced" is the number of companies with at least one id marked true. */
  lemma CompaniesPracticedCount(l: SolvedMap, stats: Stats)
    requires stats.companyCounts == CompanyCounts(l)
    ensures CompaniesPracticed(stats) == |PracticedCompanies(l)|
  {
    forall c ensures c in CompanyCounts(l) <==> c in PracticedCompanies(l) {
      CompanyCountsIff(l, c);
      if c in PracticedCompanies(l) {
        var id :| id in l[c] && l[c][id];
        assert Ledger.IsSolved(l, c, id);
      }
    }
    assert CompanyCounts(l).Keys == PracticedCompanies(l);
  }

  /** The sum of the values of a map. */
  ghost function SumValues(m: map<string, nat>): nat
    decreases |m|
  {
    if m == map[] then 0
    else
      var k :| k in m;
      m[k] + SumValues(m - {k})
  }

  /** The sum may be taken starting from any key. */
  lemma {:induction false} SumValuesRemove(m: map<string, nat>, k: string)
    requires k in m
    ensures SumValues(m) == m[k] + SumValues(m - {k})
    decreases |m|
  {
    var j :| j in m && SumValues(m) == m[j] + SumValues(m - {j});
    if j != k {
      SumValuesRemove(m - {j}, k);
      SumValuesRemove(m - {k}, j);
      assert m - {j} - {k} == m - {k} - {j};
    }
  }

  /**
   * The per-company counts add up to at least the total: an id solved under several
   * companies is counted once in the total and once per company in the counts.
   */
  lemma {:induction false} CountsCoverTotal(l: SolvedMap)
    ensures |AllSolved(l)| <= SumValues(CompanyCounts(l))
    decreases |l|
  {
    if l != map[] {
      var c :| c in l;
      var rest := l - {c};
      PeelSolved(l, c);
      PeelSum(l, c);
      CountsCoverTotal(rest);
      assert |AllSolved(rest) + Trues(l[c])| <= |AllSolved(rest)| + |Trues(l[c])|;
    }
  }

  /** Peeling one company off the ledger adds its count to the sum of the counts. */
  lemma PeelSum(l: SolvedMap, c: string)
    requires c in l
    ensures SumValues(CompanyCounts(l)) == |Trues(l[c])| + SumValues(CompanyCounts(l - {c}))
  {
    var counts := CompanyCounts(l);
    PeelCounts(l, c);
    assert c !in CompanyCounts(l - {c});
    if Trues(l[c]) != {} {
      SumValuesRemove(counts, c);
      assert counts - {c} == CompanyCounts(l - {c});
    }
  }

  /** No id is marked true under two different companies. */
  ghost predicate NoSharedIds(l: SolvedMap) {
    forall c1, c2 :: c1 in l && c2 in l && c1 != c2 ==> Trues(l[c1]) * Trues(l[c2]) == {}
  }

  /** The size of a union is the sum of the sizes less the size of the overlap. */
  lemma UnionSize(a: set<string>, b: set<string>)
    ensures |a + b| + |a * b| == |a| + |b|
  {
    assert a + b == a + (b - a) && a * (b - a) == {};
    assert b == (b - a) + (a * b) && (b - a) * (a * b) == {};
  }

  lemma NotInDisjoint(a: set<string>, b: set<string>, x: string)
    requires a * b == {} && x in a
    ensures x !in b
  {
    assert x in b ==> x in a * b;
  }

  /** Peeling one company off: the ledger shares no id iff the rest shares none and the company shares none with the rest. */
  lemma SharingStep(l: SolvedMap, c: string)
    requires c in l
    ensures NoSharedIds(l) <==> NoSharedIds(l - {c}) && AllSolved(l - {c}) * Trues(l[c]) == {}
  {
    var rest := l - {c};
    var others := AllSolved(rest);
    var mine := Trues(l[c]);
    if NoSharedIds(l) {
      forall c1, c2 | c1 in rest && c2 in rest && c1 != c2 ensures Trues(rest[c1]) * Trues(rest[c2]) == {} {
        assert rest[c1] == l[c1] && rest[c2] == l[c2];
      }
      forall id | id in others ensures id !in mine {
        var c2 :| c2 in rest && id in rest[c2] && rest[c2][id];
        assert c2 in l && c2 != c && rest[c2] == l[c2];
        assert id in Trues(l[c2]);
        NotInDisjoint(Trues(l[c2]), mine, id);
      }
    }
    if NoSharedIds(rest) && others * mine == {} {
      forall c1, c2 | c1 in l && c2 in l && c1 != c2 ensures Trues(l[c1]) * Trues(l[c2]) == {} {
        if c1 == c {
          forall id | id in Trues(l[c2]) ensures id !in mine {
            InOthers(l, c, c2, id);
            NotInDisjoint(others, mine, id);
          }
        } else if c2 == c {
          forall id | id in Trues(l[c1]) ensures id !in mine {
            InOthers(l, c, c1, id);
            NotInDisjoint(others, mine, id);
          }
        } else {
          assert rest[c1] == l[c1] && rest[c2] == l[c2];
        }
      }
    }
  }

  /** An id true under another company is among the true ids of the rest of the ledger. */
  lemma InOthers(l: SolvedMap, c: string, c2: string, id: string)
    requires c2 in l && c2 != c && id in Trues(l[c2])
    ensures id in AllSolved(l - {c})
  {
    var rest := l - {c};
    assert c2 in rest && rest[c2] == l[c2];
    assert id in rest[c2] && rest[c2][id];
  }

  /** The per-company counts add up to exactly the total iff no id is solved under two companies. */
  lemma {:induction false} CountsEqualTotalIff(l: SolvedMap)
    ensures SumValues(CompanyCounts(l)) == |AllSolved(l)| <==> NoSharedIds(l)
    decreases |l|
  {
    if l == map[] {
      assert CompanyCounts(l) == map[];
      assert AllSolved(l) == {};
    } else {
      var c :| c in l;
      var rest := l - {c};
      PeelSolved(l, c);
      PeelSum(l, c);
      CountsEqualTotalIff(rest);
      CountsCoverTotal(rest);
      SharingStep(l, c);
      UnionSize(AllSolved(rest), Trues(l[c]));
    }
  }

  /** Only the true entries matter: ledgers that agree on every solved-state give the same statistics. */
  lemma SameSolvedStateSameStats(l1: SolvedMap, l2: SolvedMap)
    requires forall c, id :: Ledger.IsSolved(l1, c, id) == Ledger.IsSolved(l2, c, id)
    ensures AllSolved(l1) == AllSolved(l2)
    ensures CompanyCounts(l1) == CompanyCounts(l2)
  {
    forall id ensures id in AllSolved(l1) <==> id in AllSolved(l2) {
      AllSolvedIff(l1, id);
      AllSolvedIff(l2, id);
    }
    forall c ensures c in CompanyCounts(l1) <==> c in CompanyCounts(l2) {
      CompanyCountsIff(l1, c);
      CompanyCountsIff(l2, c);
    }
    forall c | c in CompanyCounts(l1) ensures CompanyCounts(l1)[c] == CompanyCounts(l2)[c] {
      assert c in l1 && c in l2;
      assert forall id :: id in Trues(l1[c]) <==> Ledger.IsSolved(l1, c, id);
      assert forall id :: id in Trues(l2[c]) <==> Ledger.IsSolved(l2, c, id);
      assert Trues(l1[c]) == Trues(l2[c]);
    }
  }

  /** Marking a question solved and then unsolved again leaves the progress page as it was. */
  lemma ToggleTwiceKeepsStats(l: SolvedMap, company: string, id: string)
    ensures var l2 := Ledger.Toggled(Ledger.Toggled(l, company, id), company, id);
      AllSolved(l2) == AllSolved(l) && CompanyCounts(l2) == CompanyCounts(l)
  {
    Ledger.ToggleTwice(l, company, id);
    SameSolvedStateSameStats(Ledger.Toggled(Ledger.Toggled(l, company, id), company, id), l);
  }

  /**
   * `difficultyCounts` has exactly the keys Easy, Medium and Hard, and its counts add up to at
   * most the number of ids counted: ids that have no cache entry, or another difficulty, are skipped.
   */
  lemma DifficultyTallyBounded(ids: set<string>, meta: MetaCache)
    ensures DifficultyTally(ids, meta).Keys == {"Easy", "Medium", "Hard"}
    ensures var t := DifficultyTally(ids, meta); t["Easy"] + t["Medium"] + t["Hard"] <= |ids|
  {
    var e := WithDifficulty(ids, meta, "Easy");
    var m := WithDifficulty(ids, meta, "Medium");
    var h := WithDifficulty(ids, meta, "Hard");
    WithDifficultyDisjoint(ids, meta, "Easy", "Medium");
    WithDifficultyDisjoint(ids, meta, "Easy", "Hard");
    WithDifficultyDisjoint(ids, meta, "Medium", "Hard");
    DisjointSubsetsBound(e, m, h, ids);
  }

  /** No id is counted under two difficulties. */
  lemma WithDifficultyDisjoint(ids: set<string>, meta: MetaCache, d1: string, d2: string)
    requires d1 != d2
    ensures WithDifficulty(ids, meta, d1) * WithDifficulty(ids, meta, d2) == {}
    ensures WithDifficulty(ids, meta, d1) <= ids
  {
  }

  /** Three pairwise disjoint subsets of `u` have at most `|u|` elements between them. */
  lemma DisjointSubsetsBound(a: set<string>, b: set<string>, c: set<string>, u: set<string>)
    requires a <= u && b <= u && c <= u
    requires a * b == {} && a * c == {} && b * c == {}
    ensures |a| + |b| + |c| <= |u|
  {
    assert |a + b| == |a| + |b|;
    assert (a + b) * c == {};
    assert |a + b + c| == |a + b| + |c|;
    var others := u - (a + b + c);
    assert u == (a + b + c) + others;
  }

  /** The example of a ledger with one id solved under two companies and cached as Medium. */
  lemma SharedIdExample(l: SolvedMap, meta: MetaCache)
    requires l == map["GoogleCo" := map["q1" := true, "q2" := false], "Meta" := map["q1" := true]]
    requires meta == map["q1" := SolvedMeta("Two Sum", "Medium")]
    ensures |AllSolved(l)| == 1
    ensures CompanyCounts(l) == map["GoogleCo" := 1, "Meta" := 1]
    ensures DifficultyTally(AllSolved(l), meta) == map["Easy" := 0, "Medium" := 1, "Hard" := 0]
  {
    assert Ledger.IsSolved(l, "Meta", "q1");
    forall id | id in AllSolved(l) ensures id == "q1" {
      AllSolvedIff(l, id);
    }
    AllSolvedIff(l, "q1");
    assert AllSolved(l) == {"q1"};
    assert Trues(l["GoogleCo"]) == {"q1"};
    assert Trues(l["Meta"]) == {"q1"};
    assert WithDifficulty({"q1"}, meta, "Medium") == {"q1"};
    assert WithDifficulty({"q1"}, meta, "Easy") == {};
    assert WithDifficulty({"q1"}, meta, "Hard") == {};
  }

  // ---------------------------------------------------------------------------------------
  // The charts

  function ValueOrder(): (Slice, Slice) -> bool {
    (a: Slice, b: Slice) => a.value >= b.value
  }

  /** `companyData`: the entries of `companyCounts`, stably sorted by count, largest first, cut to ten. */
  function CompanyData(entries: seq<Slice>): (chart: seq<Slice>)
    ensures |chart| <= 10 && |chart| <= |entries|
  {
    StableSort.SortPermutes(ValueOrder(), entries);
    var sorted := StableSort.Sort(ValueOrder(), entries);
    sorted[..if |sorted| < 10 then |sorted| else 10]
  }

  /**
   * The chart holds at most ten entries, a sub-multiset of the input, by non-increasing count,
   * and no entry left out has a larger count than one kept.
   */
  lemma CompanyDataTopTen(entries: seq<Slice>)
    ensures var r := CompanyData(entries);
      && |r| == (if |entries| < 10 then |entries| else 10)
      && multiset(r) <= multiset(entries)
      && (forall e :: e in r ==> e in entries)
      && (forall i, j :: 0 <= i < j < |r| ==> r[i].value >= r[j].value)
      && (forall e, i :: e in entries && e !in r && 0 <= i < |r| ==> e.value <= r[i].value)
  {
    var le := ValueOrder();
    var sorted := StableSort.Sort(le, entries);
    var r := CompanyData(entries);
    assert StableSort.TotalPreorder(le);
    StableSort.SortPermutes(le, entries);
    StableSort.SortSorted(le, entries);
    var n := if |sorted| < 10 then |sorted| else 10;
    assert sorted == sorted[..n] + sorted[n..];
    forall e | e in r ensures e in entries {
      assert e in multiset(sorted);
    }
    forall i, j | 0 <= i < j < |r| ensures r[i].value >= r[j].value {
      StableSort.SortedPairs(le, sorted, i, j);
    }
    forall e, i | e in entries && e !in r && 0 <= i < |r| ensures e.value <= r[i].value {
      assert e in multiset(sorted);
      var k :| 0 <= k < |sorted| && sorted[k] == e;
      assert k >= |r|;
      StableSort.SortedPairs(le, sorted, i, k);
    }
  }

  /** `entries` is an enumeration of `m` (what `Object.entries` gives, in whatever order). */
  ghost predicate Enumerates(entries: seq<Slice>, m: map<string, nat>) {
    && (forall e :: e in entries ==> e.name in m && m[e.name] == e.value)
    && (forall k :: k in m ==> Slice(k, m[k]) in entries)
  }

  /** Every chart entry is a company that has solved ids, with its count. */
  lemma CompanyDataFromCounts(l: SolvedMap, entries: seq<Slice>)
    requires Enumerates(entries, CompanyCounts(l))
    ensures forall e :: e in CompanyData(entries) ==>
      e.name in CompanyCounts(l) && e.value == CompanyCounts(l)[e.name] && e.value > 0
  {
    CompanyDataTopTen(entries);
  }

  /** "Focus Area": the first company of the chart, `'None'` when the chart is empty. */
  function FocusArea(companyData: seq<Slice>): string {
    if |companyData| > 0 then companyData[0].name else "None"
  }

  /** The focus area is a company with the largest count, and `'None'` exactly when nothing was counted. */
  lemma FocusAreaIsTop(entries: seq<Slice>)
    ensures entries == [] ==> FocusArea(CompanyData(entries)) == "None"
    ensures entries != [] ==> exists e :: e in entries && e.name == FocusArea(CompanyData(entries)) &&
                                         forall e' :: e' in entries ==> e'.value <= e.value
  {
    CompanyDataTopTen(entries);
    var r := CompanyData(entries);
    if entries != [] {
      var top := r[0];
      forall e' | e' in entries ensures e'.value <= top.value {
        if e' in r {
          var i :| 0 <= i < |r| && r[i] == e';
          if i > 0 { assert r[0].value >= r[i].value; }
        }
      }
      assert top in entries && top.name == FocusArea(r);
    }
  }

  const DifficultyNames: seq<string> := ["Easy", "Medium", "Hard"]

  /** `difficultyCounts[name]`, where a missing key reads as 0 (as `undefined > 0` is false). */
  function CountOf(counts: map<string, nat>, name: string): nat {
    if name in counts then counts[name] else 0
  }

  function PositiveFn(): Slice -> bool {
    (d: Slice) => d.value > 0
  }

  /** The three difficulty slices, in their fixed order, before dropping empty ones. */
  function DifficultySlices(counts: map<string, nat>): seq<Slice> {
    [Slice("Easy", CountOf(counts, "Easy")), Slice("Medium", CountOf(counts, "Medium")), Slice("Hard", CountOf(counts, "Hard"))]
  }

  /** `difficultyData`. */
  function DifficultyData(counts: map<string, nat>): (chart: seq<Slice>)
    ensures |chart| <= 3
    ensures forall d :: d in chart ==> d.value > 0
  {
    Seqs.Filter(DifficultySlices(counts), PositiveFn())
  }

  /**
   * The difficulty chart keeps the order Easy, Medium, Hard, has a slice for a difficulty
   * exactly when its count is positive, and shows that count.
   */
  lemma DifficultyDataShape(counts: map<string, nat>)
    ensures var r := DifficultyData(counts);
      && Seqs.Subsequence(r, DifficultySlices(counts))
      && (forall d :: d in r ==> d.value > 0 && d.name in DifficultyNames && d.value == CountOf(counts, d.name))
      && (forall name :: name in DifficultyNames && CountOf(counts, name) > 0 ==> Slice(name, CountOf(counts, name)) in r)
  {
    Seqs.FilterSubsequence(DifficultySlices(counts), PositiveFn());
  }
}
