/**
 * The solved ledger of App.jsx: company -> question id -> solved flag, as it is restored
 * from the `lc_solved` entry of the browser's key-value store, toggled, and counted.
 */
module Ledger {
  import Seqs
  import Questions

  type SolvedMap = map<string, map<string, bool>>

  /**
   * The `lc_solved` entry as `JSON.parse` sees it: no entry (`getItem` gives null, which
   * parses to null), text that does not parse, text that parses to a falsy value
   * (`null`, `false`, `0`, `""`), or the serialisation of a ledger.
   */
  datatype StoredBlob = Missing | Unparseable | Falsy | Json(ledger: SolvedMap)

  /** The initial `solvedState`: the parsed entry, or the empty ledger when it is absent or corrupt. */
  function Restore(blob: StoredBlob): (l: SolvedMap)
    ensures blob.Json? ==> l == blob.ledger
    ensures !blob.Json? ==> l == map[]
  {
    match blob
    case Json(ledger) => ledger
    case _ => map[]
  }

  /** What `JSON.stringify` writes back for a ledger. */
  function Save(l: SolvedMap): (blob: StoredBlob)
    ensures Restore(blob) == l
  {
    Json(l)
  }

  /** `(solvedState[company] || {})[id]` is truthy. */
  predicate IsSolved(l: SolvedMap, company: string, id: string) {
    company in l && id in l[company] && l[company][id]
  }

  /** The company's sub-map, `{}` when it has none. */
  function SubMap(l: SolvedMap, company: string): map<string, bool> {
    if company in l then l[company] else map[]
  }

  /** The new state `toggleSolved(id)` builds for the selected company. */
  function Toggled(l: SolvedMap, company: string, id: string): (r: SolvedMap)
    ensures IsSolved(r, company, id) == !IsSolved(l, company, id)
    ensures r.Keys == l.Keys + {company}
  {
    l[company := SubMap(l, company)[id := !IsSolved(l, company, id)]]
  }

  /** The toggled entry is negated, an absent entry reading as unsolved. */
  lemma ToggleFlips(l: SolvedMap, company: string, id: string)
    ensures IsSolved(Toggled(l, company, id), company, id) == !IsSolved(l, company, id)
    ensures !IsSolved(l, company, id) ==> IsSolved(Toggled(l, company, id), company, id)
  {
  }

  /**
   * Nothing else changes: other companies keep their sub-maps, the company's sub-map gains
   * at most the key `id`, and every other id keeps its flag.
   */
  lemma ToggleFrame(l: SolvedMap, company: string, id: string)
    ensures var r := Toggled(l, company, id);
      && r.Keys == l.Keys + {company}
      && (forall c :: c in l && c != company ==> r[c] == l[c])
      && r[company].Keys == SubMap(l, company).Keys + {id}
      && (forall i :: i in SubMap(l, company) && i != id ==> r[company][i] == l[company][i])
      && (forall c, i :: (c, i) != (company, id) ==> IsSolved(r, c, i) == IsSolved(l, c, i))
  {
  }

  /** Two toggles give back the original solved-state of every entry. */
  lemma ToggleTwice(l: SolvedMap, company: string, id: string)
    ensures forall c, i :: IsSolved(Toggled(Toggled(l, company, id), company, id), c, i) == IsSolved(l, c, i)
  {
    ToggleFlips(l, company, id);
    ToggleFlips(Toggled(l, company, id), company, id);
    ToggleFrame(l, company, id);
    ToggleFrame(Toggled(l, company, id), company, id);
  }

  function SolvedFn(l: SolvedMap, company: string): Questions.Question -> bool {
    (q: Questions.Question) => IsSolved(l, company, q.id)
  }

  /** `solvedCount`: the loaded rows whose id is marked solved under the company. */
  function SolvedCount(l: SolvedMap, company: string, qs: seq<Questions.Question>): (n: nat)
    ensures n <= |qs|
    ensures company !in l ==> n == 0
  {
    Seqs.FilterEmptyIff(qs, SolvedFn(l, company));
    |Seqs.Filter(qs, SolvedFn(l, company))|
  }

  /** The count is 0 exactly when no loaded row is marked solved, and full exactly when every one is. */
  lemma SolvedCountExtremes(l: SolvedMap, company: string, qs: seq<Questions.Question>)
    ensures SolvedCount(l, company, qs) == 0 <==> forall q :: q in qs ==> !IsSolved(l, company, q.id)
    ensures SolvedCount(l, company, qs) == |qs| <==> forall q :: q in qs ==> IsSolved(l, company, q.id)
  {
    Seqs.FilterEmptyIff(qs, SolvedFn(l, company));
    Seqs.FilterFullIff(qs, SolvedFn(l, company));
  }

  function IdFn(id: string): Questions.Question -> bool {
    (q: Questions.Question) => q.id == id
  }

  /** How many loaded rows carry the id. */
  function Occurrences(qs: seq<Questions.Question>, id: string): nat {
    |Seqs.Filter(qs, IdFn(id))|
  }

  /**
   * Toggling `id` moves the company's progress count by the number of loaded rows with that
   * id: up when it becomes solved, down when it becomes unsolved.
   */
  lemma {:induction false} ToggleMovesCount(l: SolvedMap, company: string, id: string, qs: seq<Questions.Question>)
    ensures var after := SolvedCount(Toggled(l, company, id), company, qs);
      if IsSolved(l, company, id)
      then after + Occurrences(qs, id) == SolvedCount(l, company, qs)
      else after == SolvedCount(l, company, qs) + Occurrences(qs, id)
  {
    if qs != [] {
      ToggleMovesCount(l, company, id, qs[1..]);
      ToggleFrame(l, company, id);
      ToggleFlips(l, company, id);
    }
  }

  /** Toggling under one company leaves every other company's progress count as it was. */
  lemma ToggleKeepsOtherCounts(l: SolvedMap, company: string, id: string, other: string, qs: seq<Questions.Question>)
    requires other != company
    ensures SolvedCount(Toggled(l, company, id), other, qs) == SolvedCount(l, other, qs)
  {
    ToggleFrame(l, company, id);
    Seqs.FilterCongruent(qs, SolvedFn(Toggled(l, company, id), other), SolvedFn(l, other));
  }
}
