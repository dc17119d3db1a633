/** app/admin/results/page.tsx: the list of scratch results with four text
    filters, the query they produce, and local deletion. */
module ResultsPage {
  import opened Wrappers
  import opened Seqs
  import opened Text
  import opened Query
  import opened Types

  /** The four filter boxes, in the order the query lists them. */
  datatype FilterKey = UserId | ScratchCardId | ScratchCardName | PrizeName

  /** The query name of each filter. */
  function KeyName(k: FilterKey): (name: string)
    ensures name != ""
  {
    match k
    case UserId => "user_id"
    case ScratchCardId => "scratch_card_id"
    case ScratchCardName => "scratch_card_name"
    case PrizeName => "prize_name"
  }

  /** No two filters share a query name. */
  lemma KeyNamesDistinct(k: FilterKey, other: FilterKey)
    ensures k != other ==> KeyName(k) != KeyName(other)
  {
    assert |KeyName(UserId)| == 7 && |KeyName(ScratchCardId)| == 15;
    assert |KeyName(ScratchCardName)| == 17 && |KeyName(PrizeName)| == 10;
  }

  datatype Filters = Filters(userId: string, scratchCardId: string, scratchCardName: string, prizeName: string) {
    function Value(k: FilterKey): string {
      match k
      case UserId => userId
      case ScratchCardId => scratchCardId
      case ScratchCardName => scratchCardName
      case PrizeName => prizeName
    }

    /** `{ ...prev, [key]: value }` */
    function With(k: FilterKey, value: string): (f: Filters)
      ensures f.Value(k) == value
      ensures forall other :: other != k ==> f.Value(other) == Value(other)
    {
      match k
      case UserId => this.(userId := value)
      case ScratchCardId => this.(scratchCardId := value)
      case ScratchCardName => this.(scratchCardName := value)
      case PrizeName => this.(prizeName := value)
    }
  }

  const NoFilters: Filters := Filters("", "", "", "")

  /** The pair a search box contributes: its trimmed value under `name`,
      when that is not empty. */
  function TrimmedParam(name: string, value: string): seq<Param> {
    if Trim(value) != "" then [Param(name, Trim(value))] else []
  }

  function FilterParam(filters: Filters, k: FilterKey): seq<Param> {
    TrimmedParam(KeyName(k), filters.Value(k))
  }

  /** The query the filters give: each non-blank filter's trimmed value, in
      the order user_id, scratch_card_id, scratch_card_name, prize_name. */
  function ResultsQuery(filters: Filters): seq<Param> {
    FilterParam(filters, UserId) + FilterParam(filters, ScratchCardId)
    + FilterParam(filters, ScratchCardName) + FilterParam(filters, PrizeName)
  }

  /** `if (value.trim()) params.append(name, value.trim())` */
  method AppendIfNotBlank(params: seq<Param>, name: string, value: string) returns (r: seq<Param>)
    ensures r == params + TrimmedParam(name, value)
  {
    r := params;
    var trimmed := Trim(value);
    if trimmed != "" {
      r := Append(r, name, trimmed);
    }
  }

  /** `fetchResults`' query: appended one filter at a time. */
  method FetchResultsParams(filters: Filters) returns (params: seq<Param>)
    ensures params == ResultsQuery(filters)
  {
    assert KeyName(UserId) == "user_id" && KeyName(ScratchCardId) == "scratch_card_id";
    assert KeyName(ScratchCardName) == "scratch_card_name" && KeyName(PrizeName) == "prize_name";
    params := [];
    params := AppendIfNotBlank(params, "user_id", filters.userId);
    assert params == FilterParam(filters, UserId);
    params := AppendIfNotBlank(params, "scratch_card_id", filters.scratchCardId);
    params := AppendIfNotBlank(params, "scratch_card_name", filters.scratchCardName);
    params := AppendIfNotBlank(params, "prize_name", filters.prizeName);
  }

  /** What reading a name from one filter's contribution gives. */
  lemma GetFilterParam(filters: Filters, k: FilterKey, key: string)
    ensures HasKey(FilterParam(filters, k), key) <==> key == KeyName(k) && !IsBlank(filters.Value(k))
    ensures Get(FilterParam(filters, k), key)
      == if key == KeyName(k) && !IsBlank(filters.Value(k)) then Some(Trim(filters.Value(k))) else None
  {
    if key == KeyName(k) && !IsBlank(filters.Value(k)) {
      assert FilterParam(filters, k)[0].key == key;
    }
  }

  /** Each filter reaches the query exactly when it is not blank, with its
      trimmed value, and the query holds at most one pair per filter. */
  lemma ResultsQueryFilters(filters: Filters, k: FilterKey)
    ensures Get(ResultsQuery(filters), KeyName(k))
      == if IsBlank(filters.Value(k)) then None else Some(Trim(filters.Value(k)))
    ensures |ResultsQuery(filters)| <= 4
  {
    var key := KeyName(k);
    KeyNamesDistinct(k, UserId);
    KeyNamesDistinct(k, ScratchCardId);
    KeyNamesDistinct(k, ScratchCardName);
    KeyNamesDistinct(k, PrizeName);
    GetFilterParam(filters, UserId, key);
    GetFilterParam(filters, ScratchCardId, key);
    GetFilterParam(filters, ScratchCardName, key);
    GetFilterParam(filters, PrizeName, key);
    GetFourParts(FilterParam(filters, UserId), FilterParam(filters, ScratchCardId),
      FilterParam(filters, ScratchCardName), FilterParam(filters, PrizeName), key);
  }

  /** Reading a name from four concatenated parts takes it from the first part that has it. */
  lemma GetFourParts(a: seq<Param>, b: seq<Param>, c: seq<Param>, d: seq<Param>, key: string)
    ensures Get(a + b + c + d, key)
      == if HasKey(a, key) then Get(a, key) else if HasKey(b, key) then Get(b, key)
         else if HasKey(c, key) then Get(c, key) else Get(d, key)
  {
    GetConcat(a, b, key);
    GetConcat(a + b, c, key);
    GetConcat(a + b + c, d, key);
    HasKeyConcat(a, b, key);
    HasKeyConcat(a + b, c, key);
  }

  /** With all filters cleared, the query is empty. */
  lemma ClearedFiltersGiveEmptyQuery()
    ensures ResultsQuery(NoFilters) == []
  {
    assert FilterParam(NoFilters, UserId) == [];
    assert FilterParam(NoFilters, ScratchCardId) == [];
    assert FilterParam(NoFilters, ScratchCardName) == [];
    assert FilterParam(NoFilters, PrizeName) == [];
  }

  /** `results.filter(result => result.id !== resultId)` */
  function WithoutResult(results: seq<ScratchResult>, resultId: string): (r: seq<ScratchResult>)
    ensures |r| <= |results|
    ensures forall x | x in r :: x in results && x.id != resultId
    ensures forall i :: 0 <= i < |results| && results[i].id != resultId ==> results[i] in r
  {
    Filter(results, (x: ScratchResult) => x.id != resultId)
  }

  /** With ids unique, deleting a listed result removes exactly that
      position and keeps the others in order. */
  lemma WithoutResultRemovesOne(results: seq<ScratchResult>, resultId: string, i: nat)
    requires forall a, b :: 0 <= a < b < |results| ==> results[a].id != results[b].id
    requires i < |results| && results[i].id == resultId
    ensures WithoutResult(results, resultId) == results[..i] + results[i + 1..]
  {
    FilterDropsSingle(results, (x: ScratchResult) => x.id != resultId, i);
  }

  class ResultsPage {
    var results: seq<ScratchResult>
    var filters: Filters

    constructor()
      ensures results == [] && filters == NoFilters
    {
      results, filters := [], NoFilters;
    }

    /** `handleFilterChange`: set one filter, leave the other three. */
    method HandleFilterChange(k: FilterKey, value: string)
      modifies this
      ensures filters.Value(k) == value
      ensures forall other :: other != k ==> filters.Value(other) == old(filters).Value(other)
      ensures results == old(results)
    {
      filters := filters.With(k, value);
    }

    /** `handleClearFilters`: empty all four filters. */
    method HandleClearFilters()
      modifies this
      ensures filters == NoFilters
      ensures results == old(results)
    {
      filters := Filters("", "", "", "");
    }

    /** `handleDelete`: after the confirmation and a successful `DELETE`,
        drop the result with that id; a cancelled confirmation or a failed
        request leaves the list as it was. */
    method HandleDelete(resultId: string, confirmed: bool, requestOk: bool)
      modifies this
      ensures confirmed && requestOk ==> results == WithoutResult(old(results), resultId)
      ensures !(confirmed && requestOk) ==> results == old(results)
      ensures filters == old(filters)
    {
      if !confirmed {
        return;
      }
      if requestOk {
        results := Filter(results, (x: ScratchResult) => x.id != resultId);
      }
    }
  }
}
