/** The request the job list sends for a set of filters
    (src/components/JobListing.tsx): which query parameters are appended, in
    what order, and the URL they are serialized into; and the list's state,
    updated from the response. */
module JobListing {
  import opened Wrappers
  import opened Strings
  import opened UrlEncoding
  import JobCard

  /** The filters the page passes down. A missing key (the default filters are
      the empty object) is `None`; the salary is a pair of integers. */
  datatype JobFilters = JobFilters(
    searchQuery: Option<string>,
    location: Option<string>,
    jobType: Option<string>,
    salary: Option<(int, int)>)

  /** `filters = {} as JobFilters`. */
  const NoFilters := JobFilters(None, None, None, None)

  const BackendUrl: string := "https://job-management-nest-server.onrender.com"

  type Params = seq<(string, string)>

  /** JavaScript truthiness of an optional string: present and not empty. */
  predicate Truthy(s: Option<string>) {
    s.Some? && s.value != ""
  }

  /** The value a truthy filter is sent with, `None` when it is not sent. */
  function Sent(s: Option<string>): Option<string> {
    if Truthy(s) then s else None
  }

  /** The parameter names in the order the filters are appended. */
  const ParamKeys: seq<string> := ["searchQuery", "location", "jobType", "minSalary", "maxSalary"]

  /** Position of a parameter name in `ParamKeys` (5 for any other name). */
  function Rank(key: string): (n: nat)
    ensures n < 5 <==> key in ParamKeys
    ensures n < 5 ==> ParamKeys[n] == key
  {
    if key == "searchQuery" then 0
    else if key == "location" then 1
    else if key == "jobType" then 2
    else if key == "minSalary" then 3
    else if key == "maxSalary" then 4
    else 5
  }

  /** Every name is a known one and names come in the order of `ParamKeys`
      (so none comes twice). */
  predicate InKeyOrder(params: Params) {
    (forall i :: 0 <= i < |params| ==> Rank(params[i].0) < 5)
    && forall i, j :: 0 <= i < j < |params| ==> Rank(params[i].0) < Rank(params[j].0)
  }

  /** `URLSearchParams.get`: the value of the first pair with that name. */
  function Lookup(params: Params, key: string): (r: Option<string>)
    ensures r.Some? <==> exists i :: 0 <= i < |params| && params[i].0 == key
  {
    if params == [] then None
    else if params[0].0 == key then Some(params[0].1)
    else
      var r := Lookup(params[1..], key);
      assert forall i :: 0 < i < |params| ==> params[i] == params[1..][i - 1];
      r
  }

  lemma {:induction false} LookupAppend(a: Params, b: Params, key: string)
    ensures Lookup(a + b, key) == Lookup(a, key).OrElse(Lookup(b, key))
  {
    if a != [] {
      assert (a + b)[1..] == a[1..] + b;
      LookupAppend(a[1..], b, key);
    } else {
      assert a + b == b;
    }
  }

  function TextParam(key: string, value: Option<string>): Params {
    if Truthy(value) then [(key, value.value)] else []
  }

  function SalaryParams(salary: Option<(int, int)>): Params {
    if salary.Some? then
      [("minSalary", IntToString(salary.value.0)), ("maxSalary", IntToString(salary.value.1))]
    else []
  }

  /** Every name in `params` has a rank in `[lo, hi)`. */
  predicate RanksWithin(params: Params, lo: nat, hi: nat) {
    forall i :: 0 <= i < |params| ==> lo <= Rank(params[i].0) < hi
  }

  lemma RankedAppend(x: Params, y: Params, lo: nat, mid: nat, hi: nat)
    requires lo <= mid <= hi
    requires InKeyOrder(x) && RanksWithin(x, lo, mid)
    requires InKeyOrder(y) && RanksWithin(y, mid, hi)
    ensures InKeyOrder(x + y) && RanksWithin(x + y, lo, hi)
  {
    var z := x + y;
    forall i | 0 <= i < |z|
      ensures lo <= Rank(z[i].0) < hi && Rank(z[i].0) < 5
    {
      if i < |x| {
        assert z[i] == x[i];
      } else {
        assert z[i] == y[i - |x|];
      }
    }
    forall i, j | 0 <= i < j < |z|
      ensures Rank(z[i].0) < Rank(z[j].0)
    {
      if j < |x| {
        assert z[i] == x[i] && z[j] == x[j];
      } else if i < |x| {
        assert z[i] == x[i] && z[j] == y[j - |x|];
      } else {
        assert z[i] == y[i - |x|] && z[j] == y[j - |x|];
      }
    }
  }

  lemma TextParamFacts(key: string, value: Option<string>, k: nat)
    requires k < 3 && Rank(key) == k
    ensures InKeyOrder(TextParam(key, value)) && RanksWithin(TextParam(key, value), k, k + 1)
    ensures forall other :: Lookup(TextParam(key, value), other) == if other == key then Sent(value) else None
  {
  }

  lemma SalaryParamsFacts(salary: Option<(int, int)>)
    ensures InKeyOrder(SalaryParams(salary)) && RanksWithin(SalaryParams(salary), 3, 5)
    ensures Lookup(SalaryParams(salary), "minSalary") ==
      (if salary.Some? then Some(IntToString(salary.value.0)) else None)
    ensures Lookup(SalaryParams(salary), "maxSalary") ==
      (if salary.Some? then Some(IntToString(salary.value.1)) else None)
    ensures forall other :: Rank(other) < 3 ==> Lookup(SalaryParams(salary), other) == None
  {
  }

  /** In a list in key order, names are distinct. */
  lemma InKeyOrderDistinct(params: Params)
    requires InKeyOrder(params)
    ensures forall i, j :: 0 <= i < j < |params| ==> params[i].0 != params[j].0
  {
  }

  /** The parameters `fetchJobs` appends for `filters`: the names in their fixed
      order, a text filter sent exactly when it is truthy and with its own
      value, and the salary sent as two adjacent decimal bounds exactly when it
      is present. */
  function QueryParams(filters: JobFilters): (r: Params)
    ensures InKeyOrder(r)
    ensures forall i, j :: 0 <= i < j < |r| ==> r[i].0 != r[j].0
    ensures Lookup(r, "searchQuery") == Sent(filters.searchQuery)
    ensures Lookup(r, "location") == Sent(filters.location)
    ensures Lookup(r, "jobType") == Sent(filters.jobType)
    ensures Lookup(r, "minSalary") ==
      (if filters.salary.Some? then Some(IntToString(filters.salary.value.0)) else None)
    ensures Lookup(r, "maxSalary") ==
      (if filters.salary.Some? then Some(IntToString(filters.salary.value.1)) else None)
    ensures filters.salary.Some? ==>
      |r| >= 2 && r[|r| - 2].0 == "minSalary" && r[|r| - 1].0 == "maxSalary"
  {
    var a := TextParam("searchQuery", filters.searchQuery);
    var b := TextParam("location", filters.location);
    var c := TextParam("jobType", filters.jobType);
    var d := SalaryParams(filters.salary);
    TextParamFacts("searchQuery", filters.searchQuery, 0);
    TextParamFacts("location", filters.location, 1);
    TextParamFacts("jobType", filters.jobType, 2);
    SalaryParamsFacts(filters.salary);
    RankedAppend(a, b, 0, 1, 2);
    RankedAppend(a + b, c, 0, 2, 3);
    RankedAppend(a + b + c, d, 0, 3, 5);
    InKeyOrderDistinct(a + b + c + d);
    LookupAppend(a + b + c, d, "searchQuery");
    LookupAppend(a + b, c, "searchQuery");
    LookupAppend(a, b, "searchQuery");
    LookupAppend(a + b + c, d, "location");
    LookupAppend(a + b, c, "location");
    LookupAppend(a, b, "location");
    LookupAppend(a + b + c, d, "jobType");
    LookupAppend(a + b, c, "jobType");
    LookupAppend(a, b, "jobType");
    LookupAppend(a + b + c, d, "minSalary");
    LookupAppend(a + b, c, "minSalary");
    LookupAppend(a, b, "minSalary");
    LookupAppend(a + b + c, d, "maxSalary");
    LookupAppend(a + b, c, "maxSalary");
    LookupAppend(a, b, "maxSalary");
    a + b + c + d
  }

  /** `queryParams`, built as the component builds it: an empty parameter list
      and one `append` per filter that is set. */
  method BuildQueryParams(filters: JobFilters) returns (params: Params)
    ensures params == QueryParams(filters)
  {
    ghost var a := TextParam("searchQuery", filters.searchQuery);
    ghost var b := TextParam("location", filters.location);
    ghost var c := TextParam("jobType", filters.jobType);
    ghost var d := SalaryParams(filters.salary);
    params := [];
    if Truthy(filters.searchQuery) {
      params := params + [("searchQuery", filters.searchQuery.value)];
    }
    assert params == a;
    if Truthy(filters.location) {
      params := params + [("location", filters.location.value)];
    }
    assert params == a + b;
    if Truthy(filters.jobType) {
      params := params + [("jobType", filters.jobType.value)];
    }
    assert params == a + b + c;
    if filters.salary.Some? {
      params := params + [("minSalary", IntToString(filters.salary.value.0))];
      params := params + [("maxSalary", IntToString(filters.salary.value.1))];
    }
    assert params == a + b + c + d;
  }

  /** `${backendUrl}/jobs?${queryParams.toString()}`. */
  function RequestUrl(params: Params): (url: string)
    ensures |url| >= |BackendUrl| + 6
    ensures url[..|BackendUrl| + 6] == BackendUrl + "/jobs?"
  {
    BackendUrl + "/jobs?" + Serialize(params)
  }

  /** The query part of the request URL reads back as exactly the parameters
      the filters produced, so the server sees each filter as it was set. */
  lemma RequestQueryDecodes(filters: JobFilters)
    ensures var url := RequestUrl(QueryParams(filters));
      Parse(url[|BackendUrl| + 6..]) == Some(QueryParams(filters))
  {
    var params := QueryParams(filters);
    assert RequestUrl(params)[|BackendUrl| + 6..] == Serialize(params);
  }

  /** With the default filters the list asks for every job. */
  lemma NoFiltersUrl()
    ensures RequestUrl(QueryParams(NoFilters)) == "https://job-management-nest-server.onrender.com/jobs?"
  {
    assert QueryParams(NoFilters) == [];
  }

  /** The list's state: the jobs last received and the loading flag. */
  class JobListingState {
    var jobs: seq<JobCard.Job>
    var loading: bool

    constructor ()
      ensures jobs == [] && !loading
    {
      jobs := [];
      loading := false;
    }

    /** One run of `fetchJobs`. `response` is what the GET returned: the job list,
        or `None` when the request failed, in which case the jobs shown stay as
        they were. The URL requested is returned. */
    method FetchJobs(filters: JobFilters, response: Option<seq<JobCard.Job>>) returns (url: string)
      modifies this
      ensures url == RequestUrl(QueryParams(filters))
      ensures jobs == if response.Some? then response.value else old(jobs)
      ensures !loading
    {
      var params := BuildQueryParams(filters);
      url := BackendUrl + "/jobs?" + Serialize(params);
      if response.Some? {
        jobs := response.value;
      }
      loading := false;
    }
  }

  /** Nothing sets the loading flag, so it is false after any run of fetches. */
  method FetchAll(state: JobListingState, runs: seq<(JobFilters, Option<seq<JobCard.Job>>)>)
    requires !state.loading
    modifies state
    ensures !state.loading
  {
    for k := 0 to |runs|
      invariant !state.loading
    {
      var url := state.FetchJobs(runs[k].0, runs[k].1);
    }
  }
}
