/**
 * The job list of the web front end: the criteria filter over stored jobs
 * and the page arithmetic of the paginated list.
 *
 * A stored job's `location` and `company` are `None` when the column is
 * NULL; `.lower()` on such a value raises, which is the error outcome here.
 */
module JobCard {
  import opened Wrappers
  import opened PyText
  import opened Records
  import opened Seqs

  // ---------------------------------------------------------------------
  // Filtering

  /** The text columns a criterion can look at. */
  datatype Field = LocationField | CompanyField

  /** `None.lower()` raised while filtering on this column. */
  datatype FilterError = NullField(field: Field)

  function FieldOf(j: JobData, f: Field): Option<string>
  {
    match f
    case LocationField => j.location
    case CompanyField => j.company
  }

  /** `j.get('remote')` is truthy. */
  function IsRemote(): JobData -> bool
  {
    (j: JobData) => j.remote
  }

  /** `needle.lower() in j[field].lower()` for a present column. */
  predicate Mentions(j: JobData, f: Field, needle: string)
  {
    FieldOf(j, f).Some? && Contains(Lower(FieldOf(j, f).value), Lower(needle))
  }

  function MentionsIn(f: Field, needle: string): JobData -> bool
  {
    (j: JobData) => Mentions(j, f, needle)
  }

  /** Some job has NULL in the column. */
  predicate SomeNull(jobs: seq<JobData>, f: Field)
  {
    exists i :: 0 <= i < |jobs| && FieldOf(jobs[i], f).None?
  }

  /** One comprehension over a text column: it raises on the first NULL, or keeps the mentioning jobs. */
  function ByField(jobs: seq<JobData>, f: Field, needle: string): Result<seq<JobData>, FilterError>
  {
    if SomeNull(jobs, f) then Err(NullField(f)) else Ok(Filter(jobs, MentionsIn(f, needle)))
  }

  /** The company stage, applied only when the company text is truthy. */
  function CompanyStage(jobs: seq<JobData>, company: Option<string>): Result<seq<JobData>, FilterError>
  {
    if Truthy(company) then ByField(jobs, CompanyField, company.value) else Ok(jobs)
  }

  /** The jobs left after the remote stage. */
  function RemoteStage(jobs: seq<JobData>, remoteOnly: bool): seq<JobData>
  {
    if remoteOnly then Filter(jobs, IsRemote()) else jobs
  }

  /** `filter_jobs`: remote, then location, then company, each only when its criterion is active. */
  function FilterJobs(jobs: seq<JobData>, remoteOnly: bool, location: Option<string>, company: Option<string>): Result<seq<JobData>, FilterError>
  {
    var a := RemoteStage(jobs, remoteOnly);
    if Truthy(location) then
      match ByField(a, LocationField, location.value)
      case Err(e) => Err(e)
      case Ok(b) => CompanyStage(b, company)
    else CompanyStage(a, company)
  }

  /** A job satisfies every active criterion. */
  predicate Kept(j: JobData, remoteOnly: bool, location: Option<string>, company: Option<string>)
  {
    && (remoteOnly ==> j.remote)
    && (Truthy(location) ==> Mentions(j, LocationField, location.value))
    && (Truthy(company) ==> Mentions(j, CompanyField, company.value))
  }

  /** With no active criterion the input comes back unchanged. */
  lemma FilterJobsNoCriteria(jobs: seq<JobData>, location: Option<string>, company: Option<string>)
    requires !Truthy(location) && !Truthy(company)
    ensures FilterJobs(jobs, false, location, company) == Ok(jobs)
  {
  }

  /** The filtered jobs are an order-preserving subsequence of the input. */
  lemma FilterJobsSubsequence(jobs: seq<JobData>, remoteOnly: bool, location: Option<string>, company: Option<string>)
    requires FilterJobs(jobs, remoteOnly, location, company).Ok?
    ensures IsSubsequence(FilterJobs(jobs, remoteOnly, location, company).value, jobs)
  {
    var a := RemoteStage(jobs, remoteOnly);
    if remoteOnly {
      FilterSubsequence(jobs, IsRemote());
    } else {
      SubsequenceReflexive(jobs);
    }
    var b := if Truthy(location) then Filter(a, MentionsIn(LocationField, location.value)) else a;
    if Truthy(location) {
      FilterSubsequence(a, MentionsIn(LocationField, location.value));
      SubsequenceTransitive(b, a, jobs);
    }
    if Truthy(company) {
      FilterSubsequence(b, MentionsIn(CompanyField, company.value));
      SubsequenceTransitive(Filter(b, MentionsIn(CompanyField, company.value)), b, jobs);
    }
  }

  /** A job is in the result iff it is in the input and satisfies every active criterion. */
  lemma FilterJobsKeeps(jobs: seq<JobData>, remoteOnly: bool, location: Option<string>, company: Option<string>, x: JobData)
    requires FilterJobs(jobs, remoteOnly, location, company).Ok?
    ensures x in FilterJobs(jobs, remoteOnly, location, company).value <==> x in jobs && Kept(x, remoteOnly, location, company)
  {
    var a := RemoteStage(jobs, remoteOnly);
    if remoteOnly {
      FilterMembers(jobs, IsRemote());
    }
    var b := if Truthy(location) then Filter(a, MentionsIn(LocationField, location.value)) else a;
    if Truthy(location) {
      FilterMembers(a, MentionsIn(LocationField, location.value));
    }
    if Truthy(company) {
      FilterMembers(b, MentionsIn(CompanyField, company.value));
    }
  }

  /** A location criterion raises as soon as a job that passed the remote stage has a NULL location. */
  lemma FilterJobsNullLocation(jobs: seq<JobData>, remoteOnly: bool, location: Option<string>, company: Option<string>, k: int)
    requires Truthy(location) && 0 <= k < |jobs| && jobs[k].location.None? && (remoteOnly ==> jobs[k].remote)
    ensures FilterJobs(jobs, remoteOnly, location, company) == Err(NullField(LocationField))
  {
    var a := RemoteStage(jobs, remoteOnly);
    if remoteOnly {
      FilterMembers(jobs, IsRemote());
    }
    assert jobs[k] in a;
    var i :| 0 <= i < |a| && a[i] == jobs[k];
    assert FieldOf(a[i], LocationField).None?;
  }

  /** An error names an active criterion whose column is NULL in some input job. */
  lemma FilterJobsErrorCause(jobs: seq<JobData>, remoteOnly: bool, location: Option<string>, company: Option<string>)
    requires FilterJobs(jobs, remoteOnly, location, company).Err?
    ensures var f := FilterJobs(jobs, remoteOnly, location, company).error.field;
      && (f == LocationField ==> Truthy(location))
      && (f == CompanyField ==> Truthy(company))
      && SomeNull(jobs, f)
  {
    var e := FilterJobs(jobs, remoteOnly, location, company).error;
    if !SomeNull(jobs, e.field) {
      FilterJobsWithoutNullIn(jobs, remoteOnly, location, company, e.field);
    }
  }

  /** The stage on a column whose values are all present cannot raise. */
  lemma FilterJobsWithoutNullIn(jobs: seq<JobData>, remoteOnly: bool, location: Option<string>, company: Option<string>, f: Field)
    requires !SomeNull(jobs, f)
    ensures FilterJobs(jobs, remoteOnly, location, company) != Err(NullField(f))
  {
    var a := RemoteStage(jobs, remoteOnly);
    if remoteOnly {
      FilterMembers(jobs, IsRemote());
      assert forall i :: 0 <= i < |a| ==> a[i] in jobs;
    }
    var b := if Truthy(location) then Filter(a, MentionsIn(LocationField, location.value)) else a;
    if Truthy(location) {
      FilterMembers(a, MentionsIn(LocationField, location.value));
      assert forall i :: 0 <= i < |b| ==> b[i] in jobs;
    }
  }

  // ---------------------------------------------------------------------
  // Pagination

  /** The highest page the page selector offers. */
  function MaxPage(count: nat, pageSize: nat): nat
    requires pageSize >= 1
  {
    count / pageSize + 1
  }

  /** The jobs shown on `page`: the whole list when it fits on one page, else the slice `[(page-1)*size : (page-1)*size + size]`. */
  function PageOf<T>(jobs: seq<T>, page: int, pageSize: int): (shown: seq<T>)
    requires pageSize >= 1
    requires |jobs| > pageSize ==> 1 <= page <= MaxPage(|jobs|, pageSize)
    ensures |jobs| <= pageSize ==> shown == jobs
    ensures |jobs| > pageSize ==> |shown| <= pageSize
  {
    if |jobs| > pageSize then
      var start := (page - 1) * pageSize;
      Slice(jobs, start, start + pageSize)
    else jobs
  }

  /** Where a selectable page starts: within the list, one page after the previous start. */
  lemma PageStart(count: nat, pageSize: int, page: int)
    requires pageSize >= 1 && 1 <= page <= MaxPage(count, pageSize)
    ensures 0 <= (page - 1) * pageSize <= count
    ensures (page - 1) * pageSize + pageSize == page * pageSize
  {
    assert page - 1 <= count / pageSize;
    MulMonotonic(page - 1, count / pageSize, pageSize);
  }

  lemma MulMonotonic(a: int, b: int, c: nat)
    requires 0 <= a <= b
    ensures a * c <= b * c
  {
  }

  /** The smaller of two numbers. */
  function Min(a: int, b: int): int
  {
    if a <= b then a else b
  }

  /** A page shows the jobs from index (page-1)*size on, no more than one page of them. */
  lemma PageOfSlice<T>(jobs: seq<T>, page: int, pageSize: int)
    requires pageSize >= 1 && |jobs| > pageSize && 1 <= page <= MaxPage(|jobs|, pageSize)
    ensures 0 <= (page - 1) * pageSize <= Min(page * pageSize, |jobs|)
    ensures PageOf(jobs, page, pageSize) == jobs[(page - 1) * pageSize..Min(page * pageSize, |jobs|)]
  {
    PageStart(|jobs|, pageSize, page);
  }

  /** The last selectable page is empty exactly when the count is a multiple of the page size. */
  lemma LastPageEmptyIff<T>(jobs: seq<T>, pageSize: int)
    requires pageSize >= 1 && |jobs| > pageSize
    ensures PageOf(jobs, MaxPage(|jobs|, pageSize), pageSize) == [] <==> |jobs| % pageSize == 0
  {
    var n := |jobs|;
    var start := (MaxPage(n, pageSize) - 1) * pageSize;
    assert start == n / pageSize * pageSize;
    assert n == n / pageSize * pageSize + n % pageSize;
  }

  /** Pages 1 to `k`, one after the other. */
  function PagesUpTo<T>(jobs: seq<T>, pageSize: int, k: nat): seq<T>
    requires pageSize >= 1 && |jobs| > pageSize && k <= MaxPage(|jobs|, pageSize)
  {
    if k == 0 then [] else PagesUpTo(jobs, pageSize, k - 1) + PageOf(jobs, k, pageSize)
  }

  /** The first `k` pages are the first `k * size` jobs (or all of them). */
  lemma {:induction false} PagesUpToPrefix<T>(jobs: seq<T>, pageSize: int, k: nat)
    requires pageSize >= 1 && |jobs| > pageSize && k <= MaxPage(|jobs|, pageSize)
    ensures 0 <= Min(k * pageSize, |jobs|)
    ensures PagesUpTo(jobs, pageSize, k) == jobs[..Min(k * pageSize, |jobs|)]
  {
    if k > 0 {
      PageStart(|jobs|, pageSize, k);
      PagesUpToPrefix(jobs, pageSize, k - 1);
      PageOfSlice(jobs, k, pageSize);
      var start := (k - 1) * pageSize;
      assert Min(start, |jobs|) == start;
      PrefixThenSlice(jobs, start, Min(k * pageSize, |jobs|));
    }
  }

  lemma PrefixThenSlice<T>(s: seq<T>, i: int, j: int)
    requires 0 <= i <= j <= |s|
    ensures s[..i] + s[i..j] == s[..j]
  {
  }

  /** Paging through every selectable page shows every job once, in order. */
  lemma PagesCoverAll<T>(jobs: seq<T>, pageSize: int)
    requires pageSize >= 1 && |jobs| > pageSize
    ensures PagesUpTo(jobs, pageSize, MaxPage(|jobs|, pageSize)) == jobs
  {
    var n := |jobs|;
    var m := MaxPage(n, pageSize);
    PagesUpToPrefix(jobs, pageSize, m);
    PagesReachEnd(n, pageSize);
    assert Min(m * pageSize, n) == n;
  }

  /** The selectable pages together have room for every job. */
  lemma PagesReachEnd(count: nat, pageSize: int)
    requires pageSize >= 1
    ensures MaxPage(count, pageSize) * pageSize > count
  {
    var q := count / pageSize;
    assert (q + 1) * pageSize == q * pageSize + pageSize;
    assert count == q * pageSize + count % pageSize;
  }
}
