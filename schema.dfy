/**
 * The SQLite database of the assistant: six tables (profiles, skills,
 * experience, jobs, job_matches, applications), each a sequence of rows in
 * rowid order with an AUTOINCREMENT counter, and the schema's NOT NULL,
 * CHECK, UNIQUE and FOREIGN KEY constraints as the invariant `Valid`.
 *
 * NOT NULL columns have non-`Option` types; nullable columns are
 * `Option`s.  A JSON-encoded list column holds the list itself: reading
 * back a column written by `json.dumps` gives the same list
 * (`JsonList.ReadListDumps`).  Timestamps and `raw_json` columns are not
 * modelled.
 */
module Schema {
  import opened Wrappers
  import opened Seqs

  /** A row: its rowid and its columns. */
  datatype Row<T> = Row(id: int, cols: T)

  datatype ProfileCols = ProfileCols(
    name: string,
    email: Option<string>,
    phone: Option<string>,
    location: Option<string>,
    summary: Option<string>,
    sourceFile: string)

  datatype SkillCols = SkillCols(
    profileId: int,
    name: string,
    category: Option<string>,
    level: Option<string>,
    years: Option<real>,
    context: Option<string>)

  datatype ExperienceCols = ExperienceCols(
    profileId: int,
    title: string,
    company: string,
    industry: Option<string>,
    startDate: Option<string>,
    endDate: Option<string>,
    responsibilities: seq<string>,
    accomplishments: seq<string>,
    skillsUsed: seq<string>)

  datatype JobCols = JobCols(
    externalId: Option<string>,
    title: string,
    company: string,
    location: Option<string>,
    remote: bool,
    description: Option<string>,
    requirements: seq<string>,
    salaryMin: Option<int>,
    salaryMax: Option<int>,
    applyUrl: Option<string>,
    source: Option<string>,
    postedDate: Option<string>)

  datatype MatchCols = MatchCols(
    profileId: int,
    jobId: int,
    score: real,
    matchedSkills: seq<string>,
    missingSkills: seq<string>,
    notes: Option<string>)

  datatype ApplicationCols = ApplicationCols(
    profileId: int,
    jobId: int,
    status: string,
    notes: Option<string>,
    followUpDate: Option<string>,
    interviewDate: Option<string>,
    interviewNotes: Option<string>)

  /** Why a statement fails (`sqlite3.IntegrityError`); the transaction is then rolled back. */
  datatype DbError = NotNull(column: string) | CheckFailed(column: string) | NotUnique(column: string) | ForeignKeyFailed(column: string)

  /** `CHECK(category IN ('technical', 'soft', 'tool', 'concept'))`; NULL passes a CHECK. */
  predicate CategoryAllowed(v: Option<string>)
  {
    v.None? || v.value in ["technical", "soft", "tool", "concept"]
  }

  /** `CHECK(level IN ('beginner', 'intermediate', 'advanced'))` */
  predicate LevelAllowed(v: Option<string>)
  {
    v.None? || v.value in ["beginner", "intermediate", "advanced"]
  }

  /** `CHECK(status IN ('draft', 'applied', 'interviewing', 'rejected', 'offer'))` */
  predicate StatusAllowed(v: string)
  {
    v in ["draft", "applied", "interviewing", "rejected", "offer"]
  }

  /** The rowids of a table. */
  function Ids<T>(rows: seq<Row<T>>): (ids: set<int>)
    ensures forall r :: r in rows ==> r.id in ids
    decreases |rows|
  {
    if rows == [] then {} else Ids(rows[..|rows| - 1]) + {rows[|rows| - 1].id}
  }

  /** AUTOINCREMENT: rowids are positive, strictly increasing in row order and below the next one to hand out. */
  predicate IdsBelow<T>(rows: seq<Row<T>>, next: int)
  {
    next >= 1
    && (forall i :: 0 <= i < |rows| ==> 1 <= rows[i].id < next)
    && (forall i, j :: 0 <= i < j < |rows| ==> rows[i].id < rows[j].id)
  }

  predicate SkillOk(c: SkillCols, profileIds: set<int>)
  {
    c.profileId in profileIds && CategoryAllowed(c.category) && LevelAllowed(c.level)
  }

  predicate MatchOk(c: MatchCols, profileIds: set<int>, jobIds: set<int>)
  {
    c.profileId in profileIds && c.jobId in jobIds && 0.0 <= c.score <= 100.0
  }

  predicate ApplicationOk(c: ApplicationCols, profileIds: set<int>, jobIds: set<int>)
  {
    c.profileId in profileIds && c.jobId in jobIds && StatusAllowed(c.status)
  }

  /** `external_id TEXT UNIQUE`: no two jobs share a non-NULL external id. */
  predicate ExternalIdsUnique(jobs: seq<Row<JobCols>>)
  {
    forall i, j :: 0 <= i < j < |jobs| && jobs[i].cols.externalId.Some? ==> jobs[i].cols.externalId != jobs[j].cols.externalId
  }

  /** `UNIQUE(profile_id, job_id)` */
  predicate MatchPairsUnique(matches: seq<Row<MatchCols>>)
  {
    forall i, j :: 0 <= i < j < |matches| ==>
      (matches[i].cols.profileId, matches[i].cols.jobId) != (matches[j].cols.profileId, matches[j].cols.jobId)
  }

  /** The contents of the database at one moment. */
  datatype Tables = Tables(
    profiles: seq<Row<ProfileCols>>,
    skills: seq<Row<SkillCols>>,
    experience: seq<Row<ExperienceCols>>,
    jobs: seq<Row<JobCols>>,
    matches: seq<Row<MatchCols>>,
    applications: seq<Row<ApplicationCols>>,
    nextProfileId: int,
    nextSkillId: int,
    nextExperienceId: int,
    nextJobId: int,
    nextMatchId: int,
    nextApplicationId: int)
  {
    /** Every constraint of the schema holds (foreign keys are enforced). */
    predicate Valid()
    {
      IdsBelow(profiles, nextProfileId) && IdsBelow(skills, nextSkillId) && IdsBelow(experience, nextExperienceId)
      && IdsBelow(jobs, nextJobId) && IdsBelow(matches, nextMatchId) && IdsBelow(applications, nextApplicationId)
      && (forall r :: r in skills ==> SkillOk(r.cols, Ids(profiles)))
      && (forall r :: r in experience ==> r.cols.profileId in Ids(profiles))
      && ExternalIdsUnique(jobs)
      && (forall r :: r in matches ==> MatchOk(r.cols, Ids(profiles), Ids(jobs)))
      && MatchPairsUnique(matches)
      && (forall r :: r in applications ==> ApplicationOk(r.cols, Ids(profiles), Ids(jobs)))
    }
  }

  /** The database file: its tables change in place, one statement at a time. */
  class Database {
    var tables: Tables

    predicate Valid()
      reads this
    {
      tables.Valid()
    }

    /** A freshly created database: every table empty. */
    constructor ()
      ensures Valid()
      ensures tables == Tables([], [], [], [], [], [], 1, 1, 1, 1, 1, 1)
    {
      tables := Tables([], [], [], [], [], [], 1, 1, 1, 1, 1, 1);
    }
  }

  // ---------------------------------------------------------------------
  // Rowids

  /** The row with a given rowid, if any (`SELECT * FROM t WHERE id = ?`). */
  function RowIndex<T>(rows: seq<Row<T>>, id: int): (k: int)
    ensures -1 <= k < |rows|
    ensures k >= 0 ==> rows[k].id == id
    ensures k == -1 <==> id !in Ids(rows)
    decreases |rows|
  {
    if rows == [] then -1
    else if rows[|rows| - 1].id == id then |rows| - 1
    else RowIndex(rows[..|rows| - 1], id)
  }

  /** Changing a row's columns does not move any rowid. */
  lemma {:induction false} RowIndexUpdate<T>(rows: seq<Row<T>>, k: int, c: T, id: int)
    requires 0 <= k < |rows|
    ensures RowIndex(rows[k := Row(rows[k].id, c)], id) == RowIndex(rows, id)
    decreases |rows|
  {
    var n := |rows| - 1;
    var rows' := rows[k := Row(rows[k].id, c)];
    assert rows'[n].id == rows[n].id;
    assert RowIndex(rows, id) == if rows[n].id == id then n else RowIndex(rows[..n], id);
    assert RowIndex(rows', id) == if rows'[n].id == id then n else RowIndex(rows'[..n], id);
    if k < n {
      assert rows'[..n] == rows[..n][k := Row(rows[k].id, c)];
      RowIndexUpdate(rows[..n], k, c, id);
    } else {
      assert rows'[..n] == rows[..n];
    }
  }

  lemma IdsAppend<T>(rows: seq<Row<T>>, r: Row<T>)
    ensures Ids(rows + [r]) == Ids(rows) + {r.id}
  {
    assert (rows + [r])[..|rows|] == rows;
  }

  /** A rowid is in the table iff some row carries it. */
  lemma {:induction false} IdsMembers<T>(rows: seq<Row<T>>, id: int)
    ensures id in Ids(rows) <==> exists k :: 0 <= k < |rows| && rows[k].id == id
    decreases |rows|
  {
    if rows != [] {
      var init := rows[..|rows| - 1];
      IdsMembers(init, id);
      if id in Ids(init) {
        var k :| 0 <= k < |init| && init[k].id == id;
        assert rows[k].id == id;
      }
    }
  }

  /** Changing a row's columns keeps the rowids. */
  lemma IdsUpdate<T>(rows: seq<Row<T>>, k: int, c: T)
    requires 0 <= k < |rows|
    ensures Ids(rows[k := Row(rows[k].id, c)]) == Ids(rows)
  {
    var rows' := rows[k := Row(rows[k].id, c)];
    forall id ensures id in Ids(rows') <==> id in Ids(rows) {
      IdsMembers(rows, id);
      IdsMembers(rows', id);
      if id in Ids(rows) {
        var j :| 0 <= j < |rows| && rows[j].id == id;
        assert rows'[j].id == id;
      }
      if id in Ids(rows') {
        var j :| 0 <= j < |rows'| && rows'[j].id == id;
        assert rows[j].id == id;
      }
    }
  }

  /** Inserting a row with the next rowid keeps the AUTOINCREMENT invariant. */
  lemma IdsBelowAppend<T>(rows: seq<Row<T>>, next: int, c: T)
    requires IdsBelow(rows, next)
    ensures IdsBelow(rows + [Row(next, c)], next + 1)
  {
  }

  lemma IdsBelowUpdate<T>(rows: seq<Row<T>>, next: int, k: int, c: T)
    requires IdsBelow(rows, next) && 0 <= k < |rows|
    ensures IdsBelow(rows[k := Row(rows[k].id, c)], next)
  {
  }

  /** A rowid not below the counter is not in the table. */
  lemma IdsBelowFresh<T>(rows: seq<Row<T>>, next: int, id: int)
    requires IdsBelow(rows, next) && id >= next
    ensures id !in Ids(rows)
  {
    IdsMembers(rows, id);
  }

  /** Deleting rows keeps the AUTOINCREMENT invariant. */
  lemma {:induction false} IdsBelowFilter<T>(rows: seq<Row<T>>, next: int, p: Row<T> -> bool)
    requires IdsBelow(rows, next)
    ensures IdsBelow(Filter(rows, p), next)
    decreases |rows|
  {
    if rows != [] {
      var init := rows[..|rows| - 1];
      var x := rows[|rows| - 1];
      assert IdsBelow(init, next);
      IdsBelowFilter(init, next, p);
      var f := Filter(init, p);
      if p(x) {
        forall y | y in f ensures y.id < x.id {
          FilterIn(init, p, y);
          var k :| 0 <= k < |init| && init[k] == y;
          assert rows[k] == y;
        }
        var g := f + [x];
        forall i, j | 0 <= i < j < |g| ensures g[i].id < g[j].id {
          assert g[i] == f[i] && f[i] in f;
          if j < |f| {
            assert g[j] == f[j];
          }
        }
        forall i | 0 <= i < |g| ensures 1 <= g[i].id < next {
          if i < |f| {
            assert g[i] == f[i];
          }
        }
      }
    }
  }

  /** The rowids left after deleting rows are among the old ones. */
  lemma {:induction false} IdsFilter<T>(rows: seq<Row<T>>, p: Row<T> -> bool)
    ensures Ids(Filter(rows, p)) <= Ids(rows)
    ensures forall r :: r in rows && p(r) ==> r.id in Ids(Filter(rows, p))
    decreases |rows|
  {
    if rows != [] {
      var init := rows[..|rows| - 1];
      var x := rows[|rows| - 1];
      IdsFilter(init, p);
      if p(x) {
        IdsAppend(Filter(init, p), x);
      }
      assert rows == init + [x];
    }
  }

  /** A membership quantifier survives a row update when the new row satisfies it too. */
  lemma InUpdate<T>(rows: seq<T>, k: int, v: T, r: T)
    requires 0 <= k < |rows| && r in rows[k := v]
    ensures r in rows || r == v
  {
    var j :| 0 <= j < |rows[k := v]| && rows[k := v][j] == r;
    if j != k {
      assert rows[j] == r;
    }
  }

  /** The rows of every other rowid (`DELETE FROM t WHERE id = ?`). */
  function IdIsNot<T>(id: int): Row<T> -> bool
  {
    (r: Row<T>) => r.id != id
  }

  /** Deleting one rowid removes exactly that rowid. */
  lemma IdsFilterOut<T>(rows: seq<Row<T>>, id: int)
    ensures Ids(Filter(rows, IdIsNot(id))) == Ids(rows) - {id}
  {
    var f := Filter(rows, IdIsNot(id));
    IdsFilter(rows, IdIsNot(id));
    forall x ensures x in Ids(f) <==> x in Ids(rows) && x != id {
      IdsMembers(rows, x);
      IdsMembers(f, x);
      if x in Ids(f) {
        var k :| 0 <= k < |f| && f[k].id == x;
        FilterIn(rows, IdIsNot(id), f[k]);
      }
      if x in Ids(rows) && x != id {
        var k :| 0 <= k < |rows| && rows[k].id == x;
        assert rows[k] in rows;
      }
    }
  }

  /** The first row satisfying `p`, or -1 (`cursor.fetchone()` on a `WHERE` without `ORDER BY`). */
  function FirstWhere<T>(rows: seq<T>, p: T -> bool): (k: int)
    ensures -1 <= k < |rows|
    ensures k >= 0 ==> p(rows[k]) && forall j :: 0 <= j < k ==> !p(rows[j])
    ensures k == -1 ==> forall j :: 0 <= j < |rows| ==> !p(rows[j])
    decreases |rows|
  {
    if rows == [] then -1
    else if p(rows[0]) then 0
    else
      var k := FirstWhere(rows[1..], p);
      if k < 0 then -1 else k + 1
  }

  /** The first row satisfying `p` is determined by `p` alone. */
  lemma FirstWhereIs<T>(rows: seq<T>, p: T -> bool, k: int)
    requires 0 <= k < |rows| && p(rows[k]) && forall j :: 0 <= j < k ==> !p(rows[j])
    ensures FirstWhere(rows, p) == k
  {
  }
}
