/**
 * Application tracking: the `applications` table of the database, the
 * status enum, tracking an application per (profile, job) pair, status,
 * interview and follow-up updates, per-status counts and the status
 * filter of the pending follow-ups.
 *
 * Each operation is a method on the `Database`, specified by a function
 * from the old tables to the new ones.  `UPDATE applications ... WHERE
 * id = ?` is one function, `UpdateApplication`, applied to the change each
 * statement makes to the row's columns.
 */
module Tracker {
  import opened Wrappers
  import opened Seqs
  import opened Records
  import opened Schema

  /** `ApplicationStatus` */
  datatype Status = Draft | Applied | Interviewing | Rejected | Offer
  {
    /** The member's value: the text stored in the `status` column, which its CHECK accepts. */
    function Value(): (v: string)
      ensures StatusAllowed(v)
    {
      match this
      case Draft => "draft"
      case Applied => "applied"
      case Interviewing => "interviewing"
      case Rejected => "rejected"
      case Offer => "offer"
    }
  }

  /** The members in definition order, the order the enum iterates in. */
  const AllStatuses: seq<Status> := [Draft, Applied, Interviewing, Rejected, Offer]

  /** `ApplicationStatus(v)`: the member with that value; any other text is a `ValueError`. */
  function StatusOf(v: string): (r: Option<Status>)
    ensures r.Some? <==> StatusAllowed(v)
    ensures r.Some? ==> r.value.Value() == v
  {
    if v == "draft" then Some(Draft)
    else if v == "applied" then Some(Applied)
    else if v == "interviewing" then Some(Interviewing)
    else if v == "rejected" then Some(Rejected)
    else if v == "offer" then Some(Offer)
    else None
  }

  /** Values and members correspond one to one, and the enum lists every member once. */
  lemma StatusValuesRoundTrip(s: Status, s': Status)
    ensures StatusOf(s.Value()) == Some(s)
    ensures s.Value() == s'.Value() ==> s == s'
    ensures s in AllStatuses && Distinct(AllStatuses)
  {
    assert StatusOf(s.Value()) == Some(s);
  }

  // ---------------------------------------------------------------------
  // track_application and get_application

  function PairIs(profileId: int, jobId: int): Row<ApplicationCols> -> bool
  {
    (r: Row<ApplicationCols>) => r.cols.profileId == profileId && r.cols.jobId == jobId
  }

  /** At most one application per (profile, job) pair: the schema does not demand it, `track_application` keeps it. */
  predicate OnePerPair(apps: seq<Row<ApplicationCols>>)
  {
    forall i, j :: 0 <= i < j < |apps| ==>
      (apps[i].cols.profileId, apps[i].cols.jobId) != (apps[j].cols.profileId, apps[j].cols.jobId)
  }

  /** `get_application`: the first application for the pair. */
  function GetApplication(t: Tables, profileId: int, jobId: int): (r: Option<Row<ApplicationCols>>)
    ensures r.Some? ==> r.value in t.applications && r.value.cols.profileId == profileId && r.value.cols.jobId == jobId
    ensures r.None? <==> forall i :: 0 <= i < |t.applications| ==> !PairIs(profileId, jobId)(t.applications[i])
  {
    var k := FirstWhere(t.applications, PairIs(profileId, jobId));
    if k < 0 then None else Some(t.applications[k])
  }

  /** The change `track_application` makes to the pair's application: its status and its notes (even `None`). */
  function TrackChange(status: Status, notes: Option<string>): ApplicationCols -> ApplicationCols
  {
    (c: ApplicationCols) => c.(status := status.Value(), notes := notes)
  }

  /** `track_application`: the pair's application is updated by its rowid; otherwise a new row. */
  function TrackApplicationEffect(t: Tables, profileId: int, jobId: int, status: Status, notes: Option<string>): Result<Tables, DbError>
  {
    var k := FirstWhere(t.applications, PairIs(profileId, jobId));
    if k >= 0 then Ok(UpdateApplication(t, t.applications[k].id, TrackChange(status, notes)))
    else if profileId !in Ids(t.profiles) then Err(ForeignKeyFailed("applications.profile_id"))
    else if jobId !in Ids(t.jobs) then Err(ForeignKeyFailed("applications.job_id"))
    else
      var c := ApplicationCols(profileId, jobId, status.Value(), notes, None, None, None);
      Ok(t.(applications := t.applications + [Row(t.nextApplicationId, c)], nextApplicationId := t.nextApplicationId + 1))
  }

  /** The rowid `track_application` returns. */
  function TrackApplicationResult(t: Tables, profileId: int, jobId: int): int
  {
    var k := FirstWhere(t.applications, PairIs(profileId, jobId));
    if k >= 0 then t.applications[k].id else t.nextApplicationId
  }

  /** Tracking fails only when a new row would name an unknown profile or job. */
  lemma TrackApplicationFails(t: Tables, profileId: int, jobId: int, status: Status, notes: Option<string>)
    ensures TrackApplicationEffect(t, profileId, jobId, status, notes).Err? <==>
      GetApplication(t, profileId, jobId).None? && (profileId !in Ids(t.profiles) || jobId !in Ids(t.jobs))
  {
  }

  /** Inserting an application for a pair that has none keeps every constraint of the schema, and one application per pair. */
  lemma InsertApplicationValid(t: Tables, c: ApplicationCols)
    requires t.Valid() && ApplicationOk(c, Ids(t.profiles), Ids(t.jobs))
    requires forall i :: 0 <= i < |t.applications| ==> !PairIs(c.profileId, c.jobId)(t.applications[i])
    ensures var t' := t.(applications := t.applications + [Row(t.nextApplicationId, c)], nextApplicationId := t.nextApplicationId + 1);
      t'.Valid() && (OnePerPair(t.applications) ==> OnePerPair(t'.applications))
  {
    var apps := t.applications + [Row(t.nextApplicationId, c)];
    IdsBelowAppend(t.applications, t.nextApplicationId, c);
    if OnePerPair(t.applications) {
      forall i, j | 0 <= i < j < |apps|
        ensures (apps[i].cols.profileId, apps[i].cols.jobId) != (apps[j].cols.profileId, apps[j].cols.jobId)
      {
        if j == |t.applications| {
          assert apps[i] == t.applications[i];
          assert !PairIs(c.profileId, c.jobId)(t.applications[i]);
        }
      }
    }
  }

  /** Tracking keeps every constraint of the schema, and never creates a second application for a pair. */
  lemma TrackApplicationValid(t: Tables, profileId: int, jobId: int, status: Status, notes: Option<string>)
    requires t.Valid() && TrackApplicationEffect(t, profileId, jobId, status, notes).Ok?
    ensures var t' := TrackApplicationEffect(t, profileId, jobId, status, notes).value;
      t'.Valid() && (OnePerPair(t.applications) ==> OnePerPair(t'.applications))
  {
    var k := FirstWhere(t.applications, PairIs(profileId, jobId));
    if k >= 0 {
      UpdateApplicationValid(t, t.applications[k].id, TrackChange(status, notes));
    } else {
      InsertApplicationValid(t, ApplicationCols(profileId, jobId, status.Value(), notes, None, None, None));
    }
  }

  /** After tracking, the pair's application is the returned rowid with the given status and notes; tracking the pair again returns the same rowid. */
  lemma TrackApplicationStores(t: Tables, profileId: int, jobId: int, status: Status, notes: Option<string>)
    requires t.Valid() && TrackApplicationEffect(t, profileId, jobId, status, notes).Ok?
    ensures var t' := TrackApplicationEffect(t, profileId, jobId, status, notes).value;
      var id := TrackApplicationResult(t, profileId, jobId);
      var a := GetApplication(t', profileId, jobId);
      a.Some? && a.value.id == id && a.value.cols.status == status.Value() && a.value.cols.notes == notes
      && TrackApplicationResult(t', profileId, jobId) == id
      && |t'.applications| <= |t.applications| + 1
  {
    if FirstWhere(t.applications, PairIs(profileId, jobId)) >= 0 {
      TrackExistingStores(t, profileId, jobId, status, notes);
    } else {
      var c := ApplicationCols(profileId, jobId, status.Value(), notes, None, None, None);
      FirstWhereIs(t.applications + [Row(t.nextApplicationId, c)], PairIs(profileId, jobId), |t.applications|);
    }
  }

  /** The pair's application, updated in place, is still the first for the pair. */
  lemma TrackExistingStores(t: Tables, profileId: int, jobId: int, status: Status, notes: Option<string>)
    requires t.Valid() && FirstWhere(t.applications, PairIs(profileId, jobId)) >= 0
    ensures var k := FirstWhere(t.applications, PairIs(profileId, jobId));
      var t' := UpdateApplication(t, t.applications[k].id, TrackChange(status, notes));
      FirstWhere(t'.applications, PairIs(profileId, jobId)) == k
      && t'.applications[k] == Row(t.applications[k].id, TrackChange(status, notes)(t.applications[k].cols))
      && |t'.applications| == |t.applications|
  {
    var k := FirstWhere(t.applications, PairIs(profileId, jobId));
    var r := t.applications[k];
    var t' := UpdateApplication(t, r.id, TrackChange(status, notes));
    UpdateApplicationRows(t, r.id, TrackChange(status, notes));
    assert t'.applications[k] == Row(r.id, TrackChange(status, notes)(r.cols));
    FirstWhereIs(t'.applications, PairIs(profileId, jobId), k);
  }

  /** `track_application`; returns the application's rowid. */
  method TrackApplication(db: Database, profileId: int, jobId: int, status: Status, notes: Option<string>) returns (r: Result<int, DbError>)
    requires db.Valid()
    modifies db
    ensures db.Valid()
    ensures var e := TrackApplicationEffect(old(db.tables), profileId, jobId, status, notes);
      (e.Ok? ==> r == Ok(TrackApplicationResult(old(db.tables), profileId, jobId)) && db.tables == e.value)
      && (e.Err? ==> r == Err(e.error) && db.tables == old(db.tables))
  {
    var e := TrackApplicationEffect(db.tables, profileId, jobId, status, notes);
    if e.Err? {
      return Err(e.error);
    }
    TrackApplicationValid(db.tables, profileId, jobId, status, notes);
    var id := TrackApplicationResult(db.tables, profileId, jobId);
    db.tables := e.value;
    return Ok(id);
  }

  // ---------------------------------------------------------------------
  // UPDATE applications ... WHERE id = ?

  /** The row with that rowid, if any, gets `change` applied to its columns; nothing else changes. */
  function UpdateApplication(t: Tables, id: int, change: ApplicationCols -> ApplicationCols): Tables
  {
    var k := RowIndex(t.applications, id);
    if k < 0 then t else t.(applications := t.applications[k := Row(id, change(t.applications[k].cols))])
  }

  /** A change to the columns that keeps the profile, the job and an allowed status. */
  ghost predicate KeepsKeys(change: ApplicationCols -> ApplicationCols)
  {
    forall c :: change(c).profileId == c.profileId && change(c).jobId == c.jobId
      && (StatusAllowed(c.status) ==> StatusAllowed(change(c).status))
  }

  /** Every row keeps its place and rowid; the row with that rowid is changed, every other row is as it was. */
  lemma UpdateApplicationRows(t: Tables, id: int, change: ApplicationCols -> ApplicationCols)
    requires t.Valid()
    ensures var t' := UpdateApplication(t, id, change);
      t' == t.(applications := t'.applications)
      && |t'.applications| == |t.applications|
      && forall i :: 0 <= i < |t.applications| ==>
        t'.applications[i] == if t.applications[i].id == id then Row(id, change(t.applications[i].cols)) else t.applications[i]
  {
    var k := RowIndex(t.applications, id);
    if k >= 0 {
      var t' := UpdateApplication(t, id, change);
      forall i | 0 <= i < |t.applications|
        ensures t'.applications[i] == if t.applications[i].id == id then Row(id, change(t.applications[i].cols)) else t.applications[i]
      {
        if i != k {
          assert t.applications[i].id != t.applications[k].id;
        }
      }
    } else {
      IdsMembers(t.applications, id);
    }
  }

  /** A row update that keeps the keys keeps every constraint of the schema, and one application per pair. */
  lemma UpdateApplicationValid(t: Tables, id: int, change: ApplicationCols -> ApplicationCols)
    requires t.Valid() && KeepsKeys(change)
    ensures var t' := UpdateApplication(t, id, change);
      t'.Valid() && (OnePerPair(t.applications) ==> OnePerPair(t'.applications))
  {
    var k := RowIndex(t.applications, id);
    if k >= 0 {
      var t' := UpdateApplication(t, id, change);
      var c := change(t.applications[k].cols);
      assert t'.applications == t.applications[k := Row(t.applications[k].id, c)];
      IdsBelowUpdate(t.applications, t.nextApplicationId, k, c);
      assert t.applications[k] in t.applications;
      forall x | x in t'.applications ensures ApplicationOk(x.cols, Ids(t'.profiles), Ids(t'.jobs)) {
        InUpdate(t.applications, k, Row(t.applications[k].id, c), x);
      }
      if OnePerPair(t.applications) {
        forall i, j | 0 <= i < j < |t'.applications|
          ensures (t'.applications[i].cols.profileId, t'.applications[i].cols.jobId) != (t'.applications[j].cols.profileId, t'.applications[j].cols.jobId)
        {
          assert t'.applications[i].cols.profileId == t.applications[i].cols.profileId;
          assert t'.applications[i].cols.jobId == t.applications[i].cols.jobId;
          assert t'.applications[j].cols.profileId == t.applications[j].cols.profileId;
          assert t'.applications[j].cols.jobId == t.applications[j].cols.jobId;
        }
      }
    }
  }

  // ---------------------------------------------------------------------
  // update_application_status, schedule_interview and set_follow_up

  /** `update_application_status`: the status, and the notes only when the new notes are truthy. */
  function StatusChange(status: Status, notes: Option<string>): ApplicationCols -> ApplicationCols
  {
    (c: ApplicationCols) => c.(status := status.Value(), notes := if Truthy(notes) then notes else c.notes)
  }

  /** `update_application_status`; returns `true` whether or not the rowid exists. */
  method UpdateApplicationStatus(db: Database, id: int, status: Status, notes: Option<string>) returns (ok: bool)
    requires db.Valid()
    modifies db
    ensures db.Valid()
    ensures ok && db.tables == UpdateApplication(old(db.tables), id, StatusChange(status, notes))
  {
    UpdateApplicationValid(db.tables, id, StatusChange(status, notes));
    var k := RowIndex(db.tables.applications, id);
    if k >= 0 {
      var c := db.tables.applications[k].cols;
      var c' := if Truthy(notes) then c.(status := status.Value(), notes := notes) else c.(status := status.Value());
      db.tables := db.tables.(applications := db.tables.applications[k := Row(id, c')]);
    }
    return true;
  }

  /** After a status update the row has the new status; its notes change only to truthy new notes. */
  lemma UpdateStatusSets(t: Tables, id: int, status: Status, notes: Option<string>, i: int)
    requires t.Valid() && 0 <= i < |t.applications| && t.applications[i].id == id
    ensures var after := UpdateApplication(t, id, StatusChange(status, notes)).applications[i].cols;
      var before := t.applications[i].cols;
      after.status == status.Value()
      && (Truthy(notes) ==> after.notes == notes)
      && (!Truthy(notes) ==> after.notes == before.notes)
      && after.followUpDate == before.followUpDate && after.interviewDate == before.interviewDate
      && after.interviewNotes == before.interviewNotes
  {
    UpdateApplicationRows(t, id, StatusChange(status, notes));
  }

  /** `schedule_interview`: the interview date and notes (even `None`), and the status `interviewing`. */
  function InterviewChange(interviewDate: string, interviewNotes: Option<string>): ApplicationCols -> ApplicationCols
  {
    (c: ApplicationCols) => c.(interviewDate := Some(interviewDate), interviewNotes := interviewNotes, status := "interviewing")
  }

  /** `schedule_interview`; returns `true` whether or not the rowid exists. */
  method ScheduleInterview(db: Database, id: int, interviewDate: string, interviewNotes: Option<string>) returns (ok: bool)
    requires db.Valid()
    modifies db
    ensures db.Valid()
    ensures ok && db.tables == UpdateApplication(old(db.tables), id, InterviewChange(interviewDate, interviewNotes))
  {
    UpdateApplicationValid(db.tables, id, InterviewChange(interviewDate, interviewNotes));
    var k := RowIndex(db.tables.applications, id);
    if k >= 0 {
      var c := db.tables.applications[k].cols;
      db.tables := db.tables.(applications := db.tables.applications[k := Row(id,
        c.(interviewDate := Some(interviewDate), interviewNotes := interviewNotes, status := "interviewing"))]);
    }
    return true;
  }

  /** Scheduling an interview puts the application in the interviewing status, whatever it was. */
  lemma ScheduleInterviewSets(t: Tables, id: int, interviewDate: string, interviewNotes: Option<string>, i: int)
    requires t.Valid() && 0 <= i < |t.applications| && t.applications[i].id == id
    ensures var after := UpdateApplication(t, id, InterviewChange(interviewDate, interviewNotes)).applications[i].cols;
      StatusOf(after.status) == Some(Interviewing)
      && after.interviewDate == Some(interviewDate) && after.interviewNotes == interviewNotes
      && after.notes == t.applications[i].cols.notes
  {
    UpdateApplicationRows(t, id, InterviewChange(interviewDate, interviewNotes));
  }

  /** SQL `a || b`: NULL when either side is NULL. */
  function SqlConcat(a: Option<string>, b: Option<string>): Option<string>
  {
    if a.Some? && b.Some? then Some(a.value + b.value) else None
  }

  /** SQL `COALESCE(a, b)` */
  function Coalesce(a: Option<string>, b: Option<string>): Option<string>
  {
    if a.Some? then a else b
  }

  /** `COALESCE(notes || '\n' || ?, ?)`: the new notes appended on a line of their own, or just the new notes when there were none. */
  function AppendedNotes(previous: Option<string>, notes: string): (r: Option<string>)
    ensures previous.None? ==> r == Some(notes)
    ensures previous.Some? ==> r == Some(previous.value + "\n" + notes)
    ensures previous.Some? ==> previous.value <= r.value
  {
    Coalesce(SqlConcat(SqlConcat(previous, Some("\n")), Some(notes)), Some(notes))
  }

  /** `set_follow_up`: the follow-up date, and truthy notes appended to the old ones. */
  function FollowUpChange(followUpDate: string, notes: Option<string>): ApplicationCols -> ApplicationCols
  {
    (c: ApplicationCols) =>
      if Truthy(notes) then c.(followUpDate := Some(followUpDate), notes := AppendedNotes(c.notes, notes.value))
      else c.(followUpDate := Some(followUpDate))
  }

  /** `set_follow_up`; returns `true` whether or not the rowid exists. */
  method SetFollowUp(db: Database, id: int, followUpDate: string, notes: Option<string>) returns (ok: bool)
    requires db.Valid()
    modifies db
    ensures db.Valid()
    ensures ok && db.tables == UpdateApplication(old(db.tables), id, FollowUpChange(followUpDate, notes))
  {
    UpdateApplicationValid(db.tables, id, FollowUpChange(followUpDate, notes));
    var k := RowIndex(db.tables.applications, id);
    if k >= 0 {
      var c := db.tables.applications[k].cols;
      var c' := if Truthy(notes) then c.(followUpDate := Some(followUpDate), notes := AppendedNotes(c.notes, notes.value))
        else c.(followUpDate := Some(followUpDate));
      db.tables := db.tables.(applications := db.tables.applications[k := Row(id, c')]);
    }
    return true;
  }

  /** A follow-up never loses notes: old notes stay at the front, and notes change only with truthy new notes. */
  lemma FollowUpKeepsNotes(t: Tables, id: int, followUpDate: string, notes: Option<string>, i: int)
    requires t.Valid() && 0 <= i < |t.applications| && t.applications[i].id == id
    ensures var after := UpdateApplication(t, id, FollowUpChange(followUpDate, notes)).applications[i].cols;
      var before := t.applications[i].cols;
      after.followUpDate == Some(followUpDate) && after.status == before.status
      && (!Truthy(notes) ==> after.notes == before.notes)
      && (Truthy(notes) ==> after.notes.Some? && (before.notes.Some? ==> before.notes.value <= after.notes.value))
  {
    UpdateApplicationRows(t, id, FollowUpChange(followUpDate, notes));
  }

  // ---------------------------------------------------------------------
  // get_application_stats

  /** The statuses of the profile's applications, in rowid order. */
  function StatusesOf(apps: seq<Row<ApplicationCols>>, profileId: int): (r: seq<string>)
    ensures |r| <= |apps|
    decreases |apps|
  {
    if apps == [] then []
    else
      var r := apps[|apps| - 1];
      StatusesOf(apps[..|apps| - 1], profileId) + (if r.cols.profileId == profileId then [r.cols.status] else [])
  }

  /** How many times a status occurs in a list of statuses. */
  function CountOf(sts: seq<string>, v: string): (n: nat)
    ensures n <= |sts|
    ensures n == 0 <==> v !in sts
    decreases |sts|
  {
    if sts == [] then 0
    else
      assert sts == sts[..|sts| - 1] + [sts[|sts| - 1]];
      CountOf(sts[..|sts| - 1], v) + if sts[|sts| - 1] == v then 1 else 0
  }

  lemma {:induction false} CountOfAppend(a: seq<string>, b: seq<string>, v: string)
    ensures CountOf(a + b, v) == CountOf(a, v) + CountOf(b, v)
    decreases |b|
  {
    if b != [] {
      assert (a + b)[..|a + b| - 1] == a + b[..|b| - 1];
      CountOfAppend(a, b[..|b| - 1], v);
    } else {
      assert a + b == a;
    }
  }

  /** `SELECT status, COUNT(*) ... GROUP BY status`: one group per status present, with its count (groups in order of first appearance). */
  function StatusGroups(apps: seq<Row<ApplicationCols>>, profileId: int): (g: seq<(string, int)>)
    ensures var sts := StatusesOf(apps, profileId);
      (forall i :: 0 <= i < |g| ==> g[i].0 in sts && g[i].1 == CountOf(sts, g[i].0))
      && (forall v :: v in sts ==> exists i :: 0 <= i < |g| && g[i].0 == v)
    ensures forall i, j :: 0 <= i < j < |g| ==> g[i].0 != g[j].0
  {
    var sts := StatusesOf(apps, profileId);
    var keys := Dedupe(sts);
    DedupeMembers(sts);
    DedupeDistinct(sts);
    var g := seq(|keys|, i requires 0 <= i < |keys| => (keys[i], CountOf(sts, keys[i])));
    assert forall v :: v in sts ==> exists i :: 0 <= i < |g| && g[i].0 == v by {
      forall v | v in sts ensures exists i :: 0 <= i < |g| && g[i].0 == v {
        var i :| 0 <= i < |keys| && keys[i] == v;
        assert g[i].0 == v;
      }
    }
    g
  }

  function OfProfile(profileId: int): Row<ApplicationCols> -> bool
  {
    (r: Row<ApplicationCols>) => r.cols.profileId == profileId
  }

  function OfProfileWithStatus(profileId: int, status: string): Row<ApplicationCols> -> bool
  {
    (r: Row<ApplicationCols>) => r.cols.profileId == profileId && r.cols.status == status
  }

  /** The statuses list counts the profile's applications, per status and in all. */
  lemma {:induction false} StatusesCount(apps: seq<Row<ApplicationCols>>, profileId: int, v: string)
    ensures CountOf(StatusesOf(apps, profileId), v) == |Filter(apps, OfProfileWithStatus(profileId, v))|
    ensures |StatusesOf(apps, profileId)| == |Filter(apps, OfProfile(profileId))|
    decreases |apps|
  {
    if apps != [] {
      var r := apps[|apps| - 1];
      StatusesCount(apps[..|apps| - 1], profileId, v);
      CountOfAppend(StatusesOf(apps[..|apps| - 1], profileId), if r.cols.profileId == profileId then [r.cols.status] else [], v);
      var one: seq<string> := [r.cols.status];
      assert one[..0] == [];
    }
  }

  /** The profile's statuses are all allowed ones, when the schema holds. */
  lemma {:induction false} StatusesAllowed(apps: seq<Row<ApplicationCols>>, profileId: int, ids: set<int>, jobIds: set<int>)
    requires forall r :: r in apps ==> ApplicationOk(r.cols, ids, jobIds)
    ensures forall v :: v in StatusesOf(apps, profileId) ==> StatusAllowed(v)
    decreases |apps|
  {
    if apps != [] {
      assert apps[|apps| - 1] in apps;
      StatusesAllowed(apps[..|apps| - 1], profileId, ids, jobIds);
    }
  }

  /** Five counts of allowed statuses add up to the number of statuses. */
  lemma {:induction false} CountsAddUp(sts: seq<string>)
    requires forall v :: v in sts ==> StatusAllowed(v)
    ensures CountOf(sts, "draft") + CountOf(sts, "applied") + CountOf(sts, "interviewing") + CountOf(sts, "rejected") + CountOf(sts, "offer") == |sts|
    decreases |sts|
  {
    if sts != [] {
      var init := sts[..|sts| - 1];
      assert sts[|sts| - 1] in sts;
      assert forall v :: v in init ==> v in sts;
      CountsAddUp(init);
    }
  }

  /** `sum(stats.values())` over the status keys, in enum order. */
  function SumOver(stats: map<string, int>, statuses: seq<Status>): int
    requires forall s :: s in statuses ==> s.Value() in stats
    decreases |statuses|
  {
    if statuses == [] then 0
    else SumOver(stats, statuses[..|statuses| - 1]) + stats[statuses[|statuses| - 1].Value()]
  }

  /** The status keys of the statistics: one per member. */
  function StatusKeys(): set<string>
  {
    {"draft", "applied", "interviewing", "rejected", "offer"}
  }

  lemma SumOverSnoc(stats: map<string, int>, statuses: seq<Status>, s: Status)
    requires forall x :: x in statuses + [s] ==> x.Value() in stats
    ensures SumOver(stats, statuses + [s]) == SumOver(stats, statuses) + stats[s.Value()]
  {
    assert (statuses + [s])[..|statuses|] == statuses;
  }

  /** The sum over the enum is the sum of the five status counts. */
  lemma SumOverAll(stats: map<string, int>)
    requires StatusKeys() <= stats.Keys
    ensures SumOver(stats, AllStatuses) == stats["draft"] + stats["applied"] + stats["interviewing"] + stats["rejected"] + stats["offer"]
  {
    var none: seq<Status> := [];
    SumOverSnoc(stats, none, Draft);
    assert none + [Draft] == [Draft];
    SumOverSnoc(stats, [Draft], Applied);
    assert [Draft] + [Applied] == [Draft, Applied];
    SumOverSnoc(stats, [Draft, Applied], Interviewing);
    assert [Draft, Applied] + [Interviewing] == [Draft, Applied, Interviewing];
    SumOverSnoc(stats, [Draft, Applied, Interviewing], Rejected);
    assert [Draft, Applied, Interviewing] + [Rejected] == [Draft, Applied, Interviewing, Rejected];
    SumOverSnoc(stats, [Draft, Applied, Interviewing, Rejected], Offer);
    assert [Draft, Applied, Interviewing, Rejected] + [Offer] == AllStatuses;
  }

  /** Per-status counts of the profile's statuses, plus their sum as `total`, are the statistics promised. */
  lemma StatsComplete(t: Tables, profileId: int, counts: map<string, int>, total: int)
    requires t.Valid() && counts.Keys == StatusKeys()
    requires forall v :: v in counts ==> counts[v] == CountOf(StatusesOf(t.applications, profileId), v)
    requires total == SumOver(counts, AllStatuses)
    ensures var stats := counts["total" := total];
      stats.Keys == StatusKeys() + {"total"}
      && (forall s: Status :: stats[s.Value()] == |Filter(t.applications, OfProfileWithStatus(profileId, s.Value()))|)
      && stats["total"] == |Filter(t.applications, OfProfile(profileId))|
  {
    StatsTotal(t, profileId, counts, total);
    forall s: Status ensures counts[s.Value()] == |Filter(t.applications, OfProfileWithStatus(profileId, s.Value()))| {
      StatusesCount(t.applications, profileId, s.Value());
    }
  }

  /** The sum of the per-status counts is the number of the profile's applications. */
  lemma StatsTotal(t: Tables, profileId: int, counts: map<string, int>, total: int)
    requires t.Valid() && counts.Keys == StatusKeys()
    requires forall v :: v in counts ==> counts[v] == CountOf(StatusesOf(t.applications, profileId), v)
    requires total == SumOver(counts, AllStatuses)
    ensures total == |Filter(t.applications, OfProfile(profileId))|
  {
    var sts := StatusesOf(t.applications, profileId);
    StatusesAllowed(t.applications, profileId, Ids(t.profiles), Ids(t.jobs));
    SumOverAll(counts);
    CountsAddUp(sts);
    StatusesCount(t.applications, profileId, "total");
  }

  /** `for row in cursor.fetchall(): stats[row['status']] = row['count']`: each group's count written over the defaults. */
  method WriteGroups(defaults: map<string, int>, groups: seq<(string, int)>) returns (stats: map<string, int>)
    requires forall i :: 0 <= i < |groups| ==> groups[i].0 in defaults
    requires forall i, j :: 0 <= i < j < |groups| ==> groups[i].0 != groups[j].0
    ensures stats.Keys == defaults.Keys
    ensures forall i :: 0 <= i < |groups| ==> stats[groups[i].0] == groups[i].1
    ensures forall v :: v in stats && (forall i :: 0 <= i < |groups| ==> groups[i].0 != v) ==> stats[v] == defaults[v]
  {
    stats := defaults;
    var i := 0;
    while i < |groups|
      invariant 0 <= i <= |groups|
      invariant stats.Keys == defaults.Keys
      invariant forall j :: 0 <= j < i ==> stats[groups[j].0] == groups[j].1
      invariant forall v :: v in stats && (forall j :: 0 <= j < i ==> groups[j].0 != v) ==> stats[v] == defaults[v]
    {
      stats := stats[groups[i].0 := groups[i].1];
      i := i + 1;
    }
  }

  /** `sum(stats.values())`, the values taken in enum order. */
  method SumStatuses(stats: map<string, int>) returns (total: int)
    requires forall s: Status :: s.Value() in stats
    ensures total == SumOver(stats, AllStatuses)
  {
    total := 0;
    var j := 0;
    while j < |AllStatuses|
      invariant 0 <= j <= |AllStatuses|
      invariant total == SumOver(stats, AllStatuses[..j])
    {
      assert AllStatuses[..j + 1][..j] == AllStatuses[..j];
      total := total + stats[AllStatuses[j].Value()];
      j := j + 1;
    }
    assert AllStatuses[..j] == AllStatuses;
  }

  /** The counts written from the groups are the per-status counts of the profile's statuses. */
  lemma StatsFromGroups(sts: seq<string>, groups: seq<(string, int)>, defaults: map<string, int>, stats: map<string, int>)
    requires forall i :: 0 <= i < |groups| ==> groups[i].0 in sts && groups[i].1 == CountOf(sts, groups[i].0)
    requires forall v :: v in sts ==> exists i :: 0 <= i < |groups| && groups[i].0 == v
    requires forall v :: v in defaults ==> defaults[v] == 0
    requires stats.Keys == defaults.Keys
    requires forall i :: 0 <= i < |groups| ==> groups[i].0 in stats && stats[groups[i].0] == groups[i].1
    requires forall v :: v in stats && (forall i :: 0 <= i < |groups| ==> groups[i].0 != v) ==> stats[v] == defaults[v]
    ensures forall v :: v in stats ==> stats[v] == CountOf(sts, v)
  {
    forall v | v in stats ensures stats[v] == CountOf(sts, v) {
      if v in sts {
        var i :| 0 <= i < |groups| && groups[i].0 == v;
      }
    }
  }

  /** `get_application_stats`: every status (0 when it has no application), and the total. */
  method GetApplicationStats(db: Database, profileId: int) returns (stats: map<string, int>)
    requires db.Valid()
    ensures stats.Keys == StatusKeys() + {"total"}
    ensures forall s: Status :: stats[s.Value()] == |Filter(db.tables.applications, OfProfileWithStatus(profileId, s.Value()))|
    ensures stats["total"] == |Filter(db.tables.applications, OfProfile(profileId))|
  {
    var apps := db.tables.applications;
    var sts := StatusesOf(apps, profileId);
    var groups := StatusGroups(apps, profileId);
    StatusesAllowed(apps, profileId, Ids(db.tables.profiles), Ids(db.tables.jobs));
    var zeros := map["draft" := 0, "applied" := 0, "interviewing" := 0, "rejected" := 0, "offer" := 0];
    assert zeros.Keys == StatusKeys();
    var counts := WriteGroups(zeros, groups);
    StatsFromGroups(sts, groups, zeros, counts);
    var total := SumStatuses(counts);
    StatsComplete(db.tables, profileId, counts, total);
    stats := counts["total" := total];
  }

  // ---------------------------------------------------------------------
  // get_pending_follow_ups

  /**
   * `WHERE a.profile_id = ? AND a.follow_up_date IS NOT NULL AND DATE(a.follow_up_date) <= DATE('now')
   * AND a.status NOT IN ('rejected', 'offer')`, joined with the jobs; `due` is the date comparison with today.
   */
  function FollowUpPending(profileId: int, jobIds: set<int>, due: string -> bool): Row<ApplicationCols> -> bool
  {
    (r: Row<ApplicationCols>) =>
      r.cols.jobId in jobIds && r.cols.profileId == profileId && r.cols.followUpDate.Some? && due(r.cols.followUpDate.value)
      && r.cols.status != "rejected" && r.cols.status != "offer"
  }

  /** `get_pending_follow_ups`, in rowid order. */
  function PendingFollowUps(t: Tables, profileId: int, due: string -> bool): seq<Row<ApplicationCols>>
  {
    Filter(t.applications, FollowUpPending(profileId, Ids(t.jobs), due))
  }

  /** Pending follow-ups are all and only the profile's due follow-ups of applications neither rejected nor with an offer. */
  lemma PendingFollowUpsAre(t: Tables, profileId: int, due: string -> bool)
    requires t.Valid()
    ensures forall r :: r in PendingFollowUps(t, profileId, due) <==>
      r in t.applications && r.cols.profileId == profileId && r.cols.followUpDate.Some? && due(r.cols.followUpDate.value)
      && r.cols.status != Rejected.Value() && r.cols.status != Offer.Value()
  {
    var p := FollowUpPending(profileId, Ids(t.jobs), due);
    assert PendingFollowUps(t, profileId, due) == Filter(t.applications, p);
    forall r | r in t.applications && r.cols.profileId == profileId && r.cols.followUpDate.Some? && due(r.cols.followUpDate.value)
      && r.cols.status != Rejected.Value() && r.cols.status != Offer.Value()
      ensures r in PendingFollowUps(t, profileId, due)
    {
      assert ApplicationOk(r.cols, Ids(t.profiles), Ids(t.jobs));
      assert p(r);
      FilterMembers(t.applications, p);
    }
    forall r | r in PendingFollowUps(t, profileId, due)
      ensures r in t.applications && r.cols.profileId == profileId && r.cols.followUpDate.Some? && due(r.cols.followUpDate.value)
      && r.cols.status != Rejected.Value() && r.cols.status != Offer.Value()
    {
      FilterIn(t.applications, p, r);
    }
  }

  /** Rejecting an application takes it off the pending follow-ups. */
  lemma RejectedNotPending(t: Tables, id: int, notes: Option<string>, profileId: int, due: string -> bool)
    requires t.Valid()
    ensures var t' := UpdateApplication(t, id, StatusChange(Rejected, notes));
      forall r :: r in PendingFollowUps(t', profileId, due) ==> r.id != id
  {
    var t' := UpdateApplication(t, id, StatusChange(Rejected, notes));
    UpdateApplicationRows(t, id, StatusChange(Rejected, notes));
    forall r | r in PendingFollowUps(t', profileId, due) ensures r.id != id {
      FilterIn(t'.applications, FollowUpPending(profileId, Ids(t'.jobs), due), r);
      var i :| 0 <= i < |t'.applications| && t'.applications[i] == r;
      assert r.cols.status != "rejected";
      assert t.applications[i].id != id;
    }
  }
}
