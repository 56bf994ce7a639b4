/**
 * The profile, job and match statements of the database layer.  Each
 * operation is a method on the `Database` that runs inside one
 * transaction: when a statement violates a constraint the whole
 * transaction is rolled back and the error is returned.  Each method is
 * specified by a function from the old tables to the new ones, and the
 * properties (the schema invariant, read-back, upsert-by-key, cascades)
 * are proved about those functions.
 */
module Queries {
  import opened Wrappers
  import opened Records
  import opened Seqs
  import opened Schema

  // ---------------------------------------------------------------------
  // Rows built from the dictionaries

  /** The columns of a `profiles` row: `name` is NOT NULL. */
  function ProfileColsOf(p: ProfileData, sourceFile: string): (r: Result<ProfileCols, DbError>)
    ensures r.Err? <==> !p.name.Given?
    ensures r.Err? ==> r.error == NotNull("profiles.name")
    ensures r.Ok? ==> r.value.name == p.name.value && r.value.sourceFile == sourceFile
  {
    match p.name.Get()
    case None => Err(NotNull("profiles.name"))
    case Some(name) => Ok(ProfileCols(name, p.email.Get(), p.phone.Get(), p.location.Get(), p.summary.Get(), sourceFile))
  }

  /** The columns of a `skills` row: `name` is NOT NULL, `category` and `level` are CHECKed. */
  function SkillColsOf(profileId: int, s: SkillData): (r: Result<SkillCols, DbError>)
    ensures r.Ok? <==> s.name.Given? && CategoryAllowed(s.category.Get()) && LevelAllowed(s.level.Get())
    ensures r.Ok? ==> r.value.profileId == profileId && SkillOk(r.value, {profileId})
  {
    if !s.name.Given? then Err(NotNull("skills.name"))
    else if !CategoryAllowed(s.category.Get()) then Err(CheckFailed("skills.category"))
    else if !LevelAllowed(s.level.Get()) then Err(CheckFailed("skills.level"))
    else Ok(SkillCols(profileId, s.name.value, s.category.Get(), s.level.Get(), s.years.Get(), s.context.Get()))
  }

  function SkillColsFor(profileId: int): SkillData -> Result<SkillCols, DbError>
  {
    (s: SkillData) => SkillColsOf(profileId, s)
  }

  /** The columns of an `experience` row: `title` and `company` are NOT NULL. */
  function ExperienceColsOf(profileId: int, e: ExperienceData): (r: Result<ExperienceCols, DbError>)
    ensures r.Ok? <==> e.title.Given? && e.company.Given?
    ensures r.Ok? ==> r.value.profileId == profileId
  {
    if !e.title.Given? then Err(NotNull("experience.title"))
    else if !e.company.Given? then Err(NotNull("experience.company"))
    else Ok(ExperienceCols(profileId, e.title.value, e.company.value, e.industry.Get(), e.startDate.Get(), e.endDate.Get(),
      e.responsibilities, e.accomplishments, e.skillsUsed))
  }

  function ExperienceColsFor(profileId: int): ExperienceData -> Result<ExperienceCols, DbError>
  {
    (e: ExperienceData) => ExperienceColsOf(profileId, e)
  }

  /** The rows one `INSERT` per item adds, with consecutive rowids, or the first item's error. */
  function RowsOf<S, T>(firstId: int, items: seq<S>, colsOf: S -> Result<T, DbError>): Result<seq<Row<T>>, DbError>
    decreases |items|
  {
    if items == [] then Ok([])
    else
      match RowsOf(firstId, items[..|items| - 1], colsOf)
      case Err(e) => Err(e)
      case Ok(rows) =>
        match colsOf(items[|items| - 1])
        case Err(e) => Err(e)
        case Ok(c) => Ok(rows + [Row(firstId + |items| - 1, c)])
  }

  /** The rows are the items' columns, in order, with rowids counting up from `firstId`; this happens iff no item fails. */
  lemma {:induction false} RowsOfOk<S, T>(firstId: int, items: seq<S>, colsOf: S -> Result<T, DbError>)
    ensures RowsOf(firstId, items, colsOf).Ok? <==> forall k :: 0 <= k < |items| ==> colsOf(items[k]).Ok?
    ensures RowsOf(firstId, items, colsOf).Ok? ==>
      var rows := RowsOf(firstId, items, colsOf).value;
      |rows| == |items| && forall k :: 0 <= k < |items| ==> rows[k] == Row(firstId + k, colsOf(items[k]).value)
    decreases |items|
  {
    if items != [] {
      var init := items[..|items| - 1];
      RowsOfOk(firstId, init, colsOf);
      assert forall k :: 0 <= k < |init| ==> init[k] == items[k];
    }
  }

  /** Once an item fails, later items do not change the error. */
  lemma {:induction false} RowsOfErrStays<S, T>(firstId: int, items: seq<S>, n: nat, colsOf: S -> Result<T, DbError>)
    requires n <= |items| && RowsOf(firstId, items[..n], colsOf).Err?
    ensures RowsOf(firstId, items, colsOf) == RowsOf(firstId, items[..n], colsOf)
    decreases |items|
  {
    if n < |items| {
      var init := items[..|items| - 1];
      assert init[..n] == items[..n];
      RowsOfErrStays(firstId, init, n, colsOf);
    } else {
      assert items[..n] == items;
    }
  }

  /** Every inserted skill row belongs to the profile and passes the CHECKs. */
  lemma SkillRowsOk(profileId: int, firstId: int, skills: seq<SkillData>)
    requires RowsOf(firstId, skills, SkillColsFor(profileId)).Ok?
    ensures var rows := RowsOf(firstId, skills, SkillColsFor(profileId)).value;
      forall r :: r in rows ==> r.cols.profileId == profileId && SkillOk(r.cols, {profileId})
  {
    RowsOfOk(firstId, skills, SkillColsFor(profileId));
  }

  lemma ExperienceRowsOk(profileId: int, firstId: int, experience: seq<ExperienceData>)
    requires RowsOf(firstId, experience, ExperienceColsFor(profileId)).Ok?
    ensures var rows := RowsOf(firstId, experience, ExperienceColsFor(profileId)).value;
      forall r :: r in rows ==> r.cols.profileId == profileId
  {
    RowsOfOk(firstId, experience, ExperienceColsFor(profileId));
  }

  /** Rows with consecutive rowids from the counter keep the AUTOINCREMENT invariant. */
  lemma IdsBelowAppendRun<T>(rows: seq<Row<T>>, next: int, added: seq<Row<T>>)
    requires IdsBelow(rows, next)
    requires forall k :: 0 <= k < |added| ==> added[k].id == next + k
    ensures IdsBelow(rows + added, next + |added|)
  {
  }

  lemma RowsOfIds<S, T>(rows: seq<Row<T>>, next: int, items: seq<S>, colsOf: S -> Result<T, DbError>)
    requires IdsBelow(rows, next) && RowsOf(next, items, colsOf).Ok?
    ensures IdsBelow(rows + RowsOf(next, items, colsOf).value, next + |items|)
  {
    RowsOfOk(next, items, colsOf);
    IdsBelowAppendRun(rows, next, RowsOf(next, items, colsOf).value);
  }

  // ---------------------------------------------------------------------
  // The insert loops

  /** The skill INSERT loop of `store_profile` and `update_profile`; on an error the caller rolls back. */
  method InsertSkills(db: Database, profileId: int, skills: seq<SkillData>) returns (err: Option<DbError>)
    modifies db
    ensures var rows := RowsOf(old(db.tables.nextSkillId), skills, SkillColsFor(profileId));
      (err.None? <==> rows.Ok?) && (err.Some? ==> rows == Err(err.value))
      && (rows.Ok? ==> db.tables == old(db.tables).(skills := old(db.tables.skills) + rows.value, nextSkillId := old(db.tables.nextSkillId) + |skills|))
  {
    var first := db.tables.nextSkillId;
    var i := 0;
    while i < |skills|
      invariant 0 <= i <= |skills|
      invariant RowsOf(first, skills[..i], SkillColsFor(profileId)).Ok?
      invariant db.tables == old(db.tables).(skills := old(db.tables.skills) + RowsOf(first, skills[..i], SkillColsFor(profileId)).value, nextSkillId := first + i)
    {
      var c := SkillColsOf(profileId, skills[i]);
      assert skills[..i + 1][..i] == skills[..i];
      if c.Err? {
        RowsOfErrStays(first, skills, i + 1, SkillColsFor(profileId));
        return Some(c.error);
      }
      db.tables := db.tables.(skills := db.tables.skills + [Row(db.tables.nextSkillId, c.value)], nextSkillId := db.tables.nextSkillId + 1);
      i := i + 1;
    }
    assert skills[..i] == skills;
    return None;
  }

  /** The experience INSERT loop of `store_profile` and `update_profile`; on an error the caller rolls back. */
  method InsertExperience(db: Database, profileId: int, experience: seq<ExperienceData>) returns (err: Option<DbError>)
    modifies db
    ensures var rows := RowsOf(old(db.tables.nextExperienceId), experience, ExperienceColsFor(profileId));
      (err.None? <==> rows.Ok?) && (err.Some? ==> rows == Err(err.value))
      && (rows.Ok? ==> db.tables == old(db.tables).(experience := old(db.tables.experience) + rows.value, nextExperienceId := old(db.tables.nextExperienceId) + |experience|))
  {
    var first := db.tables.nextExperienceId;
    var i := 0;
    while i < |experience|
      invariant 0 <= i <= |experience|
      invariant RowsOf(first, experience[..i], ExperienceColsFor(profileId)).Ok?
      invariant db.tables == old(db.tables).(experience := old(db.tables.experience) + RowsOf(first, experience[..i], ExperienceColsFor(profileId)).value, nextExperienceId := first + i)
    {
      var c := ExperienceColsOf(profileId, experience[i]);
      assert experience[..i + 1][..i] == experience[..i];
      if c.Err? {
        RowsOfErrStays(first, experience, i + 1, ExperienceColsFor(profileId));
        return Some(c.error);
      }
      db.tables := db.tables.(experience := db.tables.experience + [Row(db.tables.nextExperienceId, c.value)], nextExperienceId := db.tables.nextExperienceId + 1);
      i := i + 1;
    }
    assert experience[..i] == experience;
    return None;
  }

  // ---------------------------------------------------------------------
  // Reading a profile back (`get_profile`)

  /** A nullable column read back into a dictionary: present, possibly `None`. */
  function SlotOf<T>(v: Option<T>): (s: Slot<T>)
    ensures !s.Absent?
  {
    if v.Some? then Given(v.value) else Null
  }

  function SkillOfRow(c: SkillCols): SkillData
  {
    SkillData(Given(c.name), SlotOf(c.category), SlotOf(c.level), SlotOf(c.years), SlotOf(c.context))
  }

  function ExperienceOfRow(c: ExperienceCols): ExperienceData
  {
    ExperienceData(Given(c.title), Given(c.company), SlotOf(c.industry), SlotOf(c.startDate), SlotOf(c.endDate),
      c.responsibilities, c.accomplishments, c.skillsUsed)
  }

  function SkillOwner(): SkillCols -> int { (c: SkillCols) => c.profileId }
  function SkillReader(): SkillCols -> SkillData { (c: SkillCols) => SkillOfRow(c) }
  function ExperienceOwner(): ExperienceCols -> int { (c: ExperienceCols) => c.profileId }
  function ExperienceReader(): ExperienceCols -> ExperienceData { (c: ExperienceCols) => ExperienceOfRow(c) }

  /** `SELECT * FROM child WHERE profile_id = ?`, in rowid order, each row read back. */
  function ChildrenOf<T, U>(rows: seq<Row<T>>, profileId: int, owner: T -> int, read: T -> U): seq<U>
    decreases |rows|
  {
    if rows == [] then []
    else
      var last := rows[|rows| - 1];
      ChildrenOf(rows[..|rows| - 1], profileId, owner, read) + (if owner(last.cols) == profileId then [read(last.cols)] else [])
  }

  lemma {:induction false} ChildrenOfAppend<T, U>(a: seq<Row<T>>, b: seq<Row<T>>, profileId: int, owner: T -> int, read: T -> U)
    ensures ChildrenOf(a + b, profileId, owner, read) == ChildrenOf(a, profileId, owner, read) + ChildrenOf(b, profileId, owner, read)
    decreases |b|
  {
    if b != [] {
      var init := b[..|b| - 1];
      assert (a + b)[..|a + b| - 1] == a + init;
      ChildrenOfAppend(a, init, profileId, owner, read);
    } else {
      assert a + b == a;
    }
  }

  /** No row of the profile: nothing read. */
  lemma {:induction false} ChildrenOfNone<T, U>(rows: seq<Row<T>>, profileId: int, owner: T -> int, read: T -> U)
    requires forall r :: r in rows ==> owner(r.cols) != profileId
    ensures ChildrenOf(rows, profileId, owner, read) == []
    decreases |rows|
  {
    if rows != [] {
      var init := rows[..|rows| - 1];
      assert forall r :: r in init ==> r in rows;
      ChildrenOfNone(init, profileId, owner, read);
    }
  }

  /** Every row of the profile: each one read, in order. */
  lemma {:induction false} ChildrenOfAll<T, U>(rows: seq<Row<T>>, profileId: int, owner: T -> int, read: T -> U)
    requires forall k :: 0 <= k < |rows| ==> owner(rows[k].cols) == profileId
    ensures var r := ChildrenOf(rows, profileId, owner, read);
      |r| == |rows| && forall k :: 0 <= k < |rows| ==> r[k] == read(rows[k].cols)
    decreases |rows|
  {
    if rows != [] {
      var init := rows[..|rows| - 1];
      ChildrenOfAll(init, profileId, owner, read);
    }
  }

  /** Deleting another owner's rows does not change what is read for this one. */
  lemma {:induction false} ChildrenOfFilter<T, U>(rows: seq<Row<T>>, p: Row<T> -> bool, profileId: int, owner: T -> int, read: T -> U)
    requires forall r :: r in rows && owner(r.cols) == profileId ==> p(r)
    ensures ChildrenOf(Filter(rows, p), profileId, owner, read) == ChildrenOf(rows, profileId, owner, read)
    decreases |rows|
  {
    if rows != [] {
      var init := rows[..|rows| - 1];
      var x := rows[|rows| - 1];
      assert forall r :: r in init ==> r in rows;
      ChildrenOfFilter(init, p, profileId, owner, read);
      if p(x) {
        assert Filter(rows, p) == Filter(init, p) + [x];
        ChildrenOfAppend(Filter(init, p), [x], profileId, owner, read);
      }
    }
  }

  /** `get_profile`: the profile row with its skills and experience; the URL keys are not columns. */
  function GetProfile(t: Tables, id: int): (r: Option<ProfileData>)
    ensures r.Some? <==> id in Ids(t.profiles)
    ensures r.Some? ==> r.value.linkedinUrl.Absent? && r.value.portfolioUrl.Absent? && r.value.name.Given?
  {
    var k := RowIndex(t.profiles, id);
    if k < 0 then None
    else
      var c := t.profiles[k].cols;
      Some(ProfileData(Given(c.name), SlotOf(c.email), SlotOf(c.phone), SlotOf(c.location), SlotOf(c.summary), Absent, Absent,
        ChildrenOf(t.skills, id, SkillOwner(), SkillReader()),
        ChildrenOf(t.experience, id, ExperienceOwner(), ExperienceReader())))
  }

  /** A key missing from the dictionary is stored as NULL and read back as `None`. */
  function Nulled<T>(s: Slot<T>): (r: Slot<T>)
    ensures !r.Absent? && (s.Given? ==> r == s)
  {
    if s.Absent? then Null else s
  }

  /** A skill as it reads back after storing: missing keys become `None`. */
  function StoredSkill(s: SkillData): SkillData
  {
    SkillData(s.name, Nulled(s.category), Nulled(s.level), Nulled(s.years), Nulled(s.context))
  }

  function StoredExperience(e: ExperienceData): ExperienceData
  {
    e.(industry := Nulled(e.industry), startDate := Nulled(e.startDate), endDate := Nulled(e.endDate))
  }

  /** What `get_profile` returns for a stored profile, the skills and experience aside. */
  predicate ReadsBackAs(r: ProfileData, p: ProfileData)
  {
    r.name == p.name && r.email == Nulled(p.email) && r.phone == Nulled(p.phone)
    && r.location == Nulled(p.location) && r.summary == Nulled(p.summary)
    && SkillsReadBack(r.skills, p.skills) && ExperienceReadBack(r.experience, p.experience)
  }

  predicate SkillsReadBack(r: seq<SkillData>, skills: seq<SkillData>)
  {
    |r| == |skills| && forall k :: 0 <= k < |skills| ==> r[k] == StoredSkill(skills[k])
  }

  predicate ExperienceReadBack(r: seq<ExperienceData>, experience: seq<ExperienceData>)
  {
    |r| == |experience| && forall k :: 0 <= k < |experience| ==> r[k] == StoredExperience(experience[k])
  }

  /** A stored skill row reads back as the skill with its missing keys as `None`. */
  lemma SkillRoundTrip(profileId: int, s: SkillData)
    requires SkillColsOf(profileId, s).Ok?
    ensures SkillOfRow(SkillColsOf(profileId, s).value) == StoredSkill(s)
  {
  }

  lemma ExperienceRoundTrip(profileId: int, e: ExperienceData)
    requires ExperienceColsOf(profileId, e).Ok?
    ensures ExperienceOfRow(ExperienceColsOf(profileId, e).value) == StoredExperience(e)
  {
  }

  /** The inserted skill rows of one profile read back as the given list. */
  lemma InsertedSkills(profileId: int, skills: seq<SkillData>, firstId: int)
    requires RowsOf(firstId, skills, SkillColsFor(profileId)).Ok?
    ensures SkillsReadBack(ChildrenOf(RowsOf(firstId, skills, SkillColsFor(profileId)).value, profileId, SkillOwner(), SkillReader()), skills)
  {
    var rows := RowsOf(firstId, skills, SkillColsFor(profileId)).value;
    RowsOfOk(firstId, skills, SkillColsFor(profileId));
    forall k | 0 <= k < |rows| ensures SkillOwner()(rows[k].cols) == profileId && SkillReader()(rows[k].cols) == StoredSkill(skills[k]) {
      SkillRoundTrip(profileId, skills[k]);
    }
    ChildrenOfAll(rows, profileId, SkillOwner(), SkillReader());
  }

  /** The inserted experience rows of one profile read back as the given list. */
  lemma InsertedExperience(profileId: int, experience: seq<ExperienceData>, firstId: int)
    requires RowsOf(firstId, experience, ExperienceColsFor(profileId)).Ok?
    ensures ExperienceReadBack(ChildrenOf(RowsOf(firstId, experience, ExperienceColsFor(profileId)).value, profileId, ExperienceOwner(), ExperienceReader()), experience)
  {
    var rows := RowsOf(firstId, experience, ExperienceColsFor(profileId)).value;
    RowsOfOk(firstId, experience, ExperienceColsFor(profileId));
    forall k | 0 <= k < |rows| ensures ExperienceOwner()(rows[k].cols) == profileId && ExperienceReader()(rows[k].cols) == StoredExperience(experience[k]) {
      ExperienceRoundTrip(profileId, experience[k]);
    }
    ChildrenOfAll(rows, profileId, ExperienceOwner(), ExperienceReader());
  }

  // ---------------------------------------------------------------------
  // store_profile

  /** `store_profile`: the profile row, then one row per skill, then one per experience entry. */
  function StoreProfileEffect(t: Tables, p: ProfileData, sourceFile: string): Result<Tables, DbError>
  {
    var pid := t.nextProfileId;
    match ProfileColsOf(p, sourceFile)
    case Err(e) => Err(e)
    case Ok(c) =>
      match RowsOf(t.nextSkillId, p.skills, SkillColsFor(pid))
      case Err(e) => Err(e)
      case Ok(skillRows) =>
        match RowsOf(t.nextExperienceId, p.experience, ExperienceColsFor(pid))
        case Err(e) => Err(e)
        case Ok(experienceRows) =>
          Ok(t.(profiles := t.profiles + [Row(pid, c)], nextProfileId := pid + 1,
            skills := t.skills + skillRows, nextSkillId := t.nextSkillId + |p.skills|,
            experience := t.experience + experienceRows, nextExperienceId := t.nextExperienceId + |p.experience|))
  }

  /** Storing fails exactly when the name is missing or a skill or an experience entry violates a constraint. */
  lemma StoreProfileFails(t: Tables, p: ProfileData, sourceFile: string)
    ensures StoreProfileEffect(t, p, sourceFile).Err? <==>
      !p.name.Given?
      || (exists k :: 0 <= k < |p.skills| && SkillColsOf(t.nextProfileId, p.skills[k]).Err?)
      || (exists k :: 0 <= k < |p.experience| && ExperienceColsOf(t.nextProfileId, p.experience[k]).Err?)
  {
    RowsOfOk(t.nextSkillId, p.skills, SkillColsFor(t.nextProfileId));
    RowsOfOk(t.nextExperienceId, p.experience, ExperienceColsFor(t.nextProfileId));
  }

  /** Storing a profile keeps every constraint of the schema. */
  lemma StoreProfileValid(t: Tables, p: ProfileData, sourceFile: string)
    requires t.Valid() && StoreProfileEffect(t, p, sourceFile).Ok?
    ensures StoreProfileEffect(t, p, sourceFile).value.Valid()
  {
    var pid := t.nextProfileId;
    var c := ProfileColsOf(p, sourceFile).value;
    var sr := RowsOf(t.nextSkillId, p.skills, SkillColsFor(pid)).value;
    var er := RowsOf(t.nextExperienceId, p.experience, ExperienceColsFor(pid)).value;
    var t' := StoreProfileEffect(t, p, sourceFile).value;
    IdsBelowAppend(t.profiles, pid, c);
    RowsOfIds(t.skills, t.nextSkillId, p.skills, SkillColsFor(pid));
    RowsOfIds(t.experience, t.nextExperienceId, p.experience, ExperienceColsFor(pid));
    IdsAppend(t.profiles, Row(pid, c));
    SkillRowsOk(pid, t.nextSkillId, p.skills);
    ExperienceRowsOk(pid, t.nextExperienceId, p.experience);
    forall r | r in t'.skills ensures SkillOk(r.cols, Ids(t'.profiles)) {
      if r !in t.skills {
        assert r in sr;
      }
    }
    forall r | r in t'.experience ensures r.cols.profileId in Ids(t'.profiles) {
      if r !in t.experience {
        assert r in er;
      }
    }
  }

  /** The new profile's skills and experience read back as the given lists. */
  lemma StoredChildren(t: Tables, p: ProfileData, sourceFile: string)
    requires t.Valid() && StoreProfileEffect(t, p, sourceFile).Ok?
    ensures var t' := StoreProfileEffect(t, p, sourceFile).value;
      SkillsReadBack(ChildrenOf(t'.skills, t.nextProfileId, SkillOwner(), SkillReader()), p.skills)
      && ExperienceReadBack(ChildrenOf(t'.experience, t.nextProfileId, ExperienceOwner(), ExperienceReader()), p.experience)
  {
    var pid := t.nextProfileId;
    var sr := RowsOf(t.nextSkillId, p.skills, SkillColsFor(pid)).value;
    var er := RowsOf(t.nextExperienceId, p.experience, ExperienceColsFor(pid)).value;
    IdsBelowFresh(t.profiles, t.nextProfileId, pid);
    ChildrenOfNone(t.skills, pid, SkillOwner(), SkillReader());
    ChildrenOfNone(t.experience, pid, ExperienceOwner(), ExperienceReader());
    ChildrenOfAppend(t.skills, sr, pid, SkillOwner(), SkillReader());
    ChildrenOfAppend(t.experience, er, pid, ExperienceOwner(), ExperienceReader());
    InsertedSkills(pid, p.skills, t.nextSkillId);
    InsertedExperience(pid, p.experience, t.nextExperienceId);
  }

  /** The profile the new rowid reads back is the one stored (missing keys become `None`). */
  lemma StoreThenGetProfile(t: Tables, p: ProfileData, sourceFile: string)
    requires t.Valid() && StoreProfileEffect(t, p, sourceFile).Ok?
    ensures var r := GetProfile(StoreProfileEffect(t, p, sourceFile).value, t.nextProfileId);
      r.Some? && ReadsBackAs(r.value, p)
  {
    var t' := StoreProfileEffect(t, p, sourceFile).value;
    assert t'.profiles[|t.profiles|].id == t.nextProfileId;
    assert RowIndex(t'.profiles, t.nextProfileId) == |t.profiles|;
    StoredChildren(t, p, sourceFile);
  }

  /** `store_profile`; returns the new profile's rowid. */
  method StoreProfile(db: Database, p: ProfileData, sourceFile: string) returns (r: Result<int, DbError>)
    requires db.Valid()
    modifies db
    ensures db.Valid()
    ensures var e := StoreProfileEffect(old(db.tables), p, sourceFile);
      (e.Ok? ==> r == Ok(old(db.tables.nextProfileId)) && db.tables == e.value)
      && (e.Err? ==> r == Err(e.error) && db.tables == old(db.tables))
  {
    var t := db.tables;
    var c := ProfileColsOf(p, sourceFile);
    if c.Err? {
      return Err(c.error);
    }
    var pid := db.tables.nextProfileId;
    db.tables := db.tables.(profiles := db.tables.profiles + [Row(pid, c.value)], nextProfileId := pid + 1);
    var e := InsertSkills(db, pid, p.skills);
    if e.Some? {
      db.tables := t;
      return Err(e.value);
    }
    e := InsertExperience(db, pid, p.experience);
    if e.Some? {
      db.tables := t;
      return Err(e.value);
    }
    StoreProfileValid(t, p, sourceFile);
    return Ok(pid);
  }

  // ---------------------------------------------------------------------
  // update_profile

  function SkillNotOf(profileId: int): Row<SkillCols> -> bool
  {
    (r: Row<SkillCols>) => r.cols.profileId != profileId
  }

  function ExperienceNotOf(profileId: int): Row<ExperienceCols> -> bool
  {
    (r: Row<ExperienceCols>) => r.cols.profileId != profileId
  }

  /** `update_profile` on a known rowid: the row's columns (not its source file), then its skills and experience deleted and re-inserted. */
  function UpdateProfileEffect(t: Tables, id: int, p: ProfileData): Result<Tables, DbError>
    requires id in Ids(t.profiles)
  {
    var k := RowIndex(t.profiles, id);
    match ProfileColsOf(p, t.profiles[k].cols.sourceFile)
    case Err(e) => Err(e)
    case Ok(c) =>
      match RowsOf(t.nextSkillId, p.skills, SkillColsFor(id))
      case Err(e) => Err(e)
      case Ok(skillRows) =>
        match RowsOf(t.nextExperienceId, p.experience, ExperienceColsFor(id))
        case Err(e) => Err(e)
        case Ok(experienceRows) =>
          Ok(t.(profiles := t.profiles[k := Row(id, c)],
            skills := Filter(t.skills, SkillNotOf(id)) + skillRows, nextSkillId := t.nextSkillId + |p.skills|,
            experience := Filter(t.experience, ExperienceNotOf(id)) + experienceRows,
            nextExperienceId := t.nextExperienceId + |p.experience|))
  }

  /** Updating a profile keeps every constraint of the schema. */
  lemma UpdateProfileValid(t: Tables, id: int, p: ProfileData)
    requires t.Valid() && id in Ids(t.profiles) && UpdateProfileEffect(t, id, p).Ok?
    ensures UpdateProfileEffect(t, id, p).value.Valid()
  {
    var k := RowIndex(t.profiles, id);
    var c := ProfileColsOf(p, t.profiles[k].cols.sourceFile).value;
    var sr := RowsOf(t.nextSkillId, p.skills, SkillColsFor(id)).value;
    var er := RowsOf(t.nextExperienceId, p.experience, ExperienceColsFor(id)).value;
    var t' := UpdateProfileEffect(t, id, p).value;
    var keptSkills := Filter(t.skills, SkillNotOf(id));
    var keptExperience := Filter(t.experience, ExperienceNotOf(id));
    IdsBelowUpdate(t.profiles, t.nextProfileId, k, c);
    IdsUpdate(t.profiles, k, c);
    IdsBelowFilter(t.skills, t.nextSkillId, SkillNotOf(id));
    IdsBelowFilter(t.experience, t.nextExperienceId, ExperienceNotOf(id));
    RowsOfIds(keptSkills, t.nextSkillId, p.skills, SkillColsFor(id));
    RowsOfIds(keptExperience, t.nextExperienceId, p.experience, ExperienceColsFor(id));
    SkillRowsOk(id, t.nextSkillId, p.skills);
    ExperienceRowsOk(id, t.nextExperienceId, p.experience);
    forall r | r in t'.skills ensures SkillOk(r.cols, Ids(t'.profiles)) {
      if r in keptSkills {
        FilterIn(t.skills, SkillNotOf(id), r);
      } else {
        assert r in sr;
      }
    }
    forall r | r in t'.experience ensures r.cols.profileId in Ids(t'.profiles) {
      if r in keptExperience {
        FilterIn(t.experience, ExperienceNotOf(id), r);
      } else {
        assert r in er;
      }
    }
  }

  /** After an update the profile's skills and experience read back as exactly the given lists. */
  lemma UpdatedChildren(t: Tables, id: int, p: ProfileData)
    requires id in Ids(t.profiles) && UpdateProfileEffect(t, id, p).Ok?
    ensures var t' := UpdateProfileEffect(t, id, p).value;
      SkillsReadBack(ChildrenOf(t'.skills, id, SkillOwner(), SkillReader()), p.skills)
      && ExperienceReadBack(ChildrenOf(t'.experience, id, ExperienceOwner(), ExperienceReader()), p.experience)
  {
    var sr := RowsOf(t.nextSkillId, p.skills, SkillColsFor(id)).value;
    var er := RowsOf(t.nextExperienceId, p.experience, ExperienceColsFor(id)).value;
    var keptSkills := Filter(t.skills, SkillNotOf(id));
    var keptExperience := Filter(t.experience, ExperienceNotOf(id));
    forall r | r in keptSkills ensures SkillOwner()(r.cols) != id {
      FilterIn(t.skills, SkillNotOf(id), r);
    }
    forall r | r in keptExperience ensures ExperienceOwner()(r.cols) != id {
      FilterIn(t.experience, ExperienceNotOf(id), r);
    }
    ChildrenOfNone(keptSkills, id, SkillOwner(), SkillReader());
    ChildrenOfNone(keptExperience, id, ExperienceOwner(), ExperienceReader());
    ChildrenOfAppend(keptSkills, sr, id, SkillOwner(), SkillReader());
    ChildrenOfAppend(keptExperience, er, id, ExperienceOwner(), ExperienceReader());
    InsertedSkills(id, p.skills, t.nextSkillId);
    InsertedExperience(id, p.experience, t.nextExperienceId);
  }

  /** After an update the profile reads back as the new data. */
  lemma UpdateThenGetProfile(t: Tables, id: int, p: ProfileData)
    requires id in Ids(t.profiles) && UpdateProfileEffect(t, id, p).Ok?
    ensures var r := GetProfile(UpdateProfileEffect(t, id, p).value, id);
      r.Some? && ReadsBackAs(r.value, p)
  {
    var k := RowIndex(t.profiles, id);
    var c := ProfileColsOf(p, t.profiles[k].cols.sourceFile).value;
    var t' := UpdateProfileEffect(t, id, p).value;
    assert t'.profiles == t.profiles[k := Row(id, c)];
    RowIndexUpdate(t.profiles, k, c, id);
    IdsUpdate(t.profiles, k, c);
    UpdatedChildren(t, id, p);
  }

  /** Updating one profile leaves the skills and experience of every other profile as they were. */
  lemma UpdateProfileKeepsOtherChildren(t: Tables, id: int, p: ProfileData, other: int)
    requires id in Ids(t.profiles) && UpdateProfileEffect(t, id, p).Ok? && other != id
    ensures var t' := UpdateProfileEffect(t, id, p).value;
      ChildrenOf(t'.skills, other, SkillOwner(), SkillReader()) == ChildrenOf(t.skills, other, SkillOwner(), SkillReader())
      && ChildrenOf(t'.experience, other, ExperienceOwner(), ExperienceReader()) == ChildrenOf(t.experience, other, ExperienceOwner(), ExperienceReader())
  {
    var sr := RowsOf(t.nextSkillId, p.skills, SkillColsFor(id)).value;
    var er := RowsOf(t.nextExperienceId, p.experience, ExperienceColsFor(id)).value;
    ChildrenOfFilter(t.skills, SkillNotOf(id), other, SkillOwner(), SkillReader());
    ChildrenOfFilter(t.experience, ExperienceNotOf(id), other, ExperienceOwner(), ExperienceReader());
    SkillRowsOk(id, t.nextSkillId, p.skills);
    ExperienceRowsOk(id, t.nextExperienceId, p.experience);
    ChildrenOfNone(sr, other, SkillOwner(), SkillReader());
    ChildrenOfNone(er, other, ExperienceOwner(), ExperienceReader());
    ChildrenOfAppend(Filter(t.skills, SkillNotOf(id)), sr, other, SkillOwner(), SkillReader());
    ChildrenOfAppend(Filter(t.experience, ExperienceNotOf(id)), er, other, ExperienceOwner(), ExperienceReader());
  }

  /** Updating one profile leaves every other profile reading back as before. */
  lemma UpdateProfileKeepsOthers(t: Tables, id: int, p: ProfileData, other: int)
    requires id in Ids(t.profiles) && UpdateProfileEffect(t, id, p).Ok? && other != id
    ensures GetProfile(UpdateProfileEffect(t, id, p).value, other) == GetProfile(t, other)
  {
    var k := RowIndex(t.profiles, id);
    var c := ProfileColsOf(p, t.profiles[k].cols.sourceFile).value;
    var t' := UpdateProfileEffect(t, id, p).value;
    assert t'.profiles == t.profiles[k := Row(id, c)];
    RowIndexUpdate(t.profiles, k, c, other);
    IdsUpdate(t.profiles, k, c);
    UpdateProfileKeepsOtherChildren(t, id, p, other);
  }

  /** `update_profile`: `Ok(false)` and no change for an unknown rowid. */
  method UpdateProfile(db: Database, id: int, p: ProfileData) returns (r: Result<bool, DbError>)
    requires db.Valid()
    modifies db
    ensures db.Valid()
    ensures id !in Ids(old(db.tables.profiles)) ==> r == Ok(false) && db.tables == old(db.tables)
    ensures id in Ids(old(db.tables.profiles)) ==>
      var e := UpdateProfileEffect(old(db.tables), id, p);
      (e.Ok? ==> r == Ok(true) && db.tables == e.value)
      && (e.Err? ==> r == Err(e.error) && db.tables == old(db.tables))
  {
    var k := RowIndex(db.tables.profiles, id);
    if k < 0 {
      return Ok(false);
    }
    var t := db.tables;
    var c := ProfileColsOf(p, db.tables.profiles[k].cols.sourceFile);
    if c.Err? {
      return Err(c.error);
    }
    db.tables := db.tables.(profiles := db.tables.profiles[k := Row(id, c.value)], skills := Filter(db.tables.skills, SkillNotOf(id)));
    var e := InsertSkills(db, id, p.skills);
    if e.Some? {
      db.tables := t;
      return Err(e.value);
    }
    db.tables := db.tables.(experience := Filter(db.tables.experience, ExperienceNotOf(id)));
    e := InsertExperience(db, id, p.experience);
    if e.Some? {
      db.tables := t;
      return Err(e.value);
    }
    UpdateProfileValid(t, id, p);
    return Ok(true);
  }

  // ---------------------------------------------------------------------
  // delete_profile

  function MatchNotOf(profileId: int): Row<MatchCols> -> bool
  {
    (r: Row<MatchCols>) => r.cols.profileId != profileId
  }

  function ApplicationNotOf(profileId: int): Row<ApplicationCols> -> bool
  {
    (r: Row<ApplicationCols>) => r.cols.profileId != profileId
  }

  /** `DELETE FROM profiles WHERE id = ?` with `ON DELETE CASCADE` on the four child tables. */
  function DeleteProfileEffect(t: Tables, id: int): Tables
  {
    t.(profiles := Filter(t.profiles, IdIsNot(id)),
      skills := Filter(t.skills, SkillNotOf(id)),
      experience := Filter(t.experience, ExperienceNotOf(id)),
      matches := Filter(t.matches, MatchNotOf(id)),
      applications := Filter(t.applications, ApplicationNotOf(id)))
  }

  /** Deleting rows keeps match pairs unique. */
  lemma {:induction false} MatchPairsUniqueFilter(matches: seq<Row<MatchCols>>, p: Row<MatchCols> -> bool)
    requires MatchPairsUnique(matches)
    ensures MatchPairsUnique(Filter(matches, p))
    decreases |matches|
  {
    if matches != [] {
      var init := matches[..|matches| - 1];
      var x := matches[|matches| - 1];
      assert MatchPairsUnique(init);
      MatchPairsUniqueFilter(init, p);
      var f := Filter(init, p);
      if p(x) {
        forall y | y in f ensures (y.cols.profileId, y.cols.jobId) != (x.cols.profileId, x.cols.jobId) {
          FilterIn(init, p, y);
          var k :| 0 <= k < |init| && init[k] == y;
          assert matches[k] == y;
        }
        var g := f + [x];
        forall i, j | 0 <= i < j < |g| ensures (g[i].cols.profileId, g[i].cols.jobId) != (g[j].cols.profileId, g[j].cols.jobId) {
          assert g[i] == f[i] && f[i] in f;
          if j < |f| {
            assert g[j] == f[j];
          }
        }
      }
    }
  }

  /** Deleting a profile with its dependent rows keeps every constraint of the schema. */
  lemma DeleteProfileValid(t: Tables, id: int)
    requires t.Valid()
    ensures DeleteProfileEffect(t, id).Valid()
  {
    var t' := DeleteProfileEffect(t, id);
    IdsBelowFilter(t.profiles, t.nextProfileId, IdIsNot(id));
    IdsBelowFilter(t.skills, t.nextSkillId, SkillNotOf(id));
    IdsBelowFilter(t.experience, t.nextExperienceId, ExperienceNotOf(id));
    IdsBelowFilter(t.matches, t.nextMatchId, MatchNotOf(id));
    IdsBelowFilter(t.applications, t.nextApplicationId, ApplicationNotOf(id));
    IdsFilterOut(t.profiles, id);
    MatchPairsUniqueFilter(t.matches, MatchNotOf(id));
    forall r | r in t'.skills ensures SkillOk(r.cols, Ids(t'.profiles)) {
      FilterIn(t.skills, SkillNotOf(id), r);
    }
    forall r | r in t'.experience ensures r.cols.profileId in Ids(t'.profiles) {
      FilterIn(t.experience, ExperienceNotOf(id), r);
    }
    forall r | r in t'.matches ensures MatchOk(r.cols, Ids(t'.profiles), Ids(t'.jobs)) {
      FilterIn(t.matches, MatchNotOf(id), r);
    }
    forall r | r in t'.applications ensures ApplicationOk(r.cols, Ids(t'.profiles), Ids(t'.jobs)) {
      FilterIn(t.applications, ApplicationNotOf(id), r);
    }
  }

  /** The cascade removes the profile and all and only the rows that depend on it; other profiles stay. */
  lemma DeleteProfileCascades(t: Tables, id: int)
    ensures var t' := DeleteProfileEffect(t, id);
      GetProfile(t', id).None?
      && (forall x :: x in Ids(t'.profiles) <==> x in Ids(t.profiles) && x != id)
      && (forall r :: r in t'.skills <==> r in t.skills && r.cols.profileId != id)
      && (forall r :: r in t'.experience <==> r in t.experience && r.cols.profileId != id)
      && (forall r :: r in t'.matches <==> r in t.matches && r.cols.profileId != id)
      && (forall r :: r in t'.applications <==> r in t.applications && r.cols.profileId != id)
  {
    IdsFilterOut(t.profiles, id);
    FilterMembers(t.skills, SkillNotOf(id));
    FilterMembers(t.experience, ExperienceNotOf(id));
    FilterMembers(t.matches, MatchNotOf(id));
    FilterMembers(t.applications, ApplicationNotOf(id));
  }

  /** `delete_profile`: `false` and no change for an unknown rowid. */
  method DeleteProfile(db: Database, id: int) returns (deleted: bool)
    requires db.Valid()
    modifies db
    ensures db.Valid()
    ensures deleted <==> id in Ids(old(db.tables.profiles))
    ensures deleted ==> db.tables == DeleteProfileEffect(old(db.tables), id)
    ensures !deleted ==> db.tables == old(db.tables)
  {
    if RowIndex(db.tables.profiles, id) < 0 {
      return false;
    }
    var t' := DeleteProfileEffect(db.tables, id);
    DeleteProfileValid(db.tables, id);
    db.tables := t';
    return true;
  }

  // ---------------------------------------------------------------------
  // find_profile_by_source and upsert_profile

  function SourceIs(sourceFile: string): Row<ProfileCols> -> bool
  {
    (r: Row<ProfileCols>) => r.cols.sourceFile == sourceFile
  }

  /** `find_profile_by_source`: the first profile stored from that file, if any. */
  function FindProfileBySource(t: Tables, sourceFile: string): (r: Option<Row<ProfileCols>>)
    ensures r.Some? ==> r.value in t.profiles && r.value.cols.sourceFile == sourceFile
    ensures r.None? <==> forall i :: 0 <= i < |t.profiles| ==> t.profiles[i].cols.sourceFile != sourceFile
  {
    var k := FirstWhere(t.profiles, SourceIs(sourceFile));
    if k < 0 then None else Some(t.profiles[k])
  }

  /** `upsert_profile`: update the profile stored from the same file, or store a new one. */
  function UpsertProfileEffect(t: Tables, p: ProfileData, sourceFile: string): Result<Tables, DbError>
  {
    match FindProfileBySource(t, sourceFile)
    case Some(row) => UpdateProfileEffect(t, row.id, p)
    case None => StoreProfileEffect(t, p, sourceFile)
  }

  /** What `upsert_profile` returns when it succeeds: the rowid and whether an existing profile was updated. */
  function UpsertProfileResult(t: Tables, sourceFile: string): (int, bool)
  {
    match FindProfileBySource(t, sourceFile)
    case Some(row) => (row.id, true)
    case None => (t.nextProfileId, false)
  }

  /** Upserting keeps every constraint of the schema. */
  lemma UpsertProfileValid(t: Tables, p: ProfileData, sourceFile: string)
    requires t.Valid() && UpsertProfileEffect(t, p, sourceFile).Ok?
    ensures UpsertProfileEffect(t, p, sourceFile).value.Valid()
  {
    match FindProfileBySource(t, sourceFile)
    case Some(row) =>
      UpdateProfileValid(t, row.id, p);
    case None =>
      StoreProfileValid(t, p, sourceFile);
  }

  /** After an upsert the returned rowid reads back as the given profile. */
  lemma UpsertThenGetProfile(t: Tables, p: ProfileData, sourceFile: string)
    requires t.Valid() && UpsertProfileEffect(t, p, sourceFile).Ok?
    ensures var r := GetProfile(UpsertProfileEffect(t, p, sourceFile).value, UpsertProfileResult(t, sourceFile).0);
      r.Some? && ReadsBackAs(r.value, p)
  {
    match FindProfileBySource(t, sourceFile)
    case Some(row) =>
      UpdateThenGetProfile(t, row.id, p);
    case None =>
      StoreThenGetProfile(t, p, sourceFile);
  }

  /** After an upsert the file's first profile is the one returned, so upserting the same file again updates it. */
  lemma UpsertProfileKeyed(t: Tables, p: ProfileData, sourceFile: string)
    requires t.Valid() && UpsertProfileEffect(t, p, sourceFile).Ok?
    ensures var t' := UpsertProfileEffect(t, p, sourceFile).value;
      UpsertProfileResult(t', sourceFile) == (UpsertProfileResult(t, sourceFile).0, true)
  {
    var t' := UpsertProfileEffect(t, p, sourceFile).value;
    var k := FirstWhere(t.profiles, SourceIs(sourceFile));
    if k < 0 {
      var pid := t.nextProfileId;
      var c := ProfileColsOf(p, sourceFile).value;
      assert t'.profiles == t.profiles + [Row(pid, c)];
      FirstWhereIs(t'.profiles, SourceIs(sourceFile), |t.profiles|);
    } else {
      var id := t.profiles[k].id;
      var j := RowIndex(t.profiles, id);
      var c := ProfileColsOf(p, t.profiles[j].cols.sourceFile).value;
      assert t'.profiles == t.profiles[j := Row(id, c)];
      assert j == k;
      FirstWhereIs(t'.profiles, SourceIs(sourceFile), k);
    }
  }

  /** `upsert_profile`; exactly one of `update_profile` and `store_profile` runs. */
  method UpsertProfile(db: Database, p: ProfileData, sourceFile: string) returns (r: Result<(int, bool), DbError>)
    requires db.Valid()
    modifies db
    ensures db.Valid()
    ensures var e := UpsertProfileEffect(old(db.tables), p, sourceFile);
      (e.Ok? ==> r == Ok(UpsertProfileResult(old(db.tables), sourceFile)) && db.tables == e.value)
      && (e.Err? ==> r == Err(e.error) && db.tables == old(db.tables))
  {
    var existing := FindProfileBySource(db.tables, sourceFile);
    if existing.Some? {
      var u := UpdateProfile(db, existing.value.id, p);
      if u.Err? {
        return Err(u.error);
      }
      return Ok((existing.value.id, true));
    }
    var s := StoreProfile(db, p, sourceFile);
    if s.Err? {
      return Err(s.error);
    }
    return Ok((s.value, false));
  }

  // ---------------------------------------------------------------------
  // store_job, find_job_by_external_id, upsert_job and get_job

  /** The columns of a `jobs` row: `title` and `company` are NOT NULL. */
  function JobColsOf(j: JobData): (r: Result<JobCols, DbError>)
    ensures r.Ok? <==> j.title.Some? && j.company.Some?
    ensures r.Err? ==> r.error == if j.title.None? then NotNull("jobs.title") else NotNull("jobs.company")
    ensures r.Ok? ==> r.value.externalId == j.externalId && r.value.requirements == j.requirements
  {
    if j.title.None? then Err(NotNull("jobs.title"))
    else if j.company.None? then Err(NotNull("jobs.company"))
    else Ok(JobCols(j.externalId, j.title.value, j.company.value, j.location, j.remote, j.description,
      j.requirements, j.salaryMin, j.salaryMax, j.applyUrl, j.source, j.postedDate))
  }

  /** The job a `jobs` row reads back as. */
  function JobOfRow(c: JobCols): JobData
  {
    JobData(c.externalId, Some(c.title), Some(c.company), c.location, c.remote, c.description,
      c.requirements, c.salaryMin, c.salaryMax, c.applyUrl, c.source, c.postedDate)
  }

  function ExternalIdIs(externalId: string): Row<JobCols> -> bool
  {
    (r: Row<JobCols>) => r.cols.externalId == Some(externalId)
  }

  /** `find_job_by_external_id` */
  function FindJobByExternalId(t: Tables, externalId: string): (r: Option<Row<JobCols>>)
    ensures r.Some? ==> r.value in t.jobs && r.value.cols.externalId == Some(externalId)
    ensures r.None? <==> forall i :: 0 <= i < |t.jobs| ==> t.jobs[i].cols.externalId != Some(externalId)
  {
    var k := FirstWhere(t.jobs, ExternalIdIs(externalId));
    if k < 0 then None else Some(t.jobs[k])
  }

  /** `store_job`: one new row; a non-NULL external id already in the table violates UNIQUE. */
  function StoreJobEffect(t: Tables, j: JobData): Result<Tables, DbError>
  {
    match JobColsOf(j)
    case Err(e) => Err(e)
    case Ok(c) =>
      if j.externalId.Some? && FindJobByExternalId(t, j.externalId.value).Some? then Err(NotUnique("jobs.external_id"))
      else Ok(t.(jobs := t.jobs + [Row(t.nextJobId, c)], nextJobId := t.nextJobId + 1))
  }

  /** Storing a job fails exactly on a missing title or company, or on an external id some job already has. */
  lemma StoreJobFails(t: Tables, j: JobData)
    ensures StoreJobEffect(t, j).Err? <==>
      j.title.None? || j.company.None? || (j.externalId.Some? && exists r :: r in t.jobs && r.cols.externalId == j.externalId)
  {
    if j.externalId.Some? && (exists r :: r in t.jobs && r.cols.externalId == j.externalId) {
      var r :| r in t.jobs && r.cols.externalId == j.externalId;
      var i :| 0 <= i < |t.jobs| && t.jobs[i] == r;
      assert FindJobByExternalId(t, j.externalId.value).Some?;
    }
  }

  /** Storing a job keeps every constraint of the schema. */
  lemma StoreJobValid(t: Tables, j: JobData)
    requires t.Valid() && StoreJobEffect(t, j).Ok?
    ensures StoreJobEffect(t, j).value.Valid()
  {
    var c := JobColsOf(j).value;
    var t' := StoreJobEffect(t, j).value;
    IdsBelowAppend(t.jobs, t.nextJobId, c);
    IdsAppend(t.jobs, Row(t.nextJobId, c));
    assert t'.jobs == t.jobs + [Row(t.nextJobId, c)];
    forall i, k | 0 <= i < k < |t'.jobs| && t'.jobs[i].cols.externalId.Some?
      ensures t'.jobs[i].cols.externalId != t'.jobs[k].cols.externalId
    {
      if k == |t.jobs| {
        assert t'.jobs[i] == t.jobs[i];
      }
    }
  }

  /** `get_job`: the job with that rowid, read back. */
  function GetJob(t: Tables, id: int): (r: Option<JobData>)
    ensures r.Some? <==> id in Ids(t.jobs)
  {
    var k := RowIndex(t.jobs, id);
    if k < 0 then None else Some(JobOfRow(t.jobs[k].cols))
  }

  /** A stored job reads back as the given job, requirement list included. */
  lemma StoreThenGetJob(t: Tables, j: JobData)
    requires t.Valid() && StoreJobEffect(t, j).Ok?
    ensures GetJob(StoreJobEffect(t, j).value, t.nextJobId) == Some(j)
  {
    var t' := StoreJobEffect(t, j).value;
    assert t'.jobs[|t.jobs|].id == t.nextJobId;
    assert RowIndex(t'.jobs, t.nextJobId) == |t.jobs|;
  }

  /** `store_job`; returns the new job's rowid. */
  method StoreJob(db: Database, j: JobData) returns (r: Result<int, DbError>)
    requires db.Valid()
    modifies db
    ensures db.Valid()
    ensures var e := StoreJobEffect(old(db.tables), j);
      (e.Ok? ==> r == Ok(old(db.tables.nextJobId)) && db.tables == e.value)
      && (e.Err? ==> r == Err(e.error) && db.tables == old(db.tables))
  {
    var c := JobColsOf(j);
    if c.Err? {
      return Err(c.error);
    }
    if j.externalId.Some? && FindJobByExternalId(db.tables, j.externalId.value).Some? {
      return Err(NotUnique("jobs.external_id"));
    }
    StoreJobValid(db.tables, j);
    var id := db.tables.nextJobId;
    db.tables := db.tables.(jobs := db.tables.jobs + [Row(id, c.value)], nextJobId := id + 1);
    return Ok(id);
  }

  /** `UPDATE jobs SET ... WHERE external_id = ?` on the one row with that external id: it keeps its rowid and its external id. */
  function UpdateJobEffect(t: Tables, k: int, j: JobData): Result<Tables, DbError>
    requires 0 <= k < |t.jobs|
  {
    match JobColsOf(j)
    case Err(e) => Err(e)
    case Ok(c) => Ok(t.(jobs := t.jobs[k := Row(t.jobs[k].id, c.(externalId := t.jobs[k].cols.externalId))]))
  }

  /** `upsert_job`: a falsy external id always means a new row; a known one updates its row. */
  function UpsertJobEffect(t: Tables, j: JobData): Result<Tables, DbError>
  {
    if !Truthy(j.externalId) then StoreJobEffect(t, j)
    else
      var k := FirstWhere(t.jobs, ExternalIdIs(j.externalId.value));
      if k >= 0 then UpdateJobEffect(t, k, j) else StoreJobEffect(t, j)
  }

  /** What `upsert_job` returns when it succeeds: the rowid and whether an existing job was updated. */
  function UpsertJobResult(t: Tables, j: JobData): (int, bool)
  {
    if !Truthy(j.externalId) then (t.nextJobId, false)
    else
      match FindJobByExternalId(t, j.externalId.value)
      case Some(row) => (row.id, true)
      case None => (t.nextJobId, false)
  }

  /** Upserting a job keeps every constraint of the schema. */
  lemma UpsertJobValid(t: Tables, j: JobData)
    requires t.Valid() && UpsertJobEffect(t, j).Ok?
    ensures UpsertJobEffect(t, j).value.Valid()
  {
    if Truthy(j.externalId) {
      var k := FirstWhere(t.jobs, ExternalIdIs(j.externalId.value));
      if k >= 0 {
        var c := JobColsOf(j).value;
        var c' := c.(externalId := t.jobs[k].cols.externalId);
        var t' := UpsertJobEffect(t, j).value;
        assert t'.jobs == t.jobs[k := Row(t.jobs[k].id, c')];
        IdsBelowUpdate(t.jobs, t.nextJobId, k, c');
        IdsUpdate(t.jobs, k, c');
        forall i, m | 0 <= i < m < |t'.jobs| && t'.jobs[i].cols.externalId.Some?
          ensures t'.jobs[i].cols.externalId != t'.jobs[m].cols.externalId
        {
          assert t'.jobs[i].cols.externalId == t.jobs[i].cols.externalId;
          assert t'.jobs[m].cols.externalId == t.jobs[m].cols.externalId;
        }
        return;
      }
    }
    StoreJobValid(t, j);
  }

  /** After an upsert the returned rowid reads back as the given job. */
  lemma UpsertThenGetJob(t: Tables, j: JobData)
    requires t.Valid() && UpsertJobEffect(t, j).Ok?
    ensures GetJob(UpsertJobEffect(t, j).value, UpsertJobResult(t, j).0) == Some(j)
  {
    if Truthy(j.externalId) {
      var k := FirstWhere(t.jobs, ExternalIdIs(j.externalId.value));
      if k >= 0 {
        var c := JobColsOf(j).value;
        var c' := c.(externalId := t.jobs[k].cols.externalId);
        var t' := UpsertJobEffect(t, j).value;
        var id := t.jobs[k].id;
        assert t'.jobs == t.jobs[k := Row(id, c')];
        assert c' == c;
        RowIndexUpdate(t.jobs, k, c', id);
        assert RowIndex(t.jobs, id) == k;
        return;
      }
    }
    StoreThenGetJob(t, j);
  }

  /** After an upsert with a truthy external id, upserting any job with that id again updates the same row. */
  lemma UpsertJobKeyed(t: Tables, j: JobData, j2: JobData)
    requires t.Valid() && Truthy(j.externalId) && UpsertJobEffect(t, j).Ok? && j2.externalId == j.externalId
    ensures var t' := UpsertJobEffect(t, j).value;
      UpsertJobResult(t', j2) == (UpsertJobResult(t, j).0, true)
      && |t'.jobs| <= |t.jobs| + 1
  {
    var t' := UpsertJobEffect(t, j).value;
    var eid := j.externalId.value;
    var k := FirstWhere(t.jobs, ExternalIdIs(eid));
    if k >= 0 {
      var c := JobColsOf(j).value;
      var c' := c.(externalId := t.jobs[k].cols.externalId);
      assert t'.jobs == t.jobs[k := Row(t.jobs[k].id, c')];
      FirstWhereIs(t'.jobs, ExternalIdIs(eid), k);
    } else {
      var c := JobColsOf(j).value;
      assert t'.jobs == t.jobs + [Row(t.nextJobId, c)];
      FirstWhereIs(t'.jobs, ExternalIdIs(eid), |t.jobs|);
    }
  }

  /** Without an external id a job with a title and a company is always inserted as a new row. */
  lemma UpsertJobWithoutExternalId(t: Tables, j: JobData)
    requires j.externalId.None? && j.title.Some? && j.company.Some?
    ensures UpsertJobEffect(t, j).Ok?
    ensures UpsertJobResult(t, j) == (t.nextJobId, false)
    ensures UpsertJobEffect(t, j).value.jobs == t.jobs + [Row(t.nextJobId, JobColsOf(j).value)]
  {
  }

  /** An empty external id is falsy, so it is inserted, not looked up; the second time the UNIQUE column rejects it. */
  lemma UpsertBlankExternalIdTwice(t: Tables, j: JobData)
    requires j.externalId == Some("") && StoreJobEffect(t, j).Ok?
    ensures UpsertJobEffect(StoreJobEffect(t, j).value, j) == Err(NotUnique("jobs.external_id"))
  {
    var t' := StoreJobEffect(t, j).value;
    assert t'.jobs[|t.jobs|].cols.externalId == Some("");
  }

  /** `upsert_job` */
  method UpsertJob(db: Database, j: JobData) returns (r: Result<(int, bool), DbError>)
    requires db.Valid()
    modifies db
    ensures db.Valid()
    ensures var e := UpsertJobEffect(old(db.tables), j);
      (e.Ok? ==> r == Ok(UpsertJobResult(old(db.tables), j)) && db.tables == e.value)
      && (e.Err? ==> r == Err(e.error) && db.tables == old(db.tables))
  {
    if !Truthy(j.externalId) {
      var s := StoreJob(db, j);
      if s.Err? {
        return Err(s.error);
      }
      return Ok((s.value, false));
    }
    var k := FirstWhere(db.tables.jobs, ExternalIdIs(j.externalId.value));
    if k < 0 {
      var s := StoreJob(db, j);
      if s.Err? {
        return Err(s.error);
      }
      return Ok((s.value, false));
    }
    var c := JobColsOf(j);
    if c.Err? {
      return Err(c.error);
    }
    UpsertJobValid(db.tables, j);
    var id := db.tables.jobs[k].id;
    db.tables := db.tables.(jobs := db.tables.jobs[k := Row(id, c.value.(externalId := db.tables.jobs[k].cols.externalId))]);
    return Ok((id, true));
  }

  // ---------------------------------------------------------------------
  // store_job_match, upsert_job_match, get_matches_for_profile,
  // get_top_matches and delete_matches_for_profile

  function PairIs(profileId: int, jobId: int): Row<MatchCols> -> bool
  {
    (r: Row<MatchCols>) => r.cols.profileId == profileId && r.cols.jobId == jobId
  }

  /** `CHECK(match_score >= 0 AND match_score <= 100)` */
  predicate ScoreAllowed(score: real)
  {
    0.0 <= score <= 100.0
  }

  /** `store_job_match`: one new row; the CHECK, then UNIQUE(profile_id, job_id), then both foreign keys. */
  function StoreJobMatchEffect(t: Tables, c: MatchCols): Result<Tables, DbError>
  {
    if !ScoreAllowed(c.score) then Err(CheckFailed("job_matches.match_score"))
    else if FirstWhere(t.matches, PairIs(c.profileId, c.jobId)) >= 0 then Err(NotUnique("job_matches.profile_id, job_matches.job_id"))
    else if c.profileId !in Ids(t.profiles) then Err(ForeignKeyFailed("job_matches.profile_id"))
    else if c.jobId !in Ids(t.jobs) then Err(ForeignKeyFailed("job_matches.job_id"))
    else Ok(t.(matches := t.matches + [Row(t.nextMatchId, c)], nextMatchId := t.nextMatchId + 1))
  }

  /** Storing a match fails exactly on a score out of range, a pair already scored, or an unknown profile or job. */
  lemma StoreJobMatchFails(t: Tables, c: MatchCols)
    ensures StoreJobMatchEffect(t, c).Err? <==>
      !ScoreAllowed(c.score)
      || (exists r :: r in t.matches && r.cols.profileId == c.profileId && r.cols.jobId == c.jobId)
      || c.profileId !in Ids(t.profiles) || c.jobId !in Ids(t.jobs)
  {
    if exists r :: r in t.matches && r.cols.profileId == c.profileId && r.cols.jobId == c.jobId {
      var r :| r in t.matches && r.cols.profileId == c.profileId && r.cols.jobId == c.jobId;
      var i :| 0 <= i < |t.matches| && t.matches[i] == r;
      assert PairIs(c.profileId, c.jobId)(t.matches[i]);
    }
  }

  /** Storing a match keeps every constraint of the schema. */
  lemma StoreJobMatchValid(t: Tables, c: MatchCols)
    requires t.Valid() && StoreJobMatchEffect(t, c).Ok?
    ensures StoreJobMatchEffect(t, c).value.Valid()
  {
    var t' := StoreJobMatchEffect(t, c).value;
    IdsBelowAppend(t.matches, t.nextMatchId, c);
    assert t'.matches == t.matches + [Row(t.nextMatchId, c)];
    forall i, k | 0 <= i < k < |t'.matches|
      ensures (t'.matches[i].cols.profileId, t'.matches[i].cols.jobId) != (t'.matches[k].cols.profileId, t'.matches[k].cols.jobId)
    {
      if k == |t.matches| {
        assert t'.matches[i] == t.matches[i];
        assert !PairIs(c.profileId, c.jobId)(t.matches[i]);
      }
    }
  }

  /** `store_job_match`; returns the new match's rowid. */
  method StoreJobMatch(db: Database, profileId: int, jobId: int, score: real, matchedSkills: seq<string>,
    missingSkills: seq<string>, notes: Option<string>) returns (r: Result<int, DbError>)
    requires db.Valid()
    modifies db
    ensures db.Valid()
    ensures var e := StoreJobMatchEffect(old(db.tables), MatchCols(profileId, jobId, score, matchedSkills, missingSkills, notes));
      (e.Ok? ==> r == Ok(old(db.tables.nextMatchId)) && db.tables == e.value)
      && (e.Err? ==> r == Err(e.error) && db.tables == old(db.tables))
  {
    var c := MatchCols(profileId, jobId, score, matchedSkills, missingSkills, notes);
    var e := StoreJobMatchEffect(db.tables, c);
    if e.Err? {
      return Err(e.error);
    }
    StoreJobMatchValid(db.tables, c);
    var id := db.tables.nextMatchId;
    db.tables := e.value;
    return Ok(id);
  }

  /** `upsert_job_match`: the pair's row gets the new score, lists and notes; otherwise a new row. */
  function UpsertJobMatchEffect(t: Tables, c: MatchCols): Result<Tables, DbError>
  {
    var k := FirstWhere(t.matches, PairIs(c.profileId, c.jobId));
    if k < 0 then StoreJobMatchEffect(t, c)
    else if !ScoreAllowed(c.score) then Err(CheckFailed("job_matches.match_score"))
    else Ok(t.(matches := t.matches[k := Row(t.matches[k].id, c)]))
  }

  /** What `upsert_job_match` returns when it succeeds. */
  function UpsertJobMatchResult(t: Tables, c: MatchCols): (int, bool)
  {
    var k := FirstWhere(t.matches, PairIs(c.profileId, c.jobId));
    if k < 0 then (t.nextMatchId, false) else (t.matches[k].id, true)
  }

  /** Upserting a match keeps every constraint of the schema, one match per pair included. */
  lemma UpsertJobMatchValid(t: Tables, c: MatchCols)
    requires t.Valid() && UpsertJobMatchEffect(t, c).Ok?
    ensures UpsertJobMatchEffect(t, c).value.Valid()
  {
    var k := FirstWhere(t.matches, PairIs(c.profileId, c.jobId));
    if k < 0 {
      StoreJobMatchValid(t, c);
    } else {
      var t' := UpsertJobMatchEffect(t, c).value;
      assert t'.matches == t.matches[k := Row(t.matches[k].id, c)];
      IdsBelowUpdate(t.matches, t.nextMatchId, k, c);
      forall r | r in t'.matches ensures MatchOk(r.cols, Ids(t'.profiles), Ids(t'.jobs)) {
        InUpdate(t.matches, k, Row(t.matches[k].id, c), r);
      }
    }
  }

  /** The pair's match after an upsert: the returned rowid holds the given columns, and no other row has the pair. */
  lemma UpsertJobMatchStores(t: Tables, c: MatchCols)
    requires t.Valid() && UpsertJobMatchEffect(t, c).Ok?
    ensures var t' := UpsertJobMatchEffect(t, c).value;
      var (id, _) := UpsertJobMatchResult(t, c);
      Row(id, c) in t'.matches
      && forall r :: r in t'.matches && r.cols.profileId == c.profileId && r.cols.jobId == c.jobId ==> r == Row(id, c)
  {
    UpsertJobMatchValid(t, c);
    var t' := UpsertJobMatchEffect(t, c).value;
    var (id, _) := UpsertJobMatchResult(t, c);
    var k := FirstWhere(t.matches, PairIs(c.profileId, c.jobId));
    var m := if k < 0 then |t.matches| else k;
    assert t'.matches[m] == Row(id, c);
    forall r | r in t'.matches && r.cols.profileId == c.profileId && r.cols.jobId == c.jobId ensures r == Row(id, c) {
      var i :| 0 <= i < |t'.matches| && t'.matches[i] == r;
      assert i == m;
    }
  }

  /** `upsert_job_match` */
  method UpsertJobMatch(db: Database, profileId: int, jobId: int, score: real, matchedSkills: seq<string>,
    missingSkills: seq<string>, notes: Option<string>) returns (r: Result<(int, bool), DbError>)
    requires db.Valid()
    modifies db
    ensures db.Valid()
    ensures var c := MatchCols(profileId, jobId, score, matchedSkills, missingSkills, notes);
      var e := UpsertJobMatchEffect(old(db.tables), c);
      (e.Ok? ==> r == Ok(UpsertJobMatchResult(old(db.tables), c)) && db.tables == e.value)
      && (e.Err? ==> r == Err(e.error) && db.tables == old(db.tables))
  {
    var k := FirstWhere(db.tables.matches, PairIs(profileId, jobId));
    if k < 0 {
      var s := StoreJobMatch(db, profileId, jobId, score, matchedSkills, missingSkills, notes);
      if s.Err? {
        return Err(s.error);
      }
      return Ok((s.value, false));
    }
    if !ScoreAllowed(score) {
      return Err(CheckFailed("job_matches.match_score"));
    }
    var c := MatchCols(profileId, jobId, score, matchedSkills, missingSkills, notes);
    UpsertJobMatchValid(db.tables, c);
    var id := db.tables.matches[k].id;
    db.tables := db.tables.(matches := db.tables.matches[k := Row(id, c)]);
    return Ok((id, true));
  }

  function ScoreKey(): Row<MatchCols> -> real
  {
    (r: Row<MatchCols>) => r.cols.score
  }

  /** `JOIN jobs j ON jm.job_id = j.id WHERE jm.profile_id = ? AND jm.match_score >= ?` */
  function Selected(profileId: int, minScore: real, jobIds: set<int>): Row<MatchCols> -> bool
  {
    (r: Row<MatchCols>) => r.cols.jobId in jobIds && r.cols.profileId == profileId && r.cols.score >= minScore
  }

  /** `LIMIT n`: at most `n` rows from the front; a negative limit means no limit. */
  function Limit<T>(s: seq<T>, n: int): (r: seq<T>)
    ensures r <= s
    ensures n < 0 ==> r == s
    ensures n >= 0 ==> |r| == if n < |s| then n else |s|
  {
    if n < 0 || n >= |s| then s else s[..n]
  }

  /** `get_matches_for_profile`: the profile's matches scoring at least `minScore`, highest first, at most `limit` of them (ties in rowid order). */
  function MatchesForProfile(t: Tables, profileId: int, minScore: real, limit: int): seq<Row<MatchCols>>
  {
    Limit(SortDesc(Filter(t.matches, Selected(profileId, minScore, Ids(t.jobs))), ScoreKey()), limit)
  }

  /** Only the profile's matches at or above the minimum score are returned, highest score first, at most `limit`. */
  lemma MatchesForProfileOnly(t: Tables, profileId: int, minScore: real, limit: int)
    ensures var r := MatchesForProfile(t, profileId, minScore, limit);
      SortedDesc(r, ScoreKey())
      && (limit >= 0 ==> |r| <= limit)
      && forall x :: x in r ==> x in t.matches && x.cols.profileId == profileId && x.cols.score >= minScore
  {
    var f := Filter(t.matches, Selected(profileId, minScore, Ids(t.jobs)));
    var sorted := SortDesc(f, ScoreKey());
    var r := MatchesForProfile(t, profileId, minScore, limit);
    SortDescCorrect(f, ScoreKey());
    forall x | x in r ensures x in t.matches && x.cols.profileId == profileId && x.cols.score >= minScore {
      assert x in multiset(sorted);
      FilterIn(t.matches, Selected(profileId, minScore, Ids(t.jobs)), x);
    }
  }

  /** What a limit cuts off a sorted sequence scores no higher than what it keeps. */
  lemma LimitKeepsBest<T>(s: seq<T>, key: T -> real, n: int, j: int)
    requires SortedDesc(s, key) && 0 <= j < |s| && s[j] !in Limit(s, n)
    ensures |Limit(s, n)| == n && forall y :: y in Limit(s, n) ==> key(y) >= key(s[j])
  {
    var r := Limit(s, n);
    forall y | y in r ensures key(y) >= key(s[j]) {
      var i :| 0 <= i < |r| && r[i] == y;
      assert s[i] == y;
    }
  }

  /** Every match of the profile at or above the minimum score is returned, unless `limit` rows were returned, all scoring at least as high. */
  lemma MatchesForProfileAll(t: Tables, profileId: int, minScore: real, limit: int, x: Row<MatchCols>)
    requires t.Valid() && x in t.matches && x.cols.profileId == profileId && x.cols.score >= minScore
    ensures var r := MatchesForProfile(t, profileId, minScore, limit);
      x in r || (|r| == limit && forall y :: y in r ==> y.cols.score >= x.cols.score)
  {
    var p := Selected(profileId, minScore, Ids(t.jobs));
    var f := Filter(t.matches, p);
    var sorted := SortDesc(f, ScoreKey());
    FilterMembers(t.matches, p);
    assert x in f;
    assert x in multiset(sorted);
    SortDescCorrect(f, ScoreKey());
    var j :| 0 <= j < |sorted| && sorted[j] == x;
    if x !in Limit(sorted, limit) {
      LimitKeepsBest(sorted, ScoreKey(), limit, j);
    }
  }

  /** `get_top_matches`: minimum score 50. */
  function GetTopMatches(t: Tables, profileId: int, limit: int): (r: seq<Row<MatchCols>>)
    ensures forall x :: x in r ==> x in t.matches && x.cols.profileId == profileId && x.cols.score >= 50.0
    ensures limit >= 0 ==> |r| <= limit
  {
    MatchesForProfileOnly(t, profileId, 50.0, limit);
    MatchesForProfile(t, profileId, 50.0, limit)
  }

  function MatchOf(profileId: int): Row<MatchCols> -> bool
  {
    (r: Row<MatchCols>) => r.cols.profileId == profileId
  }

  /** Deleting a profile's matches keeps every constraint of the schema and removes all and only its matches. */
  lemma DeleteMatchesValid(t: Tables, profileId: int)
    requires t.Valid()
    ensures var t' := t.(matches := Filter(t.matches, MatchNotOf(profileId)));
      t'.Valid()
      && (forall r :: r in t'.matches <==> r in t.matches && r.cols.profileId != profileId)
      && |t.matches| - |t'.matches| == |Filter(t.matches, MatchOf(profileId))|
  {
    var t' := t.(matches := Filter(t.matches, MatchNotOf(profileId)));
    IdsBelowFilter(t.matches, t.nextMatchId, MatchNotOf(profileId));
    MatchPairsUniqueFilter(t.matches, MatchNotOf(profileId));
    FilterMembers(t.matches, MatchNotOf(profileId));
    FilterPartition(t.matches, MatchOf(profileId), MatchNotOf(profileId));
  }

  /** `delete_matches_for_profile`; returns the number of rows deleted. */
  method DeleteMatchesForProfile(db: Database, profileId: int) returns (count: int)
    requires db.Valid()
    modifies db
    ensures db.Valid()
    ensures db.tables == old(db.tables).(matches := Filter(old(db.tables.matches), MatchNotOf(profileId)))
    ensures count == |Filter(old(db.tables.matches), MatchOf(profileId))|
  {
    DeleteMatchesValid(db.tables, profileId);
    count := |Filter(db.tables.matches, MatchOf(profileId))|;
    db.tables := db.tables.(matches := Filter(db.tables.matches, MatchNotOf(profileId)));
  }
}
