/**
 * Search queries generated from a profile's skills: the skills sorted by
 * years of experience, filtered to intermediate or advanced technical
 * skills and tools, turned into single-skill queries and the top-two and
 * top-three combinations, deduplicated and capped.
 *
 * The profile is passed in (it is what the database returns for the
 * profile id, or `None`). Skill rows read back from the database always
 * have a name, because the `skills.name` column is NOT NULL.
 */
module SkillQueries {
  import opened Wrappers
  import opened PyText
  import opened Records
  import opened Seqs
  import Schema
  import Db = Queries

  /** The `ValueError`s the generator raises, and the `TypeError` of sorting `None` years. */
  datatype QueryError = ProfileNotFound | NoSkills | UnorderableYears

  /** `s.get('years', 0)` for a skill whose years are not NULL. */
  function YearsOf(s: SkillData): real
  {
    if s.years.Given? then s.years.value else 0.0
  }

  function YearsKey(): SkillData -> real
  {
    (s: SkillData) => YearsOf(s)
  }

  /** A technical skill or tool at intermediate or advanced level. */
  predicate IsCandidate(s: SkillData)
  {
    (s.category == Given("technical") || s.category == Given("tool"))
    && (s.level == Given("intermediate") || s.level == Given("advanced"))
  }

  function CandidateFilter(): SkillData -> bool
  {
    (s: SkillData) => IsCandidate(s)
  }

  /** Every skill has a name. */
  predicate Named(skills: seq<SkillData>)
  {
    forall i :: 0 <= i < |skills| ==> skills[i].name.Given?
  }

  /** `sorted` compares keys only when there are at least two skills; a `None` key cannot be compared. */
  predicate YearsOrderable(skills: seq<SkillData>)
  {
    |skills| < 2 || forall i :: 0 <= i < |skills| ==> !skills[i].years.Null?
  }

  /** `technical_skills`: the candidates, most years first, ties in profile order. */
  function Candidates(skills: seq<SkillData>): seq<SkillData>
  {
    Filter(SortDesc(skills, YearsKey()), CandidateFilter())
  }

  /** `skill['name']` */
  function NameOf(s: SkillData): string
  {
    if s.name.Given? then s.name.value else ""
  }

  /** The names of a list of skills, in order. */
  function NamesOf(skills: seq<SkillData>): (names: seq<string>)
    ensures |names| == |skills|
    decreases |skills|
  {
    if skills == [] then [] else NamesOf(skills[..|skills| - 1]) + [NameOf(skills[|skills| - 1])]
  }

  /** The top-two and top-three combinations, when there are that many candidates. */
  function Combinations(cands: seq<SkillData>): (r: seq<string>)
    ensures |r| <= 2
    ensures |cands| < 2 ==> r == []
  {
    if |cands| >= 2 then
      [NameOf(cands[0]) + " " + NameOf(cands[1])]
      + (if |cands| >= 3 then [NameOf(cands[0]) + " " + NameOf(cands[1]) + " " + NameOf(cands[2])] else [])
    else []
  }

  /** `queries` before deduplication: one per candidate up to the cap, then the combinations. */
  function RawQueries(cands: seq<SkillData>, maxQueries: int): seq<string>
  {
    NamesOf(Take(cands, maxQueries)) + Combinations(cands)
  }

  /** The generated queries for a profile whose skills can be sorted. */
  function Queries(skills: seq<SkillData>, maxQueries: int): seq<string>
  {
    Take(Dedupe(RawQueries(Candidates(skills), maxQueries)), maxQueries)
  }

  /** Names of a prefix are a prefix of the names. */
  lemma {:induction false} NamesOfPrefix(skills: seq<SkillData>, n: nat)
    requires n <= |skills|
    ensures NamesOf(skills[..n]) == NamesOf(skills)[..n]
    decreases |skills|
  {
    if n < |skills| {
      NamesOfPrefix(skills[..|skills| - 1], n);
      assert skills[..|skills| - 1][..n] == skills[..n];
    } else {
      assert skills[..n] == skills;
    }
  }

  /** Skills read back from the `skills` table always have a name: the column is NOT NULL. */
  lemma {:induction false} StoredSkillsNamed(rows: seq<Schema.Row<Schema.SkillCols>>, profileId: int)
    ensures Named(Db.ChildrenOf(rows, profileId, Db.SkillOwner(), Db.SkillReader()))
    decreases |rows|
  {
    if rows != [] {
      var init, last := rows[..|rows| - 1], rows[|rows| - 1];
      StoredSkillsNamed(init, profileId);
    }
  }

  /** So a profile that `get_profile` returns meets the precondition of `GenerateSkillBasedQueries`. */
  lemma GetProfileNamed(t: Schema.Tables, id: int)
    ensures Db.GetProfile(t, id).Some? ==> Named(Db.GetProfile(t, id).value.skills)
  {
    StoredSkillsNamed(t.skills, id);
  }

  /** `generate_skill_based_queries` */
  method GenerateSkillBasedQueries(profile: Option<ProfileData>, maxQueries: int) returns (r: Result<seq<string>, QueryError>)
    requires profile.Some? ==> Named(profile.value.skills)
    ensures profile.None? ==> r == Err(ProfileNotFound)
    ensures profile.Some? && profile.value.skills == [] ==> r == Err(NoSkills)
    ensures profile.Some? && profile.value.skills != [] && !YearsOrderable(profile.value.skills) ==> r == Err(UnorderableYears)
    ensures profile.Some? && profile.value.skills != [] && YearsOrderable(profile.value.skills) ==>
      r == Ok(Queries(profile.value.skills, maxQueries))
  {
    if profile.None? {
      return Err(ProfileNotFound);
    }
    var skills := profile.value.skills;
    if skills == [] {
      return Err(NoSkills);
    }
    if !YearsOrderable(skills) {
      return Err(UnorderableYears);
    }
    var technical := Candidates(skills);
    var queries := BuildQueries(technical, maxQueries);
    var unique := DedupeQueries(queries);
    return Ok(Take(unique, maxQueries));
  }

  /** The query-building loop: one query per top candidate, then the combinations. */
  method BuildQueries(technical: seq<SkillData>, maxQueries: int) returns (queries: seq<string>)
    ensures queries == RawQueries(technical, maxQueries)
  {
    queries := [];
    var top := Take(technical, maxQueries);
    var i := 0;
    while i < |top|
      invariant 0 <= i <= |top|
      invariant queries == NamesOf(top[..i])
    {
      assert top[..i + 1][..i] == top[..i];
      queries := queries + [NameOf(top[i])];
      i := i + 1;
    }
    assert top[..i] == top;
    if |technical| >= 2 {
      queries := queries + [NameOf(technical[0]) + " " + NameOf(technical[1])];
      if |technical| >= 3 {
        queries := queries + [NameOf(technical[0]) + " " + NameOf(technical[1]) + " " + NameOf(technical[2])];
      }
    }
  }

  /** The deduplication loop over a `seen` set: the first occurrence of each query, in order. */
  method DedupeQueries(queries: seq<string>) returns (unique: seq<string>)
    ensures unique == Dedupe(queries)
  {
    unique := [];
    var seen: set<string> := {};
    var j := 0;
    while j < |queries|
      invariant 0 <= j <= |queries|
      invariant unique == Dedupe(queries[..j])
      invariant forall q :: q in seen <==> q in unique
    {
      var q := queries[j];
      assert queries[..j + 1][..j] == queries[..j];
      if q !in seen {
        unique := unique + [q];
        seen := seen + {q};
      }
      j := j + 1;
    }
    assert queries[..j] == queries;
  }

  // ---------------------------------------------------------------------
  // Properties of the generated queries

  /** No query is generated twice. */
  lemma QueriesDistinct(skills: seq<SkillData>, maxQueries: int)
    ensures Distinct(Queries(skills, maxQueries))
  {
    DedupeDistinct(RawQueries(Candidates(skills), maxQueries));
  }

  /** At most `maxQueries` queries. */
  lemma QueriesBound(skills: seq<SkillData>, maxQueries: int)
    requires maxQueries >= 0
    ensures |Queries(skills, maxQueries)| <= maxQueries
  {
  }

  /** Every query is a candidate's name or a combination of candidates' names, in first-occurrence order. */
  lemma QueriesFromRaw(skills: seq<SkillData>, maxQueries: int)
    ensures var raw := RawQueries(Candidates(skills), maxQueries);
      Queries(skills, maxQueries) <= Dedupe(raw) && IsSubsequence(Dedupe(raw), raw)
  {
    DedupeSubsequence(RawQueries(Candidates(skills), maxQueries));
  }

  /** A skill is a candidate iff it is in the profile and is an intermediate or advanced technical skill or tool. */
  lemma CandidatesAre(skills: seq<SkillData>, s: SkillData)
    ensures s in Candidates(skills) <==> s in skills && IsCandidate(s)
  {
    var sorted := SortDesc(skills, YearsKey());
    FilterMembers(sorted, CandidateFilter());
    assert s in sorted <==> s in multiset(sorted);
    assert s in skills <==> s in multiset(skills);
  }

  /** Candidates come most years first. */
  lemma CandidatesSorted(skills: seq<SkillData>)
    ensures SortedDesc(Candidates(skills), YearsKey())
  {
    SortDescCorrect(skills, YearsKey());
    FilterSortedDesc(SortDesc(skills, YearsKey()), CandidateFilter(), YearsKey());
  }

  /** Filtering a list sorted by non-increasing key leaves it sorted. */
  lemma {:induction false} FilterSortedDesc<T>(s: seq<T>, p: T -> bool, key: T -> real)
    requires SortedDesc(s, key)
    ensures SortedDesc(Filter(s, p), key)
    decreases |s|
  {
    if s != [] {
      var init := s[..|s| - 1];
      var x := s[|s| - 1];
      assert SortedDesc(init, key);
      FilterSortedDesc(init, p, key);
      var f := Filter(init, p);
      if p(x) {
        forall y | y in f ensures key(y) >= key(x) {
          FilterIn(init, p, y);
          var k :| 0 <= k < |init| && init[k] == y;
          assert s[k] == y;
        }
        var g := f + [x];
        forall i, j | 0 <= i < j < |g| ensures key(g[i]) >= key(g[j]) {
          assert g[i] == f[i] && f[i] in f;
          if j < |f| {
            assert g[j] == f[j];
          }
        }
      }
    }
  }

  /** Without a candidate there is no query. */
  lemma NoCandidatesNoQueries(skills: seq<SkillData>, maxQueries: int)
    requires forall i :: 0 <= i < |skills| ==> !IsCandidate(skills[i])
    ensures Queries(skills, maxQueries) == []
  {
    if Candidates(skills) != [] {
      var s := Candidates(skills)[0];
      CandidatesAre(skills, s);
    }
    var none: seq<SkillData> := [];
    assert Take(none, maxQueries) == [];
  }

  /** With at least `maxQueries` candidates of distinct names the queries are exactly their names: the combinations are cut off. */
  lemma CombinationsCutOff(skills: seq<SkillData>, maxQueries: int)
    requires 0 <= maxQueries <= |Candidates(skills)|
    requires Distinct(NamesOf(Take(Candidates(skills), maxQueries)))
    ensures Queries(skills, maxQueries) == NamesOf(Candidates(skills)[..maxQueries])
  {
    var cands := Candidates(skills);
    var names := NamesOf(Take(cands, maxQueries));
    var raw := RawQueries(cands, maxQueries);
    assert raw[..|names|] == names;
    DedupePrefix(raw, |names|);
    DedupeOfDistinct(names);
    assert Take(cands, maxQueries) == cands[..maxQueries];
  }

  /** With fewer than `maxQueries` candidates of distinct names, two or more of them, the top-two combination is generated when it is not itself a name. */
  lemma TopTwoKept(skills: seq<SkillData>, maxQueries: int)
    requires 2 <= |Candidates(skills)| < maxQueries
    requires Distinct(NamesOf(Candidates(skills)))
    requires var c := Candidates(skills); NameOf(c[0]) + " " + NameOf(c[1]) !in NamesOf(c)
    ensures var c := Candidates(skills); NameOf(c[0]) + " " + NameOf(c[1]) in Queries(skills, maxQueries)
  {
    var cands := Candidates(skills);
    var names := NamesOf(cands);
    var pair := NameOf(cands[0]) + " " + NameOf(cands[1]);
    var raw := RawQueries(cands, maxQueries);
    assert Take(cands, maxQueries) == cands;
    assert raw[..|names| + 1] == names + [pair];
    DedupeOfDistinct(names);
    assert (names + [pair])[..|names|] == names;
    DedupePrefix(raw, |names| + 1);
    var d := Dedupe(raw);
    assert Dedupe(names + [pair]) == names + [pair];
    assert d[|names|] == pair;
  }
}
