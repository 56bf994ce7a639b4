/**
 * The skill taxonomy: a fixed table of canonical skills and their
 * synonyms, skill normalisation, synonym lookup, skill equivalence and the
 * deliberately loose substring matching of profile skills against job
 * requirements.
 */
module Taxonomy {
  import opened Wrappers
  import opened PyText
  import opened Seqs
  import opened SkillTable

  // ---------------------------------------------------------------------
  // Normalisation

  /** Lowercase, then trim surrounding whitespace. */
  function NormalizeSkill(skill: string): string
  {
    Strip(Lower(skill))
  }

  /** The normal form has no capital letter, no outer whitespace, and is no longer than the text. */
  lemma NormalizeIsNormal(skill: string)
    ensures NoUpper(NormalizeSkill(skill)) && Stripped(NormalizeSkill(skill))
    ensures |NormalizeSkill(skill)| <= |skill|
  {
    LowerNoUpper(skill);
    StripKeepsNoUpper(Lower(skill));
  }

  /** Normalising twice is normalising once. */
  lemma NormalizeIdempotent(skill: string)
    ensures NormalizeSkill(NormalizeSkill(skill)) == NormalizeSkill(skill)
  {
    var n := NormalizeSkill(skill);
    NormalizeIsNormal(skill);
    LowerOfNoUpper(n);
    StripOfStripped(n);
  }

  /** A text already lowercase and trimmed is its own normal form. */
  lemma NormalizeOfNormal(s: string)
    requires NoUpper(s) && Stripped(s)
    ensures NormalizeSkill(s) == s
  {
    LowerOfNoUpper(s);
    StripOfStripped(s);
  }

  /** The normal form of a text whose lowercase form is already trimmed. */
  lemma NormalizeOfTrimmedLower(s: string, n: string)
    requires Lower(s) == n && Stripped(n)
    ensures NormalizeSkill(s) == n
  {
    StripOfStripped(n);
  }

  /** A text that neither starts nor ends with whitespace normalises to its lowercase form. */
  lemma NormalizeOfUnpadded(s: string)
    requires Stripped(s)
    ensures NormalizeSkill(s) == Lower(s)
  {
    LowerChars(s);
    if s != [] {
      LowerCharSpec(s[0]);
      LowerCharSpec(s[|s| - 1]);
    }
    StripOfStripped(Lower(s));
  }

  /** A word occurring in an unpadded text occurs, lowercased, at the same place in its normal form. */
  lemma NormalizedOccurs(s: string, i: nat, word: string)
    requires Stripped(s) && OccursAt(s, word, i)
    ensures OccursAt(NormalizeSkill(s), Lower(word), i)
  {
    NormalizeOfUnpadded(s);
    LowerOccurs(s, word, i);
  }

  /** A lowercase letter absent from a text in both cases is absent from its normal form. */
  lemma NormalizedLacks(s: string, c: char)
    requires IsLowerLetter(c) && c !in s && UpperChar(c) !in s
    ensures c !in NormalizeSkill(s)
  {
    LowerKeepsAbsent(s, c);
    StripKeepsAbsent(Lower(s), c);
  }

  // ---------------------------------------------------------------------
  // The table as a dictionary

  /** The elements of a list, as a set (Python's `set.update(list)`). */
  function Elements(xs: seq<string>): (r: set<string>)
    ensures forall x :: x in r <==> x in xs
  {
    set x | x in xs
  }

  /** The synonym group of entry `i`: its key together with its list. */
  function GroupOf(t: Table, i: nat): (r: set<string>)
    requires i < |t|
    ensures t[i].0 in r
    ensures forall s :: s in r <==> s == t[i].0 || s in t[i].1
  {
    {t[i].0} + Elements(t[i].1)
  }

  /** A character shared by the key and every listed synonym of entry `i` occurs in every member of the group. */
  lemma GroupHasChar(t: Table, i: nat, c: char)
    requires i < |t| && c in t[i].0 && forall n | n in t[i].1 :: c in n
    ensures forall n | n in GroupOf(t, i) :: c in n
  {
  }

  /** Entry `i` is keyed `n`. */
  predicate KeyAt(t: Table, n: string, i: int)
  {
    0 <= i < |t| && t[i].0 == n
  }

  /** Entry `i` lists `n` or is keyed `n` (the test of the scan). */
  predicate ListedAt(t: Table, n: string, i: int)
  {
    0 <= i < |t| && (n in t[i].1 || n == t[i].0)
  }

  /** `n in SKILL_SYNONYMS`: the first entry at or after `i` keyed `n`, if any. */
  function KeyIndexFrom(t: Table, n: string, i: nat): (r: Option<nat>)
    requires i <= |t|
    ensures r.Some? ==> i <= r.value && KeyAt(t, n, r.value)
    ensures r.None? ==> forall j :: i <= j ==> !KeyAt(t, n, j)
    decreases |t| - i
  {
    if i == |t| then None
    else if t[i].0 == n then Some(i)
    else KeyIndexFrom(t, n, i + 1)
  }

  /** The first entry at or after `i` that lists or is keyed `n`. */
  function ListedIndexFrom(t: Table, n: string, i: nat): (r: Option<nat>)
    requires i <= |t|
    ensures r.Some? ==> i <= r.value && ListedAt(t, n, r.value)
    ensures r.Some? ==> forall j :: i <= j < r.value ==> !ListedAt(t, n, j)
    ensures r.None? ==> forall j :: i <= j ==> !ListedAt(t, n, j)
    decreases |t| - i
  {
    if i == |t| then None
    else if ListedAt(t, n, i) then Some(i)
    else ListedIndexFrom(t, n, i + 1)
  }

  /**
   * The synonym set of a skill: the group of the entry keyed by its normal
   * form; else the group of the first entry listing it; else the normal
   * form alone.
   */
  function SynonymsIn(t: Table, skill: string): (r: set<string>)
    ensures NormalizeSkill(skill) in r
  {
    var n := NormalizeSkill(skill);
    match KeyIndexFrom(t, n, 0)
    case Some(i) => GroupOf(t, i)
    case None =>
      match ListedIndexFrom(t, n, 0)
      case Some(i) => GroupOf(t, i)
      case None => {n}
  }

  /** The synonym set of a skill under the built-in table. */
  function Synonyms(skill: string): set<string>
  {
    SynonymsIn(SkillSynonyms(), skill)
  }

  /** `find_skill_synonyms` over a given table: a key lookup, then a scan of the table, then the fallback. */
  method FindSynonymsIn(table: Table, skill: string) returns (synonyms: set<string>)
    ensures synonyms == SynonymsIn(table, skill)
  {
    var normalized := NormalizeSkill(skill);
    var key := KeyIndexFrom(table, normalized, 0);
    if key.Some? {
      synonyms := {normalized} + Elements(table[key.value].1);
      return;
    }
    var i := 0;
    while i < |table|
      invariant 0 <= i <= |table|
      invariant ListedIndexFrom(table, normalized, 0) == ListedIndexFrom(table, normalized, i)
    {
      var (canonical, synonymList) := table[i];
      if normalized in synonymList || normalized == canonical {
        synonyms := {canonical} + Elements(synonymList);
        return;
      }
      i := i + 1;
    }
    synonyms := {normalized};
  }

  /** `find_skill_synonyms` with the built-in table. */
  method FindSkillSynonyms(skill: string) returns (synonyms: set<string>)
    ensures synonyms == Synonyms(skill)
  {
    synonyms := FindSynonymsIn(SkillSynonyms(), skill);
  }

  /** Two distinct entries of a well-formed table share no name, whichever comes first. */
  lemma EntriesOfWellFormed(t: Table, i: nat, j: nat)
    requires WellFormed(t) && i < |t| && j < |t| && i != j
    ensures t[i].0 != t[j].0 && t[i].0 !in t[j].1
    ensures forall s :: s in t[i].1 ==> s != t[j].0 && s !in t[j].1
  {
    if i < j {
      assert EntriesApart(t[i], t[j]);
    } else {
      assert EntriesApart(t[j], t[i]);
    }
  }

  /** In a well-formed table the only entry that lists or is keyed by a member of group `i` is entry `i`. */
  lemma OnlyGroup(t: Table, i: nat, s: string, j: nat)
    requires WellFormed(t) && i < |t| && s in GroupOf(t, i) && ListedAt(t, s, j)
    ensures j == i
  {
    if j != i {
      EntriesOfWellFormed(t, i, j);
    }
  }

  /** In a well-formed table a listed synonym is nobody's key. */
  lemma ListedIsNoKey(t: Table, i: nat, s: string)
    requires WellFormed(t) && i < |t| && s in t[i].1
    ensures forall j :: !KeyAt(t, s, j)
  {
    forall j | 0 <= j < |t| ensures t[j].0 != s {
      if j == i {
        assert EntryNormal(t[i]);
      } else {
        EntriesOfWellFormed(t, i, j);
      }
    }
  }

  // ---------------------------------------------------------------------
  // Properties of the lookup

  /** The normal form of a skill is always among its synonyms, which are therefore never empty. */
  lemma NormalizedIsSynonym(skill: string)
    ensures NormalizeSkill(skill) in Synonyms(skill)
    ensures Synonyms(skill) != {}
  {
  }

  /** A canonical key yields its key together with its synonym list. */
  lemma {:induction false} SynonymsOfKeyIn(t: Table, i: nat)
    requires WellFormed(t) && i < |t|
    ensures SynonymsIn(t, t[i].0) == GroupOf(t, i)
  {
    var k := t[i].0;
    assert EntryNormal(t[i]);
    NormalizeOfNormal(k);
    var found := KeyIndexFrom(t, k, 0);
    assert KeyAt(t, k, i);
    if found.value != i {
      EntriesOfWellFormed(t, i, found.value);
    }
  }

  /** Any text whose normal form is a member of group `i` of a well-formed table yields group `i`. */
  lemma {:induction false} SynonymsOfMemberIn(t: Table, skill: string, i: nat)
    requires WellFormed(t) && i < |t| && NormalizeSkill(skill) in GroupOf(t, i)
    ensures SynonymsIn(t, skill) == GroupOf(t, i)
  {
    var n := NormalizeSkill(skill);
    if n == t[i].0 {
      assert KeyAt(t, n, i);
      var found := KeyIndexFrom(t, n, 0);
      if found.value != i {
        EntriesOfWellFormed(t, i, found.value);
      }
    } else {
      assert n in t[i].1;
      ListedIsNoKey(t, i, n);
      assert KeyIndexFrom(t, n, 0).None?;
      assert ListedAt(t, n, i);
      var found := ListedIndexFrom(t, n, 0);
      OnlyGroup(t, i, n, found.value);
    }
  }

  /** `find_skill_synonyms(k)` for a canonical key `k` is `{k}` together with its list. */
  lemma SynonymsOfKey(i: nat)
    requires i < |SkillSynonyms()|
    ensures Synonyms(SkillSynonyms()[i].0) == {SkillSynonyms()[i].0} + Elements(SkillSynonyms()[i].1)
  {
    SkillSynonymsWellFormed();
    SynonymsOfKeyIn(SkillSynonyms(), i);
  }

  /** Each listed synonym of a key yields the same set as the key. */
  lemma SynonymsOfListed(i: nat, s: string)
    requires i < |SkillSynonyms()| && s in SkillSynonyms()[i].1
    ensures Synonyms(s) == Synonyms(SkillSynonyms()[i].0)
  {
    SkillSynonymsWellFormed();
    SynonymsOfListedIn(SkillSynonyms(), i, s);
  }

  lemma SynonymsOfListedIn(t: Table, i: nat, s: string)
    requires WellFormed(t) && i < |t| && s in t[i].1
    ensures SynonymsIn(t, s) == SynonymsIn(t, t[i].0)
  {
    assert EntryNormal(t[i]);
    NormalizeOfNormal(s);
    SynonymsOfMemberIn(t, s, i);
    SynonymsOfKeyIn(t, i);
  }

  /** Any skill whose normal form is in group `i` yields group `i`. */
  lemma SynonymsOfGroupMember(skill: string, i: nat)
    requires i < |SkillSynonyms()| && NormalizeSkill(skill) in GroupOf(SkillSynonyms(), i)
    ensures Synonyms(skill) == GroupOf(SkillSynonyms(), i)
  {
    SkillSynonymsWellFormed();
    SynonymsOfMemberIn(SkillSynonyms(), skill, i);
  }

  /** A skill that is neither a key nor a listed synonym yields exactly its normal form. */
  lemma SynonymsOfUnknown(skill: string)
    requires forall i :: 0 <= i < |SkillSynonyms()| ==> NormalizeSkill(skill) !in GroupOf(SkillSynonyms(), i)
    ensures Synonyms(skill) == {NormalizeSkill(skill)}
  {
    var t, n := SkillSynonyms(), NormalizeSkill(skill);
    forall i | 0 <= i < |t| ensures !KeyAt(t, n, i) && !ListedAt(t, n, i) {
      assert n !in GroupOf(t, i);
    }
  }

  /** Every synonym set is a table group or the singleton normal form. */
  lemma SynonymsShapeIn(t: Table, skill: string)
    ensures (exists i :: 0 <= i < |t| && SynonymsIn(t, skill) == GroupOf(t, i))
         || SynonymsIn(t, skill) == {NormalizeSkill(skill)}
  {
    var n := NormalizeSkill(skill);
    match KeyIndexFrom(t, n, 0)
    case Some(i) =>
      assert SynonymsIn(t, skill) == GroupOf(t, i);
    case None =>
      match ListedIndexFrom(t, n, 0)
      case Some(i) =>
        assert SynonymsIn(t, skill) == GroupOf(t, i);
      case None =>
  }

  // ---------------------------------------------------------------------
  // Skill equivalence

  /** `skills_match`: the two synonym sets intersect. */
  predicate SkillsMatch(skill1: string, skill2: string)
  {
    Synonyms(skill1) * Synonyms(skill2) != {}
  }

  lemma SkillsMatchSymmetric(a: string, b: string)
    ensures SkillsMatch(a, b) <==> SkillsMatch(b, a)
  {
    assert Synonyms(a) * Synonyms(b) == Synonyms(b) * Synonyms(a);
  }

  lemma SkillsMatchReflexive(a: string)
    ensures SkillsMatch(a, a)
  {
    assert NormalizeSkill(a) in Synonyms(a) * Synonyms(a);
  }

  /** Normal forms fall in one table group, or coincide. */
  predicate SameGroup(a: string, b: string)
  {
    var na, nb := NormalizeSkill(a), NormalizeSkill(b);
    na == nb || exists i :: 0 <= i < |SkillSynonyms()| && na in GroupOf(SkillSynonyms(), i) && nb in GroupOf(SkillSynonyms(), i)
  }

  lemma {:induction false} MatchImpliesSameGroup(a: string, b: string)
    requires SkillsMatch(a, b)
    ensures SameGroup(a, b)
  {
    var t, na, nb := SkillSynonyms(), NormalizeSkill(a), NormalizeSkill(b);
    SkillSynonymsWellFormed();
    var s :| s in Synonyms(a) * Synonyms(b);
    SynonymsShapeIn(t, a);
    SynonymsShapeIn(t, b);
    if ia :| 0 <= ia < |t| && Synonyms(a) == GroupOf(t, ia) {
      if ib :| 0 <= ib < |t| && Synonyms(b) == GroupOf(t, ib) {
        assert ListedAt(t, s, ib);
        OnlyGroup(t, ia, s, ib);
        assert na in GroupOf(t, ia) && nb in GroupOf(t, ia);
      } else {
        assert na in GroupOf(t, ia) && nb in GroupOf(t, ia);
      }
    } else if ib :| 0 <= ib < |t| && Synonyms(b) == GroupOf(t, ib) {
      assert na in GroupOf(t, ib) && nb in GroupOf(t, ib);
    }
  }

  lemma {:induction false} SameGroupImpliesMatch(a: string, b: string)
    requires SameGroup(a, b)
    ensures SkillsMatch(a, b)
  {
    var na, nb := NormalizeSkill(a), NormalizeSkill(b);
    if na == nb {
      assert na in Synonyms(a) * Synonyms(b);
    } else {
      var i :| 0 <= i < |SkillSynonyms()| && na in GroupOf(SkillSynonyms(), i) && nb in GroupOf(SkillSynonyms(), i);
      SynonymsOfGroupMember(a, i);
      SynonymsOfGroupMember(b, i);
      assert SkillSynonyms()[i].0 in Synonyms(a) * Synonyms(b);
    }
  }

  /** Skills match exactly when their normal forms coincide or fall in the same table group. */
  lemma SkillsMatchIff(a: string, b: string)
    ensures SkillsMatch(a, b) <==> SameGroup(a, b)
  {
    if SkillsMatch(a, b) {
      MatchImpliesSameGroup(a, b);
    }
    if SameGroup(a, b) {
      SameGroupImpliesMatch(a, b);
    }
  }

  /** A text whose lowercase form is a trimmed member of group `i` has that group as its synonyms. */
  lemma SynonymsViaLower(s: string, n: string, i: nat)
    requires i < |SkillSynonyms()| && Lower(s) == n && Stripped(n) && n in GroupOf(SkillSynonyms(), i)
    ensures Synonyms(s) == GroupOf(SkillSynonyms(), i)
  {
    NormalizeOfTrimmedLower(s, n);
    SynonymsOfGroupMember(s, i);
  }

  /** Two texts with the same synonym group match. */
  lemma MatchBySharedGroup(a: string, b: string, i: nat)
    requires i < |SkillSynonyms()| && Synonyms(a) == GroupOf(SkillSynonyms(), i) && Synonyms(b) == GroupOf(SkillSynonyms(), i)
    ensures SkillsMatch(a, b)
  {
    assert SkillSynonyms()[i].0 in Synonyms(a) * Synonyms(b);
  }

  lemma SynonymsOfSql() ensures Synonyms("SQL") == GroupOf(SkillSynonyms(), 2) {
    LowerOf("SQL", "sql");
    SynonymsViaLower("SQL", "sql", 2);
  }
  lemma SynonymsOfPostgres() ensures Synonyms("PostgreSQL") == GroupOf(SkillSynonyms(), 2) {
    LowerOf("PostgreSQL", "postgresql");
    SynonymsViaLower("PostgreSQL", "postgresql", 2);
  }
  lemma SynonymsOfPowerBi() ensures Synonyms("Power BI") == GroupOf(SkillSynonyms(), 4) {
    LowerOf("Power BI", "power bi");
    SynonymsViaLower("Power BI", "power bi", 4);
  }
  lemma SynonymsOfMicrosoftPowerBi() ensures Synonyms("Microsoft Power BI") == GroupOf(SkillSynonyms(), 4) {
    LowerOf("Microsoft Power BI", "microsoft power bi");
    SynonymsViaLower("Microsoft Power BI", "microsoft power bi", 4);
  }

  /** 'SQL' matches 'PostgreSQL'. */
  lemma SqlMatchesPostgres()
    ensures SkillsMatch("SQL", "PostgreSQL")
  {
    SynonymsOfSql();
    SynonymsOfPostgres();
    MatchBySharedGroup("SQL", "PostgreSQL", 2);
  }

  /** 'Power BI' matches 'Microsoft Power BI'. */
  lemma PowerBiMatchesMicrosoftPowerBi()
    ensures SkillsMatch("Power BI", "Microsoft Power BI")
  {
    SynonymsOfPowerBi();
    SynonymsOfMicrosoftPowerBi();
    MatchBySharedGroup("Power BI", "Microsoft Power BI", 4);
  }

  // ---------------------------------------------------------------------
  // Matching profile skills against requirements

  /** Some synonym of `skill` under table `t` occurs inside the normal form of `req`. */
  predicate HitsRequirement(t: Table, skill: string, req: string)
  {
    exists syn | syn in SynonymsIn(t, skill) :: Contains(NormalizeSkill(req), syn)
  }

  /** Some requirement is hit by `skill`. */
  predicate HitsAny(t: Table, skill: string, reqs: seq<string>)
  {
    exists k | 0 <= k < |reqs| :: HitsRequirement(t, skill, reqs[k])
  }

  /** The test a profile skill must pass to be matched against `reqs` under table `t`. */
  function HitsIn(t: Table, reqs: seq<string>): string -> bool
  {
    skill => HitsAny(t, skill, reqs)
  }

  /** The matched skills under table `t`: the first occurrence of each hitting profile skill, in profile order. */
  function MatchedSkillsIn(t: Table, skills: seq<string>, reqs: seq<string>): seq<string>
  {
    Dedupe(Filter(skills, HitsIn(t, reqs)))
  }

  /** The matched skills under the built-in table. */
  function MatchedSkills(skills: seq<string>, reqs: seq<string>): seq<string>
  {
    MatchedSkillsIn(SkillSynonyms(), skills, reqs)
  }

  /** One more profile skill is appended to the matches iff it hits a requirement and is not matched yet. */
  lemma MatchedSnoc(t: Table, skills: seq<string>, x: string, reqs: seq<string>)
    ensures MatchedSkillsIn(t, skills + [x], reqs) ==
      if HitsAny(t, x, reqs) && x !in MatchedSkillsIn(t, skills, reqs) then MatchedSkillsIn(t, skills, reqs) + [x]
      else MatchedSkillsIn(t, skills, reqs)
  {
    DedupeFilterSnoc(skills, x, HitsIn(t, reqs));
  }

  /** A requirement in which none of the skill's synonyms occurs is not hit. */
  lemma NoSynonymNoHit(t: Table, skill: string, req: string, syns: set<string>)
    requires syns == SynonymsIn(t, skill)
    requires forall syn | syn in syns :: !Contains(NormalizeSkill(req), syn)
    ensures !HitsRequirement(t, skill, req)
  {
  }

  /** None of the first `k` requirements is hit by `skill`. */
  predicate NoHitBefore(t: Table, skill: string, reqs: seq<string>, k: nat)
    requires k <= |reqs|
  {
    forall m :: 0 <= m < k ==> !HitsRequirement(t, skill, reqs[m])
  }

  lemma NoHitStep(t: Table, skill: string, reqs: seq<string>, k: nat)
    requires k < |reqs| && NoHitBefore(t, skill, reqs, k) && !HitsRequirement(t, skill, reqs[k])
    ensures NoHitBefore(t, skill, reqs, k + 1)
  {
  }

  /** The scan of `extract_matched_skills` over table `t`: for each profile skill, try the requirements until one is hit. */
  method ExtractMatchedSkillsIn(table: Table, profileSkills: seq<string>, jobRequirements: seq<string>) returns (matched: seq<string>)
    ensures matched == MatchedSkillsIn(table, profileSkills, jobRequirements)
  {
    matched := [];
    for i := 0 to |profileSkills|
      invariant matched == MatchedSkillsIn(table, profileSkills[..i], jobRequirements)
    {
      var profileSkill := profileSkills[i];
      assert profileSkills[..i + 1] == profileSkills[..i] + [profileSkill];
      MatchedSnoc(table, profileSkills[..i], profileSkill, jobRequirements);
      var profileSyns := FindSynonymsIn(table, profileSkill);
      var k := 0;
      while k < |jobRequirements|
        invariant 0 <= k <= |jobRequirements|
        invariant NoHitBefore(table, profileSkill, jobRequirements, k)
        invariant matched == MatchedSkillsIn(table, profileSkills[..i], jobRequirements)
      {
        var reqNormalized := NormalizeSkill(jobRequirements[k]);
        if exists syn | syn in profileSyns :: Contains(reqNormalized, syn) {
          assert HitsRequirement(table, profileSkill, jobRequirements[k]);
          if profileSkill !in matched {
            matched := matched + [profileSkill];
          }
          break;
        }
        NoSynonymNoHit(table, profileSkill, jobRequirements[k], profileSyns);
        NoHitStep(table, profileSkill, jobRequirements, k);
        k := k + 1;
      }
    }
    assert profileSkills[..|profileSkills|] == profileSkills;
  }

  /** `extract_matched_skills`, over the built-in table. */
  method ExtractMatchedSkills(profileSkills: seq<string>, jobRequirements: seq<string>) returns (matched: seq<string>)
    ensures matched == MatchedSkills(profileSkills, jobRequirements)
  {
    matched := ExtractMatchedSkillsIn(SkillSynonyms(), profileSkills, jobRequirements);
  }

  /** The result is a duplicate-free subsequence of the profile skills, spelled as they are written there. */
  lemma MatchedIsDistinctSubsequence(t: Table, skills: seq<string>, reqs: seq<string>)
    ensures Distinct(MatchedSkillsIn(t, skills, reqs))
    ensures IsSubsequence(MatchedSkillsIn(t, skills, reqs), skills)
  {
    var h := Filter(skills, HitsIn(t, reqs));
    DedupeDistinct(h);
    DedupeSubsequence(h);
    FilterSubsequence(skills, HitsIn(t, reqs));
    SubsequenceTransitive(Dedupe(h), h, skills);
  }

  /** A profile skill is matched iff one of its synonyms occurs inside some normalised requirement. */
  lemma MatchedIff(t: Table, skills: seq<string>, reqs: seq<string>, x: string)
    ensures x in MatchedSkillsIn(t, skills, reqs) <==>
      x in skills && exists k, syn :: 0 <= k < |reqs| && syn in SynonymsIn(t, x) && Contains(NormalizeSkill(reqs[k]), syn)
  {
    FilterMembers(skills, HitsIn(t, reqs));
    DedupeMembers(Filter(skills, HitsIn(t, reqs)));
  }

  /** No requirements, no matches. */
  lemma MatchedWithoutRequirements(t: Table, skills: seq<string>)
    ensures MatchedSkillsIn(t, skills, []) == []
  {
    FilterNone(skills, HitsIn(t, []));
  }

  /** Adding a profile skill keeps every earlier match, in the same positions. */
  lemma MatchedMonotonic(t: Table, skills: seq<string>, extra: string, reqs: seq<string>)
    ensures MatchedSkillsIn(t, skills, reqs) <= MatchedSkillsIn(t, skills + [extra], reqs)
  {
    DedupeFilterMonotonic(skills, extra, HitsIn(t, reqs));
  }

  /** A synonym that occurs inside the normalised requirement makes a hit. */
  lemma HitBySynonym(t: Table, skill: string, req: string, syn: string)
    requires syn in SynonymsIn(t, skill) && Contains(NormalizeSkill(req), syn)
    ensures HitsRequirement(t, skill, req)
  {
  }

  lemma SynonymsOfPython() ensures Synonyms("Python") == GroupOf(SkillSynonyms(), 0) {
    LowerOf("Python", "python");
    SynonymsViaLower("Python", "python", 0);
  }

  lemma PyIsPythonSynonym() ensures "py" in Synonyms("Python") {
    SynonymsOfPython();
    assert "py" in PythonEntry().1;
  }

  lemma PyOccursInHappy() ensures Contains(NormalizeSkill("happy"), "py") {
    LowerOf("happy", "happy");
    NormalizeOfTrimmedLower("happy", "happy");
    assert OccursAt("happy", "py", 3);
  }

  /** The substring test is as loose as written: "py" is a synonym of Python and occurs in "happy". */
  lemma PythonHitsHappy()
    ensures HitsRequirement(SkillSynonyms(), "Python", "happy")
  {
    PyIsPythonSynonym();
    PyOccursInHappy();
    HitBySynonym(SkillSynonyms(), "Python", "happy", "py");
  }
}
