/**
 * Match scoring of a profile against a job: the basic skill-overlap score
 * with its advanced-skill bonus and missing-requirement list, the rule that
 * decides whether an external analyser replaces the basic result, and the
 * pure pieces of that analyser (the bounded summaries it sends, the fenced
 * JSON block it falls back to, and the notes it builds from the reply).
 *
 * The analyser itself (a remote language model) is an oracle: its outcome is
 * a parameter.  JSON decoding is a parameter `parse` with three outcomes
 * (a decoding error, a non-object, an object).  Scores are reals;
 * floating-point rounding is not modelled.
 */
module Scorer {
  import opened Wrappers
  import opened PyText
  import opened Seqs
  import opened Records
  import opened SkillTable
  import opened Taxonomy

  // ---------------------------------------------------------------------
  // The basic score

  function Min(a: real, b: real): (r: real)
    ensures r <= a && r <= b && (r == a || r == b)
  {
    if a <= b then a else b
  }

  /** The score before the bonus: 50 without requirements, else the matched share in percent, at most 100. */
  function BaseScore(matchedCount: nat, requirementCount: nat): (r: real)
    ensures 0.0 <= r <= 100.0
    ensures requirementCount == 0 ==> r == 50.0
    ensures requirementCount > 0 && matchedCount >= requirementCount ==> r == 100.0
    ensures requirementCount > 0 && matchedCount < requirementCount ==> r < 100.0
  {
    if requirementCount == 0 then 50.0
    else Min(matchedCount as real / requirementCount as real * 100.0, 100.0)
  }

  /** A skill entry whose name is matched and whose level is exactly 'advanced' earns the bonus. */
  predicate Advanced(s: SkillData, matched: seq<string>)
  {
    s.name.Given? && s.name.value in matched && s.level == Given("advanced")
  }

  /** How many skill entries earn the bonus. */
  function AdvancedCount(skills: seq<SkillData>, matched: seq<string>): (n: nat)
    ensures n <= |skills|
    decreases |skills|
  {
    if skills == [] then 0
    else AdvancedCount(skills[..|skills| - 1], matched) + if Advanced(skills[|skills| - 1], matched) then 1 else 0
  }

  /** The score after the bonus loop: each bonus-earning entry adds 5, capped at 100 at every step. */
  function Boosted(score: real, skills: seq<SkillData>, matched: seq<string>): real
    decreases |skills|
  {
    if skills == [] then score
    else
      var b := Boosted(score, skills[..|skills| - 1], matched);
      if Advanced(skills[|skills| - 1], matched) then Min(b + 5.0, 100.0) else b
  }

  /** Capping at every step is capping once: the bonus is 5 per entry, the total at most 100. */
  lemma {:induction false} BoostedClosedForm(score: real, skills: seq<SkillData>, matched: seq<string>)
    requires score <= 100.0
    ensures Boosted(score, skills, matched) == Min(score + 5.0 * AdvancedCount(skills, matched) as real, 100.0)
    decreases |skills|
  {
    if skills != [] {
      BoostedClosedForm(score, skills[..|skills| - 1], matched);
    }
  }

  /** The requirement contains the normal form of some matched skill (synonyms are not consulted here). */
  predicate Covered(req: string, matched: seq<string>)
  {
    exists m | m in matched :: Contains(NormalizeSkill(req), NormalizeSkill(m))
  }

  /** The requirements, in order, longer than 3 characters and not covered by a matched skill. */
  function Uncovered(reqs: seq<string>, matched: seq<string>): seq<string>
    decreases |reqs|
  {
    if reqs == [] then []
    else
      var u := Uncovered(reqs[..|reqs| - 1], matched);
      var x := reqs[|reqs| - 1];
      if |x| > 3 && !Covered(x, matched) then u + [x] else u
  }

  /** One more requirement joins the uncovered list iff it is long and uncovered. */
  lemma UncoveredSnoc(p: seq<string>, x: string, matched: seq<string>)
    ensures Uncovered(p + [x], matched) ==
      if |x| > 3 && !Covered(x, matched) then Uncovered(p, matched) + [x] else Uncovered(p, matched)
  {
    assert (p + [x])[..|p|] == p;
  }

  /** The uncovered requirements keep their order. */
  lemma {:induction false} UncoveredSubsequence(reqs: seq<string>, matched: seq<string>)
    ensures IsSubsequence(Uncovered(reqs, matched), reqs)
    decreases |reqs|
  {
    if reqs != [] {
      var p := reqs[..|reqs| - 1];
      var x := reqs[|reqs| - 1];
      var u := Uncovered(p, matched);
      UncoveredSubsequence(p, matched);
      assert p + [x] == reqs;
      if |x| > 3 && !Covered(x, matched) {
        SubsequenceSnoc(u, p, x);
      } else {
        SubsequenceExtend(u, p, x);
      }
    }
  }

  /** A requirement is uncovered iff it is one of `reqs`, longer than 3 characters, and covered by no matched name. */
  lemma {:induction false} UncoveredIff(reqs: seq<string>, matched: seq<string>, x: string)
    ensures x in Uncovered(reqs, matched) <==> x in reqs && |x| > 3 && !Covered(x, matched)
    decreases |reqs|
  {
    if reqs != [] {
      var p := reqs[..|reqs| - 1];
      assert reqs == p + [reqs[|reqs| - 1]];
      UncoveredIff(p, matched, x);
    }
  }

  /** The basic result for the given skill entries and requirements. */
  function BasicMatched(skills: seq<SkillData>, reqs: seq<string>): seq<string>
  {
    MatchedSkills(SkillNames(skills), reqs)
  }

  function BasicScore(skills: seq<SkillData>, reqs: seq<string>): real
  {
    var matched := BasicMatched(skills, reqs);
    Boosted(BaseScore(|matched|, |reqs|), skills, matched)
  }

  function BasicMissing(skills: seq<SkillData>, reqs: seq<string>): seq<string>
  {
    Take(Uncovered(reqs, BasicMatched(skills, reqs)), 10)
  }

  /** None of the first `j` matched skills' normal forms occurs in `reqNormalized`. */
  predicate NoCoverBefore(reqNormalized: string, matched: seq<string>, j: nat)
    requires j <= |matched|
  {
    forall k :: 0 <= k < j ==> !Contains(reqNormalized, NormalizeSkill(matched[k]))
  }

  lemma NoCoverStep(reqNormalized: string, matched: seq<string>, j: nat)
    requires j < |matched| && NoCoverBefore(reqNormalized, matched, j)
    requires !Contains(reqNormalized, NormalizeSkill(matched[j]))
    ensures NoCoverBefore(reqNormalized, matched, j + 1)
  {
  }

  lemma NoCoverAll(req: string, matched: seq<string>)
    requires NoCoverBefore(NormalizeSkill(req), matched, |matched|)
    ensures !Covered(req, matched)
  {
  }

  /** `calculate_basic_match_score` */
  method CalculateBasicMatchScore(profileSkills: seq<SkillData>, jobRequirements: seq<string>, jobDescription: Option<string>)
    returns (score: real, matched: seq<string>, missing: seq<string>)
    ensures matched == BasicMatched(profileSkills, jobRequirements)
    ensures score == BasicScore(profileSkills, jobRequirements)
    ensures missing == BasicMissing(profileSkills, jobRequirements)
  {
    var profileSkillNames := SkillNames(profileSkills);
    matched := ExtractMatchedSkills(profileSkillNames, jobRequirements);

    if |jobRequirements| == 0 {
      score := 50.0;
    } else {
      var matchRatio := |matched| as real / |jobRequirements| as real;
      score := Min(matchRatio * 100.0, 100.0);
    }
    ghost var base := score;
    assert base == BaseScore(|matched|, |jobRequirements|);

    for i := 0 to |profileSkills|
      invariant score == Boosted(base, profileSkills[..i], matched)
    {
      assert profileSkills[..i + 1][..i] == profileSkills[..i];
      var skill := profileSkills[i];
      if skill.name.Given? && skill.name.value in matched && skill.level == Given("advanced") {
        score := Min(score + 5.0, 100.0);
      }
    }
    assert profileSkills[..|profileSkills|] == profileSkills;

    var missingAll: seq<string> := [];
    for i := 0 to |jobRequirements|
      invariant missingAll == Uncovered(jobRequirements[..i], matched)
    {
      var req := jobRequirements[i];
      assert jobRequirements[..i + 1] == jobRequirements[..i] + [req];
      UncoveredSnoc(jobRequirements[..i], req, matched);
      var reqNormalized := NormalizeSkill(req);
      var isMatched := false;
      var j := 0;
      while j < |matched|
        invariant 0 <= j <= |matched|
        invariant !isMatched && NoCoverBefore(reqNormalized, matched, j)
      {
        if Contains(reqNormalized, NormalizeSkill(matched[j])) {
          isMatched := true;
          break;
        }
        NoCoverStep(reqNormalized, matched, j);
        j := j + 1;
      }
      if isMatched {
        assert Covered(req, matched);
      } else {
        NoCoverAll(req, matched);
      }
      if !isMatched && |req| > 3 {
        missingAll := missingAll + [req];
      }
    }
    assert jobRequirements[..|jobRequirements|] == jobRequirements;
    missing := Take(missingAll, 10);
  }

  // ---------------------------------------------------------------------
  // Properties of the basic score

  /** The basic score always lies in [0, 100]. */
  lemma ScoreInRange(skills: seq<SkillData>, reqs: seq<string>)
    ensures 0.0 <= BasicScore(skills, reqs) <= 100.0
  {
    var matched := BasicMatched(skills, reqs);
    BoostedClosedForm(BaseScore(|matched|, |reqs|), skills, matched);
  }

  /** The score is the base score plus 5 per advanced matched entry, capped at 100. */
  lemma ScoreFormula(skills: seq<SkillData>, reqs: seq<string>)
    ensures var matched := BasicMatched(skills, reqs);
      BasicScore(skills, reqs) == Min(BaseScore(|matched|, |reqs|) + 5.0 * AdvancedCount(skills, matched) as real, 100.0)
  {
    var matched := BasicMatched(skills, reqs);
    BoostedClosedForm(BaseScore(|matched|, |reqs|), skills, matched);
  }

  /** With some requirements, the base score is the matched share in percent, capped at 100. */
  lemma BaseScoreIsShare(matchedCount: nat, requirementCount: nat)
    requires requirementCount > 0
    ensures BaseScore(matchedCount, requirementCount) == Min(100.0 * matchedCount as real / requirementCount as real, 100.0)
  {
    var m, n := matchedCount as real, requirementCount as real;
    var q := m / n;
    assert q * n == m;
    assert 100.0 * m / n == 100.0 * q;
  }

  lemma {:induction false} AdvancedCountOfNone(skills: seq<SkillData>)
    ensures AdvancedCount(skills, []) == 0
    decreases |skills|
  {
    if skills != [] {
      AdvancedCountOfNone(skills[..|skills| - 1]);
    }
  }

  /** No requirements: exactly (50.0, [], []), whatever the profile. */
  lemma WithoutRequirements(skills: seq<SkillData>)
    ensures BasicMatched(skills, []) == []
    ensures BasicScore(skills, []) == 50.0
    ensures BasicMissing(skills, []) == []
  {
    MatchedWithoutRequirements(SkillSynonyms(), SkillNames(skills));
    AdvancedCountOfNone(skills);
    BoostedClosedForm(50.0, skills, []);
  }

  /** The missing list keeps requirement order, has at most 10 entries, each longer than 3 and covered by no matched name. */
  lemma MissingShape(skills: seq<SkillData>, reqs: seq<string>)
    ensures var missing := BasicMissing(skills, reqs);
      |missing| <= 10 && IsSubsequence(missing, reqs) &&
      forall x :: x in missing ==> |x| > 3 && forall m :: m in BasicMatched(skills, reqs) ==> !Contains(NormalizeSkill(x), NormalizeSkill(m))
  {
    var u := Uncovered(reqs, BasicMatched(skills, reqs));
    var missing := Take(u, 10);
    PrefixIsSubsequence(u, |missing|);
    UncoveredSubsequence(reqs, BasicMatched(skills, reqs));
    SubsequenceTransitive(missing, u, reqs);
    forall x | x in missing ensures |x| > 3 && !Covered(x, BasicMatched(skills, reqs)) {
      UncoveredIff(reqs, BasicMatched(skills, reqs), x);
    }
  }

  /** Fewer than 10 uncovered requirements are all listed. */
  lemma MissingComplete(skills: seq<SkillData>, reqs: seq<string>)
    requires |Uncovered(reqs, BasicMatched(skills, reqs))| <= 10
    ensures BasicMissing(skills, reqs) == Uncovered(reqs, BasicMatched(skills, reqs))
  {
  }

  // ---------------------------------------------------------------------
  // Replacing the basic result by the analyser's

  /** What `analyze_match_with_claude` returns when it returns a dictionary: always these three keys. */
  datatype ClaudeAnalysis = ClaudeAnalysis(score: Option<real>, notes: Option<string>, analysis: Option<string>)

  /** What calling the analyser comes to. */
  datatype AnalyserOutcome = Returned(result: ClaudeAnalysis) | ReturnedNone | Raised(message: string)

  /** The dictionary `match_profile_to_job` returns. */
  datatype MatchResult = MatchResult(matchScore: Option<real>, matchedSkills: seq<string>, missingSkills: seq<string>, notes: string)

  /** `str(x)` of an optional string inside an f-string. */
  function PyStr(s: Option<string>): string
  {
    if s.Some? then s.value else "None"
  }

  function BasicNotes(matchedCount: nat): string
  {
    "Basic skill match: " + NatToString(matchedCount) + " skills matched"
  }

  /** The analyser is asked only when requested and the basic score exceeds 30 or some skill matched. */
  predicate ConsultsAnalyser(useClaude: bool, baseScore: real, matched: seq<string>)
  {
    useClaude && (baseScore > 30.0 || |matched| > 0)
  }

  const TypeErrorNoneConcat := "TypeError: unsupported operand type(s) for +=: 'NoneType' and 'str'"

  /**
   * `match_profile_to_job`.  `analyser` is what calling the analyser on this
   * profile and job comes to.  An analysis whose notes are `None` makes the
   * notes concatenation raise inside the `try`, and again in its handler, so
   * the call raises: that is the `Err` case.
   */
  method MatchProfileToJob(profile: ProfileData, job: JobData, useClaude: bool, analyser: AnalyserOutcome)
    returns (r: Result<MatchResult, string>)
    ensures var base := BasicScore(profile.skills, job.requirements);
      var matched := BasicMatched(profile.skills, job.requirements);
      var missing := BasicMissing(profile.skills, job.requirements);
      var basic := MatchResult(Some(base), matched, missing, BasicNotes(|matched|));
      && (!ConsultsAnalyser(useClaude, base, matched) || analyser.ReturnedNone? ==> r == Ok(basic))
      && (ConsultsAnalyser(useClaude, base, matched) && analyser.Raised? ==>
            r == Ok(basic.(notes := basic.notes + "\n(Claude analysis unavailable: " + analyser.message + ")")))
      && (ConsultsAnalyser(useClaude, base, matched) && analyser.Returned? && analyser.result.notes.Some? ==>
            r == Ok(MatchResult(analyser.result.score, matched, missing,
                                analyser.result.notes.value + "\n\nClaude Analysis:\n" + PyStr(analyser.result.analysis))))
      && (ConsultsAnalyser(useClaude, base, matched) && analyser.Returned? && analyser.result.notes.None? ==> r.Err?)
  {
    var baseScore, matchedSkills, missingSkills := CalculateBasicMatchScore(profile.skills, job.requirements, job.description);
    var result := MatchResult(Some(baseScore), matchedSkills, missingSkills, BasicNotes(|matchedSkills|));
    if useClaude && (baseScore > 30.0 || |matchedSkills| > 0) {
      match analyser {
        case Returned(a) =>
          result := result.(matchScore := a.score);
          if a.notes.None? {
            // `None += str` raises, and the handler's `+=` raises again.
            return Err(TypeErrorNoneConcat);
          }
          result := result.(notes := a.notes.value + "\n\nClaude Analysis:\n" + PyStr(a.analysis));
        case ReturnedNone =>
        case Raised(message) =>
          result := result.(notes := result.notes + "\n(Claude analysis unavailable: " + message + ")");
      }
    }
    r := Ok(result);
  }

  // ---------------------------------------------------------------------
  // The analyser's request: bounded summaries

  datatype SkillSummary = SkillSummary(name: Option<string>, level: Option<string>, years: Option<real>)
  datatype ExperienceSummary = ExperienceSummary(title: Option<string>, company: Option<string>, years: string)
  datatype ProfileSummary = ProfileSummary(name: Option<string>, summary: Option<string>,
                                           skills: seq<SkillSummary>, experience: seq<ExperienceSummary>)
  datatype JobSummary = JobSummary(title: Option<string>, company: Option<string>, location: Option<string>,
                                   remote: bool, requirements: seq<string>, description: string)

  function SummarizeSkill(s: SkillData): SkillSummary
  {
    SkillSummary(s.name.Get(), s.level.Get(), s.years.Get())
  }

  function SummarizeExperience(e: ExperienceData): ExperienceSummary
  {
    ExperienceSummary(e.title.Get(), e.company.Get(), PyStr(e.startDate.Get()) + " to " + PyStr(e.endDate.Get()))
  }

  /** The first 15 skills and the first 5 experience entries, each reduced to the keys sent. */
  function SummarizeProfile(p: ProfileData): (r: ProfileSummary)
    ensures |r.skills| == if |p.skills| < 15 then |p.skills| else 15
    ensures forall i :: 0 <= i < |r.skills| ==> r.skills[i] == SummarizeSkill(p.skills[i])
    ensures |r.experience| == if |p.experience| < 5 then |p.experience| else 5
    ensures forall i :: 0 <= i < |r.experience| ==> r.experience[i] == SummarizeExperience(p.experience[i])
    ensures r.name == p.name.Get() && r.summary == p.summary.Get()
  {
    var skills := Take(p.skills, 15);
    var experience := Take(p.experience, 5);
    ProfileSummary(p.name.Get(), p.summary.Get(),
                   seq(|skills|, i requires 0 <= i < |skills| => SummarizeSkill(skills[i])),
                   seq(|experience|, i requires 0 <= i < |experience| => SummarizeExperience(experience[i])))
  }

  /**
   * The first 10 requirements and the first 1000 characters of the
   * description.  A `None` description cannot be sliced: the summary raises,
   * which is the analyser outcome `Raised`.
   */
  function SummarizeJob(j: JobData): (r: Option<JobSummary>)
    ensures r.None? <==> j.description.None?
    ensures r.Some? ==> |r.value.requirements| <= 10 && r.value.requirements == Take(j.requirements, 10)
    ensures r.Some? ==> |r.value.description| <= 1000 && StartsWith(j.description.value, r.value.description)
    ensures r.Some? && |j.description.value| <= 1000 ==> r.value.description == j.description.value
    ensures r.Some? ==> |r.value.description| == (if |j.description.value| < 1000 then |j.description.value| else 1000)
    ensures r.Some? ==> r.value.title == j.title && r.value.company == j.company && r.value.remote == j.remote
  {
    if j.description.None? then None
    else Some(JobSummary(j.title, j.company, j.location, j.remote,
                         Take(j.requirements, 10), Take(j.description.value, 1000)))
  }

  // ---------------------------------------------------------------------
  // The analyser's reply

  /**
   * The decoded JSON object of a reply, restricted to the keys the analyser
   * reads: a number or absent/null score, a string or absent/null analysis,
   * and lists of strings (empty when absent or falsy) for the strengths and
   * concerns.
   */
  datatype ParsedAnalysis = ParsedAnalysis(score: Slot<real>, analysis: Slot<string>, strengths: seq<string>, concerns: seq<string>)

  /**
   * The three outcomes of `json.loads` on a reply: not JSON at all
   * (`JSONDecodeError`), JSON that is not an object (a string, list or
   * number, on which `.get` raises), or an object.
   */
  datatype Decoded = NotJson | NotObject | Object(value: ParsedAnalysis)

  /**
   * The text the second decoding attempt is given: what follows the first
   * "```json" (else the first "```") up to the next "```", trimmed.  With no
   * closing fence `find` returns -1, and the slice stops one character short
   * of the end.
   */
  function FencedBody(text: string): string
    requires Contains(text, "```")
  {
    if Contains(text, "```json") then
      var start := Find(text, "```json", 0) + 7;
      var end := Find(text, "```", start);
      Strip(Slice(text, start, end))
    else
      var start := Find(text, "```", 0) + 3;
      var end := Find(text, "```", start);
      Strip(Slice(text, start, end))
  }

  /** `"```json" in text` implies `"```" in text`. */
  lemma FenceOfJsonFence(text: string)
    requires Contains(text, "```json")
    ensures Contains(text, "```")
  {
    var i :| 0 <= i <= |text| - 7 && OccursAt(text, "```json", i);
    assert text[i..i + 3] == text[i..i + 7][..3];
    assert OccursAt(text, "```", i);
  }

  /** What a decoded text gives the analyser: the object, or `None` once `.get` fails on a non-object. */
  function ObjectOf(d: Decoded): (r: Option<ParsedAnalysis>)
    ensures r.Some? <==> d.Object?
    ensures r.Some? ==> r.value == d.value
  {
    if d.Object? then Some(d.value) else None
  }

  /**
   * Decode the reply; only a decoding error falls back to a fenced block.
   * A non-object, a second decoding error and a reply without a fence all
   * end in `None`.
   */
  function ParseReply(text: string, parse: string -> Decoded): (r: Option<ParsedAnalysis>)
    ensures parse(text).Object? ==> r == Some(parse(text).value)
    ensures parse(text).NotObject? ==> r.None?
    ensures parse(text).NotJson? && !Contains(text, "```") ==> r.None?
    ensures parse(text).NotJson? && Contains(text, "```") ==>
      (r.Some? <==> parse(FencedBody(text)).Object?) && (r.Some? ==> r.value == parse(FencedBody(text)).value)
  {
    match parse(text)
    case Object(a) => Some(a)
    case NotObject => None
    case NotJson =>
      if Contains(text, "```json") then
        FenceOfJsonFence(text);
        ObjectOf(parse(FencedBody(text)))
      else if Contains(text, "```") then ObjectOf(parse(FencedBody(text)))
      else None
  }

  /** `"\n".join(f"- {s}" for s in items)` */
  function Bullets(items: seq<string>): seq<string>
  {
    seq(|items|, i requires 0 <= i < |items| => "- " + items[i])
  }

  /** The text appended for a non-empty strengths or concerns list. */
  function Section(title: string, items: seq<string>): string
  {
    if items == [] then "" else "\n\n" + title + ":\n" + Join("\n", Bullets(items))
  }

  /**
   * The dictionary built from a decoded reply.  A `null` "analysis" with some
   * strengths or concerns makes `None += str` raise; the analyser's handler
   * turns that into `None`.
   */
  function FormatAnalysis(a: ParsedAnalysis): (r: Option<ClaudeAnalysis>)
    ensures r.None? <==> a.analysis.Null? && (a.strengths != [] || a.concerns != [])
    ensures r.Some? ==> r.value.score == a.score.GetOr(50.0) && r.value.notes == a.analysis.GetOr("")
    ensures r.Some? ==> (r.value.notes.None? <==> r.value.analysis.None?)
    ensures r.Some? && r.value.notes.Some? ==>
      r.value.analysis == Some(r.value.notes.value + Section("Strengths", a.strengths) + Section("Concerns", a.concerns))
  {
    var notes := a.analysis.GetOr("");
    if notes.None? then
      if a.strengths != [] || a.concerns != [] then None
      else Some(ClaudeAnalysis(a.score.GetOr(50.0), None, None))
    else
      var withStrengths := notes.value + Section("Strengths", a.strengths);
      Some(ClaudeAnalysis(a.score.GetOr(50.0), notes, Some(withStrengths + Section("Concerns", a.concerns))))
  }

  /** What the analyser returns for a reply text once it got one. */
  function AnalyseReply(text: string, parse: string -> Decoded): Option<ClaudeAnalysis>
  {
    match ParseReply(text, parse)
    case None => None
    case Some(a) => FormatAnalysis(a)
  }

  /** The notes the analyser reports are a prefix of its analysis text. */
  lemma AnalysisExtendsNotes(text: string, parse: string -> Decoded)
    requires AnalyseReply(text, parse).Some? && AnalyseReply(text, parse).value.notes.Some?
    ensures AnalyseReply(text, parse).value.analysis.Some?
    ensures StartsWith(AnalyseReply(text, parse).value.analysis.value, AnalyseReply(text, parse).value.notes.value)
  {
    var a := ParseReply(text, parse).value;
    var r := FormatAnalysis(a).value;
    var n := r.notes.value;
    assert r.analysis.value == n + (Section("Strengths", a.strengths) + Section("Concerns", a.concerns));
  }

  /** A reply the analyser produced never makes `match_profile_to_job` raise unless its "analysis" is `null`. */
  lemma ReplyNotesPresent(text: string, parse: string -> Decoded)
    requires ParseReply(text, parse).Some? && !ParseReply(text, parse).value.analysis.Null?
    ensures AnalyseReply(text, parse).Some? && AnalyseReply(text, parse).value.notes.Some?
  {
  }

  /** `find` stops at the first position that can start the needle. */
  lemma FindAt(text: string, needle: string, start: nat, at: nat)
    requires needle != [] && start <= at && OccursAt(text, needle, at)
    requires forall i :: start <= i < at ==> text[i] != needle[0]
    ensures Find(text, needle, start) == at
  {
    var r := Find(text, needle, start);
    assert r != -1;
    assert text[r..r + |needle|][0] == text[r];
  }

  /** No position from `start` on holds the needle's first character: `find` gives -1. */
  lemma FindNone(text: string, needle: string, start: nat)
    requires needle != []
    requires forall i :: start <= i < |text| ==> text[i] != needle[0]
    ensures Find(text, needle, start) == -1
  {
    forall i | start <= i ensures !OccursAt(text, needle, i) {
      if i + |needle| <= |text| {
        assert text[i..i + |needle|][0] == text[i];
      }
    }
  }

  /** The fenced body of a text with a "```json" fence, once both `find` results are known. */
  lemma FencedBodyOfJson(text: string, start: nat, end: int)
    requires Contains(text, "```json") && Find(text, "```json", 0) + 7 == start && Find(text, "```", start) == end
    ensures Contains(text, "```") && FencedBody(text) == Strip(Slice(text, start, end))
  {
    FenceOfJsonFence(text);
  }

  /** Slicing up to index -1 drops the last element. */
  lemma SliceToMinusOne<T>(s: seq<T>, start: nat)
    requires start < |s|
    ensures Slice(s, start, -1) == s[start..|s| - 1]
  {
  }

  /** A needle whose first character the prefix lacks is first found right after the prefix. */
  lemma FoundAfter(pre: string, needle: string, rest: string)
    requires needle != [] && needle[0] !in pre
    ensures Contains(pre + needle + rest, needle)
    ensures Find(pre + needle + rest, needle, 0) == |pre|
  {
    var text := pre + needle + rest;
    assert text[|pre|..|pre| + |needle|] == needle;
    assert forall i :: 0 <= i < |pre| ==> text[i] == pre[i];
    FindAt(text, needle, 0, |pre|);
    ContainsAt(text, needle, |pre|);
  }

  /** A needle whose first character the tail lacks is not found in it. */
  lemma NotFoundIn(pre: string, body: string, needle: string)
    requires needle != [] && needle[0] !in body
    ensures Find(pre + body, needle, |pre|) == -1
  {
    var text := pre + body;
    assert forall i :: |pre| <= i < |text| ==> text[i] == body[i - |pre|];
    FindNone(text, needle, |pre|);
  }

  /** The positions of the opening fence and of the missing closing fence in `pre + "```json" + body`. */
  lemma UnclosedFinds(pre: string, body: string)
    requires '`' !in pre && '`' !in body
    ensures Contains(pre + "```json" + body, "```json")
    ensures Find(pre + "```json" + body, "```json", 0) == |pre|
    ensures Find(pre + "```json" + body, "```", |pre| + 7) == -1
  {
    FoundAfter(pre, "```json", body);
    NotFoundIn(pre + "```json", body, "```");
  }

  /** The positions of the opening and the closing fence in `pre + "```json" + body + "```" + post`. */
  lemma ClosedFinds(pre: string, body: string, post: string)
    requires '`' !in pre && '`' !in body
    ensures Contains(pre + "```json" + body + "```" + post, "```json")
    ensures Find(pre + "```json" + body + "```" + post, "```json", 0) == |pre|
    ensures Find(pre + "```json" + body + "```" + post, "```", |pre| + 7) == |pre| + 7 + |body|
  {
    assert pre + "```json" + body + "```" + post == pre + "```json" + (body + "```" + post);
    FoundAfter(pre, "```json", body + "```" + post);
    FoundNext(pre + "```json", body, "```", post);
  }

  /** The slice between the head and the tail is the middle part. */
  lemma SliceBetween(head: string, mid: string, a: string, b: string, i: int, j: int)
    requires i == |head| && j == i + |mid|
    ensures Slice(head + mid + a + b, i, j) == mid
  {
    var text := head + mid + a + b;
    assert text[i..j] == mid;
  }

  /** A body between an opening "```json" and a closing fence, with no backtick before or inside it, is extracted trimmed. */
  lemma JsonFenceBody(pre: string, body: string, post: string)
    requires '`' !in pre && '`' !in body
    ensures Contains(pre + "```json" + body + "```" + post, "```")
    ensures FencedBody(pre + "```json" + body + "```" + post) == Strip(body)
  {
    var text := pre + "```json" + body + "```" + post;
    var start, end := |pre| + 7, |pre| + 7 + |body|;
    assert Contains(text, "```") && FencedBody(text) == Strip(Slice(text, start, end)) by {
      ClosedFinds(pre, body, post);
      FencedBodyOfJson(text, start, end);
    }
    assert Slice(text, start, end) == body by {
      SliceBetween(pre + "```json", body, "```", post, start, end);
    }
  }

  /** A needle whose first character the middle part lacks is found, from the end of the head, right after the middle. */
  lemma FoundNext(head: string, mid: string, needle: string, rest: string)
    requires needle != [] && needle[0] !in mid
    ensures Find(head + mid + needle + rest, needle, |head|) == |head| + |mid|
  {
    var text := head + mid + needle + rest;
    var at := |head| + |mid|;
    assert text[at..at + |needle|] == needle;
    assert forall i :: |head| <= i < at ==> text[i] == mid[i - |head|];
    FindAt(text, needle, |head|, at);
  }

  /** Without a closing fence the slice ends at index -1: the body loses its last character. */
  lemma UnclosedJsonFence(pre: string, body: string)
    requires '`' !in pre && '`' !in body && body != []
    ensures Contains(pre + "```json" + body, "```")
    ensures FencedBody(pre + "```json" + body) == Strip(body[..|body| - 1])
  {
    var text := pre + "```json" + body;
    var s := |pre|;
    UnclosedFinds(pre, body);
    FencedBodyOfJson(text, s + 7, -1);
    SliceToMinusOne(text, s + 7);
    assert text[s + 7..|text| - 1] == body[..|body| - 1];
  }

  // ---------------------------------------------------------------------
  // The worked example at the end of the scorer: steps that hold for any names and requirements
  /** A character every candidate needle has and the text lacks rules all of them out. */
  lemma NoneContained(hay: string, needles: set<string>, c: char)
    requires c !in hay
    requires forall n | n in needles :: c in n
    ensures forall n | n in needles :: !Contains(hay, n)
  {
    forall n | n in needles ensures !Contains(hay, n) {
      var k :| 0 <= k < |n| && n[k] == c;
      NotContainsMissingChar(hay, n, k);
    }
  }

  /** A letter that every synonym of `skill` has and the requirement lacks in both cases: no hit. */
  lemma MissByLetter(t: Table, skill: string, req: string, c: char)
    requires IsLowerLetter(c) && c !in req && UpperChar(c) !in req
    requires forall n | n in SynonymsIn(t, skill) :: c in n
    ensures !HitsRequirement(t, skill, req)
  {
    NormalizedLacks(req, c);
    NoneContained(NormalizeSkill(req), SynonymsIn(t, skill), c);
  }

  /** A letter that `word` has and the requirement lacks in both cases keeps `word` out of its normal form. */
  lemma LacksByLetter(req: string, word: string, k: nat)
    requires k < |word| && IsLowerLetter(word[k]) && word[k] !in req && UpperChar(word[k]) !in req
    ensures !Contains(NormalizeSkill(req), word)
  {
    NormalizedLacks(req, word[k]);
    NotContainsMissingChar(NormalizeSkill(req), word, k);
  }

  /** A skill that hits one of four requirements hits the list. */
  lemma HitsOneOfFour(t: Table, skill: string, a: string, b: string, c: string, d: string)
    requires HitsRequirement(t, skill, a) || HitsRequirement(t, skill, b) || HitsRequirement(t, skill, c) || HitsRequirement(t, skill, d)
    ensures HitsAny(t, skill, [a, b, c, d])
  {
    var reqs := [a, b, c, d];
    if HitsRequirement(t, skill, a) { assert reqs[0] == a; }
    else if HitsRequirement(t, skill, b) { assert reqs[1] == b; }
    else if HitsRequirement(t, skill, c) { assert reqs[2] == c; }
    else { assert reqs[3] == d; }
  }

  /** A skill that hits none of four requirements hits none of the list. */
  lemma MissesFour(t: Table, skill: string, a: string, b: string, c: string, d: string)
    requires !HitsRequirement(t, skill, a) && !HitsRequirement(t, skill, b)
    requires !HitsRequirement(t, skill, c) && !HitsRequirement(t, skill, d)
    ensures !HitsAny(t, skill, [a, b, c, d])
  {
    var reqs := [a, b, c, d];
    forall k | 0 <= k < 4 ensures !HitsRequirement(t, skill, reqs[k]) {
      if k == 0 {} else if k == 1 {} else if k == 2 {} else {}
    }
  }

  /** Two hitting skills and a third that hits nothing: the first two are matched, in order. */
  lemma MatchedOfThree(t: Table, a: string, b: string, c: string, reqs: seq<string>)
    requires HitsAny(t, a, reqs) && HitsAny(t, b, reqs) && !HitsAny(t, c, reqs) && a != b
    ensures MatchedSkillsIn(t, [a, b, c], reqs) == [a, b]
  {
    DedupeFilterOfThree(a, b, c, HitsIn(t, reqs));
  }

  /** One hitting skill alone is matched. */
  lemma MatchedOfOne(t: Table, a: string, reqs: seq<string>)
    requires HitsAny(t, a, reqs)
    ensures MatchedSkillsIn(t, [a], reqs) == [a]
  {
    DedupeFilterOfOne(a, HitsIn(t, reqs));
  }

  /** Two distinct hitting skills are both matched, in order. */
  lemma MatchedOfTwo(t: Table, a: string, b: string, reqs: seq<string>)
    requires HitsAny(t, a, reqs) && HitsAny(t, b, reqs) && a != b
    ensures MatchedSkillsIn(t, [a, b], reqs) == [a, b]
  {
    DedupeFilterOfTwo(a, b, HitsIn(t, reqs));
  }

  /** Two covered requirements leave nothing uncovered. */
  lemma UncoveredOfTwoCovered(a: string, b: string, matched: seq<string>)
    requires Covered(a, matched) && Covered(b, matched)
    ensures Uncovered([a, b], matched) == []
  {
    UncoveredSnoc([], a, matched);
    assert [] + [a] == [a];
    UncoveredSnoc([a], b, matched);
    assert [a] + [b] == [a, b];
  }

  /** Two long uncovered requirements after a fully covered list are the uncovered ones, in order. */
  lemma UncoveredThenTwo(p: seq<string>, c: string, d: string, matched: seq<string>)
    requires Uncovered(p, matched) == []
    requires |c| > 3 && !Covered(c, matched) && |d| > 3 && !Covered(d, matched)
    ensures Uncovered(p + [c, d], matched) == [c, d]
  {
    UncoveredSnoc(p, c, matched);
    UncoveredSnoc(p + [c], d, matched);
    assert p + [c] + [d] == p + [c, d];
    assert [] + [c] + [d] == [c, d];
  }

  /** Two covered requirements followed by two long uncovered ones: the last two are uncovered. */
  lemma UncoveredOfFour(a: string, b: string, c: string, d: string, matched: seq<string>)
    requires Covered(a, matched) && Covered(b, matched)
    requires |c| > 3 && !Covered(c, matched) && |d| > 3 && !Covered(d, matched)
    ensures Uncovered([a, b, c, d], matched) == [c, d]
  {
    UncoveredOfTwoCovered(a, b, matched);
    UncoveredThenTwo([a, b], c, d, matched);
    assert [a, b] + [c, d] == [a, b, c, d];
  }

  /** A requirement whose normal form contains the normal form of the first of two names is covered. */
  lemma CoveredByFirst(req: string, a: string, b: string)
    requires Contains(NormalizeSkill(req), NormalizeSkill(a))
    ensures Covered(req, [a, b])
  {
    assert [a, b][0] == a;
  }

  /** A requirement whose normal form contains the normal form of the second of two names is covered. */
  lemma CoveredBySecond(req: string, a: string, b: string)
    requires Contains(NormalizeSkill(req), NormalizeSkill(b))
    ensures Covered(req, [a, b])
  {
    assert [a, b][1] == b;
  }

  /** A requirement whose normal form contains neither name's normal form is not covered. */
  lemma CoveredByNeither(req: string, a: string, b: string)
    requires !Contains(NormalizeSkill(req), NormalizeSkill(a)) && !Contains(NormalizeSkill(req), NormalizeSkill(b))
    ensures !Covered(req, [a, b])
  {
  }

  // The profile and job of the worked example

  const ExampleSkills: seq<SkillData> := [
    SkillData(Given("Python"), Absent, Given("advanced"), Given(5.0), Absent),
    SkillData(Given("SQL"), Absent, Given("advanced"), Given(4.0), Absent),
    SkillData(Given("Tableau"), Absent, Given("intermediate"), Given(2.0), Absent)
  ]

  const Req0 := "5+ years Python experience"
  const Req1 := "Strong SQL skills"
  const Req2 := "Experience with data visualization tools"
  const Req3 := "Knowledge of cloud platforms (AWS/Azure)"

  lemma NormalPython() ensures NormalizeSkill("Python") == "python" {
    LowerOf("Python", "python");
    NormalizeOfTrimmedLower("Python", "python");
  }

  lemma NormalSqlName() ensures NormalizeSkill("SQL") == "sql" {
    LowerOf("SQL", "sql");
    NormalizeOfTrimmedLower("SQL", "sql");
  }

  lemma PythonIsPythonSynonym() ensures "python" in Synonyms("Python") {
    EntryOfTable(0);
    LowerOf("Python", "python");
    SynonymsViaLower("Python", "python", 0);
  }

  lemma SqlIsSqlSynonym() ensures "sql" in Synonyms("SQL") {
    EntryOfTable(2);
    LowerOf("SQL", "sql");
    SynonymsViaLower("SQL", "sql", 2);
  }

  lemma LowerPython() ensures Lower("Python") == "python" {
    LowerOf("Python", "python");
  }

  lemma PythonAtNineInReq0() ensures Stripped(Req0) && OccursAt(Req0, "Python", 9) {
    assert Req0[9..15] == "Python";
  }

  lemma PythonInReq0() ensures Contains(NormalizeSkill(Req0), "python") {
    PythonAtNineInReq0();
    NormalizedOccurs(Req0, 9, "Python");
    LowerPython();
    assert OccursAt(NormalizeSkill(Req0), "python", 9);
  }

  lemma LowerSql() ensures Lower("SQL") == "sql" {
    LowerOf("SQL", "sql");
  }

  lemma SqlAtSevenInReq1() ensures Stripped(Req1) && OccursAt(Req1, "SQL", 7) {
    assert Req1[7..10] == "SQL";
  }

  lemma SqlInReq1() ensures Contains(NormalizeSkill(Req1), "sql") {
    SqlAtSevenInReq1();
    NormalizedOccurs(Req1, 7, "SQL");
    LowerSql();
    assert OccursAt(NormalizeSkill(Req1), "sql", 7);
  }

  lemma PythonHitsReq0() ensures HitsRequirement(SkillSynonyms(), "Python", Req0) {
    PythonIsPythonSynonym();
    PythonInReq0();
    HitBySynonym(SkillSynonyms(), "Python", Req0, "python");
  }

  lemma SqlHitsReq1() ensures HitsRequirement(SkillSynonyms(), "SQL", Req1) {
    SqlIsSqlSynonym();
    SqlInReq1();
    HitBySynonym(SkillSynonyms(), "SQL", Req1, "sql");
  }

  lemma PythonHitsExample() ensures HitsAny(SkillSynonyms(), "Python", [Req0, Req1, Req2, Req3]) {
    PythonHitsReq0();
    HitsOneOfFour(SkillSynonyms(), "Python", Req0, Req1, Req2, Req3);
  }

  lemma SqlHitsExample() ensures HitsAny(SkillSynonyms(), "SQL", [Req0, Req1, Req2, Req3]) {
    SqlHitsReq1();
    HitsOneOfFour(SkillSynonyms(), "SQL", Req0, Req1, Req2, Req3);
  }

  lemma SynonymsOfTableau() ensures Synonyms("Tableau") == GroupOf(SkillSynonyms(), 3) {
    EntryOfTable(3);
    LowerOf("Tableau", "tableau");
    SynonymsViaLower("Tableau", "tableau", 3);
  }

  lemma TableauEntryHasB() ensures 'b' in TableauEntry().0 && forall n | n in TableauEntry().1 :: 'b' in n {
    assert "tableau"[2] == 'b';
    assert "tableau desktop"[2] == 'b';
    assert "tableau server"[2] == 'b';
  }

  /** Every synonym of Tableau has a 'b'. */
  lemma TableauSynonymsHaveB() ensures forall n | n in Synonyms("Tableau") :: 'b' in n {
    SynonymsOfTableau();
    EntryOfTable(3);
    TableauEntryHasB();
    GroupHasChar(SkillSynonyms(), 3, 'b');
  }

  lemma NoBInReq0() ensures 'b' !in Req0 && 'B' !in Req0 { }
  lemma NoBInReq1() ensures 'b' !in Req1 && 'B' !in Req1 { }
  lemma NoBInReq2() ensures 'b' !in Req2 && 'B' !in Req2 { }
  lemma NoBInReq3() ensures 'b' !in Req3 && 'B' !in Req3 { }

  lemma TableauMissesReq0() ensures !HitsRequirement(SkillSynonyms(), "Tableau", Req0) {
    TableauSynonymsHaveB();
    NoBInReq0();
    MissByLetter(SkillSynonyms(), "Tableau", Req0, 'b');
  }

  lemma TableauMissesReq1() ensures !HitsRequirement(SkillSynonyms(), "Tableau", Req1) {
    TableauSynonymsHaveB();
    NoBInReq1();
    MissByLetter(SkillSynonyms(), "Tableau", Req1, 'b');
  }

  lemma TableauMissesReq2() ensures !HitsRequirement(SkillSynonyms(), "Tableau", Req2) {
    TableauSynonymsHaveB();
    NoBInReq2();
    MissByLetter(SkillSynonyms(), "Tableau", Req2, 'b');
  }

  lemma TableauMissesReq3() ensures !HitsRequirement(SkillSynonyms(), "Tableau", Req3) {
    TableauSynonymsHaveB();
    NoBInReq3();
    MissByLetter(SkillSynonyms(), "Tableau", Req3, 'b');
  }

  lemma TableauHitsNothing() ensures !HitsAny(SkillSynonyms(), "Tableau", [Req0, Req1, Req2, Req3]) {
    TableauMissesReq0();
    TableauMissesReq1();
    TableauMissesReq2();
    TableauMissesReq3();
    MissesFour(SkillSynonyms(), "Tableau", Req0, Req1, Req2, Req3);
  }

  lemma ExampleNames() ensures SkillNames(ExampleSkills) == ["Python", "SQL", "Tableau"] {
    assert ExampleSkills[..2][..1] == ExampleSkills[..1];
    assert ExampleSkills[..1][..0] == [];
  }

  lemma ExampleMatched() ensures BasicMatched(ExampleSkills, [Req0, Req1, Req2, Req3]) == ["Python", "SQL"] {
    ExampleNames();
    PythonHitsExample();
    SqlHitsExample();
    TableauHitsNothing();
    MatchedOfThree(SkillSynonyms(), "Python", "SQL", "Tableau", [Req0, Req1, Req2, Req3]);
  }

  lemma ExampleAdvanced() ensures AdvancedCount(ExampleSkills, ["Python", "SQL"]) == 2 {
    assert ExampleSkills[..2][..1] == ExampleSkills[..1];
    assert ExampleSkills[..1][..0] == [];
  }

  lemma CoveredByPython() ensures Covered(Req0, ["Python", "SQL"]) {
    PythonInReq0();
    NormalPython();
    CoveredByFirst(Req0, "Python", "SQL");
  }

  lemma CoveredBySql() ensures Covered(Req1, ["Python", "SQL"]) {
    SqlInReq1();
    NormalSqlName();
    CoveredBySecond(Req1, "Python", "SQL");
  }

  /** A requirement with neither a 'y' nor a 'q' in either case is covered by neither Python nor SQL. */
  lemma NotCoveredWithoutYQ(req: string)
    requires 'y' !in req && 'Y' !in req && 'q' !in req && 'Q' !in req
    ensures !Covered(req, ["Python", "SQL"])
  {
    assert "python"[1] == 'y' && "sql"[1] == 'q';
    LacksByLetter(req, "python", 1);
    LacksByLetter(req, "sql", 1);
    NormalPython();
    NormalSqlName();
    CoveredByNeither(req, "Python", "SQL");
  }

  lemma NoYQ(s: string)
    requires forall i | 0 <= i < |s| :: s[i] != 'y' && s[i] != 'Y' && s[i] != 'q' && s[i] != 'Q'
    ensures 'y' !in s && 'Y' !in s && 'q' !in s && 'Q' !in s
  {
  }

  lemma NoYQInReq2() ensures 'y' !in Req2 && 'Y' !in Req2 && 'q' !in Req2 && 'Q' !in Req2 {
    NoYQ(Req2);
  }

  lemma NoYQInReq3() ensures 'y' !in Req3 && 'Y' !in Req3 && 'q' !in Req3 && 'Q' !in Req3 {
    NoYQ(Req3);
  }

  lemma Req2Uncovered() ensures |Req2| > 3 && !Covered(Req2, ["Python", "SQL"]) {
    NoYQInReq2();
    NotCoveredWithoutYQ(Req2);
  }

  lemma Req3Uncovered() ensures |Req3| > 3 && !Covered(Req3, ["Python", "SQL"]) {
    NoYQInReq3();
    NotCoveredWithoutYQ(Req3);
  }

  lemma ExampleMissing() ensures Uncovered([Req0, Req1, Req2, Req3], ["Python", "SQL"]) == [Req2, Req3] {
    CoveredByPython();
    CoveredBySql();
    Req2Uncovered();
    Req3Uncovered();
    UncoveredOfFour(Req0, Req1, Req2, Req3, ["Python", "SQL"]);
  }

  /** The example's score: half the requirements matched gives 50, two advanced skills add 10. */
  lemma ExampleScore()
    ensures BasicScore(ExampleSkills, [Req0, Req1, Req2, Req3]) == 60.0
  {
    var reqs := [Req0, Req1, Req2, Req3];
    ExampleMatched();
    ExampleAdvanced();
    ScoreFormula(ExampleSkills, reqs);
    var q := 2.0 / 4.0;
    assert q == 0.5;
    assert BaseScore(2, 4) == 50.0;
  }

  /** The example's missing list: both uncovered requirements, under the cap of ten. */
  lemma ExampleMissingTaken()
    ensures BasicMissing(ExampleSkills, [Req0, Req1, Req2, Req3]) == [Req2, Req3]
  {
    ExampleMatched();
    ExampleMissing();
    var u := Uncovered([Req0, Req1, Req2, Req3], ["Python", "SQL"]);
    assert Take(u, 10) == u[..2] == u;
  }

  /** Python and SQL (both advanced) and Tableau against the four requirements: 60, both matched, two missing. */
  lemma WorkedExample()
    ensures BasicMatched(ExampleSkills, [Req0, Req1, Req2, Req3]) == ["Python", "SQL"]
    ensures BasicScore(ExampleSkills, [Req0, Req1, Req2, Req3]) == 60.0
    ensures BasicMissing(ExampleSkills, [Req0, Req1, Req2, Req3]) == [Req2, Req3]
  {
    ExampleMatched();
    ExampleScore();
    ExampleMissingTaken();
  }

  // Several skills can match one requirement

  lemma SqlIsOwnSynonym() ensures "sql" in Synonyms("sql") {
    EntryOfTable(2);
    NormalizeOfNormal("sql");
    SynonymsOfGroupMember("sql", 2);
  }

  lemma MysqlIsOwnSynonym() ensures "mysql" in Synonyms("mysql") {
    EntryOfTable(2);
    NormalizeOfNormal("mysql");
    SynonymsOfGroupMember("mysql", 2);
  }

  lemma SqlInMysql() ensures Contains(NormalizeSkill("mysql"), "sql") {
    NormalizeOfNormal("mysql");
    assert OccursAt("mysql", "sql", 2);
  }

  lemma MysqlInMysql() ensures Contains(NormalizeSkill("mysql"), "mysql") {
    NormalizeOfNormal("mysql");
    assert OccursAt("mysql", "mysql", 0);
  }

  /** A skill that hits the only requirement hits the list. */
  lemma HitsOnly(t: Table, skill: string, req: string)
    requires HitsRequirement(t, skill, req)
    ensures HitsAny(t, skill, [req])
  {
    assert [req][0] == req;
  }

  lemma SqlHitsMysql() ensures HitsAny(SkillSynonyms(), "sql", ["mysql"]) {
    SqlIsOwnSynonym();
    SqlInMysql();
    HitBySynonym(SkillSynonyms(), "sql", "mysql", "sql");
    HitsOnly(SkillSynonyms(), "sql", "mysql");
  }

  lemma MysqlHitsMysql() ensures HitsAny(SkillSynonyms(), "mysql", ["mysql"]) {
    MysqlIsOwnSynonym();
    MysqlInMysql();
    HitBySynonym(SkillSynonyms(), "mysql", "mysql", "mysql");
    HitsOnly(SkillSynonyms(), "mysql", "mysql");
  }

  /** Several skills can match one requirement, so the share reaches the cap: 'sql' and 'mysql' both hit "mysql". */
  lemma ShareCanReachCap()
    ensures MatchedSkills(["sql", "mysql"], ["mysql"]) == ["sql", "mysql"]
    ensures BaseScore(|MatchedSkills(["sql", "mysql"], ["mysql"])|, 1) == 100.0
  {
    SqlHitsMysql();
    MysqlHitsMysql();
    MatchedOfTwo(SkillSynonyms(), "sql", "mysql", ["mysql"]);
  }

  // Missing requirements are found by names, not synonyms

  lemma SqlIsPostgresqlSynonym() ensures "sql" in Synonyms("postgresql") {
    EntryOfTable(2);
    NormalizeOfNormal("postgresql");
    SynonymsOfGroupMember("postgresql", 2);
  }

  lemma SqlInSql() ensures Contains(NormalizeSkill("sql"), "sql") {
    NormalizeOfNormal("sql");
    assert OccursAt("sql", "sql", 0);
  }

  /** A skill that hits the first of two requirements hits the list. */
  lemma HitsFirstOfTwo(t: Table, skill: string, a: string, b: string)
    requires HitsRequirement(t, skill, a)
    ensures HitsAny(t, skill, [a, b])
  {
    assert [a, b][0] == a;
  }

  lemma PostgresqlHitsSqlIn() ensures HitsAny(SkillSynonyms(), "postgresql", ["sql", "sql server"]) {
    SqlIsPostgresqlSynonym();
    SqlInSql();
    HitBySynonym(SkillSynonyms(), "postgresql", "sql", "sql");
    HitsFirstOfTwo(SkillSynonyms(), "postgresql", "sql", "sql server");
  }

  /** A requirement whose normal form lacks the only name's normal form is not covered. */
  lemma CoveredByNone(req: string, a: string)
    requires !Contains(NormalizeSkill(req), NormalizeSkill(a))
    ensures !Covered(req, [a])
  {
  }

  lemma SqlServerIsNormal() ensures NormalizeSkill("sql server") == "sql server" {
    NormalizeOfNormal("sql server");
  }

  lemma PostgresqlIsNormal() ensures NormalizeSkill("postgresql") == "postgresql" {
    NormalizeOfNormal("postgresql");
  }

  lemma PostgresqlNotInSqlServer() ensures !Contains(NormalizeSkill("sql server"), NormalizeSkill("postgresql")) {
    SqlServerIsNormal();
    PostgresqlIsNormal();
    var hay, needle := "sql server", "postgresql";
    assert forall i :: 0 <= i < |hay| ==> hay[i] != needle[0];
    NotContainsMissingChar(hay, needle, 0);
  }

  lemma SqlServerNotCovered() ensures !Covered("sql server", ["postgresql"]) {
    PostgresqlNotInSqlServer();
    CoveredByNone("sql server", "postgresql");
  }

  /** Missing is checked by names only: 'postgresql' matches "sql" through a synonym, yet "sql server" stays missing. */
  lemma SynonymMatchStillMissing()
    ensures MatchedSkills(["postgresql"], ["sql", "sql server"]) == ["postgresql"]
    ensures "sql server" in Uncovered(["sql", "sql server"], ["postgresql"])
  {
    PostgresqlHitsSqlIn();
    MatchedOfOne(SkillSynonyms(), "postgresql", ["sql", "sql server"]);
    SqlServerNotCovered();
    UncoveredIff(["sql", "sql server"], ["postgresql"], "sql server");
  }
}
