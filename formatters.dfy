/**
 * The display formatters of the web front end: salaries, locations, match
 * score bands, status and level labels, skill lists, durations, text
 * truncation, requirement bullets, the metrics row and the profile
 * overview.
 *
 * Rendering a real number with one decimal (`:.1f`) is the parameter
 * `formatScore`.
 */
module Formatters {
  import opened Wrappers
  import opened PyText
  import opened Records
  import Seqs

  // ---------------------------------------------------------------------
  // Salary and location

  /** `format_salary`; zero counts as no bound at all. */
  function FormatSalary(salaryMin: Option<int>, salaryMax: Option<int>): (r: string)
    ensures r == "Not specified" <==> !NonZero(salaryMin) && !NonZero(salaryMax)
    ensures NonZero(salaryMin) ==> StartsWith(r, Dollars(salaryMin.value))
    ensures NonZero(salaryMax) ==> EndsWith(r, Dollars(salaryMax.value))
    ensures NonZero(salaryMin) && NonZero(salaryMax) ==> Contains(r, " - ")
    ensures NonZero(salaryMin) && !NonZero(salaryMax) ==> EndsWith(r, "+")
    ensures !NonZero(salaryMin) && NonZero(salaryMax) ==> StartsWith(r, "Up to ")
    ensures NonZero(salaryMin) && NonZero(salaryMax) ==> r == Dollars(salaryMin.value) + " - " + Dollars(salaryMax.value)
    ensures NonZero(salaryMin) && !NonZero(salaryMax) ==> r == Dollars(salaryMin.value) + "+"
    ensures !NonZero(salaryMin) && NonZero(salaryMax) ==> r == "Up to " + Dollars(salaryMax.value)
  {
    if !NonZero(salaryMin) && !NonZero(salaryMax) then "Not specified"
    else if NonZero(salaryMin) && NonZero(salaryMax) then
      var lo, hi := Dollars(salaryMin.value), Dollars(salaryMax.value);
      var r := lo + " - " + hi;
      assert r[|lo|..|lo| + 3] == " - ";
      assert OccursAt(r, " - ", |lo|);
      assert r[0] == '$';
      r
    else if NonZero(salaryMin) then
      var r := Dollars(salaryMin.value) + "+";
      assert r[0] == '$';
      r
    else
      var r := "Up to " + Dollars(salaryMax.value);
      assert r[0] == 'U';
      r
  }

  /** A zero bound formats exactly like a missing one. */
  lemma FormatSalaryZeroIsMissing(salaryMin: Option<int>, salaryMax: Option<int>)
    ensures FormatSalary(Some(0), salaryMax) == FormatSalary(None, salaryMax)
    ensures FormatSalary(salaryMin, Some(0)) == FormatSalary(salaryMin, None)
  {
    assert !NonZero(Some(0)) && !NonZero(None);
  }

  /** `format_location` */
  function FormatLocation(location: Option<string>, remote: bool): (r: string)
    ensures remote && Truthy(location) ==> r == location.value + " (Remote)"
    ensures remote && !Truthy(location) ==> r == "Remote"
    ensures !remote && Truthy(location) ==> r == location.value
    ensures !remote && !Truthy(location) ==> r == "Not specified"
    ensures remote ==> Contains(r, "Remote")
    ensures Truthy(location) ==> StartsWith(r, location.value)
  {
    if remote && Truthy(location) then
      var r := location.value + " (Remote)";
      assert r[|r| - 7..|r| - 1] == "Remote";
      assert OccursAt(r, "Remote", |r| - 7);
      r
    else if remote then
      assert OccursAt("Remote", "Remote", 0);
      "Remote"
    else if Truthy(location) then location.value
    else "Not specified"
  }

  // ---------------------------------------------------------------------
  // Match score

  /** The colour band of a match score. */
  datatype Band = Green | Yellow | Red

  function ScoreBand(score: real): (b: Band)
    ensures b == Green <==> score >= 80.0
    ensures b == Yellow <==> 60.0 <= score < 80.0
    ensures b == Red <==> score < 60.0
  {
    if score >= 80.0 then Green else if score >= 60.0 then Yellow else Red
  }

  /** Green is the best band, red the worst. */
  function BandRank(b: Band): nat
  {
    match b
    case Green => 2
    case Yellow => 1
    case Red => 0
  }

  /** A higher score never lands in a worse band. */
  lemma ScoreBandMonotonic(a: real, b: real)
    requires a <= b
    ensures BandRank(ScoreBand(a)) <= BandRank(ScoreBand(b))
  {
  }

  /** The coloured circle shown for a band. */
  function BandIndicator(b: Band): char
  {
    match b
    case Green => '\U{1F7E2}'
    case Yellow => '\U{1F7E1}'
    case Red => '\U{1F534}'
  }

  /** `format_match_score`: the band's circle, a space, the score with one decimal, and "%". */
  function FormatMatchScore(score: real, formatScore: real -> string): (r: string)
    ensures |r| >= 3
    ensures r[0] == BandIndicator(ScoreBand(score)) && r[1] == ' '
    ensures r[2..] == formatScore(score) + "%"
  {
    var r := [BandIndicator(ScoreBand(score))] + " " + formatScore(score) + "%";
    assert r[2..] == formatScore(score) + "%";
    r
  }

  /** Two scores share a circle exactly when they share a band. */
  lemma FormatMatchScoreSameCircle(a: real, b: real, formatScore: real -> string)
    ensures FormatMatchScore(a, formatScore)[0] == FormatMatchScore(b, formatScore)[0] <==> ScoreBand(a) == ScoreBand(b)
  {
  }

  // ---------------------------------------------------------------------
  // Status and level labels

  /** The label of a lower-case application status, if it is one of the five. */
  function StatusLabel(key: string): Option<string>
  {
    if key == "draft" then Some("\U{1F4DD} Draft")
    else if key == "applied" then Some("\U{1F4EC} Applied")
    else if key == "interviewing" then Some("\U{1F3A4} Interviewing")
    else if key == "rejected" then Some("\U{274C} Rejected")
    else if key == "offer" then Some("\U{1F389} Offer")
    else None
  }

  /** `format_application_status` */
  function FormatApplicationStatus(status: string): (r: string)
    ensures StatusLabel(Lower(status)).Some? ==> r == StatusLabel(Lower(status)).value
    ensures StatusLabel(Lower(status)).None? ==> r == "\U{1F4CB} " + Title(status)
  {
    match StatusLabel(Lower(status))
    case Some(shown) => shown
    case None => "\U{1F4CB} " + Title(status)
  }

  /** The status label depends on the status only up to case, known statuses and others alike. */
  lemma FormatApplicationStatusIgnoresCase(a: string, b: string)
    requires Lower(a) == Lower(b)
    ensures FormatApplicationStatus(a) == FormatApplicationStatus(b)
  {
    TitleIgnoresCase(a, b);
  }

  /** The five statuses, in any case, get their fixed labels. */
  lemma FormatKnownStatuses(s: string)
    ensures Lower(s) == "draft" ==> FormatApplicationStatus(s) == "\U{1F4DD} Draft"
    ensures Lower(s) == "applied" ==> FormatApplicationStatus(s) == "\U{1F4EC} Applied"
    ensures Lower(s) == "interviewing" ==> FormatApplicationStatus(s) == "\U{1F3A4} Interviewing"
    ensures Lower(s) == "rejected" ==> FormatApplicationStatus(s) == "\U{274C} Rejected"
    ensures Lower(s) == "offer" ==> FormatApplicationStatus(s) == "\U{1F389} Offer"
  {
  }

  /** Any other status is shown title-cased behind a clipboard, two characters longer than itself. */
  lemma FormatOtherStatus(s: string)
    requires StatusLabel(Lower(s)).None?
    ensures StartsWith(FormatApplicationStatus(s), "\U{1F4CB} ")
    ensures |FormatApplicationStatus(s)| == |s| + 2
  {
  }

  /** The label of a lower-case skill level, if it is one of the three. */
  function LevelLabel(key: string): Option<string>
  {
    if key == "beginner" then Some("\U{2B50} Beginner")
    else if key == "intermediate" then Some("\U{2B50}\U{2B50} Intermediate")
    else if key == "advanced" then Some("\U{2B50}\U{2B50}\U{2B50} Advanced")
    else None
  }

  /** `format_skill_level` */
  function FormatSkillLevel(level: Option<string>): (r: string)
    ensures r == "" <==> !Truthy(level)
    ensures Truthy(level) && LevelLabel(Lower(level.value)).Some? ==> r == LevelLabel(Lower(level.value)).value
    ensures Truthy(level) && LevelLabel(Lower(level.value)).None? ==> r == Title(level.value)
  {
    if !Truthy(level) then ""
    else
      match LevelLabel(Lower(level.value))
      case Some(shown) => shown
      case None => Title(level.value)
  }

  /** The level label depends on the level only up to case. */
  lemma FormatSkillLevelIgnoresCase(a: string, b: string)
    requires Lower(a) == Lower(b)
    ensures FormatSkillLevel(Some(a)) == FormatSkillLevel(Some(b))
  {
    TitleIgnoresCase(a, b);
    assert a == "" <==> b == "";
  }

  // ---------------------------------------------------------------------
  // Skills, durations, truncation

  /** `format_skills_list` */
  function FormatSkillsList(skills: seq<SkillData>): (r: string)
    ensures skills == [] ==> r == "No skills listed"
    ensures skills != [] ==> r == Join(", ", Take(Seqs.Map(NameText, Seqs.Filter(skills, HasName)), 10))
  {
    if skills == [] then "No skills listed"
    else
      SkillNamesInOrder(skills);
      Join(", ", Take(SkillNames(skills), 10))
  }

  /** Each of the first ten truthy names appears in the list. */
  lemma SkillsListShowsFirstTen(skills: seq<SkillData>, k: int)
    requires skills != [] && 0 <= k < |SkillNames(skills)| && k < 10
    ensures Contains(FormatSkillsList(skills), SkillNames(skills)[k])
  {
    JoinContains(", ", Take(SkillNames(skills), 10), k);
  }

  /** A non-empty list without a truthy name formats as the empty text, not "No skills listed". */
  lemma SkillsListWithoutNames(skills: seq<SkillData>)
    requires skills != []
    requires forall k :: 0 <= k < |skills| ==> !Truthy(skills[k].name.Get())
    ensures FormatSkillsList(skills) == ""
  {
    assert SkillNames(skills) == [] by {
      if SkillNames(skills) != [] {
        assert SkillNames(skills)[0] in SkillNames(skills);
      }
    }
  }

  /** `format_experience_duration` */
  function FormatExperienceDuration(startDate: Option<string>, endDate: Option<string>): (r: string)
    ensures !Truthy(startDate) ==> r == "Duration unknown"
    ensures Truthy(startDate) ==> StartsWith(r, startDate.value + " - ")
    ensures Truthy(startDate) && Truthy(endDate) ==> EndsWith(r, " - " + endDate.value)
    ensures Truthy(startDate) && !Truthy(endDate) ==> EndsWith(r, " - Present")
    ensures Truthy(startDate) ==> r == startDate.value + " - " + (if Truthy(endDate) then endDate.value else "Present")
  {
    if !Truthy(startDate) then "Duration unknown"
    else
      var end := if Truthy(endDate) then endDate.value else "Present";
      var r := startDate.value + " - " + end;
      assert r[..|startDate.value| + 3] == startDate.value + " - ";
      assert r[|r| - |" - " + end|..] == " - " + end;
      r
  }

  /** `truncate_text` */
  function TruncateText(text: string, maxLength: int, suffix: string): (r: string)
    ensures text == [] ==> r == ""
    ensures text != [] && |text| <= maxLength ==> r == text
    ensures text != [] && |text| > maxLength ==> EndsWith(r, suffix)
    ensures text != [] && |text| > maxLength ==> StartsWith(text, r[..|r| - |suffix|])
  {
    if text == [] then ""
    else if |text| <= maxLength then text
    else
      var kept := BeforeLastSpace(Take(text, maxLength - |suffix|));
      var r := kept + suffix;
      assert r[..|r| - |suffix|] == kept;
      assert r[|r| - |suffix|..] == suffix;
      r
  }

  /** With room for the suffix, a truncated text is at most `maxLength` long. */
  lemma TruncateTextFits(text: string, maxLength: int, suffix: string)
    requires maxLength >= |suffix|
    ensures |TruncateText(text, maxLength, suffix)| <= maxLength
  {
  }

  /**
   * A cut made inside the text ends just before the last space of the part
   * that has room: the kept text is what precedes that space.
   */
  lemma TruncateTextCutsAtSpace(text: string, maxLength: int, suffix: string)
    requires |text| > maxLength >= |suffix|
    requires ' ' in text[..maxLength - |suffix|]
    ensures var r := TruncateText(text, maxLength, suffix); text[|r| - |suffix|] == ' '
    ensures var r := TruncateText(text, maxLength, suffix);
      forall k | |r| - |suffix| < k < maxLength - |suffix| :: text[k] != ' '
  {
    var t := Take(text, maxLength - |suffix|);
    assert t == text[..maxLength - |suffix|];
    var kept := BeforeLastSpace(t);
    assert t[|kept|] == ' ';
    forall k | |kept| < k < maxLength - |suffix|
      ensures text[k] != ' '
    {
      assert text[k] == t[|kept| + 1..][k - |kept| - 1];
    }
  }

  /** Without a space in the part that has room, that whole part is kept before the suffix. */
  lemma TruncateTextWithoutSpace(text: string, maxLength: int, suffix: string)
    requires text != [] && |text| > maxLength
    requires ' ' !in Take(text, maxLength - |suffix|)
    ensures TruncateText(text, maxLength, suffix) == Take(text, maxLength - |suffix|) + suffix
  {
  }

  // ---------------------------------------------------------------------
  // Requirement bullets

  /** The bullet character. */
  const BulletChar: string := "\U{2022}"

  /** One requirement, stripped and bulleted unless it already starts with a bullet or dash. */
  function Bullet(req: string): (r: string)
    ensures StartsWith(r, BulletChar) || StartsWith(r, "-")
  {
    var t := Strip(req);
    if StartsWith(t, BulletChar) || StartsWith(t, "-") then t else BulletChar + " " + t
  }

  /** The counting line added after the shown items. */
  function MoreLine(hidden: int): string
  {
    "... and " + IntToString(hidden) + " more"
  }

  /** The "more" line starts with a dot, so it is never a bulleted item. */
  lemma MoreLineIsNoBullet(hidden: int, req: string)
    ensures MoreLine(hidden) != Bullet(req)
  {
    var b := Bullet(req);
    assert b[0] == '\U{2022}' || b[0] == '-';
  }

  /** `format_requirements_list` */
  method FormatRequirementsList(requirements: seq<string>, maxItems: int) returns (formatted: seq<string>)
    ensures requirements == [] ==> formatted == []
    ensures requirements != [] ==>
      var shown := Take(requirements, maxItems);
      && |formatted| == |shown| + (if |requirements| > maxItems then 1 else 0)
      && (forall i :: 0 <= i < |shown| ==> formatted[i] == Bullet(shown[i]))
      && (|requirements| > maxItems ==> formatted[|formatted| - 1] == MoreLine(|requirements| - maxItems))
  {
    if requirements == [] {
      return [];
    }
    var shown := Take(requirements, maxItems);
    formatted := [];
    var i := 0;
    while i < |shown|
      invariant 0 <= i <= |shown|
      invariant |formatted| == i
      invariant forall k :: 0 <= k < i ==> formatted[k] == Bullet(shown[k])
    {
      var req := Strip(shown[i]);
      if !StartsWith(req, BulletChar) && !StartsWith(req, "-") {
        req := BulletChar + " " + req;
      }
      formatted := formatted + [req];
      i := i + 1;
    }
    if |requirements| > maxItems {
      formatted := formatted + [MoreLine(|requirements| - maxItems)];
    }
  }

  /** Every line of the formatted list is a bullet, except a final "more" line when items were hidden. */
  lemma FormattedShape(requirements: seq<string>, maxItems: int, formatted: seq<string>, k: int)
    requires requirements != []
    requires var shown := Take(requirements, maxItems);
      && |formatted| == |shown| + (if |requirements| > maxItems then 1 else 0)
      && (forall i :: 0 <= i < |shown| ==> formatted[i] == Bullet(shown[i]))
      && (|requirements| > maxItems ==> formatted[|formatted| - 1] == MoreLine(|requirements| - maxItems))
    requires 0 <= k < |formatted|
    ensures StartsWith(formatted[k], BulletChar) || StartsWith(formatted[k], "-") || formatted[k] == MoreLine(|requirements| - maxItems)
    ensures k < |formatted| - 1 ==> formatted[k] != MoreLine(|requirements| - maxItems)
    ensures 0 <= maxItems <= |requirements| ==> |formatted| == maxItems + (if |requirements| > maxItems then 1 else 0)
  {
    var shown := Take(requirements, maxItems);
    if k < |shown| {
      assert formatted[k] == Bullet(shown[k]);
      MoreLineIsNoBullet(|requirements| - maxItems, shown[k]);
    } else {
      assert k == |formatted| - 1;
    }
    if 0 <= maxItems <= |requirements| {
      assert |shown| == maxItems;
    }
  }

  // ---------------------------------------------------------------------
  // Metrics

  /** One metric tile: its label and its count. */
  datatype Metric = Metric(caption: string, value: int)

  /** The status keys of the metrics row, in display order. */
  const MetricKeys: seq<string> := ["total", "draft", "applied", "interviewing", "rejected", "offer"]

  /** The labels of the metrics row, in the same order. */
  const MetricLabels: seq<string> := [
    "\U{1F4CA} Total", "\U{1F4DD} Draft", "\U{1F4EC} Applied",
    "\U{1F3A4} Interviewing", "\U{274C} Rejected", "\U{1F389} Offer"]

  /** `stats.get(key, 0)` */
  function CountOf(stats: map<string, int>, key: string): int
  {
    if key in stats then stats[key] else 0
  }

  /** `stats_to_metrics` */
  method StatsToMetrics(stats: map<string, int>) returns (metrics: seq<Metric>)
    ensures |metrics| == 6
    ensures forall i :: 0 <= i < 6 ==> metrics[i].caption == MetricLabels[i]
    ensures forall i :: 0 <= i < 6 ==> metrics[i].value == CountOf(stats, MetricKeys[i])
  {
    var emojis := ["\U{1F4CA}", "\U{1F4DD}", "\U{1F4EC}", "\U{1F3A4}", "\U{274C}", "\U{1F389}"];
    var labels := ["Total", "Draft", "Applied", "Interviewing", "Rejected", "Offer"];
    assert forall i :: 0 <= i < 6 ==> MetricLabels[i] == emojis[i] + " " + labels[i];
    metrics := [];
    var i := 0;
    while i < 6
      invariant 0 <= i <= 6
      invariant |metrics| == i
      invariant forall k :: 0 <= k < i ==> metrics[k] == Metric(MetricLabels[k], CountOf(stats, MetricKeys[k]))
    {
      var key := MetricKeys[i];
      var value := if key in stats then stats[key] else 0;
      metrics := metrics + [Metric(emojis[i] + " " + labels[i], value)];
      i := i + 1;
    }
  }

  /** The metric keys are distinct, so each count is read from its own key. */
  lemma MetricKeysDistinct()
    ensures forall i, j :: 0 <= i < j < |MetricKeys| ==> MetricKeys[i] != MetricKeys[j]
  {
  }

  // ---------------------------------------------------------------------
  // Profile overview

  /** The overview of a profile shown in the sidebar. */
  datatype ProfileOverview = ProfileOverview(
    name: Option<string>,
    email: Option<string>,
    location: Option<string>,
    skillsCount: nat,
    skillsPreview: string,
    experienceCount: nat,
    technicalSkills: nat,
    softSkills: nat)

  /** The number of skill entries whose category is exactly `category`. */
  function CountCategory(skills: seq<SkillData>, category: string): (n: nat)
    ensures n <= |skills|
    decreases |skills|
  {
    if skills == [] then 0
    else CountCategory(skills[..|skills| - 1], category) + if skills[|skills| - 1].category == Given(category) then 1 else 0
  }

  /** Entries of two different categories are counted apart, so together they are at most all entries. */
  lemma {:induction false} CountTwoCategories(skills: seq<SkillData>, a: string, b: string)
    requires a != b
    ensures CountCategory(skills, a) + CountCategory(skills, b) <= |skills|
    decreases |skills|
  {
    if skills != [] {
      CountTwoCategories(skills[..|skills| - 1], a, b);
    }
  }

  /** No entry of the category gives a count of zero, and every entry of it gives the full count. */
  lemma {:induction false} CountCategoryExtremes(skills: seq<SkillData>, category: string)
    ensures (forall k :: 0 <= k < |skills| ==> skills[k].category != Given(category)) ==> CountCategory(skills, category) == 0
    ensures (forall k :: 0 <= k < |skills| ==> skills[k].category == Given(category)) ==> CountCategory(skills, category) == |skills|
    decreases |skills|
  {
    if skills != [] {
      CountCategoryExtremes(skills[..|skills| - 1], category);
    }
  }

  /** `s.get('category') == category`, as a test on one entry. */
  function OfCategory(category: string): SkillData -> bool
  {
    (s: SkillData) => s.category == Given(category)
  }

  /** The count is the length of the comprehension `[s for s in skills if s.get('category') == category]`. */
  lemma {:induction false} CountCategoryIsFilter(skills: seq<SkillData>, category: string)
    ensures CountCategory(skills, category) == |Seqs.Filter(skills, OfCategory(category))|
    decreases |skills|
  {
    if skills != [] {
      var p, x := skills[..|skills| - 1], skills[|skills| - 1];
      CountCategoryIsFilter(p, category);
      assert skills == p + [x];
      Seqs.FilterSnoc(p, x, OfCategory(category));
    }
  }

  /** `profile_to_summary` */
  function ProfileToSummary(profile: ProfileData): (o: ProfileOverview)
    ensures o.skillsCount == |profile.skills| && o.experienceCount == |profile.experience|
    ensures o.technicalSkills + o.softSkills <= o.skillsCount
    ensures o.technicalSkills == |Seqs.Filter(profile.skills, OfCategory("technical"))|
    ensures o.softSkills == |Seqs.Filter(profile.skills, OfCategory("soft"))|
    ensures o.skillsPreview == FormatSkillsList(profile.skills)
    ensures profile.name.Absent? ==> o.name == Some("Unknown")
    ensures profile.email.Absent? ==> o.email == Some("N/A")
    ensures profile.location.Absent? ==> o.location == Some("N/A")
    ensures profile.name.Null? ==> o.name == None
    ensures profile.email.Null? ==> o.email == None
    ensures profile.location.Null? ==> o.location == None
    ensures profile.name.Given? ==> o.name == Some(profile.name.value)
    ensures profile.email.Given? ==> o.email == Some(profile.email.value)
    ensures profile.location.Given? ==> o.location == Some(profile.location.value)
  {
    CountTwoCategories(profile.skills, "technical", "soft");
    CountCategoryIsFilter(profile.skills, "technical");
    CountCategoryIsFilter(profile.skills, "soft");
    ProfileOverview(
      name := profile.name.GetOr("Unknown"),
      email := profile.email.GetOr("N/A"),
      location := profile.location.GetOr("N/A"),
      skillsCount := |profile.skills|,
      skillsPreview := FormatSkillsList(profile.skills),
      experienceCount := |profile.experience|,
      technicalSkills := CountCategory(profile.skills, "technical"),
      softSkills := CountCategory(profile.skills, "soft"))
  }
}
