/**
 * The job normaliser: a raw posting from the job search API becomes a job
 * in the application's own schema, and a normalised job becomes a short
 * text summary.
 *
 * Two library calls are parameters: `formatYears` is the `:.1f` rendering
 * of a real number, and `parseIso` is the ISO date parse followed by
 * `strftime("%Y-%m-%d")`, `None` when the parse raises.  The raw JSON kept
 * alongside the normalised job is not part of `JobData`.
 */
module Normalizer {
  import opened Wrappers
  import opened PyText
  import opened Records
  import Seqs

  // ---------------------------------------------------------------------
  // Location

  /** The value of a string key as a one-element list when it is truthy, else the empty list. */
  function Present(s: Slot<string>): (r: seq<string>)
    ensures r == [] <==> !Truthy(s.Get())
    ensures r != [] ==> r == [s.value] && s.value != ""
  {
    if Truthy(s.Get()) then [s.value] else []
  }

  /** The truthy city, state and country, in that order. */
  function LocationParts(raw: RawJob): (parts: seq<string>)
    ensures |parts| <= 3
    ensures forall k :: 0 <= k < |parts| ==> parts[k] != ""
  {
    Present(raw.jobCity) + Present(raw.jobState) + Present(raw.jobCountry)
  }

  /** The `location` of the normalised job. */
  function Location(raw: RawJob): Option<string>
  {
    var parts := LocationParts(raw);
    if parts != [] then Some(Join(", ", parts)) else raw.jobLocation.GetOr("N/A")
  }

  /** city, state and country, when all are given, make "city, state, country". */
  lemma LocationOfAll(raw: RawJob)
    requires Truthy(raw.jobCity.Get()) && Truthy(raw.jobState.Get()) && Truthy(raw.jobCountry.Get())
    ensures Location(raw) == Some(raw.jobCity.value + ", " + raw.jobState.value + ", " + raw.jobCountry.value)
  {
    var parts := [raw.jobCity.value, raw.jobState.value, raw.jobCountry.value];
    assert LocationParts(raw) == parts;
    assert parts[1..][1..] == [raw.jobCountry.value];
    assert Join(", ", parts[1..]) == raw.jobState.value + ", " + raw.jobCountry.value;
    assert Join(", ", parts) == raw.jobCity.value + ", " + Join(", ", parts[1..]);
    assert Location(raw) == Some(Join(", ", parts));
    assert raw.jobCity.value + ", " + (raw.jobState.value + ", " + raw.jobCountry.value)
        == raw.jobCity.value + ", " + raw.jobState.value + ", " + raw.jobCountry.value;
  }

  /** A single truthy part is the whole location. */
  lemma LocationOfOne(raw: RawJob, part: string)
    requires LocationParts(raw) == [part]
    ensures Location(raw) == Some(part)
  {
  }

  /** With no truthy part the location is `job_location`: "N/A" when the key is missing, `None` when it is null. */
  lemma LocationFallback(raw: RawJob)
    requires !Truthy(raw.jobCity.Get()) && !Truthy(raw.jobState.Get()) && !Truthy(raw.jobCountry.Get())
    ensures raw.jobLocation.Absent? ==> Location(raw) == Some("N/A")
    ensures raw.jobLocation.Null? ==> Location(raw) == None
    ensures raw.jobLocation.Given? ==> Location(raw) == Some(raw.jobLocation.value)
  {
  }

  /** Some truthy part: the location starts with the first one and is never empty. */
  lemma LocationStartsWithFirstPart(raw: RawJob)
    requires LocationParts(raw) != []
    ensures Location(raw).Some? && Location(raw).value != ""
    ensures StartsWith(Location(raw).value, LocationParts(raw)[0])
  {
    var parts := LocationParts(raw);
    if |parts| > 1 {
      assert Join(", ", parts) == parts[0] + (", " + Join(", ", parts[1..]));
    }
  }

  // ---------------------------------------------------------------------
  // Requirements

  /** `job_required_skills` when truthy. */
  function RequiredSkills(raw: RawJob): seq<string>
  {
    if raw.jobRequiredSkills.Given? then raw.jobRequiredSkills.value else []
  }

  /** `job_highlights["Qualifications"]` when the highlights and the qualifications are truthy and the latter is a list. */
  function QualificationItems(raw: RawJob): (r: seq<string>)
    ensures r != [] ==> raw.jobHighlights.Given? && raw.jobHighlights.value.qualifications.Given?
    ensures r != [] ==> raw.jobHighlights.value.qualifications.value == QualList(r)
  {
    if raw.jobHighlights.Given? && raw.jobHighlights.value.qualifications.Given? then
      match raw.jobHighlights.value.qualifications.value
      case QualList(items) => items
      case QualOther(_) => []
    else []
  }

  /** `required_experience_in_months` when the object and the month count are truthy. */
  function RequiredMonths(raw: RawJob): Option<real>
  {
    if raw.jobRequiredExperience.Given? && raw.jobRequiredExperience.value.months.Given?
       && raw.jobRequiredExperience.value.months.value != 0.0
    then Some(raw.jobRequiredExperience.value.months.value)
    else None
  }

  /** The experience line for a number of months. */
  function ExperienceLine(months: real, formatYears: real -> string): string
  {
    formatYears(months / 12.0) + " years of experience required"
  }

  /** The `requirements` of the normalised job: required skills, then qualifications, then the experience line. */
  function Requirements(raw: RawJob, formatYears: real -> string): (r: seq<string>)
    ensures |r| == |RequiredSkills(raw)| + |QualificationItems(raw)| + if RequiredMonths(raw).Some? then 1 else 0
    ensures r[..|RequiredSkills(raw)|] == RequiredSkills(raw)
    ensures r[|RequiredSkills(raw)|..|RequiredSkills(raw)| + |QualificationItems(raw)|] == QualificationItems(raw)
    ensures RequiredMonths(raw).Some? ==> r[|r| - 1] == ExperienceLine(RequiredMonths(raw).value, formatYears)
  {
    var skills := RequiredSkills(raw);
    var quals := QualificationItems(raw);
    var experience := if RequiredMonths(raw).Some? then [ExperienceLine(RequiredMonths(raw).value, formatYears)] else [];
    var r := skills + quals + experience;
    assert r[..|skills|] == skills;
    assert r[|skills|..|skills| + |quals|] == quals;
    r
  }

  /** Qualifications that are not a list contribute nothing. */
  lemma QualificationsNotAList(raw: RawJob, truthy: bool, formatYears: real -> string)
    requires raw.jobHighlights == Given(Highlights(Given(QualOther(truthy))))
    ensures Requirements(raw, formatYears) ==
      RequiredSkills(raw) + if RequiredMonths(raw).Some? then [ExperienceLine(RequiredMonths(raw).value, formatYears)] else []
  {
    assert QualificationItems(raw) == [];
  }

  /** Every requirement is a required skill, a qualification or the experience line. */
  lemma RequirementsFromSources(raw: RawJob, formatYears: real -> string, x: string)
    requires x in Requirements(raw, formatYears)
    ensures x in RequiredSkills(raw) || x in QualificationItems(raw)
         || (RequiredMonths(raw).Some? && x == ExperienceLine(RequiredMonths(raw).value, formatYears))
  {
  }

  // ---------------------------------------------------------------------
  // The normalised job

  /** `job_posted_at_datetime_utc` as a date: the parsed date, or the first 10 characters when parsing fails. */
  function PostedDate(raw: RawJob, parseIso: string -> Option<string>): (r: Option<string>)
    ensures !Truthy(raw.jobPostedAt.Get()) ==> r.None?
    ensures Truthy(raw.jobPostedAt.Get()) && parseIso(raw.jobPostedAt.value).Some? ==> r == parseIso(raw.jobPostedAt.value)
    ensures Truthy(raw.jobPostedAt.Get()) && parseIso(raw.jobPostedAt.value).None? ==>
      r.Some? && |r.value| <= 10 && StartsWith(raw.jobPostedAt.value, r.value)
    ensures Truthy(raw.jobPostedAt.Get()) && parseIso(raw.jobPostedAt.value).None? ==>
      |r.value| == (if |raw.jobPostedAt.value| < 10 then |raw.jobPostedAt.value| else 10)
  {
    if !Truthy(raw.jobPostedAt.Get()) then None
    else
      match parseIso(raw.jobPostedAt.value)
      case Some(d) => Some(d)
      case None => Some(Take(raw.jobPostedAt.value, 10))
  }

  /** `bool(raw_job.get("job_is_remote", False))` */
  function Remote(raw: RawJob): bool
  {
    raw.jobIsRemote.Given? && raw.jobIsRemote.value
  }

  /** `raw_job.get("job_apply_link") or raw_job.get("job_google_link")` */
  function ApplyUrl(raw: RawJob): (r: Option<string>)
    ensures Truthy(raw.jobApplyLink.Get()) ==> r == raw.jobApplyLink.Get()
    ensures !Truthy(raw.jobApplyLink.Get()) ==> r == raw.jobGoogleLink.Get()
  {
    if Truthy(raw.jobApplyLink.Get()) then raw.jobApplyLink.Get() else raw.jobGoogleLink.Get()
  }

  /** `normalize_job_data` */
  function NormalizeJobData(raw: RawJob, formatYears: real -> string, parseIso: string -> Option<string>): JobData
  {
    JobData(
      externalId := raw.jobId.Get(),
      title := raw.jobTitle.GetOr("Untitled"),
      company := raw.employerName.GetOr("Unknown"),
      location := Location(raw),
      remote := Remote(raw),
      description := raw.jobDescription.GetOr(""),
      requirements := Requirements(raw, formatYears),
      salaryMin := raw.jobMinSalary.Get(),
      salaryMax := raw.jobMaxSalary.Get(),
      applyUrl := ApplyUrl(raw),
      source := raw.jobPublisher.GetOr("JSearch"),
      postedDate := PostedDate(raw, parseIso))
  }

  /** Missing keys take their defaults; keys present with `null` stay `None`. */
  lemma NormalizeDefaults(raw: RawJob, formatYears: real -> string, parseIso: string -> Option<string>)
    ensures var j := NormalizeJobData(raw, formatYears, parseIso);
      && (raw.jobTitle.Absent? ==> j.title == Some("Untitled"))
      && (raw.employerName.Absent? ==> j.company == Some("Unknown"))
      && (raw.jobDescription.Absent? ==> j.description == Some(""))
      && (raw.jobPublisher.Absent? ==> j.source == Some("JSearch"))
      && (raw.jobTitle.Null? ==> j.title == None)
      && (raw.jobIsRemote.Absent? || raw.jobIsRemote.Null? ==> !j.remote)
      && (raw.jobId.Absent? || raw.jobId.Null? ==> j.externalId == None)
  {
  }

  /** Present keys pass through unchanged, salaries included. */
  lemma NormalizePassThrough(raw: RawJob, formatYears: real -> string, parseIso: string -> Option<string>)
    ensures var j := NormalizeJobData(raw, formatYears, parseIso);
      && (raw.jobId.Given? ==> j.externalId == Some(raw.jobId.value))
      && (raw.jobTitle.Given? ==> j.title == Some(raw.jobTitle.value))
      && (raw.employerName.Given? ==> j.company == Some(raw.employerName.value))
      && (raw.jobDescription.Given? ==> j.description == Some(raw.jobDescription.value))
      && (raw.jobIsRemote.Given? ==> j.remote == raw.jobIsRemote.value)
      && j.salaryMin == raw.jobMinSalary.Get() && j.salaryMax == raw.jobMaxSalary.Get()
  {
  }

  /** `normalize_job_data` with the formatting helpers fixed, as a function value. */
  function NormalizeWith(formatYears: real -> string, parseIso: string -> Option<string>): RawJob -> JobData
  {
    raw => NormalizeJobData(raw, formatYears, parseIso)
  }

  /** `normalize_job_list`: element-wise normalisation, same length, same order. */
  function NormalizeJobList(raws: seq<RawJob>, formatYears: real -> string, parseIso: string -> Option<string>): (jobs: seq<JobData>)
    ensures |jobs| == |raws|
  {
    Seqs.Map(NormalizeWith(formatYears, parseIso), raws)
  }

  /** The list is normalised element by element, in order. */
  lemma NormalizeJobListElementwise(raws: seq<RawJob>, formatYears: real -> string, parseIso: string -> Option<string>)
    ensures var jobs := NormalizeJobList(raws, formatYears, parseIso);
      |jobs| == |raws| && forall i :: 0 <= i < |raws| ==> jobs[i] == NormalizeJobData(raws[i], formatYears, parseIso)
  {
    Seqs.MapAt(NormalizeWith(formatYears, parseIso), raws);
  }

  // ---------------------------------------------------------------------
  // Summary

  /** The salary figures shown: the truthy minimum, then the truthy maximum. */
  function SalaryRange(job: JobData): (r: seq<string>)
    ensures |r| <= 2
    ensures r == [] <==> !NonZero(job.salaryMin) && !NonZero(job.salaryMax)
    ensures NonZero(job.salaryMin) ==> r[0] == Dollars(job.salaryMin.value)
    ensures NonZero(job.salaryMax) ==> r[|r| - 1] == Dollars(job.salaryMax.value)
  {
    (if NonZero(job.salaryMin) then [Dollars(job.salaryMin.value)] else [])
    + (if NonZero(job.salaryMax) then [Dollars(job.salaryMax.value)] else [])
  }

  /** `str(x)` of an optional string inside an f-string. */
  function Shown(s: Option<string>): string
  {
    if s.Some? then s.value else "None"
  }

  /** The "Remote: Yes" line, when the job is remote. */
  function RemoteLine(job: JobData): seq<string>
  {
    if job.remote then ["Remote: Yes"] else []
  }

  /** The salary line, when a salary bound is truthy. */
  function SalaryLine(job: JobData): seq<string>
  {
    if NonZero(job.salaryMin) || NonZero(job.salaryMax) then ["Salary: " + Join(" - ", SalaryRange(job))] else []
  }

  /** The posting date line, when the date is truthy. */
  function PostedLine(job: JobData): seq<string>
  {
    if Truthy(job.postedDate) then ["Posted: " + job.postedDate.value] else []
  }

  /** The requirement count line, when there are requirements. */
  function RequirementsLine(job: JobData): seq<string>
  {
    if job.requirements != [] then ["Requirements: " + NatToString(|job.requirements|) + " listed"] else []
  }

  /** The lines of `extract_job_summary`. */
  function SummaryLines(job: JobData): (lines: seq<string>)
    ensures 3 <= |lines| <= 7
    ensures lines[0] == "Title: " + Shown(job.title)
    ensures lines[1] == "Company: " + Shown(job.company)
    ensures lines[2] == "Location: " + Shown(job.location)
    ensures job.requirements != [] ==> lines[|lines| - 1] == "Requirements: " + NatToString(|job.requirements|) + " listed"
  {
    ["Title: " + Shown(job.title), "Company: " + Shown(job.company), "Location: " + Shown(job.location)]
    + RemoteLine(job) + SalaryLine(job) + PostedLine(job) + RequirementsLine(job)
  }

  /** `extract_job_summary` */
  function ExtractJobSummary(job: JobData): string
  {
    Join("\n", SummaryLines(job))
  }

  /** The lines after the first three are the optional ones, in order. */
  lemma OptionalLines(job: JobData)
    ensures SummaryLines(job)[3..] == RemoteLine(job) + SalaryLine(job) + PostedLine(job) + RequirementsLine(job)
  {
    var head := ["Title: " + Shown(job.title), "Company: " + Shown(job.company), "Location: " + Shown(job.location)];
    assert SummaryLines(job) == head + (RemoteLine(job) + SalaryLine(job) + PostedLine(job) + RequirementsLine(job));
  }

  /** A labelled line keeps the label's characters. */
  lemma LabelAt(tag: string, rest: string, k: nat)
    requires k < |tag|
    ensures |tag + rest| > k && (tag + rest)[k] == tag[k]
  {
  }

  /** The salary line, if any, starts with 'S'. */
  lemma SalaryLineHead(job: JobData)
    ensures |SalaryLine(job)| <= 1
    ensures SalaryLine(job) != [] ==> |SalaryLine(job)[0]| > 0 && SalaryLine(job)[0][0] == 'S'
  {
    if NonZero(job.salaryMin) || NonZero(job.salaryMax) {
      LabelAt("Salary: ", Join(" - ", SalaryRange(job)), 0);
    }
  }

  /** The posting line, if any, starts with 'P'. */
  lemma PostedLineHead(job: JobData)
    ensures |PostedLine(job)| <= 1
    ensures PostedLine(job) != [] ==> |PostedLine(job)[0]| > 0 && PostedLine(job)[0][0] == 'P'
  {
    if Truthy(job.postedDate) {
      LabelAt("Posted: ", job.postedDate.value, 0);
    }
  }

  /** The requirement line, if any, has 'q' third. */
  lemma RequirementsLineHead(job: JobData)
    ensures |RequirementsLine(job)| <= 1
    ensures RequirementsLine(job) != [] ==> |RequirementsLine(job)[0]| > 2 && RequirementsLine(job)[0][2] == 'q'
  {
    if job.requirements != [] {
      var tail := NatToString(|job.requirements|) + " listed";
      LabelAt("Requirements: ", tail, 2);
      assert "Requirements: " + NatToString(|job.requirements|) + " listed" == "Requirements: " + tail;
    }
  }

  /** Exactly the remote jobs get a "Remote: Yes" line. */
  lemma RemoteLineIff(job: JobData)
    ensures "Remote: Yes" in SummaryLines(job)[3..] <==> job.remote
  {
    OptionalLines(job);
    SalaryLineHead(job);
    PostedLineHead(job);
    RequirementsLineHead(job);
    var yes := "Remote: Yes";
    assert yes[0] == 'R' && yes[2] == 'm';
    var s, p, q := SalaryLine(job), PostedLine(job), RequirementsLine(job);
    assert yes !in s && yes !in p && yes !in q;
    assert SummaryLines(job)[3..] == RemoteLine(job) + s + p + q;
  }

  /** The summary has a salary line iff a salary bound is truthy. */
  lemma SalaryLineIff(job: JobData)
    ensures (exists k :: 3 <= k < |SummaryLines(job)| && StartsWith(SummaryLines(job)[k], "Salary: ")) <==>
      NonZero(job.salaryMin) || NonZero(job.salaryMax)
  {
    OptionalLines(job);
    var lines := SummaryLines(job);
    var r, s, p, q := RemoteLine(job), SalaryLine(job), PostedLine(job), RequirementsLine(job);
    assert lines[3..] == r + s + p + q;
    if NonZero(job.salaryMin) || NonZero(job.salaryMax) {
      var k := 3 + |r|;
      assert lines[k] == s[0];
      assert StartsWith(lines[k], "Salary: ");
    } else {
      forall k | 3 <= k < |lines| ensures !StartsWith(lines[k], "Salary: ") {
        var line := lines[k];
        assert line == lines[3..][k - 3];
        assert line in r + p + q;
        if line in p {
          assert line[0] == 'P';
        } else if line in q {
          assert line[0] == 'R';
        } else {
          assert line == "Remote: Yes";
        }
        if |line| >= 8 {
          assert line[..8][0] == line[0];
        }
      }
    }
  }

  /** With both bounds truthy the salary line is "Salary: min - max". */
  lemma SalaryLineBoth(job: JobData)
    requires NonZero(job.salaryMin) && NonZero(job.salaryMax)
    ensures SalaryLine(job) == ["Salary: " + Dollars(job.salaryMin.value) + " - " + Dollars(job.salaryMax.value)]
  {
    var lo, hi := Dollars(job.salaryMin.value), Dollars(job.salaryMax.value);
    var range := SalaryRange(job);
    assert range == [lo, hi];
    assert range[1..] == [hi];
    assert Join(" - ", range) == lo + " - " + hi;
    assert "Salary: " + (lo + " - " + hi) == "Salary: " + lo + " - " + hi;
  }

  /** With both bounds truthy the summary shows "min - max". */
  lemma SalaryLineOfBoth(job: JobData)
    requires NonZero(job.salaryMin) && NonZero(job.salaryMax)
    ensures "Salary: " + Dollars(job.salaryMin.value) + " - " + Dollars(job.salaryMax.value) in SummaryLines(job)
  {
    OptionalLines(job);
    SalaryLineBoth(job);
    var lines := SummaryLines(job);
    var r, p, q := RemoteLine(job), PostedLine(job), RequirementsLine(job);
    var x := "Salary: " + Dollars(job.salaryMin.value) + " - " + Dollars(job.salaryMax.value);
    assert lines[3..] == r + [x] + p + q;
    assert (r + [x] + p + q)[|r|] == x;
    assert lines[3 + |r|] == x;
  }
}
