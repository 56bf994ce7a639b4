/**
 * The application form data built from a stored profile: the name split
 * into first and last name on its first space, the contact details, and
 * the company and title of the first (most recent) experience entry.
 */
module ApplyForm {
  import opened Wrappers
  import opened PyText
  import opened Records

  /** `ApplicationFormData` */
  datatype FormData = FormData(
    firstName: string,
    lastName: string,
    email: Option<string>,
    phone: Option<string>,
    location: Option<string>,
    linkedinUrl: Option<string>,
    portfolioUrl: Option<string>,
    resumePath: Option<string>,
    currentCompany: Option<string>,
    currentTitle: Option<string>)

  /** `profile['name']` raises `KeyError` when missing; `None.split` raises `AttributeError`. */
  datatype FormError = NameMissing | NameNotText

  /** `name.split(' ', 1)` into first and last name. */
  function SplitName(name: string): (r: (string, string))
    ensures ' ' !in r.0
    ensures ' ' !in name ==> r == (name, "")
    ensures ' ' in name ==> name == r.0 + " " + r.1
  {
    var parts := SplitOnce(name);
    (parts[0], if |parts| > 1 then parts[1] else "")
  }

  /** `create_form_data_from_profile` */
  function CreateFormDataFromProfile(profile: ProfileData, resumePath: Option<string>): (r: Result<FormData, FormError>)
    ensures profile.name.Absent? <==> r == Err(NameMissing)
    ensures profile.name.Null? <==> r == Err(NameNotText)
    ensures r.Ok? ==> (r.value.firstName, r.value.lastName) == SplitName(profile.name.value)
    ensures r.Ok? ==> r.value.email == profile.email.GetOr("") && r.value.phone == profile.phone.GetOr("")
    ensures r.Ok? ==> r.value.location == profile.location.Get()
    ensures r.Ok? ==> r.value.linkedinUrl == profile.linkedinUrl.Get()
    ensures r.Ok? ==> r.value.portfolioUrl == profile.portfolioUrl.Get()
    ensures r.Ok? ==> r.value.resumePath == resumePath
    ensures r.Ok? && profile.experience == [] ==> r.value.currentCompany.None? && r.value.currentTitle.None?
    ensures r.Ok? && profile.experience != [] ==> r.value.currentCompany == profile.experience[0].company.Get()
    ensures r.Ok? && profile.experience != [] ==> r.value.currentTitle == profile.experience[0].title.Get()
  {
    match profile.name
    case Absent => Err(NameMissing)
    case Null => Err(NameNotText)
    case Given(name) =>
      var (first, last) := SplitName(name);
      var latest := if profile.experience != [] then Some(profile.experience[0]) else None;
      Ok(FormData(
        first, last,
        profile.email.GetOr(""),
        profile.phone.GetOr(""),
        profile.location.Get(),
        profile.linkedinUrl.Get(),
        profile.portfolioUrl.Get(),
        resumePath,
        if latest.Some? then latest.value.company.Get() else None,
        if latest.Some? then latest.value.title.Get() else None))
  }

  /** The first name never contains a space, and first and last name rebuild a name that has one. */
  lemma NameRoundTrip(profile: ProfileData, resumePath: Option<string>)
    requires profile.name.Given?
    ensures var r := CreateFormDataFromProfile(profile, resumePath);
      r.Ok? && ' ' !in r.value.firstName
      && (' ' in profile.name.value ==> r.value.firstName + " " + r.value.lastName == profile.name.value)
      && (' ' !in profile.name.value ==> r.value.firstName == profile.name.value && r.value.lastName == "")
  {
  }

  /** The form depends only on the first experience entry: later entries change nothing. */
  lemma OnlyLatestExperience(profile: ProfileData, more: seq<ExperienceData>, resumePath: Option<string>)
    requires profile.experience != []
    ensures var other := profile.(experience := profile.experience + more);
      CreateFormDataFromProfile(other, resumePath) == CreateFormDataFromProfile(profile, resumePath)
  {
    var other := profile.(experience := profile.experience + more);
    assert other.experience[0] == profile.experience[0];
  }
}
