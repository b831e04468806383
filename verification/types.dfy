/** The application's shared record types (the document row and its category union). */
module Types {
  import opened Wrappers

  /** The sixteen members of the `DocumentCategory` string union. */
  datatype DocumentCategory =
    | NepaliCitizenship | Passport | NationalId | BirthRegistration
    | MarriageRegistration | DeathRegistration | MinorCitizenship | NrnId
    | VoterId | DrivingLicense | SlcSee | HigherSecondary
    | BachelorsDegree | MastersDegree | AcademicTranscripts | CharacterCertificate

  /** The string a category is stored as. */
  function CategoryKey(c: DocumentCategory): string {
    match c
    case NepaliCitizenship => "nepali_citizenship"
    case Passport => "passport"
    case NationalId => "national_id"
    case BirthRegistration => "birth_registration"
    case MarriageRegistration => "marriage_registration"
    case DeathRegistration => "death_registration"
    case MinorCitizenship => "minor_citizenship"
    case NrnId => "nrn_id"
    case VoterId => "voter_id"
    case DrivingLicense => "driving_license"
    case SlcSee => "slc_see"
    case HigherSecondary => "higher_secondary"
    case BachelorsDegree => "bachelors_degree"
    case MastersDegree => "masters_degree"
    case AcademicTranscripts => "academic_transcripts"
    case CharacterCertificate => "character_certificate"
  }

  /** The category a stored string names, if it names one. */
  function ParseCategory(s: string): (r: Option<DocumentCategory>)
    ensures r.Some? ==> CategoryKey(r.value) == s
  {
    if s == "nepali_citizenship" then Some(NepaliCitizenship)
    else if s == "passport" then Some(Passport)
    else if s == "national_id" then Some(NationalId)
    else if s == "birth_registration" then Some(BirthRegistration)
    else if s == "marriage_registration" then Some(MarriageRegistration)
    else if s == "death_registration" then Some(DeathRegistration)
    else if s == "minor_citizenship" then Some(MinorCitizenship)
    else if s == "nrn_id" then Some(NrnId)
    else if s == "voter_id" then Some(VoterId)
    else if s == "driving_license" then Some(DrivingLicense)
    else if s == "slc_see" then Some(SlcSee)
    else if s == "higher_secondary" then Some(HigherSecondary)
    else if s == "bachelors_degree" then Some(BachelorsDegree)
    else if s == "masters_degree" then Some(MastersDegree)
    else if s == "academic_transcripts" then Some(AcademicTranscripts)
    else if s == "character_certificate" then Some(CharacterCertificate)
    else None
  }

  /** Every category's stored string reads back as that category. */
  lemma CategoryKeyRoundTrip(c: DocumentCategory)
    ensures ParseCategory(CategoryKey(c)) == Some(c)
  {
    if c.NepaliCitizenship? || c.Passport? || c.NationalId? || c.BirthRegistration? {
      RoundTripIdentity(c);
    } else if c.MarriageRegistration? || c.DeathRegistration? || c.MinorCitizenship? || c.NrnId? {
      RoundTripCivil(c);
    } else if c.VoterId? || c.DrivingLicense? {
      RoundTripCards(c);
    } else if c.SlcSee? || c.HigherSecondary? {
      RoundTripSchool(c);
    } else if c.BachelorsDegree? || c.MastersDegree? {
      RoundTripDegrees(c);
    } else {
      RoundTripRecords(c);
    }
  }

  /** The round trip for the identity documents. */
  lemma RoundTripIdentity(c: DocumentCategory)
    requires c.NepaliCitizenship? || c.Passport? || c.NationalId? || c.BirthRegistration?
    ensures ParseCategory(CategoryKey(c)) == Some(c)
  {
  }

  /** The round trip for the civil registrations, minor citizenship and the NRN card. */
  lemma RoundTripCivil(c: DocumentCategory)
    requires c.MarriageRegistration? || c.DeathRegistration? || c.MinorCitizenship? || c.NrnId?
    ensures ParseCategory(CategoryKey(c)) == Some(c)
  {
  }

  /** The round trip for the voter card and the driving licence. */
  lemma RoundTripCards(c: DocumentCategory)
    requires c.VoterId? || c.DrivingLicense?
    ensures ParseCategory(CategoryKey(c)) == Some(c)
  {
  }

  /** The round trip for the school certificates. */
  lemma RoundTripSchool(c: DocumentCategory)
    requires c.SlcSee? || c.HigherSecondary?
    ensures ParseCategory(CategoryKey(c)) == Some(c)
  {
  }

  /** The round trip for the degrees. */
  lemma RoundTripDegrees(c: DocumentCategory)
    requires c.BachelorsDegree? || c.MastersDegree?
    ensures ParseCategory(CategoryKey(c)) == Some(c)
  {
  }

  /** The round trip for the transcripts and the character certificate. */
  lemma RoundTripRecords(c: DocumentCategory)
    requires c.AcademicTranscripts? || c.CharacterCertificate?
    ensures ParseCategory(CategoryKey(c)) == Some(c)
  {
  }

  /**
   * A row of the `documents` table as the client sees it. `category` is
   * kept as the stored string; `createdAt` is `created_at` already converted
   * to milliseconds; an absent `is_encrypted` reads as false.
   */
  datatype Document = Document(
    id: string,
    userId: string,
    name: string,
    category: string,
    filePath: string,
    fileUrl: string,
    fileType: Option<string>,
    fileSize: int,
    createdAt: int,
    isEncrypted: bool)

  /** `DocumentFilter`: every field optional. */
  datatype DocumentFilter = DocumentFilter(
    category: Option<string>,
    searchTerm: Option<string>,
    tags: Option<seq<string>>,
    dateRange: Option<(int, int)>,
    fileType: Option<string>)

  datatype ApiStatus = ApiSuccess | ApiError

  /** The `ApiResponse` the document service returns. */
  datatype ApiResponse<T> = ApiResponse(status: ApiStatus, data: Option<T>, error: Option<string>)
}
