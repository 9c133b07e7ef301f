/** The string-valued enumerations of the platform. Each member's value is
    its own name, and the tables store that value as text; parsing a value
    gives the member back and parsing any other string fails, exactly as
    calling the enum class on a string does. */
module Enums {
  import opened Wrappers

  // ---------------------------------------------------------------- UserRole

  datatype UserRole = CUSTOMER | PRINTER

  function UserRoleValue(r: UserRole): string {
    match r
    case CUSTOMER => "CUSTOMER"
    case PRINTER => "PRINTER"
  }

  const UserRoleValues: set<string> := {"CUSTOMER", "PRINTER"}

  /** `UserRole(s)`: the member whose value is `s`, if there is one. */
  function ParseUserRole(s: string): (r: Option<UserRole>)
    ensures r.Some? <==> s in UserRoleValues
    ensures r.Some? ==> UserRoleValue(r.value) == s
  {
    if s == "CUSTOMER" then Some(CUSTOMER)
    else if s == "PRINTER" then Some(PRINTER)
    else None
  }

  lemma UserRoleRoundTrip(r: UserRole)
    ensures ParseUserRole(UserRoleValue(r)) == Some(r)
  {
    match r
    case CUSTOMER =>
    case PRINTER =>
  }

  // ---------------------------------------------------------------- JobState

  datatype JobState = DRAFT | OPEN | CLOSED | IN_PROGRESS | COMPLETED

  function JobStateValue(s: JobState): string {
    match s
    case DRAFT => "DRAFT"
    case OPEN => "OPEN"
    case CLOSED => "CLOSED"
    case IN_PROGRESS => "IN_PROGRESS"
    case COMPLETED => "COMPLETED"
  }

  const JobStateValues: set<string> := {"DRAFT", "OPEN", "CLOSED", "IN_PROGRESS", "COMPLETED"}

  function ParseJobState(s: string): (r: Option<JobState>)
    ensures r.Some? <==> s in JobStateValues
    ensures r.Some? ==> JobStateValue(r.value) == s
  {
    if s == "DRAFT" then Some(DRAFT)
    else if s == "OPEN" then Some(JobState.OPEN)
    else if s == "CLOSED" then Some(CLOSED)
    else if s == "IN_PROGRESS" then Some(IN_PROGRESS)
    else if s == "COMPLETED" then Some(COMPLETED)
    else None
  }

  lemma JobStateRoundTrip(s: JobState)
    ensures ParseJobState(JobStateValue(s)) == Some(s)
  {
    match s
    case DRAFT =>
    case OPEN =>
    case CLOSED =>
    case IN_PROGRESS =>
    case COMPLETED =>
  }

  // --------------------------------------------------------------- BidStatus

  datatype BidStatus = OPEN | ACCEPTED | LOST

  function BidStatusValue(b: BidStatus): string {
    match b
    case OPEN => "OPEN"
    case ACCEPTED => "ACCEPTED"
    case LOST => "LOST"
  }

  const BidStatusValues: set<string> := {"OPEN", "ACCEPTED", "LOST"}

  function ParseBidStatus(s: string): (r: Option<BidStatus>)
    ensures r.Some? <==> s in BidStatusValues
    ensures r.Some? ==> BidStatusValue(r.value) == s
  {
    if s == "OPEN" then Some(BidStatus.OPEN)
    else if s == "ACCEPTED" then Some(ACCEPTED)
    else if s == "LOST" then Some(LOST)
    else None
  }

  lemma BidStatusRoundTrip(b: BidStatus)
    ensures ParseBidStatus(BidStatusValue(b)) == Some(b)
  {
    match b
    case OPEN =>
    case ACCEPTED =>
    case LOST =>
  }

  // ------------------------------------------------------------- ProductType

  datatype ProductType = LEAFLETS | POSTERS | BROCHURES | FLYERS | BUSINESS_CARDS | OTHER

  function ProductTypeValue(p: ProductType): string {
    match p
    case LEAFLETS => "LEAFLETS"
    case POSTERS => "POSTERS"
    case BROCHURES => "BROCHURES"
    case FLYERS => "FLYERS"
    case BUSINESS_CARDS => "BUSINESS_CARDS"
    case OTHER => "OTHER"
  }

  const ProductTypeValues: set<string> :=
    {"LEAFLETS", "POSTERS", "BROCHURES", "FLYERS", "BUSINESS_CARDS", "OTHER"}

  function ParseProductType(s: string): (r: Option<ProductType>)
    ensures r.Some? <==> s in ProductTypeValues
    ensures r.Some? ==> ProductTypeValue(r.value) == s
  {
    if s == "LEAFLETS" then Some(LEAFLETS)
    else if s == "POSTERS" then Some(POSTERS)
    else if s == "BROCHURES" then Some(BROCHURES)
    else if s == "FLYERS" then Some(FLYERS)
    else if s == "BUSINESS_CARDS" then Some(BUSINESS_CARDS)
    else if s == "OTHER" then Some(OTHER)
    else None
  }

  lemma ProductTypeRoundTrip(p: ProductType)
    ensures ParseProductType(ProductTypeValue(p)) == Some(p)
  {
    match p
    case LEAFLETS =>
    case POSTERS =>
    case BROCHURES =>
    case FLYERS =>
    case BUSINESS_CARDS =>
    case OTHER =>
  }

  /** Distinct members have distinct stored values, so storing the value
      loses nothing. */
  lemma ProductTypeValueInjective(p: ProductType, q: ProductType)
    requires ProductTypeValue(p) == ProductTypeValue(q)
    ensures p == q
  {
    ProductTypeRoundTrip(p);
    ProductTypeRoundTrip(q);
  }

  lemma JobStateValueInjective(s: JobState, t: JobState)
    requires JobStateValue(s) == JobStateValue(t)
    ensures s == t
  {
    JobStateRoundTrip(s);
    JobStateRoundTrip(t);
  }
}
