/** Rows of the tables the handlers read and write. Enumerated columns hold
    the enum's string value; the model keeps the enum member, which the
    round-trip lemmas of module Enums show loses nothing. Time columns are
    integers (seconds); an autoincrement id or a generated uuid is whatever
    the database or `uuid4` supplied. */
module Models {
  import opened Wrappers
  import opened Enums
  import opened Json

  /** A user. The `users` table declares no customer_profile_id column, yet
      the handlers read and write one; the model gives users that field. */
  datatype User = User(
    id: nat,
    uuid: string,
    email: string,
    role: UserRole,
    customer_profile_id: Option<nat>,
    created_at: int)

  /** A company's profile, shared by every customer user of that company. */
  datatype CustomerProfile = CustomerProfile(
    id: nat,
    uuid: string,
    company_name: string,
    contact_name: Option<string>,
    phone: Option<string>,
    address: Option<string>,
    created_at: int)

  datatype PrinterProfile = PrinterProfile(
    id: nat,
    uuid: string,
    user_id: nat,
    business_name: string,
    contact_name: Option<string>,
    phone: Option<string>,
    email: Option<string>,
    address: Option<string>,
    capabilities: Option<string>,
    supported_product_types: JsonText,
    min_quantity: Option<int>,
    max_quantity: Option<int>,
    service_areas: Option<JsonText>,
    payment_terms: string,
    email_notifications: bool,
    whatsapp_notifications: bool,
    whatsapp_number: Option<string>,
    created_at: int)

  /** A printing job. Non-null columns have plain types, nullable ones an
      Option. */
  datatype PrintingJob = PrintingJob(
    id: nat,
    uuid: string,
    customer_profile_id: nat,
    product_type: ProductType,
    quantity: int,
    due_date: int,
    description: Option<string>,
    special_instructions: Option<string>,
    file_url: Option<string>,
    bidding_duration_hours: int,
    bidding_ends_at: Option<int>,
    delivery_location: Option<string>,
    pickup_preferred: bool,
    state: JobState,
    created_at: int,
    published_at: Option<int>,
    closed_at: Option<int>,
    completed_at: Option<int>)

  /** Column default of bidding_duration_hours. */
  const DefaultBiddingDurationHours: int := 24

  predicate IsHexDigit(c: char) {
    '0' <= c <= '9' || 'a' <= c <= 'f' || 'A' <= c <= 'F'
  }

  /** PostgreSQL's input syntax for a `uuid` value: 32 hex digits, with a
      hyphen allowed after any group of four of them except the last, the
      whole optionally in braces. A job-uuid path segment is compared with
      the uuid column, so text of any other form makes the cast, and the
      query, fail. */
  predicate UuidLiteral(s: string) {
    UuidLiteralRest(s, 0) || (|s| >= 2 && s[0] == '{' && s[|s| - 1] == '}' && UuidLiteralRest(s[1..|s| - 1], 0))
  }

  /** The rest of the text after `seen` digits have been read. */
  predicate UuidLiteralRest(s: string, seen: nat)
    decreases |s|
  {
    if s == [] then seen == 32
    else if IsHexDigit(s[0]) then seen < 32 && UuidLiteralRest(s[1..], seen + 1)
    else s[0] == '-' && 0 < seen < 32 && seen % 4 == 0 && |s| > 1 && IsHexDigit(s[1]) && UuidLiteralRest(s[1..], seen)
  }

  /** The table's check constraints `quantity > 0` and
      `bidding_duration_hours > 0`. */
  predicate JobRowValid(j: PrintingJob) {
    j.quantity > 0 && j.bidding_duration_hours > 0
  }

  /** A row inserted with only its required columns: every defaulted column
      takes its declared default and every nullable one is null. */
  function InsertedWithDefaults(id: nat, uuid: string, customerProfileId: nat, productType: ProductType,
                                quantity: int, dueDate: int, now: int): (j: PrintingJob)
    ensures j.state == DRAFT && j.bidding_duration_hours == DefaultBiddingDurationHours && !j.pickup_preferred
    ensures j.description.None? && j.special_instructions.None? && j.file_url.None? && j.delivery_location.None?
    ensures j.bidding_ends_at.None? && j.published_at.None? && j.closed_at.None? && j.completed_at.None?
    ensures JobRowValid(j) <==> quantity > 0
  {
    PrintingJob(id, uuid, customerProfileId, productType, quantity, dueDate, None, None, None,
                DefaultBiddingDurationHours, None, None, false, DRAFT, now, None, None, None)
  }
}
