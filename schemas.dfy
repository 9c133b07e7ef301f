/** Request bodies and the field constraints the request validator enforces
    before a handler runs. A body that breaks a constraint is answered with
    status 422 and the handler is never called; the model reports the first
    failing field in declaration order. */
module Schemas {
  import opened Wrappers
  import opened Enums
  import opened Json

  const UnprocessableEntity: nat := 422

  /** The first error the validator reports for each refused field. */
  const QuantityNotPositive: string := "quantity: Input should be greater than 0"
  const DueDateNotFuture: string := "due_date: Value error, due_date must be in the future"
  const BiddingHoursNotPositive: string := "bidding_duration_hours: Input should be greater than 0"
  const BusinessNameEmpty: string := "business_name: String should have at least 1 character"
  const MinQuantityBelowOne: string := "min_quantity: Input should be greater than or equal to 1"
  const MaxQuantityBelowOne: string := "max_quantity: Input should be greater than or equal to 1"
  const PaymentTermsEmpty: string := "payment_terms: String should have at least 1 character"

  // ------------------------------------------------------ PrintingJobCreate

  datatype PrintingJobCreate = PrintingJobCreate(
    product_type: ProductType,
    quantity: int,
    due_date: int,
    description: Option<string>,
    special_instructions: Option<string>,
    file_url: Option<string>,
    bidding_duration_hours: int,
    delivery_location: Option<string>,
    pickup_preferred: bool)

  /** A create body giving only its required fields: the rest take their
      declared defaults. */
  function JobCreateWithDefaults(productType: ProductType, quantity: int, dueDate: int): (d: PrintingJobCreate)
    ensures d.bidding_duration_hours == 24 && !d.pickup_preferred
    ensures d.description.None? && d.special_instructions.None? && d.file_url.None? && d.delivery_location.None?
  {
    PrintingJobCreate(productType, quantity, dueDate, None, None, None, 24, None, false)
  }

  /** quantity > 0, bidding_duration_hours > 0, due_date strictly after now. */
  predicate JobCreateValid(d: PrintingJobCreate, now: int) {
    d.quantity > 0 && d.bidding_duration_hours > 0 && d.due_date > now
  }

  function ValidateJobCreate(d: PrintingJobCreate, now: int): (r: Result<PrintingJobCreate>)
    ensures r.Ok? <==> JobCreateValid(d, now)
    ensures r.Ok? ==> r.value == d
    ensures r.Err? ==> r.status == UnprocessableEntity
  {
    if d.quantity <= 0 then Err(UnprocessableEntity, QuantityNotPositive)
    else if d.due_date <= now then Err(UnprocessableEntity, DueDateNotFuture)
    else if d.bidding_duration_hours <= 0 then Err(UnprocessableEntity, BiddingHoursNotPositive)
    else Ok(d)
  }

  /** With the defaults, only the quantity and the due date can be refused. */
  lemma DefaultedCreateAccepted(productType: ProductType, quantity: int, dueDate: int, now: int)
    ensures ValidateJobCreate(JobCreateWithDefaults(productType, quantity, dueDate), now).Ok?
            <==> quantity > 0 && dueDate > now
  {
  }

  // ---------------------------------------------- PrintingJobPublishRequest

  /** The body of a publish request, as far as the validator looks at it:
      absent, a JSON object (whatever its members: the schema declares none),
      or any other JSON value. */
  datatype PublishBody = NoBody | ObjectBody | OtherBody

  const BodyMissing: string := "body: Field required"
  const BodyNotObject: string := "body: Input should be a valid dictionary or object to extract fields from"

  /** `PrintingJobPublishRequest` declares no field, yet the body is still
      required, and it must be an object. */
  function ValidatePublishRequest(b: PublishBody): (r: Result<()>)
    ensures r.Ok? <==> b.ObjectBody?
    ensures r.Err? ==> r.status == UnprocessableEntity
    ensures b.NoBody? ==> r == Err(UnprocessableEntity, BodyMissing)
    ensures b.OtherBody? ==> r == Err(UnprocessableEntity, BodyNotObject)
  {
    match b
    case NoBody => Err(UnprocessableEntity, BodyMissing)
    case ObjectBody => Ok(())
    case OtherBody => Err(UnprocessableEntity, BodyNotObject)
  }

  // ------------------------------------------------------ PrintingJobUpdate

  datatype PrintingJobUpdate = PrintingJobUpdate(
    product_type: Option<ProductType>,
    quantity: Option<int>,
    due_date: Option<int>,
    description: Option<string>,
    special_instructions: Option<string>,
    file_url: Option<string>,
    bidding_duration_hours: Option<int>,
    delivery_location: Option<string>,
    pickup_preferred: Option<bool>)

  /** Every field optional; a given quantity or duration is positive and a
      given due date lies after now. */
  predicate JobUpdateValid(u: PrintingJobUpdate, now: int) {
    (u.quantity.None? || u.quantity.value > 0) &&
    (u.due_date.None? || u.due_date.value > now) &&
    (u.bidding_duration_hours.None? || u.bidding_duration_hours.value > 0)
  }

  function ValidateJobUpdate(u: PrintingJobUpdate, now: int): (r: Result<PrintingJobUpdate>)
    ensures r.Ok? <==> JobUpdateValid(u, now)
    ensures r.Ok? ==> r.value == u
    ensures r.Err? ==> r.status == UnprocessableEntity
  {
    if u.quantity.Some? && u.quantity.value <= 0 then
      Err(UnprocessableEntity, QuantityNotPositive)
    else if u.due_date.Some? && u.due_date.value <= now then
      Err(UnprocessableEntity, DueDateNotFuture)
    else if u.bidding_duration_hours.Some? && u.bidding_duration_hours.value <= 0 then
      Err(UnprocessableEntity, BiddingHoursNotPositive)
    else Ok(u)
  }

  /** The clock matters to an update only when it carries a due date. */
  lemma UpdateWithoutDueDateIgnoresClock(u: PrintingJobUpdate, now1: int, now2: int)
    requires u.due_date.None?
    ensures ValidateJobUpdate(u, now1) == ValidateJobUpdate(u, now2)
  {
  }

  // -------------------------------------------------- PrinterProfileCreate

  datatype PrinterProfileCreate = PrinterProfileCreate(
    business_name: string,
    contact_name: Option<string>,
    phone: Option<string>,
    email: Option<string>,
    address: Option<string>,
    capabilities: Option<string>,
    supported_product_types: JsonText,
    min_quantity: Option<int>,
    max_quantity: Option<int>,
    service_areas: Option<JsonText>,
    payment_terms: string,
    email_notifications: bool,
    whatsapp_notifications: bool,
    whatsapp_number: Option<string>)

  /** A printer body giving only its required fields. */
  function PrinterProfileCreateWithDefaults(businessName: string, supportedProductTypes: JsonText,
                                            paymentTerms: string): (d: PrinterProfileCreate)
    ensures d.email_notifications && !d.whatsapp_notifications
    ensures d.min_quantity.None? && d.max_quantity.None? && d.service_areas.None?
    ensures d.contact_name.None? && d.phone.None? && d.email.None? && d.address.None?
    ensures d.capabilities.None? && d.whatsapp_number.None?
  {
    PrinterProfileCreate(businessName, None, None, None, None, None, supportedProductTypes,
                         None, None, None, paymentTerms, true, false, None)
  }

  /** business_name and payment_terms non-empty; a given quantity bound is at
      least 1. The JSON fields are only required to be strings here. */
  predicate PrinterProfileCreateValid(d: PrinterProfileCreate) {
    |d.business_name| >= 1 &&
    (d.min_quantity.None? || d.min_quantity.value >= 1) &&
    (d.max_quantity.None? || d.max_quantity.value >= 1) &&
    |d.payment_terms| >= 1
  }

  function ValidatePrinterProfileCreate(d: PrinterProfileCreate): (r: Result<PrinterProfileCreate>)
    ensures r.Ok? <==> PrinterProfileCreateValid(d)
    ensures r.Ok? ==> r.value == d
    ensures r.Err? ==> r.status == UnprocessableEntity
  {
    if |d.business_name| < 1 then
      Err(UnprocessableEntity, BusinessNameEmpty)
    else if d.min_quantity.Some? && d.min_quantity.value < 1 then
      Err(UnprocessableEntity, MinQuantityBelowOne)
    else if d.max_quantity.Some? && d.max_quantity.value < 1 then
      Err(UnprocessableEntity, MaxQuantityBelowOne)
    else if |d.payment_terms| < 1 then
      Err(UnprocessableEntity, PaymentTermsEmpty)
    else Ok(d)
  }

  // ------------------------------------------- other bodies the handlers take

  /** Body of the customer-profile handler: every field optional. */
  datatype CustomerProfileCreate = CustomerProfileCreate(
    company_name: Option<string>,
    contact_name: Option<string>,
    phone: Option<string>,
    address: Option<string>)

  datatype LoginRequest = LoginRequest(email: string, role: Option<UserRole>)

  /** Body of signup. No schema of that name is defined; its fields are
      those the handler reads, the role being required since the handler
      takes its value unconditionally. */
  datatype SignupRequest = SignupRequest(email: string, role: UserRole, company_name: Option<string>)
}
