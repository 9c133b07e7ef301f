/** The profile handlers: reading the caller's profile, and creating or
    updating a customer's (company-wide) or a printer's profile. As in module
    Jobs, each handler starts from the user its dependency returned. */
module Profiles {
  import opened Wrappers
  import opened Enums
  import opened Json
  import opened Models
  import opened Schemas
  import opened Query
  import opened Store
  import Jobs

  const BadRequest: nat := 400

  const RangeInverted: string := "max_quantity must be greater than or equal to min_quantity"
  const TypesPrefix: string := "Invalid supported_product_types: "
  const TypesNotList: string := "supported_product_types must be a JSON array"
  const AreasPrefix: string := "Invalid service_areas: "
  const AreasNotList: string := "service_areas must be a JSON array"
  const NotAProductType: string := " is not a valid ProductType"

  // ---------------------------------------------------------------- read

  datatype ProfileResponse = ProfileResponse(customer_profile: Option<CustomerProfile>,
                                             printer_profile: Option<PrinterProfile>)

  /** `current_user.customer_profile`: the profile the user's link names. */
  function LinkedProfileIndex(profiles: seq<CustomerProfile>, u: User): (r: Option<nat>)
    ensures r.Some? ==> r.value < |profiles| && Some(profiles[r.value].id) == u.customer_profile_id
    ensures r.None? <==> forall p :: p in profiles ==> Some(p.id) != u.customer_profile_id
  {
    var r := FirstIndex(profiles, (p: CustomerProfile) => Some(p.id) == u.customer_profile_id);
    assert r.None? ==> forall p :: p in profiles ==> Some(p.id) != u.customer_profile_id;
    r
  }

  /** `get_my_profile`: a customer gets only its linked company profile, a
      printer only the profile holding its user id; either may be absent. */
  function GetMyProfile(customers: seq<CustomerProfile>, printers: seq<PrinterProfile>, u: User)
    : (r: ProfileResponse)
    ensures u.role == CUSTOMER ==>
              r.printer_profile.None? &&
              (r.customer_profile.Some? <==> exists p :: p in customers && Some(p.id) == u.customer_profile_id) &&
              (r.customer_profile.Some? ==> r.customer_profile.value in customers &&
                                            Some(r.customer_profile.value.id) == u.customer_profile_id)
    ensures u.role == PRINTER ==>
              r.customer_profile.None? &&
              (r.printer_profile.Some? <==> exists p :: p in printers && p.user_id == u.id) &&
              (r.printer_profile.Some? ==> r.printer_profile.value in printers &&
                                           r.printer_profile.value.user_id == u.id)
  {
    if u.role == CUSTOMER then
      match LinkedProfileIndex(customers, u)
      case None => ProfileResponse(None, None)
      case Some(i) => ProfileResponse(Some(customers[i]), None)
    else
      ProfileResponse(None, First(printers, (p: PrinterProfile) => p.user_id == u.id))
  }

  /** With unique profile ids, every customer linked to a profile reads
      exactly that profile. */
  lemma LinkedCustomersSeeProfile(customers: seq<CustomerProfile>, printers: seq<PrinterProfile>,
                                  u: User, p: CustomerProfile)
    requires forall a, b :: 0 <= a < b < |customers| ==> customers[a].id != customers[b].id
    requires u.role == CUSTOMER && p in customers && u.customer_profile_id == Some(p.id)
    ensures GetMyProfile(customers, printers, u) == ProfileResponse(Some(p), None)
  {
    var i := LinkedProfileIndex(customers, u).value;
    var k :| 0 <= k < |customers| && customers[k] == p;
    assert customers[i].id == customers[k].id;
  }

  // ------------------------------------------------------ customer profile

  /** The update branch: each field the body gives replaces the stored one. */
  function MergeCustomerProfile(p: CustomerProfile, d: CustomerProfileCreate): (r: CustomerProfile)
    ensures r.id == p.id && r.uuid == p.uuid && r.created_at == p.created_at
  {
    p.(company_name := Given(d.company_name, p.company_name),
       contact_name := GivenOpt(d.contact_name, p.contact_name),
       phone := GivenOpt(d.phone, p.phone),
       address := GivenOpt(d.address, p.address))
  }

  /** A body with no field set leaves the profile as it is, and sending the
      same body twice is the same as sending it once. Field by field, a
      field the body gives is what the profile then holds, and a field it
      leaves out keeps the stored value. */
  lemma MergeCustomerProfileLaws(p: CustomerProfile, d: CustomerProfileCreate)
    ensures MergeCustomerProfile(p, CustomerProfileCreate(None, None, None, None)) == p
    ensures MergeCustomerProfile(MergeCustomerProfile(p, d), d) == MergeCustomerProfile(p, d)
    ensures var r := MergeCustomerProfile(p, d);
            (d.company_name.Some? ==> r.company_name == d.company_name.value) &&
            (d.company_name.None? ==> r.company_name == p.company_name) &&
            (d.contact_name.Some? ==> r.contact_name == d.contact_name) &&
            (d.contact_name.None? ==> r.contact_name == p.contact_name) &&
            (d.phone.Some? ==> r.phone == d.phone) &&
            (d.phone.None? ==> r.phone == p.phone) &&
            (d.address.Some? ==> r.address == d.address) &&
            (d.address.None? ==> r.address == p.address)
  {
  }

  /** Renaming a profile onto a company name another profile holds breaks the
      table's uniqueness constraint; the commit fails and nothing changes. */
  predicate RenameCollides(profiles: seq<CustomerProfile>, i: nat, d: CustomerProfileCreate)
    requires i < |profiles|
  {
    d.company_name.Some? &&
    exists k :: 0 <= k < |profiles| && k != i && profiles[k].company_name == d.company_name.value
  }

  /** Position of the row of user `u` in the users table. */
  function UserIndex(users: seq<User>, u: User): (r: Option<nat>)
    ensures r.Some? ==> r.value < |users| && users[r.value].id == u.id
    ensures r.None? ==> forall v :: v in users ==> v.id != u.id
  {
    var r := FirstIndex(users, (v: User) => v.id == u.id);
    assert r.None? ==> forall v :: v in users ==> v.id != u.id;
    r
  }

  /** The link branch: the caller joins the profile with that company name,
      or a new one made from the body. A body without a company name fails
      the NOT NULL constraint on insert: 500 and nothing stored. */
  method LinkCustomerProfile(db: Database, k: nat, d: CustomerProfileCreate, profileUuid: string, now: int)
    returns (r: Result<CustomerProfile>)
    requires CustomerProfilesValid(db.customerProfiles, db.nextCustomerProfileId)
    requires forall p :: p in db.customerProfiles ==> p.uuid != profileUuid
    requires k < |db.users|
    modifies db`users, db`customerProfiles, db`nextCustomerProfileId
    ensures CustomerProfilesValid(db.customerProfiles, db.nextCustomerProfileId)
    ensures d.company_name.None? ==> r == Err(ServerError, InternalServerError) && unchanged(db)
    ensures d.company_name.Some? ==>
              r.Ok? && r.value in db.customerProfiles && r.value.company_name == d.company_name.value &&
              db.users == old(db.users)[k := old(db.users)[k].(customer_profile_id := Some(r.value.id))]
    ensures d.company_name.Some? && (exists p :: p in old(db.customerProfiles) && p.company_name == d.company_name.value) ==>
              db.customerProfiles == old(db.customerProfiles) &&
              db.nextCustomerProfileId == old(db.nextCustomerProfileId)
    ensures d.company_name.Some? && (forall p :: p in old(db.customerProfiles) ==> p.company_name != d.company_name.value) ==>
              r.value == CustomerProfile(old(db.nextCustomerProfileId), profileUuid, d.company_name.value,
                                         d.contact_name, d.phone, d.address, now) &&
              db.customerProfiles == old(db.customerProfiles) + [r.value] &&
              db.nextCustomerProfileId == old(db.nextCustomerProfileId) + 1
  {
    if d.company_name.None? {
      return Err(ServerError, InternalServerError);
    }
    var name := d.company_name.value;
    var existing := First(db.customerProfiles, (p: CustomerProfile) => p.company_name == name);
    var profile: CustomerProfile;
    if existing.Some? {
      profile := existing.value;
    } else {
      profile := CustomerProfile(db.nextCustomerProfileId, profileUuid, name, d.contact_name, d.phone, d.address, now);
      AppendProfileValid(db.customerProfiles, db.nextCustomerProfileId, profile);
      db.customerProfiles := db.customerProfiles + [profile];
      db.nextCustomerProfileId := db.nextCustomerProfileId + 1;
      assert db.customerProfiles[|db.customerProfiles| - 1] == profile;
    }
    db.users := db.users[k := db.users[k].(customer_profile_id := Some(profile.id))];
    r := Ok(profile);
  }

  lemma AppendProfileValid(profiles: seq<CustomerProfile>, nextId: nat, p: CustomerProfile)
    requires CustomerProfilesValid(profiles, nextId)
    requires p.id == nextId
    requires forall q :: q in profiles ==> q.uuid != p.uuid && q.company_name != p.company_name
    ensures CustomerProfilesValid(profiles + [p], nextId + 1)
  {
    var s := profiles + [p];
    forall a, b | 0 <= a < b < |s|
      ensures s[a].id != s[b].id && s[a].uuid != s[b].uuid && s[a].company_name != s[b].company_name
    {
      if b == |profiles| {
        assert s[a] in profiles;
      }
    }
  }

  /** `create_or_update_customer_profile`. A caller without a linked profile
      is linked as `LinkCustomerProfile` states: to the profile holding that
      company name, or to a new one made from the body and appended. A caller with one has the body's
      given fields written into that shared profile, its own link and every
      other profile unchanged, unless the new company name is taken (500,
      nothing changes). */
  method CreateOrUpdateCustomerProfile(db: Database, u: User, d: CustomerProfileCreate, profileUuid: string, now: int)
    returns (r: Result<CustomerProfile>)
    requires CustomerProfilesValid(db.customerProfiles, db.nextCustomerProfileId)
    requires forall p :: p in db.customerProfiles ==> p.uuid != profileUuid
    requires u.role == CUSTOMER && u in db.users
    modifies db`users, db`customerProfiles, db`nextCustomerProfileId
    ensures CustomerProfilesValid(db.customerProfiles, db.nextCustomerProfileId)
    ensures LinkedProfileIndex(old(db.customerProfiles), u).None? ==>
              var k := UserIndex(old(db.users), u).value;
              (d.company_name.None? ==> r == Err(ServerError, InternalServerError) && unchanged(db)) &&
              (d.company_name.Some? ==>
                 r.Ok? && r.value.company_name == d.company_name.value &&
                 db.users == old(db.users)[k := old(db.users)[k].(customer_profile_id := Some(r.value.id))]) &&
              (d.company_name.Some? &&
               (exists p :: p in old(db.customerProfiles) && p.company_name == d.company_name.value) ==>
                 db.customerProfiles == old(db.customerProfiles) &&
                 db.nextCustomerProfileId == old(db.nextCustomerProfileId)) &&
              (d.company_name.Some? &&
               (forall p :: p in old(db.customerProfiles) ==> p.company_name != d.company_name.value) ==>
                 r.value == CustomerProfile(old(db.nextCustomerProfileId), profileUuid, d.company_name.value,
                                            d.contact_name, d.phone, d.address, now) &&
                 db.customerProfiles == old(db.customerProfiles) + [r.value] &&
                 db.nextCustomerProfileId == old(db.nextCustomerProfileId) + 1)
    ensures LinkedProfileIndex(old(db.customerProfiles), u).Some? ==>
              var i := LinkedProfileIndex(old(db.customerProfiles), u).value;
              if RenameCollides(old(db.customerProfiles), i, d)
              then r == Err(ServerError, InternalServerError) && unchanged(db)
              else r == Ok(MergeCustomerProfile(old(db.customerProfiles)[i], d)) &&
                   db.customerProfiles == old(db.customerProfiles)[i := r.value] &&
                   db.users == old(db.users) && db.nextCustomerProfileId == old(db.nextCustomerProfileId)
    ensures r.Ok? ==> r.value in db.customerProfiles &&
                      forall v: User :: v.role == CUSTOMER && v.customer_profile_id == Some(r.value.id) ==>
                                        GetMyProfile(db.customerProfiles, db.printerProfiles, v) ==
                                        ProfileResponse(Some(r.value), None)
  {
    var linked := LinkedProfileIndex(db.customerProfiles, u);
    if linked.None? {
      var k := UserIndex(db.users, u);
      r := LinkCustomerProfile(db, k.value, d, profileUuid, now);
    } else {
      var i := linked.value;
      if RenameCollides(db.customerProfiles, i, d) {
        return Err(ServerError, InternalServerError);
      }
      var profile := MergeCustomerProfile(db.customerProfiles[i], d);
      ReplaceProfileValid(db.customerProfiles, db.nextCustomerProfileId, i, d);
      db.customerProfiles := db.customerProfiles[i := profile];
      assert db.customerProfiles[i] == profile;
      r := Ok(profile);
    }
    if r.Ok? {
      forall v: User | v.role == CUSTOMER && v.customer_profile_id == Some(r.value.id)
        ensures GetMyProfile(db.customerProfiles, db.printerProfiles, v) == ProfileResponse(Some(r.value), None)
      {
        LinkedCustomersSeeProfile(db.customerProfiles, db.printerProfiles, v, r.value);
      }
    }
  }

  lemma ReplaceProfileValid(profiles: seq<CustomerProfile>, nextId: nat, i: nat, d: CustomerProfileCreate)
    requires CustomerProfilesValid(profiles, nextId) && i < |profiles|
    requires !RenameCollides(profiles, i, d)
    ensures CustomerProfilesValid(profiles[i := MergeCustomerProfile(profiles[i], d)], nextId)
  {
    var s := profiles[i := MergeCustomerProfile(profiles[i], d)];
    forall a, b | 0 <= a < b < |s|
      ensures s[a].id != s[b].id && s[a].uuid != s[b].uuid && s[a].company_name != s[b].company_name
    {
      if d.company_name.Some? && (a == i || b == i) {
        var other := if a == i then b else a;
        assert profiles[other].company_name != d.company_name.value;
      }
    }
  }

  // ------------------------------------------------------- printer profile

  /** A decoded list item `ProductType(item)` accepts. */
  predicate IsProductTypeValue(v: JsonValue) {
    v.JString? && v.s in ProductTypeValues
  }

  /** Position of the first item that is not a product-type value. */
  function FirstInvalidProductType(items: seq<JsonValue>): (r: Option<nat>)
    ensures r.Some? ==> r.value < |items| && !IsProductTypeValue(items[r.value]) &&
                        forall j :: 0 <= j < r.value ==> IsProductTypeValue(items[j])
    ensures r.None? <==> forall j :: 0 <= j < |items| ==> IsProductTypeValue(items[j])
  {
    FirstIndex(items, (v: JsonValue) => !IsProductTypeValue(v))
  }

  /** The loop `for pt in product_types_list: ProductType(pt)`: it stops at
      the first item that is not a product-type value. */
  method CheckProductTypes(items: seq<JsonValue>) returns (bad: Option<nat>)
    ensures bad == FirstInvalidProductType(items)
  {
    var i := 0;
    while i < |items|
      invariant 0 <= i <= |items|
      invariant forall j :: 0 <= j < i ==> IsProductTypeValue(items[j])
    {
      if !IsProductTypeValue(items[i]) {
        bad := Some(i);
        FirstInvalidIsFirst(items, i);
        return;
      }
      i := i + 1;
    }
    bad := None;
  }

  lemma FirstInvalidIsFirst(items: seq<JsonValue>, i: nat)
    requires i < |items| && !IsProductTypeValue(items[i])
    requires forall j :: 0 <= j < i ==> IsProductTypeValue(items[j])
    ensures FirstInvalidProductType(items) == Some(i)
  {
    assert FirstInvalidProductType(items).Some?;
  }

  /** The message the product-type checks give, or None when they pass. */
  function ProductTypesError(t: JsonText): (r: Option<string>)
    ensures r.None? <==> LoadsToList(t) && forall j :: 0 <= j < |LoadedItems(t)| ==> IsProductTypeValue(LoadedItems(t)[j])
  {
    match Loads(t)
    case Malformed(e) => Some(TypesPrefix + e)
    case Parsed(v) =>
      if !v.JArray? then Some(TypesPrefix + TypesNotList)
      else match FirstInvalidProductType(v.items)
        case None => None
        case Some(i) =>
          assert !IsProductTypeValue(LoadedItems(t)[i]);
          Some(TypesPrefix + Repr(v.items[i]) + NotAProductType)
  }

  /** The message the service-area check gives, or None when it passes. */
  function ServiceAreasError(areas: Option<JsonText>): (r: Option<string>)
    ensures r.None? <==> areas.None? || LoadsToList(areas.value)
  {
    if areas.None? then None
    else match Loads(areas.value)
      case Malformed(e) => Some(AreasPrefix + e)
      case Parsed(v) => if v.JArray? then None else Some(AreasPrefix + AreasNotList)
  }

  /** The handler's checks in order: the quantity range, then the product
      types, then the service areas; each failure is a 400. */
  function PrinterRequestError(d: PrinterProfileCreate): (r: Option<string>)
    ensures d.min_quantity.Some? && d.max_quantity.Some? && d.max_quantity.value < d.min_quantity.value ==>
              r == Some(RangeInverted)
    ensures r.None? <==>
              !(d.min_quantity.Some? && d.max_quantity.Some? && d.max_quantity.value < d.min_quantity.value) &&
              ProductTypesError(d.supported_product_types).None? && ServiceAreasError(d.service_areas).None?
  {
    if d.min_quantity.Some? && d.max_quantity.Some? && d.max_quantity.value < d.min_quantity.value then
      Some(RangeInverted)
    else if ProductTypesError(d.supported_product_types).Some? then ProductTypesError(d.supported_product_types)
    else ServiceAreasError(d.service_areas)
  }

  /** An accepted body's product types all parse as ProductType, so matching
      against them compares real product-type values. */
  lemma AcceptedTypesParse(d: PrinterProfileCreate, j: nat)
    requires PrinterRequestError(d).None?
    ensures LoadsToList(d.supported_product_types)
    ensures j < |LoadedItems(d.supported_product_types)| ==>
              ParseProductType(LoadedItems(d.supported_product_types)[j].s).Some?
  {
  }

  /** The row a first request creates: the caller's id, the body's fields,
      and an email only when one is given and non-empty. */
  function NewPrinterProfile(id: nat, uuid: string, userId: nat, d: PrinterProfileCreate, now: int): (p: PrinterProfile)
    ensures p.id == id && p.uuid == uuid && p.user_id == userId && p.created_at == now
    ensures p.email.Some? <==> d.email.Some? && d.email.value != ""
  {
    PrinterProfile(id, uuid, userId, d.business_name, d.contact_name, d.phone,
                   if d.email.Some? && d.email.value != "" then d.email else None,
                   d.address, d.capabilities, d.supported_product_types, d.min_quantity, d.max_quantity,
                   d.service_areas, d.payment_terms, d.email_notifications, d.whatsapp_notifications,
                   d.whatsapp_number, now)
  }

  /** The update branch: business name, product types, payment terms and
      both notification flags always take the body's values; every other
      field only when the body gives it. */
  function MergePrinterProfile(p: PrinterProfile, d: PrinterProfileCreate): (r: PrinterProfile)
    ensures r.id == p.id && r.uuid == p.uuid && r.user_id == p.user_id && r.created_at == p.created_at
    ensures r.business_name == d.business_name && r.supported_product_types == d.supported_product_types
    ensures r.payment_terms == d.payment_terms
    ensures r.email_notifications == d.email_notifications && r.whatsapp_notifications == d.whatsapp_notifications
  {
    p.(business_name := d.business_name,
       contact_name := GivenOpt(d.contact_name, p.contact_name),
       phone := GivenOpt(d.phone, p.phone),
       email := GivenOpt(d.email, p.email),
       address := GivenOpt(d.address, p.address),
       capabilities := GivenOpt(d.capabilities, p.capabilities),
       supported_product_types := d.supported_product_types,
       min_quantity := GivenOpt(d.min_quantity, p.min_quantity),
       max_quantity := GivenOpt(d.max_quantity, p.max_quantity),
       service_areas := GivenOpt(d.service_areas, p.service_areas),
       payment_terms := d.payment_terms,
       email_notifications := d.email_notifications,
       whatsapp_notifications := d.whatsapp_notifications,
       whatsapp_number := GivenOpt(d.whatsapp_number, p.whatsapp_number))
  }

  /** Field by field, each optional field the body gives is what the
      profile then holds, and one it leaves out keeps the stored value. */
  lemma MergePrinterProfileOptionalFields(p: PrinterProfile, d: PrinterProfileCreate)
    ensures var r := MergePrinterProfile(p, d);
            (d.contact_name.Some? ==> r.contact_name == d.contact_name) &&
            (d.contact_name.None? ==> r.contact_name == p.contact_name) &&
            (d.phone.Some? ==> r.phone == d.phone) &&
            (d.phone.None? ==> r.phone == p.phone) &&
            (d.email.Some? ==> r.email == d.email) &&
            (d.email.None? ==> r.email == p.email) &&
            (d.address.Some? ==> r.address == d.address) &&
            (d.address.None? ==> r.address == p.address) &&
            (d.capabilities.Some? ==> r.capabilities == d.capabilities) &&
            (d.capabilities.None? ==> r.capabilities == p.capabilities) &&
            (d.min_quantity.Some? ==> r.min_quantity == d.min_quantity) &&
            (d.min_quantity.None? ==> r.min_quantity == p.min_quantity) &&
            (d.max_quantity.Some? ==> r.max_quantity == d.max_quantity) &&
            (d.max_quantity.None? ==> r.max_quantity == p.max_quantity) &&
            (d.service_areas.Some? ==> r.service_areas == d.service_areas) &&
            (d.service_areas.None? ==> r.service_areas == p.service_areas) &&
            (d.whatsapp_number.Some? ==> r.whatsapp_number == d.whatsapp_number) &&
            (d.whatsapp_number.None? ==> r.whatsapp_number == p.whatsapp_number)
  {
  }

  /** Sending the same body twice is the same as sending it once. */
  lemma MergePrinterProfileIdempotent(p: PrinterProfile, d: PrinterProfileCreate)
    ensures MergePrinterProfile(MergePrinterProfile(p, d), d) == MergePrinterProfile(p, d)
  {
  }

  /** The range check compares the body's two bounds only. A body giving
      just a maximum below the stored minimum passes it, and the stored range
      is then empty: the profile matches no job at all. */
  lemma PartialUpdateCanInvertRange()
    ensures var types := JsonText("[]", Parsed(JArray([])));
            var p := PrinterProfile(1, "p", 7, "Print Co", None, None, None, None, None, types,
                                    Some(100), None, None, "net 30", true, false, None, 0);
            var d := PrinterProfileCreate("Print Co", None, None, None, None, None, types,
                                          None, Some(50), None, "net 30", true, false, None);
            PrinterRequestError(d).None? &&
            MergePrinterProfile(p, d).min_quantity == Some(100) &&
            MergePrinterProfile(p, d).max_quantity == Some(50)
  {
    var types := JsonText("[]", Parsed(JArray([])));
    assert FirstInvalidProductType([]) == None;
  }

  /** A profile whose minimum exceeds its maximum admits no quantity, so it
      matches no job. */
  lemma InvertedRangeMatchesNothing(p: PrinterProfile)
    requires p.min_quantity.Some? && p.max_quantity.Some? && p.max_quantity.value < p.min_quantity.value
    ensures forall quantity :: !Jobs.InQuantityRange(p, quantity)
    ensures forall j: PrintingJob :: !Jobs.JobMatchesPrinter(j, p)
  {
    forall j: PrintingJob ensures !Jobs.JobMatchesPrinter(j, p) {
      assert !Jobs.InQuantityRange(p, j.quantity);
    }
  }

  /** The row held by user `userId`, if any. */
  function PrinterIndex(printers: seq<PrinterProfile>, userId: nat): (r: Option<nat>)
    ensures r.Some? ==> r.value < |printers| && printers[r.value].user_id == userId
    ensures r.None? <==> forall p :: p in printers ==> p.user_id != userId
  {
    var r := FirstIndex(printers, (p: PrinterProfile) => p.user_id == userId);
    assert r.None? ==> forall p :: p in printers ==> p.user_id != userId;
    r
  }

  /** The handler's checks as it runs them, stopping at the first failure;
      the product-type check is the loop of `CheckProductTypes`. */
  method CheckPrinterRequest(d: PrinterProfileCreate) returns (err: Option<string>)
    ensures err == PrinterRequestError(d)
  {
    if d.min_quantity.Some? && d.max_quantity.Some? && d.max_quantity.value < d.min_quantity.value {
      return Some(RangeInverted);
    }
    match Loads(d.supported_product_types) {
      case Malformed(e) =>
        return Some(TypesPrefix + e);
      case Parsed(v) =>
        if !v.JArray? {
          return Some(TypesPrefix + TypesNotList);
        }
        var bad := CheckProductTypes(v.items);
        if bad.Some? {
          return Some(TypesPrefix + Repr(v.items[bad.value]) + NotAProductType);
        }
    }
    err := ServiceAreasError(d.service_areas);
  }

  /** The write once the checks pass: a new row for a printer without one,
      else its row merged with the body. */
  method SavePrinterProfile(db: Database, u: User, d: PrinterProfileCreate, profileUuid: string, now: int)
    returns (profile: PrinterProfile)
    requires PrinterProfilesValid(db.printerProfiles, db.nextPrinterProfileId)
    requires forall p :: p in db.printerProfiles ==> p.uuid != profileUuid
    requires u.role == PRINTER
    modifies db`printerProfiles, db`nextPrinterProfileId
    ensures PrinterProfilesValid(db.printerProfiles, db.nextPrinterProfileId)
    ensures PrinterIndex(old(db.printerProfiles), u.id).None? ==>
              profile == NewPrinterProfile(old(db.nextPrinterProfileId), profileUuid, u.id, d, now) &&
              db.printerProfiles == old(db.printerProfiles) + [profile] &&
              db.nextPrinterProfileId == old(db.nextPrinterProfileId) + 1
    ensures PrinterIndex(old(db.printerProfiles), u.id).Some? ==>
              var i := PrinterIndex(old(db.printerProfiles), u.id).value;
              profile == MergePrinterProfile(old(db.printerProfiles)[i], d) &&
              db.printerProfiles == old(db.printerProfiles)[i := profile] &&
              db.nextPrinterProfileId == old(db.nextPrinterProfileId)
    ensures GetMyProfile(db.customerProfiles, db.printerProfiles, u) == ProfileResponse(None, Some(profile))
  {
    var found := PrinterIndex(db.printerProfiles, u.id);
    if found.None? {
      profile := NewPrinterProfile(db.nextPrinterProfileId, profileUuid, u.id, d, now);
      AppendPrinterValid(db.printerProfiles, db.nextPrinterProfileId, profile);
      db.printerProfiles := db.printerProfiles + [profile];
      db.nextPrinterProfileId := db.nextPrinterProfileId + 1;
      assert db.printerProfiles[|db.printerProfiles| - 1] == profile;
    } else {
      var i := found.value;
      profile := MergePrinterProfile(db.printerProfiles[i], d);
      ReplacePrinterValid(db.printerProfiles, db.nextPrinterProfileId, i, profile);
      db.printerProfiles := db.printerProfiles[i := profile];
      assert db.printerProfiles[i] == profile;
    }
    PrinterSeesOwnProfile(db.customerProfiles, db.printerProfiles, u, profile);
  }

  /** `create_or_update_printer_profile`: a 400 for the first failing check,
      with nothing written; otherwise exactly one row per printer, which the
      caller then reads back as its profile. */
  method CreateOrUpdatePrinterProfile(db: Database, u: User, d: PrinterProfileCreate, profileUuid: string, now: int)
    returns (r: Result<PrinterProfile>)
    requires PrinterProfilesValid(db.printerProfiles, db.nextPrinterProfileId)
    requires forall p :: p in db.printerProfiles ==> p.uuid != profileUuid
    requires u.role == PRINTER && PrinterProfileCreateValid(d)
    modifies db`printerProfiles, db`nextPrinterProfileId
    ensures PrinterProfilesValid(db.printerProfiles, db.nextPrinterProfileId)
    ensures PrinterRequestError(d).Some? ==> r == Err(BadRequest, PrinterRequestError(d).value) && unchanged(db)
    ensures PrinterRequestError(d).None? && PrinterIndex(old(db.printerProfiles), u.id).None? ==>
              r == Ok(NewPrinterProfile(old(db.nextPrinterProfileId), profileUuid, u.id, d, now)) &&
              db.printerProfiles == old(db.printerProfiles) + [r.value]
    ensures PrinterRequestError(d).None? && PrinterIndex(old(db.printerProfiles), u.id).Some? ==>
              var i := PrinterIndex(old(db.printerProfiles), u.id).value;
              r == Ok(MergePrinterProfile(old(db.printerProfiles)[i], d)) &&
              db.printerProfiles == old(db.printerProfiles)[i := r.value]
    ensures r.Ok? ==> GetMyProfile(db.customerProfiles, db.printerProfiles, u) == ProfileResponse(None, Some(r.value))
  {
    var err := CheckPrinterRequest(d);
    if err.Some? {
      return Err(BadRequest, err.value);
    }
    var profile := SavePrinterProfile(db, u, d, profileUuid, now);
    r := Ok(profile);
  }

  lemma AppendPrinterValid(printers: seq<PrinterProfile>, nextId: nat, p: PrinterProfile)
    requires PrinterProfilesValid(printers, nextId)
    requires p.id == nextId
    requires forall q :: q in printers ==> q.uuid != p.uuid && q.user_id != p.user_id
    ensures PrinterProfilesValid(printers + [p], nextId + 1)
  {
    var s := printers + [p];
    forall a, b | 0 <= a < b < |s|
      ensures s[a].id != s[b].id && s[a].uuid != s[b].uuid && s[a].user_id != s[b].user_id
    {
      if b == |printers| {
        assert s[a] in printers;
      }
    }
  }

  lemma ReplacePrinterValid(printers: seq<PrinterProfile>, nextId: nat, i: nat, p: PrinterProfile)
    requires PrinterProfilesValid(printers, nextId) && i < |printers|
    requires p.id == printers[i].id && p.uuid == printers[i].uuid && p.user_id == printers[i].user_id
    ensures PrinterProfilesValid(printers[i := p], nextId)
  {
  }

  /** With one row per printer, a printer reads back the row that holds its
      id. */
  lemma PrinterSeesOwnProfile(customers: seq<CustomerProfile>, printers: seq<PrinterProfile>, u: User, p: PrinterProfile)
    requires forall a, b :: 0 <= a < b < |printers| ==> printers[a].user_id != printers[b].user_id
    requires u.role == PRINTER && p in printers && p.user_id == u.id
    ensures GetMyProfile(customers, printers, u) == ProfileResponse(None, Some(p))
  {
    var q := GetMyProfile(customers, printers, u).printer_profile.value;
    var a :| 0 <= a < |printers| && printers[a] == p;
    var b :| 0 <= b < |printers| && printers[b] == q;
    assert a == b;
  }
}
