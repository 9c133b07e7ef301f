/** The printing-job handlers: create, read, list, update, delete and publish
    a job, and the matching of OPEN jobs against a printer's profile. Each
    handler starts where its authentication dependency has returned the
    caller `u`; a handler behind `require_role([CUSTOMER])` or
    `require_role([PRINTER])` therefore receives a user of that role, which is
    what `Dependencies.RequireRole` guarantees. */
module Jobs {
  import opened Wrappers
  import opened Text
  import opened Enums
  import opened Json
  import opened Models
  import opened Schemas
  import opened Query
  import opened Store

  const NotFound: nat := 404
  const BadRequest: nat := 400

  const ProfileMissing: string := "Customer profile not found. Please create your profile first."
  const ProfileMissingShort: string := "Customer profile not found"
  const JobNotFound: string := "Job not found"
  const PrintersOpenOnly: string := "Printers can only view OPEN jobs. Use /api/jobs/matching for matched jobs."
  const NotUpdatable: string := "Job not found or you don't have permission to update it"
  const NotDeletable: string := "Job not found or you don't have permission to delete it"
  const NotPublishable: string := "Job not found or you don't have permission to publish it"
  const QuantityMustBePositive: string := "quantity must be greater than 0"
  const DueDateMustBeFuture: string := "due_date must be in the future"
  const BiddingHoursMustBePositive: string := "bidding_duration_hours must be greater than 0"
  const PrinterProfileMissing: string := "Printer profile not found. Please create your profile first."

  /** Seconds in an hour, for `timedelta(hours=...)`. */
  const SecondsPerHour: int := 3600

  function CreatedAt(j: PrintingJob): int { j.created_at }

  // ---------------------------------------------------------------- create

  /** `create_job`: a customer without a profile gets 404 and nothing is
      written; otherwise the job is inserted in DRAFT with the body's fields,
      the next id and a fresh uuid. Its creator can read it back at once and
      no printer can see it. */
  method CreateJob(db: Database, u: User, data: PrintingJobCreate, jobUuid: string, now: int)
    returns (r: Result<PrintingJob>)
    requires JobsValid(db.jobs, db.nextJobId)
    requires u.role == CUSTOMER
    requires JobCreateValid(data, now)
    requires UuidLiteral(jobUuid) && forall j :: j in db.jobs ==> j.uuid != jobUuid
    modifies db`jobs, db`nextJobId
    ensures JobsValid(db.jobs, db.nextJobId)
    ensures u.customer_profile_id.None? ==> r == Err(NotFound, ProfileMissing) && unchanged(db)
    ensures u.customer_profile_id.Some? ==>
              r.Ok? && db.jobs == old(db.jobs) + [r.value] && db.nextJobId == old(db.nextJobId) + 1 &&
              r.value == PrintingJob(old(db.nextJobId), jobUuid, u.customer_profile_id.value, data.product_type,
                                     data.quantity, data.due_date, data.description, data.special_instructions,
                                     data.file_url, data.bidding_duration_hours, None, data.delivery_location,
                                     data.pickup_preferred, DRAFT, now, None, None, None)
    ensures r.Ok? ==> GetJob(db.jobs, u, jobUuid) == Ok(r.value)
    ensures r.Ok? ==> forall p: User :: p.role == PRINTER ==> GetJob(db.jobs, p, jobUuid).Err?
  {
    if u.customer_profile_id.None? {
      return Err(NotFound, ProfileMissing);
    }
    var job := PrintingJob(db.nextJobId, jobUuid, u.customer_profile_id.value, data.product_type,
                           data.quantity, data.due_date, data.description, data.special_instructions,
                           data.file_url, data.bidding_duration_hours, None, data.delivery_location,
                           data.pickup_preferred, DRAFT, now, None, None, None);
    AppendJobValid(db.jobs, db.nextJobId, job);
    db.jobs := db.jobs + [job];
    db.nextJobId := db.nextJobId + 1;
    assert job == db.jobs[|db.jobs| - 1];
    GetJobFindsVisible(db.jobs, u, job);
    forall p: User | p.role == PRINTER ensures GetJob(db.jobs, p, jobUuid).Err? {
      GetJobUnique(db.jobs, p, job);
    }
    r := Ok(job);
  }

  /** Appending a valid row with the next id and a fresh uuid keeps the table
      valid. */
  lemma AppendJobValid(jobs: seq<PrintingJob>, nextId: nat, j: PrintingJob)
    requires JobsValid(jobs, nextId)
    requires j.id == nextId && JobRowValid(j) && UuidLiteral(j.uuid)
    requires forall k :: k in jobs ==> k.uuid != j.uuid
    ensures JobsValid(jobs + [j], nextId + 1)
  {
    var s := jobs + [j];
    forall a, b | 0 <= a < b < |s| ensures s[a].id != s[b].id && s[a].uuid != s[b].uuid {
      if b == |jobs| {
        assert s[a] in jobs;
      }
    }
  }

  // ------------------------------------------------------------------ read

  /** The jobs `get_job` lets a user read: a customer those of its own
      profile, a printer every OPEN job. */
  predicate VisibleTo(u: User, j: PrintingJob) {
    match u.role
    case CUSTOMER => u.customer_profile_id == Some(j.customer_profile_id)
    case PRINTER => j.state == JobState.OPEN
  }

  /** `get_job`: 404 for a customer without a profile; otherwise 500 when
      the query cannot cast the path segment to a uuid, else the job with
      that uuid if the caller may see it, and 404 "Job not found" when there
      is none. */
  function GetJob(jobs: seq<PrintingJob>, u: User, jobUuid: string): (r: Result<PrintingJob>)
    ensures u.role == CUSTOMER && u.customer_profile_id.None? ==> r == Err(NotFound, ProfileMissingShort)
    ensures !(u.role == CUSTOMER && u.customer_profile_id.None?) && !UuidLiteral(jobUuid) ==>
              r == Err(ServerError, InternalServerError)
    ensures !(u.role == CUSTOMER && u.customer_profile_id.None?) && UuidLiteral(jobUuid) ==>
              ((exists j :: j in jobs && j.uuid == jobUuid && VisibleTo(u, j)) <==> r.Ok?)
    ensures !(u.role == CUSTOMER && u.customer_profile_id.None?) && UuidLiteral(jobUuid) && r.Err? ==>
              r == Err(NotFound, JobNotFound)
    ensures r.Ok? ==> r.value in jobs && r.value.uuid == jobUuid && VisibleTo(u, r.value)
  {
    if u.role == CUSTOMER && u.customer_profile_id.None? then Err(NotFound, ProfileMissingShort)
    else if !UuidLiteral(jobUuid) then Err(ServerError, InternalServerError)
    else
      match First(jobs, (j: PrintingJob) => j.uuid == jobUuid && VisibleTo(u, j))
      case None => Err(NotFound, JobNotFound)
      case Some(j) => Ok(j)
  }

  /** uuids are unique, so `get_job` answers with the one job of that uuid
      exactly when the caller may see it. */
  lemma GetJobUnique(jobs: seq<PrintingJob>, u: User, j: PrintingJob)
    requires forall a, b :: 0 <= a < b < |jobs| ==> jobs[a].uuid != jobs[b].uuid
    requires j in jobs && UuidLiteral(j.uuid)
    requires !(u.role == CUSTOMER && u.customer_profile_id.None?)
    ensures GetJob(jobs, u, j.uuid).Ok? <==> VisibleTo(u, j)
    ensures GetJob(jobs, u, j.uuid).Ok? ==> GetJob(jobs, u, j.uuid).value == j
  {
    var r := GetJob(jobs, u, j.uuid);
    if r.Ok? {
      var v := r.value;
      var a :| 0 <= a < |jobs| && jobs[a] == j;
      var b :| 0 <= b < |jobs| && jobs[b] == v;
      assert a == b;
    }
  }

  lemma GetJobFindsVisible(jobs: seq<PrintingJob>, u: User, j: PrintingJob)
    requires forall a, b :: 0 <= a < b < |jobs| ==> jobs[a].uuid != jobs[b].uuid
    requires j in jobs && UuidLiteral(j.uuid) && VisibleTo(u, j)
    ensures GetJob(jobs, u, j.uuid) == Ok(j)
  {
    GetJobUnique(jobs, u, j);
  }

  // ------------------------------------------------------------------ list

  /** The rows `list_jobs` selects: a customer the jobs of its profile, in
      the requested state if one is given; a printer the OPEN jobs. */
  predicate Listed(u: User, state: Option<JobState>, j: PrintingJob) {
    match u.role
    case CUSTOMER => u.customer_profile_id == Some(j.customer_profile_id) && (state.None? || j.state == state.value)
    case PRINTER => j.state == JobState.OPEN
  }

  /** `list_jobs`: 404 for a customer without a profile, 400 for a printer
      asking for a state other than OPEN; otherwise exactly the selected rows,
      each as often as it is stored, newest first. */
  function ListJobs(jobs: seq<PrintingJob>, u: User, state: Option<JobState>): (r: Result<seq<PrintingJob>>)
    ensures u.role == CUSTOMER ==> (r.Err? <==> u.customer_profile_id.None?)
    ensures u.role == CUSTOMER && r.Err? ==> r == Err(NotFound, ProfileMissing)
    ensures u.role == PRINTER ==> (r.Err? <==> state.Some? && state.value != JobState.OPEN)
    ensures u.role == PRINTER && r.Err? ==> r == Err(BadRequest, PrintersOpenOnly)
    ensures r.Ok? ==> SortedDescBy(r.value, CreatedAt)
    ensures r.Ok? ==> forall j :: multiset(r.value)[j] == if Listed(u, state, j) then multiset(jobs)[j] else 0
  {
    match u.role
    case CUSTOMER =>
      if u.customer_profile_id.None? then Err(NotFound, ProfileMissing)
      else Ok(SortDescBy(Filter(jobs, (j: PrintingJob) => Listed(u, state, j)), CreatedAt))
    case PRINTER =>
      if state.Some? && state.value != JobState.OPEN then Err(BadRequest, PrintersOpenOnly)
      else Ok(SortDescBy(Filter(jobs, (j: PrintingJob) => Listed(u, state, j)), CreatedAt))
  }

  /** Whatever a listing returns, the caller could also read one by one
      through `get_job`: listing never shows more than reading does. */
  lemma ListedJobsAreReadable(jobs: seq<PrintingJob>, u: User, state: Option<JobState>, j: PrintingJob)
    requires forall a, b :: 0 <= a < b < |jobs| ==> jobs[a].uuid != jobs[b].uuid
    requires forall a :: 0 <= a < |jobs| ==> UuidLiteral(jobs[a].uuid)
    requires ListJobs(jobs, u, state).Ok? && j in ListJobs(jobs, u, state).value
    ensures GetJob(jobs, u, j.uuid) == Ok(j)
  {
    var r := ListJobs(jobs, u, state).value;
    assert multiset(r)[j] > 0;
    assert Listed(u, state, j) && j in jobs;
    GetJobFindsVisible(jobs, u, j);
  }

  // ------------------------------------------------- update, delete, publish

  /** The row the update, delete and publish handlers select: that uuid,
      the caller's profile, and still DRAFT. */
  predicate Editable(u: User, jobUuid: string, j: PrintingJob) {
    j.uuid == jobUuid && u.customer_profile_id == Some(j.customer_profile_id) && j.state == DRAFT
  }

  /** Position of that row, as `.filter(...).first()` finds it. */
  function EditableIndex(jobs: seq<PrintingJob>, u: User, jobUuid: string): (r: Option<nat>)
    ensures r.Some? ==> r.value < |jobs| && Editable(u, jobUuid, jobs[r.value])
    ensures r.None? <==> forall j :: j in jobs ==> !Editable(u, jobUuid, j)
  {
    var r := FirstIndex(jobs, (j: PrintingJob) => Editable(u, jobUuid, j));
    assert r.None? ==> forall j :: j in jobs ==> !Editable(u, jobUuid, j);
    r
  }

  /** `update_job`'s assignments: each field the body gives replaces the
      stored one; every other field is kept. */
  function ApplyUpdate(j: PrintingJob, d: PrintingJobUpdate): (r: PrintingJob)
    ensures r.id == j.id && r.uuid == j.uuid && r.customer_profile_id == j.customer_profile_id
    ensures r.state == j.state && r.created_at == j.created_at && r.bidding_ends_at == j.bidding_ends_at
    ensures r.published_at == j.published_at && r.closed_at == j.closed_at && r.completed_at == j.completed_at
  {
    j.(product_type := Given(d.product_type, j.product_type),
       quantity := Given(d.quantity, j.quantity),
       due_date := Given(d.due_date, j.due_date),
       description := GivenOpt(d.description, j.description),
       special_instructions := GivenOpt(d.special_instructions, j.special_instructions),
       file_url := GivenOpt(d.file_url, j.file_url),
       bidding_duration_hours := Given(d.bidding_duration_hours, j.bidding_duration_hours),
       delivery_location := GivenOpt(d.delivery_location, j.delivery_location),
       pickup_preferred := Given(d.pickup_preferred, j.pickup_preferred))
  }

  /** The body with no field set. */
  const EmptyUpdate: PrintingJobUpdate := PrintingJobUpdate(None, None, None, None, None, None, None, None, None)

  /** An empty body changes nothing. */
  lemma EmptyUpdateKeepsJob(j: PrintingJob)
    ensures ApplyUpdate(j, EmptyUpdate) == j
  {
  }

  /** Sending the same body twice is the same as sending it once. */
  lemma ApplyUpdateIdempotent(j: PrintingJob, d: PrintingJobUpdate)
    ensures ApplyUpdate(ApplyUpdate(j, d), d) == ApplyUpdate(j, d)
  {
  }

  /** Field by field: a field the body gives is what the row then holds, and
      a field it leaves out keeps the stored value. */
  lemma ApplyUpdateTakesGivenFields(j: PrintingJob, d: PrintingJobUpdate)
    ensures var r := ApplyUpdate(j, d);
            (d.product_type.Some? ==> r.product_type == d.product_type.value) &&
            (d.product_type.None? ==> r.product_type == j.product_type) &&
            (d.quantity.Some? ==> r.quantity == d.quantity.value) &&
            (d.quantity.None? ==> r.quantity == j.quantity) &&
            (d.due_date.Some? ==> r.due_date == d.due_date.value) &&
            (d.due_date.None? ==> r.due_date == j.due_date) &&
            (d.description.Some? ==> r.description == d.description) &&
            (d.description.None? ==> r.description == j.description) &&
            (d.special_instructions.Some? ==> r.special_instructions == d.special_instructions) &&
            (d.special_instructions.None? ==> r.special_instructions == j.special_instructions) &&
            (d.file_url.Some? ==> r.file_url == d.file_url) &&
            (d.file_url.None? ==> r.file_url == j.file_url) &&
            (d.bidding_duration_hours.Some? ==> r.bidding_duration_hours == d.bidding_duration_hours.value) &&
            (d.bidding_duration_hours.None? ==> r.bidding_duration_hours == j.bidding_duration_hours) &&
            (d.delivery_location.Some? ==> r.delivery_location == d.delivery_location) &&
            (d.delivery_location.None? ==> r.delivery_location == j.delivery_location) &&
            (d.pickup_preferred.Some? ==> r.pickup_preferred == d.pickup_preferred.value) &&
            (d.pickup_preferred.None? ==> r.pickup_preferred == j.pickup_preferred)
  {
  }

  /** Replacing row `i` by one with the same id and uuid that meets the
      check constraints keeps the table valid. */
  lemma ReplaceJobValid(jobs: seq<PrintingJob>, nextId: nat, i: nat, j: PrintingJob)
    requires JobsValid(jobs, nextId) && i < |jobs|
    requires j.id == jobs[i].id && j.uuid == jobs[i].uuid && JobRowValid(j)
    ensures JobsValid(jobs[i := j], nextId)
  {
  }

  /** `update_job`: 404 when the caller has no profile, 500 when the uuid
      cast fails, 404 when no DRAFT job of its profile has that uuid, each
      leaving the table as it was;
      otherwise that row, and only it, takes the body's fields. */
  method UpdateJob(db: Database, u: User, jobUuid: string, data: PrintingJobUpdate) returns (r: Result<PrintingJob>)
    requires JobsValid(db.jobs, db.nextJobId)
    requires u.role == CUSTOMER
    requires data.quantity.None? || data.quantity.value > 0
    requires data.bidding_duration_hours.None? || data.bidding_duration_hours.value > 0
    modifies db`jobs
    ensures JobsValid(db.jobs, db.nextJobId)
    ensures u.customer_profile_id.None? ==> r == Err(NotFound, ProfileMissing) && unchanged(db)
    ensures u.customer_profile_id.Some? && !UuidLiteral(jobUuid) ==> r == Err(ServerError, InternalServerError) && unchanged(db)
    ensures u.customer_profile_id.Some? && UuidLiteral(jobUuid) && EditableIndex(old(db.jobs), u, jobUuid).None? ==>
              r == Err(NotFound, NotUpdatable) && unchanged(db)
    ensures r.Ok? <==> u.customer_profile_id.Some? && UuidLiteral(jobUuid) && EditableIndex(old(db.jobs), u, jobUuid).Some?
    ensures r.Ok? ==>
              var i := EditableIndex(old(db.jobs), u, jobUuid).value;
              r.value == ApplyUpdate(old(db.jobs)[i], data) && db.jobs == old(db.jobs)[i := r.value]
  {
    if u.customer_profile_id.None? {
      return Err(NotFound, ProfileMissing);
    }
    if !UuidLiteral(jobUuid) {
      return Err(ServerError, InternalServerError);
    }
    var found := EditableIndex(db.jobs, u, jobUuid);
    if found.None? {
      return Err(NotFound, NotUpdatable);
    }
    var i := found.value;
    var job := ApplyUpdate(db.jobs[i], data);
    ReplaceJobValid(db.jobs, db.nextJobId, i, job);
    db.jobs := db.jobs[i := job];
    r := Ok(job);
  }

  /** `delete_job`: the same 404s and 500; otherwise the selected row is
      removed, the others keep their order, and no job with that uuid
      remains. */
  method DeleteJob(db: Database, u: User, jobUuid: string) returns (r: Result<()>)
    requires JobsValid(db.jobs, db.nextJobId)
    requires u.role == CUSTOMER
    modifies db`jobs
    ensures JobsValid(db.jobs, db.nextJobId)
    ensures u.customer_profile_id.None? ==> r == Err(NotFound, ProfileMissing) && unchanged(db)
    ensures u.customer_profile_id.Some? && !UuidLiteral(jobUuid) ==> r == Err(ServerError, InternalServerError) && unchanged(db)
    ensures u.customer_profile_id.Some? && UuidLiteral(jobUuid) && EditableIndex(old(db.jobs), u, jobUuid).None? ==>
              r == Err(NotFound, NotDeletable) && unchanged(db)
    ensures r.Ok? <==> u.customer_profile_id.Some? && UuidLiteral(jobUuid) && EditableIndex(old(db.jobs), u, jobUuid).Some?
    ensures r.Ok? ==>
              var i := EditableIndex(old(db.jobs), u, jobUuid).value;
              db.jobs == old(db.jobs)[..i] + old(db.jobs)[i + 1..]
    ensures r.Ok? ==> |db.jobs| == |old(db.jobs)| - 1 && forall j :: j in db.jobs ==> j.uuid != jobUuid
  {
    if u.customer_profile_id.None? {
      return Err(NotFound, ProfileMissing);
    }
    if !UuidLiteral(jobUuid) {
      return Err(ServerError, InternalServerError);
    }
    var found := EditableIndex(db.jobs, u, jobUuid);
    if found.None? {
      return Err(NotFound, NotDeletable);
    }
    var i := found.value;
    RemoveJobValid(db.jobs, db.nextJobId, i);
    db.jobs := db.jobs[..i] + db.jobs[i + 1..];
    r := Ok(());
  }

  /** Removing row `i` keeps the table valid, and its uuid leaves with it. */
  lemma RemoveJobValid(jobs: seq<PrintingJob>, nextId: nat, i: nat)
    requires JobsValid(jobs, nextId) && i < |jobs|
    ensures JobsValid(jobs[..i] + jobs[i + 1..], nextId)
    ensures forall j :: j in jobs[..i] + jobs[i + 1..] ==> j.uuid != jobs[i].uuid
  {
    var s := jobs[..i] + jobs[i + 1..];
    assert forall a :: 0 <= a < |s| ==> s[a] == if a < i then jobs[a] else jobs[a + 1];
    forall j | j in s ensures j.uuid != jobs[i].uuid {
      var a :| 0 <= a < |s| && s[a] == j;
    }
  }

  /** The checks `publish_job` makes on the selected row, in order: the
      first one that fails names the error. */
  function PublishError(j: PrintingJob, now: int): (r: Option<string>)
    ensures r.None? <==> j.quantity > 0 && j.due_date > now && j.bidding_duration_hours > 0
    ensures j.quantity <= 0 ==> r == Some(QuantityMustBePositive)
    ensures j.quantity > 0 && j.due_date <= now ==> r == Some(DueDateMustBeFuture)
    ensures j.quantity > 0 && j.due_date > now && j.bidding_duration_hours <= 0 ==>
              r == Some(BiddingHoursMustBePositive)
  {
    if j.quantity <= 0 then Some(QuantityMustBePositive)
    else if j.due_date <= now then Some(DueDateMustBeFuture)
    else if j.bidding_duration_hours <= 0 then Some(BiddingHoursMustBePositive)
    else None
  }

  /** A stored row always meets the quantity and duration checks, so the
      only publish check that can fail on it is the due date. */
  lemma PublishOnlyChecksDueDate(j: PrintingJob, now: int)
    requires JobRowValid(j)
    ensures PublishError(j, now).None? <==> j.due_date > now
    ensures PublishError(j, now).Some? ==> PublishError(j, now) == Some(DueDateMustBeFuture)
  {
  }

  /** The row after publishing at `now`: OPEN, published now, bidding open
      for the job's duration. */
  function Published(j: PrintingJob, now: int): (r: PrintingJob)
    ensures r.state == JobState.OPEN && r.published_at == Some(now)
    ensures r.bidding_ends_at == Some(now + j.bidding_duration_hours * SecondsPerHour)
    ensures r == j.(state := JobState.OPEN, published_at := Some(now),
                    bidding_ends_at := Some(now + j.bidding_duration_hours * SecondsPerHour))
  {
    j.(bidding_ends_at := Some(now + j.bidding_duration_hours * SecondsPerHour), state := JobState.OPEN,
       published_at := Some(now))
  }

  /** Bidding on a published row closes at least an hour after it opens. */
  lemma PublishedBiddingWindow(j: PrintingJob, now: int)
    requires JobRowValid(j)
    ensures Published(j, now).bidding_ends_at.value >= now + SecondsPerHour
    ensures Published(j, now).bidding_ends_at.value > Published(j, now).published_at.value
  {
  }

  /** `publish_job`: 422 with no change when the request's body is not a
      JSON object, which the validator checks before the handler runs; then
      the same 404s and 500, then a 400 for the first failing check;
      otherwise the selected row becomes `Published(row, now)`. A published
      job is then visible to every printer, and cannot be published, updated
      or deleted again. */
  method PublishJob(db: Database, u: User, jobUuid: string, body: PublishBody, now: int)
    returns (r: Result<PrintingJob>)
    requires JobsValid(db.jobs, db.nextJobId)
    requires u.role == CUSTOMER
    modifies db`jobs
    ensures JobsValid(db.jobs, db.nextJobId)
    ensures !body.ObjectBody? ==>
              r == Err(UnprocessableEntity, ValidatePublishRequest(body).detail) && unchanged(db)
    ensures body.ObjectBody? && u.customer_profile_id.None? ==> r == Err(NotFound, ProfileMissing) && unchanged(db)
    ensures body.ObjectBody? && u.customer_profile_id.Some? && !UuidLiteral(jobUuid) ==>
              r == Err(ServerError, InternalServerError) && unchanged(db)
    ensures body.ObjectBody? && u.customer_profile_id.Some? && UuidLiteral(jobUuid) &&
            EditableIndex(old(db.jobs), u, jobUuid).None? ==>
              r == Err(NotFound, NotPublishable) && unchanged(db)
    ensures body.ObjectBody? && u.customer_profile_id.Some? && UuidLiteral(jobUuid) &&
            EditableIndex(old(db.jobs), u, jobUuid).Some? ==>
              var i := EditableIndex(old(db.jobs), u, jobUuid).value;
              match PublishError(old(db.jobs)[i], now)
              case Some(e) => r == Err(BadRequest, e) && unchanged(db)
              case None => r == Ok(Published(old(db.jobs)[i], now)) && db.jobs == old(db.jobs)[i := r.value]
    ensures r.Ok? ==> forall p: User :: p.role == PRINTER ==> GetJob(db.jobs, p, jobUuid) == Ok(r.value)
    ensures r.Ok? ==> EditableIndex(db.jobs, u, jobUuid).None?
  {
    var accepted := ValidatePublishRequest(body);
    if accepted.Err? {
      return Err(accepted.status, accepted.detail);
    }
    if u.customer_profile_id.None? {
      return Err(NotFound, ProfileMissing);
    }
    if !UuidLiteral(jobUuid) {
      return Err(ServerError, InternalServerError);
    }
    var found := EditableIndex(db.jobs, u, jobUuid);
    if found.None? {
      return Err(NotFound, NotPublishable);
    }
    var i := found.value;
    var err := PublishError(db.jobs[i], now);
    if err.Some? {
      return Err(BadRequest, err.value);
    }
    var job := Published(db.jobs[i], now);
    ReplaceJobValid(db.jobs, db.nextJobId, i, job);
    db.jobs := db.jobs[i := job];
    assert db.jobs[i] == job;
    forall p: User | p.role == PRINTER ensures GetJob(db.jobs, p, jobUuid) == Ok(job) {
      GetJobFindsVisible(db.jobs, p, job);
    }
    forall j | j in db.jobs ensures !Editable(u, jobUuid, j) {
      var a :| 0 <= a < |db.jobs| && db.jobs[a] == j;
    }
    r := Ok(job);
  }

  // -------------------------------------------------------------- matching

  /** `job.product_type in json.loads(supported_product_types)`, false when
      the text is not a JSON list. */
  predicate SupportsProductType(p: PrinterProfile, t: ProductType) {
    LoadsToList(p.supported_product_types) &&
    JString(ProductTypeValue(t)) in LoadedItems(p.supported_product_types)
  }

  predicate InQuantityRange(p: PrinterProfile, quantity: int) {
    (p.min_quantity.None? || quantity >= p.min_quantity.value) &&
    (p.max_quantity.None? || quantity <= p.max_quantity.value)
  }

  /** One service area against the lower-cased location: it must be a
      string, and either text must contain the other, ignoring case. */
  predicate AreaMatches(area: JsonValue, locationLower: string) {
    area.JString? && (Contains(locationLower, Lower(area.s)) || Contains(Lower(area.s), locationLower))
  }

  /** `any(...)` over the service areas. */
  function AnyAreaMatches(areas: seq<JsonValue>, locationLower: string): (b: bool)
    ensures b <==> exists i :: 0 <= i < |areas| && AreaMatches(areas[i], locationLower)
  {
    if areas == [] then false
    else if AreaMatches(areas[0], locationLower) then true
    else
      var rest := AnyAreaMatches(areas[1..], locationLower);
      assert rest <==> exists i :: 1 <= i < |areas| && AreaMatches(areas[i], locationLower) by {
        if rest {
          var k :| 0 <= k < |areas[1..]| && AreaMatches(areas[1..][k], locationLower);
          assert areas[k + 1] == areas[1..][k];
        }
        if exists i :: 1 <= i < |areas| && AreaMatches(areas[i], locationLower) {
          var i :| 1 <= i < |areas| && AreaMatches(areas[i], locationLower);
          assert areas[1..][i - 1] == areas[i];
        }
      }
      rest
  }

  /** The geography check runs only when the job has a non-empty location
      and the printer a non-empty service-area text that parses as a
      non-empty list; text that does not parse skips the check. */
  predicate GeographyApplies(j: PrintingJob, p: PrinterProfile) {
    j.delivery_location.Some? && j.delivery_location.value != "" &&
    p.service_areas.Some? && p.service_areas.value.raw != "" &&
    LoadsToList(p.service_areas.value) && |LoadedItems(p.service_areas.value)| > 0
  }

  /** `job_matches_printer`, written as the source's sequence of early
      returns. */
  function JobMatchesPrinter(j: PrintingJob, p: PrinterProfile): (b: bool)
    ensures b <==> SupportsProductType(p, j.product_type) && InQuantityRange(p, j.quantity) &&
                   (GeographyApplies(j, p) ==>
                      exists i :: 0 <= i < |LoadedItems(p.service_areas.value)| &&
                                  AreaMatches(LoadedItems(p.service_areas.value)[i], Lower(j.delivery_location.value)))
  {
    if !LoadsToList(p.supported_product_types) then false
    else if JString(ProductTypeValue(j.product_type)) !in LoadedItems(p.supported_product_types) then false
    else if p.min_quantity.Some? && j.quantity < p.min_quantity.value then false
    else if p.max_quantity.Some? && j.quantity > p.max_quantity.value then false
    else if j.delivery_location.Some? && j.delivery_location.value != "" &&
            p.service_areas.Some? && p.service_areas.value.raw != "" then
      match Loads(p.service_areas.value)
      case Malformed(_) => true
      case Parsed(v) =>
        if v.JArray? && |v.items| > 0 then AnyAreaMatches(v.items, Lower(j.delivery_location.value))
        else true
    else true
  }

  /** Matching ignores the case of the job's location. */
  lemma MatchIgnoresLocationCase(j: PrintingJob, p: PrinterProfile)
    requires j.delivery_location.Some?
    ensures JobMatchesPrinter(j, p) ==
            JobMatchesPrinter(j.(delivery_location := Some(Lower(j.delivery_location.value))), p)
  {
    var loc := j.delivery_location.value;
    LowerIdempotent(loc);
    if loc == "" {
      assert Lower(loc) == "";
    } else {
      assert Lower(loc) != "";
    }
  }

  /** A service area spelled as the location, in any case, always matches. */
  lemma SameAreaMatches(area: string, location: string)
    requires Lower(area) == Lower(location)
    ensures AreaMatches(JString(area), Lower(location))
  {
    ContainsIff(Lower(location), Lower(area));
    assert OccursAt(Lower(location), Lower(area), 0);
  }

  /** A printer whose profile leaves out quantities and areas takes every job
      of a product type it lists. */
  lemma OpenProfileMatchesByType(j: PrintingJob, p: PrinterProfile)
    requires p.min_quantity.None? && p.max_quantity.None? && p.service_areas.None?
    ensures JobMatchesPrinter(j, p) <==> SupportsProductType(p, j.product_type)
  {
  }

  /** An OPEN job the printer's profile matches. */
  predicate MatchedFor(p: PrinterProfile, j: PrintingJob) {
    j.state == JobState.OPEN && JobMatchesPrinter(j, p)
  }

  /** The printer profile `get_matching_jobs` loads for user `userId`: the
      first row holding that user id. Since user ids are unique in the table,
      it is the one such row. */
  function PrinterOf(printers: seq<PrinterProfile>, userId: nat): (r: Option<PrinterProfile>)
    ensures r.Some? ==> r.value in printers && r.value.user_id == userId
    ensures r.None? <==> forall p :: p in printers ==> p.user_id != userId
    ensures (forall a, b :: 0 <= a < b < |printers| ==> printers[a].user_id != printers[b].user_id) ==>
              forall p :: p in printers && p.user_id == userId ==> r == Some(p)
  {
    UserIdPicksOneRow(printers);
    First(printers, (p: PrinterProfile) => p.user_id == userId)
  }

  /** With unique user ids, two rows holding the same user id are one row. */
  lemma UserIdPicksOneRow(printers: seq<PrinterProfile>)
    ensures (forall a, b :: 0 <= a < b < |printers| ==> printers[a].user_id != printers[b].user_id) ==>
              forall p, q :: p in printers && q in printers && p.user_id == q.user_id ==> p == q
  {
    if forall a, b :: 0 <= a < b < |printers| ==> printers[a].user_id != printers[b].user_id {
      forall p, q | p in printers && q in printers && p.user_id == q.user_id ensures p == q {
        var a :| 0 <= a < |printers| && printers[a] == p;
        var b :| 0 <= b < |printers| && printers[b] == q;
      }
    }
  }

  /** `get_matching_jobs`: 404 when the caller has no printer profile;
      otherwise exactly the OPEN jobs that match the caller's profile, each as
      often as stored, newest first. */
  function GetMatchingJobs(printers: seq<PrinterProfile>, jobs: seq<PrintingJob>, u: User)
    : (r: Result<seq<PrintingJob>>)
    ensures r.Err? <==> PrinterOf(printers, u.id).None?
    ensures r.Err? ==> r == Err(NotFound, PrinterProfileMissing)
    ensures r.Ok? ==> var p := PrinterOf(printers, u.id).value;
                      SortedDescBy(r.value, CreatedAt) &&
                      forall j :: multiset(r.value)[j] == if MatchedFor(p, j) then multiset(jobs)[j] else 0
  {
    match PrinterOf(printers, u.id)
    case None => Err(NotFound, PrinterProfileMissing)
    case Some(p) =>
      var open := Filter(jobs, (j: PrintingJob) => j.state == JobState.OPEN);
      var matching := Filter(open, (j: PrintingJob) => JobMatchesPrinter(j, p));
      var r := SortDescBy(matching, CreatedAt);
      assert forall j :: multiset(r)[j] == if MatchedFor(p, j) then multiset(jobs)[j] else 0;
      Ok(r)
  }

  /** Every matched job is one `get_job` shows a printer. */
  lemma MatchedJobsAreReadable(printers: seq<PrinterProfile>, jobs: seq<PrintingJob>, u: User, j: PrintingJob)
    requires forall a, b :: 0 <= a < b < |jobs| ==> jobs[a].uuid != jobs[b].uuid
    requires forall a :: 0 <= a < |jobs| ==> UuidLiteral(jobs[a].uuid)
    requires u.role == PRINTER
    requires GetMatchingJobs(printers, jobs, u).Ok? && j in GetMatchingJobs(printers, jobs, u).value
    ensures GetJob(jobs, u, j.uuid) == Ok(j)
  {
    var r := GetMatchingJobs(printers, jobs, u).value;
    var p := PrinterOf(printers, u.id).value;
    assert multiset(r)[j] > 0;
    GetJobFindsVisible(jobs, u, j);
  }
}
