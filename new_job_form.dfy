/** The customer's "create job" form. Its component state is a class: the
    handlers for choosing a file, removing it and submitting the form change
    that state step by step. Calls to the API and the browser (the upload,
    the job creation, date parsing, the clock) are parameters; navigation
    the page schedules is recorded in order. */
module NewJobForm {
  import opened Wrappers
  import opened Text
  import opened Enums

  const MaxFileSize: nat := 50 * 1024 * 1024
  const DefaultBiddingHours: int := 24

  const FileTooLarge: string := "File is too large. Maximum size is 50MB"
  const UploadFailedFallback: string := "Failed to upload file"
  const SessionExpired: string := "session has expired"
  const DueDateNotFuture: string := "Due date must be in the future"
  const CreateFailedFallback: string := "Failed to create job. Please try again."
  /** What `toISOString` throws for a date that did not parse. */
  const InvalidTimeValue: string := "Invalid time value"
  const LoginPath: string := "/login"
  const JobsPath: string := "/customer/jobs/"
  const UploadRedirectDelayMs: nat := 3000
  const SubmitRedirectDelayMs: nat := 2000

  /** The form's fields, as `PrintingJobCreate` holds them. */
  datatype FormData = FormData(
    product_type: ProductType,
    quantity: int,
    due_date: string,
    description: string,
    special_instructions: string,
    file_url: string,
    bidding_duration_hours: int,
    delivery_location: string,
    pickup_preferred: bool)

  const InitialForm: FormData := FormData(LEAFLETS, 100, "", "", "", "", 24, "", false)

  datatype UploadedFile = UploadedFile(name: string, url: string)
  datatype SelectedFile = SelectedFile(name: string, size: nat)

  /** What `uploadJobFile` does: gives the stored file's url, or throws. */
  datatype UploadOutcome = Uploaded(file_url: string) | UploadFailed(message: string, isAuthError: bool)

  /** What `createJob` does: gives the new job's uuid, or throws. */
  datatype SubmitOutcome = Created(uuid: string) | SubmitFailed(message: string, isAuthError: bool)

  /** A due date text the browser parsed: its instant and its ISO text. A
      text that does not parse (an invalid date) has neither. */
  datatype ParsedDate = ParsedDate(at: int, iso: string)

  /** A `router.push` the page makes, after a delay in milliseconds. */
  datatype Navigation = Navigation(path: string, delayMs: nat)

  /** `error.message || fallback`. */
  function ErrorText(message: string, fallback: string): (r: string)
    ensures message != "" ==> r == message
    ensures message == "" ==> r == fallback
  {
    if message != "" then message else fallback
  }

  /** A failed upload sends the user to sign in again only for an
      authentication error whose message says the session has expired. */
  predicate UploadFailureSignsOut(message: string, isAuthError: bool) {
    isAuthError && Contains(message, SessionExpired)
  }

  /** A due date is refused when one is given and it is not after the start
      of today. An invalid date compares as NaN, which is never `<=`, so it
      is not refused here. */
  predicate DueDateRefused(dueDate: string, due: Option<ParsedDate>, today: int) {
    dueDate != "" && due.Some? && due.value.at <= today
  }

  /** A given due date that does not parse: building the request throws. */
  predicate DueDateInvalid(dueDate: string, due: Option<ParsedDate>) {
    dueDate != "" && due.None?
  }

  /** The ISO text the request carries for a parsed due date. */
  function IsoText(due: Option<ParsedDate>): string {
    if due.Some? then due.value.iso else ""
  }

  /** The body `createJob` receives: the form with the due date as its ISO
      text (or "" when none is given) and a zero bidding duration replaced by
      the default 24 hours; every other field as the form holds it. */
  function SubmitRequest(form: FormData, isoDueDate: string): (r: FormData)
    ensures r.due_date == (if form.due_date == "" then "" else isoDueDate)
    ensures form.bidding_duration_hours != 0 ==> r.bidding_duration_hours == form.bidding_duration_hours
    ensures form.bidding_duration_hours == 0 ==> r.bidding_duration_hours == DefaultBiddingHours
    ensures r.(due_date := form.due_date, bidding_duration_hours := form.bidding_duration_hours) == form
  {
    form.(due_date := if form.due_date != "" then isoDueDate else "",
          bidding_duration_hours := if form.bidding_duration_hours != 0 then form.bidding_duration_hours
                                    else DefaultBiddingHours)
  }

  /** The submitted bidding duration is never 0, and a form with a
      non-negative duration always submits a positive one. */
  lemma SubmittedBiddingPositive(form: FormData, isoDueDate: string)
    requires form.bidding_duration_hours >= 0
    ensures SubmitRequest(form, isoDueDate).bidding_duration_hours > 0
  {
  }

  /** The page's state. */
  class NewJobPage {
    var loading: bool
    var error: string
    var uploading: bool
    var uploadSuccess: bool
    var uploadedFile: Option<UploadedFile>
    var formData: FormData
    /** The value shown by the file input; "" once the page clears it. */
    var fileInputValue: string
    var navigations: seq<Navigation>

    /** The form's file url always names the file shown as uploaded (or is
        empty when there is none), and success is shown only with a file. */
    predicate FileConsistent()
      reads this
    {
      formData.file_url == (if uploadedFile.Some? then uploadedFile.value.url else "") &&
      (uploadSuccess ==> uploadedFile.Some?)
    }

    constructor ()
      ensures !loading && error == "" && !uploading && !uploadSuccess && uploadedFile.None?
      ensures formData == InitialForm && fileInputValue == "" && navigations == []
      ensures FileConsistent()
    {
      loading, error, uploading, uploadSuccess := false, "", false, false;
      uploadedFile, formData, fileInputValue, navigations := None, InitialForm, "", [];
    }

    /** `handleFileChange`: nothing without a file; a file over 50 MiB is
        refused before any upload; otherwise the file is uploaded and the
        page shows the result. Uploading has ended whatever the outcome. */
    method HandleFileChange(file: Option<SelectedFile>, outcome: UploadOutcome) returns (uploadCalled: bool)
      modifies this
      requires FileConsistent()
      ensures FileConsistent()
      ensures file.None? ==> !uploadCalled && unchanged(this)
      ensures file.Some? && file.value.size > MaxFileSize ==>
                !uploadCalled && error == FileTooLarge &&
                loading == old(loading) && uploading == old(uploading) && uploadSuccess == old(uploadSuccess) &&
                uploadedFile == old(uploadedFile) && formData == old(formData) &&
                fileInputValue == old(fileInputValue) && navigations == old(navigations)
      ensures file.Some? && file.value.size <= MaxFileSize ==> uploadCalled && !uploading && loading == old(loading)
      ensures file.Some? && file.value.size <= MaxFileSize && outcome.Uploaded? ==>
                error == "" && uploadSuccess &&
                uploadedFile == Some(UploadedFile(file.value.name, outcome.file_url)) &&
                formData == old(formData).(file_url := outcome.file_url) &&
                fileInputValue == old(fileInputValue) && navigations == old(navigations)
      ensures file.Some? && file.value.size <= MaxFileSize && outcome.UploadFailed? ==>
                error == ErrorText(outcome.message, UploadFailedFallback) && !uploadSuccess &&
                uploadedFile == old(uploadedFile) && formData == old(formData) && fileInputValue == "" &&
                navigations == old(navigations) +
                  (if UploadFailureSignsOut(outcome.message, outcome.isAuthError)
                   then [Navigation(LoginPath, UploadRedirectDelayMs)] else [])
    {
      if file.None? {
        return false;
      }
      if file.value.size > MaxFileSize {
        error := FileTooLarge;
        return false;
      }
      uploadCalled := true;
      uploading := true;
      error := "";
      uploadSuccess := false;
      match outcome {
        case Uploaded(url) =>
          uploadedFile := Some(UploadedFile(file.value.name, url));
          formData := formData.(file_url := url);
          uploadSuccess := true;
        case UploadFailed(message, isAuthError) =>
          error := ErrorText(message, UploadFailedFallback);
          uploadSuccess := false;
          fileInputValue := "";
          if UploadFailureSignsOut(message, isAuthError) {
            navigations := navigations + [Navigation(LoginPath, UploadRedirectDelayMs)];
          }
      }
      uploading := false;
    }

    /** `handleRemoveFile`: forgets the uploaded file and clears its url and
        the file input; nothing else changes. */
    method HandleRemoveFile()
      modifies this
      ensures uploadedFile.None? && !uploadSuccess && fileInputValue == ""
      ensures formData == old(formData).(file_url := "")
      ensures loading == old(loading) && error == old(error) && uploading == old(uploading)
      ensures navigations == old(navigations)
      ensures FileConsistent()
    {
      uploadedFile := None;
      uploadSuccess := false;
      formData := formData.(file_url := "");
      fileInputValue := "";
    }

    /** `handleSubmit`, with the parsed due date and the start of today as
        parameters: a due date not in the future is refused before any
        request, and one that does not parse fails while the request is
        built; otherwise `createJob` receives `SubmitRequest(formData, iso)`,
        and the page opens the new job or shows the error, sending the user
        to sign in only on an authentication error. Loading has ended
        whatever the outcome. */
    method HandleSubmit(due: Option<ParsedDate>, today: int, outcome: SubmitOutcome)
      returns (sent: Option<FormData>)
      modifies this
      requires FileConsistent()
      ensures FileConsistent()
      ensures !loading
      ensures formData == old(formData) && uploadedFile == old(uploadedFile) && uploadSuccess == old(uploadSuccess)
      ensures uploading == old(uploading) && fileInputValue == old(fileInputValue)
      ensures DueDateRefused(formData.due_date, due, today) ==>
                sent.None? && error == DueDateNotFuture && navigations == old(navigations)
      ensures DueDateInvalid(formData.due_date, due) ==>
                sent.None? && error == InvalidTimeValue && navigations == old(navigations)
      ensures sent.Some? <==> !DueDateRefused(formData.due_date, due, today) && !DueDateInvalid(formData.due_date, due)
      ensures sent.Some? ==>
                sent.value == SubmitRequest(formData, IsoText(due)) &&
                sent.value.file_url == (if uploadedFile.Some? then uploadedFile.value.url else "")
      ensures sent.Some? && outcome.Created? ==>
                error == "" && navigations == old(navigations) + [Navigation(JobsPath + outcome.uuid, 0)]
      ensures sent.Some? && outcome.SubmitFailed? ==>
                error == ErrorText(outcome.message, CreateFailedFallback) &&
                navigations == old(navigations) +
                  (if outcome.isAuthError then [Navigation(LoginPath, SubmitRedirectDelayMs)] else [])
    {
      error := "";
      loading := true;
      if DueDateRefused(formData.due_date, due, today) {
        error := DueDateNotFuture;
        loading := false;
        return None;
      }
      if DueDateInvalid(formData.due_date, due) {
        error := InvalidTimeValue;
        loading := false;
        return None;
      }
      sent := Some(SubmitRequest(formData, IsoText(due)));
      match outcome {
        case Created(uuid) =>
          navigations := navigations + [Navigation(JobsPath + uuid, 0)];
        case SubmitFailed(message, isAuthError) =>
          error := ErrorText(message, CreateFailedFallback);
          if isAuthError {
            navigations := navigations + [Navigation(LoginPath, SubmitRedirectDelayMs)];
          }
      }
      loading := false;
    }
  }
}
