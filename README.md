# Printing marketplace: a verified model of its core

The printing marketplace matches customers who need print jobs with printers. Customers sign up under a company name, and every customer of one company shares one customer profile. A customer creates print jobs as DRAFTs and edits them. Publishing a job opens it for bidding for a number of hours. Printers keep a profile that lists the product types, quantity range and service areas they accept. A printer sees the OPEN jobs, and the jobs that match its profile. Job files are uploaded to an object store under generated keys and downloaded by key. The web pages format dates and countdowns, count a customer's jobs for the dashboard, and drive the "new job" form.

This project models that core in Dafny and proves what each operation promises:

- **Records and tables:** users, customer profiles, printer profiles and printing jobs are datatypes (`Models`). The database is a class holding one sequence per table and each table's constraints (`Store`).
- **Enumerations:** each enum is a datatype, with its string value and the round trip through parsing (`Enums`).
- **Request validation:** the bodies and their field constraints, with defaults (`Schemas`).
- **Authentication guard:** the payload of a verified token resolves to a user, then the role check runs (`Dependencies`).
- **Accounts:** login, signup and logout (`Auth`).
- **Jobs:** the job handlers and the job–printer matching predicate (`Jobs`). The query shapes they use are first, filter, and sort newest first (`Query`).
- **Profiles:** the profile handlers, including the printer profile's validation loop (`Profiles`).
- **Uploads and downloads:** file validation and the upload and download handlers (`Uploads`). Storage keys, and the bucket as a class whose object map `upload_file` writes (`Storage`).
- **Routing:** how the jobs router picks a handler by declaration order (`Routing`).
- **Web pages:**
  - UTC date formatting (`DateFormat`).
  - The printer's countdown (`Countdown`).
  - The customer dashboard's counts (`Dashboard`).
  - The new-job form as a state machine (`NewJobForm`).

Handlers that write take the `Database` and list in `modifies` the tables they change. Each one keeps that table's uniqueness and check constraints. Each handler starts from the user its authentication dependency returned. A handler behind a role guard requires that role, which `Dependencies.RequireRole` guarantees.

Some inputs come from outside the model and are parameters:

- the clock (`now`, as an integer);
- fresh uuids and the next autoincrement ids;
- the outcome of verifying a token;
- what `json.loads` gives for a text;
- the outcomes of storage calls and of the browser's API calls.

Errors are `Result` values carrying an HTTP status and a detail text.

## Model

| member | source | states |
|---|---|---|
| Enums.ParseUserRole | backend/app/utils/enums.py:6-8 | `UserRole(s)` succeeds exactly for "CUSTOMER" and "PRINTER", and gives the member whose value is `s` |
| Enums.UserRoleRoundTrip | backend/app/utils/enums.py:6-8 | parsing a role's value gives the role back |
| Enums.ParseJobState | backend/app/utils/enums.py:11-16 | parsing succeeds exactly for the five state names and gives the member with that value |
| Enums.JobStateRoundTrip | backend/app/utils/enums.py:11-16 | parsing a state's value gives the state back |
| Enums.JobStateValueInjective | backend/app/utils/enums.py:11-16 | distinct states store distinct strings |
| Enums.ParseBidStatus | backend/app/utils/enums.py:19-22 | parsing succeeds exactly for OPEN, ACCEPTED and LOST |
| Enums.BidStatusRoundTrip | backend/app/utils/enums.py:19-22 | parsing a bid status's value gives it back |
| Enums.ParseProductType | backend/app/utils/enums.py:25-31 | parsing succeeds exactly for the six product-type names |
| Enums.ProductTypeRoundTrip | backend/app/utils/enums.py:25-31 | parsing a product type's value gives it back |
| Enums.ProductTypeValueInjective | backend/app/utils/enums.py:25-31 | distinct product types store distinct strings |
| Models.InsertedWithDefaults | backend/app/models/printing_job.py:13-55 | a row inserted with its required columns is DRAFT, has a 24-hour bidding duration and no pickup, and its nullable columns are null; it meets the check constraints exactly when its quantity is positive |
| Store.Database.constructor | backend/app/models/printing_job.py:16-17 | an empty database meets every table's uniqueness and check constraints, and its ids start at 1 |
| Schemas.JobCreateWithDefaults | backend/app/schemas/printing_job.py:9-19 | a create body that gives only the required fields has bidding 24 hours, no pickup, and no description, instructions, file or location |
| Schemas.ValidateJobCreate | backend/app/schemas/printing_job.py:9-27 | a body is accepted, unchanged, exactly when quantity > 0, bidding hours > 0 and the due date is strictly after now; otherwise the answer is 422 |
| Schemas.DefaultedCreateAccepted | backend/app/schemas/printing_job.py:12-27 | with the defaults, only the quantity and the due date decide acceptance |
| Schemas.ValidatePublishRequest | backend/app/schemas/printing_job.py:78-80 | the publish body declares no field but is still required: it is accepted exactly when it is a JSON object, and a missing or non-object body gets 422 |
| Schemas.ValidateJobUpdate | backend/app/schemas/printing_job.py:30-49 | an update is accepted exactly when each given quantity or duration is positive and any given due date is after now; otherwise 422 |
| Schemas.UpdateWithoutDueDateIgnoresClock | backend/app/schemas/printing_job.py:42-49 | the clock matters to an update only when it carries a due date |
| Schemas.PrinterProfileCreateWithDefaults | backend/app/schemas/printer_profile.py:8-23 | a printer body that gives only its required fields has email notifications on, WhatsApp off, and every optional field absent |
| Schemas.ValidatePrinterProfileCreate | backend/app/schemas/printer_profile.py:10-20 | a body is accepted exactly when business name and payment terms are non-empty and any given quantity bound is at least 1; otherwise 422 |
| Dependencies.GetCurrentUser | backend/app/utils/dependencies.py:16-52 | 401 for a failed verification and for a payload without `sub`; 401 "User not found" exactly when `sub` names no user; otherwise a user of the table whose id is `sub` |
| Dependencies.GetCurrentUserIsSubject | backend/app/utils/dependencies.py:44-52 | with unique ids, a payload naming a user's id authenticates exactly that user |
| Dependencies.RequireRole | backend/app/utils/dependencies.py:55-74 | an authentication failure passes through unchanged; an authenticated user passes exactly when its role is allowed, and is returned as is; otherwise 403 listing the roles |
| Dependencies.ForbiddenOnlyAfterAuthentication | backend/app/utils/dependencies.py:65-72 | the guard answers 403 only to an authenticated caller and 401 only to one that is not |
| Auth.Issue | backend/app/api/auth.py:50-66 | the answer is a bearer token whose subject is decimal text reading back as the user's id and whose role claim parses back as the user's role, with a body for the same user (id, uuid, email, role, creation time) |
| Auth.Login | backend/app/api/auth.py:18-67 | 404 exactly when no user has the email; 400 only when a role is given and is not the user's; otherwise the bearer response for a user with that email, whose token claims are its id as text, its email and its role |
| Auth.LoginSucceedsIff | backend/app/api/auth.py:41-67 | with unique emails, login of an existing user succeeds exactly when no role or the user's own role is given, and answers for that user |
| Auth.LoginTokenAuthenticates | backend/app/api/auth.py:50-66 | the token a login issues authenticates, through the guard, the user who logged in |
| Auth.Logout | backend/app/api/auth.py:146-157 | logout succeeds exactly when the guard authenticates, answers "Successfully logged out", and otherwise passes on the guard's error |
| Auth.AppendUserValid | backend/app/api/auth.py:115-123 | inserting a user with the next id, a fresh uuid and an unused email keeps the users table valid |
| Auth.AppendCustomerProfileValid | backend/app/api/auth.py:104-110 | inserting a profile with the next id, a fresh uuid and a new company name keeps the customer-profile table valid |
| Auth.AppendedUserLogsIn | backend/app/api/auth.py:115-143 | a user inserted with a new email logs in with its role and gets its own response |
| Auth.JoinOrCreateCustomerProfile | backend/app/api/auth.py:98-113 | a signing-up customer joins the profile with its company name, or exactly one new profile is appended; the table stays valid |
| Auth.AddUser | backend/app/api/auth.py:115-123 | the user is appended with the next id; the table stays valid, and the user can log in at once |
| Auth.Register | backend/app/api/auth.py:98-143 | exactly one user is appended; it is linked to the company's profile (reused or created once) for a customer and to no profile for a printer; the response is the one a later login gives |
| Auth.Signup | backend/app/api/auth.py:71-143 | 400 with no change for a taken email, then 400 with no change for a customer without a company name; it succeeds exactly otherwise: one user is appended with the next id, the request's email and role and a fresh uuid, earlier users untouched; a printer gets no profile and the profiles are unchanged; a customer is linked to the profile holding its company name, which is reused, or else appended once with the next profile id; the answer is what logging in as that user gives |
| Jobs.CreateJob | backend/app/api/jobs.py:31-68 | 404 with no change without a customer profile; otherwise one DRAFT job with the body's fields, the caller's profile, the next id and a fresh uuid is appended; its creator can read it and no printer can |
| Jobs.AppendJobValid | backend/app/models/printing_job.py:16-17 | appending a row with the next id, a fresh uuid in uuid syntax and positive quantity and duration keeps the jobs table valid |
| Jobs.GetJob | backend/app/api/jobs.py:76-111 | 404 for a customer without a profile; otherwise 500 when the path segment is not uuid syntax, so the query's cast fails; otherwise a job is returned exactly when one with that uuid is visible to the caller (its own profile's jobs for a customer, OPEN jobs for a printer), and 404 otherwise |
| Jobs.GetJobUnique | backend/app/api/jobs.py:88-109 | with unique uuids, reading a job succeeds exactly when the caller may see it, and gives that job |
| Jobs.GetJobFindsVisible | backend/app/api/jobs.py:88-109 | a visible job is always found by its uuid |
| Jobs.ListJobs | backend/app/api/jobs.py:119-159 | a customer without a profile gets 404 and a printer asking for a state other than OPEN gets 400, and nobody else gets an error; the result holds exactly the selected rows with their multiplicities, newest first |
| Jobs.ListedJobsAreReadable | backend/app/api/jobs.py:92-101 | every listed job is one the caller could read through `get_job` |
| Jobs.EditableIndex | backend/app/api/jobs.py:186-196 | finds a row with that uuid, the caller's profile and state DRAFT, and finds none exactly when no such row exists |
| Jobs.ApplyUpdate | backend/app/api/jobs.py:199-216 | the update never touches id, uuid, profile, state or the timestamps |
| Jobs.EmptyUpdateKeepsJob | backend/app/api/jobs.py:199-216 | an update with no field set changes nothing |
| Jobs.ApplyUpdateIdempotent | backend/app/api/jobs.py:199-216 | applying the same update twice is applying it once |
| Jobs.ApplyUpdateTakesGivenFields | backend/app/api/jobs.py:199-216 | for each of the nine updatable fields, a field the body gives is what the row then holds, and a field it leaves out keeps its stored value |
| Jobs.ReplaceJobValid | backend/app/models/printing_job.py:52-55 | replacing a row by one with the same id and uuid that meets the check constraints keeps the table valid |
| Jobs.UpdateJob | backend/app/api/jobs.py:167-221 | 404 with no change without a profile, then 500 with no change when the uuid cast fails, then 404 with no change without an editable row; it succeeds exactly otherwise, and then that row alone takes the given fields |
| Jobs.DeleteJob | backend/app/api/jobs.py:228-261 | the same 404s and 500, in the same order, with no change; otherwise exactly that row is removed, the others keep their order, and no job with that uuid remains |
| Jobs.RemoveJobValid | backend/app/api/jobs.py:258 | removing a row keeps the table valid and takes its uuid away |
| Jobs.PublishError | backend/app/api/jobs.py:302-326 | the first failing check in order (quantity, due date, bidding hours) gives the message, and none fails exactly when all three hold |
| Jobs.PublishOnlyChecksDueDate | backend/app/api/jobs.py:302-326 | on a stored row only the due-date check can fail |
| Jobs.Published | backend/app/api/jobs.py:330-339 | the row becomes OPEN, published now, with bidding ending `bidding_duration_hours` hours later; nothing else changes |
| Jobs.PublishedBiddingWindow | backend/app/api/jobs.py:330-339 | on a stored row, bidding closes at least an hour after publication, hence after it |
| Jobs.PublishJob | backend/app/api/jobs.py:269-344 | 422 for a body that is not a JSON object, then the same 404s and 500, then a 400 for the first failing check, all with no change; otherwise the row is published; it is then visible to every printer and no longer editable |
| Jobs.AnyAreaMatches | backend/app/api/jobs.py:382-389 | true exactly when some service area is a string that contains the location, or is contained in it, ignoring case |
| Jobs.JobMatchesPrinter | backend/app/api/jobs.py:347-397 | a match holds exactly when the product types parse to a list holding the job's type, the quantity lies in the inclusive range of the bounds that are set, and, when geography applies, some area matches |
| Jobs.MatchIgnoresLocationCase | backend/app/api/jobs.py:382-387 | lower-casing the job's location never changes the match |
| Jobs.SameAreaMatches | backend/app/api/jobs.py:384 | an area spelled like the location, in any case, matches it |
| Jobs.OpenProfileMatchesByType | backend/app/api/jobs.py:359-392 | a profile without quantity bounds or areas matches exactly the jobs of a product type it lists |
| Jobs.PrinterOf | backend/app/api/jobs.py:420-422 | the first printer profile holding the user id, none exactly when no row holds it; with unique user ids it is the one row holding it |
| Jobs.GetMatchingJobs | backend/app/api/jobs.py:405-444 | 404 exactly when the caller has no printer profile; otherwise exactly the OPEN jobs matching the profile `PrinterOf` loads, with their multiplicities, newest first |
| Jobs.MatchedJobsAreReadable | backend/app/api/jobs.py:431-442 | every matched job is one `get_job` shows the printer |
| Profiles.LinkedProfileIndex | backend/app/api/profiles.py:37-41 | finds the profile whose id the user's link names, and finds none exactly when there is no such profile |
| Profiles.GetMyProfile | backend/app/api/profiles.py:24-53 | a customer gets only its linked profile and a printer only the profile holding its user id; each is present exactly when such a row exists; the source's 500 for a linked customer is under Left out |
| Profiles.LinkedCustomersSeeProfile | backend/app/api/profiles.py:37-41 | with unique ids, every customer linked to a profile reads exactly that profile |
| Profiles.MergeCustomerProfile | backend/app/api/profiles.py:98-107 | the update keeps the profile's id, uuid and creation time |
| Profiles.MergeCustomerProfileLaws | backend/app/api/profiles.py:98-107 | an empty body changes nothing, applying a body twice is applying it once, and for each of the four fields a given value is what the profile then holds while an absent one keeps the stored value |
| Profiles.UserIndex | backend/app/api/profiles.py:97 | finds the caller's row in the users table |
| Profiles.LinkCustomerProfile | backend/app/api/profiles.py:77-97 | the caller is linked to the profile with that company name, or to exactly one new profile built from the body; without a company name the insert fails (500) and nothing changes |
| Profiles.AppendProfileValid | backend/app/api/profiles.py:85-92 | appending a profile with the next id, a fresh uuid and a new company name keeps the table valid |
| Profiles.CreateOrUpdateCustomerProfile | backend/app/api/profiles.py:61-112 | an unlinked caller without a company name gets 500 with no change; with one, it is linked to the profile holding that name, leaving the profiles and their counter unchanged, or else to a new profile built from the body with the next id, which is appended; a linked caller has the given fields written into its shared profile, with its link and the other profiles unchanged, unless the new company name is taken (500, no change); every customer linked to the result reads it back; the source's 500 after the commit is under Left out |
| Profiles.ReplaceProfileValid | backend/app/api/profiles.py:98-107 | an update whose company name does not collide keeps the table valid |
| Profiles.FirstInvalidProductType | backend/app/api/profiles.py:151-152 | the position of the first item that is not a product-type value, and none exactly when all are |
| Profiles.CheckProductTypes | backend/app/api/profiles.py:151-152 | the loop stops at the first item that is not a product-type value |
| Profiles.FirstInvalidIsFirst | backend/app/api/profiles.py:151-152 | an invalid item preceded only by valid ones is the first invalid item |
| Profiles.ProductTypesError | backend/app/api/profiles.py:146-157 | the product-type check passes exactly when the text parses to a list of product-type values |
| Profiles.ServiceAreasError | backend/app/api/profiles.py:160-171 | the service-area check passes exactly when the field is absent or parses to a list |
| Profiles.PrinterRequestError | backend/app/api/profiles.py:138-171 | an inverted pair of bounds is refused first; the request passes exactly when the bounds are not inverted and both list checks pass |
| Profiles.AcceptedTypesParse | backend/app/api/profiles.py:146-157 | every product type of an accepted body parses as a ProductType |
| Profiles.NewPrinterProfile | backend/app/api/profiles.py:178-197 | the new row has the caller's user id, the next id and a fresh uuid, and an email exactly when a non-empty one is given |
| Profiles.MergePrinterProfile | backend/app/api/profiles.py:198-222 | business name, product types, payment terms and both notification flags always take the body's values; id, uuid, user and creation time are kept |
| Profiles.MergePrinterProfileOptionalFields | backend/app/api/profiles.py:201-222 | for each of the nine optional fields, a given value is what the profile then holds, and an absent one keeps the stored value |
| Profiles.MergePrinterProfileIdempotent | backend/app/api/profiles.py:198-222 | applying the same body twice is applying it once |
| Profiles.PartialUpdateCanInvertRange | backend/app/api/profiles.py:138-143 | a body giving only a maximum below the stored minimum passes the range check and leaves the stored range inverted |
| Profiles.InvertedRangeMatchesNothing | backend/app/api/jobs.py:369-373 | a profile whose minimum exceeds its maximum has no quantity in its range, and so `job_matches_printer` holds for no job |
| Profiles.PrinterIndex | backend/app/api/profiles.py:174-176 | finds the printer profile holding the user id, and finds none exactly when there is no such row |
| Profiles.CheckPrinterRequest | backend/app/api/profiles.py:138-171 | the handler's checks, run in order, give exactly the error `PrinterRequestError` names |
| Profiles.SavePrinterProfile | backend/app/api/profiles.py:174-222 | a printer without a profile gets exactly one new row, otherwise its row is merged with the body; the table stays valid and the printer reads back that row |
| Profiles.CreateOrUpdatePrinterProfile | backend/app/api/profiles.py:120-227 | 400 with no change for the first failing check; otherwise the row is created or merged, and the caller reads it back as its profile |
| Profiles.AppendPrinterValid | backend/app/api/profiles.py:178-197 | appending a row with the next id, a fresh uuid and a new user id keeps the table valid |
| Profiles.ReplacePrinterValid | backend/app/api/profiles.py:198-222 | replacing a row with one keeping its id, uuid and user keeps the table valid |
| Profiles.PrinterSeesOwnProfile | backend/app/api/profiles.py:42-48 | with one row per printer, a printer reads the row holding its id |
| Query.FirstIndex | backend/app/api/jobs.py:186-196 | `.filter(p).first()` by position: the first row satisfying `p`, or none when none does |
| Query.First | backend/app/api/auth.py:32 | the first matching row, and none exactly when no row matches |
| Query.Filter | backend/app/api/jobs.py:134-151 | `.filter(p).all()`: each row satisfying `p` with its multiplicity, and no other row |
| Query.FilterLength | frontend/app/customer/dashboard/page.tsx:24-26 | filtering a list with one more row in front counts that row exactly when it matches |
| Query.InsertDesc | backend/app/api/jobs.py:442 | inserting adds exactly the one element |
| Query.InsertDescSorted | backend/app/api/jobs.py:442 | inserting into a list sorted newest first keeps it sorted |
| Query.SortDescBy | backend/app/api/jobs.py:158 | the result is sorted by the key, largest first, and is a permutation of the input |
| Storage.GenerateFileKey | backend/app/utils/storage.py:144-157 | every key starts with "users/", so it passes the download prefix check |
| Storage.FileKeyKeepsExtension | backend/app/utils/storage.py:155-157 | the key's last component is the uuid followed by the lower-cased suffix of the name, the key's suffix is that suffix, and a name without a suffix gives `users/{id}/{uuid}` |
| Storage.FileKeysSeparateUsers | backend/app/utils/storage.py:155-157 | equal keys belong to the same user |
| Storage.KeyAfterPrefix | backend/app/utils/storage.py:157 | after "users/" a key holds the user id, a '/', the uuid and the suffix |
| Storage.Bucket.UploadFile | backend/app/utils/storage.py:43-68 | the body is stored under the key, typed only by a non-empty content type; the same key is returned, and no other key's presence changes |
| Uploads.ContentTypesCoverWhitelist | backend/app/api/uploads.py:24-57 | the MIME table and the whitelist name the same fourteen extensions, and none maps to application/octet-stream |
| Uploads.FileExtension | backend/app/api/uploads.py:28-30 | the extension is empty or a dot and at least one more character, and is already lower case |
| Uploads.IsAllowedFile | backend/app/api/uploads.py:33-35 | a name is allowed exactly when its lower-cased suffix is on the whitelist; an allowed extension is never empty and has an entry in the content-type table |
| Uploads.ContentType | backend/app/api/uploads.py:38-57 | an allowed name gets its extension's type from the table, and any other name gets application/octet-stream |
| Uploads.UnknownNameRefused | backend/app/api/uploads.py:76-83 | the stand-in name "unknown" has no suffix and is refused |
| Uploads.ExtensionOfName | backend/app/api/uploads.py:28-35 | a stem without dots followed by an extension has that extension, lower-cased, so its case never matters |
| Uploads.JoinComma | backend/app/api/uploads.py:82 | joining nothing gives "", and joining one item gives that item |
| Uploads.UploadName | backend/app/api/uploads.py:76 | a missing or empty file name stands for "unknown", and any other name is kept |
| Uploads.UploadJobFile | backend/app/api/uploads.py:64-117 | the extension is checked before the size, and either refusal gives 400 with no change; a storage failure gives 500; otherwise the file is stored under its generated key with its content type, and the key is both the path and the url returned, with the name and byte size |
| Uploads.RefusalListsWhitelist | backend/app/api/uploads.py:79-83 | the refusal message names every allowed extension |
| Uploads.JoinedListed | backend/app/api/uploads.py:82 | every listed item occurs in the joined text |
| Uploads.JoinedAt | backend/app/api/uploads.py:82 | gives where the k-th item sits in the joined text |
| Uploads.GetFile | backend/app/api/uploads.py:123-176 | 403 for a key outside "users/" before any lookup, then 404 for a missing key, then 500 for a read failure; otherwise the object's bytes, named by the text after the key's last '/' and typed by that name |
| Uploads.UploadedFileDownloads | backend/app/api/uploads.py:96-117 | a file stored under its generated key downloads as the same bytes, named by uuid and extension, with the content type of the original name |
| Uploads.StoredNameKeepsType | backend/app/utils/storage.py:155 | the stored name has the original name's extension and so its content type |
| Routing.Dispatch | backend/app/api/jobs.py:26-405 | routes are tried in declaration order: a handler is chosen exactly when some route fits, and it is that of the first fitting route |
| Routing.MatchingShadowedAsWritten | backend/app/api/jobs.py:71-72 | as declared, `GET /api/jobs/matching` is served by `get_job`, and no GET request ever reaches `get_matching_jobs` |
| Routing.ShadowedMatchingFails | backend/app/api/jobs.py:76-109 | "matching" is not uuid syntax, so `get_job` answers it with 500 for a printer and for a customer with a profile, and 404 for a customer without one |
| Routing.MatchingReachable | backend/app/api/jobs.py:400-401 | with the matching route declared first, the matching endpoint is served |
| Routing.ReorderChangesOnlyMatching | backend/app/api/jobs.py:71-72 | the corrected order changes the handler of no other request |
| Routing.DispatchDropsUnfitLast | backend/app/api/jobs.py:400-401 | a last route that does not fit never changes dispatch |
| Routing.UuidReachesGetJob | backend/app/api/jobs.py:71-76 | under the corrected order every other single segment, hence every job uuid, reaches `get_job` |
| DateFormat.DayAndYear | frontend/lib/utils.ts:23-24 | the day and year text starts with a digit |
| DateFormat.Clock | frontend/lib/utils.ts:26-29 | five characters, two digit pairs around ':', which read back as the hours and the minutes |
| DateFormat.FormatDate | frontend/lib/utils.ts:11-33 | "N/A" for a missing or empty date; otherwise the full month name, the unpadded day, the year, " at ", and the padded time |
| DateFormat.FormatDateShort | frontend/lib/utils.ts:38-54 | "N/A" for a missing or empty date; otherwise the three-letter month, the day and the year |
| DateFormat.ShortNamesArePrefixes | frontend/lib/utils.ts:17-29 | each short month name is the first three letters of the full one |
| DateFormat.LongExtendsShort | frontend/lib/utils.ts:11-54 | the long format is the short one with the month written out and the time appended |
| DateFormat.ShortMonthIndex | frontend/lib/utils.ts:42-50 | a short month name's index is in 0..12, where 12 means no month |
| DateFormat.ShortMonthIndexInverts | frontend/lib/utils.ts:42-50 | each short month name leads back to its month |
| DateFormat.ShortFormatDeterminesDate | frontend/lib/utils.ts:38-54 | two valid dates that print alike in the short format share year, month and day |
| DateFormat.DayAndYearDeterminesDate | frontend/lib/utils.ts:23-24 | the day and year text determines both |
| Countdown.Split | frontend/app/printer/jobs/page.tsx:48-50 | hours < 24 and minutes < 60, and whole days, hours and minutes add up to the time left to within a minute |
| Countdown.SplitUnique | frontend/app/printer/jobs/page.tsx:48-50 | any split with those bounds is the one the page computes |
| Countdown.FormatTimeRemaining | frontend/app/printer/jobs/page.tsx:40-55 | "N/A" without an end date, "Closed" once the end has passed, else days and hours, or hours and minutes, or minutes, followed by " remaining" |
| Countdown.LastMinuteShowsZero | frontend/app/printer/jobs/page.tsx:54 | under a minute left reads "0m remaining" |
| Countdown.OneDayLeft | frontend/app/printer/jobs/page.tsx:52 | exactly a day left reads "1d 0h remaining" |
| Dashboard.StatsOf | frontend/app/customer/dashboard/page.tsx:24-26 | the three counts, together with the CLOSED jobs, account for every job, so they never exceed the number of jobs |
| Dashboard.CountsPartition | frontend/app/customer/dashboard/page.tsx:24-26 | every job is exactly one of active, draft, completed or closed |
| Dashboard.StatsOfCons | frontend/app/customer/dashboard/page.tsx:24-26 | one more job raises exactly its own category's count |
| Dashboard.DashboardPage.constructor | frontend/app/customer/dashboard/page.tsx:9-13 | the page starts loading, with zero counts |
| Dashboard.DashboardPage.LoadStats | frontend/app/customer/dashboard/page.tsx:19-33 | the counts of the listed jobs, or the previous counts when listing fails; loading ends either way |
| NewJobForm.ErrorText | frontend/app/customer/jobs/new/page.tsx:51 | the error's message when it has one, the fallback otherwise |
| NewJobForm.SubmitRequest | frontend/app/customer/jobs/new/page.tsx:96-101 | the request carries the due date as ISO text (or "" when none is given) and replaces a zero bidding duration by 24; every other field is the form's |
| NewJobForm.SubmittedBiddingPositive | frontend/app/customer/jobs/new/page.tsx:100 | a form with a non-negative duration submits a positive one |
| NewJobForm.NewJobPage.constructor | frontend/app/customer/jobs/new/page.tsx:9-28 | the form starts with its initial values, no file and no error |
| NewJobForm.NewJobPage.HandleFileChange | frontend/app/customer/jobs/new/page.tsx:30-67 | nothing happens without a file; a file over 50 MiB sets the size error and is not uploaded; otherwise a success records the file and its url in the form, and a failure shows the message, clears the input, and schedules the sign-in page only for an expired session; uploading ends either way, and the form's url always names the uploaded file |
| NewJobForm.NewJobPage.HandleRemoveFile | frontend/app/customer/jobs/new/page.tsx:69-76 | forgets the file, clears its url and the input, and changes nothing else |
| NewJobForm.NewJobPage.HandleSubmit | frontend/app/customer/jobs/new/page.tsx:78-117 | a due date not after today is refused and a date that does not parse fails, both with no request; otherwise `SubmitRequest` of the form is sent, carrying the uploaded file's url, and the page opens the new job or shows the error, sending the user to sign in only on an authentication error; loading ends either way |

## Left out

- Password-free identity, token signing and expiry are foreign. A token is modelled by its claims, and the outcome of verifying it is the `payload` parameter. A missing `Authorization` header, which the bearer scheme answers with 403, is not modelled.
- `json.loads` is foreign. A JSON text carries the outcome the parser gives for it, and only that outcome is inspected. Python's `repr` is approximated for strings and lists: a string is always quoted with `'`, and no character is escaped, whereas Python switches to `"` for a text holding `'` and escapes backslashes and control characters. `JOther` carries the text of any other value.
- Object storage I/O is not modelled: creating the bucket, presigned URLs, deletion, and the network. The bucket is a map from key to object. An upload or read failure is a parameter carrying the error's text.
- Clocks and time zones: `now` is an integer parameter, and tz-aware and naive datetimes are not distinguished. The page's "start of today" and the parsed due date are parameters.
- Uuids and autoincrement ids are parameters. Fresh uuids are required to differ from every stored one, as uuid4 is relied on to.
- `updated_at` (set by the database on update) is not modelled. Neither are the ORM relationships and cascades.
- The request validator reports every failing field. The model reports only the first, in declaration order, and its 422 texts approximate the validator's wording. EmailStr's email check is not modelled.
- `Profiles.GetMyProfile` and `Profiles.CreateOrUpdateCustomerProfile`: the source answers 500 where these members answer `Ok`. `CustomerProfileResponse` (schemas/customer_profile.py:19) requires a `user_id`, which `CustomerProfile` (models/customer_profile.py:11-31) does not have. So `model_validate` fails:
  - in `get_my_profile` for every customer with a linked profile (profiles.py:40);
  - in `create_or_update_customer_profile` on every success (profiles.py:112), after the commit at profiles.py:109 has already stored the new link or the changed profile.
  
  These members model what the handlers compute and store: the new state is the stored one, and the `Ok` value is the profile the response was built from. Response shaping is not modelled otherwise.
- The `customer_profile_id` field of `Models.User`: the `users` table (models/user.py:13-27) declares no `customer_profile_id` column. `User.customer_profile`'s `back_populates="user"` names no attribute of `CustomerProfile`. The link is modelled from the handlers' reads and writes of `customer_profile_id`: auth.py:98-119, jobs.py:43, and profiles.py:85 and 97.
- Lower-casing covers ASCII letters only. Python's Unicode case mapping is not modelled.
- `Jobs.JobMatchesPrinter`: the service-area substring test uses that ASCII lower-casing.
- The publish handler's checks for a missing product type or due date cannot fire, because those columns are typed non-null in the model. `Jobs.PublishError` covers the remaining three checks in their order.
- Two branches are not modelled because they cannot be reached:
  - `list_jobs`' 403 for a role other than CUSTOMER or PRINTER;
  - `get_my_profile`'s 400 for an unknown role.
  
  `UserRole` has exactly those two members.
- Python's `set` iteration order decides the order of extensions in the upload refusal message. It is the `listing` parameter of `Uploads.UploadJobFile`.
- A job uuid in the path is compared by its text with the stored canonical (lower-case, hyphenated) uuid. PostgreSQL compares uuid values, so a request writing a job's uuid in another accepted form (upper-case digits, braces, fewer hyphens) finds the job in the database but not in the model.
- The token's `sub` is compared with a user's id written as decimal text. The database casts `sub` to an integer instead, so a `sub` such as "07" finds user 7 and one such as "abc" fails the cast with 500. Only tokens the application never signs carry such a `sub`.
- `get_file` checks only that the caller is authenticated, not that the file belongs to one of its jobs. The model does the same.
- `main.py` imports only the auth and profiles routers, so the jobs and uploads routes are not served by the application as written. Moreover that import fails: `app/api/auth.py` imports `SignupRequest` from `app.schemas`, which defines no such name, so the application does not start. The handlers are modelled as the routers declare them.
- `Schemas.SignupRequest` and `Auth.Signup`: no source file defines `SignupRequest`. Its shape (an email, a required role, an optional company name) is inferred from the fields `signup` reads. In particular the role is taken as required, since `signup` reads `request.role.value`.
- `Uploads.ExtensionOfName`: states only that the extension of such a name is its lower-cased extension. It does not cover names with several dots, leading dots, or directories.
- `pathlib`'s normalisation of "." components is not modelled: the name of a path is the text after its last '/', so `x.pdf/.` has an empty name where `pathlib` gives `x.pdf`.
- `Query.SortDescBy`: does not state how rows with equal `created_at` are ordered. The database's `ORDER BY … DESC` leaves that order unspecified, and Python's stable sort keeps the filtered order.
- `Profiles.LinkCustomerProfile` and `Profiles.CreateOrUpdateCustomerProfile`: a commit that breaks the NOT NULL or UNIQUE constraint on `company_name` is modelled as a 500 with no change.
- Several browser behaviours of the new-job form are parameters or are not modelled:
  - Date parsing is a parameter.
  - React's state updates are applied at once.
  - `setTimeout` and `router.push` become a recorded navigation with its delay.
  - The file input's value is a string field.
  - The form holds the quantity as a number, so its `Number(...)` conversion is the identity.
- `DateFormat.FormatDate` and `DateFormat.FormatDateShort`: an invalid date's output is not modelled ("Invalid Date" handling, NaN fields). The UTC fields of a valid date are inputs.
- `Countdown.FormatTimeRemaining`: the time left is given as an integer number of milliseconds. An unparseable end date, which gives NaN, is not modelled.
- The frontend API client, session storage and the pages' rendering are not part of this model.

## Findings

| source | as written | input that shows it | evidently intended | confidence | as-written member | corrected member |
|---|---|---|---|---|---|---|
| backend/app/api/jobs.py:71-72, 400-401 | `GET /{job_uuid}` is declared before `GET /matching`, and routes are tried in declaration order | `GET /api/jobs/matching` from a printer is served by `get_job`, whose query cannot cast "matching" to a uuid: the answer is 500, never the matched jobs | the matching endpoint serves `get_matching_jobs`, with `/matching` declared before `/{job_uuid}` | not executed | Routing.MatchingShadowedAsWritten | Routing.MatchingReachable |
