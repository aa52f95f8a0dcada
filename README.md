# JobTracker core, modelled in Dafny

JobTracker is a small job-application tracker. An ASP.NET Core backend exposes CRUD
endpoints over one `JobApplication` table. It also logs contact messages from a
server-rendered form. A React client lists, adds, updates and deletes jobs, and offers a
contact form. This project models the logic of that code that can be stated precisely:

- **Server models** (`job_application.dfy`, `contact_message.dfy`): the `JobApplication` and
  `ContactMessage` records. Their data-annotation constraints become validity predicates.
  `[Required]` on a string means "not made of white space only". `[MaxLength(n)]` means at
  most `n` characters, and a null value passes.
- **The JobApplications controller** (`job_api.dfy`): a class whose `table` field maps each
  key to its row. Its `nextId` field stands for the SQL Server identity column. The five
  actions choose between Ok, Created, NoContent, BadRequest and NotFound, and add, replace
  or remove exactly one row. Because the controller carries `[ApiController]`, a body that
  fails validation is answered with an automatic 400 before the action runs
  (`ValidationProblem`). The class invariant `Valid()` says three things: every row is
  stored under its own key, every row is valid, and every key came from the identity column.
- **The MVC controller** (`mvc_controller.dfy`): `SubmitMessage` appends a valid message,
  stamped with the submission time, to an in-memory log. An invalid message leaves the log
  unchanged. Both branches set a status text and redirect to `Contact`. `ViewMessages`
  returns the log.
- **Client list reconciliation** (`app.dfy`): `addJob`, `updateJob` and `deleteJob`
  rebuild the `jobs` array once the server call resolves. `addJob` appends the body the
  server returned; `updateJob` and `deleteJob` rebuild from their own argument and ignore
  the response. They are modelled as pure
  functions on `seq<Job>`. Lemmas state their length, order, lookup, idempotence and
  no-op properties.
- **Client components**: the list's Update and Delete buttons (`job_list.dfy`), the
  contact form (`contact_form.dfy`) and the add-job form (`job_form.dfy`). The two forms
  are classes whose fields are the component's state. Their methods are the event
  handlers.
- **Client/server agreement** (`reconcile.dfy`): suppose the client list holds exactly one
  entry per stored key. Then each reconciliation step keeps that true, given the key
  change the matching controller action makes, as long as calls do not overlap.

The lemmas about the list read entries back through `App.FindById`, which returns the first
entry carrying a key. The client itself never looks a job up by key.

Three predicates decide validity, and each has a lemma that states what it decides:

- `JobApplicationModel.IsValid` is `ModelState.IsValid` for a job. `ValidBounds` spells
  it out field by field.
- `ContactMessageModel.IsValid` is the same for a contact message, with the
  `[EmailAddress]` conjunct. `ValidIffTrimmedAndEmail` spells it out.
- `ContactFormState.ContactForm.IsInvalid` is the form's `isInvalid`.
  `InvalidIffTouchedAndBlank` states it in both directions.

Object lifetimes differ from the running system. One `JobApplicationsController` object
stands for the database across every request. ASP.NET Core builds a new controller per
request over the same database, so its constructor models a fresh, empty database, not
the per-request construction. Likewise one `MVCController` object holds the static
message log, which in the code outlives every controller instance.

Inputs that come from outside the code are parameters:

- The clock reading (`DateTime.Now`) is the `now` argument of `SubmitMessage`.
- The framework's `[EmailAddress]` check is the `isEmail` argument.
- How the client's submission fetch ended is a `Response` value: `Ok`, `NotOk` or `Thrown`.

Some facts about the code shape the model:

- The code has no filtering, sorting or pagination: the data table uses only the core row
  model, so none is modelled.
- `status` is free text everywhere in the code: the C# model (Models/JobApplication.cs:21),
  the client's `Job` type and the add-job form. No closed enumeration exists.
- The code reconciles the client list after any resolved fetch, whatever the status; for
  a create, only when the response body parses as JSON. An
  update whose key is in no entry is a silent no-op, not a NotFound.
- The add-job form starts and resets `status` to the empty string, not to a default
  status.

## Model

| member | source | states |
|---|---|---|
| `Common.TrimEmptyIffBlank` | client/src/ContactForm.tsx:71-72 | `trim()` yields the empty string exactly when every character is white space, in both directions |
| `JobApplicationModel.ValidBounds` | Models/JobApplication.cs:11-26 | a job is valid iff CompanyName and JobTitle are non-blank and at most 100 characters, Status is non-blank and at most 50, and Notes is null or at most 500 |
| `JobApplicationModel.ValidIffTrimmed` | Models/JobApplication.cs:11-26 | a job is valid iff CompanyName, JobTitle and Status each keep a character once trimmed and respect their 100, 100 and 50 bounds, and Notes is null or at most 500 |
| `JobApplicationModel.ValidityIgnoresIdAndDate` | Models/JobApplication.cs:8-23 | the key and AppliedDate carry no validation constraint: changing them never changes validity |
| `JobApplicationModel.BlankCompanyNameInvalid` | Models/JobApplication.cs:11-13 | a CompanyName that trims to nothing makes the job invalid |
| `ContactMessageModel.Default` | Models/ContactMessage.cs:8-13 | the parameterless constructor sets Name, Email and Message to the empty string and leaves SubmittedAt at the default DateTime |
| `ContactMessageModel.DefaultIsInvalid` | Models/ContactMessage.cs:8-23 | a freshly constructed message never passes validation, whatever the email check says |
| `ContactMessageModel.ValidityIgnoresTimestamp` | Models/ContactMessage.cs:25 | SubmittedAt carries no constraint: validity does not depend on it |
| `ContactMessageModel.ValidIffTrimmedAndEmail` | Models/ContactMessage.cs:15-23 | a message is valid iff Name, Email and Message each keep a character once trimmed and Email passes the `[EmailAddress]` check |
| `ContactMessageModel.BlankFieldInvalid` | Models/ContactMessage.cs:15-23 | Name, Email and Message are each required: a blank one makes the message invalid |
| `JobApi.StatusCode` | Controllers/JobApplicationsController.cs:29-81 | Ok, Created and NoContent are the 2xx answers; BadRequest and the validation problem are 400; NotFound is 404 |
| `JobApi.JobApplicationsController.constructor` | Controllers/JobApplicationsController.cs:13-16 | a fresh database: an empty table whose identity column starts at 1, with the table invariant holding |
| `JobApi.JobApplicationsController.GetAll` | Controllers/JobApplicationsController.cs:20-23 | returns every stored row exactly once, each stored under its own key, and nothing else |
| `JobApi.JobApplicationsController.Get` | Controllers/JobApplicationsController.cs:27-34 | NotFound (404) iff no row has the key; otherwise Ok (200) with that row |
| `JobApi.JobApplicationsController.Create` | Controllers/JobApplicationsController.cs:7-44 | an invalid body is refused with no change; a valid body with key 0 is stored under the next identity value, which was unused, and answered Created (201) with that key; a valid body with an explicit key is refused by the database with no change; the invariant is kept |
| `JobApi.JobApplicationsController.Update` | Controllers/JobApplicationsController.cs:48-68 | the answer is 204, 400 or 404; an invalid body gives the validation 400; a route key different from the body's key gives BadRequest; an absent key gives NotFound; each of these leaves the table unchanged; otherwise exactly that row is replaced and the answer is NoContent |
| `JobApi.JobApplicationsController.Delete` | Controllers/JobApplicationsController.cs:72-82 | an absent key gives NotFound (404) and no change; a present key removes exactly that row and gives NoContent (204) |
| `JobApi.CreateThenGet` | Controllers/JobApplicationsController.cs:38-44 | on a fresh, empty table, a create answers Created with key 1, and reading that key back returns the stored job |
| `JobApi.CreateThenRead` | Controllers/JobApplicationsController.cs:27-44 | on any consistent table, a valid draft is answered Created under a key that was unused, and reading the key named by Created returns exactly the draft stored under it; the invariant is kept |
| `JobApi.DeleteTwice` | Controllers/JobApplicationsController.cs:72-82 | deleting a row succeeds once; the second delete of the same key answers NotFound |
| `Mvc.MVCController.constructor` | Controllers/MVCController.cs:10 | the message log starts empty |
| `Mvc.MVCController.SubmitMessage` | Controllers/MVCController.cs:20-33 | a valid message is appended at the end, stamped with the submission time, and the success text is set; an invalid one leaves the log unchanged and sets the error text; the old log is always a prefix of the new one; both branches redirect to Contact |
| `Mvc.MVCController.ViewMessages` | Controllers/MVCController.cs:36-39 | returns the whole log in submission order |
| `Mvc.SubmitTwice` | Controllers/MVCController.cs:20-39 | after two submissions the log holds exactly the valid ones, in order, each with its own timestamp |
| `App.AddJob` | client/src/App.tsx:35 | the list grows by one; every earlier job keeps its index; the new job is last |
| `App.UpdateJob` | client/src/App.tsx:44 | the length is kept; every index whose key equals the update's key holds the update; every other index is unchanged |
| `App.DeleteJob` | client/src/App.tsx:48-52 | every job left has an optional key other than the deleted one and came from the input; every job with another key is kept; the key may be absent at run time, and then every entry without a key goes |
| `App.AddJobThenFind` | client/src/App.tsx:35 | after appending, existing lookups are unchanged and the new job is found under a key no entry had |
| `App.UpdateJobThenFind` | client/src/App.tsx:44 | reading back the updated key yields the update if the key was present; other keys read as before |
| `App.UpdateJobAbsentIsIdentity` | client/src/App.tsx:44 | an update whose key no entry carries returns the list unchanged |
| `App.UpdateJobIdempotent` | client/src/App.tsx:44 | applying the same update twice equals applying it once |
| `App.DeleteJobConcat` | client/src/App.tsx:50 | deleting distributes over concatenation, so kept jobs keep their relative order |
| `App.DeleteJobSingle` | client/src/App.tsx:50 | a single entry is kept exactly when its key differs from the deleted one |
| `App.DeleteJobAbsentIsIdentity` | client/src/App.tsx:50 | deleting a key no entry carries returns the list unchanged |
| `App.DeleteJobIdempotent` | client/src/App.tsx:50 | deleting twice equals deleting once |
| `App.DeleteJobCounts` | client/src/App.tsx:50 | every occurrence of a job with another key survives and every occurrence with the deleted key goes |
| `App.DeleteJobThenFind` | client/src/App.tsx:50 | after a delete, no entry carries the deleted key |
| `JobListView.HandleUpdate` | client/src/components/JobList.tsx:12-15 | the emitted copy has status 'Updated Status' and the original's key and every other field |
| `JobListView.HandleDelete` | client/src/components/JobList.tsx:17-19 | forwards the job's optional key unchanged: the non-null assertion at line 31 is not checked at run time, so an entry without a key forwards an absent key |
| `JobListView.UpdateButtonChangesOneStatus` | client/src/components/JobList.tsx:13-14 | pressing Update on an entry whose key is unique, then reconciling, changes only that entry's status |
| `JobListView.DeleteButtonRemovesEntry` | client/src/components/JobList.tsx:17-31 | pressing Delete on any entry, keyed or not, then reconciling, removes that entry and every entry with the same key, and keeps every entry with another key |
| `JobListView.DeleteKeylessKeepsKeyed` | client/src/components/JobList.tsx:31 | deleting with an absent key keeps exactly the entries that have a key, in their order |
| `ContactFormState.Set` | client/src/ContactForm.tsx:35-38 | the spread update sets the named field and leaves the other two as they were |
| `ContactFormState.ContactForm.constructor` | client/src/ContactForm.tsx:22-29 | the fields start empty, nothing is touched, and neither banner is shown |
| `ContactFormState.ContactForm.HandleChange` | client/src/ContactForm.tsx:31-39 | only the named field changes; touched flags and banners are kept |
| `ContactFormState.ContactForm.HandleBlur` | client/src/ContactForm.tsx:41-44 | the named field becomes touched; other flags, fields and banners are kept |
| `ContactFormState.ContactForm.HandleSubmit` | client/src/ContactForm.tsx:46-69 | posts the current fields; on ok sets success, clears error, empties the fields and clears touched; on a non-ok status sets error and clears success, keeping fields and touched; on a thrown error clears success and keeps the error, fields and touched |
| `ContactFormState.InvalidIffTouchedAndBlank` | client/src/ContactForm.tsx:71-72 | a field is flagged invalid iff it is touched and holds only white space |
| `ContactFormState.UntouchedNeverInvalid` | client/src/ContactForm.tsx:71-72 | an untouched field is never flagged, whatever it holds |
| `ContactFormState.BlankAfterVisit` | client/src/ContactForm.tsx:31-44 | typing white space into one field of a fresh form and leaving it flags that field and no other |
| `ContactFormState.NothingFlaggedAfterSuccess` | client/src/ContactForm.tsx:56-60 | after a successful submission no field is flagged |
| `JobFormState.JobForm.constructor` | client/src/components/JobForm.tsx:10-14 | all five inputs start as the empty string |
| `JobFormState.JobForm.Draft` | client/src/components/JobForm.tsx:19-25 | the draft carries the five current input values, has no key, and always has notes present |
| `JobFormState.JobForm.SetCompanyName` | client/src/components/JobForm.tsx:46 | sets only the company name |
| `JobFormState.JobForm.SetJobTitle` | client/src/components/JobForm.tsx:55 | sets only the job title |
| `JobFormState.JobForm.SetStatus` | client/src/components/JobForm.tsx:64 | sets only the status |
| `JobFormState.JobForm.SetAppliedDate` | client/src/components/JobForm.tsx:73 | sets only the applied date |
| `JobFormState.JobForm.SetNotes` | client/src/components/JobForm.tsx:81 | sets only the notes |
| `JobFormState.JobForm.HandleSubmit` | client/src/components/JobForm.tsx:16-35 | emits the draft of the inputs as they were, appends exactly one call to the `onJobAdded` record, then leaves all five inputs empty |
| `JobFormState.FillAndCallHandlerTwice` | client/src/components/JobForm.tsx:16-35 | calling the submit handler on a filled form emits exactly the typed values with no key and notes as the empty string; calling the handler again right away emits an empty draft |
| `Reconcile.CreateKeepsMirror` | client/src/App.tsx:35 | if the list holds one entry per stored key, appending the created job keeps it so for the table with the new key |
| `Reconcile.UpdateKeepsMirror` | client/src/App.tsx:44 | an update keeps the list in one-to-one agreement with the unchanged set of keys, whatever the update's key |
| `Reconcile.DeleteKeepsMirror` | client/src/App.tsx:50 | after a delete, the list agrees one-to-one with the stored keys minus the deleted one, whether or not it was stored |

## Left out

- HTTP, fetch and JSON: the calls in `App.tsx` and the contact form's POST are not modelled.
  The list is rebuilt once the call resolves, and the contact form takes the outcome as an
  input. The code reconciles after any resolved fetch, whatever the status; for a create,
  only when the response body parses as JSON. A body that is not JSON, such as the page the
  exception handler sends for a database failure, makes `res.json()` reject, and then
  nothing is appended. HTTP status
  handling on the client is not modelled.
- `Reconcile.CreateKeepsMirror`: covers the Created answer only. On any other answer the
  client still appends any JSON body that came back, such as the 400 validation problem,
  and that case is not modelled. A body that is not JSON appends nothing.
- Entity Framework: change tracking, `SaveChangesAsync` and `EntityState.Modified` are not
  modelled. Update's rethrow of a concurrency exception when the row still exists
  (JobApplicationsController.cs:64) is concurrency and is not modelled.
  `ApplicationDbContext` is ORM wiring.
- `JobApi.JobApplicationsController.Create`: the explicit-key case is modelled as the
  database refusing it (`ServerError`), which is how SQL Server treats an identity column.
  Exhaustion of the 32-bit identity range is not modelled.
- `JobApi.JobApplicationsController.GetAll`: the row order is the database's and is left
  unspecified.
- Program.cs service registration, middleware, Swagger and routing are not modelled.
  Route-binding failures, such as a non-numeric `{id}`, are not modelled either.
- Model binding and the DataAnnotations engine are not modelled. `ModelState.IsValid` is
  the validity predicate, and `[EmailAddress]` is the `isEmail` parameter.
- `JobApplicationModel.ValidBounds`: lengths count Unicode scalar values. .NET counts UTF-16
  code units, so characters outside the Basic Multilingual Plane count once here and twice
  there.
- `Common.TrimEmptyIffBlank`: white space is the set on which JavaScript `trim` and .NET
  `char.IsWhiteSpace` agree. U+0085 (.NET only) and U+FEFF (JavaScript only) are not
  modelled.
- `Mvc.MVCController.SubmitMessage`: the static list is shared by concurrent requests; here
  it is a single-threaded field. The method stores a stamped copy of the message, so the
  aliasing between the caller's object and the logged one is not captured. TempData's
  one-request lifetime is reduced to a field.
- `ContactFormState.ContactForm.HandleSubmit`: React batches the state setters. Only the
  state after the handler finishes is modelled, and the `console.error` call is left out.
- `ContactFormState.ContactForm.HandleSubmit`: the request and its outcome are one step.
  In the code the handler awaits the POST (ContactForm.tsx:50-54), and other handlers run
  meanwhile. Two effects of that pause are not modelled. First, the Submit button is never
  disabled, so a second submit during the wait posts the same message again. Second, on
  success the fields are reset to empty values rather than updated from the latest state,
  so text typed during the wait, which was never sent, is cleared as well.
- `JobFormState.JobForm.HandleSubmit`: `onJobAdded` is the page's callback. Its calls are
  recorded in a ghost trace and are not run.
- Datatable, Navbar, Nightmode, main.tsx, vite.config.ts and the unused EmailModel have no
  logic to model. Neither has the JSX markup, apart from the constraint attributes below.
- `JobFormState.JobForm.HandleSubmit`, `ContactFormState.ContactForm.HandleSubmit`: the
  browser's constraint validation is not modelled. The `required` attributes
  (JobForm.tsx:47, 56, 65, 74; ContactForm.tsx:109, 123, 136) and `type="email"`
  (ContactForm.tsx:119) stop the submit event before the handler runs when an input is empty
  or not an email address. The methods model the handler itself, as if called directly.
- `App.AddJob`, `App.UpdateJob`, `App.DeleteJob`: each handler rebuilds from the `jobs` its
  closure captured when the request started, not from the latest list. If two calls
  overlap, the later rebuild discards the earlier one; an add resolved in between, for
  one, disappears from the client. The model and the `Reconcile` lemmas assume each call
  resolves before the next one starts.
- `JobApi.JobApplicationsController.Create`: the identity column is modelled as a counter
  that grows by exactly one per insert. SQL Server only promises unique, increasing values
  and may skip some. The exact key 1 in `JobApi.CreateThenGet` follows from this choice;
  `JobApi.CreateThenRead` and the other members rely only on the new key being unused.
