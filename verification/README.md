# Invoice management: a Dafny model of the client-side store and form rules

This project models the logic of a single-page application that manages
projects and their invoices, including a recurring-email schedule per invoice.
What it models:

- the **domain records**: `Project`, `Invoice`, `ScheduledEmail`, and the closed
  enumerations `InvoiceStatus` and `EmailFrequency`, whose runtime values are
  their own names (module `Domain`);
- the **application store**: two collections, `projects` and `invoices`, and the
  eight operations that reconcile them with the REST backend (module `Store`).
  Each operation is a pure transition `(State, Outcome) -> State`, where the
  settled network call is a parameter: `Ok(body)` for a 2xx response and `Err`
  for a transport failure or a non-2xx status. The store only logs an `Err`, so
  an `Err` leaves the state unchanged;
- the **invoice table filter**: a day, a project with the `"all"` sentinel, a
  case-insensitive search over the project name and the invoice id, and the
  "No data found" caption (module `InvoiceList`);
- the **forms**: the validation schema, default values and submitted record of
  "Schedule Email" (`ScheduleEmailForm`), "Create/Edit Invoice" (`InvoiceForm`)
  and "Create/Edit Project" (`ProjectForm`). A form only calls the store when its
  schema accepts the values, so every submit function returns an `Option`.
  `None` means no call is made.

`Sequences` holds the array operations the store and the list are built from:
`filter`, the `map` that replaces by id, and `find` (as the index of its first match). `Text` holds the
lower-casing and `includes` of the search.

Properties proved include the following:
- fetches replace a collection wholesale;
- adds append the server's record;
- updates replace exactly the entries with the submitted id, and are idempotent;
- of two updates to the same invoice, the last one wins;
- deletes are idempotent, and deleting an absent id changes nothing;
- `scheduleEmail` of an absent id issues no request;
- edits, deletes and schedules keep ids unique, and an add keeps them unique iff
  the new id is fresh;
- the list filter is an order-preserving selection. Each filter component gets
  its own characterization, and the caption shows iff nothing passes;
- submitting an untouched edit form gives back the original record;
- submitting a form and then running the store operation has the intended
  end-to-end effect.

The type leaves a schedule's `nextSendDate` optional. The schema requires it
only when the frequency is Custom and does not forbid it otherwise;
`ScheduleEmailForm.SendDateOptionalUnlessCustom` proves that for any other
frequency the schema does not depend on the date at all.

## Model

| member | source | states |
|---|---|---|
| Domain.StatusValues | src/types/index.ts:1-5 | the invoice status enumeration has exactly three values (Pending, Paid, Cancelled), with distinct names, and parsing a value's name returns that value |
| Domain.FrequencyValues | src/types/index.ts:7-12 | the email frequency enumeration has exactly four values (Daily, Weekly, Monthly, Custom), with distinct names, and parsing a value's name returns that value |
| Domain.ParseStatus | src/components/Invoice/EditInvoice/index.tsx:20 | the schema's `oneOf` on status accepts a string exactly when it is some status's name, and yields that status |
| Domain.ParseFrequency | src/components/Invoice/ScheduleEmail/index.tsx:22 | the schema's `oneOf` on frequency accepts a string exactly when it is some frequency's name, and yields that frequency |
| Sequences.Filter | src/store/useStore.tsx:114 | `filter` returns an order-preserving subsequence holding only passing entries, each passing value exactly as often as in the input |
| Sequences.ReplaceByKey | src/store/useStore.tsx:84-86 | the key-matching `map` keeps the length; entries whose key equals the new record's key become the new record, and all others are unchanged |
| Sequences.FirstIndex | src/store/useStore.tsx:123 | `find` fails iff no entry passes; otherwise it returns a passing entry with no passing entry before it |
| Store.FetchProjects | src/store/useStore.tsx:23-32 | a successful fetch sets `projects` to exactly the response; a failed one changes nothing; `invoices` is never touched |
| Store.FetchInvoices | src/store/useStore.tsx:34-43 | a successful fetch sets `invoices` to exactly the response; a failed one changes nothing; `projects` is never touched |
| Store.AddProject | src/store/useStore.tsx:45-58 | success appends the server-returned project after the unchanged prior entries; failure changes nothing; `invoices` is untouched |
| Store.AddInvoice | src/store/useStore.tsx:60-73 | success appends the server-returned invoice after the unchanged prior entries; failure changes nothing; `projects` is untouched |
| Store.UpdateInvoice | src/store/useStore.tsx:75-91 | success keeps the length, every entry with the submitted id becomes the submitted record (not the response), and every other entry is unchanged; failure changes nothing |
| Store.UpdateProject | src/store/useStore.tsx:92-108 | success keeps the length, every entry with the submitted id becomes the submitted record, and every other entry is unchanged; failure changes nothing |
| Store.DeleteInvoice | src/store/useStore.tsx:109-119 | success leaves no entry with the id and keeps every other entry, in order and with its multiplicity; failure changes nothing |
| Store.ScheduleEmailRequest | src/store/useStore.tsx:121-129 | no request is issued iff no invoice has the id; otherwise the request is the first matching invoice with only `scheduledEmail` replaced |
| Store.ScheduleEmail | src/store/useStore.tsx:121-133 | an absent id leaves the state unchanged; a present id delegates to `updateInvoice` with the first match's merged record, so every entry with that id (duplicates included) becomes that record; a failed PUT changes nothing, and `projects` is never touched |
| Store.UpdateInvoiceIdempotent | src/store/useStore.tsx:83-87 | applying the same successful invoice update twice gives the state that one application gives |
| Store.UpdateProjectIdempotent | src/store/useStore.tsx:100-104 | applying the same successful project update twice gives the state that one application gives |
| Store.UpdateInvoiceLastWins | src/store/useStore.tsx:83-87 | two successful updates of the same invoice, resolved in issue order, leave the second one's record |
| Store.DeleteInvoiceIdempotent | src/store/useStore.tsx:113-115 | deleting the same id twice gives the state that one deletion gives |
| Store.DeleteAbsentInvoice | src/store/useStore.tsx:113-115 | deleting an id that no invoice has leaves the state unchanged |
| Store.ScheduleEmailOnValidStore | src/store/useStore.tsx:123-126 | with unique invoice ids, scheduling for a present invoice changes exactly that entry, and in it only `scheduledEmail` |
| Store.EditsPreserveValid | src/store/useStore.tsx:75-133 | updates, deletions and email scheduling, successful or not, never introduce a duplicate id |
| Store.FetchPreservesValid | src/store/useStore.tsx:23-43 | a fetch whose response has unique ids leaves both collections with unique ids |
| Store.FetchValidOnlyIfResponseDistinct | src/store/useStore.tsx:23-43 | conversely, a successful fetch that leaves a collection with unique ids was given a response with unique ids |
| Store.InitialValid | src/store/useStore.tsx:20-21 | the store starts with both collections empty, hence free of duplicate ids |
| Store.AddInvoiceValidIff | src/store/useStore.tsx:69 | appending a created invoice keeps ids unique iff its server-assigned id is not already present |
| Store.AddProjectValidIff | src/store/useStore.tsx:54 | appending a created project keeps ids unique iff its id is not already present |
| Text.Lower | src/components/Invoice/InvoiceList/index.tsx:29-30 | lower-casing keeps the length and lower-cases each character in place |
| Text.Includes | src/components/Invoice/InvoiceList/index.tsx:28-30 | `includes` holds iff the needle occurs at some position of the haystack |
| InvoiceList.ProjectName | src/components/Invoice/InvoiceList/index.tsx:24 | the searched name is that of the first project with the invoice's project id, or empty when none has it |
| InvoiceList.Filtered | src/components/Invoice/InvoiceList/index.tsx:23-33 | the table shows an order-preserving subsequence of the invoices that holds only passing invoices, each passing invoice with its full multiplicity |
| InvoiceList.NoFilterShowsAll | src/components/Invoice/InvoiceList/index.tsx:26-31 | with no day, no project and no search, every invoice is shown in store order |
| InvoiceList.AllProjectsIsNoProjectFilter | src/components/Invoice/InvoiceList/index.tsx:27 | choosing "all" filters exactly as choosing no project, whatever `projectId` the invoices carry |
| InvoiceList.ProjectFilterKeepsThatProject | src/components/Invoice/InvoiceList/index.tsx:27 | any other chosen project shows exactly the invoices with that `projectId` |
| InvoiceList.DateFilterKeepsThatDay | src/components/Invoice/InvoiceList/index.tsx:26 | a chosen day shows exactly the invoices whose day key equals the chosen day's key |
| InvoiceList.SearchKeepsMatches | src/components/Invoice/InvoiceList/index.tsx:28-30 | a non-empty search shows an invoice iff the lower-cased search occurs in the lower-cased project name or the lower-cased invoice id |
| InvoiceList.UnknownProjectMatchesOnlyById | src/components/Invoice/InvoiceList/index.tsx:24-30 | an invoice whose project is unknown is searched with the empty name, so only an id match keeps it |
| InvoiceList.SearchIgnoresCase | src/components/Invoice/InvoiceList/index.tsx:28-30 | two searches that agree after lower-casing show the same table |
| InvoiceList.NoDataCaptionIff | src/components/Invoice/InvoiceList/index.tsx:66 | the "No data found" caption shows iff no invoice of the store passes the filter |
| ScheduleEmailForm.Submit | src/components/Invoice/ScheduleEmail/index.tsx:55-62 | the call is made iff the schema accepts; it carries the dialog's invoice id unchanged and copies every field, with `nextSendDate` absent exactly when the form left it empty |
| ScheduleEmailForm.DefaultsAreMonthlyAndIncomplete | src/components/Invoice/ScheduleEmail/index.tsx:17-29 | the dialog of any invoice first opens on Monthly, and submitting it untouched at that first opening is rejected (its required fields are blank) |
| ScheduleEmailForm.SubmittedSettingsAreWellFormed | src/components/Invoice/ScheduleEmail/index.tsx:17-29 | submitted settings have an email-format recipient, a non-empty subject and body, and a send date whenever the frequency is Custom |
| ScheduleEmailForm.SendDateOptionalUnlessCustom | src/components/Invoice/ScheduleEmail/index.tsx:23-27 | for any frequency other than Custom, the schema's verdict does not depend on the send date (not required, not forbidden) |
| ScheduleEmailForm.CustomRequiresSendDate | src/components/Invoice/ScheduleEmail/index.tsx:23-27 | in the dialog of any invoice, with Custom chosen and no send date, the form is rejected |
| ScheduleEmailForm.SubmitSchedulesThatInvoice | src/components/Invoice/ScheduleEmail/index.tsx:55-62 | with unique invoice ids, a valid submission for a listed invoice followed by a successful PUT gives that invoice, and only it, the submitted schedule |
| InvoiceForm.EditDefaults | src/components/Invoice/EditInvoice/index.tsx:36-41 | the edit form first opens on the invoice's own project id, amount, date and status |
| InvoiceForm.EditSubmit | src/components/Invoice/EditInvoice/index.tsx:51-54 | an edit is submitted iff the schema accepts (non-empty project, positive amount, a date, a known status); the record keeps the invoice's id and `scheduledEmail`, and only the four form fields change |
| InvoiceForm.CreateDefaults | src/components/Invoice/CreateInvoice/index.tsx:31-36 | the create form opens with no project, amount 0, the date at which it was mounted and status Pending |
| InvoiceForm.CreateSubmit | src/components/Invoice/CreateInvoice/index.tsx:43-46 | a new invoice is submitted iff the schema accepts; it carries the form's fields, no id and no schedule |
| InvoiceForm.EditUntouchedRoundTrip | src/components/Invoice/EditInvoice/index.tsx:36-52 | submitting the edit form untouched at its first opening gives back the invoice itself when it passes the schema, and nothing otherwise |
| InvoiceForm.CreateDefaultsNeedProjectAndAmount | src/components/Invoice/CreateInvoice/index.tsx:15-36 | the untouched create form is rejected; once a project and an amount are set, it is accepted iff the project is non-empty and the amount is positive |
| InvoiceForm.EditReplacesThatInvoice | src/components/Invoice/EditInvoice/index.tsx:51-54 | with unique ids, a valid edit followed by a successful PUT replaces exactly that entry, keeping its id and schedule |
| InvoiceForm.CreateAppendsInvoice | src/components/Invoice/CreateInvoice/index.tsx:43-46 | when the server stores the submitted invoice under a new id, the store gains that invoice, with the form's fields, at the end |
| ProjectForm.EditDefaults | src/components/Project/EditProject/index.tsx:33-36 | the edit form first opens on the project's name and description, with a blank description when the project has none |
| ProjectForm.EditSubmit | src/components/Project/EditProject/index.tsx:46-49 | an edit is submitted iff name and description are non-empty; the record keeps the project's id and `createdAt` and changes only name and description |
| ProjectForm.CreateSubmit | src/components/Project/CreateProject/index.tsx:35-42 | a project is submitted iff name and description are non-empty; it carries the generated id, the submission time, and the form's name and description |
| ProjectForm.EditUntouchedRoundTrip | src/components/Project/EditProject/index.tsx:33-47 | submitting the edit form untouched at its first opening gives back the project itself when it has a name and a non-empty description, and nothing otherwise |
| ProjectForm.CreateIgnoresFormId | src/components/Project/CreateProject/index.tsx:14-40 | the optional id field of the create form has no effect: the generated id overrides it |
| ProjectForm.EditReplacesThatProject | src/components/Project/EditProject/index.tsx:46-49 | with unique ids, a valid edit followed by a successful PUT replaces exactly that entry, keeping its id and creation time |
| ProjectForm.CreateAppendsProject | src/components/Project/CreateProject/index.tsx:35-40 | when the server echoes the created project and the generated id is new, the store gains it at the end and its ids stay unique |

## Left out

- HTTP, JSON encoding and the `http://localhost:3001` endpoints. Each call is reduced to its settled `Outcome` parameter, and a failure's console log is not modelled.
- Interleaving of overlapping asynchronous calls, where the last response to land wins. Operations are modelled one at a time, in resolution order.
- The store's subscription mechanics, React rendering and dialog open/close state. They are UI glue.
- Form values are modelled as of a dialog's first opening. The form library reads `defaultValues` once, at mount, and a `reset()` restores those cached values. So after a successful edit, closing and reopening the Edit Invoice or Edit Project dialog shows the pre-edit values, and submitting them untouched reverts the edit. The Schedule Email dialog is not reset after a submit, so it reopens on the last schedule rather than on its defaults. The create-invoice form's reset restores the date from when the form was mounted, not the current date. `InvoiceForm.EditDefaults`, `InvoiceForm.EditUntouchedRoundTrip`, `ProjectForm.EditDefaults`, `ProjectForm.EditUntouchedRoundTrip` and `ScheduleEmailForm.DefaultsAreMonthlyAndIncomplete` therefore describe only the first opening after mount.
- `Domain.Timestamp`: dates are integers (milliseconds). Invalid `Date` objects and JSON date serialization are not modelled.
- `InvoiceList.DateFilterKeepsThatDay`: the `yyyy-MM-dd` day key (date-fns formatting in the local time zone) is a function parameter and is not interpreted.
- `Text.Lower`: lower-cases ASCII letters only. Unicode `toLowerCase` is not modelled.
- `ScheduleEmailForm.Submit`: the email-format rule is a predicate parameter. The validation library's email pattern is not modelled.
- `InvoiceForm.EditSubmit`: amounts are exact reals and only the `> 0` rule is kept. Floating point, `parseFloat` of the input, NaN and the two-decimal display are not modelled.
- `ProjectForm.CreateSubmit`: the generated id and the submission time are parameters. The id generator's randomness and the clock are outside the model.
- A blank and an undefined text field are both `""`. The schema's `required` rejects both alike.
- The round-trip "add, then fetch returns what was added" depends on the backend's behaviour. The backend is not part of this model.
- Deleting an invoice from its confirmation dialog, the project table, the header, routing and pages only forward a call or render. They are not part of this model.
