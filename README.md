# Object list front-end: state, rules and handlers in Dafny

This project models the parts of a small CRUD front-end ("objects" with a title, a
description and an image) that hold state or follow exact rules:

- the object-list hook (`hooks/use-objects.ts`): the list, `loading` and `error`, the full
  refresh `fetchObjects`, the prepend `addObject`, the filter `removeObject`, and the two
  realtime events that drive them;
- the create-form schema (`lib/validations.ts`): three ordered length rules per field;
- relative-time bucketing (`lib/utils.ts`, `formatRelativeTime`), with the elapsed
  milliseconds `diffMs` passed in instead of read from the clock;
- the image picker (`components/image-upload.tsx`): MIME allow-list, 10 MiB ceiling,
  first-file-only selection, drag flags, preview removal;
- the create dialog (`components/create-object-dialog.tsx`): schema gate, missing-file
  guard, the create call and its success and failure paths, button rules;
- the delete confirmation (`components/delete-confirmation-dialog.tsx`): `isDeleting`
  held around the awaited callback, close only on success, button rules;
- the realtime connection slot (`lib/socket.ts`): lazy `initSocket`, `getSocket`,
  `disconnectSocket`.

One module per source file (`ObjectsHook`, `Validations`, `Utils`, `ImageUploadView`,
`CreateDialog`, `DeleteDialog`, `SocketClient`) plus `Types` for the shared values.
Pure code is functions and lemmas; a component or hook whose handlers update state is a
class whose methods say, in `ensures`, the whole new state in terms of the old one.
Callbacks and notifications (the create API call, `onImageSelect`, `onSuccess`,
`onOpenChange`, toasts) are recorded in sequence or counter fields of the class that makes
them, so "called exactly once with these arguments" and "not called" are statements about
those fields. Every `await` is split into a `Begin…` method (up to the suspension point)
and a `Complete…` method (the continuation), with a method composing the two; the state at
the suspension point (`loading`, `uploading`, `isDeleting` set) is the `Begin…` method's
postcondition. How the awaited call settles is a parameter (`Settled<T>`: resolved with a
value, or rejected with an `Error` carrying a message or with some other value).

`addObject` (hooks/use-objects.ts:30-32) prepends unconditionally, so a repeated
`objectCreated` delivery leaves two entries with that id; `AddObject` and `AddCountsId`
reproduce that.

The schema runs every rule of a field (each failure is an issue, in rule order), and the
form displays a field's first issue: `Issues` models the former and `FirstIssue` the latter,
so an empty title reports both the presence and the 3-character issue and shows the first.

## Model

| member | source | states |
|---|---|---|
| `ObjectsHook.AddObject` | hooks/use-objects.ts:30-32 | the new list is the record followed by the whole old list in order, one longer |
| `ObjectsHook.RemoveObject` | hooks/use-objects.ts:34-36 | an entry is in the result iff it was in the list and its id differs; never longer |
| `ObjectsHook.AddCountsId` | hooks/use-objects.ts:30-32 | adding never de-duplicates: the count of entries with the record's id grows by one per add, so a duplicate delivery leaves two |
| `ObjectsHook.RemoveDistributes` | hooks/use-objects.ts:34-36 | removal distributes over concatenation, so the kept entries stay in their relative order |
| `ObjectsHook.RemoveAbsent` | hooks/use-objects.ts:34-36 | removing an id that no entry carries leaves the list unchanged |
| `ObjectsHook.RemoveIdempotent` | hooks/use-objects.ts:34-36 | after removal no entry carries the id, and removing twice equals removing once |
| `ObjectsHook.RemoveAfterAdd` | hooks/use-objects.ts:30-36 | removing the id of a record just added gives the old list with that id removed |
| `ObjectsHook.ApplyEvent` | hooks/use-objects.ts:45-55 | a creation event prepends its record to the whole old list; a deletion event keeps exactly the entries whose id differs, never lengthening the list |
| `ObjectsHook.DuplicateDeleteScenario` | hooks/use-objects.ts:53-55 | from [A, B] a deletion event for B's id gives [A], and a repeated one keeps [A] |
| `ObjectsHook.ObjectsState.constructor` | hooks/use-objects.ts:9-11 | the initial state is an empty list, loading, no error |
| `ObjectsHook.ObjectsState.BeginFetch` | hooks/use-objects.ts:16-18 | before the request, loading is set and the error cleared; the list is untouched |
| `ObjectsHook.ObjectsState.CompleteFetch` | hooks/use-objects.ts:19-27 | on success the list is replaced wholesale by the fetched one; on failure the list is kept and the error is the Error's message or "Erreur lors du chargement"; loading is cleared either way |
| `ObjectsHook.ObjectsState.FetchObjects` | hooks/use-objects.ts:15-28 | the whole refresh: final list, error and a cleared loading flag for both outcomes |
| `ObjectsHook.ObjectsState.Add` | hooks/use-objects.ts:30-32 | the list becomes `AddObject` of the old list; nothing else changes |
| `ObjectsHook.ObjectsState.Remove` | hooks/use-objects.ts:34-36 | the list becomes `RemoveObject` of the old list; nothing else changes |
| `ObjectsHook.ObjectsState.OnSocketEvent` | hooks/use-objects.ts:45-55 | a creation event acts as addObject and raises the "Nouvel objet" toast; a deletion event acts as removeObject; loading and error are untouched |
| `Validations.Issues` | lib/validations.ts:4-13 | a field reports at most one issue per rule |
| `Validations.FirstIssue` | lib/validations.ts:4-13 | a field shows no message iff it violates none of its rules; otherwise it shows the message of the first rule it violates, in declaration order |
| `Validations.Validate` | lib/validations.ts:3-14 | the input is accepted, unchanged, iff neither field violates any of its rules; a rejection carries each field's displayed message and at least one of them is present (with `ValidIff` for the length bounds and `FieldsIndependent`) |
| `Validations.NoIssuesIff` | lib/validations.ts:4-13 | a field has no issue iff it violates none of its rules |
| `Validations.FirstIssueIsFirstViolation` | lib/validations.ts:4-13 | for every index whose rule is violated with no earlier rule violated, the issues are non-empty and headed by that rule's message |
| `Validations.TitleMessageByLength` | lib/validations.ts:4-8 | the title shows "Le titre est requis" when empty, the 3-character message at length 1-2, the 100-character message above 100, and nothing at 3..100 |
| `Validations.DescriptionMessageByLength` | lib/validations.ts:9-13 | the description shows the presence message when empty, the 10-character message at length 1-9, the 500-character message above 500, and nothing at 10..500 |
| `Validations.EmptyTitleIssues` | lib/validations.ts:6-7 | an empty title fails both minimum rules, presence first |
| `Validations.ValidIff` | lib/validations.ts:3-14 | an input passes iff title length is in [3, 100] and description length in [10, 500], and then it passes unchanged |
| `Validations.FieldsIndependent` | lib/validations.ts:4-13 | each field's message depends on that field alone |
| `Validations.SunsetExampleIsValid` | lib/validations.ts:3-14 | a 6-character title with a 38-character description passes |
| `Utils.WeeksFromDays` | lib/utils.ts:14-21 | flooring days then weeks equals flooring by seven days |
| `Utils.Bucket` | lib/utils.ts:12-25 | the if-chain over floored minutes, hours and days picks exactly the phrase of the interval diffMs lies in: below 1 min (including negative), below 1 h, below 1 day, below 7 days, below 30 days, else the absolute date |
| `Utils.BucketBounds` | lib/utils.ts:16-23 | printed counts are 1..59 minutes, 1..23 hours, 1..6 days, 1..4 weeks; the absolute date is taken iff at least 30 days have passed |
| `Utils.Decimal` | lib/utils.ts:17-22 | an interpolated count prints as a non-empty string of decimal digits, with no leading zero |
| `Utils.DecimalRoundTrip` | lib/utils.ts:17-22 | reading a printed count back gives the count |
| `Utils.DecimalInjective` | lib/utils.ts:17-22 | two counts print alike only if equal |
| `Utils.Phrase` | lib/utils.ts:16-25 | no relative phrase exactly for the absolute-date bucket; "à l'instant" for just now; otherwise "il y a ", the count's digits and the unit letter m, h, j or w (with `PhraseInjective`: distinct buckets print differently) |
| `Utils.FormatRelativeTime` | lib/utils.ts:9-26 | no relative phrase iff diffMs is at least 30 days; "à l'instant" below one minute, including a date in the future; every other relative phrase starts with "il y a " |
| `Utils.PhraseInjective` | lib/utils.ts:16-22 | distinct buckets never print the same phrase |
| `Utils.FormatByInterval` | lib/utils.ts:11-25 | the exact phrase for each interval of diffMs ("à l'instant", "il y a {m}m", "{h}h", "{d}j", "{w}w"), and no relative phrase iff diffMs is at least 30 days |
| `Utils.SamePhraseSameBucket` | lib/utils.ts:16-22 | two differences print the same relative phrase only if they fall in the same bucket with the same count |
| `ImageUploadView.Accepted` | components/image-upload.tsx:19-20 | a file passes iff its type is JPEG, PNG or WebP and its size is at most 10 MiB |
| `ImageUploadView.InitialPreview` | components/image-upload.tsx:15 | there is an initial preview iff the prop is present and non-empty, and then it is the prop's URL |
| `ImageUploadView.AcceptedBoundaries` | components/image-upload.tsx:19-20 | the 10 MiB ceiling is inclusive; a 12 MiB PNG and a GIF are refused, a 2 MiB JPEG is accepted |
| `ImageUploadView.ImageUpload.constructor` | components/image-upload.tsx:14-15 | not dragging; the preview is the `preview` prop, or none when absent or empty |
| `ImageUploadView.ImageUpload.HandleFileSelect` | components/image-upload.tsx:18-26 | an accepted file is passed to onImageSelect exactly once and gets a new preview URL; a rejected file changes nothing |
| `ImageUploadView.ImageUpload.HandleDragOver` | components/image-upload.tsx:28-31 | sets the drag flag and nothing else |
| `ImageUploadView.ImageUpload.HandleDragLeave` | components/image-upload.tsx:33-35 | clears the drag flag and nothing else |
| `ImageUploadView.ImageUpload.HandleDrop` | components/image-upload.tsx:37-44 | clears the drag flag; an empty drop does nothing else; otherwise only the first file is considered: if accepted it reaches onImageSelect once and gets a new object URL as preview, if refused nothing else changes |
| `ImageUploadView.ImageUpload.HandleInputChange` | components/image-upload.tsx:46-51 | absent or empty file lists do nothing; otherwise only the first file is considered: if accepted it reaches onImageSelect once and gets a new object URL as preview, if refused nothing else changes |
| `ImageUploadView.ImageUpload.HandleRemoveImage` | components/image-upload.tsx:53-58 | the preview and the input value are cleared; onImageSelect is not called |
| `CreateDialog.SubmitDisabled` | components/create-object-dialog.tsx:145 | submit is locked with no selected file and whenever cancel is locked (with `ButtonRules` for the exact condition) |
| `CreateDialog.CancelDisabled` | components/create-object-dialog.tsx:139 | cancel is locked while uploading, and enabled only when not submitting |
| `CreateDialog.ButtonRules` | components/create-object-dialog.tsx:139-145 | submit is enabled iff not submitting, not uploading and a file is selected; cancel is disabled iff submitting or uploading, and then submit is disabled too |
| `CreateDialog.CreateObjectDialog.constructor` | components/create-object-dialog.tsx:28-39 | closed, nothing selected, not uploading, empty form, no field messages and no calls; the embedded picker starts with no preview, no drag, an empty input, no selections and no object URLs made |
| `CreateDialog.CreateObjectDialog.SetOpen` | components/create-object-dialog.tsx:80 | the dialog's open flag follows onOpenChange and nothing else changes |
| `CreateDialog.CreateObjectDialog.Edit` | components/create-object-dialog.tsx:103-119 | the registered fields take the typed values |
| `CreateDialog.CreateObjectDialog.PickFile` | components/create-object-dialog.tsx:131 | an accepted picked file becomes the selected file and the picker's preview is a new object URL; a refused one changes neither; the picker's drag flag and input value and the dialog's other state are untouched |
| `CreateDialog.CreateObjectDialog.RemovePreview` | components/create-object-dialog.tsx:131 | removing the picker's preview clears its preview and input value, keeps its drag flag, URL count and recorded selections, and leaves the dialog's selected file as it was |
| `CreateDialog.CreateObjectDialog.BeginSubmit` | components/create-object-dialog.tsx:41-55 | with no selected file: an error toast and nothing else; otherwise uploading is set and the create API is called once with title, description and the file |
| `CreateDialog.CreateObjectDialog.CompleteSubmit` | components/create-object-dialog.tsx:57-76 | on success a toast, the dialog closes, the form resets, the selection clears and onSuccess runs once; on failure an error toast with the Error's message or "Erreur lors de la création" and nothing else changes; uploading is released either way |
| `CreateDialog.CreateObjectDialog.OnSubmit` | components/create-object-dialog.tsx:41-77 | the whole submission for each of no file (error toast, nothing else changes), success (create call, toast, closed, reset, field messages cleared, onSuccess once) and failure (create call, error toast, form, messages and selection kept); uploading is released whenever the call was made |
| `CreateDialog.CreateObjectDialog.HandleSubmit` | components/create-object-dialog.tsx:95 | an input the schema rejects records the field messages and changes nothing else; an accepted one clears the field messages and runs onSubmit with the form's values, with each of onSubmit's three outcomes stated |
| `DeleteDialog.ButtonsDisabled` | components/delete-confirmation-dialog.tsx:59-69 | both buttons are disabled exactly when deleting or loading |
| `DeleteDialog.DeleteConfirmationDialog.constructor` | components/delete-confirmation-dialog.tsx:29-31 | not deleting, no calls made; isLoading is the prop |
| `DeleteDialog.DeleteConfirmationDialog.BeginConfirm` | components/delete-confirmation-dialog.tsx:35-36 | isDeleting is set, both buttons are disabled, then onConfirm is called once |
| `DeleteDialog.DeleteConfirmationDialog.CompleteConfirm` | components/delete-confirmation-dialog.tsx:37-40 | on success onOpenChange(false) is called once; on failure it is not and the rejection propagates; isDeleting is cleared either way |
| `DeleteDialog.DeleteConfirmationDialog.HandleConfirm` | components/delete-confirmation-dialog.tsx:33-41 | the whole confirmation: one onConfirm call, close only on success, failure propagated, buttons disabled afterwards iff isLoading |
| `DeleteDialog.DeleteConfirmationDialog.Cancel` | components/delete-confirmation-dialog.tsx:61 | cancel asks to close and leaves isDeleting alone |
| `SocketClient.SocketModule.constructor` | lib/socket.ts:5 | the slot starts empty |
| `SocketClient.SocketModule.InitSocket` | lib/socket.ts:7-33 | with a stored handle, that same handle is returned and nothing is created; otherwise a new connected handle is created, stored and returned |
| `SocketClient.SocketModule.GetSocket` | lib/socket.ts:35-37 | returns the slot's handle or null, creating nothing |
| `SocketClient.SocketModule.DisconnectSocket` | lib/socket.ts:39-44 | a stored handle is disconnected and the slot emptied; with an empty slot nothing happens |

`SocketClient.LifecycleScenario`, `ImageUploadView.OversizedDropScenario` and
`CreateDialog.RemovedPreviewStillSubmits` are client methods whose assertions follow
from the contracts above: repeated `initSocket` shares one handle and a re-initialisation
after `disconnectSocket` yields a fresh handle distinct from the disconnected one; a
dropped 12 MiB PNG reaches neither the parent nor the preview; after removing the preview
the dialog still holds the file and its submit button stays enabled.

## Left out

- HTTP calls (`lib/api.ts`): represented only by how they settle, passed in as a parameter.
- Toasts (`hooks/use-toast.ts`): recorded as values in a sequence; the rendering library is not modelled.
- `hooks/use-socket.ts`: effect plumbing that repeats `initSocket`'s existing-handle check.
- Socket library behaviour: reconnection and back-off options, transports, the connect,
  disconnect and error logging listeners, and `on`/`off` listener registration; the
  listeners the hook registers are modelled as `OnSocketEvent`.
- The hook's mount effect that calls `fetchObjects`, and the page's wiring of `onSuccess`
  to `fetchObjects`: composition of modelled operations, not modelled separately.
- Asynchronous interleaving: the Begin/Complete split allows other updates between the
  two halves but nothing is promised about them (a late response after unmount, a socket
  event racing a refresh); the composed methods assume no update lands in between.
- `Utils.Bucket`: `diffMs` is an integer parameter; reading the clock, parsing the date
  (including an invalid date giving NaN) and floating-point rounding of `diffMs / 60000`
  are not modelled (Dafny's integer division rounds down exactly).
- `Utils.FormatRelativeTime`: the absolute-date branch (`toLocaleDateString`) gives `None`,
  since locale formatting is library code; `cn` and `formatDate` are not modelled.
- Validations: lengths are sequence lengths, not UTF-16 code units; the form library's
  internals (`isSubmitting`, which is a parameter of the button rules, error rendering)
  are not modelled beyond recording the field messages.
- `CreateDialog.CreateObjectDialog.Edit`: the field messages stay as they were while the user
  types; the form library's re-validation on change after a first submit, which would update
  them, is not modelled.
- Object URLs: a preview is an opaque token (`ObjectUrl(serial)`); URL lifetime and
  revocation are not modelled.
- The picker inside the create dialog is one object for the dialog's lifetime; its
  remounting when the dialog content unmounts is not modelled.
- Presentation (`app/page.tsx`, `app/layout.tsx`, the object card, list and detail pages).
