# SickleSense detection wizard, modelled in Dafny

This project models the client-side detection workflow of the SickleSense website. The
website screens microscopy images of red blood cells for sickle-shaped cells. The
workflow has four parts:

- **Patient information form** (`patient_info_form.dfy`, module `PatientInfoForm`). A
  nine-field record is edited one field at a time. The form reports whether its four
  required fields (full name, age, gender, phone) are filled. The record is a `datatype`;
  the component is a class whose handlers update the record in place.
- **Image uploader** (`image_uploader.dfy`, module `ImageUploader`). A selected or dropped
  batch of files is admitted whole or refused whole. Files must have an `image/` MIME type
  and be at most 5 MiB. Files can be removed by index (JavaScript `splice`, negative
  indexes included). A simulated upload steps a progress counter by 5 up to 100. The
  component is a class with the file list, the flags and the counter as fields.
- **Detection page** (`detection_page.dfy`, module `DetectionPage`). Three tabs
  (patient-info, upload-images, review) are gated by the completion flags the two
  components report. The submit handler sends one analysis request per image, in order.
  It stores the results under the `predictionResults` key only when every request
  succeeds, and then navigates to the results page. The page is a class with its five
  state fields. The submission is a `while` loop proved against `CollectResults`.
- **Results page** (`detection_results.dfy`, module `DetectionResults`). It loads the
  stored list (empty when nothing is stored). From it, it derives the total, the number
  of results containing "Detected" and containing "No", the overall detection flag, the
  caption of each image and the fixed confidence score of 87. All of these are functions.

`client_storage.dfy` models `localStorage` as a map from keys to result lists.
`end_to_end.dfy` links what the submit handler stores to what the results page shows. It
also contains the example runs of the workflow: a successful one and two refused ones.

External effects are replaced as follows:

- The analysis endpoint (`POST http://localhost:8001/predict`) is a parameter: one
  `Option<string>` per image. `Some(r)` is an ok response whose `result` is `r`. `None` is
  a response that is not ok, or a request that throws.
- `localStorage` is a `map<string, seq<string>>` passed in and returned. The JSON encoding
  is taken to round-trip.
- `alert` and `window.location.href` become the `SubmitOutcome` value.
- Each `onFormComplete` / `onUploadComplete` callback becomes the value the handler
  returns. The page receives it through `HandleFormComplete` / `HandleUploadComplete`.
- Timers become separate operations: the form's demo prefill, and each firing of the
  upload-progress interval.

Behaviour of the code worth knowing before reading the model:

- The tab triggers let the user jump from patient-info straight to review when both
  completion flags are already true. `HandleTabSelect` allows this, and
  `SelectionIsGated` proves that every step passed over is still marked done.
- The analysis requests are sent one after another, and the loop stops at the first
  failure. `HandleSubmitForAnalysis` returns the requests actually sent.
- An ok response is pushed whatever its `data.result` is. The model's oracle only has
  ok-with-a-string or failure; see "Left out".
- `uploadComplete` is a flag set only by the uploader's callback. The submit handler reads
  `patientData.images`, which neither component writes, so `HandleSubmitForAnalysis`
  takes the image list as an input, independent of the uploader's `files`. No file of
  this model calls `setPatientData`: `patientData` stays `null`, and every submission in
  these files ends in the no-images alert (`SubmissionWithoutPatientData`).

## Model

| member | source | states |
|---|---|---|
| `PatientInfoForm.With` | components/patient-info-form.tsx:51-55 | the edited field takes the new value and every other field keeps its old value |
| `PatientInfoForm.CompleteIffRequiredFilled` | components/patient-info-form.tsx:59-60 | the completeness check holds exactly when every required field (full name, age, gender, phone) is non-empty |
| `PatientInfoForm.OptionalFieldIrrelevant` | components/patient-info-form.tsx:59-60 | editing email, address, medical history, family history or current medications never changes completeness |
| `PatientInfoForm.ClearingRequiredFieldIncomplete` | components/patient-info-form.tsx:59-60 | emptying any required field makes the record incomplete |
| `PatientInfoForm.InitialFormData` | components/patient-info-form.tsx:18-28 | the initial record has every field empty and is incomplete |
| `PatientInfoForm.DemoFormData` | components/patient-info-form.tsx:33-43 | the demo record fills every field and is complete |
| `PatientInfoForm.CompletenessAfterEdit` | components/patient-info-form.tsx:57-61 | corrected report: an optional-field edit keeps completeness as it was; a required-field edit gives completeness iff the new value and the other required fields are non-empty |
| `PatientInfoForm.StaleReportAfterEdit` | components/patient-info-form.tsx:58-60 | filling the last missing required field leaves a complete record, yet the record captured before the edit, which is what gets reported, is incomplete |
| `PatientInfoForm.StaleReportAfterClearing` | components/patient-info-form.tsx:58-60 | clearing a required field of a complete record leaves it incomplete, while the pre-edit record, which is what gets reported, is complete |
| `PatientInfoForm.PatientInfoFormState.constructor` | components/patient-info-form.tsx:18-28 | the form starts with the empty, incomplete record |
| `PatientInfoForm.PatientInfoFormState.DemoPrefill` | components/patient-info-form.tsx:32-45 | the prefill installs the demo record and reports `true` |
| `PatientInfoForm.PatientInfoFormState.HandleInputChange` | components/patient-info-form.tsx:50-62 | only the named field changes; the reported value is the completeness of the record before the edit |
| `PatientInfoForm.PatientInfoFormState.HandleSelectChange` | components/patient-info-form.tsx:64-75 | the same update and the same pre-edit report for the select inputs |
| `ImageUploader.Filter` | components/image-uploader.tsx:31 | the filtered list holds only elements of the input that satisfy the predicate, holds every such element, and is no longer than the input |
| `ImageUploader.ValidateBatch` | components/image-uploader.tsx:30-42 | a batch is refused as not-image iff some type lacks the `image/` prefix; as too large iff all are images and some file exceeds 5 MiB; accepted iff every file passes both checks |
| `ImageUploader.Admit` | components/image-uploader.tsx:24-47 | empty selection: nothing changes, error cleared, no callback; a refused batch leaves the list unchanged with the type or size message and no callback; an accepted batch is appended after the existing files in order, with the error cleared and `onUploadComplete(true)` |
| `ImageUploader.SizeLimitBoundary` | components/image-uploader.tsx:38-42 | an image of exactly 5·1024·1024 bytes is accepted and one byte more is refused for size |
| `ImageUploader.SpliceStart` | components/image-uploader.tsx:89 | the position `splice` starts at: the index itself in range, counted from the end when negative, clamped to the list |
| `ImageUploader.RemoveAt` | components/image-uploader.tsx:87-91 | with a start inside the list, the length drops by one, entries before the start stay and later ones shift down by one; otherwise the list is unchanged |
| `ImageUploader.NextProgress` | components/image-uploader.tsx:100-106 | one interval firing moves a progress value that is a multiple of 5 in 0..100 up by 5, never past 100 |
| `ImageUploader.ProgressAfterIs` | components/image-uploader.tsx:99-108 | after k firings from progress p the counter reads min(p + 5k, 100) |
| `ImageUploader.ImageUploaderState.constructor` | components/image-uploader.tsx:17-21 | no files, not uploading, progress 0, no error |
| `ImageUploader.ImageUploaderState.HandleFileChange` | components/image-uploader.tsx:24-47 | the new file list, error and callback are exactly `Admit` of the old list and the selection; the progress state is untouched |
| `ImageUploader.ImageUploaderState.HandleDrop` | components/image-uploader.tsx:49-74 | the same admission for dropped files, and the drag highlight is off |
| `ImageUploader.ImageUploaderState.AdmitBatch` | components/image-uploader.tsx:25-46 | the step-by-step admission, checking types before sizes, ends in the state that `Admit` describes |
| `ImageUploader.ImageUploaderState.RemoveFile` | components/image-uploader.tsx:86-93 | the list loses exactly the spliced entry, keeping the others in order; the report is true iff files remain |
| `ImageUploader.ImageUploaderState.UploadDisabled` | components/image-uploader.tsx:251 | the Upload button is enabled only with files listed and no upload running |
| `ImageUploader.ImageUploaderState.SimulateUpload` | components/image-uploader.tsx:95-98 | uploading starts with progress 0 |
| `ImageUploader.ImageUploaderState.ClickUpload` | components/image-uploader.tsx:248-255 | the upload starts iff the button was enabled; otherwise nothing changes |
| `ImageUploader.ImageUploaderState.IntervalTick` | components/image-uploader.tsx:99-107 | one firing advances progress as `NextProgress` says; the firing that finds 100 clears the interval and ends uploading; progress stays within 0..100 |
| `ImageUploader.ImageUploaderState.RunInterval` | components/image-uploader.tsx:99-108 | from progress p the interval fires (100 − p)/5 + 1 times and stops with progress 100 and uploading false |
| `DetectionPage.NextTab` | app/detection/page.tsx:44-50 | Next moves at most one step; it moves iff the current step's flag holds (form on patient-info, upload on upload-images, never from review) |
| `DetectionPage.PreviousTab` | app/detection/page.tsx:157 | Previous moves back exactly one step |
| `DetectionPage.TabEnabled` | app/detection/page.tsx:112-118 | a tab trigger is enabled iff every step before that tab is done |
| `DetectionPage.SelectionIsGated` | app/detection/page.tsx:110-118 | a forward move by tab selection has every step passed over done; selecting review needs both flags |
| `DetectionPage.AlertMessage` | app/detection/page.tsx:52-92 | every outcome except navigation shows exactly one alert |
| `DetectionPage.CollectResults` | app/detection/page.tsx:66-83 | all-or-nothing: a list exists iff every response is ok; it has one entry per response, and entry i is response i's result |
| `DetectionPage.FirstFailure` | app/detection/page.tsx:68-79 | the index of the failed response the loop stops at: every earlier response is ok |
| `DetectionPage.DetectionPageState.constructor` | app/detection/page.tsx:28-32 | the page starts on patient-info with all four flags false |
| `DetectionPage.DetectionPageState.HandleFormComplete` | app/detection/page.tsx:36-38 | only `formComplete` changes, to the reported value |
| `DetectionPage.DetectionPageState.HandleUploadComplete` | app/detection/page.tsx:40-42 | only `uploadComplete` changes, to the reported value |
| `DetectionPage.DetectionPageState.HandleConsentChange` | app/detection/page.tsx:236 | only `consentChecked` changes |
| `DetectionPage.DetectionPageState.HandleNextTab` | app/detection/page.tsx:44-50 | patient-info moves to upload-images iff `formComplete`; upload-images moves to review iff `uploadComplete`; no flag changes |
| `DetectionPage.DetectionPageState.HandlePrevious` | app/detection/page.tsx:248-250 | one step back; both completion flags, consent and submitting left as they were |
| `DetectionPage.DetectionPageState.HandleTabSelect` | app/detection/page.tsx:110-118 | the tab changes to the target iff its trigger is enabled; forward moves have every step passed over done |
| `DetectionPage.DetectionPageState.SubmitDisabled` | app/detection/page.tsx:252-255 | the Submit button is enabled only with consent given and no submission running |
| `DetectionPage.DetectionPageState.HandleSubmitForAnalysis` | app/detection/page.tsx:52-93 | missing or empty images: the no-images alert, no request, storage untouched; checked before consent, which blocks the same way; on success one request per image in image order, the collected list stored under `predictionResults`, then navigation to `/detection/results`; on a failed response the requests stop at that image and nothing is stored; `isSubmitting` ends false once a submission started |
| `ClientStorage.SetItem` | app/detection/page.tsx:85 | the written key holds the list and every other key is unchanged |
| `ClientStorage.GetItem` | app/detection/results/page.tsx:42 | a value is found iff the key was written, and it is the written list |
| `DetectionResults.IncludesIffOccurs` | app/detection/results/page.tsx:56 | `includes` holds iff the substring occurs at some position |
| `DetectionResults.MissingFirstCharacter` | app/detection/results/page.tsx:56 | a string lacking the substring's first character does not include it |
| `DetectionResults.Matching` | app/detection/results/page.tsx:174 | the filtered list has one entry per position whose result contains the marker; it holds only such results and every one of them, is no longer than the total, and is as long iff every result contains the marker |
| `DetectionResults.MatchingMultiplicity` | app/detection/results/page.tsx:174 | each result containing the marker occurs in the filtered list exactly as often as in the stored list; no other result occurs in it |
| `DetectionResults.AnyIncludes` | app/detection/results/page.tsx:56 | `some` holds iff some result contains the marker |
| `DetectionResults.LoadPredictionResults` | app/detection/results/page.tsx:39-45 | the stored list when one was written, the empty list otherwise |
| `DetectionResults.Summarize` | app/detection/results/page.tsx:166-187 | total is the length; the detected count is the number of positions whose result contains "Detected", and the normal count the number containing "No"; each count is at most the total; the detected count is positive iff some result contains "Detected" and the flag holds iff it is; likewise for "No"; confidence is 87 |
| `DetectionResults.EmptyResultsSummary` | app/detection/results/page.tsx:39-56 | with nothing stored: total 0, both counts 0, flag false |
| `DetectionResults.CountsOverlap` | app/detection/results/page.tsx:174-180 | "Not Detected" counts as detected and as normal, so the counts need not add up to the total |
| `DetectionResults.ImageLabel` | app/detection/results/page.tsx:155 | an image's caption is its result when present and non-empty, "Pending" otherwise, never empty |
| `DetectionFlow.StoredResultsReachResultsPage` | app/detection/page.tsx:85-86 | after a successful submission the results page loads one result per response, in order; the total equals the number of responses; each image is captioned with its own non-empty result |
| `DetectionFlow.OnePositiveOneNormal` | app/detection/results/page.tsx:169-180 | one "Detected" result and one "No" result give total 2, detected 1, normal 1 and the flag set |
| `DetectionFlow.ScenarioSummary` | app/detection/results/page.tsx:169-180 | the results "Detected" and "No sickle cells" give total 2, detected 1, normal 1 and the flag set |
| `DetectionFlow.WizardAtReview` | app/detection/page.tsx:36-50 | demo form reported, two JPEGs admitted, Next after each step and consent given: the page is on review with both flags and consent set, not submitting |
| `DetectionFlow.SuccessfulSubmission` | app/detection/page.tsx:52-93 | from review, with `patientData.images` holding two JPEGs (written by code outside this model) and the answers "Detected" then "No sickle cells": two requests, that list stored, navigation, and a summary of total 2, detected 1 with the flag set |
| `DetectionFlow.SubmissionWithoutPatientData` | app/detection/page.tsx:53-56 | with `patientData` still `null`, the wizard at review with consent given ends in the no-images alert, sends nothing and stores nothing |
| `DetectionFlow.ClearedFieldStillAdvances` | components/patient-info-form.tsx:58-60 | after the demo prefill, clearing the phone field still reports `true`, so Next leaves patient-info with an incomplete form |
| `DetectionFlow.RefusedSubmissions` | app/detection/page.tsx:53-61 | without consent, and with no images, each attempt ends in its own alert with no request and nothing stored |

## Left out

- The network call itself, multipart encoding, JSON parsing of the response and `console.error`: the endpoint is the `responses` oracle.
- A response that is ok but has no `result` string: the code would push `undefined`, which `JSON.stringify` stores as `null`. The oracle cannot express it, so the model has no such entry.
- `HandleSubmitForAnalysis`: the intermediate `isSubmitting = true` while requests are pending (and the "Submitting..." label) is visible only as a loop invariant, not as an observable state between calls, because the model has no interleaving of events.
- JSON encoding in `localStorage`: the codec is assumed to round-trip, so a storage slot holds the list directly.
- React rendering, tab content mounting and unmounting, the 100 ms timer before each form report, and event interleaving: each handler is one atomic step.
- Library internals such as Radix Tabs and React state batching are not part of this model.
- The uploader's demo file injection timer: scaffolding that the source itself marks for removal.
- The scheduling of the form's demo prefill timer: the prefill itself is modelled by `DemoPrefill`.
- The results page's loading delays and the `isLoading`/`showResults` flags: presentation pacing only.
- `URL.createObjectURL`, image thumbnails, and the KB size display (float division and `toFixed`).
- The patient context provider (`context/PatientContext.tsx`): only the image list of its record is used, as the submit handler's input. Nothing in these files writes that record, so as the files stand every submission ends in "Please upload at least one image."; the successful runs assume a writer outside this model.
- `HandleSubmitForAnalysis`: a `localStorage.setItem` that throws (for example on an exceeded quota) would show the error alert and not navigate; the model's storage write always succeeds.
- The contact, login, register and marketing pages, the hospital map, the animations, the header and footer: presentation or timer-driven fake submissions.
- The Cancel button (navigation to `/`), Print and Download buttons, and the results page's own tabs: navigation and presentation only.

## Findings

| source | as written | input that shows it | evidently intended | confidence | as-written member | corrected member |
|---|---|---|---|---|---|---|
| components/patient-info-form.tsx:58-60 | the completeness passed to `onFormComplete` after an edit is computed from `formData` captured before the edit | required fields filled except phone; the user types "5" into phone: the record is complete but `false` is reported. Conversely, clearing phone on the demo record reports `true` and Next stays enabled | report the completeness of the edited record | high (not executed) | `PatientInfoForm.StaleReportAfterEdit` and `PatientInfoForm.StaleReportAfterClearing` (with `PatientInfoForm.PatientInfoFormState.HandleInputChange` and `DetectionFlow.ClearedFieldStillAdvances`) | `PatientInfoForm.CompletenessAfterEdit` |
