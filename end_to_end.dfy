/** The detection flow across the navigation boundary: what the submission handler
    stores is what the results page loads and summarises. */
module DetectionFlow {
  import opened Wrappers
  import opened ClientStorage
  import opened ImageUploader
  import opened PatientInfoForm
  import opened DetectionPage
  import opened DetectionResults

  /** After a successful submission the results page sees one result per image, in image
      order, and captions each image with its own non-empty result. */
  lemma StoredResultsReachResultsPage(storage: Storage, responses: seq<Option<string>>)
    requires CollectResults(responses).Some?
    ensures var loaded := LoadPredictionResults(SetItem(storage, PredictionResultsKey, CollectResults(responses).value));
            |loaded| == |responses| && Summarize(loaded).total == |responses| &&
            (forall i :: 0 <= i < |responses| ==> loaded[i] == responses[i].value) &&
            (forall i :: 0 <= i < |responses| && responses[i].value != "" ==> ImageLabel(loaded, i) == responses[i].value)
  {
  }

  /** "No sickle cells" does not contain "Detected": it has no 'D' at all. */
  lemma NoSickleCellsIsNotDetected()
    ensures !Includes("No sickle cells", DetectedMarker)
  {
    var s := "No sickle cells";
    assert 'D' !in s;
    MissingFirstCharacter(s, DetectedMarker);
  }

  /** Two results, the first positive and not normal, the second the other way round. */
  lemma OnePositiveOneNormal(a: string, b: string)
    requires Includes(a, DetectedMarker) && !Includes(a, NormalMarker)
    requires !Includes(b, DetectedMarker) && Includes(b, NormalMarker)
    ensures var s := Summarize([a, b]);
            s.total == 2 && s.detected == 1 && s.normal == 1 && s.detectionResult
  {
  }

  /** The figures for the results "Detected" and "No sickle cells". */
  lemma ScenarioSummary(a: string, b: string)
    requires a == "Detected" && b == "No sickle cells"
    ensures var s := Summarize([a, b]);
            s.total == 2 && s.detected == 1 && s.normal == 1 && s.detectionResult
  {
    assert Includes(a, DetectedMarker) by { assert a[..8] == DetectedMarker; }
    assert !Includes(a, NormalMarker) by {
      assert 'N' !in a;
      MissingFirstCharacter(a, NormalMarker);
    }
    assert !Includes(b, DetectedMarker) by { NoSickleCellsIsNotDetected(); }
    assert Includes(b, NormalMarker) by { assert b[..2] == NormalMarker; }
    OnePositiveOneNormal(a, b);
  }

  /** Two ok responses collect into the two result strings, in order. */
  lemma CollectTwo(x: string, y: string)
    ensures CollectResults([Some(x), Some(y)]) == Some([x, y])
  {
    var none: seq<Option<string>> := [];
    var empty: seq<string> := [];
    assert CollectResults(none) == Some(empty);
    assert [Some(x)][..0] == none;
    assert CollectResults([Some(x)]) == Some(empty + [x]);
    assert empty + [x] == [x];
    assert [Some(x), Some(y)][..1] == [Some(x)];
    assert CollectResults([Some(x), Some(y)]) == Some([x] + [y]);
    assert [x] + [y] == [x, y];
  }

  /** The steps of the wizard up to the review tab: the demo form is reported complete,
      two JPEGs are admitted, Next is pressed after each step and consent is given. */
  method WizardAtReview() returns (page: DetectionPageState)
    ensures fresh(page)
    ensures page.activeTab == Review && page.formComplete && page.uploadComplete
    ensures page.consentChecked && !page.isSubmitting
  {
    var form := new PatientInfoFormState();
    var uploader := new ImageUploaderState();
    page := new DetectionPageState();

    var formReport := form.DemoPrefill();
    page.HandleFormComplete(formReport);
    page.HandleNextTab();

    var selected := [UploadFile("rbc_sample_1.jpg", "image/jpeg", 120000), UploadFile("rbc_sample_2.jpg", "image/jpeg", 98000)];
    assert IsImageType(selected[0].mimeType) && IsImageType(selected[1].mimeType);
    var uploadReport := uploader.HandleFileChange(selected);
    page.HandleUploadComplete(uploadReport.value);
    page.HandleNextTab();
    page.HandleConsentChange(true);
  }

  /** The successful run of the wizard, from the review tab, with an endpoint answering
      "Detected" then "No sickle cells". The uploader only sets the page's upload flag;
      the list the handler sends, `patientData.images`, is written by code outside this
      model, and here it holds two further JPEGs. */
  method SuccessfulSubmission() returns (outcome: SubmitOutcome, requests: seq<UploadFile>, stored: seq<string>, summary: Summary)
    ensures outcome == Navigate(ResultsPath)
    ensures |requests| == 2
    ensures stored == ["Detected", "No sickle cells"]
    ensures summary.total == 2 && summary.detected == 1 && summary.detectionResult
  {
    var page := WizardAtReview();
    var contextImages := [UploadFile("smear_a.jpg", "image/jpeg", 150000), UploadFile("smear_b.jpg", "image/jpeg", 110000)];
    var storage;
    var x, y := "Detected", "No sickle cells";
    var responses := [Some(x), Some(y)];
    CollectTwo(x, y);
    outcome, requests, storage := page.HandleSubmitForAnalysis(Some(contextImages), responses, map[]);
    stored := LoadPredictionResults(storage);
    summary := Summarize(stored);

    ScenarioSummary(stored[0], stored[1]);
  }

  /** The same wizard run with `patientData` left at its initial `null`, which is all the
      files of this model ever leave there: with the form complete, files admitted and
      consent given, the submission still ends in the no-images alert. */
  method SubmissionWithoutPatientData() returns (outcome: SubmitOutcome, requests: seq<UploadFile>, storage: Storage)
    ensures outcome == NoImagesAlert && AlertMessage(outcome) == Some(NoImagesMessage)
    ensures requests == [] && storage == map[]
  {
    var page := WizardAtReview();
    outcome, requests, storage := page.HandleSubmitForAnalysis(None, [Some("Detected")], map[]);
  }

  /** Clearing a required field after the demo prefill: the stale report keeps the page's
      form flag set, so Next still leaves patient-info with the phone field empty. */
  method ClearedFieldStillAdvances() returns (tab: Tab, phone: string, complete: bool)
    ensures tab == UploadImages && phone == "" && !complete
  {
    var form := new PatientInfoFormState();
    var page := new DetectionPageState();

    var formReport := form.DemoPrefill();
    page.HandleFormComplete(formReport);
    formReport := form.HandleInputChange(Phone, "");
    page.HandleFormComplete(formReport);
    page.HandleNextTab();
    tab := page.activeTab;
    phone := form.formData.phone;
    complete := IsComplete(form.formData);
  }

  /** The same run without consent, and a run with no images: each ends in its own alert,
      sends nothing and stores nothing. */
  method RefusedSubmissions() returns (noConsent: SubmitOutcome, noImages: SubmitOutcome, sent: nat, storage: Storage)
    ensures noConsent == NoConsentAlert && noImages == NoImagesAlert
    ensures sent == 0 && storage == map[]
  {
    var page := new DetectionPageState();
    page.HandleFormComplete(true);
    page.HandleUploadComplete(true);
    page.HandleTabSelect(Review);
    var images := [UploadFile("rbc_sample_1.jpg", "image/jpeg", 120000)];
    var requests1, requests2, storage1;
    noConsent, requests1, storage1 := page.HandleSubmitForAnalysis(Some(images), [Some("Detected")], map[]);
    page.HandleConsentChange(true);
    noImages, requests2, storage := page.HandleSubmitForAnalysis(Some([]), [], storage1);
    sent := |requests1| + |requests2|;
  }
}
