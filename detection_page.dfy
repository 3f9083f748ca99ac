/** The detection page: a three-step tab machine gated by the completion flags that the
    form and the uploader report, and the submission handler that sends every image to
    the analysis endpoint in turn and stores the results for the results page. */
module DetectionPage {
  import opened Wrappers
  import opened ClientStorage
  import opened ImageUploader

  /** The tabs, in wizard order. */
  datatype Tab = PatientInfo | UploadImages | Review

  /** The position of a tab in the wizard. */
  function Rank(t: Tab): nat
  {
    match t
    case PatientInfo => 0
    case UploadImages => 1
    case Review => 2
  }

  /** The completion flag that the step shown on tab `t` sets (the review step has none). */
  predicate StepDone(t: Tab, formComplete: bool, uploadComplete: bool)
  {
    match t
    case PatientInfo => formComplete
    case UploadImages => uploadComplete
    case Review => false
  }

  /** Every step strictly between ranks `from` (inclusive) and `to` (exclusive) is done. */
  predicate StepsDone(from: nat, to: nat, formComplete: bool, uploadComplete: bool)
  {
    (from <= 0 < to ==> formComplete) && (from <= 1 < to ==> uploadComplete)
  }

  /** `handleNextTab`: a move of one step forward, taken only when the current step is done. */
  function NextTab(t: Tab, formComplete: bool, uploadComplete: bool): (r: Tab)
    ensures r == t || Rank(r) == Rank(t) + 1
    ensures r != t <==> StepDone(t, formComplete, uploadComplete)
    ensures r != t ==> StepsDone(Rank(t), Rank(r), formComplete, uploadComplete)
    ensures t == Review ==> r == Review
  {
    if t == PatientInfo && formComplete then UploadImages
    else if t == UploadImages && uploadComplete then Review
    else t
  }

  /** The Previous Step buttons, shown on the upload and review tabs: one step back. */
  function PreviousTab(t: Tab): (r: Tab)
    requires t != PatientInfo
    ensures Rank(r) + 1 == Rank(t)
  {
    if t == UploadImages then PatientInfo else UploadImages
  }

  /** The `disabled` guards of the tab triggers: a tab can be selected exactly when every
      step before it is done. */
  function TabEnabled(t: Tab, formComplete: bool, uploadComplete: bool): (r: bool)
    ensures r <==> StepsDone(0, Rank(t), formComplete, uploadComplete)
  {
    match t
    case PatientInfo => true
    case UploadImages => formComplete
    case Review => formComplete && uploadComplete
  }

  /** Selecting a tab, and therefore any move forward by selection, is gated: moving to a
      later tab needs every step from the current one up to the target done. */
  lemma SelectionIsGated(current: Tab, target: Tab, formComplete: bool, uploadComplete: bool)
    requires TabEnabled(target, formComplete, uploadComplete)
    ensures Rank(current) < Rank(target) ==> StepsDone(Rank(current), Rank(target), formComplete, uploadComplete)
    ensures target == Review ==> formComplete && uploadComplete
  {
  }

  const NoImagesMessage: string := "Please upload at least one image."
  const NoConsentMessage: string := "Please provide consent before submitting."
  const SubmitErrorMessage: string := "An error occurred while submitting your images."
  const ResultsPath: string := "/detection/results"

  /** How a submission attempt ends: one of the three alerts, or navigation. */
  datatype SubmitOutcome = NoImagesAlert | NoConsentAlert | SubmitErrorAlert | Navigate(path: string)

  function AlertMessage(o: SubmitOutcome): (m: Option<string>)
    ensures m.None? <==> o.Navigate?
  {
    match o
    case NoImagesAlert => Some(NoImagesMessage)
    case NoConsentAlert => Some(NoConsentMessage)
    case SubmitErrorAlert => Some(SubmitErrorMessage)
    case Navigate(_) => None
  }

  /** The ordered results of a run of responses, each `None` standing for a response that
      is not ok or a request that throws: all the result strings, or nothing at all. */
  function CollectResults(responses: seq<Option<string>>): (r: Option<seq<string>>)
    ensures r.Some? <==> forall i :: 0 <= i < |responses| ==> responses[i].Some?
    ensures r.Some? ==> |r.value| == |responses|
    ensures r.Some? ==> forall i :: 0 <= i < |responses| ==> r.value[i] == responses[i].value
  {
    if responses == [] then Some([])
    else
      var prefix := CollectResults(responses[..|responses| - 1]);
      var last := responses[|responses| - 1];
      if prefix.Some? && last.Some? then Some(prefix.value + [last.value])
      else None
  }

  /** The position of the first failed response. */
  function FirstFailure(responses: seq<Option<string>>): (k: nat)
    requires exists i :: 0 <= i < |responses| && responses[i].None?
    ensures k < |responses| && responses[k].None?
    ensures forall j :: 0 <= j < k ==> responses[j].Some?
  {
    if responses[0].None? then 0
    else 1 + FirstFailure(responses[1..])
  }

  /** The detection page's state. */
  class DetectionPageState {
    var activeTab: Tab
    var formComplete: bool
    var uploadComplete: bool
    var consentChecked: bool
    var isSubmitting: bool

    constructor ()
      ensures activeTab == PatientInfo
      ensures !formComplete && !uploadComplete && !consentChecked && !isSubmitting
    {
      activeTab := PatientInfo;
      formComplete := false;
      uploadComplete := false;
      consentChecked := false;
      isSubmitting := false;
    }

    /** `handleFormComplete`, the form's `onFormComplete` callback. */
    method HandleFormComplete(complete: bool)
      modifies this
      ensures formComplete == complete
      ensures activeTab == old(activeTab) && uploadComplete == old(uploadComplete)
      ensures consentChecked == old(consentChecked) && isSubmitting == old(isSubmitting)
    {
      formComplete := complete;
    }

    /** `handleUploadComplete`, the uploader's `onUploadComplete` callback. */
    method HandleUploadComplete(complete: bool)
      modifies this
      ensures uploadComplete == complete
      ensures activeTab == old(activeTab) && formComplete == old(formComplete)
      ensures consentChecked == old(consentChecked) && isSubmitting == old(isSubmitting)
    {
      uploadComplete := complete;
    }

    /** The consent checkbox's `onChange`. */
    method HandleConsentChange(checked: bool)
      modifies this
      ensures consentChecked == checked
      ensures activeTab == old(activeTab) && formComplete == old(formComplete)
      ensures uploadComplete == old(uploadComplete) && isSubmitting == old(isSubmitting)
    {
      consentChecked := checked;
    }

    /** `handleNextTab`: only the active tab can change, and only as `NextTab` says. */
    method HandleNextTab()
      modifies this
      ensures activeTab == NextTab(old(activeTab), formComplete, uploadComplete)
      ensures old(activeTab) == PatientInfo ==> (activeTab == UploadImages <==> formComplete)
      ensures old(activeTab) == UploadImages ==> (activeTab == Review <==> uploadComplete)
      ensures formComplete == old(formComplete) && uploadComplete == old(uploadComplete)
      ensures consentChecked == old(consentChecked) && isSubmitting == old(isSubmitting)
    {
      if activeTab == PatientInfo && formComplete {
        activeTab := UploadImages;
      } else if activeTab == UploadImages && uploadComplete {
        activeTab := Review;
      }
    }

    /** A Previous Step button (present on the upload and review tabs only). */
    method HandlePrevious()
      requires activeTab != PatientInfo
      modifies this
      ensures activeTab == PreviousTab(old(activeTab))
      ensures Rank(activeTab) + 1 == Rank(old(activeTab))
      ensures formComplete == old(formComplete) && uploadComplete == old(uploadComplete)
      ensures consentChecked == old(consentChecked) && isSubmitting == old(isSubmitting)
    {
      if activeTab == UploadImages {
        activeTab := PatientInfo;
      } else {
        activeTab := UploadImages;
      }
    }

    /** A click on a tab trigger: `setActiveTab(target)` unless the trigger is disabled. */
    method HandleTabSelect(target: Tab)
      modifies this
      ensures activeTab == if TabEnabled(target, formComplete, uploadComplete) then target else old(activeTab)
      ensures Rank(activeTab) > Rank(old(activeTab)) ==>
        StepsDone(Rank(old(activeTab)), Rank(activeTab), formComplete, uploadComplete)
      ensures formComplete == old(formComplete) && uploadComplete == old(uploadComplete)
      ensures consentChecked == old(consentChecked) && isSubmitting == old(isSubmitting)
    {
      if TabEnabled(target, formComplete, uploadComplete) {
        SelectionIsGated(activeTab, target, formComplete, uploadComplete);
        activeTab := target;
      }
    }

    /** The Submit button is disabled without consent and while a submission runs. */
    function SubmitDisabled(): (r: bool)
      reads this
      ensures !r ==> consentChecked && !isSubmitting
      ensures isSubmitting ==> r
    {
      !consentChecked || isSubmitting
    }

    /** `handleSubmitForAnalysis`. `images` is `patientData?.images`; `responses[i]` is the
        endpoint's answer to the i-th request (`None`: not ok, or the request threw);
        `storage` is `localStorage` before the call. Returns how the attempt ends, the
        files sent, in the order they were sent, and `localStorage` afterwards. */
    method HandleSubmitForAnalysis(images: Option<seq<UploadFile>>, responses: seq<Option<string>>, storage: Storage)
      returns (outcome: SubmitOutcome, requests: seq<UploadFile>, storage': Storage)
      requires images.Some? ==> |responses| == |images.value|
      modifies this
      ensures (images.Some? && images.value != [] && consentChecked) ==> !isSubmitting
      ensures !(images.Some? && images.value != [] && consentChecked) ==> isSubmitting == old(isSubmitting)
      ensures activeTab == old(activeTab) && formComplete == old(formComplete)
      ensures uploadComplete == old(uploadComplete) && consentChecked == old(consentChecked)
      ensures (images.None? || images.value == []) ==>
        outcome == NoImagesAlert && requests == [] && storage' == storage
      ensures (images.Some? && images.value != [] && !consentChecked) ==>
        outcome == NoConsentAlert && requests == [] && storage' == storage
      ensures (images.Some? && images.value != [] && consentChecked && CollectResults(responses).Some?) ==>
        outcome == Navigate(ResultsPath) && requests == images.value &&
        storage' == SetItem(storage, PredictionResultsKey, CollectResults(responses).value)
      ensures (images.Some? && images.value != [] && consentChecked && CollectResults(responses).None?) ==>
        outcome == SubmitErrorAlert && requests == images.value[..FirstFailure(responses) + 1] &&
        storage' == storage
    {
      requests := [];
      storage' := storage;
      if images.None? || |images.value| == 0 {
        outcome := NoImagesAlert;
        return;
      }
      if !consentChecked {
        outcome := NoConsentAlert;
        return;
      }
      isSubmitting := true;
      var files := images.value;
      var results: seq<string> := [];
      var i := 0;
      while i < |files|
        invariant 0 <= i <= |files|
        invariant isSubmitting
        invariant activeTab == old(activeTab) && formComplete == old(formComplete)
        invariant uploadComplete == old(uploadComplete) && consentChecked == old(consentChecked)
        invariant requests == files[..i]
        invariant forall j :: 0 <= j < i ==> responses[j].Some?
        invariant CollectResults(responses[..i]) == Some(results)
      {
        requests := requests + [files[i]];
        var response := responses[i];
        if response.None? {
          assert responses[FirstFailure(responses)].None?;
          outcome := SubmitErrorAlert;
          isSubmitting := false;
          return;
        }
        assert responses[..i + 1][..i] == responses[..i];
        results := results + [response.value];
        i := i + 1;
      }
      assert responses[..i] == responses;
      storage' := SetItem(storage', PredictionResultsKey, results);
      outcome := Navigate(ResultsPath);
      isSubmitting := false;
    }
  }
}
