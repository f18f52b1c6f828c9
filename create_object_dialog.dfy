/** The create dialog: the form is checked against the schema, a missing image stops the
    submission with a toast, otherwise the create call is made once and the dialog either
    closes and resets (success) or keeps its state and shows the error (failure). */
module CreateDialog {
  import opened Types
  import opened Validations
  import opened ImageUploadView

  const NoImageToast := Toast("Erreur", "Veuillez sélectionner une image", true)
  const CreatedToast := Toast("Succès", "Objet créé avec succès!", false)
  const CreateFailedFallback := "Erreur lors de la création"

  /** The toast shown when the create call is rejected. */
  function CreateFailedToast(reason: Thrown): Toast
  {
    Toast("Erreur", MessageOf(reason, CreateFailedFallback), true)
  }

  /** The form's values after `reset()`: no default values were given, so both fields are empty. */
  const EmptyForm := CreateObjectInput("", "")

  /** One call of the create API: title, description and the selected file. */
  datatype CreateCall = CreateCall(title: string, description: string, file: File)

  /** The "Créer" button's `disabled`. */
  function SubmitDisabled(isSubmitting: bool, uploading: bool, selectedFile: Option<File>): (disabled: bool)
    ensures selectedFile.None? ==> disabled
    ensures CancelDisabled(isSubmitting, uploading) ==> disabled
  {
    isSubmitting || uploading || selectedFile.None?
  }

  /** The "Annuler" button's `disabled`. */
  function CancelDisabled(isSubmitting: bool, uploading: bool): (disabled: bool)
    ensures uploading ==> disabled
    ensures !disabled ==> !isSubmitting
  {
    isSubmitting || uploading
  }

  /** Submit is enabled exactly when nothing is in flight and a file is selected; whenever
      cancel is locked, submit is locked too, and a selected file makes them agree. */
  lemma ButtonRules(isSubmitting: bool, uploading: bool, selectedFile: Option<File>)
    ensures !SubmitDisabled(isSubmitting, uploading, selectedFile) <==>
      !isSubmitting && !uploading && selectedFile.Some?
    ensures CancelDisabled(isSubmitting, uploading) ==> SubmitDisabled(isSubmitting, uploading, selectedFile)
    ensures selectedFile.Some? ==>
      (SubmitDisabled(isSubmitting, uploading, selectedFile) <==> CancelDisabled(isSubmitting, uploading))
  {
  }

  /** The dialog's state. `toasts`, `createCalls` and `successCalls` record the toasts shown,
      the create API calls made and the `onSuccess` calls made, in order. */
  class CreateObjectDialog {
    const hasOnSuccess: bool
    const picker: ImageUpload
    var open: bool
    var selectedFile: Option<File>
    var uploading: bool
    var form: CreateObjectInput
    var fieldErrors: Option<FieldErrors>
    var toasts: seq<Toast>
    var createCalls: seq<CreateCall>
    var successCalls: nat

    /** A closed dialog with an empty form and nothing selected; `hasOnSuccess` tells
        whether the parent passed `onSuccess`. */
    constructor (hasOnSuccess: bool)
      ensures this.hasOnSuccess == hasOnSuccess && fresh(picker)
      ensures !open && selectedFile == None && !uploading && form == EmptyForm
      ensures fieldErrors == None && toasts == [] && createCalls == [] && successCalls == 0
      ensures picker.previewUrl == None && picker.selected == []
      ensures !picker.isDragging && picker.inputValue == "" && picker.urlsCreated == 0
    {
      this.hasOnSuccess := hasOnSuccess;
      picker := new ImageUpload(None);
      open := false;
      selectedFile := None;
      uploading := false;
      form := EmptyForm;
      fieldErrors := None;
      toasts := [];
      createCalls := [];
      successCalls := 0;
    }

    /** The dialog's `onOpenChange` (the trigger, the close button, "Annuler"). */
    method SetOpen(b: bool)
      modifies this
      ensures open == b
      ensures selectedFile == old(selectedFile) && uploading == old(uploading) && form == old(form)
      ensures fieldErrors == old(fieldErrors) && toasts == old(toasts)
      ensures createCalls == old(createCalls) && successCalls == old(successCalls)
    {
      open := b;
    }

    /** The user edits the registered fields. */
    method Edit(values: CreateObjectInput)
      modifies this
      ensures form == values
      ensures open == old(open) && selectedFile == old(selectedFile) && uploading == old(uploading)
      ensures fieldErrors == old(fieldErrors) && toasts == old(toasts)
      ensures createCalls == old(createCalls) && successCalls == old(successCalls)
    {
      form := values;
    }

    /** A file picked in the embedded picker: an accepted one reaches `setSelectedFile`. */
    method PickFile(f: File)
      modifies this, picker
      ensures selectedFile == if Accepted(f) then Some(f) else old(selectedFile)
      ensures picker.selected == if Accepted(f) then old(picker.selected) + [f] else old(picker.selected)
      ensures picker.previewUrl ==
        if Accepted(f) then Some(ObjectUrl(old(picker.urlsCreated))) else old(picker.previewUrl)
      ensures picker.urlsCreated == old(picker.urlsCreated) + (if Accepted(f) then 1 else 0)
      ensures picker.isDragging == old(picker.isDragging) && picker.inputValue == old(picker.inputValue)
      ensures open == old(open) && uploading == old(uploading) && form == old(form)
      ensures fieldErrors == old(fieldErrors) && toasts == old(toasts)
      ensures createCalls == old(createCalls) && successCalls == old(successCalls)
    {
      picker.HandleFileSelect(f);
      if Accepted(f) {
        selectedFile := Some(f);
      }
    }

    /** The picker's remove button: the preview goes, the dialog's selection stays. */
    method RemovePreview()
      modifies picker
      ensures picker.previewUrl == None && picker.inputValue == ""
      ensures picker.selected == old(picker.selected) && picker.isDragging == old(picker.isDragging)
      ensures picker.urlsCreated == old(picker.urlsCreated)
      ensures selectedFile == old(selectedFile)
    {
      picker.HandleRemoveImage();
    }

    /** onSubmit up to its await. Without a selected file: an error toast and nothing else.
        Otherwise `uploading` is set and the create API is called once with the title,
        the description and the file. */
    method BeginSubmit(data: CreateObjectInput) returns (sent: bool)
      modifies this
      ensures sent <==> old(selectedFile).Some?
      ensures !sent ==> toasts == old(toasts) + [NoImageToast] && uploading == old(uploading)
                        && createCalls == old(createCalls)
      ensures sent ==> uploading && toasts == old(toasts)
                       && createCalls == old(createCalls) + [CreateCall(data.title, data.description, old(selectedFile).value)]
      ensures open == old(open) && selectedFile == old(selectedFile) && form == old(form)
      ensures fieldErrors == old(fieldErrors) && successCalls == old(successCalls)
    {
      if selectedFile.None? {
        toasts := toasts + [NoImageToast];
        return false;
      }
      uploading := true;
      createCalls := createCalls + [CreateCall(data.title, data.description, selectedFile.value)];
      sent := true;
    }

    /** onSubmit after its await. On success: a toast, the dialog closes, the form resets,
        the selection clears and `onSuccess` runs once when given. On failure: an error
        toast with the error's message and nothing else changes. `uploading` is released
        either way. */
    method CompleteSubmit(response: Settled<HeyamaObject>)
      modifies this
      ensures !uploading && createCalls == old(createCalls)
      ensures response.Resolved? ==>
        && toasts == old(toasts) + [CreatedToast]
        && !open && form == EmptyForm && fieldErrors == None && selectedFile == None
        && successCalls == old(successCalls) + (if hasOnSuccess then 1 else 0)
      ensures response.Rejected? ==>
        && toasts == old(toasts) + [CreateFailedToast(response.reason)]
        && open == old(open) && form == old(form) && fieldErrors == old(fieldErrors)
        && selectedFile == old(selectedFile) && successCalls == old(successCalls)
    {
      match response {
        case Resolved(_) =>
          toasts := toasts + [CreatedToast];
          open := false;
          form := EmptyForm;
          fieldErrors := None;
          selectedFile := None;
          if hasOnSuccess {
            successCalls := successCalls + 1;
          }
        case Rejected(reason) =>
          toasts := toasts + [CreateFailedToast(reason)];
      }
      uploading := false;
    }

    /** onSubmit when no other update lands during the request; `response` is how the
        create call would settle. */
    method OnSubmit(data: CreateObjectInput, response: Settled<HeyamaObject>)
      modifies this
      ensures !uploading || old(selectedFile).None?
      ensures old(selectedFile).None? ==>
        && toasts == old(toasts) + [NoImageToast] && createCalls == old(createCalls)
        && open == old(open) && selectedFile == old(selectedFile) && uploading == old(uploading)
        && form == old(form) && fieldErrors == old(fieldErrors) && successCalls == old(successCalls)
      ensures old(selectedFile).Some? ==>
        createCalls == old(createCalls) + [CreateCall(data.title, data.description, old(selectedFile).value)]
      ensures old(selectedFile).Some? && response.Resolved? ==>
        && toasts == old(toasts) + [CreatedToast]
        && !open && form == EmptyForm && fieldErrors == None && selectedFile == None
        && successCalls == old(successCalls) + (if hasOnSuccess then 1 else 0)
      ensures old(selectedFile).Some? && response.Rejected? ==>
        && toasts == old(toasts) + [CreateFailedToast(response.reason)]
        && open == old(open) && form == old(form) && fieldErrors == old(fieldErrors)
        && selectedFile == old(selectedFile) && successCalls == old(successCalls)
    {
      var sent := BeginSubmit(data);
      if sent {
        CompleteSubmit(response);
      }
    }

    /** The form's submit handler: the schema is checked first; an invalid form records the
        per-field messages and `onSubmit` is not run. */
    method HandleSubmit(response: Settled<HeyamaObject>)
      modifies this
      ensures Validate(old(form)).Invalid? ==>
        && fieldErrors == Some(Validate(old(form)).errors)
        && toasts == old(toasts) && createCalls == old(createCalls)
        && open == old(open) && selectedFile == old(selectedFile) && form == old(form)
        && uploading == old(uploading) && successCalls == old(successCalls)
      ensures Validate(old(form)).Valid? ==> !uploading || old(selectedFile).None?
      ensures Validate(old(form)).Valid? && old(selectedFile).None? ==>
        && toasts == old(toasts) + [NoImageToast] && createCalls == old(createCalls)
        && open == old(open) && selectedFile == old(selectedFile) && uploading == old(uploading)
        && form == old(form) && fieldErrors == None && successCalls == old(successCalls)
      ensures Validate(old(form)).Valid? && old(selectedFile).Some? ==>
        createCalls == old(createCalls) + [CreateCall(old(form).title, old(form).description, old(selectedFile).value)]
      ensures Validate(old(form)).Valid? && old(selectedFile).Some? && response.Resolved? ==>
        && toasts == old(toasts) + [CreatedToast]
        && !open && form == EmptyForm && fieldErrors == None && selectedFile == None
        && successCalls == old(successCalls) + (if hasOnSuccess then 1 else 0)
      ensures Validate(old(form)).Valid? && old(selectedFile).Some? && response.Rejected? ==>
        && toasts == old(toasts) + [CreateFailedToast(response.reason)]
        && open == old(open) && form == old(form) && fieldErrors == None
        && selectedFile == old(selectedFile) && successCalls == old(successCalls)
    {
      match Validate(form) {
        case Invalid(errors) =>
          fieldErrors := Some(errors);
        case Valid(data) =>
          fieldErrors := None;
          OnSubmit(data, response);
      }
    }
  }

  /** The picker's remove button does not reach the dialog: after picking a valid image and
      removing its preview, the dialog still holds the file and the submit button is enabled. */
  method RemovedPreviewStillSubmits(f: File)
    requires Accepted(f)
  {
    var dialog := new CreateObjectDialog(true);
    dialog.PickFile(f);
    dialog.RemovePreview();
    assert dialog.picker.previewUrl == None;
    assert dialog.selectedFile == Some(f);
    assert !SubmitDisabled(false, dialog.uploading, dialog.selectedFile);
  }
}
