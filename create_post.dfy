/** The form for posting in a group: content and one optional image, the
    guard on empty posts, the reset after a post is created, cancelling, and
    the buttons' disabled conditions. */
module CreatePost {
  import opened Common

  /** A picked image file and an object URL, known by name only. */
  type ImageRef = string
  type ObjectUrl = string

  const EmptyPostText: string := "Veuillez ajouter du contenu ou une image"
  const CreateFailedText: string := "Erreur lors de la création du post. Veuillez réessayer."

  /** The form has something to post: text that is not blank, or an image. */
  predicate HasContent(contenu: string, image: Option<ImageRef>) {
    Trim(contenu) != "" || image.Some?
  }

  /** Without an image, the form has something to post exactly when the
      text holds a character that is not whitespace. */
  lemma TextOnlyContent(contenu: string)
    ensures HasContent(contenu, None) <==> !AllSpace(contenu)
  {
    TrimEmptyIffAllSpace(contenu);
  }

  /** The publish button is disabled while loading or with nothing to post. */
  predicate SubmitDisabled(isLoading: bool, contenu: string, image: Option<ImageRef>) {
    isLoading || !HasContent(contenu, image)
  }

  /** Publishing is possible exactly when nothing is loading and there is an
      image or some non-whitespace text. */
  lemma SubmitDisabledIff(isLoading: bool, contenu: string, image: Option<ImageRef>)
    ensures SubmitDisabled(isLoading, contenu, image) <==> isLoading || (image.None? && AllSpace(contenu))
  {
    TrimEmptyIffAllSpace(contenu);
  }

  /** The file input is disabled once an image is picked. */
  predicate ImageInputDisabled(image: Option<ImageRef>) {
    image.Some?
  }

  /** The two controls' conditions side by side: once the file input is
      locked by a picked image, publishing is blocked only by loading; with
      the input open, blank text also blocks it. */
  lemma PickedImageEnablesSubmit(isLoading: bool, contenu: string, image: Option<ImageRef>)
    ensures ImageInputDisabled(image) ==> (SubmitDisabled(isLoading, contenu, image) <==> isLoading)
    ensures !ImageInputDisabled(image) ==>
              (SubmitDisabled(isLoading, contenu, image) <==> isLoading || AllSpace(contenu))
  {
    TrimEmptyIffAllSpace(contenu);
  }

  /** `response.status` counts as success only within [200, 300). */
  predicate IsSuccessStatus(status: int) {
    200 <= status < 300
  }

  /** The multipart form: the text as typed, and the image when one is
      picked. */
  datatype PostPayload = PostPayload(contenuTexte: string, media: Option<ImageRef>)

  /** How the request ended: a response with its status, or a failure with
      the response's `detail`, if any. */
  datatype Outcome = Responded(status: int) | Failed(detail: Option<string>)

  /** The error a failed submission shows: a status outside [200, 300) is
      thrown as a plain error, which carries no `detail`. */
  function SubmitError(outcome: Outcome): (e: Option<string>)
    ensures e.None? <==> outcome.Responded? && IsSuccessStatus(outcome.status)
    ensures outcome.Responded? && !IsSuccessStatus(outcome.status) ==> e == Some(CreateFailedText)
    ensures outcome.Failed? ==> e == Some(OrElse(outcome.detail, CreateFailedText))
  {
    match outcome
    case Responded(s) => if IsSuccessStatus(s) then None else Some(CreateFailedText)
    case Failed(d) => Some(OrElse(d, CreateFailedText))
  }

  class CreatePostFormState {
    var contenu: string
    var selectedImage: Option<ImageRef>
    var previewUrl: Option<ObjectUrl>
    var isLoading: bool
    var error: Option<string>
    /** The object URLs released so far, in order. */
    var revoked: seq<ObjectUrl>
    /** The preview URL the pending submit's closure captured. */
    var submittedPreview: Option<ObjectUrl>

    constructor()
      ensures contenu == "" && selectedImage == None && previewUrl == None
      ensures !isLoading && error == None && revoked == [] && submittedPreview == None
    {
      contenu := "";
      selectedImage := None;
      previewUrl := None;
      isLoading := false;
      error := None;
      revoked := [];
      submittedPreview := None;
    }

    /** Releases the current preview URL, if any. */
    method RevokePreview()
      modifies this
      ensures revoked == old(revoked) + (if old(previewUrl).Some? then [old(previewUrl).value] else [])
      ensures contenu == old(contenu) && selectedImage == old(selectedImage) && previewUrl == old(previewUrl)
      ensures isLoading == old(isLoading) && error == old(error) && submittedPreview == old(submittedPreview)
    {
      if previewUrl.Some? {
        revoked := revoked + [previewUrl.value];
      }
    }

    /** `handleContentChange`. */
    method SetContent(text: string)
      modifies this
      ensures contenu == text
      ensures selectedImage == old(selectedImage) && previewUrl == old(previewUrl)
      ensures isLoading == old(isLoading) && error == old(error) && revoked == old(revoked)
      ensures submittedPreview == old(submittedPreview)
    {
      contenu := text;
    }

    /** `handleImageChange`: a picked file replaces the image, and its
        preview `url` replaces the old preview, which is released; an empty
        pick changes nothing. */
    method ImageChange(file: Option<ImageRef>, url: ObjectUrl)
      modifies this
      ensures file.Some? ==> selectedImage == file && previewUrl == Some(url) && ImageInputDisabled(selectedImage)
      ensures file.Some? ==>
                revoked == old(revoked) + (if old(previewUrl).Some? then [old(previewUrl).value] else [])
      ensures file.None? ==>
                selectedImage == old(selectedImage) && previewUrl == old(previewUrl) && revoked == old(revoked)
      ensures contenu == old(contenu) && isLoading == old(isLoading) && error == old(error)
      ensures submittedPreview == old(submittedPreview)
    {
      if file.Some? {
        selectedImage := file;
        RevokePreview();
        previewUrl := Some(url);
      }
    }

    /** `removeImage`. */
    method RemoveImage()
      modifies this
      ensures selectedImage == None && previewUrl == None && !ImageInputDisabled(selectedImage)
      ensures revoked == old(revoked) + (if old(previewUrl).Some? then [old(previewUrl).value] else [])
      ensures contenu == old(contenu) && isLoading == old(isLoading) && error == old(error)
      ensures submittedPreview == old(submittedPreview)
    {
      RevokePreview();
      selectedImage := None;
      previewUrl := None;
    }

    /** The start of `handleSubmit`: with nothing to post the error is set
        and nothing is sent; otherwise loading starts and the payload holds
        the untrimmed text and the image, if any. */
    method BeginSubmit() returns (payload: Option<PostPayload>)
      modifies this
      ensures !HasContent(old(contenu), old(selectedImage)) ==>
                payload == None && error == Some(EmptyPostText) && isLoading == old(isLoading)
                && submittedPreview == old(submittedPreview)
      ensures HasContent(old(contenu), old(selectedImage)) ==>
                payload == Some(PostPayload(old(contenu), old(selectedImage))) && isLoading && error == None
                && submittedPreview == old(previewUrl)
      ensures contenu == old(contenu) && selectedImage == old(selectedImage)
      ensures previewUrl == old(previewUrl) && revoked == old(revoked)
    {
      if !HasContent(contenu, selectedImage) {
        error := Some(EmptyPostText);
        return None;
      }
      isLoading := true;
      error := None;
      submittedPreview := previewUrl;
      payload := Some(PostPayload(contenu, selectedImage));
    }

    /** The end of `handleSubmit`: a success resets the text and the image,
        releases and clears the preview only when the submit's closure saw
        one (an image picked while the request ran keeps its preview), and
        then calls `onPostCreated` when given; otherwise the error is set and
        the form is kept; loading ends either way. */
    method FinishSubmit(outcome: Outcome, hasCallback: bool) returns (notified: bool)
      modifies this
      ensures SubmitError(outcome).None? ==>
                contenu == "" && selectedImage == None && !ImageInputDisabled(selectedImage)
                && previewUrl == (if old(submittedPreview).Some? then None else old(previewUrl))
                && revoked == old(revoked) + (if old(submittedPreview).Some? then [old(submittedPreview).value] else [])
                && error == old(error) && notified == hasCallback
      ensures SubmitError(outcome).Some? ==>
                error == SubmitError(outcome) && contenu == old(contenu)
                && selectedImage == old(selectedImage) && previewUrl == old(previewUrl)
                && revoked == old(revoked) && !notified
      ensures !isLoading && submittedPreview == old(submittedPreview)
    {
      notified := false;
      var failure := SubmitError(outcome);
      if failure.None? {
        contenu := "";
        selectedImage := None;
        if submittedPreview.Some? {
          revoked := revoked + [submittedPreview.value];
          previewUrl := None;
        }
        notified := hasCallback;
      } else {
        error := failure;
      }
      isLoading := false;
    }

    /** `handleCancel`: text, image, preview and error are reset, then
        `onCancel` is called when given. */
    method Cancel(hasCallback: bool) returns (notified: bool)
      modifies this
      ensures contenu == "" && selectedImage == None && previewUrl == None && error == None
      ensures !ImageInputDisabled(selectedImage) && submittedPreview == old(submittedPreview)
      ensures revoked == old(revoked) + (if old(previewUrl).Some? then [old(previewUrl).value] else [])
      ensures notified == hasCallback
      ensures isLoading == old(isLoading)
    {
      RevokePreview();
      previewUrl := None;
      selectedImage := None;
      contenu := "";
      error := None;
      notified := hasCallback;
    }
  }
}
