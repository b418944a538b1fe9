/** The resources screen: the upload form with its guard and reset, the
    two-step delete for a teacher's own resources, and resource titles. */
module Resources {
  import opened Common

  /** A file picked in the file input, known by name only. */
  type FileRef = string

  /** A resource row; `ownerId` is `resource.user.id`. */
  datatype Resource = Resource(id: int, title: Option<string>, ownerId: int)

  /** The viewer's profile, once fetched. */
  datatype Viewer = Viewer(id: int, role: string)

  const TeacherRole: string := "enseignant"
  const MissingInputText: string := "Please provide at least a title or a PDF file."
  const UploadFailedText: string := "Upload failed. Please try again."

  /** A resource's title, or "Resource {id}" when it has none. */
  function DisplayTitle(r: Resource): (t: string)
    ensures Truthy(r.title) ==> t == r.title.value
    ensures !Truthy(r.title) ==> |t| > 9 && t[..9] == "Resource " && ParseInt(t[9..]) == Some(r.id)
  {
    ParseIntOfIntToString(r.id);
    var fallback := "Resource " + IntToString(r.id);
    assert fallback[9..] == IntToString(r.id);
    OrElse(r.title, fallback)
  }

  // ---------------------------------------------------------------------
  // Deleting

  /** What a resource's row offers for deletion. */
  datatype Control = NoControl | TrashButton | ConfirmButtons

  /** Teachers see a trash button on their own resources; once it is
      pressed that row shows "Confirmer" and "Annuler" instead. */
  function DeleteControl(viewer: Option<Viewer>, r: Resource, confirmId: Option<int>): (c: Control)
    ensures c != NoControl <==>
              viewer.Some? && viewer.value.role == TeacherRole && viewer.value.id == r.ownerId
    ensures c == ConfirmButtons <==> c != NoControl && confirmId == Some(r.id)
  {
    if viewer.Some? && viewer.value.role == TeacherRole && viewer.value.id == r.ownerId then
      if confirmId == Some(r.id) then ConfirmButtons else TrashButton
    else NoControl
  }

  /** With distinct ids, at most one row at a time asks for confirmation. */
  lemma AtMostOneConfirmation(viewer: Option<Viewer>, a: Resource, b: Resource, confirmId: Option<int>)
    requires a.id != b.id
    ensures !(DeleteControl(viewer, a, confirmId) == ConfirmButtons
              && DeleteControl(viewer, b, confirmId) == ConfirmButtons)
  {
  }

  /** The filter callback `res => res.id !== resourceId`. */
  function OtherResource(resourceId: int): Resource -> bool {
    (r: Resource) => r.id != resourceId
  }

  /** The resources left once `resourceId` is deleted. */
  function DeleteResource(resources: seq<Resource>, resourceId: int): (r: seq<Resource>)
    ensures forall i | 0 <= i < |r| :: r[i].id != resourceId && r[i] in resources
    ensures forall i | 0 <= i < |resources| && resources[i].id != resourceId :: resources[i] in r
  {
    Filter(resources, OtherResource(resourceId))
  }

  lemma DeleteResourceConcat(a: seq<Resource>, b: seq<Resource>, resourceId: int)
    ensures DeleteResource(a + b, resourceId) == DeleteResource(a, resourceId) + DeleteResource(b, resourceId)
  {
    FilterConcat(a, b, OtherResource(resourceId));
  }

  // ---------------------------------------------------------------------
  // Uploading

  /** The multipart form: each field only when it is present. */
  datatype UploadPayload = UploadPayload(media: Option<FileRef>, title: Option<string>)

  /** The payload built from the form's file and title. */
  function PayloadFor(selectedFile: Option<FileRef>, title: string): (p: UploadPayload)
    ensures p.media == selectedFile
    ensures p.title.Some? <==> title != ""
    ensures p.title.Some? ==> p.title.value == title
  {
    UploadPayload(selectedFile, if title != "" then Some(title) else None)
  }

  class ResourcesPage {
    var resources: seq<Resource>
    var isUploading: bool
    var uploadSuccess: bool
    var uploadError: Option<string>
    var deleteConfirmId: Option<int>
    var title: string
    var selectedFile: Option<FileRef>
    /** How many times the list was requested again after an upload. */
    var reloads: nat

    constructor()
      ensures resources == [] && !isUploading && !uploadSuccess && uploadError == None
      ensures deleteConfirmId == None && title == "" && selectedFile == None && reloads == 0
    {
      resources := [];
      isUploading := false;
      uploadSuccess := false;
      uploadError := None;
      deleteConfirmId := None;
      title := "";
      selectedFile := None;
      reloads := 0;
    }

    /** The list request answered. */
    method ResourcesFetched(list: seq<Resource>)
      modifies this
      ensures resources == list
      ensures isUploading == old(isUploading) && uploadSuccess == old(uploadSuccess)
      ensures uploadError == old(uploadError) && deleteConfirmId == old(deleteConfirmId)
      ensures title == old(title) && selectedFile == old(selectedFile) && reloads == old(reloads)
    {
      resources := list;
    }

    /** `handleFileSelect`: an empty pick keeps the previous file. */
    method SelectFile(file: Option<FileRef>)
      modifies this
      ensures selectedFile == if file.Some? then file else old(selectedFile)
      ensures resources == old(resources) && isUploading == old(isUploading)
      ensures uploadSuccess == old(uploadSuccess) && uploadError == old(uploadError)
      ensures deleteConfirmId == old(deleteConfirmId) && title == old(title) && reloads == old(reloads)
    {
      if file.Some? {
        selectedFile := file;
      }
    }

    /** `handleTitleChange`. */
    method SetTitle(t: string)
      modifies this
      ensures title == t
      ensures resources == old(resources) && isUploading == old(isUploading)
      ensures uploadSuccess == old(uploadSuccess) && uploadError == old(uploadError)
      ensures deleteConfirmId == old(deleteConfirmId) && selectedFile == old(selectedFile)
      ensures reloads == old(reloads)
    {
      title := t;
    }

    /** The start of `handleUpload`: with neither file nor title the error
        is set and nothing is sent; otherwise the flags are reset and the
        payload holds just the fields present. */
    method BeginUpload() returns (payload: Option<UploadPayload>)
      modifies this
      ensures old(selectedFile).None? && old(title) == "" ==>
                payload == None && uploadError == Some(MissingInputText)
                && isUploading == old(isUploading) && uploadSuccess == old(uploadSuccess)
      ensures !(old(selectedFile).None? && old(title) == "") ==>
                payload == Some(PayloadFor(old(selectedFile), old(title)))
                && isUploading && !uploadSuccess && uploadError == None
      ensures resources == old(resources) && deleteConfirmId == old(deleteConfirmId)
      ensures title == old(title) && selectedFile == old(selectedFile) && reloads == old(reloads)
    {
      if selectedFile.None? && title == "" {
        uploadError := Some(MissingInputText);
        return None;
      }
      isUploading := true;
      uploadSuccess := false;
      uploadError := None;
      payload := Some(PayloadFor(selectedFile, title));
    }

    /** The end of `handleUpload`: a success flags it, clears the title and
        the file and reloads the list; a failure sets the error. */
    method FinishUpload(uploaded: bool)
      modifies this
      ensures uploaded ==>
                uploadSuccess && title == "" && selectedFile == None && reloads == old(reloads) + 1
                && uploadError == old(uploadError)
      ensures !uploaded ==>
                uploadError == Some(UploadFailedText) && uploadSuccess == old(uploadSuccess)
                && title == old(title) && selectedFile == old(selectedFile) && reloads == old(reloads)
      ensures !isUploading
      ensures resources == old(resources) && deleteConfirmId == old(deleteConfirmId)
    {
      if uploaded {
        uploadSuccess := true;
        isUploading := false;
        title := "";
        selectedFile := None;
        reloads := reloads + 1;
      } else {
        uploadError := Some(UploadFailedText);
        isUploading := false;
      }
    }

    /** `confirmDelete`: the first of the two steps. */
    method ConfirmDelete(resourceId: int)
      modifies this
      ensures deleteConfirmId == Some(resourceId)
      ensures resources == old(resources) && isUploading == old(isUploading)
      ensures uploadSuccess == old(uploadSuccess) && uploadError == old(uploadError)
      ensures title == old(title) && selectedFile == old(selectedFile) && reloads == old(reloads)
    {
      deleteConfirmId := Some(resourceId);
    }

    /** "Annuler" on the confirmation. */
    method CancelDelete()
      modifies this
      ensures deleteConfirmId == None
      ensures resources == old(resources) && isUploading == old(isUploading)
      ensures uploadSuccess == old(uploadSuccess) && uploadError == old(uploadError)
      ensures title == old(title) && selectedFile == old(selectedFile) && reloads == old(reloads)
    {
      deleteConfirmId := None;
    }

    /** `handleDelete`, the second step: a success removes exactly that
        resource and ends the confirmation; a failure changes nothing. */
    method Delete(resourceId: int, deleted: bool)
      modifies this
      ensures deleted ==> resources == DeleteResource(old(resources), resourceId) && deleteConfirmId == None
      ensures !deleted ==> resources == old(resources) && deleteConfirmId == old(deleteConfirmId)
      ensures isUploading == old(isUploading) && uploadSuccess == old(uploadSuccess)
      ensures uploadError == old(uploadError) && title == old(title)
      ensures selectedFile == old(selectedFile) && reloads == old(reloads)
    {
      if deleted {
        resources := DeleteResource(resources, resourceId);
        deleteConfirmId := None;
      }
    }
  }
}
