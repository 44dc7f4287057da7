/** The admin study-material page (src/pages/admin/MaterialManagement.tsx): upload a file and
    post a new material, delete one, edit one, and count downloads. The page state is the
    class `MaterialPage`; the host's and the backend's answers are inputs. */
module MaterialManagement {
  import opened Common
  import Seqs
  import opened Hosting

  /** A material as the backend stores it. An absent `_id` is the empty string; `downloads`
      may be absent. */
  datatype Material = Material(
    id: string, title: string, description: string, kind: string, fileSize: string,
    uploadDate: string, status: string, downloads: Option<nat>, thumbnail: string, fileUrl: string)

  /** The body of the create request. */
  datatype MaterialData = MaterialData(
    title: string, description: string, kind: string, fileSize: string, uploadDate: string,
    status: string, downloads: nat, thumbnail: string, fileUrl: string)

  /** The fields an edit overwrites. */
  datatype UpdatedData = UpdatedData(
    title: string, description: string, status: string, thumbnail: string, fileUrl: string, fileSize: string)

  /** The create form and the edit form. */
  datatype NewMaterialForm = NewMaterialForm(
    title: string, description: string, kind: string, file: Option<SelectedFile>, status: string)
  datatype EditForm = EditForm(title: string, description: string, status: string, file: Option<SelectedFile>)

  const DefaultNewMaterial := NewMaterialForm("", "", "pdf", None, "Active")
  const DefaultEdit := EditForm("", "", "Active", None)

  /** A backend call: answered with a value, or failed with the response's message (empty when
      absent) and the error's own message. */
  datatype Backend<+T> = Answered(value: T) | Failed(responseMessage: string, errorMessage: string)

  const FetchFailedMessage := "Failed to fetch materials"
  const UnsupportedKindMessage := "Unsupported file type"
  const MissingFieldsMessage := "Title and description are required"
  const MissingFileMessage := "Please select a file to upload"
  const UploadFailedMessage := "Failed to upload material"
  const NothingSelectedMessage := "No material selected for deletion"
  const DeleteFailedMessage := "Failed to delete material"
  const UpdateFailedMessage := "Failed to update material"

  /** `err.response?.data?.message || err.message || fallback`. */
  function CaughtMessage(responseMessage: string, errorMessage: string, fallback: string): (r: string)
    ensures responseMessage != "" ==> r == responseMessage
    ensures responseMessage == "" && errorMessage != "" ==> r == errorMessage
    ensures responseMessage == "" && errorMessage == "" ==> r == fallback
    ensures fallback != "" ==> r != ""
  {
    OrElse(responseMessage, OrElse(errorMessage, fallback))
  }

  // ---------------------------------------------------------------------------
  // uploadFile(file, type)
  // ---------------------------------------------------------------------------

  /** No file, then the size limit, then the declared type picks the host: "image" the image
      host, "pdf" the PDF host, anything else is unsupported. */
  function UploadMaterialFile(file: Option<SelectedFile>, kind: string, outcome: TransferOutcome): (r: Result<string>)
    ensures file.None? ==> r == Err(NoFileMessage)
    ensures file.Some? && file.value.size > MaxUploadBytes ==> r == Err(TooLargeMessage)
    ensures file.Some? && file.value.size <= MaxUploadBytes && kind != "image" && kind != "pdf" ==>
      r == Err(UnsupportedKindMessage)
    ensures file.Some? && file.value.size <= MaxUploadBytes && kind == "image" ==> r == Transfer(ImageHost, outcome)
    ensures file.Some? && file.value.size <= MaxUploadBytes && kind == "pdf" ==> r == Transfer(PdfHost, outcome)
    ensures r.Ok? ==>
      && file.Some? && file.value.size <= MaxUploadBytes && (kind == "image" || kind == "pdf")
      && outcome == Hosted(r.value)
  {
    if file.None? then Err(NoFileMessage)
    else if file.value.size > MaxUploadBytes then Err(TooLargeMessage)
    else if kind == "image" then Transfer(ImageHost, outcome)
    else if kind == "pdf" then Transfer(PdfHost, outcome)
    else Err(UnsupportedKindMessage)
  }

  // ---------------------------------------------------------------------------
  // List operations
  // ---------------------------------------------------------------------------

  function Downloads(m: Material): nat {
    m.downloads.GetOr(0)
  }

  /** `materials.reduce((sum, m) => sum + (m.downloads || 0), 0)`. */
  function TotalDownloads(materials: seq<Material>): (r: nat)
    ensures forall k :: 0 <= k < |materials| ==> Downloads(materials[k]) <= r
    ensures materials == [] ==> r == 0
  {
    if materials == [] then 0 else Downloads(materials[0]) + TotalDownloads(materials[1..])
  }

  /** The total of a concatenation is the sum of the totals. */
  lemma {:induction false} TotalDownloadsAppend(a: seq<Material>, b: seq<Material>)
    ensures TotalDownloads(a + b) == TotalDownloads(a) + TotalDownloads(b)
  {
    if a == [] {
      assert a + b == b;
    } else {
      assert (a + b)[1..] == a[1..] + b;
      TotalDownloadsAppend(a[1..], b);
    }
  }

  /** `materials.filter(m => m._id !== id)`. */
  function WithoutId(materials: seq<Material>, id: string): (r: seq<Material>)
    ensures |r| <= |materials|
    ensures forall k :: 0 <= k < |r| ==> r[k].id != id
  {
    Seqs.Filter(materials, (m: Material) => m.id != id)
  }

  /** Deletion removes exactly the materials with that id, keeps the rest in order, and never
      raises the download total. */
  lemma {:induction false} DeletionEffect(materials: seq<Material>, id: string)
    ensures forall m :: m in WithoutId(materials, id) <==> m in materials && m.id != id
    ensures Seqs.IsSubsequence(WithoutId(materials, id), materials)
    ensures TotalDownloads(WithoutId(materials, id)) <= TotalDownloads(materials)
  {
    var keep := (m: Material) => m.id != id;
    forall m ensures m in WithoutId(materials, id) <==> m in materials && m.id != id {
      Seqs.FilterMembership(materials, keep, m);
    }
    Seqs.FilterIsSubsequence(materials, keep);
    if materials != [] {
      DeletionEffect(materials[1..], id);
      assert WithoutId(materials, id) == (if keep(materials[0]) then [materials[0]] else []) + WithoutId(materials[1..], id);
      TotalDownloadsAppend(if keep(materials[0]) then [materials[0]] else [], WithoutId(materials[1..], id));
    }
  }

  /** `{ ...m, ...updatedData }`. */
  function Merge(m: Material, u: UpdatedData): (r: Material)
    ensures r.id == m.id && r.kind == m.kind && r.uploadDate == m.uploadDate && r.downloads == m.downloads
    ensures r.title == u.title && r.description == u.description && r.status == u.status
    ensures r.thumbnail == u.thumbnail && r.fileUrl == u.fileUrl && r.fileSize == u.fileSize
  {
    m.(title := u.title, description := u.description, status := u.status,
       thumbnail := u.thumbnail, fileUrl := u.fileUrl, fileSize := u.fileSize)
  }

  /** `materials.map(m => m._id === id ? { ...m, ...updatedData } : m)`. */
  function MergeById(materials: seq<Material>, id: string, u: UpdatedData): (r: seq<Material>)
    ensures |r| == |materials|
    ensures forall k :: 0 <= k < |r| ==> r[k].id == materials[k].id
  {
    seq(|materials|, k requires 0 <= k < |materials| =>
      if materials[k].id == id then Merge(materials[k], u) else materials[k])
  }

  /** An edit keeps the length and every other material; the matching ones take the edited
      fields and keep their id, type, date and download count, so the total is unchanged. */
  lemma {:induction false} MergeEffect(materials: seq<Material>, id: string, u: UpdatedData)
    ensures |MergeById(materials, id, u)| == |materials|
    ensures forall k :: 0 <= k < |materials| && materials[k].id != id ==> MergeById(materials, id, u)[k] == materials[k]
    ensures forall k :: 0 <= k < |materials| && materials[k].id == id ==>
      var m, m' := materials[k], MergeById(materials, id, u)[k];
      m'.id == m.id && m'.kind == m.kind && m'.uploadDate == m.uploadDate && m'.downloads == m.downloads
      && m'.title == u.title && m'.description == u.description && m'.status == u.status
      && m'.thumbnail == u.thumbnail && m'.fileUrl == u.fileUrl && m'.fileSize == u.fileSize
    ensures TotalDownloads(MergeById(materials, id, u)) == TotalDownloads(materials)
  {
    if materials != [] {
      MergeEffect(materials[1..], id, u);
      assert MergeById(materials, id, u)[1..] == MergeById(materials[1..], id, u);
    }
  }

  // ---------------------------------------------------------------------------
  // The page state
  // ---------------------------------------------------------------------------

  class MaterialPage {
    var materials: seq<Material>
    var newMaterial: NewMaterialForm
    var editMaterial: EditForm
    var selected: Option<Material>
    var error: string
    var uploadModalOpen: bool
    var editModalOpen: bool
    var deleteDialogOpen: bool

    /** The page after the initial fetch: the fetched list (empty when the answer was not an
        array), or an empty list and an error when the fetch failed. */
    constructor (fetched: Option<seq<Material>>)
      ensures materials == fetched.GetOr([]) && newMaterial == DefaultNewMaterial && editMaterial == DefaultEdit
      ensures selected.None? && error == (if fetched.None? then FetchFailedMessage else "")
      ensures !uploadModalOpen && !editModalOpen && !deleteDialogOpen
    {
      materials := fetched.GetOr([]);
      newMaterial, editMaterial := DefaultNewMaterial, DefaultEdit;
      selected, error := None, if fetched.None? then FetchFailedMessage else "";
      uploadModalOpen, editModalOpen, deleteDialogOpen := false, false, false;
    }

    /** `handleUpload`: validate the form, send the file, post the material and, on success,
        put the created material first and reset the form. `sizeText` and `today` stand for the
        formatted size and the current date; the returned value is the body posted, if any. */
    method HandleUpload(sizeText: string, today: string, transfer: TransferOutcome, post: Backend<Material>)
      returns (posted: Option<MaterialData>)
      modifies this`materials, this`newMaterial, this`error, this`uploadModalOpen
      ensures newMaterial == old(newMaterial) || newMaterial == DefaultNewMaterial
      ensures old(newMaterial).title == "" || old(newMaterial).description == "" ==>
        posted.None? && materials == old(materials) && error == MissingFieldsMessage
      ensures old(newMaterial).title != "" && old(newMaterial).description != "" && old(newMaterial).file.None? ==>
        posted.None? && materials == old(materials) && error == MissingFileMessage
      ensures posted.Some? ==>
        var f := old(newMaterial);
        && f.title != "" && f.description != "" && f.file.Some?
        && UploadMaterialFile(f.file, f.kind, transfer) == Ok(posted.value.fileUrl)
        && posted.value == MaterialData(f.title, f.description, f.kind, sizeText, today, f.status, 0,
                                        posted.value.fileUrl, posted.value.fileUrl)
      ensures var f := old(newMaterial);
        f.title != "" && f.description != "" && f.file.Some? ==>
          (posted.Some? <==> UploadMaterialFile(f.file, f.kind, transfer).Ok?)
      ensures var f := old(newMaterial);
        f.title != "" && f.description != "" && f.file.Some? && UploadMaterialFile(f.file, f.kind, transfer).Err? ==>
          error == CaughtMessage("", UploadMaterialFile(f.file, f.kind, transfer).message, UploadFailedMessage)
      ensures posted.Some? && post.Answered? ==>
        materials == [post.value] + old(materials) && newMaterial == DefaultNewMaterial && error == ""
        && !uploadModalOpen
      ensures posted.None? || post.Failed? ==>
        materials == old(materials) && newMaterial == old(newMaterial) && uploadModalOpen == old(uploadModalOpen)
      ensures posted.Some? && post.Failed? ==> error == CaughtMessage(post.responseMessage, post.errorMessage, UploadFailedMessage)
    {
      error := "";
      var form := newMaterial;
      if form.title == "" || form.description == "" {
        error := MissingFieldsMessage;
        return None;
      }
      if form.file.None? {
        error := MissingFileMessage;
        return None;
      }
      var fileUrl;
      match UploadMaterialFile(form.file, form.kind, transfer) {
        case Err(m) =>
          error := CaughtMessage("", m, UploadFailedMessage);
          return None;
        case Ok(url) =>
          fileUrl := url;
      }
      posted := Some(MaterialData(form.title, form.description, form.kind, sizeText, today, form.status, 0, fileUrl, fileUrl));
      match post {
        case Answered(created) =>
          materials := [created] + materials;
          uploadModalOpen := false;
          newMaterial := DefaultNewMaterial;
          error := "";
        case Failed(responseMessage, errorMessage) =>
          error := CaughtMessage(responseMessage, errorMessage, UploadFailedMessage);
      }
    }

    /** `handleEdit`: select the material and fill the edit form from it, with no file. */
    method HandleEdit(m: Material)
      modifies this`selected, this`editMaterial, this`editModalOpen
      ensures selected == Some(m) && editMaterial == EditForm(m.title, m.description, m.status, None)
      ensures editModalOpen
    {
      selected := Some(m);
      editMaterial := EditForm(m.title, m.description, m.status, None);
      editModalOpen := true;
    }

    /** `handleDelete`: select the material and open the confirmation. */
    method HandleDelete(m: Material)
      modifies this`selected, this`deleteDialogOpen
      ensures selected == Some(m) && deleteDialogOpen
    {
      selected := Some(m);
      deleteDialogOpen := true;
    }

    /** `confirmDelete`: with no selected id nothing is requested; otherwise the delete request
        for that id is sent and, on success, every material with that id leaves the list. */
    method ConfirmDelete(request: Backend<()>) returns (deletedId: Option<string>)
      modifies this`materials, this`selected, this`error, this`deleteDialogOpen
      ensures old(selected).None? || old(selected).value.id == "" ==>
        deletedId.None? && materials == old(materials) && error == NothingSelectedMessage
      ensures deletedId.Some? ==> old(selected).Some? && deletedId.value == old(selected).value.id != ""
      ensures old(selected).Some? && old(selected).value.id != "" ==> deletedId == Some(old(selected).value.id)
      ensures deletedId.Some? && request.Answered? ==>
        materials == WithoutId(old(materials), deletedId.value) && selected.None? && error == ""
        && !deleteDialogOpen
      ensures deletedId.None? || request.Failed? ==>
        selected == old(selected) && deleteDialogOpen == old(deleteDialogOpen)
      ensures deletedId.Some? && request.Failed? ==>
        materials == old(materials) && error == OrElse(request.responseMessage, DeleteFailedMessage)
    {
      if selected.None? || selected.value.id == "" {
        error := NothingSelectedMessage;
        return None;
      }
      var id := selected.value.id;
      deletedId := Some(id);
      match request {
        case Answered(_) =>
          materials := WithoutId(materials, id);
          deleteDialogOpen := false;
          selected := None;
          error := "";
        case Failed(responseMessage, _) =>
          error := OrElse(responseMessage, DeleteFailedMessage);
      }
    }

    /** `saveEdit`: validate, replace the file only when a new one was given (keeping the old
        URL and thumbnail otherwise), send the update and, on success, merge it into the
        materials with the selected id. The edit dialog is reached only through `HandleEdit`,
        so a material is selected. */
    method SaveEdit(sizeText: string, transfer: TransferOutcome, patch: Backend<()>)
      returns (update: Option<UpdatedData>)
      requires selected.Some?
      modifies this`materials, this`selected, this`editMaterial, this`error, this`editModalOpen
      ensures old(editMaterial).title == "" || old(editMaterial).description == "" ==>
        update.None? && materials == old(materials) && error == MissingFieldsMessage
      ensures update.Some? ==>
        var f, sel := old(editMaterial), old(selected).value;
        && f.title != "" && f.description != ""
        && update.value.title == f.title && update.value.description == f.description
        && update.value.status == f.status
        && (f.file.None? ==> update.value.fileUrl == sel.fileUrl && update.value.thumbnail == sel.thumbnail
                             && update.value.fileSize == sel.fileSize)
        && (f.file.Some? ==> UploadMaterialFile(f.file, sel.kind, transfer) == Ok(update.value.fileUrl)
                             && update.value.thumbnail == update.value.fileUrl && update.value.fileSize == sizeText)
      ensures var f, sel := old(editMaterial), old(selected).value;
        f.title != "" && f.description != "" ==>
          (update.Some? <==> f.file.None? || UploadMaterialFile(f.file, sel.kind, transfer).Ok?)
      ensures var f, sel := old(editMaterial), old(selected).value;
        f.title != "" && f.description != "" && f.file.Some? && UploadMaterialFile(f.file, sel.kind, transfer).Err? ==>
          error == CaughtMessage("", UploadMaterialFile(f.file, sel.kind, transfer).message, UpdateFailedMessage)
      ensures update.Some? && patch.Answered? ==>
        materials == MergeById(old(materials), old(selected).value.id, update.value)
        && selected.None? && editMaterial == DefaultEdit && error == "" && !editModalOpen
      ensures update.None? || patch.Failed? ==>
        materials == old(materials) && selected == old(selected) && editMaterial == old(editMaterial)
        && editModalOpen == old(editModalOpen)
      ensures update.Some? && patch.Failed? ==>
        error == CaughtMessage(patch.responseMessage, patch.errorMessage, UpdateFailedMessage)
    {
      error := "";
      var form, sel := editMaterial, selected.value;
      if form.title == "" || form.description == "" {
        error := MissingFieldsMessage;
        return None;
      }
      var fileUrl, thumbnail := sel.fileUrl, sel.thumbnail;
      if form.file.Some? {
        match UploadMaterialFile(form.file, sel.kind, transfer) {
          case Err(m) =>
            error := CaughtMessage("", m, UpdateFailedMessage);
            return None;
          case Ok(url) =>
            fileUrl := url;
            thumbnail := fileUrl;
        }
      }
      var data := UpdatedData(form.title, form.description, form.status, thumbnail, fileUrl,
                              if form.file.Some? then sizeText else sel.fileSize);
      update := Some(data);
      match patch {
        case Answered(_) =>
          materials := MergeById(materials, sel.id, data);
          editModalOpen := false;
          selected := None;
          editMaterial := DefaultEdit;
          error := "";
        case Failed(responseMessage, errorMessage) =>
          error := CaughtMessage(responseMessage, errorMessage, UpdateFailedMessage);
      }
    }
  }

  /** A created material adds its own downloads to the total; a fresh one, whose count the
      backend starts at 0, leaves the total as it was. */
  lemma CreateAddsToTotal(created: Material, materials: seq<Material>)
    ensures TotalDownloads([created] + materials) == Downloads(created) + TotalDownloads(materials)
    ensures Downloads(created) == 0 ==> TotalDownloads([created] + materials) == TotalDownloads(materials)
  {
    TotalDownloadsAppend([created], materials);
  }
}
