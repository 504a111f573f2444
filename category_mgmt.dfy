/** src/components/CategoryManagement.tsx: the admin screen for training
    categories, with an optional cover image uploaded before the category is
    saved. */
module CategoryManagement {
  import opened Common
  import opened Text
  import opened Json
  import opened Http

  datatype Category = Category(id: string, title: string, subtitle: string, image: string, description: string)

  datatype CategoryForm = CategoryForm(title: string, subtitle: string, image: string, description: string)

  const EmptyForm: CategoryForm := CategoryForm("", "", "", "")

  // ---------------------------------------------------------------- uploadImage

  const MaxImageBytes: nat := 5 * 1024 * 1024
  const SizeMessage: string := "파일 크기는 5MB를 초과할 수 없습니다."
  const TypeMessage: string := "이미지 파일만 업로드 가능합니다."
  const PlaceholderImage: string := "https://via.placeholder.com/400x300/f0f0f0/666?text=No+Image"

  /** A thrown value: an `Error` with its message, or anything else. */
  datatype Thrown = ErrorWith(message: string) | NonError

  /** How the upload request ended: an ok reply or one that was not ok, each
      with its parsed body, or an `Error` thrown by `fetch` or
      `response.json()`. */
  datatype UploadReply = Uploaded(data: Json) | Refused(data: Json) | Threw(message: string)

  /** `categories/category-${now}.${ext}`, `ext` being what follows the name's last dot. */
  function UploadPath(fileName: string, now: nat): string
  {
    "categories/category-" + NatToString(now) + "." + AfterLast(fileName, '.')
  }

  /** The stored file keeps the picked file's extension. */
  lemma UploadPathKeepsExtension(fileName: string, now: nat)
    ensures AfterLast(UploadPath(fileName, now), '.') == AfterLast(fileName, '.')
    ensures StartsWith(UploadPath(fileName, now), "categories/category-")
  {
    JoinedPath("categories/category-", NatToString(now), AfterLast(fileName, '.'));
  }

  /** A path made of a prefix, a middle part, a dot and an extension without
      dots starts with the prefix and ends with the extension. */
  lemma JoinedPath(prefix: string, middle: string, ext: string)
    requires !HasChar(ext, '.')
    ensures AfterLast(prefix + middle + "." + ext, '.') == ext
    ensures StartsWith(prefix + middle + "." + ext, prefix)
  {
    AfterLastOfJoin(prefix + middle, ext);
    assert (prefix + middle + "." + ext)[..|prefix|] == prefix;
  }

  lemma {:induction false} AfterLastOfJoin(head: string, ext: string)
    requires !HasChar(ext, '.')
    ensures AfterLast(head + "." + ext, '.') == ext
    decreases |ext|
  {
    var s := head + "." + ext;
    if ext != [] {
      var init := ext[..|ext| - 1];
      assert s[..|s| - 1] == head + "." + init;
      assert !HasChar(init, '.') by {
        forall i | 0 <= i < |init| ensures init[i] != '.' {
          assert init[i] == ext[i];
        }
      }
      assert s[|s| - 1] == ext[|ext| - 1];
      AfterLastOfJoin(head, init);
      assert init + [ext[|ext| - 1]] == ext;
    }
  }

  /** `uploadImage`: the path it posts the file to (`None` when a pre-check
      refused the file before any request) and what it returns, which is
      `data.publicUrl.publicUrl` of an ok reply (`None` for `undefined`), or
      the `Error` it throws. The size is checked before the type. Reading a
      property of `null` or `undefined` throws a `TypeError`: for `data.error`
      of a `null` refusal, and for the second `publicUrl` when the reply has
      no object under `publicUrl`. */
  function UploadImage(file: FileInfo, now: nat, reply: UploadReply): (r: (Option<string>, Result<Option<Json>>))
    ensures r.0.None? <==> file.size > MaxImageBytes || !StartsWith(file.mimeType, "image/")
    ensures file.size > MaxImageBytes ==> r.1 == Failure(ErrorWith(SizeMessage))
    ensures file.size <= MaxImageBytes && !StartsWith(file.mimeType, "image/") ==> r.1 == Failure(ErrorWith(TypeMessage))
    ensures r.0.Some? ==> r.0.value == UploadPath(file.name, now)
    ensures r.1.Success? <==>
      r.0.Some? && reply.Uploaded? && reply.data.JObj? && "publicUrl" in reply.data.fields
      && reply.data.fields["publicUrl"] != JNull
    ensures r.1.Success? ==> r.1.value == Prop(Some(reply.data.fields["publicUrl"]), "publicUrl")
    ensures r.0.Some? && reply.Uploaded? && reply.data == JNull ==>
      r.1 == Failure(ErrorWith(NullReadMessage("publicUrl")))
    ensures (r.0.Some? && reply.Uploaded? && reply.data.JObj? && "publicUrl" in reply.data.fields
             && reply.data.fields["publicUrl"] == JNull) ==>
      r.1 == Failure(ErrorWith(NullReadMessage("publicUrl")))
    ensures (r.0.Some? && reply.Uploaded? && reply.data != JNull
             && !(reply.data.JObj? && "publicUrl" in reply.data.fields)) ==>
      r.1 == Failure(ErrorWith(UndefinedReadMessage("publicUrl")))
    ensures r.0.Some? && reply.Refused? ==>
      r.1 == Failure(ErrorWith(if reply.data == JNull then NullReadMessage("error")
                               else Show(Some(Or(Prop(Some(reply.data), "error"), JStr("이미지 업로드에 실패했습니다."))))))
    ensures r.0.Some? && reply.Threw? ==> r.1 == Failure(ErrorWith(reply.message))
  {
    var path := UploadPath(file.name, now);
    if file.size > MaxImageBytes then (None, Failure(ErrorWith(SizeMessage)))
    else if !StartsWith(file.mimeType, "image/") then (None, Failure(ErrorWith(TypeMessage)))
    else
      match reply
      case Uploaded(data) =>
        var outer := Prop(Some(data), "publicUrl");
        if data == JNull || outer == Some(JNull) then (Some(path), Failure(ErrorWith(NullReadMessage("publicUrl"))))
        else if outer.None? then (Some(path), Failure(ErrorWith(UndefinedReadMessage("publicUrl"))))
        else (Some(path), Success(Prop(outer, "publicUrl")))
      case Refused(data) =>
        if data == JNull then (Some(path), Failure(ErrorWith(NullReadMessage("error"))))
        else (Some(path), Failure(ErrorWith(Show(Some(Or(Prop(Some(data), "error"), JStr("이미지 업로드에 실패했습니다.")))))))
      case Threw(message) => (Some(path), Failure(ErrorWith(message)))
  }

  datatype Result<T> = Success(value: T) | Failure(error: Thrown)

  // ---------------------------------------------------------------- handleSubmit

  const PermissionMessage: string :=
    "이미지 업로드 권한이 없습니다.\n\nSupabase Storage에서 다음 설정이 필요합니다:\n1. Storage > Settings에서 RLS 비활성화\n2. 또는 Public 정책 추가\n\n관리자에게 문의하세요."
  const DefaultSaveError: string := "카테고리 저장 중 오류가 발생했습니다."

  /** The alert for an error thrown while saving. */
  function ClassifyError(e: Thrown): (r: string)
    ensures e.NonError? ==> r == DefaultSaveError
    ensures e.ErrorWith? && (Contains(e.message, "row-level security policy") || Contains(e.message, "RLS")) ==>
      r == PermissionMessage
    ensures e.ErrorWith? && !Contains(e.message, "row-level security policy") && !Contains(e.message, "RLS") ==>
      r == if Contains(e.message, "파일 크기") || Contains(e.message, "이미지 파일") then e.message
           else "저장 실패: " + e.message
  {
    match e
    case NonError => DefaultSaveError
    case ErrorWith(m) =>
      if Contains(m, "row-level security policy") || Contains(m, "RLS") then PermissionMessage
      else if Contains(m, "파일 크기") || Contains(m, "이미지 파일") then m
      else "저장 실패: " + m
  }

  lemma NotContainedWithoutFirst(s: string, sub: string)
    requires sub != [] && !HasChar(s, sub[0])
    ensures !Contains(s, sub)
  {
    forall i | 0 <= i <= |s| - |sub| ensures !OccursAt(s, sub, i) {
      assert s[i..i + |sub|][0] == s[i];
    }
  }

  /** A pre-check's refusal reaches the admin word for word: neither message
      names RLS, and each names what it checks. */
  lemma PrecheckMessagesShownVerbatim()
    ensures ClassifyError(ErrorWith(SizeMessage)) == SizeMessage
    ensures ClassifyError(ErrorWith(TypeMessage)) == TypeMessage
  {
    NoAsciiLetter(SizeMessage, 'R');
    NoAsciiLetter(SizeMessage, 'r');
    NoAsciiLetter(TypeMessage, 'R');
    NoAsciiLetter(TypeMessage, 'r');
    NotContainedWithoutFirst(SizeMessage, "RLS");
    NotContainedWithoutFirst(SizeMessage, "row-level security policy");
    NotContainedWithoutFirst(TypeMessage, "RLS");
    NotContainedWithoutFirst(TypeMessage, "row-level security policy");
    assert OccursAt(SizeMessage, "파일 크기", 0);
    assert OccursAt(TypeMessage, "이미지 파일", 0);
  }

  lemma NoAsciiLetter(s: string, c: char)
    requires c == 'R' || c == 'r'
    requires s == SizeMessage || s == TypeMessage
    ensures !HasChar(s, c)
  {
    if s == SizeMessage {
      SizeMessageLetters();
    } else {
      TypeMessageLetters();
    }
    forall i | 0 <= i < |s| ensures s[i] != c {
      assert s[i] in s;
    }
  }

  lemma SizeMessageLetters()
    ensures forall x :: x in SizeMessage ==> x != 'R' && x != 'r'
  {
  }

  lemma TypeMessageLetters()
    ensures forall x :: x in TypeMessage ==> x != 'R' && x != 'r'
  {
  }

  /** The confirmation text shown after a failed upload. */
  function ContinuePrompt(e: Thrown): string
  {
    "이미지 업로드에 실패했습니다.\n\n" + (if e.ErrorWith? then e.message else "알 수 없는 오류")
    + "\n\n이미지 없이 카테고리를 저장하시겠습니까?"
  }

  /** The image the category is saved with (`None` for `undefined`), or the
      error that aborts the save. `upload` is the outcome of uploading the
      chosen file; `continueWithout` is the admin's answer to the prompt after
      a failed upload. */
  function SubmittedImage(formImage: string, selectedFile: Option<FileInfo>, upload: Result<Option<Json>>,
                          continueWithout: bool): (r: Result<Option<Json>>)
    ensures selectedFile.None? ==> r == Success(Some(JStr(formImage)))
    ensures selectedFile.Some? && upload.Success? ==> r == Success(upload.value)
    ensures selectedFile.Some? && upload.Failure? && continueWithout ==>
      r == Success(Some(JStr(if formImage != "" then formImage else PlaceholderImage)))
    ensures selectedFile.Some? && upload.Failure? && !continueWithout ==> r == Failure(upload.error)
  {
    if selectedFile.None? then Success(Some(JStr(formImage)))
    else match upload
      case Success(url) => Success(url)
      case Failure(e) =>
        if !continueWithout then Failure(e)
        else Success(Some(JStr(if formImage != "" then formImage else PlaceholderImage)))
  }

  /** The save request: `JSON.stringify({ ...formData, image })`, PUT to the
      edited category or POST to the list. An `undefined` image leaves the
      property out of the body. */
  function SaveRequest(editing: Option<Category>, form: CategoryForm, image: Option<Json>): (r: Request)
    ensures r.verb == "PUT" <==> editing.Some?
    ensures editing.Some? ==> r.path == "categories/" + editing.value.id
    ensures editing.None? ==> r.verb == "POST" && r.path == "categories"
    ensures r.body.Keys == {"title", "subtitle", "description"} + (if image.Some? then {"image"} else {})
    ensures Field(r.body, "image") == image
    ensures r.body["title"] == JStr(form.title) && r.body["subtitle"] == JStr(form.subtitle)
      && r.body["description"] == JStr(form.description)
  {
    var fields := map["title" := JStr(form.title), "subtitle" := JStr(form.subtitle),
                      "description" := JStr(form.description)];
    var body := if image.Some? then Merge(fields, map["image" := image.value]) else fields;
    if editing.Some? then Request("PUT", "categories/" + editing.value.id, body) else Request("POST", "categories", body)
  }

  /** How the save request ended: its parsed reply, or an `Error` it threw
      (reading `success` of a `null` reply throws a `TypeError`). */
  datatype SaveReply = Saved(data: Json) | SaveThrew(message: string)

  /** The demo categories `loadCategories` falls back to. */
  const DemoCategories: seq<Category> := [
    Category("fire", "화재발생 시 대응요령", "객실 화재 발생 시 승무원 행동요령",
      "https://images.unsplash.com/photo-1581578731548-c64695cc6952?w=400&h=300&fit=crop",
      "지하철 화재 발생 시 대응 방법을 학습합니다."),
    Category("safety", "지하철 안전운행", "안전한 지하철 운행을 위한 기본 수칙",
      "https://images.unsplash.com/photo-1544620347-c4fd4a3d5957?w=400&h=300&fit=crop",
      "지하철 운행 안전 수칙과 주의사항을 학습합니다.")]

  /** The list `loadCategories` stores. */
  function LoadedCategories(response: Fetch<Option<seq<Category>>>): seq<Category>
  {
    match response
    case Ok(data) => if data.Some? then data.value else []
    case _ => DemoCategories
  }

  // ---------------------------------------------------------------- the component

  class CategoryManager {
    var categories: seq<Category>
    var loading: bool
    var isDialogOpen: bool
    var editingCategory: Option<Category>
    var formData: CategoryForm
    var isUploading: bool
    var selectedFile: Option<FileInfo>
    var imagePreview: string

    constructor ()
      ensures categories == [] && loading && !isDialogOpen && editingCategory.None? && formData == EmptyForm
      ensures !isUploading && selectedFile.None? && imagePreview == ""
    {
      categories, loading, isDialogOpen, editingCategory := [], true, false, None;
      formData, isUploading, selectedFile, imagePreview := EmptyForm, false, None, "";
    }

    /** `loadCategories` */
    method LoadCategories(response: Fetch<Option<seq<Category>>>)
      modifies this
      ensures categories == LoadedCategories(response) && !loading
      ensures isDialogOpen == old(isDialogOpen) && editingCategory == old(editingCategory) && formData == old(formData)
        && isUploading == old(isUploading) && selectedFile == old(selectedFile) && imagePreview == old(imagePreview)
    {
      match response {
        case Ok(data) =>
          categories := if data.Some? then data.value else [];
        case _ =>
          categories := DemoCategories;
      }
      loading := false;
    }

    /** `handleFileSelect`: the picked file is kept (its preview arrives later). */
    method HandleFileSelect(file: Option<FileInfo>)
      modifies this
      ensures selectedFile == if file.Some? then file else old(selectedFile)
      ensures categories == old(categories) && loading == old(loading) && isDialogOpen == old(isDialogOpen)
        && editingCategory == old(editingCategory) && formData == old(formData) && isUploading == old(isUploading)
        && imagePreview == old(imagePreview)
    {
      if file.Some? {
        selectedFile := file;
      }
    }

    /** `removeSelectedFile`: the chosen file and its preview are dropped. */
    method RemoveSelectedFile()
      modifies this
      ensures selectedFile.None? && imagePreview == ""
      ensures categories == old(categories) && loading == old(loading) && isDialogOpen == old(isDialogOpen)
        && editingCategory == old(editingCategory) && formData == old(formData) && isUploading == old(isUploading)
    {
      selectedFile := None;
      imagePreview := "";
    }

    /** `handleEdit`: all four fields and the preview from the category, no file, dialog open. */
    method HandleEdit(category: Category)
      modifies this
      ensures editingCategory == Some(category)
      ensures formData == CategoryForm(category.title, category.subtitle, category.image, category.description)
      ensures imagePreview == category.image && selectedFile.None? && isDialogOpen
      ensures categories == old(categories) && loading == old(loading) && isUploading == old(isUploading)
    {
      editingCategory := Some(category);
      formData := CategoryForm(category.title, category.subtitle, category.image, category.description);
      imagePreview := category.image;
      selectedFile := None;
      isDialogOpen := true;
    }

    /** `resetForm`: no edited category, empty fields, no file, no preview. */
    method ResetForm()
      modifies this
      ensures editingCategory.None? && formData == EmptyForm && selectedFile.None? && imagePreview == ""
      ensures categories == old(categories) && loading == old(loading) && isDialogOpen == old(isDialogOpen)
        && isUploading == old(isUploading)
    {
      editingCategory := None;
      formData := CategoryForm("", "", "", "");
      selectedFile := None;
      imagePreview := "";
    }

    /** `handleSubmit`. `now` is `Date.now()`, `reply` the upload's outcome,
        `continueWithout` the answer to the prompt after a failed upload,
        `saved` the save request's outcome and `reload` the reply the list is
        then reloaded from. `isUploading` is false again on every path. */
    method HandleSubmit(now: nat, reply: UploadReply, continueWithout: bool, saved: SaveReply,
                        reload: Fetch<Option<seq<Category>>>)
      returns (uploadPath: Option<string>, prompt: Option<string>, request: Option<Request>,
               alert: Option<string>, notified: bool)
      modifies this
      ensures !isUploading
      ensures var up := if old(selectedFile).Some? then UploadImage(old(selectedFile).value, now, reply) else (None, Success(None));
        var image := SubmittedImage(old(formData).image, old(selectedFile), up.1, continueWithout);
        uploadPath == up.0
        && prompt == (if old(selectedFile).Some? && up.1.Failure? then Some(ContinuePrompt(up.1.error)) else None)
        && (image.Failure? ==>
              request.None? && alert == Some(ClassifyError(image.error)) && !notified
              && categories == old(categories) && loading == old(loading) && isDialogOpen == old(isDialogOpen)
              && editingCategory == old(editingCategory) && formData == old(formData)
              && selectedFile == old(selectedFile) && imagePreview == old(imagePreview))
        && (image.Success? ==> request == Some(SaveRequest(old(editingCategory), old(formData), image.value)))
      ensures request.Some? && saved.SaveThrew? ==>
        alert == Some(ClassifyError(ErrorWith(saved.message))) && !notified && categories == old(categories)
        && loading == old(loading) && isDialogOpen == old(isDialogOpen) && editingCategory == old(editingCategory)
        && formData == old(formData) && selectedFile == old(selectedFile) && imagePreview == old(imagePreview)
      ensures request.Some? && saved == Saved(JNull) ==>
        alert == Some(ClassifyError(ErrorWith(NullReadMessage("success")))) && !notified
        && categories == old(categories) && loading == old(loading) && isDialogOpen == old(isDialogOpen)
        && editingCategory == old(editingCategory) && formData == old(formData) && selectedFile == old(selectedFile)
        && imagePreview == old(imagePreview)
      ensures request.Some? && saved.Saved? && Truthy(Prop(Some(saved.data), "success")) ==>
        alert.None? && notified && categories == LoadedCategories(reload) && !loading && !isDialogOpen
        && editingCategory.None? && formData == EmptyForm && selectedFile.None? && imagePreview == ""
      ensures request.Some? && saved.Saved? && saved.data != JNull && !Truthy(Prop(Some(saved.data), "success")) ==>
        alert == Some(Show(Some(Or(Prop(Some(saved.data), "error"), JStr("카테고리 저장에 실패했습니다.")))))
        && !notified && categories == old(categories) && loading == old(loading) && isDialogOpen == old(isDialogOpen)
        && editingCategory == old(editingCategory) && formData == old(formData) && selectedFile == old(selectedFile)
        && imagePreview == old(imagePreview)
    {
      ghost var up := if selectedFile.Some? then UploadImage(selectedFile.value, now, reply) else (None, Success(None));
      ghost var image := SubmittedImage(formData.image, selectedFile, up.1, continueWithout);
      uploadPath, prompt, request, alert, notified := None, None, None, None, false;
      isUploading := true;
      var imageUrl := Some(JStr(formData.image));
      if selectedFile.Some? {
        var up := UploadImage(selectedFile.value, now, reply);
        uploadPath := up.0;
        match up.1 {
          case Success(url) =>
            imageUrl := url;
          case Failure(e) =>
            prompt := Some(ContinuePrompt(e));
            if !continueWithout {
              alert := Some(ClassifyError(e));
              isUploading := false;
              return;
            }
            imageUrl := Some(JStr(if formData.image != "" then formData.image else PlaceholderImage));
        }
      }
      assert image == Success(imageUrl) && uploadPath == up.0;
      request := Some(SaveRequest(editingCategory, formData, imageUrl));
      alert, notified := FinishSave(saved, reload);
      isUploading := false;
    }

    /** The part of `handleSubmit` after the save request: the reply's
        `success` closes the dialog and reloads the list, anything else
        alerts. */
    method FinishSave(saved: SaveReply, reload: Fetch<Option<seq<Category>>>)
      returns (alert: Option<string>, notified: bool)
      modifies this
      ensures isUploading == old(isUploading)
      ensures saved.SaveThrew? ==>
        alert == Some(ClassifyError(ErrorWith(saved.message))) && !notified && categories == old(categories)
        && loading == old(loading) && isDialogOpen == old(isDialogOpen) && editingCategory == old(editingCategory)
        && formData == old(formData) && selectedFile == old(selectedFile) && imagePreview == old(imagePreview)
      ensures saved == Saved(JNull) ==>
        alert == Some(ClassifyError(ErrorWith(NullReadMessage("success")))) && !notified
        && categories == old(categories) && loading == old(loading) && isDialogOpen == old(isDialogOpen)
        && editingCategory == old(editingCategory) && formData == old(formData) && selectedFile == old(selectedFile)
        && imagePreview == old(imagePreview)
      ensures saved.Saved? && Truthy(Prop(Some(saved.data), "success")) ==>
        alert.None? && notified && categories == LoadedCategories(reload) && !loading && !isDialogOpen
        && editingCategory.None? && formData == EmptyForm && selectedFile.None? && imagePreview == ""
      ensures saved.Saved? && saved.data != JNull && !Truthy(Prop(Some(saved.data), "success")) ==>
        alert == Some(Show(Some(Or(Prop(Some(saved.data), "error"), JStr("카테고리 저장에 실패했습니다.")))))
        && !notified && categories == old(categories) && loading == old(loading) && isDialogOpen == old(isDialogOpen)
        && editingCategory == old(editingCategory) && formData == old(formData) && selectedFile == old(selectedFile)
        && imagePreview == old(imagePreview)
    {
      alert, notified := None, false;
      match saved {
        case SaveThrew(message) =>
          alert := Some(ClassifyError(ErrorWith(message)));
        case Saved(data) =>
          if data == JNull {
            alert := Some(ClassifyError(ErrorWith(NullReadMessage("success"))));
          } else if Truthy(Prop(Some(data), "success")) {
            LoadCategories(reload);
            notified := true;
            isDialogOpen := false;
            ResetForm();
          } else {
            alert := Some(Show(Some(Or(Prop(Some(data), "error"), JStr("카테고리 저장에 실패했습니다.")))));
          }
      }
    }

    /** `handleDelete`. `confirmed` is the answer to the confirmation, which
        promises that the category's videos go too; `deleted` is the parsed
        reply (`None` when the request threw; a `null` reply throws when its
        `success` is read) and `reload` the reply the list is then reloaded
        from. Only the list can change. */
    method HandleDelete(categoryId: string, confirmed: bool, deleted: Option<Json>,
                        reload: Fetch<Option<seq<Category>>>)
      returns (request: Option<Request>, alert: Option<string>, notified: bool)
      modifies this
      ensures request == DeleteRequest(categoryId, confirmed)
      ensures isDialogOpen == old(isDialogOpen) && editingCategory == old(editingCategory) && formData == old(formData)
        && isUploading == old(isUploading) && selectedFile == old(selectedFile) && imagePreview == old(imagePreview)
      ensures !confirmed ==> alert.None? && !notified && categories == old(categories) && loading == old(loading)
      ensures request.Some? && ReadThrows(deleted) ==>
        alert == Some("카테고리 삭제 중 오류가 발생했습니다.") && !notified
        && categories == old(categories) && loading == old(loading)
      ensures request.Some? && !ReadThrows(deleted) && Truthy(Prop(deleted, "success")) ==>
        alert.None? && notified && categories == LoadedCategories(reload) && !loading
      ensures request.Some? && !ReadThrows(deleted) && !Truthy(Prop(deleted, "success")) ==>
        alert == Some(Show(Some(Or(Prop(deleted, "error"), JStr("카테고리 삭제에 실패했습니다.")))))
        && !notified && categories == old(categories) && loading == old(loading)
    {
      request, alert, notified := None, None, false;
      if !confirmed {
        return;
      }
      request := Some(Request("DELETE", "categories/" + categoryId, map[]));
      if ReadThrows(deleted) {
        alert := Some("카테고리 삭제 중 오류가 발생했습니다.");
        return;
      }
      if Truthy(Prop(deleted, "success")) {
        LoadCategories(reload);
        notified := true;
      } else {
        alert := Some(Show(Some(Or(Prop(deleted, "error"), JStr("카테고리 삭제에 실패했습니다.")))));
      }
    }
  }

  /** The delete request `handleDelete` makes: none unless the admin confirms. */
  function DeleteRequest(categoryId: string, confirmed: bool): (r: Option<Request>)
    ensures r.Some? <==> confirmed
    ensures r.Some? ==> r.value.verb == "DELETE" && r.value.path == "categories/" + categoryId
  {
    if confirmed then Some(Request("DELETE", "categories/" + categoryId, map[])) else None
  }
}
