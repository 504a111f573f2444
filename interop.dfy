/** Where the browser code and the edge function disagree on a request, each
    side as written: what the server does with what the client sends. */
module Interop {
  import opened Common
  import opened Text
  import opened Json
  import opened Http
  import ServerStore
  import ProgressTracker
  import VideoManagement
  import AdminManagement
  import CategoryManagement
  import MockServer

  /** `saveProgress` names the learner `id`, so the edge function's progress
      route answers 400 and stores nothing, while the local mock server, which
      reads `id`, accepts the same body. */
  lemma ProgressPostOnlyReachesMock(records: map<string, Record>, p: ProgressTracker.ProgressPost, nowIso: string)
    requires p.id != "" && p.videoId != ""
    ensures ServerStore.PostProgress(records, ProgressTracker.PostFields(p), nowIso) == (400, records)
    ensures var data := MockServer.DataOf(MockServer.Parsed(JObj(ProgressTracker.PostFields(p))));
      data.Some? && data.value != JNull && Truthy(Prop(data, "id")) && Truthy(Prop(data, "videoId"))
  {
  }

  /** The create request of the video dialog is flat: it has no `video`
      property, which the edge function's create route requires. */
  lemma VideoCreateBodyLacksVideo(selectedCategory: string, form: VideoManagement.FormState, videoUrl: Option<Json>)
    requires form.editingVideo.None?
    ensures var body := VideoManagement.SaveRequest(selectedCategory, form, videoUrl).body;
      Field(body, "video").None? && !Truthy(Field(body, "video"))
  {
  }

  /** So every video created from the dialog is refused with 400 and the
      video lists stay as they were. */
  method CreateFromDialog(store: ServerStore.KvStore, selectedCategory: string, form: VideoManagement.FormState,
                          videoUrl: Option<Json>, now: nat, nowIso: string)
    returns (status: int)
    requires form.editingVideo.None?
    modifies store
    ensures status == 400 && store.lists == old(store.lists) && store.records == old(store.records)
  {
    var request := VideoManagement.SaveRequest(selectedCategory, form, videoUrl);
    VideoCreateBodyLacksVideo(selectedCategory, form, videoUrl);
    var created;
    status, created := store.CreateVideo(request.body, now, nowIso);
  }

  /** Editing a local video without picking a new file sends `videoUrl: ""`,
      and the server's shallow merge stores that empty URL over the old one. */
  lemma LocalEditBlanksStoredUrl(list: seq<Record>, selectedCategory: string, form: VideoManagement.FormState,
                                 upload: Option<Json>, nowIso: string)
    requires selectedCategory != "" && form.editingVideo.Some?
    requires form.uploadMethod == VideoManagement.Types.Local && form.selectedFile.None?
    ensures var request := VideoManagement.SubmitRequest(selectedCategory, form, true, upload);
      var videoId := form.editingVideo.value.id;
      var updated := ServerStore.UpdateById(list, Some(JStr(videoId)),
                                            ServerStore.VideoPatch(request.value.body, videoId, nowIso));
      request.Some? && (updated.Some? ==>
        var i := ServerStore.FindIndex(list, Some(JStr(videoId)));
        0 <= i < |updated.value| && Field(updated.value[i], "videoUrl") == Some(JStr("")))
  {
    VideoManagement.LocalEditWithoutFileSendsEmptyUrl(selectedCategory, form, upload);
    var request := VideoManagement.SubmitRequest(selectedCategory, form, true, upload);
    var videoId := form.editingVideo.value.id;
    var patch := ServerStore.VideoPatch(request.value.body, videoId, nowIso);
    assert "videoUrl" in request.value.body;
    assert patch["videoUrl"] == JStr("");
  }

  /** `uploadVideoFile` sends the file in the field `video`, but the edge
      function's `upload-video` route reads it from `file`: whatever the
      storage would do, the route answers 400, the upload throws, and no save
      request follows. */
  lemma LocalVideoUploadRefused(file: FileInfo, selectedCategory: string, form: VideoManagement.FormState,
                                configured: bool, storage: ServerStore.VideoStorage)
    requires VideoManagement.NeedsUpload(form)
    ensures var reply := ServerStore.UploadVideoReply(true, VideoManagement.UploadForm(file, selectedCategory), storage);
      reply == (400, map["error" := JStr("파일이 필요합니다.")])
      && VideoManagement.UploadedUrl(Some(JObj(reply.1))).None?
      && VideoManagement.SubmitRequest(selectedCategory, form, configured, Some(JObj(reply.1))).None?
  {
    var reply := ServerStore.UploadVideoReply(true, VideoManagement.UploadForm(file, selectedCategory), storage);
    assert Prop(Some(JObj(reply.1)), "success").None?;
  }

  /** So saving a local video with a file always ends in the save alert, with
      no request and the video lists unchanged. */
  method SaveLocalVideo(manager: VideoManagement.VideoManager, file: FileInfo, saved: Option<Json>,
                        storage: ServerStore.VideoStorage,
                        reload: Fetch<Option<seq<VideoManagement.ManagedVideo>>>, nowIso: string)
    returns (request: Option<Request>, alert: Option<string>)
    requires manager.selectedCategory != "" && VideoManagement.NeedsUpload(manager.form)
    modifies manager
    ensures request.None? && alert == Some("영상 저장 중 오류가 발생했습니다.")
    ensures manager.videos == old(manager.videos)
  {
    var reply := ServerStore.UploadVideoReply(true, VideoManagement.UploadForm(manager.form.selectedFile.value,
                                                                                manager.selectedCategory), storage);
    LocalVideoUploadRefused(manager.form.selectedFile.value, manager.selectedCategory, manager.form, true, storage);
    var notified;
    request, alert, notified := manager.HandleSubmit(true, Some(JObj(reply.1)), saved, reload, nowIso);
  }

  /** Were the field named `file`, the route's success reply would name the
      URL `url`, not `videoUrl`: the upload returns `undefined` and the save
      body has no `videoUrl` at all. */
  lemma UploadedVideoUrlIsDropped(file: FileInfo, selectedCategory: string, form: VideoManagement.FormState,
                                  signedUrl: Option<string>)
    requires selectedCategory != "" && VideoManagement.NeedsUpload(form)
    ensures var reply := ServerStore.UploadVideoReply(true, map["file" := FileValue(file), "categoryId" := TextValue(selectedCategory)],
                                                      ServerStore.StoredVideo(signedUrl));
      var request := VideoManagement.SubmitRequest(selectedCategory, form, true, Some(JObj(reply.1)));
      reply.0 == 200 && VideoManagement.UploadedUrl(Some(JObj(reply.1))) == Some(None)
      && request.Some? && "videoUrl" !in request.value.body
  {
    var reply := ServerStore.UploadVideoReply(true, map["file" := FileValue(file), "categoryId" := TextValue(selectedCategory)],
                                              ServerStore.StoredVideo(signedUrl));
    assert Prop(Some(JObj(reply.1)), "success") == Some(JBool(true));
    assert Prop(Some(JObj(reply.1)), "videoUrl").None?;
    VideoManagement.SubmitBodyShape(selectedCategory, form, None);
  }

  /** The category delete's confirmation promises that the category's videos
      go too, but the edge function's delete only filters the category list:
      the `videos_<id>` list survives, so a category created again with the
      same id shows the old videos. */
  method DeleteCategoryKeepsVideos(store: ServerStore.KvStore, categoryId: string) returns (status: int)
    modifies store
    ensures status == 200
    ensures store.List(ServerStore.VideosKey(categoryId)) == old(store.List(ServerStore.VideosKey(categoryId)))
    ensures forall k :: 0 <= k < |store.List(ServerStore.CategoriesKey)| ==>
      !ServerStore.HasId(store.List(ServerStore.CategoriesKey)[k], Some(JStr(categoryId)))
  {
    assert ServerStore.VideosKey(categoryId)[0] != ServerStore.CategoriesKey[0];
    status := store.DeleteCategory(categoryId);
  }

  /** The players hand a video's `duration` to `updateProgress` as stored,
      and the dialog and the server's seed store it as `m:ss` text: JavaScript
      reads such text as NaN, so `totalDuration * 0.9` and the percentage are
      NaN. */
  lemma ClockTextIsNaN(minutes: string, seconds: string)
    requires minutes != [] && AllDigits(minutes) && AllDigits(seconds)
    ensures ToNumber(minutes + ":" + seconds) == NaN
  {
    var t := minutes + ":" + seconds;
    assert t[|minutes|] == ':';
    forall i | 0 <= i < |t|
      ensures t[i] == ':' || IsDigit(t[i])
    {
      if i < |minutes| {
        assert t[i] == minutes[i];
      } else if i > |minutes| {
        assert t[i] == seconds[i - |minutes| - 1];
      }
    }
    NoSpaceNumber(t);
    assert t[0] == minutes[0] && IsDigit(t[0]);
    assert |t| >= 2 && !RadixMark(t[1]);
    assert TrimmedNumber(t) == UnsignedDecimal(t);
    assert ExponentAt(t) == |t| && t[..|t|] == t;
    assert !AllDigits(t) && !HasChar(t, '.');
    assert MantissaOf(t).None?;
    assert t != "Infinity";
  }

  /** The duration the dialog fills in from a picked file is such text. */
  lemma DetectedDurationIsNaN(seconds: nat)
    ensures ToNumber(VideoManagement.DetectedDuration(seconds)) == NaN
  {
    var s := NatToString(seconds % 60);
    var p := PadStart2(s);
    assert AllDigits(p) by {
      if |s| == 1 {
        assert forall i :: 1 <= i < |p| ==> p[i] == s[i - 1];
      }
    }
    ClockTextIsNaN(NatToString(seconds / 60), p);
  }

  /** `admin/<id>` is the server's update route `admin/update/<x>` only for an
      id that itself starts with `update/`. */
  lemma AdminPathMatchesUpdateRoute(id: string, x: string)
    ensures "admin/" + id == "admin/update/" + x <==> id == "update/" + x
  {
    if "admin/" + id == "admin/update/" + x {
      assert id == ("admin/" + id)[6..] == ("admin/update/" + x)[6..];
      assert ("admin/update/" + x)[6..] == "update/" + x;
    }
  }

  /** For the ids the server hands out (`admin_001` and `admin_<time>`), the
      dialog's save and the list's delete requests reach no admin route of the
      edge function. */
  lemma AdminRequestsMissServer(admin: AdminManagement.Admin, current: AdminManagement.Admin,
                                form: AdminManagement.AdminForm, x: string)
    requires StartsWith(admin.id, "admin_")
    ensures AdminManagement.SaveRequest(Some(admin), form).path != "admin/update/" + x
    ensures var d := AdminManagement.DeleteRequest(admin.id, admin, current, true);
      d.Some? ==> d.value.path != "admin/delete/" + x
  {
    var p := AdminManagement.SaveRequest(Some(admin), form).path;
    assert p[6] == admin.id[0] == 'a';
    assert ("admin/update/" + x)[6] == 'u';
    var d := AdminManagement.DeleteRequest(admin.id, admin, current, true);
    if d.Some? {
      assert d.value.path[6] == admin.id[0];
      assert ("admin/delete/" + x)[6] == 'd';
    }
  }

  /** The edge function's upload route answers `{ success, path, publicUrl }`
      with the URL as text, but `uploadImage` returns
      `data.publicUrl.publicUrl`, which is `undefined` for text. The save
      request then has no `image` property: a new category is stored without
      an image, and an edited one keeps its old image after the merge. */
  lemma UploadedImageIsDropped(file: FileInfo, now: nat, path: string, url: string,
                               editing: Option<CategoryManagement.Category>, form: CategoryManagement.CategoryForm,
                               stored: Record)
    requires file.size <= CategoryManagement.MaxImageBytes && StartsWith(file.mimeType, "image/")
    ensures var reply := CategoryManagement.Uploaded(
        JObj(map["success" := JBool(true), "path" := JStr(path), "publicUrl" := JStr(url)]));
      var up := CategoryManagement.UploadImage(file, now, reply);
      var image := CategoryManagement.SubmittedImage(form.image, Some(file), up.1, false);
      up.1 == CategoryManagement.Success(None) && image == CategoryManagement.Success(None)
      && var body := CategoryManagement.SaveRequest(editing, form, image.value).body;
      "image" !in body && Field(Merge(stored, body), "image") == Field(stored, "image")
  {
  }
}
