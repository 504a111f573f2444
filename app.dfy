/** src/App.tsx: the learner-facing shell. Which screen is shown, which topic
    and video are selected, who is signed in, and the videos of each category. */
module AppShell {
  import opened Common
  import opened Json
  import opened Types
  import opened Browser
  import CategoryManagement

  type Category = CategoryManagement.Category

  datatype ViewState = Topics | VideoList | VideoPlayer | AdminLogin | AdminDashboard | UserLogin

  /** `mockVideos[id] || []`: the bundled videos of a category, if any. */
  function MockOr(mockVideos: map<string, seq<Video>>, id: string): seq<Video>
  {
    if id in mockVideos then mockVideos[id] else []
  }

  /** What one category's video request leaves in the table: the server's
      `videos` when they form an array (else `[]`), or the bundled videos when
      the request fails or throws. `data` is `None` when `videos` is not an array. */
  function VideosFrom(reply: Fetch<Option<seq<Video>>>, mockVideos: map<string, seq<Video>>, id: string): (r: seq<Video>)
    ensures reply.Ok? && reply.data.Some? ==> r == reply.data.value
    ensures reply.Ok? && reply.data.None? ==> r == []
    ensures !reply.Ok? ==> r == MockOr(mockVideos, id)
  {
    match reply
    case Ok(data) => if data.Some? then data.value else []
    case _ => MockOr(mockVideos, id)
  }

  /** The reply to the request for the `i`-th category; a missing one threw. */
  function ReplyAt(replies: seq<Fetch<Option<seq<Video>>>>, i: nat): Fetch<Option<seq<Video>>>
  {
    if i < |replies| then replies[i] else Threw
  }

  /** The table `loadCategories` has built after its first `n` categories. */
  function CountsAfter(cats: seq<Category>, replies: seq<Fetch<Option<seq<Video>>>>,
                       mockVideos: map<string, seq<Video>>, n: nat): map<string, seq<Video>>
    requires n <= |cats|
  {
    if n == 0 then map[]
    else CountsAfter(cats, replies, mockVideos, n - 1)[cats[n - 1].id := VideosFrom(ReplyAt(replies, n - 1), mockVideos, cats[n - 1].id)]
  }

  /** Exactly the loaded categories have an entry. */
  lemma {:induction false} CountsAfterKeys(cats: seq<Category>, replies: seq<Fetch<Option<seq<Video>>>>,
                                           mockVideos: map<string, seq<Video>>, n: nat)
    requires n <= |cats|
    ensures CountsAfter(cats, replies, mockVideos, n).Keys == set i | 0 <= i < n :: cats[i].id
  {
    if n > 0 {
      CountsAfterKeys(cats, replies, mockVideos, n - 1);
      var before := set i | 0 <= i < n - 1 :: cats[i].id;
      var after := set i | 0 <= i < n :: cats[i].id;
      assert after == before + {cats[n - 1].id} by {
        forall x | x in after ensures x in before + {cats[n - 1].id} {
          var i :| 0 <= i < n && cats[i].id == x;
          if i < n - 1 { assert x in before; }
        }
      }
    }
  }

  /** Each category's entry comes from its own request alone (from the last
      request for its id when ids repeat): a failed request falls back to the
      bundled videos of that category and touches no other entry. */
  lemma {:induction false} CountsAfterEntry(cats: seq<Category>, replies: seq<Fetch<Option<seq<Video>>>>,
                                            mockVideos: map<string, seq<Video>>, n: nat, i: nat)
    requires i < n <= |cats|
    requires forall j :: i < j < n ==> cats[j].id != cats[i].id
    ensures cats[i].id in CountsAfter(cats, replies, mockVideos, n)
    ensures CountsAfter(cats, replies, mockVideos, n)[cats[i].id] == VideosFrom(ReplyAt(replies, i), mockVideos, cats[i].id)
  {
    if i < n - 1 {
      CountsAfterEntry(cats, replies, mockVideos, n - 1, i);
    }
  }

  /** `data.categories || []` of a categories reply; `data` is `None` when the
      field is missing. */
  function LoadedCategories(data: Option<seq<Category>>): seq<Category>
  {
    if data.Some? then data.value else []
  }

  /** `getCurrentVideos`: the selected topic's videos, `[]` for an unknown topic. */
  function CurrentVideos(videosByCategory: map<string, seq<Video>>, topicId: string): (r: seq<Video>)
    ensures topicId !in videosByCategory ==> r == []
    ensures topicId in videosByCategory ==> r == videosByCategory[topicId]
  {
    if topicId in videosByCategory then videosByCategory[topicId] else []
  }

  /** `getCurrentTopic`: the first category with the selected id. */
  function CurrentTopic(categories: seq<Category>, topicId: string): (r: Option<Category>)
    ensures r.None? <==> forall i :: 0 <= i < |categories| ==> categories[i].id != topicId
    ensures r.Some? ==> r.value in categories && r.value.id == topicId
    ensures r.Some? && categories != [] && categories[0].id == topicId ==> r.value == categories[0]
    ensures r.Some? ==> exists i :: 0 <= i < |categories| && categories[i] == r.value
                                    && forall j :: 0 <= j < i ==> categories[j].id != topicId
  {
    if categories == [] then None
    else if categories[0].id == topicId then Some(categories[0])
    else CurrentTopic(categories[1..], topicId)
  }

  /** The videos other than `selectedId`, in their order. */
  function Others(videos: seq<Video>, selectedId: string): (r: seq<Video>)
    ensures |r| <= |videos|
    ensures forall v :: v in r <==> v in videos && v.id != selectedId
  {
    if videos == [] then []
    else if videos[0].id != selectedId then [videos[0]] + Others(videos[1..], selectedId)
    else Others(videos[1..], selectedId)
  }

  /** The "other videos of this topic" panel: the first three videos other than
      the playing one. */
  function RelatedVideos(videos: seq<Video>, selected: Video): (r: seq<Video>)
    ensures |r| <= 3
    ensures |r| == Min(3, |Others(videos, selected.id)|)
    ensures r == Others(videos, selected.id)[..|r|]
    ensures forall v :: v in r ==> v in videos && v.id != selected.id
  {
    var others := Others(videos, selected.id);
    if |others| <= 3 then others else others[..3]
  }

  /** `a` is `b` with some elements left out, the rest in their order. */
  predicate SubsequenceOf<T(==)>(a: seq<T>, b: seq<T>)
    decreases |b|
  {
    if a == [] then true
    else if b == [] then false
    else (a[0] == b[0] && SubsequenceOf(a[1..], b[1..])) || SubsequenceOf(a, b[1..])
  }

  /** The related videos keep the order of the topic's list. */
  lemma {:induction false} OthersKeepOrder(videos: seq<Video>, selectedId: string)
    ensures SubsequenceOf(Others(videos, selectedId), videos)
  {
    if videos != [] {
      OthersKeepOrder(videos[1..], selectedId);
      var rest := Others(videos[1..], selectedId);
      if videos[0].id != selectedId {
        assert Others(videos, selectedId) == [videos[0]] + rest;
        assert ([videos[0]] + rest)[1..] == rest;
      } else {
        SubsequenceSkip(rest, videos);
      }
    }
  }

  lemma SubsequenceSkip<T>(a: seq<T>, b: seq<T>)
    requires b != [] && SubsequenceOf(a, b[1..])
    ensures SubsequenceOf(a, b)
  {
  }

  /** A prefix of a subsequence is a subsequence. */
  lemma {:induction false} PrefixOfSubsequence<T>(a: seq<T>, b: seq<T>, n: nat)
    requires SubsequenceOf(a, b) && n <= |a|
    ensures SubsequenceOf(a[..n], b)
    decreases |b|
  {
    if n > 0 {
      assert a != [] && b != [];
      if a[0] == b[0] && SubsequenceOf(a[1..], b[1..]) {
        PrefixOfSubsequence(a[1..], b[1..], n - 1);
        assert a[..n][1..] == a[1..][..n - 1];
      } else {
        PrefixOfSubsequence(a, b[1..], n);
      }
    }
  }

  /** The related panel lists videos of the topic in the topic's order. */
  lemma RelatedKeepOrder(videos: seq<Video>, selected: Video)
    ensures SubsequenceOf(RelatedVideos(videos, selected), videos)
  {
    OthersKeepOrder(videos, selected.id);
    PrefixOfSubsequence(Others(videos, selected.id), videos, |RelatedVideos(videos, selected)|);
  }

  /** The card of a category on the topics screen; its count is that of the
      videos `getCurrentVideos` would list for it. */
  function TopicCardOf(category: Category, videosByCategory: map<string, seq<Video>>): (r: Topic)
    ensures r.id == category.id && r.thumbnail == category.image
    ensures r.videoCount == |CurrentVideos(videosByCategory, category.id)|
  {
    Topic(category.id, category.title, category.description, category.image,
          if category.id in videosByCategory then |videosByCategory[category.id]| else 0)
  }

  class App {
    const mockVideos: map<string, seq<Video>>
    var currentView: ViewState
    var selectedTopicId: string
    var selectedVideo: Option<Video>
    var adminUser: Json
    var currentUser: Json
    var categories: seq<Category>
    var loading: bool
    var videosByCategory: map<string, seq<Video>>
    var videosLoading: bool

    /** The first render: the topics screen, nothing selected, nobody signed in. */
    constructor (bundled: map<string, seq<Video>>)
      ensures mockVideos == bundled && currentView == Topics && selectedTopicId == "" && selectedVideo.None?
      ensures adminUser == JNull && currentUser == JNull && categories == [] && loading
      ensures videosByCategory == map[] && !videosLoading
    {
      mockVideos := bundled;
      currentView, selectedTopicId, selectedVideo := Topics, "", None;
      adminUser, currentUser := JNull, JNull;
      categories, loading, videosByCategory, videosLoading := [], true, map[], false;
    }

    /** The effect that restores the saved learner: a parsable value becomes
        `currentUser`; an unparsable one is removed and nobody is signed in. */
    method RestoreSavedUser(storage: LocalStorage)
      modifies this, storage
      ensures Parsed(old(storage.items), CurrentUserKey).Some? ==>
        currentUser == Parsed(old(storage.items), CurrentUserKey).value && storage.items == old(storage.items)
      ensures Stored(old(storage.items), CurrentUserKey) && Parsed(old(storage.items), CurrentUserKey).None? ==>
        currentUser == old(currentUser) && storage.items == old(storage.items) - {CurrentUserKey}
      ensures !Stored(old(storage.items), CurrentUserKey) ==>
        currentUser == old(currentUser) && storage.items == old(storage.items)
      ensures currentView == old(currentView) && selectedTopicId == old(selectedTopicId)
      ensures selectedVideo == old(selectedVideo) && videosByCategory == old(videosByCategory)
    {
      if Stored(storage.items, CurrentUserKey) {
        var saved := Parsed(storage.items, CurrentUserKey);
        if saved.Some? {
          currentUser := saved.value;
        } else {
          storage.RemoveItem(CurrentUserKey);
        }
      }
    }

    /** `loadCategories`. `response` is the categories reply and `replies[i]`
        the reply for the `i`-th loaded category (a missing one threw). */
    method LoadCategories(response: Fetch<Option<seq<Category>>>, replies: seq<Fetch<Option<seq<Video>>>>)
      modifies this
      ensures response.Ok? ==>
        categories == LoadedCategories(response.data)
        && videosByCategory == CountsAfter(categories, replies, mockVideos, |categories|)
      ensures !response.Ok? ==> categories == old(categories) && videosByCategory == old(videosByCategory)
      ensures !loading
      ensures currentView == old(currentView) && selectedTopicId == old(selectedTopicId)
      ensures selectedVideo == old(selectedVideo) && currentUser == old(currentUser) && adminUser == old(adminUser)
      ensures videosLoading == old(videosLoading)
    {
      if response.Ok? {
        var loaded := LoadedCategories(response.data);
        categories := loaded;
        var videoCounts: map<string, seq<Video>> := map[];
        for n := 0 to |loaded|
          invariant videoCounts == CountsAfter(loaded, replies, mockVideos, n)
        {
          var category := loaded[n];
          match ReplyAt(replies, n) {
            case Ok(data) =>
              videoCounts := videoCounts[category.id := if data.Some? then data.value else []];
            case _ =>
              videoCounts := videoCounts[category.id := MockOr(mockVideos, category.id)];
          }
        }
        videosByCategory := videoCounts;
      }
      loading := false;
    }

    /** `loadVideosForCategory`: nothing for an empty id; otherwise only that
        category's entry is replaced, from the reply or the bundled videos. */
    method LoadVideosForCategory(categoryId: string, reply: Fetch<Option<seq<Video>>>)
      modifies this
      ensures categoryId == "" ==> videosByCategory == old(videosByCategory) && videosLoading == old(videosLoading)
      ensures categoryId != "" ==>
        videosByCategory == old(videosByCategory)[categoryId := VideosFrom(reply, mockVideos, categoryId)]
        && !videosLoading
      ensures currentView == old(currentView) && selectedTopicId == old(selectedTopicId) && selectedVideo == old(selectedVideo)
      ensures categories == old(categories) && loading == old(loading)
      ensures currentUser == old(currentUser) && adminUser == old(adminUser)
    {
      if categoryId == "" {
        return;
      }
      videosLoading := true;
      match reply {
        case Ok(data) =>
          var serverVideos := if data.Some? then data.value else [];
          videosByCategory := videosByCategory[categoryId := serverVideos];
        case _ =>
          videosByCategory := videosByCategory[categoryId := MockOr(mockVideos, categoryId)];
      }
      videosLoading := false;
    }

    /** `handleTopicSelect`: the topic is selected, its videos reloaded, and the
        video list shown. */
    method HandleTopicSelect(topicId: string, reply: Fetch<Option<seq<Video>>>)
      modifies this
      ensures selectedTopicId == topicId && currentView == VideoList
      ensures topicId != "" ==> videosByCategory == old(videosByCategory)[topicId := VideosFrom(reply, mockVideos, topicId)]
      ensures topicId == "" ==> videosByCategory == old(videosByCategory)
      ensures videosLoading == (if topicId == "" then old(videosLoading) else false)
      ensures selectedVideo == old(selectedVideo) && currentUser == old(currentUser) && adminUser == old(adminUser)
      ensures categories == old(categories) && loading == old(loading)
    {
      selectedTopicId := topicId;
      LoadVideosForCategory(topicId, reply);
      currentView := VideoList;
    }

    /** `handleVideoSelect` */
    method HandleVideoSelect(video: Video)
      modifies this
      ensures selectedVideo == Some(video) && currentView == VideoPlayer
      ensures selectedTopicId == old(selectedTopicId) && videosByCategory == old(videosByCategory)
      ensures currentUser == old(currentUser) && adminUser == old(adminUser)
    {
      selectedVideo := Some(video);
      currentView := VideoPlayer;
    }

    /** `handleBackToTopics`: the topic selection is cleared. */
    method HandleBackToTopics()
      modifies this
      ensures currentView == Topics && selectedTopicId == ""
      ensures selectedVideo == old(selectedVideo) && videosByCategory == old(videosByCategory)
      ensures currentUser == old(currentUser) && adminUser == old(adminUser)
    {
      currentView := Topics;
      selectedTopicId := "";
    }

    /** `handleBackToVideoList`: the playing video is cleared, the topic kept. */
    method HandleBackToVideoList()
      modifies this
      ensures currentView == VideoList && selectedVideo.None?
      ensures selectedTopicId == old(selectedTopicId) && videosByCategory == old(videosByCategory)
      ensures currentUser == old(currentUser) && adminUser == old(adminUser)
    {
      currentView := VideoList;
      selectedVideo := None;
    }

    /** The header's back button, shown on the video list and the player: one
        level up. */
    method HandleBack()
      requires currentView == VideoList || currentView == VideoPlayer
      modifies this
      ensures old(currentView) == VideoList ==> currentView == Topics && selectedTopicId == "" && selectedVideo == old(selectedVideo)
      ensures old(currentView) == VideoPlayer ==> currentView == VideoList && selectedVideo.None? && selectedTopicId == old(selectedTopicId)
      ensures videosByCategory == old(videosByCategory) && currentUser == old(currentUser) && adminUser == old(adminUser)
    {
      if currentView == VideoList {
        HandleBackToTopics();
      } else {
        HandleBackToVideoList();
      }
    }

    /** The buttons and `onBack` callbacks that switch screens without other effects. */
    method ShowView(view: ViewState)
      requires view == Topics || view == UserLogin || view == AdminLogin
      modifies this
      ensures currentView == view
      ensures selectedTopicId == old(selectedTopicId) && selectedVideo == old(selectedVideo)
      ensures videosByCategory == old(videosByCategory) && currentUser == old(currentUser) && adminUser == old(adminUser)
    {
      currentView := view;
    }

    /** `handleAdminLogin` */
    method HandleAdminLogin(admin: Json)
      modifies this
      ensures adminUser == admin && currentView == AdminDashboard
      ensures currentUser == old(currentUser) && selectedTopicId == old(selectedTopicId) && selectedVideo == old(selectedVideo)
    {
      adminUser := admin;
      currentView := AdminDashboard;
    }

    /** `handleAdminLogout` */
    method HandleAdminLogout()
      modifies this
      ensures adminUser == JNull && currentView == Topics
      ensures currentUser == old(currentUser) && selectedTopicId == old(selectedTopicId) && selectedVideo == old(selectedVideo)
    {
      adminUser := JNull;
      currentView := Topics;
    }

    /** `handleUserLogin` */
    method HandleUserLogin(user: Json)
      modifies this
      ensures currentUser == user && currentView == Topics
      ensures adminUser == old(adminUser) && selectedTopicId == old(selectedTopicId) && selectedVideo == old(selectedVideo)
    {
      currentUser := user;
      currentView := Topics;
    }

    /** `handleUserLogout`: nobody signed in, the saved learner removed, topics shown. */
    method HandleUserLogout(storage: LocalStorage)
      modifies this, storage
      ensures currentUser == JNull && currentView == Topics
      ensures storage.items == old(storage.items) - {CurrentUserKey} && CurrentUserKey !in storage.items
      ensures adminUser == old(adminUser) && selectedTopicId == old(selectedTopicId) && selectedVideo == old(selectedVideo)
    {
      currentUser := JNull;
      storage.RemoveItem(CurrentUserKey);
      currentView := Topics;
    }
  }

  /** After signing out, reloading the page restores nobody. */
  lemma LogoutThenRestoreSignsNobodyIn(items: map<string, Item>)
    ensures !Stored(items - {CurrentUserKey}, CurrentUserKey)
    ensures Parsed(items - {CurrentUserKey}, CurrentUserKey).None?
  {
  }
}
