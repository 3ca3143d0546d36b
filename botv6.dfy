/**
 * obsbotv6.py: several video folders, a search across all of them, sorting, paging,
 * and one cooldown map shared by /start and /search.
 *
 * `user_data` is a `Session`. Its keys are fields holding the value `.get` would
 * return when the key is unset: no file list reads as `[]`, no sort as "az", no page as 0.
 * Folder listings, `os.path.join` and `os.path.getmtime` are parameters.
 */
module BotV6 {
  import opened Wrappers
  import opened Text
  import opened Sorting
  import opened Listing
  import opened Callback
  import opened Pager
  import opened Limiter
  import opened Queue

  type UserId = int

  /** `os.listdir` of each folder it can read; a folder missing from the map makes it raise. */
  type Listings = map<string, seq<string>>

  /** One entry of the session's file list: the file name, its joined path and its folder. */
  datatype Video = Video(name: string, path: string, folder: string)

  datatype Reply =
    | Folders(buttons: seq<Row>)         // the /start folder menu
    | Page(keyboard: seq<Row>)           // a file page, as sent or edited
    | Appended(name: string)             // "Appended: <name>"
    | Wait(minutes: nat, seconds: nat)   // refused by the cooldown
    | Usage                              // /search without a keyword
    | NoMatches                          // the search found nothing
    | Failed                             // the handler raised (bad index, unreadable folder)
    | Ignored                            // no branch of the dispatch matched

  /** The session entry for the file `f` of `folder`. */
  function Entry(folder: string, f: string, join: (string, string) -> string): Video {
    Video(f, join(folder, f), folder)
  }

  /**
   * `get_videos_from_folder` over the listing `names`: one entry, with its folder and
   * joined path, for each video name of the listing, in listing order.
   */
  function FolderVideos(folder: string, names: seq<string>, join: (string, string) -> string): (r: seq<Video>)
    ensures |r| == |VideoNames(names)|
    ensures forall k :: 0 <= k < |r| ==> r[k] == Entry(folder, VideoNames(names)[k], join)
    ensures forall v :: v in r <==>
      v.folder == folder && v.name in names && IsVideoName(v.name) && v.path == join(folder, v.name)
    decreases |names|
  {
    if names == [] then []
    else
      var f := names[|names| - 1];
      assert names == names[..|names| - 1] + [f];
      FolderVideos(folder, names[..|names| - 1], join)
        + (if IsVideoName(f) then [Entry(folder, f, join)] else [])
  }

  /** The search hits of one folder, tested name by name as the loop does, in listing order. */
  function FolderHits(folder: string, names: seq<string>, keyword: string,
                      join: (string, string) -> string): seq<Video>
    decreases |names|
  {
    if names == [] then []
    else
      FolderHits(folder, names[..|names| - 1], keyword, join)
        + (if Hit(names[|names| - 1], keyword) then [Entry(folder, names[|names| - 1], join)] else [])
  }

  /**
   * Testing both conditions on each name is filtering by extension and then by
   * keyword: the hits are the entries of `NamesMatching(VideoNames(names), keyword)`,
   * one for each, in the same order.
   */
  lemma {:induction false} FolderHitsFilters(folder: string, names: seq<string>, keyword: string,
                                             join: (string, string) -> string)
    ensures |FolderHits(folder, names, keyword, join)| == |NamesMatching(VideoNames(names), keyword)|
    ensures forall k :: 0 <= k < |FolderHits(folder, names, keyword, join)| ==>
      FolderHits(folder, names, keyword, join)[k] == Entry(folder, NamesMatching(VideoNames(names), keyword)[k], join)
    decreases |names|
  {
    if names != [] {
      var init, f := names[..|names| - 1], names[|names| - 1];
      assert names == init + [f];
      FolderHitsFilters(folder, init, keyword, join);
      var tail: seq<string> := if IsVideoName(f) then [f] else [];
      assert VideoNames(names) == VideoNames(init) + tail;
      NamesMatchingAppend(VideoNames(init), tail, keyword);
      if tail == [f] {
        assert tail[..0] == [];
      }
    }
  }

  /** A hit is exactly an entry of `folder` for a listed video name containing the keyword. */
  lemma {:induction false} FolderHitsMembers(folder: string, names: seq<string>, keyword: string,
                                             join: (string, string) -> string)
    ensures forall v :: v in FolderHits(folder, names, keyword, join) <==>
      v.folder == folder && v.name in names && Hit(v.name, keyword) && v.path == join(folder, v.name)
    decreases |names|
  {
    if names != [] {
      var init := names[..|names| - 1];
      assert names == init + [names[|names| - 1]];
      FolderHitsMembers(folder, init, keyword, join);
    }
  }

  /**
   * The matches of /search: folder by folder in configuration order, each in listing
   * order; a folder whose listing raises contributes nothing.
   */
  function SearchHits(folders: seq<string>, listings: Listings, keyword: string,
                      join: (string, string) -> string): (r: seq<Video>)
    ensures forall v :: v in r <==>
      v.folder in folders && v.folder in listings && v.name in listings[v.folder]
      && Hit(v.name, keyword) && v.path == join(v.folder, v.name)
    decreases |folders|
  {
    if folders == [] then []
    else
      var f := folders[|folders| - 1];
      assert folders == folders[..|folders| - 1] + [f];
      if f in listings then
        FolderHitsMembers(f, listings[f], keyword, join);
        SearchHits(folders[..|folders| - 1], listings, keyword, join) + FolderHits(f, listings[f], keyword, join)
      else
        SearchHits(folders[..|folders| - 1], listings, keyword, join)
  }

  /**
   * The hits keep the folder order: searching the folders `a` and then `b` gives the hits
   * of `a` followed by the hits of `b`.
   */
  lemma {:induction false} SearchHitsAppend(a: seq<string>, b: seq<string>, listings: Listings, keyword: string,
                                            join: (string, string) -> string)
    ensures SearchHits(a + b, listings, keyword, join)
         == SearchHits(a, listings, keyword, join) + SearchHits(b, listings, keyword, join)
    decreases |b|
  {
    if b != [] {
      var b' := b[..|b| - 1];
      assert (a + b)[..|a + b| - 1] == a + b';
      assert (a + b)[|a + b| - 1] == b[|b| - 1];
      SearchHitsAppend(a, b', listings, keyword, join);
    } else {
      assert a + b == a;
    }
  }

  /** The hits of one folder, within the hits of all, are that folder's hits in listing order. */
  lemma SearchHitsSingle(f: string, listings: Listings, keyword: string, join: (string, string) -> string)
    ensures SearchHits([f], listings, keyword, join)
         == if f in listings then FolderHits(f, listings[f], keyword, join) else []
  {
    assert [f][..0] == [];
  }

  /** The nested loop of `search_command` that fills `matching_files`. */
  method CollectHits(folders: seq<string>, listings: Listings, keyword: string,
                     join: (string, string) -> string) returns (matching: seq<Video>)
    ensures matching == SearchHits(folders, listings, keyword, join)
  {
    matching := [];
    var i := 0;
    while i < |folders|
      invariant 0 <= i <= |folders|
      invariant matching == SearchHits(folders[..i], listings, keyword, join)
    {
      var folder := folders[i];
      ghost var before := matching;
      if folder in listings {
        var names := listings[folder];
        var j := 0;
        while j < |names|
          invariant 0 <= j <= |names|
          invariant matching == before + FolderHits(folder, names[..j], keyword, join)
        {
          var f := names[j];
          assert names[..j + 1][..j] == names[..j] && names[..j + 1][j] == f;
          if IsVideoName(f) && Contains(Lower(f), keyword) {
            matching := matching + [Entry(folder, f, join)];
          }
          j := j + 1;
        }
        assert names[..j] == names;
      }
      assert folders[..i + 1][..i] == folders[..i];
      i := i + 1;
    }
    assert folders[..i] == folders;
  }

  function ByName(v: Video): Key {
    Name(v.name)
  }

  function ByTime(mtime: string -> int): Video -> Key {
    (v: Video) => Time(mtime(v.path))
  }

  /**
   * The sort step of `send_file_page`: by name for "az" / "za", by modification time,
   * newest or oldest first, for "new" / "old"; any other mode leaves the order alone.
   */
  function Arrange(files: seq<Video>, sort: string, mtime: string -> int): (r: seq<Video>)
    ensures multiset(r) == multiset(files)
    ensures sort == "az" ==> Ordered(r, ByName, false)
    ensures sort == "za" ==> Ordered(r, ByName, true)
    ensures sort == "new" ==> Ordered(r, ByTime(mtime), true)
    ensures sort == "old" ==> Ordered(r, ByTime(mtime), false)
    ensures sort !in ["az", "za", "new", "old"] ==> r == files
  {
    if sort == "az" then SortBy(files, ByName, false)
    else if sort == "za" then SortBy(files, ByName, true)
    else if sort == "new" then SortBy(files, ByTime(mtime), true)
    else if sort == "old" then SortBy(files, ByTime(mtime), false)
    else files
  }

  /** Sorting again under the same mode moves nothing, so every page of one listing indexes the same order. */
  lemma ArrangeIdempotent(files: seq<Video>, sort: string, mtime: string -> int)
    ensures Arrange(Arrange(files, sort, mtime), sort, mtime) == Arrange(files, sort, mtime)
  {
    if sort == "az" {
      SortByIdempotent(files, ByName, false);
    } else if sort == "za" {
      SortByIdempotent(files, ByName, true);
    } else if sort == "new" {
      SortByIdempotent(files, ByTime(mtime), true);
    } else if sort == "old" {
      SortByIdempotent(files, ByTime(mtime), false);
    }
  }

  /** Files with equal names (the same name in two folders) keep their relative order. */
  lemma ArrangeStableByName(files: seq<Video>, sort: string, mtime: string -> int, name: string)
    requires sort == "az" || sort == "za"
    ensures WithKey(Arrange(files, sort, mtime), ByName, Name(name)) == WithKey(files, ByName, Name(name))
  {
    SortByStable(files, ByName, sort == "za", Name(name));
  }

  /** The /start menu: a row per configured folder, whose one button carries the folder's position. */
  function FolderButtons(count: nat): (r: seq<Row>)
    ensures |r| == count
    ensures forall i :: 0 <= i < |r| ==> r[i] == [OpenFolder(i)]
    ensures forall a :: Occurs(r, a) <==> a.OpenFolder? && a.folder < count
  {
    var r := seq(count, i requires 0 <= i < count => [OpenFolder(i)]);
    assert forall a: Action | a.OpenFolder? && a.folder < count :: a in r[a.folder];
    r
  }

  class Session {
    var files: seq<Video>
    var sort: string
    var page: nat
    var search: Option<string>
    var selectedFolder: Option<string>

    /** An empty `user_data`. */
    predicate IsEmpty()
      reads this
    {
      files == [] && sort == "az" && page == 0 && search == None && selectedFolder == None
    }

    constructor ()
      ensures IsEmpty()
    {
      files, sort, page, search, selectedFolder := [], "az", 0, None, None;
    }

    /** Forgetting every key of the session. */
    method Clear()
      modifies this
      ensures IsEmpty()
    {
      files, sort, page, search, selectedFolder := [], "az", 0, None, None;
    }

    /** The list sorted in place by the stored mode, page `p` stored; nothing else touched. */
    twostate predicate Rendered(p: nat, mtime: string -> int)
      reads this
    {
      files == Arrange(old(files), old(sort), mtime) && page == p
      && sort == old(sort) && search == old(search) && selectedFolder == old(selectedFolder)
    }

    /** Showing page `p`: sort in place, lay out page `p`, remember `p`. */
    method Render(p: nat, mtime: string -> int) returns (kb: seq<Row>)
      modifies this
      ensures Rendered(p, mtime)
      ensures kb == Layout(|files|, p, search.Some?)
    {
      files := Arrange(files, sort, mtime);
      kb := BuildKeyboard(|files|, p, search.Some?);
      page := p;
    }

    /** `folder_<i>`; an index past the folder list raises, and so does an unreadable folder, after the folder is stored. */
    twostate predicate FolderOpened(i: nat, folders: seq<string>, listings: Listings,
                                    join: (string, string) -> string, mtime: string -> int)
      reads this
    {
      if i >= |folders| then unchanged(this)
      else
        var f := folders[i];
        selectedFolder == Some(f) && search == old(search)
        && if f in listings then
             files == Arrange(FolderVideos(f, listings[f], join), "az", mtime) && sort == "az" && page == 0
           else
             files == old(files) && sort == old(sort) && page == old(page)
    }

    method OpenFolderAt(i: nat, folders: seq<string>, listings: Listings,
                        join: (string, string) -> string, mtime: string -> int) returns (reply: Reply)
      modifies this
      ensures FolderOpened(i, folders, listings, join, mtime)
      ensures reply.Page? ==> reply.keyboard == Layout(|files|, page, search.Some?)
    {
      if i >= |folders| {
        return Failed;
      }
      var folder := folders[i];
      selectedFolder := Some(folder);
      if folder !in listings {
        return Failed;
      }
      files := FolderVideos(folder, listings[folder], join);
      sort := "az";
      page := 0;
      var kb := Render(0, mtime);
      reply := Page(kb);
    }

    /** `file_<i>`: one write of the file's path and a newline; the session is left alone. */
    twostate predicate FilePicked(i: nat, queue: QueueFile)
      reads this, queue
    {
      unchanged(this)
      && if i < |files| then queue.content == old(queue.content) + files[i].path + "\n"
         else unchanged(queue)
    }

    method PickFileAt(i: nat, queue: QueueFile) returns (reply: Reply)
      modifies queue
      ensures FilePicked(i, queue)
      ensures reply == if i < |files| then Appended(files[i].name) else Failed
    {
      if i >= |files| {
        return Failed;
      }
      var file := files[i];
      queue.Append(file.path + "\n");
      reply := Appended(file.name);
    }

    /** `sort_<mode>`: the new mode applied in place to the list, at the stored page. */
    twostate predicate SortChanged(mode: string, mtime: string -> int)
      reads this
    {
      files == Arrange(old(files), mode, mtime) && sort == mode && page == old(page)
      && search == old(search) && selectedFolder == old(selectedFolder)
    }

    method ChangeSort(mode: string, mtime: string -> int) returns (reply: Reply)
      modifies this
      ensures SortChanged(mode, mtime)
      ensures reply.Page? ==> reply.keyboard == Layout(|files|, page, search.Some?)
    {
      sort := mode;
      var kb := Render(page, mtime);
      reply := Page(kb);
    }

    /**
     * `clear_search`: the selected folder (when set and non-empty) is listed again; the
     * search is dropped, the sort reset to "az" and page 0 shown. An unreadable folder
     * raises before anything changes.
     */
    twostate predicate SearchCleared(listings: Listings, join: (string, string) -> string, mtime: string -> int)
      reads this
    {
      var folder := old(selectedFolder);
      var reload := folder.Some? && folder.value != "";
      if reload && folder.value !in listings then unchanged(this)
      else
        files == Arrange(if reload then FolderVideos(folder.value, listings[folder.value], join) else old(files), "az", mtime)
        && search == None && sort == "az" && page == 0 && selectedFolder == old(selectedFolder)
    }

    method ResetSearch(listings: Listings, join: (string, string) -> string, mtime: string -> int) returns (reply: Reply)
      modifies this
      ensures SearchCleared(listings, join, mtime)
      ensures reply.Page? ==> reply.keyboard == Layout(|files|, page, search.Some?)
    {
      var folder := selectedFolder;
      var reload := folder.Some? && folder.value != "";
      if reload && folder.value !in listings {
        return Failed;
      }
      var listed := if reload then FolderVideos(folder.value, listings[folder.value], join) else files;
      files, search, sort, page := listed, None, "az", 0;
      var kb := Render(0, mtime);
      reply := Page(kb);
    }

    /** `button_callback`: the payload decoded, then the matching branch. */
    method Press(data: string, folders: seq<string>, listings: Listings, join: (string, string) -> string,
                 mtime: string -> int, queue: QueueFile) returns (reply: Reply)
      modifies this, queue
      ensures match Decode(data, true)
        case Dispatch(OpenFolder(i)) => FolderOpened(i, folders, listings, join, mtime) && unchanged(queue)
        case Dispatch(PickFile(i)) => FilePicked(i, queue)
        case Dispatch(GoToPage(p)) => Rendered(p, mtime) && unchanged(queue)
        case Dispatch(Refresh(p)) => Rendered(p, mtime) && unchanged(queue)
        case Dispatch(SetSort(m)) => SortChanged(m, mtime) && unchanged(queue)
        case Dispatch(ClearSearch) => SearchCleared(listings, join, mtime) && unchanged(queue)
        case Malformed => unchanged(this, queue) && reply == Failed
        case Unhandled => unchanged(this, queue) && reply == Ignored
      ensures reply.Page? ==> reply.keyboard == Layout(|files|, page, search.Some?)
    {
      match Decode(data, true)
      case Dispatch(OpenFolder(i)) =>
        reply := OpenFolderAt(i, folders, listings, join, mtime);
      case Dispatch(PickFile(i)) =>
        reply := PickFileAt(i, queue);
      case Dispatch(GoToPage(p)) =>
        var kb := Render(p, mtime);
        reply := Page(kb);
      case Dispatch(Refresh(p)) =>
        var kb := Render(p, mtime);
        reply := Page(kb);
      case Dispatch(SetSort(m)) =>
        reply := ChangeSort(m, mtime);
      case Dispatch(ClearSearch) =>
        reply := ResetSearch(listings, join, mtime);
      case Malformed =>
        reply := Failed;
      case Unhandled =>
        reply := Ignored;
    }

    /**
     * `search_command` once past the cooldown: with no keyword, or with no match, nothing
     * changes; otherwise the matches become the list, sorted "az", on page 0, with the
     * search remembered and the folder selection dropped.
     */
    twostate predicate Searched(args: seq<string>, folders: seq<string>, listings: Listings,
                                join: (string, string) -> string, mtime: string -> int)
      reads this
    {
      var keyword := Lower(JoinWords(args));
      var hits := SearchHits(folders, listings, keyword, join);
      if |args| == 0 || hits == [] then unchanged(this)
      else
        files == Arrange(hits, "az", mtime) && search == Some(keyword) && sort == "az" && page == 0
        && selectedFolder == None
    }

    method RunSearch(args: seq<string>, folders: seq<string>, listings: Listings,
                     join: (string, string) -> string, mtime: string -> int) returns (reply: Reply)
      modifies this
      ensures Searched(args, folders, listings, join, mtime)
      ensures reply == Usage <==> |args| == 0
      ensures reply == NoMatches <==> |args| > 0 && SearchHits(folders, listings, Lower(JoinWords(args)), join) == []
      ensures reply.Page? ==> reply.keyboard == Layout(|files|, page, search.Some?)
    {
      if |args| == 0 {
        return Usage;
      }
      var keyword := Lower(JoinWords(args));
      var matching := CollectHits(folders, listings, keyword, join);
      if matching == [] {
        return NoMatches;
      }
      files := matching;
      search := Some(keyword);
      sort := "az";
      page := 0;
      selectedFolder := None;
      var kb := Render(0, mtime);
      reply := Page(kb);
    }
  }

  /** The cooldown reply: the seconds left, split into minutes and seconds. */
  function WaitReply(limits: map<UserId, int>, user: UserId, now: int, limit: int): (r: Reply)
    requires CoolingDown(limits, user, now, limit)
    ensures r.Wait? && r.minutes * 60 + r.seconds == limit - (now - LastTime(limits, user)) && r.seconds < 60
  {
    var (m, s) := SplitWait(limit - (now - LastTime(limits, user)));
    Wait(m, s)
  }

  /** `/start` behind `rate_limit_start`: a clean session and the folder menu, or the wait. */
  method Start(limits: RateLimiter<UserId>, user: UserId, now: int, session: Session,
               folders: seq<string>) returns (reply: Reply)
    modifies limits, session
    ensures CoolingDown(old(limits.last), user, now, limits.limit) ==>
      unchanged(limits, session) && reply == WaitReply(old(limits.last), user, now, limits.limit)
    ensures !CoolingDown(old(limits.last), user, now, limits.limit) ==>
      limits.last == old(limits.last)[user := now] && session.IsEmpty()
      && reply == Folders(FolderButtons(|folders|))
  {
    var d := limits.Admit(user, now);
    if d.Refused? {
      assert limits.last == old(limits.last);
      return WaitReply(limits.last, user, now, limits.limit);
    }
    session.Clear();
    reply := Folders(FolderButtons(|folders|));
  }

  /** `/search` behind the same `rate_limit_start`, on the same map as `/start`. */
  method SearchCommand(limits: RateLimiter<UserId>, user: UserId, now: int, session: Session,
                       args: seq<string>, folders: seq<string>, listings: Listings,
                       join: (string, string) -> string, mtime: string -> int) returns (reply: Reply)
    modifies limits, session
    ensures CoolingDown(old(limits.last), user, now, limits.limit) ==>
      unchanged(limits, session) && reply == WaitReply(old(limits.last), user, now, limits.limit)
    ensures !CoolingDown(old(limits.last), user, now, limits.limit) ==>
      limits.last == old(limits.last)[user := now] && session.Searched(args, folders, listings, join, mtime)
  {
    var d := limits.Admit(user, now);
    if d.Refused? {
      assert limits.last == old(limits.last);
      return WaitReply(limits.last, user, now, limits.limit);
    }
    reply := session.RunSearch(args, folders, listings, join, mtime);
  }
}
