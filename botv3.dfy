/**
 * obsbotv3.py: one video folder, bare file names in the session, search, sorting,
 * paging, and a 5-second cooldown per user and per handler wrapped around every command
 * and around the button handler.
 *
 * `user_data` is a `Session` whose fields hold what `.get` returns for unset keys.
 * The folder listing, `os.path.join` and `os.path.getmtime` are parameters; a listing
 * of `None` stands for `os.listdir` raising.
 */
module BotV3 {
  import opened Wrappers
  import opened Text
  import opened Sorting
  import opened Listing
  import opened Callback
  import opened Pager
  import opened Limiter
  import opened Queue

  type UserId = int

  /** The limiter key: the user and the name of the handler being called. */
  type HandlerKey = (UserId, string)

  const RATE_LIMIT_SECONDS: int := 5

  datatype Reply =
    | Page(keyboard: seq<Row>)   // a file page, as sent or edited
    | Appended(name: string)     // "Appended: <name>"
    | Wait(seconds: nat)         // "Please wait <n>s before retrying."
    | Usage                      // /search without a keyword
    | NoMatches                  // the search found nothing
    | Failed                     // the handler raised (bad index, unreadable folder)
    | Ignored                    // no branch of the dispatch matched

  /** The names of the shown page, as a slice of the list whose bounds Python clamps to its length. */
  function CurrentFiles(files: seq<string>, page: nat): (r: seq<string>)
    ensures |r| <= FILES_PER_PAGE
    ensures |r| == |FileIndices(|files|, page)|
    ensures forall k :: 0 <= k < |r| ==> r[k] == files[FileIndices(|files|, page)[k]]
  {
    var start := page * FILES_PER_PAGE;
    var end := Min(start + FILES_PER_PAGE, |files|);
    if start >= end then [] else files[start..end]
  }

  function ByName(x: string): Key {
    Name(x)
  }

  /** The modification time of the file the bare name denotes in the video folder, as a sort key. */
  function ByTime(mtime: string -> int, join: (string, string) -> string, folder: string): string -> Key {
    (x: string) => Time(mtime(join(folder, x)))
  }

  /**
   * The sort step of `send_file_page` on bare names: the names themselves ascending for "az"
   * and descending for "za", modification time for "new" / "old"; any other mode leaves the
   * order alone.
   */
  function Arrange(files: seq<string>, sort: string, mtime: string -> int,
                   join: (string, string) -> string, folder: string): (r: seq<string>)
    ensures multiset(r) == multiset(files)
    ensures sort == "az" ==> Ordered(r, ByName, false)
    ensures sort == "za" ==> Ordered(r, ByName, true)
    ensures sort == "new" ==> Ordered(r, ByTime(mtime, join, folder), true)
    ensures sort == "old" ==> Ordered(r, ByTime(mtime, join, folder), false)
    ensures sort !in ["az", "za", "new", "old"] ==> r == files
  {
    if sort == "az" then SortBy(files, ByName, false)
    else if sort == "za" then SortBy(files, ByName, true)
    else if sort == "new" then SortBy(files, ByTime(mtime, join, folder), true)
    else if sort == "old" then SortBy(files, ByTime(mtime, join, folder), false)
    else files
  }

  /** A-Z puts every name before the ones that compare greater, as `list.sort()` does. */
  lemma ArrangeAscending(files: seq<string>, mtime: string -> int, join: (string, string) -> string, folder: string)
    ensures forall i, j :: 0 <= i < j < |Arrange(files, "az", mtime, join, folder)| ==>
      !StrLt(Arrange(files, "az", mtime, join, folder)[j], Arrange(files, "az", mtime, join, folder)[i])
  {
    var r := Arrange(files, "az", mtime, join, folder);
    forall i, j | 0 <= i < j < |r|
      ensures !StrLt(r[j], r[i])
    {
      assert !Before(ByName(r[j]), ByName(r[i]), false);
    }
  }

  class Session {
    var files: seq<string>
    var sort: string
    var page: nat
    var search: Option<string>

    constructor ()
      ensures files == [] && sort == "az" && page == 0 && search == None
    {
      files, sort, page, search := [], "az", 0, None;
    }

    /** The state `start` leaves: cleared, then (unless the listing raised) the folder's videos sorted A-Z on page 0. */
    predicate Started(listing: Option<seq<string>>, mtime: string -> int,
                      join: (string, string) -> string, folder: string)
      reads this
    {
      search == None && sort == "az" && page == 0
      && files == if listing.None? then [] else Arrange(VideoNames(listing.value), "az", mtime, join, folder)
    }

    method Start(listing: Option<seq<string>>, mtime: string -> int,
                 join: (string, string) -> string, folder: string) returns (reply: Reply)
      modifies this
      ensures Started(listing, mtime, join, folder)
      ensures reply.Page? ==> reply.keyboard == Layout(|files|, page, search.Some?)
    {
      files, sort, page, search := [], "az", 0, None;
      if listing.None? {
        return Failed;
      }
      files := VideoNames(listing.value);
      var kb := Render(0, mtime, join, folder);
      reply := Page(kb);
    }

    /** The list sorted in place by the stored mode, page `p` stored; nothing else touched. */
    twostate predicate Rendered(p: nat, mtime: string -> int, join: (string, string) -> string, folder: string)
      reads this
    {
      files == Arrange(old(files), old(sort), mtime, join, folder) && page == p
      && sort == old(sort) && search == old(search)
    }

    /** Showing page `p`: sort in place, lay out page `p`, remember `p`. */
    method Render(p: nat, mtime: string -> int, join: (string, string) -> string, folder: string)
      returns (kb: seq<Row>)
      modifies this
      ensures Rendered(p, mtime, join, folder)
      ensures kb == Layout(|files|, p, search.Some?)
    {
      files := Arrange(files, sort, mtime, join, folder);
      kb := BuildKeyboard(|files|, p, search.Some?);
      page := p;
    }

    /**
     * What one button press does, branch by branch: `file_<i>` writes one line and leaves
     * the session alone; `page_` and `refresh_` show a page; `sort_<m>` stores `m` and shows
     * the stored page; `clear_search` drops the search first, then (unless the listing
     * raises) reloads the whole folder sorted A-Z on page 0. A payload that does not
     * parse, or matches no branch, changes nothing.
     */
    twostate predicate Pressed(data: string, listing: Option<seq<string>>, mtime: string -> int,
                               join: (string, string) -> string, folder: string, queue: QueueFile)
      reads this, queue
    {
      match Decode(data, false)
      case Dispatch(PickFile(i)) =>
        unchanged(this)
        && if i < |old(files)| then queue.content == old(queue.content) + join(folder, old(files)[i]) + "\n"
           else unchanged(queue)
      case Dispatch(GoToPage(p)) => Rendered(p, mtime, join, folder) && unchanged(queue)
      case Dispatch(Refresh(p)) => Rendered(p, mtime, join, folder) && unchanged(queue)
      case Dispatch(SetSort(m)) =>
        files == Arrange(old(files), m, mtime, join, folder) && sort == m && page == old(page)
        && search == old(search) && unchanged(queue)
      case Dispatch(ClearSearch) =>
        search == None && unchanged(queue)
        && if listing.None? then files == old(files) && sort == old(sort) && page == old(page)
           else files == Arrange(VideoNames(listing.value), "az", mtime, join, folder) && sort == "az" && page == 0
      case _ => unchanged(this, queue)
    }

    /** `button_callback` once past the cooldown. */
    method Press(data: string, listing: Option<seq<string>>, mtime: string -> int,
                 join: (string, string) -> string, folder: string, queue: QueueFile) returns (reply: Reply)
      modifies this, queue
      ensures Pressed(data, listing, mtime, join, folder, queue)
      ensures reply.Page? ==> reply.keyboard == Layout(|files|, page, search.Some?)
    {
      match Decode(data, false)
      case Dispatch(PickFile(i)) =>
        if i >= |files| {
          return Failed;
        }
        var name := files[i];
        queue.Append(join(folder, name) + "\n");
        reply := Appended(name);
      case Dispatch(GoToPage(p)) =>
        var kb := Render(p, mtime, join, folder);
        reply := Page(kb);
      case Dispatch(Refresh(p)) =>
        var kb := Render(p, mtime, join, folder);
        reply := Page(kb);
      case Dispatch(SetSort(m)) =>
        sort := m;
        var kb := Render(page, mtime, join, folder);
        reply := Page(kb);
      case Dispatch(ClearSearch) =>
        search := None;
        if listing.None? {
          return Failed;
        }
        files, sort, page := VideoNames(listing.value), "az", 0;
        var kb := Render(0, mtime, join, folder);
        reply := Page(kb);
      case Malformed =>
        reply := Failed;
      case _ =>
        reply := Ignored;
    }

    /**
     * `search_command` once past the cooldown: no keyword, an unreadable folder or no
     * match changes nothing; otherwise the matches become the list, sorted A-Z, on page 0,
     * with the search remembered.
     */
    twostate predicate Searched(args: seq<string>, listing: Option<seq<string>>, mtime: string -> int,
                                join: (string, string) -> string, folder: string)
      reads this
    {
      var keyword := Lower(JoinWords(args));
      if |args| == 0 || listing.None? || NamesMatching(VideoNames(listing.value), keyword) == [] then
        unchanged(this)
      else
        files == Arrange(NamesMatching(VideoNames(listing.value), keyword), "az", mtime, join, folder)
        && search == Some(keyword) && sort == "az" && page == 0
    }

    method Search(args: seq<string>, listing: Option<seq<string>>, mtime: string -> int,
                  join: (string, string) -> string, folder: string) returns (reply: Reply)
      modifies this
      ensures Searched(args, listing, mtime, join, folder)
      ensures reply == Usage <==> |args| == 0
      ensures reply.Page? ==> reply.keyboard == Layout(|files|, page, search.Some?)
    {
      if |args| == 0 {
        return Usage;
      }
      var keyword := Lower(JoinWords(args));
      if listing.None? {
        return Failed;
      }
      var allFiles := VideoNames(listing.value);
      var filtered := NamesMatching(allFiles, keyword);
      if filtered == [] {
        return NoMatches;
      }
      files, search, sort, page := filtered, Some(keyword), "az", 0;
      var kb := Render(0, mtime, join, folder);
      reply := Page(kb);
    }
  }

  /** The refusal of a command: the whole seconds left until its cooldown ends. */
  function WaitReply(limits: map<HandlerKey, int>, key: HandlerKey, now: int, limit: int): (r: Reply)
    requires CoolingDown(limits, key, now, limit)
    ensures r.Wait? && r.seconds > 0 && now + r.seconds == LastTime(limits, key) + limit
  {
    Wait(limit - (now - LastTime(limits, key)))
  }

  /** `start` behind the 5-second cooldown of the key `(user, "start")`. */
  method StartCommand(limits: RateLimiter<HandlerKey>, user: UserId, now: int, session: Session,
                      listing: Option<seq<string>>, mtime: string -> int,
                      join: (string, string) -> string, folder: string) returns (reply: Reply)
    requires limits.limit == RATE_LIMIT_SECONDS
    modifies limits, session
    ensures CoolingDown(old(limits.last), (user, "start"), now, RATE_LIMIT_SECONDS) ==>
      unchanged(limits, session) && reply == WaitReply(old(limits.last), (user, "start"), now, RATE_LIMIT_SECONDS)
    ensures !CoolingDown(old(limits.last), (user, "start"), now, RATE_LIMIT_SECONDS) ==>
      limits.last == old(limits.last)[(user, "start") := now] && session.Started(listing, mtime, join, folder)
  {
    var d := limits.Admit((user, "start"), now);
    if d.Refused? {
      return WaitReply(limits.last, (user, "start"), now, RATE_LIMIT_SECONDS);
    }
    reply := session.Start(listing, mtime, join, folder);
  }

  /**
   * `button_callback` behind the 5-second cooldown of the key `(user, "button_callback")`.
   * A refused press tries to answer through the update's message, which a button press
   * does not carry, so the refusal itself raises: nothing changes and nothing is sent.
   */
  method ButtonCallback(limits: RateLimiter<HandlerKey>, user: UserId, now: int, session: Session,
                        data: string, listing: Option<seq<string>>, mtime: string -> int,
                        join: (string, string) -> string, folder: string, queue: QueueFile)
    returns (reply: Reply)
    requires limits.limit == RATE_LIMIT_SECONDS
    modifies limits, session, queue
    ensures CoolingDown(old(limits.last), (user, "button_callback"), now, RATE_LIMIT_SECONDS) ==>
      unchanged(limits, session, queue) && reply == Failed
    ensures !CoolingDown(old(limits.last), (user, "button_callback"), now, RATE_LIMIT_SECONDS) ==>
      limits.last == old(limits.last)[(user, "button_callback") := now]
      && session.Pressed(data, listing, mtime, join, folder, queue)
  {
    var d := limits.Admit((user, "button_callback"), now);
    if d.Refused? {
      return Failed;
    }
    reply := session.Press(data, listing, mtime, join, folder, queue);
  }

  /** `search_command` behind the 5-second cooldown of the key `(user, "search_command")`. */
  method SearchCommand(limits: RateLimiter<HandlerKey>, user: UserId, now: int, session: Session,
                       args: seq<string>, listing: Option<seq<string>>, mtime: string -> int,
                       join: (string, string) -> string, folder: string) returns (reply: Reply)
    requires limits.limit == RATE_LIMIT_SECONDS
    modifies limits, session
    ensures CoolingDown(old(limits.last), (user, "search_command"), now, RATE_LIMIT_SECONDS) ==>
      unchanged(limits, session)
      && reply == WaitReply(old(limits.last), (user, "search_command"), now, RATE_LIMIT_SECONDS)
    ensures !CoolingDown(old(limits.last), (user, "search_command"), now, RATE_LIMIT_SECONDS) ==>
      limits.last == old(limits.last)[(user, "search_command") := now]
      && session.Searched(args, listing, mtime, join, folder)
  {
    var d := limits.Admit((user, "search_command"), now);
    if d.Refused? {
      return WaitReply(limits.last, (user, "search_command"), now, RATE_LIMIT_SECONDS);
    }
    reply := session.Search(args, listing, mtime, join, folder);
  }

  /**
   * The handlers' cooldowns are independent: an accepted call of one handler leaves the
   * cooldown of every other handler of the same user where it was.
   */
  lemma HandlersIndependent(last: map<HandlerKey, int>, user: UserId, handler: string, other: string,
                            now: int, later: int, limit: int)
    requires handler != other
    ensures CoolingDown(last[(user, handler) := now], (user, other), later, limit)
        <==> CoolingDown(last, (user, other), later, limit)
  {
  }
}
