/**
 * obsbotv2.py: `/start` behind a 300-second cooldown per user lists the folder's videos
 * as one button each, whose payload is the file name; pressing one appends its path to
 * the queue file and echoes the whole queue.
 */
module BotV2 {
  import opened Wrappers
  import opened Text
  import opened Listing
  import opened Limiter
  import opened Queue

  type UserId = int

  const COOLDOWN_SECONDS: int := 300

  datatype Reply =
    | Wait(minutes: nat, seconds: nat)          // "Please wait <m>m <s>s ..."
    | NoVideos                                  // "No MP4 or MKV files found in the folder."
    | Menu(keyboard: seq<seq<string>>)          // one row per file, each button's payload
    | Added(path: string, queue: string)        // "File added: <path>", then the queue's content
    | Failed                                    // the handler raised (unreadable folder)

  /** The file menu: a row of one button per file, whose payload is the file name itself. */
  function MenuRows(files: seq<string>): (r: seq<seq<string>>)
    ensures |r| == |files|
    ensures forall k :: 0 <= k < |r| ==> r[k] == [files[k]]
  {
    if files == [] then [] else MenuRows(files[..|files| - 1]) + [[files[|files| - 1]]]
  }

  /** Every button of the menu carries the name of one of the listed videos. */
  lemma MenuOffersVideos(listing: seq<string>, k: nat, j: nat)
    requires k < |MenuRows(VideoNames(listing))| && j < |MenuRows(VideoNames(listing))[k]|
    ensures MenuRows(VideoNames(listing))[k][j] in listing
    ensures IsVideoName(MenuRows(VideoNames(listing))[k][j])
  {
    var files := VideoNames(listing);
    assert MenuRows(files)[k][j] == files[k];
    assert files[k] in files;
  }

  /** The wait message: the whole seconds left of the cooldown, as minutes and seconds. */
  function WaitReply(last: map<UserId, int>, user: UserId, now: int): (r: Reply)
    requires CoolingDown(last, user, now, COOLDOWN_SECONDS)
    ensures r.Wait? && r.seconds < 60
    ensures now + r.minutes * 60 + r.seconds == LastTime(last, user) + COOLDOWN_SECONDS
  {
    var split := SplitWait(COOLDOWN_SECONDS - (now - LastTime(last, user)));
    Wait(split.0, split.1)
  }

  /** What `start` answers once past the cooldown. */
  function Listed(listing: Option<seq<string>>): (r: Reply)
    ensures r == Failed <==> listing.None?
    ensures r == NoVideos <==> listing.Some? && forall f :: f in listing.value ==> !IsVideoName(f)
    ensures r.Menu? ==> r.keyboard == MenuRows(VideoNames(listing.value))
    ensures listing.Some? && VideoNames(listing.value) != [] ==> r == Menu(MenuRows(VideoNames(listing.value)))
  {
    if listing.None? then Failed
    else
      var files := VideoNames(listing.value);
      if files == [] then NoVideos
      else
        assert files[0] in files;
        Menu(MenuRows(files))
  }

  /**
   * `start`: a request less than 300 seconds after the user's last accepted one gets the
   * wait and changes nothing; otherwise `now` is recorded first, and then the listing is read.
   */
  method Start(limits: RateLimiter<UserId>, user: UserId, now: int, listing: Option<seq<string>>)
    returns (reply: Reply)
    requires limits.limit == COOLDOWN_SECONDS
    modifies limits
    ensures CoolingDown(old(limits.last), user, now, COOLDOWN_SECONDS) ==>
      unchanged(limits) && reply == WaitReply(old(limits.last), user, now)
    ensures !CoolingDown(old(limits.last), user, now, COOLDOWN_SECONDS) ==>
      limits.last == old(limits.last)[user := now] && reply == Listed(listing)
  {
    var d := limits.Admit(user, now);
    if d.Refused? {
      var split := SplitWait(d.remaining);
      return Wait(split.0, split.1);
    }
    reply := Listed(listing);
  }

  /** `button_callback`: append the pressed file's path as one line, then echo the queue. */
  method Press(data: string, folder: string, join: (string, string) -> string, queue: QueueFile)
    returns (reply: Reply)
    modifies queue
    ensures queue.content == old(queue.content) + join(folder, data) + "\n"
    ensures reply == Added(join(folder, data), queue.content)
  {
    var path := join(folder, data);
    queue.Append(path + "\n");
    reply := Added(path, queue.content);
  }
}
