# A verified model of the OBS queue bot

The bot lets Telegram users browse folders of `.mp4` / `.mkv` videos and append a chosen
file's path to a plain-text queue file that OBS reads. Three versions of the bot are
modelled:

- **obsbotv6.py**:
  - several configured folders;
  - `/start` offers one button per folder;
  - a folder opens as a paged list of 75 files per page, with sort buttons (A-Z, Z-A, newest, oldest), page-number buttons, Prev / Next and Refresh;
  - `/search` searches every folder;
  - `/start` and `/search` share one cooldown map keyed by user.
- **obsbotv3.py**:
  - a single folder, with the same pager and sort buttons;
  - a 5-second cooldown keyed by user *and* handler name, in front of `/start`, `/search` and the button handler.
- **obsbotv2.py**:
  - `/start` behind a 300-second cooldown per user lists every video as one button whose payload is the file name;
  - pressing a button appends the path to the queue and echoes the queue.

The model is split into these modules:

- `Text`: the string primitives:
  - `endswith`, ASCII `lower()` and the substring test `in`;
  - Python's string order;
  - `split("_")[1]`, decimal `str()` and `int()`.
- `Sorting`: `list.sort` with a key and `reverse`, as a stable insertion sort. It is proved ordered, a permutation of its input, stable, and idempotent.
- `Listing`: the extension filter and the keyword filter.
- `Callback`: the button payloads (`folder_i`, `file_i`, `page_p`, `refresh_p`, `sort_m`, `clear_search`) and the `startswith` dispatch chain that reads them back, with the round trip between the two.
- `Pager`: the page arithmetic of `send_file_page` and the keyboard it builds, which is a loop proved equal to a layout function whose buttons are characterised exactly.
- `Limiter`: the cooldown map as a class `RateLimiter` and the minutes/seconds split.
- `Queue`: the queue file as a class with an append-only `content`.
- `Wrappers`: the `Option` type for a value that may be missing.
- `BotV6`, `BotV3` and `BotV2`: the handlers of each version.
  - `user_data` is a class `Session`. Each field holds what `.get` returns when the key is unset.
  - For every branch of `button_callback`, a two-state predicate states the new session and queue.
  - Each guarded handler states both outcomes. A refusal changes nothing. It returns the wait, except in version 3's `button_callback`, where it returns `Failed` (see below). An acceptance records `now` for its key and then does what the handler does.

Folder listings, `os.path.join`, `os.path.getmtime` and `time.time()` are parameters:

- a listing is a `map` from folder to names in version 6, and an `Option` in versions 3 and 2;
- a missing folder, or `None`, stands for `os.listdir` raising;
- `join` and `mtime` are functions;
- `now` is an integer number of seconds.

A handler that raises leaves the state as it was at the raise. The reply is then `Failed`.
This includes a refused button press in version 3: the refusal answers through the update's message, which a button press does not carry, so the refusal itself raises.

Two consequences of the code as written can be read off the contracts:

- In version 6, `/search` drops `selected_folder`. A later `clear_search` therefore finds no folder to reload. It keeps the matches as the list, removes the search, sets the sort to az and returns to page 0 (`BotV6.Session.SearchCleared` with `Searched`).
- In version 3, `clear_search` removes the search before it lists the folder. A listing that raises leaves the search already removed (`BotV3.Session.Pressed`).

The comment beside `COOLDOWN_SECONDS = 300` in obsbotv2.py says "10 minutes". The model follows the value, which is 300 seconds.

## Model

| member | source | states |
|---|---|---|
| `Text.IsVideoName` | obsbotv6.py:61 | `endswith` with the tuple of suffixes holds exactly when the name ends with `.mp4` or `.mkv`; such a name has a `.` four characters from its end |
| `Text.JoinWords` | obsbotv6.py:132 | the keyword of no words is empty; otherwise it starts with the first word, ends with the last, and is one space longer than the words per gap |
| `Text.JoinWordsSnoc` | obsbotv3.py:155 | joining one more word appends a space and that word |
| `Text.Lower` | obsbotv6.py:132 | `lower()` keeps the length, leaves no upper-case ASCII letter, maps each upper-case letter to its lower-case one and leaves every other character alone |
| `Text.Contains` | obsbotv6.py:138 | `keyword in name` holds exactly when the keyword occurs at some position of the name |
| `Text.TakeUntil` | obsbotv6.py:198 | the text up to the first `_` is a prefix without `_`, followed by `_` or by the end of the string |
| `Text.StrLtLexicographic` | obsbotv6.py:71 | `a < b` on strings holds exactly when `a` is a proper prefix of `b`, or `a` has the smaller character at the first position where they differ |
| `Text.StrLtIrreflexive` | obsbotv6.py:71 | no string sorts before itself under Python's string order |
| `Text.StrLtTransitive` | obsbotv6.py:71 | Python's string order is transitive |
| `Text.StrLtConnected` | obsbotv6.py:71 | of two distinct strings one sorts before the other |
| `Text.Decimal` | obsbotv6.py:88 | the decimal text of an index is non-empty and all digits |
| `Text.ParseNat` | obsbotv6.py:178 | `int()` of a field succeeds exactly on a non-empty all-digit string |
| `Text.ParseDecimal` | obsbotv6.py:178 | `int(str(n)) == n` for every index |
| `Sorting.SortBy` | obsbotv6.py:70-77 | the sorted list is a permutation of the input, of the same length, ordered by the key ascending or, with `reverse`, descending |
| `Sorting.SortByStable` | obsbotv6.py:71 | elements with equal keys keep their relative order |
| `Sorting.SortByIdempotent` | obsbotv6.py:70-77 | sorting a sorted list again changes nothing |
| `Listing.VideoNames` | obsbotv2.py:41 | the kept names are exactly the listed names ending in `.mp4` or `.mkv`, never more than the listing |
| `Listing.VideoNamesAppend` | obsbotv3.py:156 | the filter keeps listing order: filtering a concatenation is the concatenation of the filtered parts |
| `Listing.NamesMatching` | obsbotv3.py:157 | the matches are exactly the names whose lower-cased form contains the keyword |
| `Listing.NamesMatchingAppend` | obsbotv3.py:157 | the keyword filter keeps order: filtering a concatenation is the concatenation of the filtered parts |
| `Callback.Encode` | obsbotv6.py:88-110 | each payload is its branch's prefix followed by the index in decimal, the sort mode, or nothing for `clear_search`; the field after the prefix has no `_` for every index and every sort mode without `_` |
| `Callback.Decode` | obsbotv6.py:177-207 | a `sort_` payload sets as the mode the text after the first `_` up to the next `_` (a mode without `_`); `folder_` is only read where that branch exists; the payload means Clear Search exactly when it is `clear_search` |
| `Callback.DecodeEncode` | obsbotv6.py:84-110 | every payload a button is built with dispatches to that button's own branch (a folder payload is ignored by a bot without folders) |
| `Callback.EncodeInjective` | obsbotv6.py:84-110 | distinct buttons carry distinct payloads |
| `Pager.Range` | obsbotv6.py:85 | `range(lo, hi)` has `hi - lo` consecutive elements (none when `hi <= lo`), exactly the integers in `[lo, hi)` |
| `Pager.PageCount` | obsbotv6.py:79-80 | `(n - 1) // 75 + 1` is 0 for an empty list and otherwise the least page count covering `n` files |
| `Pager.FileIndices` | obsbotv6.py:81-88 | a page shows at most 75 consecutive positions, exactly those in `[page*75, min(page*75 + 75, n))`, and none when `page*75 >= n` |
| `Pager.EveryFileHasAPage` | obsbotv6.py:79-88 | each position is shown on exactly one page, an existing one |
| `Pager.PageWindow` | obsbotv6.py:99-102 | at most 5 consecutive page numbers, exactly the existing pages within 2 of `page`, including `page` whenever it exists |
| `Pager.NavRow` | obsbotv6.py:105-110 | Prev is first when `page > 0`; a page button is there for `page - 1` or, when it exists, `page + 1`, and for nothing else; the row has one button per present arrow plus one; Refresh of the current page is last |
| `Pager.FileRows` | obsbotv6.py:84-88 | one single-button row per shown position, in position order, each a file button for that position |
| `Pager.Layout` | obsbotv6.py:84-111 | the keyboard's rows in order: the file rows, the sort row, the Clear Search row exactly while searching, the page numbers, and the navigation row last |
| `Pager.LayoutButtons` | obsbotv6.py:84-111 | the keyboard holds a file button exactly for the shown positions, the four sort modes, Clear Search exactly while searching, page buttons exactly for the window and Prev / Next, Refresh for the current page and for no other page, no folder button |
| `Pager.LayoutEncodable` | obsbotv6.py:84-111 | every payload on a page reads back as its own action |
| `Pager.BuildKeyboard` | obsbotv6.py:84-111 | the append loop builds exactly the layout: one row per shown file, the sort row, Clear Search when searching, the page row and the navigation row |
| `Limiter.RateLimiter.constructor` | obsbotv6.py:18 | the map starts empty, with the configured limit |
| `Limiter.RateLimiter.Admit` | obsbotv6.py:33-39 | refused exactly when `now - last < limit`, with `last` defaulting to 0; a refusal leaves the map unchanged and reports `limit - (now - last)`; an acceptance records `now` for the key and no other key changes |
| `Limiter.SplitWait` | obsbotv6.py:35-36 | `divmod(remaining, 60)` gives minutes and seconds with `minutes*60 + seconds == remaining` and `seconds < 60` |
| `Limiter.SplitWaitUnique` | obsbotv2.py:29-31 | that split is the only one with fewer than 60 seconds |
| `Queue.QueueFile.Append` | obsbotv6.py:189-190 | opening in append mode and writing adds exactly the text at the end |
| `BotV6.FolderVideos` | obsbotv6.py:58-62 | a folder's entries are one per video name of its listing, in listing order, each with its folder and its joined path, and nothing else |
| `BotV6.FolderHitsFilters` | obsbotv6.py:137-143 | testing extension and keyword on each name gives one entry per name of the keyword filter applied to the extension filter, in listing order |
| `BotV6.FolderHitsMembers` | obsbotv6.py:137-143 | one folder's hits are exactly its video names containing the keyword, with folder and path |
| `BotV6.SearchHits` | obsbotv6.py:135-145 | the hits are exactly the matching videos of the configured folders that can be listed |
| `BotV6.SearchHitsAppend` | obsbotv6.py:135-145 | the hits come folder by folder in configuration order: searching `a` then `b` gives the hits of `a` followed by those of `b` |
| `BotV6.SearchHitsSingle` | obsbotv6.py:135-145 | the hits contributed by one folder are that folder's hits in listing order, and none when it cannot be listed |
| `BotV6.CollectHits` | obsbotv6.py:133-145 | the nested loop fills `matching_files` with the hits, folder by folder in configuration order, each in listing order |
| `BotV6.Arrange` | obsbotv6.py:70-77 | the list is a permutation of itself afterwards, ordered by name ascending (az) or descending (za), by mtime newest (new) or oldest (old) first, and left as it was under any other mode |
| `BotV6.ArrangeIdempotent` | obsbotv6.py:70-77 | re-sorting under the same mode moves nothing, so the `file_i` index of a shown page still names the file shown |
| `BotV6.ArrangeStableByName` | obsbotv6.py:71-73 | same-named files from different folders keep their relative order under az and za |
| `BotV6.FolderButtons` | obsbotv6.py:50-53 | one row per configured folder, the i-th holding the single button for folder i, so the buttons are exactly the indices below the folder count |
| `BotV6.Session.Clear` | obsbotv6.py:48 | `user_data.clear()` leaves every key unset |
| `BotV6.Session.Render` | obsbotv6.py:65-123 | the list is re-sorted in place by the stored mode, `page` is stored, nothing else changes, and the keyboard is the layout of that page |
| `BotV6.Session.OpenFolderAt` | obsbotv6.py:177-184 | `folder_i` stores the folder, then loads its videos sorted A-Z on page 0; an index past the folder list changes nothing; an unreadable folder is stored but nothing else changes |
| `BotV6.Session.PickFileAt` | obsbotv6.py:186-191 | `file_i` appends exactly the file's path and a newline and leaves the session unchanged; an index past the list appends nothing |
| `BotV6.Session.ChangeSort` | obsbotv6.py:197-199 | `sort_m` stores `m`, applies it to the list and shows the stored page |
| `BotV6.Session.ResetSearch` | obsbotv6.py:200-207 | `clear_search` lists the selected folder again when one is set, removes the search, resets the sort to az and shows page 0; an unreadable folder changes nothing |
| `BotV6.Session.Press` | obsbotv6.py:172-207 | each decoded payload has exactly its branch's effect on the session and the queue; a malformed or unmatched payload changes nothing |
| `BotV6.Session.RunSearch` | obsbotv6.py:127-157 | no keyword or no hit changes nothing; otherwise the hits become the list, sorted az on page 0, with the search set and `selected_folder` removed |
| `BotV6.WaitReply` | obsbotv6.py:35-37 | the wait shown is the remaining time split into minutes and seconds below 60 |
| `BotV6.Start` | obsbotv6.py:28-55 | a refused `/start` changes neither the map nor the session; an accepted one records `now`, clears `user_data` and offers the folder menu |
| `BotV6.SearchCommand` | obsbotv6.py:126-157 | `/search` is refused on the same per-user map as `/start`, changing nothing, and otherwise records `now` and searches |
| `BotV3.CurrentFiles` | obsbotv3.py:65-73 | `video_files[start_idx:end_idx]` has at most 75 names, exactly the names at the positions the file buttons carry |
| `BotV3.Arrange` | obsbotv3.py:55-63 | bare names sorted to a permutation ordered ascending (az), descending (za), by mtime of the joined path (new, old), or left alone |
| `BotV3.ArrangeAscending` | obsbotv3.py:56-57 | after an A-Z sort no name is followed by one that compares smaller |
| `BotV3.Session.Start` | obsbotv3.py:42-47 | `start` clears the session, then (if the folder can be listed) loads its videos sorted az on page 0 and shows page 0 |
| `BotV3.Session.Render` | obsbotv3.py:50-112 | the list is re-sorted in place by the stored mode, `page` is stored, nothing else changes, and the keyboard is the layout of that page |
| `BotV3.Session.Press` | obsbotv3.py:116-146 | `file_i` appends `join(VIDEO_FOLDER, name) + "\n"` and changes nothing else; page and refresh show a page; `sort_m` stores `m` at the stored page; `clear_search` removes the search and reloads the whole folder sorted az on page 0 |
| `BotV3.Session.Search` | obsbotv3.py:150-167 | no keyword, no listing or no match changes nothing; otherwise the matches become the list sorted az on page 0 with the search set |
| `BotV3.WaitReply` | obsbotv3.py:33 | the seconds shown are positive and end where the cooldown ends |
| `BotV3.StartCommand` | obsbotv3.py:25-47 | under the key `(user, "start")` with a 5-second limit: refused changes nothing, accepted records `now` and starts |
| `BotV3.ButtonCallback` | obsbotv3.py:115-146 | under the key `(user, "button_callback")` with a 5-second limit: refused changes neither the map, the session nor the queue, and the refusal raises; accepted records `now` and presses |
| `BotV3.SearchCommand` | obsbotv3.py:149-167 | under the key `(user, "search_command")` with a 5-second limit: refused changes nothing, accepted records `now` and searches |
| `BotV3.HandlersIndependent` | obsbotv3.py:31-35 | an accepted call of one handler leaves every other handler's cooldown for that user where it was |
| `BotV2.MenuRows` | obsbotv2.py:47 | one row per file, holding one button whose payload is the file name |
| `BotV2.MenuOffersVideos` | obsbotv2.py:41-47 | every button on the menu names a listed video |
| `BotV2.WaitReply` | obsbotv2.py:29-31 | the minutes and seconds shown, seconds below 60, add up to the end of the 300-second cooldown |
| `BotV2.Listed` | obsbotv2.py:41-50 | an unreadable folder fails, a folder without videos sends no keyboard, otherwise the menu of its videos in listing order |
| `BotV2.Start` | obsbotv2.py:23-50 | refused exactly within 300 s of the last accepted request, changing nothing; accepted records `now` before the folder is read |
| `BotV2.Press` | obsbotv2.py:54-69 | the queue grows by exactly `join(VIDEO_FOLDER, data) + "\n"` and the echo is the queue after the append |

## Left out

- The Telegram transport is not modelled: async handlers, messages sent or edited, answered callback queries, message text, Markdown, emoji and button labels. Replies and buttons keep only their payloads.
- `list_command` in obsbotv6.py and obsbotv3.py is not modelled: it reads the queue file back and changes no session. In obsbotv3.py it is also rate-limited, which records the key `(user, "list_command")`; by `BotV3.HandlersIndependent` that key leaves the cooldowns of the modelled handlers alone.
- Configuration loading, logging, `print` and `main` are process setup.
- `time.time()` is a float in the bot; here it is an integer number of seconds. `int()` truncation of the remaining wait is therefore plain subtraction.
- `os.listdir`, `os.path.getmtime` and `os.path.join` are parameters, with no path or separator semantics. A `getmtime` that raises during a sort is not modelled.
- Python's `sort` is modelled by its result: the stable order it produces, not its algorithm.
- Telegram's 64-byte limit on `callback_data` is not modelled, and neither is the size of a keyboard.
- Text.Lower: only ASCII letters are lower-cased. Python's `str.lower()` also maps non-ASCII letters, and can change the length.
- Text.ParseNat: `int()` also accepts surrounding whitespace, a sign and `_` between digits; here only plain digit strings parse. A negative `file_` or `page_` index, which Python would accept, is read as malformed.
- The per-user cooldown maps live as long as the process, and nothing removes entries; the model has the same unbounded map.
