/**
 * Callback payloads: the `callback_data` strings the buttons carry, and the prefix
 * dispatch of `button_callback` that reads them back.
 */
module Callback {
  import opened Wrappers
  import opened Text

  /** What a button press asks for. */
  datatype Action =
    | OpenFolder(folder: nat)   // folder_<i>
    | PickFile(file: nat)       // file_<i>
    | GoToPage(page: nat)       // page_<p>
    | Refresh(page: nat)        // refresh_<p>
    | SetSort(mode: string)     // sort_<mode>
    | ClearSearch               // clear_search

  /** How the dispatcher reads a payload. */
  datatype Parsed =
    | Dispatch(action: Action)
    | Malformed    // a prefix matched but `int(...)` raised
    | Unhandled    // no branch matched; the press does nothing

  type Row = seq<Action>

  /** The prefix that selects an action's branch of the dispatch. */
  function Tag(a: Action): string {
    match a
    case OpenFolder(_) => "folder_"
    case PickFile(_) => "file_"
    case GoToPage(_) => "page_"
    case Refresh(_) => "refresh_"
    case SetSort(_) => "sort_"
    case ClearSearch => "clear_search"
  }

  /**
   * The payload a button carries: its branch's prefix, then a field that (for an index,
   * and for a sort mode without `_`) contains no further `_`, so that splitting at `_`
   * gives the field back whole.
   */
  function Encode(a: Action): (r: string)
    ensures StartsWith(r, Tag(a))
    ensures Encodable(a) ==> '_' !in r[|Tag(a)|..]
    ensures a.SetSort? ==> r[|Tag(a)|..] == a.mode
    ensures !a.SetSort? && !a.ClearSearch? ==> AllDigits(r[|Tag(a)|..]) && |r| > |Tag(a)|
  {
    match a
    case OpenFolder(i) => DecimalHasNoUnderscore(i); "folder_" + Decimal(i)
    case PickFile(i) => DecimalHasNoUnderscore(i); "file_" + Decimal(i)
    case GoToPage(p) => DecimalHasNoUnderscore(p); "page_" + Decimal(p)
    case Refresh(p) => DecimalHasNoUnderscore(p); "refresh_" + Decimal(p)
    case SetSort(m) => "sort_" + m
    case ClearSearch => "clear_search"
  }

  /** The second part of a payload split at `_`, for a prefix whose only `_` is its last character. */
  function Field(data: string, prefix: string): string
    requires StartsWith(data, prefix)
  {
    TakeUntil(data[|prefix|..], '_')
  }

  function Indexed(data: string, prefix: string, make: nat -> Action): Parsed
    requires StartsWith(data, prefix)
  {
    match ParseNat(Field(data, prefix))
    case Some(n) => Dispatch(make(n))
    case None => Malformed
  }

  /**
   * The `if data.startswith(...) / elif ...` chain of `button_callback`, in its order.
   * `folders` says whether the `folder_` branch exists.
   */
  function Decode(data: string, folders: bool): (r: Parsed)
    ensures r.Dispatch? && r.action.SetSort? ==>
      '_' !in r.action.mode && (data == "sort_" + r.action.mode || StartsWith(data, "sort_" + r.action.mode + "_"))
    ensures r.Dispatch? && r.action.OpenFolder? ==> folders
    ensures r == Dispatch(ClearSearch) <==> data == "clear_search"
  {
    if folders && StartsWith(data, "folder_") then
      assert data[0] == 'f';
      Indexed(data, "folder_", (i: nat) => OpenFolder(i))
    else if StartsWith(data, "file_") then
      assert data[0] == 'f';
      Indexed(data, "file_", (i: nat) => PickFile(i))
    else if StartsWith(data, "page_") then
      assert data[0] == 'p';
      Indexed(data, "page_", (p: nat) => GoToPage(p))
    else if StartsWith(data, "refresh_") then
      assert data[0] == 'r';
      Indexed(data, "refresh_", (p: nat) => Refresh(p))
    else if StartsWith(data, "sort_") then
      var m := Field(data, "sort_");
      assert data[0] == 's';
      assert data[5..][..|m|] == m;
      assert data[..5 + |m|] == "sort_" + m;
      assert |m| < |data[5..]| ==> data[..5 + |m| + 1] == "sort_" + m + "_";
      Dispatch(SetSort(m))
    else if data == "clear_search" then Dispatch(ClearSearch)
    else Unhandled
  }

  /** A sort mode that survives the round trip: `split("_")` would cut it at its first `_`. */
  predicate Encodable(a: Action) {
    a.SetSort? ==> '_' !in a.mode
  }

  lemma IndexedEncode(prefix: string, n: nat, make: nat -> Action)
    requires StartsWith(prefix + Decimal(n), prefix)
    ensures Indexed(prefix + Decimal(n), prefix, make) == Dispatch(make(n))
  {
    assert (prefix + Decimal(n))[|prefix|..] == Decimal(n);
    DecimalHasNoUnderscore(n);
    ParseDecimal(n);
  }

  /**
   * Every payload a button is built with is read back as the action it was built for;
   * without the `folder_` branch, a folder payload is ignored.
   */
  lemma DecodeEncode(a: Action, folders: bool)
    requires Encodable(a)
    ensures Decode(Encode(a), folders) == if a.OpenFolder? && !folders then Unhandled else Dispatch(a)
  {
    var data := Encode(a);
    match a
    case OpenFolder(i) =>
      assert StartsWith(data, "folder_");
      assert !StartsWith(data, "file_") by { assert data[1] == 'o'; }
      assert !StartsWith(data, "page_") && !StartsWith(data, "refresh_") && !StartsWith(data, "sort_") by { assert data[0] == 'f'; }
      assert data != "clear_search" by { assert data[0] == 'f'; }
      if folders { IndexedEncode("folder_", i, (i: nat) => OpenFolder(i)); }
    case PickFile(i) =>
      assert StartsWith(data, "file_");
      assert !StartsWith(data, "folder_") by { assert data[1] == 'i'; }
      IndexedEncode("file_", i, (i: nat) => PickFile(i));
    case GoToPage(p) =>
      assert StartsWith(data, "page_");
      assert !StartsWith(data, "folder_") && !StartsWith(data, "file_") by { assert data[0] == 'p'; }
      IndexedEncode("page_", p, (p: nat) => GoToPage(p));
    case Refresh(p) =>
      assert StartsWith(data, "refresh_");
      assert !StartsWith(data, "folder_") && !StartsWith(data, "file_") && !StartsWith(data, "page_") by { assert data[0] == 'r'; }
      IndexedEncode("refresh_", p, (p: nat) => Refresh(p));
    case SetSort(m) =>
      assert StartsWith(data, "sort_");
      assert !StartsWith(data, "folder_") && !StartsWith(data, "file_") && !StartsWith(data, "page_") && !StartsWith(data, "refresh_") by { assert data[0] == 's'; }
      assert data[5..] == m;
      TakeUntilAbsent(m, '_');
    case ClearSearch =>
      assert !StartsWith(data, "folder_") && !StartsWith(data, "file_") by { assert data[0] == 'c'; }
      assert !StartsWith(data, "page_") && !StartsWith(data, "refresh_") && !StartsWith(data, "sort_") by { assert data[0] == 'c'; }
  }

  /** Distinct buttons carry distinct payloads. */
  lemma EncodeInjective(a: Action, b: Action)
    requires Encodable(a) && Encodable(b) && Encode(a) == Encode(b)
    ensures a == b
  {
    DecodeEncode(a, true);
    DecodeEncode(b, true);
  }
}
