/**
 * The list comprehensions that turn a folder listing into the names the bot offers:
 * the extension filter and the keyword filter. Both keep the listing's order.
 */
module Listing {
  import opened Text

  /** The search test on one name: a video whose lower-cased name contains the keyword. */
  predicate Hit(name: string, keyword: string) {
    IsVideoName(name) && Contains(Lower(name), keyword)
  }

  /** The video names of a listing, in listing order. */
  function VideoNames(names: seq<string>): (r: seq<string>)
    ensures |r| <= |names|
    ensures forall f :: f in r <==> f in names && IsVideoName(f)
    decreases |names|
  {
    if names == [] then []
    else
      var last := names[|names| - 1];
      assert names == names[..|names| - 1] + [last];
      VideoNames(names[..|names| - 1]) + (if IsVideoName(last) then [last] else [])
  }

  /** The names whose lower-cased form contains the keyword, in listing order. */
  function NamesMatching(names: seq<string>, keyword: string): (r: seq<string>)
    ensures |r| <= |names|
    ensures forall f :: f in r <==> f in names && Contains(Lower(f), keyword)
    decreases |names|
  {
    if names == [] then []
    else
      var last := names[|names| - 1];
      assert names == names[..|names| - 1] + [last];
      NamesMatching(names[..|names| - 1], keyword)
        + (if Contains(Lower(last), keyword) then [last] else [])
  }

  /** The extension filter keeps order: filtering a concatenation concatenates the filtered parts. */
  lemma {:induction false} VideoNamesAppend(a: seq<string>, b: seq<string>)
    ensures VideoNames(a + b) == VideoNames(a) + VideoNames(b)
    decreases |b|
  {
    if b != [] {
      var b' := b[..|b| - 1];
      assert (a + b)[..|a + b| - 1] == a + b';
      VideoNamesAppend(a, b');
    } else {
      assert a + b == a;
    }
  }

  /** The keyword filter keeps order in the same sense. */
  lemma {:induction false} NamesMatchingAppend(a: seq<string>, b: seq<string>, keyword: string)
    ensures NamesMatching(a + b, keyword) == NamesMatching(a, keyword) + NamesMatching(b, keyword)
    decreases |b|
  {
    if b != [] {
      var b' := b[..|b| - 1];
      assert (a + b)[..|a + b| - 1] == a + b';
      NamesMatchingAppend(a, b', keyword);
    } else {
      assert a + b == a;
    }
  }
}
