/** String operations the bot relies on, with Python's meaning spelled out. */
module Text {
  import opened Wrappers

  /** Python's `startswith` with one prefix. */
  predicate StartsWith(s: string, prefix: string) {
    |prefix| <= |s| && s[..|prefix|] == prefix
  }

  /** Python's `endswith` with one suffix. */
  predicate EndsWith(s: string, suffix: string) {
    |suffix| <= |s| && s[|s| - |suffix|..] == suffix
  }

  const VIDEO_EXTENSIONS: seq<string> := [".mp4", ".mkv"]

  /**
   * The extension test every folder listing is filtered with: `endswith` given a tuple
   * holds when the name ends with any one of its suffixes. It is case-sensitive.
   */
  function IsVideoName(name: string): (r: bool)
    ensures r <==> exists ext :: ext in VIDEO_EXTENSIONS && EndsWith(name, ext)
    ensures r ==> |name| >= 4 && name[|name| - 4] == '.'
  {
    assert VIDEO_EXTENSIONS[0] == ".mp4" && VIDEO_EXTENSIONS[1] == ".mkv";
    EndsWith(name, ".mp4") || EndsWith(name, ".mkv")
  }

  predicate IsUpper(c: char) {
    'A' <= c <= 'Z'
  }

  function LowerChar(c: char): char {
    if IsUpper(c) then (c as int - 'A' as int + 'a' as int) as char else c
  }

  /** `s.lower()`, on the ASCII letters. */
  function Lower(s: string): (r: string)
    ensures |r| == |s|
    ensures forall i :: 0 <= i < |r| ==> !IsUpper(r[i])
    ensures forall i :: 0 <= i < |r| && !IsUpper(s[i]) ==> r[i] == s[i]
    ensures forall i :: 0 <= i < |r| && IsUpper(s[i]) ==> r[i] as int == s[i] as int + 32
  {
    seq(|s|, i requires 0 <= i < |s| => LowerChar(s[i]))
  }

  /** The total length of some words. */
  function Width(words: seq<string>): nat
    decreases |words|
  {
    if |words| == 0 then 0 else |words[0]| + Width(words[1..])
  }

  /**
   * The words of a command joined with one space between neighbours, as the keyword of
   * a search is built: it starts with the first word, ends with the last, and is one
   * character longer than the words per gap.
   */
  function JoinWords(words: seq<string>): (r: string)
    ensures |words| == 0 ==> r == ""
    ensures |words| > 0 ==> StartsWith(r, words[0]) && EndsWith(r, words[|words| - 1])
    ensures |words| > 0 ==> |r| == Width(words) + |words| - 1
    decreases |words|
  {
    if |words| == 0 then ""
    else if |words| == 1 then words[0]
    else
      var rest := JoinWords(words[1..]);
      assert (words[0] + " " + rest)[..|words[0]|] == words[0];
      assert words[1..][|words| - 2] == words[|words| - 1];
      assert (words[0] + " " + rest)[|words[0]| + 1 + |rest| - |words[|words| - 1]|..]
          == rest[|rest| - |words[|words| - 1]|..];
      words[0] + " " + rest
    }

  /** Joining one more word adds a space and that word at the end. */
  lemma {:induction false} JoinWordsSnoc(words: seq<string>, w: string)
    requires |words| > 0
    ensures JoinWords(words + [w]) == JoinWords(words) + " " + w
    decreases |words|
  {
    if |words| > 1 {
      assert (words + [w])[1..] == words[1..] + [w];
      JoinWordsSnoc(words[1..], w);
    } else {
      assert (words + [w])[1..] == [w];
    }
  }

  /** `needle` occurs in `hay` starting at position `i`. */
  predicate OccursAt(hay: string, needle: string, i: int) {
    0 <= i && i + |needle| <= |hay| && hay[i..i + |needle|] == needle
  }

  /** Python's `needle in hay` on strings: some window of `hay` equals `needle`. */
  function Contains(hay: string, needle: string): (r: bool)
    ensures r <==> exists i :: OccursAt(hay, needle, i)
    decreases |hay|
  {
    if |needle| > |hay| then false
    else if hay[..|needle|] == needle then (assert OccursAt(hay, needle, 0); true)
    else
      var rest := Contains(hay[1..], needle);
      ShiftOccurrence(hay, needle);
      rest
  }

  /** An occurrence in `hay` past position 0 is an occurrence in `hay[1..]`, and back. */
  lemma ShiftOccurrence(hay: string, needle: string)
    requires |needle| <= |hay| && hay[..|needle|] != needle
    ensures (exists i :: OccursAt(hay, needle, i)) <==> (exists j :: OccursAt(hay[1..], needle, j))
  {
    if i :| OccursAt(hay, needle, i) {
      assert i != 0;
      assert hay[1..][i - 1..i - 1 + |needle|] == hay[i..i + |needle|];
      assert OccursAt(hay[1..], needle, i - 1);
    }
    if j :| OccursAt(hay[1..], needle, j) {
      assert hay[1..][j..j + |needle|] == hay[j + 1..j + 1 + |needle|];
      assert OccursAt(hay, needle, j + 1);
    }
  }

  /** The text of `s` before its first `c`: what splitting a payload at `_` yields as its second part. */
  function TakeUntil(s: string, c: char): (r: string)
    ensures r <= s
    ensures c !in r
    ensures |r| < |s| ==> s[|r|] == c
  {
    if s == [] || s[0] == c then [] else [s[0]] + TakeUntil(s[1..], c)
  }

  // ---------------------------------------------------------------------------
  // Python's `<` on `str`: code points compared left to right, a proper prefix first.

  /** `a` is a proper prefix of `b`, or `a` has the smaller character where they first differ. */
  predicate Lexicographic(a: string, b: string) {
    (|a| < |b| && a == b[..|a|])
    || exists k :: 0 <= k < |a| && k < |b| && a[..k] == b[..k] && a[k] < b[k]
  }

  lemma LexicographicShift(a: string, b: string)
    requires |a| > 0 && |b| > 0 && a[0] == b[0]
    ensures Lexicographic(a, b) <==> Lexicographic(a[1..], b[1..])
  {
    var a', b' := a[1..], b[1..];
    assert a == [a[0]] + a' && b == [b[0]] + b';
    if k :| 0 <= k < |a| && k < |b| && a[..k] == b[..k] && a[k] < b[k] {
      assert k > 0;
      assert a'[..k - 1] == a[1..k] && b'[..k - 1] == b[1..k];
      assert a'[k - 1] < b'[k - 1];
    }
    if k :| 0 <= k < |a'| && k < |b'| && a'[..k] == b'[..k] && a'[k] < b'[k] {
      assert a[..k + 1] == [a[0]] + a'[..k] && b[..k + 1] == [b[0]] + b'[..k];
      assert a[k + 1] < b[k + 1];
    }
    if |a| < |b| && a == b[..|a|] {
      assert a' == b'[..|a'|];
    }
    if |a'| < |b'| && a' == b'[..|a'|] {
      assert b[..|a|] == [b[0]] + b'[..|a'|];
    }
  }

  lemma LexicographicHead(a: string, b: string)
    requires |a| > 0 && |b| > 0 && a[0] != b[0]
    ensures Lexicographic(a, b) <==> a[0] < b[0]
  {
    if a[0] < b[0] {
      assert a[..0] == b[..0];
    }
  }

  /** Python's `<` on `str`, compared character by character from the left. */
  predicate StrLt(a: string, b: string)
    decreases |a|
  {
    if |a| == 0 then |b| > 0
    else if |b| == 0 then false
    else if a[0] != b[0] then a[0] < b[0]
    else StrLt(a[1..], b[1..])
  }

  /** The comparison is the lexicographic order: prefix first, else the first differing character decides. */
  lemma {:induction false} StrLtLexicographic(a: string, b: string)
    ensures StrLt(a, b) <==> Lexicographic(a, b)
    decreases |a|
  {
    if |a| == 0 {
      assert |b| > 0 ==> a == b[..0];
    } else if |b| == 0 {
    } else if a[0] != b[0] {
      LexicographicHead(a, b);
    } else {
      LexicographicShift(a, b);
      StrLtLexicographic(a[1..], b[1..]);
    }
  }

  lemma {:induction false} StrLtIrreflexive(a: string)
    ensures !StrLt(a, a)
    decreases |a|
  {
    if |a| > 0 {
      StrLtIrreflexive(a[1..]);
    }
  }

  lemma {:induction false} StrLtTransitive(a: string, b: string, c: string)
    requires StrLt(a, b) && StrLt(b, c)
    ensures StrLt(a, c)
    decreases |a|
  {
    if |a| > 0 && a[0] == b[0] && b[0] == c[0] {
      StrLtTransitive(a[1..], b[1..], c[1..]);
    }
  }

  lemma {:induction false} StrLtConnected(a: string, b: string)
    requires a != b
    ensures StrLt(a, b) || StrLt(b, a)
    decreases |a|
  {
    if |a| > 0 && |b| > 0 && a[0] == b[0] {
      assert a == [a[0]] + a[1..] && b == [b[0]] + b[1..];
      StrLtConnected(a[1..], b[1..]);
    }
  }

  // ---------------------------------------------------------------------------
  // Decimal numerals: `str(i)` when a button is built and `int(...)` when it is pressed.

  predicate IsDigit(c: char) {
    '0' <= c <= '9'
  }

  predicate AllDigits(s: string) {
    forall i :: 0 <= i < |s| ==> IsDigit(s[i])
  }

  function DigitChar(d: nat): (c: char)
    requires d < 10
    ensures IsDigit(c) && c as int - '0' as int == d
  {
    ('0' as int + d) as char
  }

  /** `str(n)` for a non-negative integer. */
  function Decimal(n: nat): (r: string)
    ensures |r| > 0 && AllDigits(r)
    decreases n
  {
    if n < 10 then [DigitChar(n)] else Decimal(n / 10) + [DigitChar(n % 10)]
  }

  /** The value of a string of decimal digits, leading zeros allowed. */
  function DecimalValue(s: string): nat
    requires AllDigits(s)
    decreases |s|
  {
    if s == [] then 0
    else DecimalValue(s[..|s| - 1]) * 10 + (s[|s| - 1] as int - '0' as int)
  }

  /** `int(s)` on the strings a button can carry: digits only, at least one. */
  function ParseNat(s: string): (r: Option<nat>)
    ensures r.Some? <==> |s| > 0 && AllDigits(s)
  {
    if |s| > 0 && AllDigits(s) then Some(DecimalValue(s)) else None
  }

  /** Reading back a printed index gives the index. */
  lemma {:induction false} ParseDecimal(n: nat)
    ensures ParseNat(Decimal(n)) == Some(n)
  {
    DecimalValueOfDecimal(n);
  }

  lemma {:induction false} DecimalValueOfDecimal(n: nat)
    ensures DecimalValue(Decimal(n)) == n
    decreases n
  {
    var s := Decimal(n);
    if n < 10 {
      assert s[..0] == [];
    } else {
      DecimalValueOfDecimal(n / 10);
      assert s[..|s| - 1] == Decimal(n / 10);
    }
  }

  /** A numeral has no `_` in it, so cutting at the next `_` keeps all of it. */
  lemma DecimalHasNoUnderscore(n: nat)
    ensures '_' !in Decimal(n)
    ensures TakeUntil(Decimal(n), '_') == Decimal(n)
  {
    var s := Decimal(n);
    assert forall i :: 0 <= i < |s| ==> s[i] != '_';
    TakeUntilAbsent(s, '_');
  }

  lemma {:induction false} TakeUntilAbsent(s: string, c: char)
    requires c !in s
    ensures TakeUntil(s, c) == s
    decreases |s|
  {
    if s != [] {
      TakeUntilAbsent(s[1..], c);
      assert s == [s[0]] + s[1..];
    }
  }
}
