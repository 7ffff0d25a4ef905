/** The few Python built-ins the two extraction scripts lean on, with
    Python's own semantics: list/str indexing and slicing (negative indices
    count from the end, slices clamp), `str.isspace`, `str.strip()` and
    `str.split()` without arguments. */
module PyText {
  import opened Common

  /** The one exception these built-ins can raise here. */
  datatype PyError = IndexError

  /** Python's normalisation of a slice bound against a length. */
  function SliceBound(i: int, len: nat): (b: nat)
    ensures b <= len
    ensures 0 <= i <= len ==> b == i
  {
    if i < 0 then (if i + len < 0 then 0 else i + len) else if i > len then len else i
  }

  /** `s[i:j]` */
  function Slice<T>(s: seq<T>, i: int, j: int): (r: seq<T>)
    ensures 0 <= i <= j <= |s| ==> r == s[i..j]
  {
    var lo := SliceBound(i, |s|);
    var hi := SliceBound(j, |s|);
    if lo < hi then s[lo..hi] else []
  }

  /** `s[i:]` */
  function SliceFrom<T>(s: seq<T>, i: int): (r: seq<T>)
    ensures 0 <= i <= |s| ==> r == s[i..]
  {
    Slice(s, i, |s|)
  }

  /** `s[:j]` */
  function SliceTo<T>(s: seq<T>, j: int): (r: seq<T>)
    ensures 0 <= j <= |s| ==> r == s[..j]
  {
    Slice(s, 0, j)
  }

  /** `s[i]`, which raises IndexError outside `-len(s) <= i < len(s)`. */
  function Index<T>(s: seq<T>, i: int): (r: Result<T, PyError>)
    ensures r.Ok? <==> -|s| <= i < |s|
    ensures 0 <= i < |s| ==> r == Ok(s[i])
    ensures -|s| <= i < 0 ==> r == Ok(s[|s| + i])
  {
    if 0 <= i < |s| then Ok(s[i])
    else if -|s| <= i < 0 then Ok(s[|s| + i])
    else Err(IndexError)
  }

  /** Python's `str.isspace()` for one character (the characters that
      `str.split()` and `str.strip()` treat as whitespace). */
  predicate IsSpace(c: char)
  {
    || ('\t' <= c <= '\r')
    || ('\U{001C}' <= c <= '\U{001F}')
    || c == ' ' || c == '\U{0085}' || c == '\U{00A0}' || c == '\U{1680}'
    || ('\U{2000}' <= c <= '\U{200A}')
    || c == '\U{2028}' || c == '\U{2029}' || c == '\U{202F}' || c == '\U{205F}' || c == '\U{3000}'
  }

  predicate AllSpace(s: string)
  {
    forall i :: 0 <= i < |s| ==> IsSpace(s[i])
  }

  /** Number of leading whitespace characters. */
  function LeadingSpace(s: string): (n: nat)
    ensures n <= |s|
    ensures AllSpace(s[..n])
    ensures n < |s| ==> !IsSpace(s[n])
  {
    if s == [] || !IsSpace(s[0]) then 0
    else
      var m := LeadingSpace(s[1..]);
      assert s[1..][..m] == s[1..m + 1];
      m + 1
  }

  /** Number of trailing whitespace characters. */
  function TrailingSpace(s: string): (n: nat)
    ensures n <= |s|
    ensures AllSpace(s[|s| - n..])
    ensures n < |s| ==> !IsSpace(s[|s| - n - 1])
  {
    if s == [] || !IsSpace(s[|s| - 1]) then 0
    else
      var init := s[..|s| - 1];
      var m := TrailingSpace(init);
      assert s[|s| - (m + 1)..] == init[|init| - m..] + [s[|s| - 1]];
      m + 1
  }

  /** `s.strip()` */
  function Strip(s: string): (r: string)
  {
    var lo := LeadingSpace(s);
    var rest := s[lo..];
    rest[..|rest| - TrailingSpace(rest)]
  }

  /** What `strip()` promises: the result is the text with a whitespace-only
      prefix and suffix removed, and it neither starts nor ends with
      whitespace. */
  lemma StripSpec(s: string)
    ensures exists i, j :: 0 <= i <= j <= |s| && Strip(s) == s[i..j] && AllSpace(s[..i]) && AllSpace(s[j..])
    ensures Strip(s) != [] ==> !IsSpace(Strip(s)[0]) && !IsSpace(Strip(s)[|Strip(s)| - 1])
  {
    var lo := LeadingSpace(s);
    var rest := s[lo..];
    var t := TrailingSpace(rest);
    var j := lo + |rest| - t;
    assert Strip(s) == s[lo..j];
    assert s[j..] == rest[|rest| - t..];
    if Strip(s) != [] {
      assert Strip(s)[0] == rest[0];
      if t == 0 {
        assert !IsSpace(rest[|rest| - 1]);
      }
    }
  }

  /** `strip()` is idempotent. */
  lemma StripIdempotent(s: string)
    ensures Strip(Strip(s)) == Strip(s)
  {
    StripSpec(s);
    var r := Strip(s);
    if r != [] {
      assert LeadingSpace(r) == 0;
      assert TrailingSpace(r) == 0;
    } else {
      assert Strip(r) == [];
    }
  }

  /** Length of the leading run of non-whitespace characters. */
  function WordLength(s: string): (n: nat)
    ensures n <= |s|
    ensures forall i :: 0 <= i < n ==> !IsSpace(s[i])
    ensures n < |s| ==> IsSpace(s[n])
  {
    if s == [] || IsSpace(s[0]) then 0 else 1 + WordLength(s[1..])
  }

  /** `s.split()`: the maximal runs of non-whitespace characters, in order. */
  function Words(s: string): (ws: seq<string>)
    ensures forall k :: 0 <= k < |ws| ==> |ws[k]| > 0 && forall i :: 0 <= i < |ws[k]| ==> !IsSpace(ws[k][i])
    decreases |s|
  {
    if s == [] then []
    else if IsSpace(s[0]) then Words(s[1..])
    else
      var n := WordLength(s);
      [s[..n]] + Words(s[n..])
  }

  /** `split()` finds no word exactly when the text is all whitespace. */
  lemma {:induction false} WordsEmpty(s: string)
    ensures Words(s) == [] <==> AllSpace(s)
    decreases |s|
  {
    if s != [] && IsSpace(s[0]) {
      WordsEmpty(s[1..]);
      if AllSpace(s[1..]) {
        forall i | 0 <= i < |s| ensures IsSpace(s[i]) {
          if i > 0 { assert s[i] == s[1..][i - 1]; }
        }
      }
    }
  }

  /** A text without whitespace is one word. */
  lemma WordsOfToken(s: string)
    requires s != [] && forall i :: 0 <= i < |s| ==> !IsSpace(s[i])
    ensures Words(s) == [s]
  {
    WordLengthOfToken(s);
    assert !IsSpace(s[0]);
    assert s[..|s|] == s;
    assert s[|s|..] == [];
    assert Words(s) == [s[..|s|]] + Words(s[|s|..]);
  }

  lemma {:induction false} WordLengthOfToken(s: string)
    requires forall i :: 0 <= i < |s| ==> !IsSpace(s[i])
    ensures WordLength(s) == |s|
  {
    if s != [] {
      WordLengthOfToken(s[1..]);
    }
  }

  lemma {:induction false} WordLengthBefore(a: string, c: char, b: string)
    requires IsSpace(c)
    ensures WordLength(a + [c] + b) == WordLength(a)
  {
    if a != [] && !IsSpace(a[0]) {
      assert (a + [c] + b)[1..] == a[1..] + [c] + b;
      WordLengthBefore(a[1..], c, b);
    }
  }

  /** A whitespace character separates words: `(a + " " + b).split() ==
      a.split() + b.split()`. */
  lemma {:induction false} WordsSplitAtSpace(a: string, c: char, b: string)
    requires IsSpace(c)
    ensures Words(a + [c] + b) == Words(a) + Words(b)
    decreases |a|
  {
    var s := a + [c] + b;
    if a == [] {
      assert s[1..] == b;
      assert Words(s) == Words(b);
      assert Words(a) == [];
    } else if IsSpace(a[0]) {
      assert s[1..] == a[1..] + [c] + b;
      assert Words(s) == Words(a[1..] + [c] + b);
      assert Words(a) == Words(a[1..]);
      WordsSplitAtSpace(a[1..], c, b);
    } else {
      var n := WordLength(s);
      WordLengthBefore(a, c, b);
      assert n == WordLength(a) >= 1;
      assert s[..n] == a[..n];
      assert s[n..] == a[n..] + [c] + b;
      assert Words(s) == [a[..n]] + Words(a[n..] + [c] + b);
      assert Words(a) == [a[..n]] + Words(a[n..]);
      WordsSplitAtSpace(a[n..], c, b);
      SeqAssoc([a[..n]], Words(a[n..]), Words(b));
    }
  }
}
