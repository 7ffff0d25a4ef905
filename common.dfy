/** Small shared vocabulary: optional values, results, and the text helpers
    that more than one generator of the repository relies on. */
module Common {

  datatype Option<+T> = None | Some(value: T)

  datatype Result<+T, +E> = Ok(value: T) | Err(error: E)

  /** Index of the first occurrence of `c` in `s`. */
  function IndexOf(s: string, c: char): (k: nat)
    requires c in s
    ensures k < |s| && s[k] == c && c !in s[..k]
  {
    if s[0] == c then 0 else 1 + IndexOf(s[1..], c)
  }

  /** Text made of the given lines, each terminated by a newline
      (how the generators stream `line + "\n"` to a file). */
  function JoinLines(ls: seq<string>): string
  {
    if ls == [] then "" else ls[0] + "\n" + JoinLines(ls[1..])
  }

  /** Splitting a text at every newline, as Python's `s.split("\n")` does. */
  function SplitLines(s: string): (ls: seq<string>)
    ensures |ls| >= 1
    decreases |s|
  {
    if '\n' !in s then [s]
    else
      var k := IndexOf(s, '\n');
      [s[..k]] + SplitLines(s[k + 1..])
  }

  predicate NoNewline(s: string)
  {
    '\n' !in s
  }

  predicate AllNoNewline(ls: seq<string>)
  {
    forall i :: 0 <= i < |ls| ==> NoNewline(ls[i])
  }

  /** Streaming lines and splitting the stream again gives the lines back,
      followed by the empty remainder after the final newline. */
  lemma {:induction false} SplitJoinLines(ls: seq<string>)
    requires AllNoNewline(ls)
    ensures SplitLines(JoinLines(ls)) == ls + [""]
  {
    if ls == [] {
      assert '\n' !in "";
    } else {
      JoinLinesHead(ls);
      SplitJoinLines(ls[1..]);
      assert ls == [ls[0]] + ls[1..];
    }
  }

  /** The first newline of the streamed lines ends the first line. */
  lemma JoinLinesHead(ls: seq<string>)
    requires ls != [] && NoNewline(ls[0])
    ensures var s := JoinLines(ls);
            && '\n' in s && IndexOf(s, '\n') == |ls[0]|
            && s[..|ls[0]|] == ls[0] && s[|ls[0]| + 1..] == JoinLines(ls[1..])
  {
    var s := JoinLines(ls);
    assert s == ls[0] + "\n" + JoinLines(ls[1..]);
    assert s[|ls[0]|] == '\n';
    assert '\n' in s;
    var k := IndexOf(s, '\n');
    assert s[..|ls[0]|] == ls[0];
    assert k == |ls[0]|;
  }

  lemma {:induction false} JoinLinesAppend(a: seq<string>, b: seq<string>)
    ensures JoinLines(a + b) == JoinLines(a) + JoinLines(b)
  {
    if a == [] {
      assert a + b == b;
    } else {
      assert (a + b)[1..] == a[1..] + b;
      JoinLinesAppend(a[1..], b);
    }
  }

  /** `xs[0] + sep + xs[1] + ... + sep + xs[n-1]`, built left to right the way
      a `for` loop with `if (i > 0) s += sep;` builds it. */
  function JoinWith(xs: seq<string>, sep: string): string
  {
    if |xs| == 0 then ""
    else if |xs| == 1 then xs[0]
    else JoinWith(xs[..|xs| - 1], sep) + sep + xs[|xs| - 1]
  }

  /** Offset at which the `i`-th item starts inside `JoinWith(xs, sep)`. */
  function JoinOffset(xs: seq<string>, sep: string, i: nat): nat
    requires i <= |xs|
  {
    if i == 0 then 0 else JoinOffset(xs, sep, i - 1) + |xs[i - 1]| + |sep|
  }

  lemma {:induction false} JoinOffsetPrefix(xs: seq<string>, sep: string, n: nat, i: nat)
    requires i <= n <= |xs|
    ensures JoinOffset(xs[..n], sep, i) == JoinOffset(xs, sep, i)
  {
    if i > 0 {
      JoinOffsetPrefix(xs, sep, n, i - 1);
    }
  }

  /** Every item appears verbatim, at its offset, in the joined text. */
  lemma {:induction false} JoinWithVerbatim(xs: seq<string>, sep: string, i: nat)
    requires i < |xs|
    ensures |JoinWith(xs, sep)| >= JoinOffset(xs, sep, i) + |xs[i]|
    ensures JoinWith(xs, sep)[JoinOffset(xs, sep, i)..JoinOffset(xs, sep, i) + |xs[i]|] == xs[i]
  {
    if |xs| == 1 {
    } else {
      var init := xs[..|xs| - 1];
      var j := JoinWith(init, sep);
      assert JoinWith(xs, sep) == j + sep + xs[|xs| - 1];
      JoinWithLength(init, sep);
      if i < |xs| - 1 {
        JoinWithVerbatim(init, sep, i);
        JoinOffsetPrefix(xs, sep, |xs| - 1, i);
        assert init[i] == xs[i];
      } else {
        JoinOffsetPrefix(xs, sep, |xs| - 1, i - 1);
        assert JoinOffset(xs, sep, i) == |j| + |sep|;
      }
    }
  }

  lemma {:induction false} JoinWithLength(xs: seq<string>, sep: string)
    requires |xs| >= 1
    ensures |JoinWith(xs, sep)| == JoinOffset(xs, sep, |xs| - 1) + |xs[|xs| - 1]|
  {
    if |xs| > 1 {
      var init := xs[..|xs| - 1];
      JoinWithLength(init, sep);
      JoinOffsetPrefix(xs, sep, |xs| - 1, |xs| - 2);
    }
  }

  predicate IsDigit(c: char)
  {
    '0' <= c <= '9'
  }

  function DigitChar(d: nat): (c: char)
    requires d < 10
    ensures IsDigit(c)
  {
    ['0', '1', '2', '3', '4', '5', '6', '7', '8', '9'][d]
  }

  function DigitValue(c: char): nat
    requires IsDigit(c)
  {
    (c as int - '0' as int) as nat
  }

  /** Decimal rendering of a non-negative integer, as Python's `str(n)`. */
  function NatToString(n: nat): (s: string)
    ensures |s| >= 1
    ensures forall i :: 0 <= i < |s| ==> IsDigit(s[i])
  {
    if n < 10 then [DigitChar(n)] else NatToString(n / 10) + [DigitChar(n % 10)]
  }

  /** Reading a string of decimal digits back as a number. */
  function ParseDigits(s: string): nat
    requires forall i :: 0 <= i < |s| ==> IsDigit(s[i])
  {
    if s == [] then 0 else 10 * ParseDigits(s[..|s| - 1]) + DigitValue(s[|s| - 1])
  }

  lemma {:induction false} NatToStringRoundTrip(n: nat)
    ensures ParseDigits(NatToString(n)) == n
    ensures NatToString(n)[0] == '0' ==> n == 0
  {
    var s := NatToString(n);
    if n < 10 {
      assert s[..|s| - 1] == [];
    } else {
      NatToStringRoundTrip(n / 10);
      assert s[..|s| - 1] == NatToString(n / 10);
      assert s[0] == NatToString(n / 10)[0];
    }
  }

  lemma JoinLinesSnoc(ls: seq<string>, l: string)
    ensures JoinLines(ls + [l]) == JoinLines(ls) + l + "\n"
  {
    JoinLinesAppend(ls, [l]);
    assert JoinLines([l]) == l + "\n" + JoinLines([]);
  }

  lemma SeqAssoc<T>(a: seq<T>, b: seq<T>, c: seq<T>)
    ensures a + b + c == a + (b + c)
  {
  }

  /** `SplitJoinLines` line by line. */
  lemma SplitJoinIndex(ls: seq<string>)
    requires AllNoNewline(ls)
    ensures |SplitLines(JoinLines(ls))| == |ls| + 1
    ensures forall j :: 0 <= j < |ls| ==> SplitLines(JoinLines(ls))[j] == ls[j]
    ensures SplitLines(JoinLines(ls))[|ls|] == ""
  {
    SplitJoinLines(ls);
  }

  /** `out` is `prior` followed by what `mk` makes of each element of
      `sel`, in order; nothing of `sel` fails. */
  predicate SelectionBy<C, R(==), E(==)>(mk: C -> Result<R, E>, out: seq<R>, prior: seq<R>, sel: seq<C>)
  {
    && |out| == |prior| + |sel|
    && out[..|prior|] == prior
    && forall k :: 0 <= k < |sel| ==> mk(sel[k]) == Ok(out[|prior| + k])
  }

  lemma SelectionByCons<C, R, E>(mk: C -> Result<R, E>, prior: seq<R>, f: R, out: seq<R>, c: C, tail: seq<C>)
    requires mk(c) == Ok(f)
    requires SelectionBy(mk, out, prior + [f], tail)
    ensures SelectionBy(mk, out, prior, [c] + tail)
  {
    assert out[..|prior| + 1][..|prior|] == out[..|prior|];
    assert out[..|prior| + 1][|prior|] == f;
    forall k | 0 <= k < |[c] + tail| ensures mk(([c] + tail)[k]) == Ok(out[|prior| + k]) {
      if k > 0 {
        assert ([c] + tail)[k] == tail[k - 1];
        assert |prior| + k == |prior + [f]| + (k - 1);
      }
    }
  }

  /** What a sequence holds, a sequence that starts with it holds too. */
  lemma InPrefix<T>(e: T, a: seq<T>, b: seq<T>)
    requires |a| <= |b| && b[..|a|] == a && e in a
    ensures e in b
  {
    var i :| 0 <= i < |a| && a[i] == e;
    assert b[..|a|][i] == e;
  }

  lemma NoNewlineConcat(a: string, b: string)
    requires NoNewline(a) && NoNewline(b)
    ensures NoNewline(a + b)
  {
  }

  lemma AllNoNewlineAppend(a: seq<string>, b: seq<string>)
    requires AllNoNewline(a) && AllNoNewline(b)
    ensures AllNoNewline(a + b)
  {
    forall i | 0 <= i < |a + b| ensures NoNewline((a + b)[i]) {
      if i < |a| { assert (a + b)[i] == a[i]; } else { assert (a + b)[i] == b[i - |a|]; }
    }
  }
}
