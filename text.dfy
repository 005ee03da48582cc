/**
 * Lines of a text as the editor tab reports them, and Ruby's whitespace
 * stripping. A line is the text between two newlines; it never includes
 * its terminating newline.
 */
module Text {

  /** Offsets of every newline character of `s`, in increasing order (see NewlinesFacts). */
  function Newlines(s: string): seq<nat>
    decreases |s|
  {
    if s == [] then []
    else Newlines(s[..|s| - 1]) + (if s[|s| - 1] == '\n' then [|s| - 1] else [])
  }

  /** Newlines lists exactly the offsets of the newline characters, in increasing order. */
  lemma {:induction false} NewlinesFacts(s: string)
    ensures forall i :: 0 <= i < |Newlines(s)| ==> Newlines(s)[i] < |s| && s[Newlines(s)[i]] == '\n'
    ensures forall i, j :: 0 <= i < j < |Newlines(s)| ==> Newlines(s)[i] < Newlines(s)[j]
    ensures forall k :: 0 <= k < |s| && s[k] == '\n' ==> k in Newlines(s)
    decreases |s|
  {
    if s != [] {
      var init := s[..|s| - 1];
      NewlinesFacts(init);
      var before := Newlines(init);
      var nl := Newlines(s);
      assert nl == before + (if s[|s| - 1] == '\n' then [|s| - 1] else []);
      forall i | 0 <= i < |nl|
        ensures nl[i] < |s| && s[nl[i]] == '\n'
      {
        if i < |before| {
          assert nl[i] == before[i] < |init|;
          assert s[nl[i]] == init[nl[i]];
        }
      }
      forall i, j | 0 <= i < j < |nl|
        ensures nl[i] < nl[j]
      {
        if j == |before| {
          assert nl[i] == before[i] < |init| == nl[j];
        }
      }
      forall k | 0 <= k < |s| && s[k] == '\n'
        ensures k in nl
      {
        if k < |init| {
          assert init[k] == s[k];
          assert k in before;
        } else {
          assert nl[|before|] == k;
        }
      }
    }
  }

  /** Every offset of `r` moved right by `d`. */
  function Shifted(r: seq<nat>, d: nat): (q: seq<nat>)
    ensures |q| == |r|
    ensures forall i :: 0 <= i < |r| ==> q[i] == r[i] + d
  {
    seq(|r|, i requires 0 <= i < |r| => r[i] + d)
  }

  /** The newlines of a concatenation are those of each part, the second part's moved along. */
  lemma {:induction false} NewlinesConcat(a: string, b: string)
    ensures Newlines(a + b) == Newlines(a) + Shifted(Newlines(b), |a|)
    decreases |b|
  {
    if b == [] {
      assert a + b == a;
      assert Shifted([], |a|) == [];
    } else {
      var init := b[..|b| - 1];
      var last := b[|b| - 1];
      assert (a + b)[..|a + b| - 1] == a + init;
      assert (a + b)[|a + b| - 1] == last;
      NewlinesConcat(a, init);
      var tail: seq<nat> := if last == '\n' then [|b| - 1] else [];
      assert Newlines(b) == Newlines(init) + tail;
      assert Shifted(Newlines(b), |a|) == Shifted(Newlines(init), |a|) + Shifted(tail, |a|);
    }
  }

  /** Number of lines: one more than the number of newlines. */
  function LineCount(s: string): nat {
    |Newlines(s)| + 1
  }

  /** Offset of the first character of line `n` (counting from 0). */
  function LineStart(s: string, n: nat): (r: nat)
    requires n <= |Newlines(s)|
    ensures r <= |s|
  {
    NewlinesFacts(s);
    if n == 0 then 0 else Newlines(s)[n - 1] + 1
  }

  /** Offset just past the last character of line `n`: its newline, or the end of the text. */
  function LineEnd(s: string, n: nat): (r: nat)
    requires n <= |Newlines(s)|
    ensures LineStart(s, n) <= r <= |s|
    ensures n < |Newlines(s)| ==> r < |s| && s[r] == '\n'
  {
    NewlinesFacts(s);
    if n < |Newlines(s)| then Newlines(s)[n] else |s|
  }

  /** The characters of line `n`, without its newline. */
  function LineText(s: string, n: nat): string
    requires n <= |Newlines(s)|
  {
    s[LineStart(s, n)..LineEnd(s, n)]
  }

  /** A line never contains a newline. */
  lemma LineTextHasNoNewline(s: string, n: nat)
    requires n <= |Newlines(s)|
    ensures '\n' !in LineText(s, n)
  {
    NewlinesFacts(s);
    var lo, hi := LineStart(s, n), LineEnd(s, n);
    GapHasNoNewline(s, Newlines(s), n, lo, hi);
    var line := LineText(s, n);
    forall i | 0 <= i < |line|
      ensures line[i] != '\n'
    {
      assert line[i] == s[lo + i];
    }
  }

  /** Between two consecutive entries of an increasing list holding every newline offset there is no newline. */
  lemma GapHasNoNewline(s: string, nl: seq<nat>, n: nat, lo: nat, hi: nat)
    requires n <= |nl|
    requires forall i, j :: 0 <= i < j < |nl| ==> nl[i] < nl[j]
    requires forall k :: 0 <= k < |s| && s[k] == '\n' ==> k in nl
    requires lo == if n == 0 then 0 else nl[n - 1] + 1
    requires hi == if n < |nl| then nl[n] else |s|
    ensures forall k :: lo <= k < hi && k < |s| ==> s[k] != '\n'
  {
    forall j | 0 <= j < |nl|
      ensures nl[j] < lo || hi <= nl[j]
    {
      if j < n {
        assert nl[j] <= nl[n - 1] < lo;
      } else {
        assert hi == nl[n] <= nl[j];
      }
    }
  }

  /** The line holding offset `k`: the number of newlines before it. */
  function LineOf(s: string, k: nat): (r: nat)
    requires k <= |s|
    ensures r <= |Newlines(s)|
    ensures LineStart(s, r) <= k <= LineEnd(s, r)
  {
    assert s[..k] + s[k..] == s;
    NewlinesConcat(s[..k], s[k..]);
    NewlinesFacts(s[..k]);
    |Newlines(s[..k])|
  }

  /** Appending text keeps every line of `a` that already ends with a newline. */
  lemma KeptLine(a: string, b: string, n: nat)
    requires n < |Newlines(a)|
    ensures n < |Newlines(a + b)|
    ensures LineStart(a + b, n) == LineStart(a, n)
    ensures LineEnd(a + b, n) == LineEnd(a, n)
    ensures LineText(a + b, n) == LineText(a, n)
  {
    NewlinesConcat(a, b);
    assert (a + b)[LineStart(a, n)..LineEnd(a, n)] == a[LineStart(a, n)..LineEnd(a, n)];
  }

  /** Appending text leaves the start of the last line of `a` where it was. */
  lemma KeptOpenLineStart(a: string, b: string)
    ensures |Newlines(a)| <= |Newlines(a + b)|
    ensures LineStart(a + b, |Newlines(a)|) == LineStart(a, |Newlines(a)|)
  {
    NewlinesConcat(a, b);
  }

  /** The text up to and including the newline ending line `n` holds exactly that line's newline and those before it. */
  lemma NewlinesThroughLine(s: string, n: nat)
    requires n < |Newlines(s)|
    ensures LineStart(s, n + 1) <= |s|
    ensures Newlines(s[..LineStart(s, n + 1)]) == Newlines(s)[..n + 1]
  {
    NewlinesFacts(s);
    var nl := Newlines(s);
    var p := nl[n] + 1;
    assert s[..p] + s[p..] == s;
    NewlinesConcat(s[..p], s[p..]);
    NewlinesFacts(s[..p]);
    var pre := Newlines(s[..p]);
    var post := Shifted(Newlines(s[p..]), p);
    assert nl == pre + post;
    SplitAt(nl, pre, post, p, n);
  }

  /** Splitting an increasing sequence at a value: the part below it ends where that value was reached. */
  lemma SplitAt(nl: seq<nat>, pre: seq<nat>, post: seq<nat>, p: nat, n: nat)
    requires nl == pre + post
    requires forall i :: 0 <= i < |pre| ==> pre[i] < p
    requires forall i :: 0 <= i < |post| ==> post[i] >= p
    requires n < |nl| && nl[n] + 1 == p
    requires forall i, j :: 0 <= i < j < |nl| ==> nl[i] < nl[j]
    ensures pre == nl[..n + 1]
  {
    assert forall i :: |pre| <= i < |nl| ==> nl[i] == post[i - |pre|] >= p;
    assert forall i :: 0 <= i < |pre| ==> nl[i] == pre[i] < p;
    assert n < |pre|;
    assert n + 1 < |nl| ==> nl[n + 1] >= p;
    assert |pre| <= n + 1;
  }

  /** Whitespace for Ruby's `String#lstrip`. */
  predicate IsSpace(c: char) {
    c == ' ' || c == '\t' || c == '\n' || c == '\U{B}' || c == '\U{C}' || c == '\r'
  }

  /** Whitespace and the null character, both removed by Ruby's `String#rstrip`. */
  predicate IsSpaceOrNull(c: char) {
    IsSpace(c) || c == '\0'
  }

  /** `s` without its leading whitespace. */
  function LStrip(s: string): (r: string)
    ensures |r| <= |s| && r == s[|s| - |r|..]
    ensures r == [] || !IsSpace(r[0])
    ensures forall i :: 0 <= i < |s| - |r| ==> IsSpace(s[i])
  {
    if s != [] && IsSpace(s[0]) then LStrip(s[1..]) else s
  }

  /** `s` without its trailing whitespace and null characters. */
  function RStrip(s: string): (r: string)
    ensures |r| <= |s| && r == s[..|r|]
    ensures r == [] || !IsSpaceOrNull(r[|r| - 1])
    ensures forall i :: |r| <= i < |s| ==> IsSpaceOrNull(s[i])
  {
    if s != [] && IsSpaceOrNull(s[|s| - 1]) then RStrip(s[..|s| - 1]) else s
  }

  /** Ruby's `s.rstrip.lstrip`: neither end of the result is whitespace. */
  function Strip(s: string): (r: string)
    ensures r == [] || (!IsSpace(r[0]) && !IsSpaceOrNull(r[|r| - 1]))
  {
    var t := RStrip(s);
    var r := LStrip(t);
    assert r != [] ==> r[|r| - 1] == t[|t| - 1];
    r
  }

  /**
   * What Strip keeps is one piece of `s`: everything before it is
   * whitespace, and everything after it whitespace or null characters.
   */
  lemma {:induction false} StripKeepsPiece(s: string)
    ensures |Strip(s)| <= |RStrip(s)| <= |s|
    ensures Strip(s) == s[|RStrip(s)| - |Strip(s)|..|RStrip(s)|]
    ensures forall i :: 0 <= i < |RStrip(s)| - |Strip(s)| ==> IsSpace(s[i])
    ensures forall i :: |RStrip(s)| <= i < |s| ==> IsSpaceOrNull(s[i])
  {
    var t := RStrip(s);
    var r := LStrip(t);
    assert r == Strip(s);
    forall i | 0 <= i < |t| - |r|
      ensures IsSpace(s[i])
    {
      assert t[i] == s[i];
    }
    assert t == s[..|t|] && r == t[|t| - |r|..];
    assert s[..|t|][|t| - |r|..] == s[|t| - |r|..|t|];
  }
}
