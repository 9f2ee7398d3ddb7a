/** The Python 2 byte-string operations the utterance code is built on:
    `s.split()`, `s.strip()`, `sep.join(parts)` and `s.split(sep)`. */
module Text {
  import opened Outcomes

  /** The whitespace of Python 2's `str.split()` and `str.strip()`: space,
      tab, newline, carriage return, vertical tab and form feed. */
  predicate IsSpace(c: char)
  {
    c == ' ' || c == '\t' || c == '\n' || c == '\r' || c == '\U{000B}' || c == '\U{000C}'
  }

  predicate AllSpace(s: string)
  {
    forall i :: 0 <= i < |s| ==> IsSpace(s[i])
  }

  predicate NoSpace(s: string)
  {
    forall i :: 0 <= i < |s| ==> !IsSpace(s[i])
  }

  /** What `split()` can yield: non-empty tokens without whitespace. */
  predicate Words(ts: seq<string>)
  {
    forall i :: 0 <= i < |ts| ==> |ts[i]| > 0 && NoSpace(ts[i])
  }

  /** The length of the leading whitespace of `s`. */
  function LeadingSpace(s: string): (n: nat)
    ensures n <= |s|
    ensures forall i :: 0 <= i < n ==> IsSpace(s[i])
    ensures n < |s| ==> !IsSpace(s[n])
  {
    if |s| == 0 || !IsSpace(s[0]) then 0
    else
      1 + LeadingSpace(s[1..])
  }

  /** The length of the trailing whitespace of `s`. */
  function TrailingSpace(s: string): (n: nat)
    ensures n <= |s|
    ensures forall i :: |s| - n <= i < |s| ==> IsSpace(s[i])
    ensures n < |s| ==> !IsSpace(s[|s| - n - 1])
  {
    if |s| == 0 || !IsSpace(s[|s| - 1]) then 0
    else
      1 + TrailingSpace(s[..|s| - 1])
  }

  /** The length of the leading run of non-whitespace characters of `s`. */
  function TokenLength(s: string): (n: nat)
    ensures n <= |s| && NoSpace(s[..n])
    ensures n < |s| ==> IsSpace(s[n])
  {
    if |s| == 0 || IsSpace(s[0]) then 0
    else
      var n := 1 + TokenLength(s[1..]);
      assert forall i :: 1 <= i < n ==> s[..n][i] == s[1..][..n - 1][i - 1];
      n
  }

  /** `s.split()`: the maximal runs of non-whitespace characters of `s`, in
      order. */
  function Split(s: string): (ts: seq<string>)
    ensures Words(ts)
    decreases |s|
  {
    var t := s[LeadingSpace(s)..];
    if |t| == 0 then []
    else
      var n := TokenLength(t);
      [t[..n]] + Split(t[n..])
  }

  /** `s.strip()`: `s` from its first to its last non-whitespace character,
      or empty when there is none. */
  function Strip(s: string): (r: string)
    ensures |r| <= |s|
    ensures |r| == 0 <==> AllSpace(s)
  {
    var lead := LeadingSpace(s);
    var trail := TrailingSpace(s);
    if lead == |s| then ""
    else
      s[lead..|s| - trail]
  }

  /** `sep.join(parts)`: empty for no parts, and otherwise starting with the
      first part. */
  function Join(sep: string, parts: seq<string>): (r: string)
    ensures |parts| == 0 ==> r == ""
    ensures |parts| > 0 ==> |parts[0]| <= |r| && r[..|parts[0]|] == parts[0]
  {
    if |parts| == 0 then ""
    else if |parts| == 1 then parts[0]
    else parts[0] + sep + Join(sep, parts[1..])
  }

  /** `w` occurs in `s` starting at index `i`: a substring of a string, or
      a phrase of a list of tokens. */
  predicate OccursAt<T(==)>(s: seq<T>, w: seq<T>, i: int)
  {
    0 <= i && i + |w| <= |s| && s[i..i + |w|] == w
  }

  /** The first occurrence of `sep` in `s` at or after `from`. */
  function FindFrom(s: string, sep: string, from: nat): (r: Option<nat>)
    ensures r.Some? ==> from <= r.value && OccursAt(s, sep, r.value)
    ensures r.Some? ==> forall j :: from <= j < r.value ==> !OccursAt(s, sep, j)
    ensures r.None? ==> forall j :: from <= j ==> !OccursAt(s, sep, j)
    decreases |s| - from
  {
    if from + |sep| > |s| then None
    else if s[from..from + |sep|] == sep then Some(from)
    else FindFrom(s, sep, from + 1)
  }

  /** `s.split(sep)` for a non-empty separator: the pieces between the
      occurrences of `sep`, scanning left to right. */
  function SplitOn(s: string, sep: string): (parts: seq<string>)
    requires |sep| > 0
    ensures |parts| > 0
    decreases |s|
  {
    match FindFrom(s, sep, 0)
    case None => [s]
    case Some(i) => [s[..i]] + SplitOn(s[i + |sep|..], sep)
  }

  // ---------------------------------------------------------------------
  // Properties
  // ---------------------------------------------------------------------

  /** A token followed by whitespace or by nothing is read whole. */
  lemma {:induction false} TokenLengthOfWord(w: string, rest: string)
    requires NoSpace(w)
    requires |rest| == 0 || IsSpace(rest[0])
    ensures TokenLength(w + rest) == |w|
  {
    if |w| > 0 {
      assert (w + rest)[1..] == w[1..] + rest;
      TokenLengthOfWord(w[1..], rest);
    } else {
      assert w + rest == rest;
    }
  }

  /** Whitespace in front of a string does not change its split. */
  lemma {:induction false} SplitAfterSpace(sp: string, s: string)
    requires AllSpace(sp)
    ensures Split(sp + s) == Split(s)
  {
    if |sp| > 0 {
      assert (sp + s)[1..] == sp[1..] + s;
      assert LeadingSpace(sp + s) == 1 + LeadingSpace(sp[1..] + s);
      SplitAfterSpace(sp[1..], s);
      assert (sp + s)[LeadingSpace(sp + s)..] == (sp[1..] + s)[LeadingSpace(sp[1..] + s)..];
    } else {
      assert sp + s == s;
    }
  }

  /** Splitting a string that starts with a whole token yields that token
      first. */
  lemma {:induction false} SplitWord(w: string, rest: string)
    requires |w| > 0 && NoSpace(w)
    requires |rest| == 0 || IsSpace(rest[0])
    ensures Split(w + rest) == [w] + Split(rest)
  {
    var s := w + rest;
    assert !IsSpace(s[0]);
    assert LeadingSpace(s) == 0;
    assert s[0..] == s;
    TokenLengthOfWord(w, rest);
    assert s[..|w|] == w;
    assert s[|w|..] == rest;
  }

  /** One more token in front of a joined line is split off first. */
  lemma {:induction false} SplitJoinCons(w: string, ws: seq<string>)
    requires |w| > 0 && NoSpace(w) && |ws| > 0
    ensures Split(Join(" ", [w] + ws)) == [w] + Split(Join(" ", ws))
  {
    var rest := " " + Join(" ", ws);
    assert ([w] + ws)[1..] == ws;
    assert Join(" ", [w] + ws) == w + " " + Join(" ", ws);
    assert w + " " + Join(" ", ws) == w + rest;
    SplitWord(w, rest);
    SplitAfterSpace(" ", Join(" ", ws));
  }

  lemma HeadTail(ts: seq<string>)
    requires |ts| > 0
    ensures [ts[0]] + ts[1..] == ts
  {
  }

  /** `s.split()` undoes `' '.join(ts)` for tokens that `split()` can
      yield. */
  lemma {:induction false} SplitJoin(ts: seq<string>)
    requires Words(ts)
    ensures Split(Join(" ", ts)) == ts
  {
    if |ts| == 0 {
      assert Join(" ", ts) == "";
    } else if |ts| == 1 {
      SplitWord(ts[0], "");
      assert ts[0] + "" == ts[0];
    } else {
      SplitJoin(ts[1..]);
      SplitJoinCons(ts[0], ts[1..]);
      HeadTail(ts);
    }
  }

  /** `' '.join(s.split())` splits back to the same tokens: the text form of
      an utterance parses to the utterance. */
  lemma {:induction false} SplitJoinSplit(s: string)
    ensures Split(Join(" ", Split(s))) == Split(s)
  {
    SplitJoin(Split(s));
  }

  /** `strip()` takes off exactly the leading and trailing whitespace and
      leaves a string that neither starts nor ends with whitespace. */
  lemma {:induction false} StripSpec(s: string)
    ensures var r := Strip(s);
      var lead := LeadingSpace(s);
      && lead + |r| <= |s|
      && r == s[lead..lead + |r|]
      && (forall i :: 0 <= i < lead ==> IsSpace(s[i]))
      && (forall i :: lead + |r| <= i < |s| ==> IsSpace(s[i]))
      && (|r| > 0 ==> !IsSpace(r[0]) && !IsSpace(r[|r| - 1]))
  {
    var lead := LeadingSpace(s);
    var trail := TrailingSpace(s);
    var r := Strip(s);
    if lead < |s| {
      var e := |s| - trail;
      assert r == s[lead..e];
      assert r[0] == s[lead];
      assert r[|r| - 1] == s[e - 1];
    }
  }

  /** Joining the pieces of `s.split(sep)` with `sep` gives back `s`. */
  lemma {:induction false} JoinSplitOn(s: string, sep: string)
    requires |sep| > 0
    ensures Join(sep, SplitOn(s, sep)) == s
    decreases |s|
  {
    match FindFrom(s, sep, 0)
    case None =>
    case Some(i) =>
      var tail := s[i + |sep|..];
      JoinSplitOn(tail, sep);
      assert s == s[..i] + sep + tail;
  }

  /** No piece of `s.split(sep)` contains `sep`. */
  lemma {:induction false} SplitOnPieces(s: string, sep: string)
    requires |sep| > 0
    ensures forall k :: 0 <= k < |SplitOn(s, sep)| ==> FindFrom(SplitOn(s, sep)[k], sep, 0).None?
    decreases |s|
  {
    var parts := SplitOn(s, sep);
    match FindFrom(s, sep, 0)
    case None =>
    case Some(i) =>
      var tail := s[i + |sep|..];
      SplitOnPieces(tail, sep);
      var head := s[..i];
      forall j | 0 <= j
        ensures !OccursAt(head, sep, j)
      {
        if OccursAt(head, sep, j) {
          assert s[j..j + |sep|] == head[j..j + |sep|];
          assert OccursAt(s, sep, j);
        }
      }
      assert parts == [head] + SplitOn(tail, sep);
  }

  /** The leading whitespace of `s` is exactly `n` characters long when the
      first `n` characters are whitespace and the next one is not. */
  lemma LeadingSpaceIs(s: string, n: nat)
    requires n <= |s|
    requires forall i :: 0 <= i < n ==> IsSpace(s[i])
    requires n < |s| ==> !IsSpace(s[n])
    ensures LeadingSpace(s) == n
  {
  }

  /** The trailing whitespace of `s` is exactly `n` characters long when the
      last `n` characters are whitespace and the one before is not. */
  lemma TrailingSpaceIs(s: string, n: nat)
    requires n <= |s|
    requires forall i :: |s| - n <= i < |s| ==> IsSpace(s[i])
    requires n < |s| ==> !IsSpace(s[|s| - n - 1])
    ensures TrailingSpace(s) == n
  {
  }

  /** Whitespace after a string does not change its split. */
  lemma {:induction false} SplitBeforeSpace(s: string, sp: string)
    requires AllSpace(sp)
    ensures Split(s + sp) == Split(s)
    decreases |s|
  {
    var lead := LeadingSpace(s);
    if lead == |s| {
      assert AllSpace(s + sp);
      SplitAfterSpace(s + sp, "");
      SplitAfterSpace(s, "");
      assert s + sp + "" == s + sp;
      assert s + "" == s;
    } else {
      var t := s[lead..];
      var n := TokenLength(t);
      var w := t[..n];
      var rest := t[n..];
      assert n > 0 by {
        assert !IsSpace(t[0]);
      }
      assert s == s[..lead] + (w + rest);
      assert s + sp == s[..lead] + (w + (rest + sp));
      SplitAfterSpace(s[..lead], w + rest);
      SplitAfterSpace(s[..lead], w + (rest + sp));
      SplitWord(w, rest);
      SplitWord(w, rest + sp);
      SplitBeforeSpace(rest, sp);
    }
  }

  /** `s.strip().split()` is `s.split()`. */
  lemma SplitStrip(s: string)
    ensures Split(Strip(s)) == Split(s)
  {
    StripSpec(s);
    var r := Strip(s);
    var lead := LeadingSpace(s);
    var e := lead + |r|;
    assert s == s[..lead] + (r + s[e..]);
    assert AllSpace(s[e..]);
    SplitAfterSpace(s[..lead], r + s[e..]);
    SplitBeforeSpace(r, s[e..]);
  }

  /** `strip()` of whitespace, then `r`, then whitespace is `r`, when `r`
      neither starts nor ends with whitespace. */
  lemma StripIs(s: string, p: string, r: string, q: string)
    requires s == p + r + q && AllSpace(p) && AllSpace(q)
    requires |r| > 0 ==> !IsSpace(r[0]) && !IsSpace(r[|r| - 1])
    ensures Strip(s) == r
  {
    if |r| == 0 {
      forall i | 0 <= i < |s|
        ensures IsSpace(s[i])
      {
        if i < |p| {
          assert s[i] == p[i];
        } else {
          assert s[i] == q[i - |p|];
        }
      }
    } else {
      forall i | 0 <= i < |p|
        ensures IsSpace(s[i])
      {
        assert s[i] == p[i];
      }
      assert s[|p|] == r[0];
      LeadingSpaceIs(s, |p|);
      forall i | |s| - |q| <= i < |s|
        ensures IsSpace(s[i])
      {
        assert s[i] == q[i - |p| - |r|];
      }
      assert s[|s| - |q| - 1] == r[|r| - 1];
      TrailingSpaceIs(s, |q|);
      assert s[|p|..|s| - |q|] == r;
    }
  }

  /** Cutting a string at `i` and `j`. */
  lemma SlicePieces(s: string, i: nat, j: nat)
    requires i <= j <= |s|
    ensures s[i..] == "" + s[i..j] + s[j..]
    ensures i == 0 ==> s == s[..j] + s[j..]
  {
  }

  /** `s` is whitespace, then `s.strip()`, then whitespace. */
  lemma StripParts(s: string) returns (p: string, q: string)
    ensures s == p + Strip(s) + q && AllSpace(p) && AllSpace(q)
    ensures |Strip(s)| > 0 ==> !IsSpace(Strip(s)[0]) && !IsSpace(Strip(s)[|Strip(s)| - 1])
  {
    StripSpec(s);
    var l := LeadingSpace(s);
    var r := Strip(s);
    p := s[..l];
    q := s[l + |r|..];
    assert s == p + r + q;
  }

  lemma Regroup(a: string, b: string, c: string, d: string)
    ensures a + (b + c + d) == (a + b) + c + d
  {
  }

  /** Whitespace in front of a string does not change its `strip()`. */
  lemma StripAfterSpace(sp: string, s: string)
    requires AllSpace(sp)
    ensures Strip(sp + s) == Strip(s)
  {
    var p, q := StripParts(s);
    var r := Strip(s);
    Regroup(sp, p, r, q);
    assert AllSpace(sp + p);
    StripIs(sp + s, sp + p, r, q);
  }

  /** Dropping leading whitespace does not change `strip()`. */
  lemma StripDropSpace(s: string, a: nat)
    requires a <= |s| && AllSpace(s[..a])
    ensures Strip(s[a..]) == Strip(s)
  {
    SlicePieces(s, 0, a);
    StripAfterSpace(s[..a], s[a..]);
  }

  /** Dropping the trailing whitespace of `s` and stripping the rest does
      not change `s.split()`. */
  lemma SplitDropTrailingSpace(s: string)
    ensures Split(Strip(s[..|s| - TrailingSpace(s)])) == Split(s)
  {
    var t := s[..|s| - TrailingSpace(s)];
    SplitStrip(t);
    SlicePieces(s, 0, |t|);
    assert AllSpace(s[|t|..]);
    SplitBeforeSpace(t, s[|t|..]);
  }

  /** A slice of a string that holds no `sep` holds none either. */
  lemma NoneInSlice(s: string, sep: string, i: nat, j: nat)
    requires i <= j <= |s|
    requires FindFrom(s, sep, 0).None?
    ensures FindFrom(s[i..j], sep, 0).None?
    ensures j == |s| ==> FindFrom(s[i..], sep, 0).None?
    ensures i == 0 ==> FindFrom(s[..j], sep, 0).None?
  {
    var t := s[i..j];
    assert j == |s| ==> s[i..] == t;
    assert i == 0 ==> s[..j] == t;
    forall p | OccursAt(t, sep, p)
      ensures OccursAt(s, sep, i + p)
    {
      assert forall q :: p <= q < p + |sep| ==> t[q] == s[i + q];
      assert t[p..p + |sep|] == s[i + p..i + p + |sep|];
    }
  }
}
