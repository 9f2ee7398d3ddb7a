/** Recognised utterances: an utterance is the list of whitespace-separated
    tokens of a line of text; it can be searched for a phrase, have a phrase
    replaced, and be compared with other utterances. Utterances are read from
    `key => utterance` lines and collected, with probabilities, in N-best
    lists. */
module Utterances {
  import opened Outcomes
  import opened Text
  import opened Lex

  type Tokens = seq<string>

  // ---------------------------------------------------------------------
  // Searching for a phrase
  // ---------------------------------------------------------------------

  /** `list.index(t)`: the first position of `t` in `u`, or `None` where
      Python raises `ValueError`. */
  function FirstIndex(u: Tokens, t: string): (r: Option<nat>)
    ensures r.Some? ==> r.value < |u| && u[r.value] == t
    ensures r.Some? ==> forall j :: 0 <= j < r.value ==> u[j] != t
    ensures r.None? ==> t !in u
  {
    if |u| == 0 then None
    else if u[0] == t then Some(0)
    else match FirstIndex(u[1..], t)
      case None => None
      case Some(i) => Some(i + 1)
  }

  /** `Utterance.index(s)`: the position of the first token of `s` in `u`,
      provided the rest of `s` follows it there. An empty `s` raises
      `IndexError`; a first token that is missing, or that is not followed
      by the rest of `s`, raises `ValueError` (later occurrences of the
      first token are not tried). */
  function IndexOf(u: Tokens, s: Tokens): (r: Outcome<nat>)
    ensures r.Ok? ==> |s| > 0 && r.value + |s| <= |u| && u[r.value] == s[0]
    ensures r.Raised? ==> r.error == (if |s| == 0 then IndexError else ValueError)
  {
    if |s| == 0 then Raised(IndexError)
    else match FirstIndex(u, s[0])
      case None => Raised(ValueError)
      case Some(i) => if OccursAt(u, s, i) then Ok(i) else Raised(ValueError)
  }

  /** Each token of a phrase found at `i` sits at its offset from `i`. */
  lemma {:induction false} OccursAtToken(u: Tokens, s: Tokens, i: nat, j: nat)
    requires j < |s|
    ensures OccursAt(u, s, i) ==> i + j < |u| && u[i + j] == s[j]
  {
    if OccursAt(u, s, i) {
      assert u[i..i + |s|][j] == u[i + j];
    }
  }

  /** `s in utterance`: `ValueError` from `index` becomes `False`;
      `IndexError` is not caught. */
  function ContainsOf(u: Tokens, s: Tokens): (r: Outcome<bool>)
    ensures r.Raised? <==> |s| == 0
    ensures r.Raised? ==> r.error == IndexError
    ensures r.Ok? ==> (r.value <==> IndexOf(u, s).Ok?)
  {
    match IndexOf(u, s)
    case Ok(_) => Ok(true)
    case Raised(ValueError) => Ok(false)
    case Raised(e) => Raised(e)
  }

  /** `Utterance.replace(s, r)`: the phrase found by `index` is spliced out
      and `rep` put in its place; otherwise the tokens stay as they are. */
  function Replaced(u: Tokens, s: Tokens, rep: Tokens): (r: Tokens)
    ensures IndexOf(u, s).Ok? ==> |r| == |u| - |s| + |rep|
    ensures IndexOf(u, s).Raised? ==> r == u
  {
    match IndexOf(u, s)
    case Ok(i) => u[..i] + rep + u[i + |s|..]
    case Raised(_) => u
  }

  /** What `index` returns is an occurrence of `s` with no earlier
      occurrence of its first token. */
  lemma {:induction false} IndexOfSound(u: Tokens, s: Tokens, i: nat)
    requires IndexOf(u, s) == Ok(i)
    ensures OccursAt(u, s, i)
    ensures s[0] !in u[..i]
  {
    var f := FirstIndex(u, s[0]);
    assert f == Some(i);
    forall j | 0 <= j < i
      ensures u[..i][j] != s[0]
    {
      assert u[..i][j] == u[j];
    }
  }

  /** An occurrence of `s` before which its first token does not appear is
      the one `index` finds. */
  lemma {:induction false} IndexOfComplete(u: Tokens, s: Tokens, i: nat)
    requires |s| > 0 && OccursAt(u, s, i)
    requires s[0] !in u[..i]
    ensures IndexOf(u, s) == Ok(i)
  {
    assert u[i] == u[i..i + |s|][0];
    assert forall j :: 0 <= j < i ==> u[j] == u[..i][j];
  }

  /** The exceptions `index` raises: `IndexError` exactly for an empty
      phrase, `ValueError` otherwise. */
  lemma {:induction false} IndexOfErrors(u: Tokens, s: Tokens)
    ensures IndexOf(u, s) == Raised(IndexError) <==> |s| == 0
    ensures IndexOf(u, s).Raised? && |s| > 0 ==> IndexOf(u, s).error == ValueError
  {
  }

  /** `index` looks only at the first occurrence of the phrase's first
      token: in `a b a c` the phrase `a c` is not found. */
  lemma IndexOfMissesLaterOccurrence()
    ensures OccursAt(["a", "b", "a", "c"], ["a", "c"], 2)
    ensures IndexOf(["a", "b", "a", "c"], ["a", "c"]) == Raised(ValueError)
  {
    var u: Tokens := ["a", "b", "a", "c"];
    assert FirstIndex(u, "a") == Some(0);
    assert u[0..2] == ["a", "b"];
    assert u[2..4] == ["a", "c"];
  }

  /** `s in u` holds exactly when `index` succeeds, is false when it raises
      `ValueError`, and raises only for an empty phrase. */
  lemma {:induction false} ContainsOfSpec(u: Tokens, s: Tokens)
    ensures ContainsOf(u, s) == Ok(true) <==> IndexOf(u, s).Ok?
    ensures ContainsOf(u, s) == Ok(true) ==> exists i :: OccursAt(u, s, i)
    ensures ContainsOf(u, s).Raised? <==> |s| == 0
  {
    if IndexOf(u, s).Ok? {
      IndexOfSound(u, s, IndexOf(u, s).value);
    }
  }

  /** `replace` puts `rep` in place of the phrase `index` found and keeps
      the tokens before and after it. */
  lemma {:induction false} ReplacedSplices(u: Tokens, s: Tokens, rep: Tokens, i: nat)
    requires IndexOf(u, s) == Ok(i)
    ensures var v := Replaced(u, s, rep);
      && |v| == |u| - |s| + |rep|
      && v[..i] == u[..i]
      && OccursAt(v, rep, i)
      && v[i + |rep|..] == u[i + |s|..]
  {
    IndexOfSound(u, s, i);
    var v := Replaced(u, s, rep);
    assert v == u[..i] + rep + u[i + |s|..];
    assert v[..i] == u[..i];
    assert v[i..i + |rep|] == rep;
    assert v[i + |rep|..] == u[i + |s|..];
  }

  /** The tokens change only when the phrase is contained. */
  lemma {:induction false} ReplacedOnlyWhenContained(u: Tokens, s: Tokens, rep: Tokens)
    ensures Replaced(u, s, rep) != u ==> ContainsOf(u, s) == Ok(true)
  {
  }

  /** Replacing a phrase by itself leaves the tokens as they are. */
  lemma {:induction false} ReplacedBySelf(u: Tokens, s: Tokens)
    ensures Replaced(u, s, s) == u
  {
    match IndexOf(u, s)
    case Raised(_) =>
    case Ok(i) =>
      IndexOfSound(u, s, i);
      assert u == u[..i] + u[i..i + |s|] + u[i + |s|..];
  }

  // ---------------------------------------------------------------------
  // Comparing utterances
  // ---------------------------------------------------------------------

  /** `u op v` for token lists: Python 2 list comparison over strings. */
  predicate TokensCompare(op: Op, u: Tokens, v: Tokens)
  {
    Compare(op, StrLess, u, v)
  }

  /** The orderings of utterances: `<` is a strict total order, and `<=`,
      `>` and `>=` are `<` or `==`, converse `<`, and converse `<=`. */
  lemma {:induction false} TokensOrder(u: Tokens, v: Tokens, w: Tokens)
    ensures TokensCompare(Lt, u, v) || u == v || TokensCompare(Lt, v, u)
    ensures !(TokensCompare(Lt, u, v) && TokensCompare(Lt, v, u))
    ensures !TokensCompare(Lt, u, u)
    ensures TokensCompare(Lt, u, v) && TokensCompare(Lt, v, w) ==> TokensCompare(Lt, u, w)
    ensures TokensCompare(Le, u, v) <==> TokensCompare(Lt, u, v) || u == v
    ensures TokensCompare(Gt, u, v) <==> TokensCompare(Lt, v, u)
    ensures TokensCompare(Ge, u, v) <==> TokensCompare(Lt, v, u) || u == v
  {
    StrLessStrictTotal();
    LtTotal(StrLess, u, v);
    LtAsymmetric(StrLess, u, v);
    LtIrreflexive(StrLess, u);
    if TokensCompare(Lt, u, v) && TokensCompare(Lt, v, w) {
      LtTransitive(StrLess, u, v, w);
    }
    LeIsLtOrEq(StrLess, u, v);
    LeIsLtOrEq(StrLess, v, u);
    GtIsConverse(StrLess, u, v);
    GeIsConverse(StrLess, u, v);
  }

  // ---------------------------------------------------------------------
  // The utterance object
  // ---------------------------------------------------------------------

  class Utterance {
    /** The tokens of the utterance, in order. */
    var tokens: Tokens

    /** `Utterance(text)`: the tokens of `text`. */
    constructor (text: string)
      ensures tokens == Split(text)
      ensures Words(tokens)
    {
      tokens := Split(text);
    }

    /** `str(utterance)`: the tokens joined by single spaces, which split back
        into the tokens whenever they are tokens `split()` can yield. */
    function ToString(): (r: string)
      reads this
      ensures Words(tokens) ==> Split(r) == tokens
    {
      SplitJoinTokens(tokens);
      Join(" ", tokens)
    }

    /** `utterance.index(s)`, by the scan the source performs. */
    method Index(s: Tokens) returns (r: Outcome<nat>)
      ensures r == IndexOf(tokens, s)
    {
      if |s| == 0 {
        return Raised(IndexError);
      }
      var found := FirstIndex(tokens, s[0]);
      if found.None? {
        return Raised(ValueError);
      }
      var i := found.value;
      var j := 1;
      while j < |s|
        invariant 1 <= j <= |s|
        invariant i + j <= |tokens| && tokens[i..i + j] == s[..j]
      {
        if i + j >= |tokens| || tokens[i + j] != s[j] {
          OccursAtToken(tokens, s, i, j);
          return Raised(ValueError);
        }
        assert tokens[i..i + j + 1] == tokens[i..i + j] + [s[j]];
        assert s[..j + 1] == s[..j] + [s[j]];
        j := j + 1;
      }
      assert s[..j] == s;
      return Ok(i);
    }

    /** `s in utterance`: raises only for an empty phrase, and is true only
        when the phrase occurs in the tokens. */
    function Contains(s: Tokens): (r: Outcome<bool>)
      reads this
      ensures r.Raised? <==> |s| == 0
      ensures r == Ok(true) ==> exists i :: OccursAt(tokens, s, i)
    {
      ContainsOfSpec(tokens, s);
      ContainsOf(tokens, s)
    }

    /** `utterance.replace(s, rep)`: only `IndexError` from `index` escapes. */
    method Replace(s: Tokens, rep: Tokens) returns (r: Outcome<()>)
      modifies this
      ensures r.Raised? <==> |s| == 0
      ensures tokens == Replaced(old(tokens), s, rep)
    {
      var found := Index(s);
      match found
      case Raised(IndexError) =>
        return Raised(IndexError);
      case Raised(_) =>
        return Ok(());
      case Ok(i) =>
        tokens := tokens[..i] + rep + tokens[i + |s|..];
        return Ok(());
    }

    /** `u < other`: list comparison of the tokens, so never between equal
        token lists. */
    predicate Less(other: Utterance)
      reads this, other
      ensures Less(other) ==> tokens != other.tokens
    {
      TokensOrder(tokens, other.tokens, other.tokens);
      TokensCompare(Lt, tokens, other.tokens)
    }

    /** `u <= other`: `<` or equal tokens. */
    predicate LessOrEqual(other: Utterance)
      reads this, other
      ensures LessOrEqual(other) <==> Less(other) || Equal(other)
    {
      TokensOrder(tokens, other.tokens, other.tokens);
      TokensCompare(Le, tokens, other.tokens)
    }

    /** `u == other`: equal tokens, which is neither order holding. */
    predicate Equal(other: Utterance)
      reads this, other
      ensures Equal(other) <==> !Less(other) && !other.Less(this)
    {
      TokensOrder(tokens, other.tokens, other.tokens);
      tokens == other.tokens
    }

    /** `u != other`: one of the two orders holds. */
    predicate NotEqual(other: Utterance)
      reads this, other
      ensures NotEqual(other) <==> Less(other) || other.Less(this)
    {
      TokensOrder(tokens, other.tokens, other.tokens);
      tokens != other.tokens
    }

    /** `u > other`: the converse of `<`. */
    predicate Greater(other: Utterance)
      reads this, other
      ensures Greater(other) <==> other.Less(this)
    {
      TokensOrder(tokens, other.tokens, other.tokens);
      TokensCompare(Gt, tokens, other.tokens)
    }

    /** `u >= other`: the converse of `<=`. */
    predicate GreaterOrEqual(other: Utterance)
      reads this, other
      ensures GreaterOrEqual(other) <==> other.Less(this) || Equal(other)
    {
      TokensOrder(tokens, other.tokens, other.tokens);
      TokensCompare(Ge, tokens, other.tokens)
    }
  }

  /** The six comparison operators of utterances: `<` is a strict total
      order on their tokens, and `<=`, `>`, `>=`, `==`, `!=` agree with it. */
  lemma {:induction false} UtteranceOrder(a: Utterance, b: Utterance, c: Utterance)
    ensures a.Less(b) || a.Equal(b) || b.Less(a)
    ensures !(a.Less(b) && b.Less(a)) && !a.Less(a)
    ensures a.Less(b) && b.Less(c) ==> a.Less(c)
    ensures a.LessOrEqual(b) <==> a.Less(b) || a.Equal(b)
    ensures a.Greater(b) <==> b.Less(a)
    ensures a.GreaterOrEqual(b) <==> b.LessOrEqual(a)
    ensures a.NotEqual(b) <==> !a.Equal(b)
  {
    TokensOrder(a.tokens, b.tokens, c.tokens);
    TokensOrder(b.tokens, a.tokens, a.tokens);
    TokensOrder(a.tokens, a.tokens, a.tokens);
  }

  /** Helper for `ToString`: joined tokens split back. */
  lemma {:induction false} SplitJoinTokens(ts: Tokens)
    ensures Words(ts) ==> Split(Join(" ", ts)) == ts
  {
    if Words(ts) {
      SplitJoin(ts);
    }
  }

  // ---------------------------------------------------------------------
  // Loading utterances from `key => utterance` lines
  // ---------------------------------------------------------------------

  /** The lines `load_utterances` looks at: a `limit` of `None` or `0` reads
      every line, any other limit stops before line number `limit + 1`. */
  function Considered(lines: seq<string>, limit: Option<int>): (ls: seq<string>)
    ensures limit.None? || limit.value == 0 ==> ls == lines
    ensures limit.Some? && limit.value != 0 ==>
      |ls| == (if limit.value <= 0 then 0 else if limit.value < |lines| then limit.value else |lines|)
    ensures ls == lines[..|ls|]
  {
    if limit.None? || limit.value == 0 then lines
    else if limit.value <= 0 then []
    else if limit.value < |lines| then lines[..limit.value]
    else lines
  }

  /** One line of the file: blank lines are skipped; any other line must
      hold `=>`, with the key before it and the utterance after it. */
  function ParseLine(line: string): (r: Outcome<Option<(string, Tokens)>>)
    ensures r.Raised? <==> |Strip(line)| > 0 && FindFrom(Strip(line), "=>", 0).None?
    ensures r.Raised? ==> r.error == IndexError
    ensures r == Ok(None) <==> |Strip(line)| == 0
  {
    var l := Strip(line);
    if |l| == 0 then Ok(None)
    else
      var parts := SplitOn(l, "=>");
      if |parts| < 2 then Raised(IndexError)
      else Ok(Some((Strip(parts[0]), Split(Strip(parts[1])))))
  }

  /** In `k => v`, where `k` holds no `=>`, the first `=>` is the one after
      `k`. */
  lemma ArrowAt(k: string, v: string)
    requires FindFrom(k, "=>", 0).None?
    ensures FindFrom(k + "=>" + v, "=>", 0) == Some(|k|)
  {
    var l := k + "=>" + v;
    assert l[|k|..|k| + 2] == "=>";
    assert OccursAt(l, "=>", |k|);
    forall j | 0 <= j < |k|
      ensures !OccursAt(l, "=>", j)
    {
      if j + 2 <= |k| {
        assert !OccursAt(k, "=>", j);
        assert l[j..j + 2] == k[j..j + 2];
      } else {
        assert l[j..j + 2][1] == '=' != "=>"[1];
      }
    }
  }

  /** `k => v` splits on `=>` into `k` and `v` when neither holds `=>`. */
  lemma SplitOnArrow(k: string, v: string)
    requires FindFrom(k, "=>", 0).None? && FindFrom(v, "=>", 0).None?
    ensures SplitOn(k + "=>" + v, "=>") == [k, v]
  {
    var l := k + "=>" + v;
    ArrowAt(k, v);
    assert l[..|k|] == k;
    assert l[|k| + 2..] == v;
    assert SplitOn(v, "=>") == [v];
  }

  /** Stripping `k => v` strips the front of `k` and the back of `v`. */
  lemma StripArrow(k: string, v: string)
    ensures Strip(k + "=>" + v) == k[LeadingSpace(k)..] + "=>" + v[..|v| - TrailingSpace(v)]
  {
    StripArrowAt(k, v, LeadingSpace(k), TrailingSpace(v));
  }

  /** Stripping `k => v`, where `k` starts with `a` whitespace characters
      and `v` ends with `b` of them. */
  lemma StripArrowAt(k: string, v: string, a: nat, b: nat)
    requires a <= |k| && AllSpace(k[..a]) && (a < |k| ==> !IsSpace(k[a]))
    requires b <= |v| && AllSpace(v[|v| - b..]) && (b < |v| ==> !IsSpace(v[|v| - b - 1]))
    ensures Strip(k + "=>" + v) == k[a..] + "=>" + v[..|v| - b]
  {
    ArrowParts(k, v, a, b);
    StripIs(k + "=>" + v, k[..a], k[a..] + "=>" + v[..|v| - b], v[|v| - b..]);
  }

  /** `k => v` cut after `a` characters of `k` and before the last `b` of
      `v`: the middle piece starts and ends with a character of `k` and `v`
      or of the arrow. */
  lemma ArrowParts(k: string, v: string, a: nat, b: nat)
    requires a <= |k| && b <= |v|
    ensures var l := k[a..] + "=>" + v[..|v| - b];
      && k + "=>" + v == k[..a] + l + v[|v| - b..]
      && l[0] == (if a < |k| then k[a] else '=')
      && l[|l| - 1] == (if b < |v| then v[|v| - b - 1] else '>')
  {
    var l := k[a..] + "=>" + v[..|v| - b];
    assert k + "=>" + v == k[..a] + l + v[|v| - b..];
  }

  /** A line `k => v` in which `=>` occurs only once yields the key
      `k.strip()` and the words of `v`. */
  lemma ParseLineOf(k: string, v: string)
    requires FindFrom(k, "=>", 0).None? && FindFrom(v, "=>", 0).None?
    ensures ParseLine(k + "=>" + v) == Ok(Some((Strip(k), Split(v))))
  {
    var k1 := k[LeadingSpace(k)..];
    var v1 := v[..|v| - TrailingSpace(v)];
    StripArrow(k, v);
    NoneInSlice(k, "=>", LeadingSpace(k), |k|);
    NoneInSlice(v, "=>", 0, |v| - TrailingSpace(v));
    SplitOnArrow(k1, v1);
    StripDropSpace(k, LeadingSpace(k));
    SplitDropTrailingSpace(v);
  }

  /** Reading `lines` into the dictionary `m`, line by line; a later line
      with the same key overwrites an earlier one. */
  function LoadFrom(m: map<string, Tokens>, lines: seq<string>): (r: Outcome<map<string, Tokens>>)
    ensures r.Raised? ==> r.error == IndexError
    ensures r.Ok? ==> m.Keys <= r.value.Keys
    decreases |lines|
  {
    if |lines| == 0 then Ok(m)
    else match ParseLine(lines[0])
      case Raised(e) => Raised(e)
      case Ok(None) => LoadFrom(m, lines[1..])
      case Ok(Some(kv)) => LoadFrom(m[kv.0 := kv.1], lines[1..])
  }

  /** `load_utterances`, on the lines of the file. */
  method LoadUtterances(lines: seq<string>, limit: Option<int>) returns (r: Outcome<map<string, Tokens>>)
    ensures r == LoadFrom(map[], Considered(lines, limit))
  {
    ghost var considered := Considered(lines, limit);
    var utterances: map<string, Tokens> := map[];
    var c := 0;
    while c < |lines|
      invariant c <= |considered|
      invariant LoadFrom(utterances, considered[c..]) == LoadFrom(map[], considered)
    {
      if limit.Some? && limit.value != 0 && c + 1 > limit.value {
        break;
      }
      assert considered[c] == lines[c];
      LoadFromStep(utterances, considered, c);
      var l := Strip(lines[c]);
      if |l| > 0 {
        var parts := SplitOn(l, "=>");
        if |parts| < 2 {
          return Raised(IndexError);
        }
        var key := Strip(parts[0]);
        var utt := Strip(parts[1]);
        utterances := utterances[key := Split(utt)];
      }
      c := c + 1;
    }
    assert considered[c..] == [];
    return Ok(utterances);
  }

  /** One step of `LoadFrom`: the line at `c`, then the rest. */
  lemma {:induction false} LoadFromStep(m: map<string, Tokens>, ls: seq<string>, c: nat)
    requires c < |ls|
    ensures ParseLine(ls[c]).Raised? ==> LoadFrom(m, ls[c..]) == Raised(ParseLine(ls[c]).error)
    ensures ParseLine(ls[c]) == Ok(None) ==> LoadFrom(m, ls[c..]) == LoadFrom(m, ls[c + 1..])
    ensures ParseLine(ls[c]).Ok? && ParseLine(ls[c]).value.Some? ==>
      var kv := ParseLine(ls[c]).value.value;
      LoadFrom(m, ls[c..]) == LoadFrom(m[kv.0 := kv.1], ls[c + 1..])
  {
    assert ls[c..][0] == ls[c];
    assert ls[c..][1..] == ls[c + 1..];
  }

  /** The key of the last line of `lines` that names `k`, and its tokens. */
  function LastValue(lines: seq<string>, k: string): Option<Tokens>
    decreases |lines|
  {
    if |lines| == 0 then None
    else match LastValue(lines[1..], k)
      case Some(v) => Some(v)
      case None =>
        match ParseLine(lines[0])
        case Ok(Some(kv)) => if kv.0 == k then Some(kv.1) else None
        case _ => None
  }

  /** Loading fails exactly when some line is neither blank nor holds `=>`,
      and the exception is `IndexError`. */
  lemma {:induction false} LoadFromFails(m: map<string, Tokens>, lines: seq<string>)
    ensures LoadFrom(m, lines).Raised? <==> exists j :: 0 <= j < |lines| && ParseLine(lines[j]).Raised?
    ensures LoadFrom(m, lines).Raised? ==> LoadFrom(m, lines).error == IndexError
    decreases |lines|
  {
    if |lines| > 0 {
      var p := ParseLine(lines[0]);
      if p.Ok? {
        var m' := if p.value.Some? then m[p.value.value.0 := p.value.value.1] else m;
        LoadFromFails(m', lines[1..]);
        if exists j :: 0 <= j < |lines| && ParseLine(lines[j]).Raised? {
          var j :| 0 <= j < |lines| && ParseLine(lines[j]).Raised?;
          assert lines[1..][j - 1] == lines[j];
        }
        if exists j :: 0 <= j < |lines[1..]| && ParseLine(lines[1..][j]).Raised? {
          var j :| 0 <= j < |lines[1..]| && ParseLine(lines[1..][j]).Raised?;
          assert lines[j + 1] == lines[1..][j];
        }
      }
    }
  }

  /** After a successful load the key `k` holds the utterance of the last
      line with that key; a key no line names keeps its earlier value. */
  lemma {:induction false} LoadFromLastWins(m: map<string, Tokens>, lines: seq<string>, r: map<string, Tokens>, k: string)
    requires LoadFrom(m, lines) == Ok(r)
    ensures k in r <==> k in m || LastValue(lines, k).Some?
    ensures LastValue(lines, k).Some? ==> k in r && r[k] == LastValue(lines, k).value
    ensures k in m && LastValue(lines, k).None? ==> k in r && r[k] == m[k]
    decreases |lines|
  {
    if |lines| > 0 {
      match ParseLine(lines[0])
      case Ok(None) =>
        LoadFromLastWins(m, lines[1..], r, k);
      case Ok(Some(kv)) =>
        LoadFromLastWins(m[kv.0 := kv.1], lines[1..], r, k);
    }
  }

  // ---------------------------------------------------------------------
  // N-best lists
  // ---------------------------------------------------------------------

  /** An entry `[probability, utterance]` of an N-best list. */
  datatype Hyp = Hyp(prob: real, tokens: Tokens)

  /** `[p, u] < [q, v]` as Python 2 compares two-element lists: the first
      unequal element decides. */
  predicate HypLess(a: Hyp, b: Hyp)
    ensures a.prob < b.prob ==> HypLess(a, b)
    ensures HypLess(a, b) ==> a.prob <= b.prob
  {
    if a.prob != b.prob then a.prob < b.prob
    else if a.tokens != b.tokens then TokensCompare(Lt, a.tokens, b.tokens)
    else false
  }

  /** What `sort(reverse=True)` promises: no entry is less than one after it. */
  predicate SortedDesc(hs: seq<Hyp>)
    ensures SortedDesc(hs) ==> forall i, j :: 0 <= i < j < |hs| ==> hs[i].prob >= hs[j].prob
  {
    forall i, j :: 0 <= i < j < |hs| ==> !HypLess(hs[i], hs[j])
  }

  /** `HypLess` is a strict total order. */
  lemma {:induction false} HypLessOrder(a: Hyp, b: Hyp, c: Hyp)
    ensures !HypLess(a, a)
    ensures HypLess(a, b) || a == b || HypLess(b, a)
    ensures !(HypLess(a, b) && HypLess(b, a))
    ensures HypLess(a, b) && HypLess(b, c) ==> HypLess(a, c)
  {
    TokensOrder(a.tokens, b.tokens, c.tokens);
    TokensOrder(a.tokens, a.tokens, a.tokens);
  }

  /** Inserting `h` in front of the first entry less than it. */
  function Insert(hs: seq<Hyp>, h: Hyp): (r: seq<Hyp>)
    ensures multiset(r) == multiset(hs) + multiset{h}
    ensures SortedDesc(hs) ==> SortedDesc(r)
  {
    if |hs| == 0 then [h]
    else if HypLess(hs[0], h) then
      InsertFront(hs, h);
      [h] + hs
    else
      var rest := Insert(hs[1..], h);
      assert hs == [hs[0]] + hs[1..];
      InsertBehind(hs, h, rest);
      [hs[0]] + rest
  }

  lemma {:induction false} InsertFront(hs: seq<Hyp>, h: Hyp)
    requires |hs| > 0 && HypLess(hs[0], h)
    ensures SortedDesc(hs) ==> SortedDesc([h] + hs)
  {
    if SortedDesc(hs) {
      var r := [h] + hs;
      forall i, j | 0 <= i < j < |r|
        ensures !HypLess(r[i], r[j])
      {
        if i == 0 {
          HypLessOrder(hs[0], h, r[j]);
          if j > 1 {
            HypLessOrder(hs[0], r[j], r[j]);
          }
        }
      }
    }
  }

  lemma {:induction false} InsertBehind(hs: seq<Hyp>, h: Hyp, rest: seq<Hyp>)
    requires |hs| > 0 && !HypLess(hs[0], h)
    requires multiset(rest) == multiset(hs[1..]) + multiset{h}
    requires SortedDesc(hs[1..]) ==> SortedDesc(rest)
    ensures SortedDesc(hs) ==> SortedDesc([hs[0]] + rest)
  {
    if SortedDesc(hs) {
      assert SortedDesc(hs[1..]) by {
        forall i, j | 0 <= i < j < |hs[1..]|
          ensures !HypLess(hs[1..][i], hs[1..][j])
        {
          assert hs[1..][i] == hs[i + 1] && hs[1..][j] == hs[j + 1];
        }
      }
      var r := [hs[0]] + rest;
      forall i, j | 0 <= i < j < |r|
        ensures !HypLess(r[i], r[j])
      {
        if i == 0 {
          var x := rest[j - 1];
          assert x in multiset(rest);
          if x != h {
            assert x in multiset(hs[1..]);
            var k :| 0 <= k < |hs[1..]| && hs[1..][k] == x;
            assert hs[k + 1] == x;
          }
        }
      }
    }
  }

  /** `n_best.sort(reverse=True)`: the entries reordered so that none is
      less than one after it. */
  function SortDesc(hs: seq<Hyp>): (r: seq<Hyp>)
    ensures multiset(r) == multiset(hs)
    ensures SortedDesc(r)
  {
    if |hs| == 0 then []
    else
      assert hs == [hs[0]] + hs[1..];
      Insert(SortDesc(hs[1..]), hs[0])
  }

  /** The tail of a descending list is descending. */
  lemma {:induction false} SortedDescTail(a: seq<Hyp>)
    requires |a| > 0 && SortedDesc(a)
    ensures SortedDesc(a[1..])
  {
    forall p, q | 0 <= p < q < |a[1..]|
      ensures !HypLess(a[1..][p], a[1..][q])
    {
      assert a[1..][p] == a[p + 1] && a[1..][q] == a[q + 1];
    }
  }

  /** The head of a descending list is not less than any of its entries. */
  lemma {:induction false} SortedDescHead(a: seq<Hyp>, x: Hyp)
    requires SortedDesc(a) && x in multiset(a)
    ensures !HypLess(a[0], x)
  {
    var j :| 0 <= j < |a| && a[j] == x;
    if j == 0 {
      HypLessOrder(x, x, x);
    }
  }

  /** Two descending arrangements of the same entries start alike. */
  lemma {:induction false} SortedDescSameHead(a: seq<Hyp>, b: seq<Hyp>)
    requires |a| > 0 && |b| > 0 && SortedDesc(a) && SortedDesc(b)
    requires multiset(a) == multiset(b)
    ensures a[0] == b[0]
  {
    assert a[0] in multiset(b) && b[0] in multiset(a);
    SortedDescHead(a, b[0]);
    SortedDescHead(b, a[0]);
    HypLessOrder(a[0], b[0], b[0]);
  }

  /** Equal multisets with equal heads have equal tails. */
  lemma {:induction false} MultisetTails(a: seq<Hyp>, b: seq<Hyp>)
    requires |a| > 0 && |b| > 0 && a[0] == b[0]
    requires multiset(a) == multiset(b)
    ensures multiset(a[1..]) == multiset(b[1..])
  {
    assert a == [a[0]] + a[1..] && b == [b[0]] + b[1..];
    assert multiset(a[1..]) == multiset(a) - multiset{a[0]};
    assert multiset(b[1..]) == multiset(b) - multiset{b[0]};
  }

  /** A descending arrangement of a list of entries is unique, so every
      correct sort gives the same list. */
  lemma {:induction false} SortedDescUnique(a: seq<Hyp>, b: seq<Hyp>)
    requires SortedDesc(a) && SortedDesc(b)
    requires multiset(a) == multiset(b)
    ensures a == b
    decreases |a|
  {
    assert |a| == |multiset(a)| == |multiset(b)| == |b|;
    if |a| > 0 {
      SortedDescSameHead(a, b);
      MultisetTails(a, b);
      SortedDescTail(a);
      SortedDescTail(b);
      SortedDescUnique(a[1..], b[1..]);
      assert a == [a[0]] + a[1..] && b == [b[0]] + b[1..];
    }
  }

  /** An N-best list of recognised utterances with their probabilities. */
  class NBList {
    var entries: seq<Hyp>

    constructor ()
      ensures entries == []
    {
      entries := [];
    }

    /** `add(probability, utterance)`: appends the entry. */
    method Add(probability: real, utterance: Utterance)
      modifies this
      ensures entries == old(entries) + [Hyp(probability, utterance.tokens)]
    {
      entries := entries + [Hyp(probability, utterance.tokens)];
    }

    /** `merge()`: a list of at most one entry is left as it is; on a longer
        list the first assignment into the new, empty list raises
        `IndexError` before anything changes. */
    method Merge() returns (r: Outcome<()>)
      ensures r.Raised? <==> |entries| > 1
      ensures r.Raised? ==> r.error == IndexError
    {
      if |entries| <= 1 {
        return Ok(());
      }
      // new_n_best[0] = ... on the empty list new_n_best
      return Raised(IndexError);
    }

    /** `normalise()`: its loop bound reads `n_best`, an undefined global,
        so it raises `NameError` whatever the entries. */
    method Normalise() returns (r: Outcome<()>)
      ensures r == Raised(NameError)
    {
      return Raised(NameError);
    }

    /** `parse_utterance_confusion_network(...)`: empties the list, merges it
        (nothing to do on an empty list) and then calls `normalize`, a method
        the class does not have, which raises `AttributeError`; the network
        itself is never read. */
    method ParseConfusionNetwork() returns (r: Outcome<()>)
      modifies this
      ensures entries == []
      ensures r == Raised(AttributeError)
    {
      entries := [];
      var merged := Merge();
      assert merged.Ok?;
      return Raised(AttributeError);
    }

    /** `sort()`: the entries in descending order. */
    method Sort()
      modifies this
      ensures multiset(entries) == multiset(old(entries))
      ensures SortedDesc(entries)
      ensures entries == SortDesc(old(entries))
    {
      entries := SortDesc(entries);
    }
  }
}
