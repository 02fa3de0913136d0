/**
 The wildcard matcher of os/common_fun.c. A C string is the sequence of its characters without the
 terminating NUL; a pointer into a string is an index, and one at the end reads NUL.
 */
module Glob {
  import opened Base

  const BANCHOR: char := '\U{DE}'  // 0x80 | '^'
  const EANCHOR: char := '\U{A4}'  // 0x80 | '$'
  const MAXLN := 256

  // ---------------------------------------------------------------------------
  // What a pattern means.

  /** '*' stands for any string, '?' for any one character, every other character for itself. */
  ghost predicate Matches(pat: string, s: string) {
    if pat == [] then s == []
    else if pat[0] == '*' then exists k :: 0 <= k <= |s| && Matches(pat[1..], s[k..])
    else s != [] && (pat[0] == '?' || pat[0] == s[0]) && Matches(pat[1..], s[1..])
  }

  predicate IsLiteral(c: char) {
    c != '*' && c != '?'
  }

  predicate OccursAt(p: string, q: string, i: nat) {
    i + |q| <= |p| && p[i..i + |q|] == q
  }

  /** i is the leftmost place where q occurs in p, except that an empty q is found at the end. */
  ghost predicate Leftmost(p: string, q: string, r: Option<nat>) {
    if q == [] then r == Some(|p|)
    else match r
      case Some(i) => OccursAt(p, q, i) && forall j: nat | j < i :: !OccursAt(p, q, j)
      case None => forall j: nat :: !OccursAt(p, q, j)
  }

  // ---------------------------------------------------------------------------
  // strposn, os/common_fun.c:345-370.

  method StrPosn(p: string, q: string) returns (r: Option<nat>)
    ensures Leftmost(p, q, r)
    ensures r == Find(p, q, 0)
  {
    if q == [] {
      LeftmostFind(p, q);
      return Some(|p|);
    }
    var i := 0;
    while i < |p|
      invariant i <= |p|
      invariant Find(p, q, 0) == Find(p, q, i)
    {
      if p[i] == q[0] {
        var k := 0;
        while i + k < |p|
          invariant i + k <= |p| && k <= |q| && forall x | 0 <= x < k :: p[i + x] == q[x]
        {
          if k == |q| || p[i + k] != q[k] {
            break;
          }
          k := k + 1;
        }
        if k == |q| {
          LeftmostFind(p, q);
          return Some(i);
        }
      }
      i := i + 1;
    }
    LeftmostFind(p, q);
    return None;
  }

  /** Where strposn finds q, searching from index i. */
  function Find(p: string, q: string, i: nat): (r: Option<nat>)
    requires i <= |p|
    ensures r.Some? ==> r.value + |q| <= |p|
    decreases |p| - i
  {
    if q == [] then Some(|p|)
    else if OccursAt(p, q, i) then Some(i)
    else if i == |p| then None
    else Find(p, q, i + 1)
  }

  lemma LeftmostFind(p: string, q: string)
    ensures Leftmost(p, q, Find(p, q, 0))
  {
    LeftmostFrom(p, q, 0);
  }

  lemma {:induction false} LeftmostFrom(p: string, q: string, i: nat)
    requires i <= |p| && forall j: nat | j < i :: !OccursAt(p, q, j)
    ensures Leftmost(p, q, Find(p, q, i))
    decreases |p| - i
  {
    if q != [] && !OccursAt(p, q, i) && i < |p| {
      LeftmostFrom(p, q, i + 1);
    }
  }

  // ---------------------------------------------------------------------------
  // strpat, os/common_fun.c:377-426.

  /** The length of the literal run at the start of pat. */
  function LiteralRun(pat: string): (n: nat)
    ensures n <= |pat| && (forall i | 0 <= i < n :: IsLiteral(pat[i]))
    ensures n < |pat| ==> !IsLiteral(pat[n])
  {
    if pat == [] || !IsLiteral(pat[0]) then 0 else 1 + LiteralRun(pat[1..])
  }

  /** The matching loop, lines 401-425, on what is left of the subject and the pattern. */
  predicate Greedy(p: string, pat: string)
    decreases |pat|
  {
    if p == [] || pat == [] then p == [] && (pat == [] || pat == "*")
    else if pat[0] == '*' then
      var n := LiteralRun(pat[1..]);
      match Find(p, pat[1..][..n], 0)
      case None => false
      case Some(i) => Greedy(p[i + n..], pat[1..][n..])
    else (pat[0] == '?' || pat[0] == p[0]) && Greedy(p[1..], pat[1..])
  }

  /** Lines 386-397: a string copied between anchors. */
  method Anchored(s: string) returns (buf: string)
    ensures buf == [BANCHOR] + s + [EANCHOR]
  {
    buf := [BANCHOR];
    for i := 0 to |s|
      invariant buf == [BANCHOR] + s[..i]
    {
      buf := buf + [s[i]];
    }
    assert s[..|s|] == s;
    buf := buf + [EANCHOR];
  }

  /** What strpat answers for a subject and a pattern. */
  predicate Accepts(s: string, pat: string) {
    Greedy([BANCHOR] + s + [EANCHOR], [BANCHOR] + pat + [EANCHOR])
  }

  /** Line 405: the end of the literal run that starts at index pat. */
  method RunEnd(src: string, pat: nat) returns (t: nat)
    requires pat <= |src|
    ensures pat <= t <= |src| && t == pat + LiteralRun(src[pat..])
  {
    t := pat;
    while t < |src| && src[t] != '*' && src[t] != '?'
      invariant pat <= t <= |src|
      invariant LiteralRun(src[pat..]) == t - pat + LiteralRun(src[t..])
    {
      assert src[t..][1..] == src[t + 1..];
      t := t + 1;
    }
  }

  lemma GreedyAtStar(src1: string, p: nat, src2: string, pat: nat, t: nat)
    requires p < |src1| && pat < |src2| && src2[pat] == '*'
    requires t == pat + 1 + LiteralRun(src2[pat + 1..])
    ensures Greedy(src1[p..], src2[pat..]) ==
            match Find(src1[p..], src2[pat + 1..t], 0)
            case None => false
            case Some(i) => Greedy(src1[p + i + (t - pat - 1)..], src2[t..])
  {
    hide Find, LiteralRun;
    var rest := src2[pat + 1..];
    var n := t - pat - 1;
    assert src2[pat..][1..] == rest && rest[..n] == src2[pat + 1..t] && rest[n..] == src2[t..];
    var r := Find(src1[p..], src2[pat + 1..t], 0);
    if r.Some? {
      assert src1[p..][r.value + n..] == src1[p + r.value + n..];
    }
  }

  lemma GreedyAtCharacter(src1: string, p: nat, src2: string, pat: nat)
    requires p < |src1| && pat < |src2| && src2[pat] != '*'
    ensures Greedy(src1[p..], src2[pat..]) ==
            ((src2[pat] == '?' || src2[pat] == src1[p]) && Greedy(src1[p + 1..], src2[pat + 1..]))
  {
    assert src1[p..][1..] == src1[p + 1..] && src2[pat..][1..] == src2[pat + 1..];
  }

  lemma GreedyAtEnd(src1: string, p: nat, src2: string, pat: nat)
    requires p <= |src1| && pat <= |src2| && (p == |src1| || pat == |src2|)
    ensures Greedy(src1[p..], src2[pat..]) <==>
            p == |src1| && (pat == |src2| || (src2[pat] == '*' && pat + 1 == |src2|))
  {
    if pat < |src2| {
      assert src2[pat..] == [src2[pat]] + src2[pat + 1..];
    }
  }

  /** Lines 403-413: find the literal run that follows a star. */
  method StarBranch(src1: string, p: nat, src2: string, pat: nat) returns (found: bool, p': nat, pat': nat)
    requires p < |src1| && pat < |src2| && src2[pat] == '*'
    ensures p' <= |src1| && pat < pat' <= |src2|
    ensures Greedy(src1[p..], src2[pat..]) == (found && Greedy(src1[p'..], src2[pat'..]))
  {
    hide Greedy, Find, LiteralRun, Leftmost;
    pat' := RunEnd(src2, pat + 1);
    GreedyAtStar(src1, p, src2, pat, pat');
    var tmp := src2[pat + 1..pat'];
    var r := StrPosn(src1[p..], tmp);
    if r.None? {
      return false, p, pat';
    }
    return true, p + r.value + |tmp|, pat';
  }

  /** strpat; None is a null pointer. Both copies must fit their buffers with anchors and NUL. */
  method StrPat(s1: Option<string>, s2: Option<string>) returns (r: int)
    requires s1.Some? && s2.Some? ==> |s1.value| + 3 <= MAXLN && |s2.value| + 3 <= MAXLN
    ensures r == if s1.Some? && s2.Some? && Accepts(s1.value, s2.value) then 1 else 0
  {
    if s1.None? || s2.None? {
      return 0;
    }
    var src1 := Anchored(s1.value);
    var src2 := Anchored(s2.value);
    var p: nat, pat: nat := 0, 0;
    assert src1[0..] == src1 && src2[0..] == src2;
    hide Greedy, Find, LiteralRun, Leftmost;
    ghost var answer := Accepts(s1.value, s2.value);
    while p < |src1| && pat < |src2|
      invariant p <= |src1| && pat <= |src2|
      invariant answer == Greedy(src1[p..], src2[pat..])
      decreases |src2| - pat
    {
      if src2[pat] == '*' {
        var found;
        found, p, pat := StarBranch(src1, p, src2, pat);
        if !found {
          return 0;
        }
      } else if src2[pat] == '?' || src2[pat] == src1[p] {
        GreedyAtCharacter(src1, p, src2, pat);
        pat := pat + 1;
        p := p + 1;
      } else {
        GreedyAtCharacter(src1, p, src2, pat);
        return 0;
      }
    }
    GreedyAtEnd(src1, p, src2, pat);
    if p == |src1| && pat == |src2| {
      return 1;
    }
    if p == |src1| && src2[pat] == '*' && pat + 1 == |src2| {
      return 1;
    }
    return 0;
  }

  // ---------------------------------------------------------------------------
  // Which patterns strpat handles.

  /** How far it is to the first star. */
  function WordRun(pat: string): (n: nat)
    ensures n <= |pat| && IsWord(pat[..n]) && (n < |pat| ==> pat[n] == '*')
  {
    if pat == [] || pat[0] == '*' then 0 else 1 + WordRun(pat[1..])
  }

  /** A part of a pattern without stars. */
  predicate IsWord(w: string) {
    forall i | 0 <= i < |w| :: w[i] != '*'
  }

  /** The word matches at place i. */
  predicate WordAt(w: string, p: string, i: nat) {
    i + |w| <= |p| && forall k | 0 <= k < |w| :: w[k] == '?' || w[k] == p[i + k]
  }

  /**
   What may follow a star: a literal run to the end, or a non-empty literal run, question marks,
   and the next star.
   */
  predicate HandledAfterStar(pat: string)
    decreases |pat|
  {
    var w, rest := pat[..WordRun(pat)], pat[WordRun(pat)..];
    var n := LiteralRun(w);
    if rest == [] then n == |w|
    else n > 0 && !LiteralBehind(w) && HandledAfterStar(rest[1..])
  }

  /** A literal follows a question mark. */
  predicate LiteralBehind(w: string) {
    exists k | LiteralRun(w) <= k < |w| :: w[k] != '?'
  }

  /** Before the first star everything is handled. */
  predicate Handled(pat: string) {
    if pat == [] then true
    else if pat[0] == '*' then HandledAfterStar(pat[1..])
    else Handled(pat[1..])
  }

  /** A C string without the character that strpat itself appends. */
  predicate AnchorFree(s: string) {
    EANCHOR !in s && '\0' !in s
  }

  // ---------------------------------------------------------------------------
  // Properties of matching.

  lemma WordAtStep(w: string, p: string, i: nat)
    requires w != []
    ensures WordAt(w, p, i) <==> i < |p| && (w[0] == '?' || w[0] == p[i]) && WordAt(w[1..], p, i + 1)
  {
    if WordAt(w, p, i) {
      forall k | 0 <= k < |w| - 1
        ensures w[1..][k] == '?' || w[1..][k] == p[i + 1 + k]
      {
        assert w[k + 1] == '?' || w[k + 1] == p[i + (k + 1)];
      }
    }
    if i < |p| && (w[0] == '?' || w[0] == p[i]) && WordAt(w[1..], p, i + 1) {
      forall k | 0 <= k < |w|
        ensures w[k] == '?' || w[k] == p[i + k]
      {
        assert k > 0 ==> w[1..][k - 1] == w[k];
      }
    }
  }

  /** A word of the pattern takes as many characters as it has. */
  lemma {:induction false} MatchesWord(w: string, pat: string, p: string, i: nat)
    requires IsWord(w) && i <= |p|
    ensures Matches(w + pat, p[i..]) <==> WordAt(w, p, i) && Matches(pat, p[i + |w|..])
  {
    if w == [] {
      assert w + pat == pat;
    } else {
      hide WordAt;
      assert (w + pat)[1..] == w[1..] + pat;
      WordAtStep(w, p, i);
      if i < |p| {
        assert p[i..][1..] == p[i + 1..];
        MatchesWord(w[1..], pat, p, i + 1);
      }
    }
  }

  /** A star absorbs a longer prefix. */
  lemma StarAbsorbs(pat: string, s: string, k: nat)
    requires k <= |s| && Matches(['*'] + pat, s[k..])
    ensures Matches(['*'] + pat, s)
  {
    assert (['*'] + pat)[1..] == pat;
    var j :| 0 <= j <= |s[k..]| && Matches(pat, s[k..][j..]);
    assert s[k..][j..] == s[k + j..];
  }

  /** A final literal matches the final character. */
  lemma {:induction false} MatchesLast(pat: string, c: char, s: string)
    requires IsLiteral(c)
    ensures Matches(pat + [c], s + [c]) <==> Matches(pat, s)
    decreases |pat|, |s|
  {
    var pat', s' := pat + [c], s + [c];
    if pat == [] {
      assert pat' == [c] && pat'[1..] == [];
      assert s'[0] == c && s'[1..] == [] <==> s == [];
    } else if pat[0] == '*' {
      assert pat'[1..] == pat[1..] + [c];
      if Matches(pat, s) {
        var k :| 0 <= k <= |s| && Matches(pat[1..], s[k..]);
        MatchesLast(pat[1..], c, s[k..]);
        assert s'[k..] == s[k..] + [c];
      }
      if Matches(pat', s') {
        var k :| 0 <= k <= |s'| && Matches(pat'[1..], s'[k..]);
        if k <= |s| {
          assert s'[k..] == s[k..] + [c];
          MatchesLast(pat[1..], c, s[k..]);
        } else {
          MatchesNonEmpty(pat[1..], c);
        }
      }
    } else if s == [] {
      assert pat'[1..] == pat[1..] + [c] && s'[1..] == [];
      MatchesNonEmpty(pat[1..], c);
    } else {
      assert pat'[1..] == pat[1..] + [c] && s'[1..] == s[1..] + [c];
      MatchesLast(pat[1..], c, s[1..]);
    }
  }

  lemma {:induction false} MatchesNonEmpty(pat: string, c: char)
    requires IsLiteral(c)
    ensures !Matches(pat + [c], [])
  {
    if pat != [] && pat[0] == '*' {
      assert (pat + [c])[1..] == pat[1..] + [c];
      MatchesNonEmpty(pat[1..], c);
    }
  }

  // ---------------------------------------------------------------------------
  // Every pattern: strpat accepts no string that does not match.

  /** A literal run as a word. */
  lemma WordFound(p: string, lit: string, i: nat)
    requires lit == [] ==> i <= |p|
    requires lit != [] ==> OccursAt(p, lit, i)
    ensures WordAt(lit, p, i)
  {
    if lit != [] {
      forall k | 0 <= k < |lit|
        ensures lit[k] == p[i + k]
      {
        assert p[i..i + |lit|][k] == p[i + k];
      }
    }
  }

  /** If the literal run is found at i and the rest matches behind it, the star takes p[..i]. */
  lemma FoundMatches(p: string, rest: string, n: nat, i: nat)
    requires n == LiteralRun(rest) && Find(p, rest[..n], 0) == Some(i) && Matches(rest[n..], p[i + n..])
    ensures exists k :: 0 <= k <= |p| && Matches(rest, p[k..])
  {
    hide Find, LiteralRun, Matches;
    var lit, rest' := rest[..n], rest[n..];
    assert rest == lit + rest';
    LeftmostFind(p, lit);
    WordFound(p, lit, i);
    MatchesWord(lit, rest', p, i);
  }

  lemma {:induction false} GreedySound(p: string, pat: string)
    requires pat != [] && IsLiteral(pat[|pat| - 1]) && Greedy(p, pat)
    ensures Matches(pat, p)
    decreases |pat|
  {
    hide Find, LiteralRun;
    assert p != [];
    if pat[0] == '*' {
      var rest := pat[1..];
      var n := LiteralRun(rest);
      var i := Find(p, rest[..n], 0).value;
      if rest[n..] != [] {
        GreedySound(p[i + n..], rest[n..]);
      }
      FoundMatches(p, rest, n, i);
    } else if pat[1..] == [] {
    } else {
      GreedySound(p[1..], pat[1..]);
    }
  }

  /** What strpat accepts does match. */
  lemma AcceptedMatches(s: string, pat: string)
    requires Accepts(s, pat)
    ensures Matches(pat, s)
  {
    AcceptsUnfolds(s, pat);
    GreedySound(s + [EANCHOR], pat + [EANCHOR]);
    MatchesLast(pat, EANCHOR, s);
  }

  lemma AcceptsUnfolds(s: string, pat: string)
    ensures Accepts(s, pat) == Greedy(s + [EANCHOR], pat + [EANCHOR])
  {
    var p, pt := [BANCHOR] + s + [EANCHOR], [BANCHOR] + pat + [EANCHOR];
    assert p[1..] == s + [EANCHOR] && pt[1..] == pat + [EANCHOR];
  }

  // ---------------------------------------------------------------------------
  // Words of a pattern against the greedy matcher.

  /** A word is compared character by character. */
  lemma {:induction false} GreedyWord(w: string, pat: string, p: string, i: nat)
    requires IsWord(w) && i <= |p|
    ensures Greedy(p[i..], w + pat) <==> WordAt(w, p, i) && Greedy(p[i + |w|..], pat)
  {
    if w == [] {
      assert w + pat == pat;
    } else {
      hide WordAt;
      assert (w + pat)[0] == w[0] != '*';
      assert (w + pat)[1..] == w[1..] + pat;
      WordAtStep(w, p, i);
      if i < |p| {
        assert p[i..][1..] == p[i + 1..];
        GreedyWord(w[1..], pat, p, i + 1);
      }
    }
  }

  /** The literal run of a pattern that gets a final literal. */
  lemma {:induction false} LiteralRunAppend(pat: string, c: char)
    requires IsLiteral(c)
    ensures LiteralRun(pat + [c]) == if LiteralRun(pat) == |pat| then |pat| + 1 else LiteralRun(pat)
  {
    if pat == [] {
      assert (pat + [c])[1..] == [];
    } else if IsLiteral(pat[0]) {
      assert (pat + [c])[1..] == pat[1..] + [c];
      LiteralRunAppend(pat[1..], c);
    }
  }

  /** One round of the star branch. */
  lemma GreedyStar(p: string, lit: string, rest: string)
    requires (forall i | 0 <= i < |lit| :: IsLiteral(lit[i])) && (rest == [] || !IsLiteral(rest[0]))
    requires p != []
    ensures
      var r := Find(p, lit, 0);
      Greedy(p, ['*'] + (lit + rest)) == (r.Some? && Greedy(p[r.value + |lit|..], rest))
  {
    hide Find, LiteralRun;
    var full := ['*'] + (lit + rest);
    assert full[1..] == lit + rest;
    LiteralRunOf(lit, rest);
    assert (lit + rest)[..|lit|] == lit && (lit + rest)[|lit|..] == rest;
  }

  lemma {:induction false} LiteralRunOf(lit: string, pat: string)
    requires forall i | 0 <= i < |lit| :: IsLiteral(lit[i])
    requires pat == [] || !IsLiteral(pat[0])
    ensures LiteralRun(lit + pat) == |lit|
  {
    if lit == [] {
      assert lit + pat == pat;
    } else {
      assert (lit + pat)[1..] == lit[1..] + pat;
      LiteralRunOf(lit[1..], pat);
    }
  }

  lemma {:induction false} WordRunOf(w: string, pat: string)
    requires IsWord(w) && (pat == [] || pat[0] == '*')
    ensures WordRun(w + pat) == |w|
  {
    if w == [] {
      assert w + pat == pat;
    } else {
      assert (w + pat)[1..] == w[1..] + pat;
      WordRunOf(w[1..], pat);
    }
  }

  /** One round on a word up to the next star or the end of the pattern. */
  lemma GreedyChunk(p: string, w: string, rest: string)
    requires IsWord(w) && (rest == [] || rest[0] == '*') && p != []
    ensures
      var r := Find(p, w[..LiteralRun(w)], 0);
      Greedy(p, ['*'] + (w + rest)) <==> r.Some? && WordAt(w, p, r.value) && Greedy(p[r.value + |w|..], rest)
  {
    hide Greedy, Find, LiteralRun, WordAt;
    var n := LiteralRun(w);
    var lit, tail := w[..n], w[n..];
    assert w == lit + tail;
    assert w + rest == lit + (tail + rest);
    assert tail + rest == [] || (tail + rest)[0] == (if tail == [] then rest[0] else w[n]);
    GreedyStar(p, lit, tail + rest);
    var r := Find(p, lit, 0);
    if r.Some? {
      LeftmostFind(p, lit);
      WordFound(p, lit, r.value);
      WordSplit(w, n, p, r.value);
      GreedyWord(tail, rest, p, r.value + n);
    }
  }

  lemma WordSplit(w: string, n: nat, p: string, i: nat)
    requires n <= |w|
    ensures WordAt(w, p, i) <==> WordAt(w[..n], p, i) && WordAt(w[n..], p, i + n)
  {
    if WordAt(w[..n], p, i) && WordAt(w[n..], p, i + n) {
      forall k | 0 <= k < |w|
        ensures w[k] == '?' || w[k] == p[i + k]
      {
        assert k >= n ==> w[n..][k - n] == w[k];
        assert k < n ==> w[..n][k] == w[k];
      }
    }
    if WordAt(w, p, i) {
      forall k | 0 <= k < |w| - n
        ensures w[n..][k] == '?' || w[n..][k] == p[i + n + k]
      {
        assert w[n + k] == '?' || w[n + k] == p[i + (n + k)];
      }
    }
  }

  lemma StarSplit(pat: string, s: string) returns (k: nat)
    requires Matches(['*'] + pat, s)
    ensures k <= |s| && Matches(pat, s[k..])
  {
    assert (['*'] + pat)[1..] == pat;
    k :| 0 <= k <= |s| && Matches(pat, s[k..]);
  }

  // ---------------------------------------------------------------------------
  // Which subjects are long enough for the leftmost search to go wrong.

  /** A string or pattern with the end anchor, which it has nowhere else. */
  predicate Ends(p: string) {
    Closed(p) && AnchorFree(p[..|p| - 1])
  }

  predicate Closed(p: string) {
    p != [] && p[|p| - 1] == EANCHOR
  }

  lemma EndsClosed(p: string)
    requires Ends(p)
    ensures Closed(p)
  {
  }

  lemma EndsAnchored(s: string)
    requires AnchorFree(s)
    ensures Ends(s + [EANCHOR])
  {
    assert (s + [EANCHOR])[..|s|] == s;
  }

  /** What is left of an anchored string is anchored. */
  lemma EndsSuffix(p: string, j: nat)
    requires Ends(p) && j < |p|
    ensures Ends(p[j..])
  {
    assert p[j..][..|p| - j - 1] == p[..|p| - 1][j..];
  }

  lemma EndsPrepended(a: string, p: string)
    requires AnchorFree(a) && Ends(p)
    ensures Ends(a + p)
  {
    assert (a + p)[..|a + p| - 1] == a + p[..|p| - 1];
  }

  /** The anchor stands at the end only. */
  lemma OnlyAtEnd(p: string, k: nat)
    requires Ends(p) && k < |p| && p[k] == EANCHOR
    ensures k == |p| - 1
  {
    assert forall i | 0 <= i < |p| - 1 :: p[..|p| - 1][i] == p[i];
  }

  /** The literal run of w, found d places before w, is followed by a character that w does not match there. */
  predicate Misleads(w: string, d: nat) {
    var n := LiteralRun(w);
    && (d < n ==> w[d..n] <= w)
    && exists k | n <= k < |w| :: Mismatch(w, k, d)
  }

  /** Character k of w is a literal, and w placed d characters on does not force it. */
  predicate Mismatch(w: string, k: nat, d: nat)
    requires k < |w|
  {
    w[k] != '?' && (k < d || w[k - d] != w[k])
  }

  /** The smallest misleading distance from d on. */
  function FirstShift(w: string, d: nat): (r: Option<nat>)
    ensures r.Some? ==> d <= r.value <= |w| && Misleads(w, r.value)
    decreases |w| + 1 - d
  {
    if d > |w| then None else if Misleads(w, d) then Some(d) else FirstShift(w, d + 1)
  }

  lemma {:induction false} ShiftSmallest(w: string, d: nat, e: nat)
    requires d <= e <= |w| && Misleads(w, e)
    ensures FirstShift(w, d).Some? && FirstShift(w, d).value <= e
    decreases |w| - d
  {
    hide Misleads;
    if d < e && !Misleads(w, d) {
      ShiftSmallest(w, d + 1, e);
    }
  }

  /** A word misleads at some distance if and only if a literal follows a question mark. */
  lemma ShiftExists(w: string)
    requires LiteralRun(w) > 0
    ensures FirstShift(w, 1).Some? <==> LiteralBehind(w)
  {
    hide LiteralRun;
    if LiteralBehind(w) {
      var k :| LiteralRun(w) <= k < |w| && w[k] != '?';
      assert Mismatch(w, k, |w|);
      ShiftSmallest(w, 1, |w|);
    }
    if FirstShift(w, 1).Some? {
      var k :| LiteralRun(w) <= k < |w| && Mismatch(w, k, FirstShift(w, 1).value);
      assert w[k] != '?';
    }
  }

  function Least(a: Option<nat>, b: Option<nat>): Option<nat> {
    if a.None? then b else if b.None? || a.value <= b.value then a else b
  }

  /**
   What a subject needs beyond a shortest match so that the leftmost search goes wrong, for the anchored
   pattern behind a star; None if it never does. A word without literals in front goes wrong at once.
   */
  function Slack(pat: string): (r: Option<nat>)
    ensures r.Some? ==> r.value <= |pat|
    decreases |pat|
  {
    var w, rest := pat[..WordRun(pat)], pat[WordRun(pat)..];
    if LiteralRun(w) == 0 then Some(0)
    else if rest == [] then FirstShift(w, 1)
    else Least(FirstShift(w, 1), Slack(rest[1..]))
  }

  /** The slack of a whole pattern is that behind its first star. */
  function SlackOf(pat: string): (r: Option<nat>)
    ensures r.Some? ==> r.value < |pat|
  {
    if pat == [] then None else if pat[0] == '*' then Slack(pat[1..]) else SlackOf(pat[1..])
  }

  /** The length of a shortest match: all but the stars. */
  function Shortest(pat: string): (n: nat)
    ensures n <= |pat|
  {
    if pat == [] then 0 else Shortest(pat[1..]) + if pat[0] == '*' then 0 else 1
  }

  lemma {:induction false} ShortestAppend(a: string, b: string)
    ensures Shortest(a + b) == Shortest(a) + Shortest(b)
  {
    if a == [] {
      assert a + b == b;
    } else {
      assert (a + b)[1..] == a[1..] + b;
      ShortestAppend(a[1..], b);
    }
  }

  lemma {:induction false} ShortestWord(w: string)
    requires IsWord(w)
    ensures Shortest(w) == |w|
  {
    if w != [] {
      ShortestWord(w[1..]);
    }
  }

  /** No match is shorter. */
  lemma {:induction false} ShortestMatch(pat: string, s: string)
    requires Matches(pat, s)
    ensures Shortest(pat) <= |s|
    decreases |pat|
  {
    if pat != [] {
      if pat[0] == '*' {
        var k :| 0 <= k <= |s| && Matches(pat[1..], s[k..]);
        ShortestMatch(pat[1..], s[k..]);
      } else {
        ShortestMatch(pat[1..], s[1..]);
      }
    }
  }

  /** An anchored pattern behind a star, cut at the next star. */
  lemma Chunk(pat: string) returns (w: string, rest: string)
    requires Closed(pat)
    ensures pat == w + rest && IsWord(w)
    ensures if rest == [] then Closed(w) else rest[0] == '*' && Closed(rest[1..]) && rest == ['*'] + rest[1..]
    ensures Ends(pat) ==> if rest == [] then Ends(w) else AnchorFree(w) && Ends(rest[1..])
    ensures Shortest(pat) == |w| + Shortest(rest) && (rest != [] ==> Shortest(rest) == Shortest(rest[1..]))
    ensures Slack(pat) == if LiteralRun(w) == 0 then Some(0) else if rest == [] then FirstShift(w, 1)
                          else Least(FirstShift(w, 1), Slack(rest[1..]))
  {
    hide LiteralRun, FirstShift, Ends;
    w, rest := pat[..WordRun(pat)], pat[WordRun(pat)..];
    ShortestAppend(w, rest);
    ShortestWord(w);
    if rest == [] {
      assert w == pat;
    } else {
      AroundStar(pat, |w|);
    }
  }

  lemma AroundStar(pat: string, n: nat)
    requires Closed(pat) && n < |pat| && pat[n] == '*'
    ensures pat[n..] == ['*'] + pat[n..][1..] && Closed(pat[n..][1..])
    ensures Ends(pat) ==> AnchorFree(pat[..n]) && Ends(pat[n..][1..])
  {
    assert pat[n..][1..] == pat[n + 1..];
    if Ends(pat) {
      EndsSuffix(pat, n + 1);
      assert pat[..n] == pat[..|pat| - 1][..n];
    }
  }

  /** The handled patterns are those without slack. */
  lemma {:induction false} HandledSlack(pat: string)
    ensures HandledAfterStar(pat) <==> Slack(pat + [EANCHOR]) == None
    decreases |pat|
  {
    hide FirstShift, LiteralBehind, LiteralRun, Ends;
    var w, rest := pat[..WordRun(pat)], pat[WordRun(pat)..];
    var pat' := pat + [EANCHOR];
    assert pat == w + rest;
    if rest == [] {
      WordRunOf(pat', []);
      assert pat' + [] == pat' && pat'[..|pat'|] == pat' && pat'[|pat'|..] == [];
      LiteralRunAppend(pat, EANCHOR);
      if LiteralRun(pat') > 0 {
        LastLiteral(pat);
      }
    } else {
      assert pat' == w + (rest + [EANCHOR]);
      WordRunOf(w, rest + [EANCHOR]);
      assert (rest + [EANCHOR])[1..] == rest[1..] + [EANCHOR];
      HandledSlack(rest[1..]);
    }
    if LiteralRun(w) > 0 {
      ShiftExists(w);
    }
  }

  lemma LastLiteral(pat: string)
    requires LiteralRun(pat + [EANCHOR]) > 0
    ensures LiteralRun(pat) < |pat| <==> FirstShift(pat + [EANCHOR], 1).Some?
  {
    hide LiteralRun, FirstShift;
    var w := pat + [EANCHOR];
    LiteralRunAppend(pat, EANCHOR);
    ShiftExists(w);
    assert w[|pat|] == EANCHOR;
  }

  lemma {:induction false} HandledNoSlack(pat: string)
    ensures Handled(pat) <==> SlackOf(pat + [EANCHOR]) == None
  {
    var pat' := pat + [EANCHOR];
    if pat == [] {
      assert pat' == [EANCHOR] && pat'[1..] == [];
    } else {
      assert pat'[1..] == pat[1..] + [EANCHOR];
      if pat[0] == '*' {
        HandledSlack(pat[1..]);
      } else {
        HandledNoSlack(pat[1..]);
      }
    }
  }

  // ---------------------------------------------------------------------------
  // No shorter subject is rejected wrongly.

  /** Two places of the literal run, the word matching only at the second one: their distance misleads. */
  lemma MisleadingShift(w: string, p: string, i: nat, k: nat)
    requires WordAt(w, p, k) && i < k && IsWord(w)
    requires WordAt(w[..LiteralRun(w)], p, i) && !WordAt(w, p, i)
    ensures FirstShift(w, 1).Some? && FirstShift(w, 1).value <= k - i
  {
    hide FirstShift, LiteralRun;
    var n, d := LiteralRun(w), k - i;
    var x :| 0 <= x < |w| && w[x] != '?' && w[x] != p[i + x];
    assert forall j | 0 <= j < n :: w[..n][j] == w[j];
    assert x >= n;
    if d >= |w| {
      assert Mismatch(w, x, |w|);
      ShiftSmallest(w, 1, |w|);
    } else {
      if x >= d {
        assert w[x - d] == '?' || w[x - d] == p[k + (x - d)];
      }
      assert Mismatch(w, x, d);
      if d < n {
        RunOverlaps(w, n, p, i, k);
      }
      ShiftSmallest(w, 1, d);
    }
  }

  lemma RunOverlaps(w: string, n: nat, p: string, i: nat, k: nat)
    requires n <= |w| && i < k < i + n && WordAt(w, p, k) && WordAt(w[..n], p, i)
    requires forall j | 0 <= j < n :: w[j] != '?'
    ensures w[k - i..n] <= w
  {
    var d := k - i;
    forall j | 0 <= j < n - d
      ensures w[d..n][j] == w[j]
    {
      assert w[..n][d + j] == w[d + j] == p[i + (d + j)];
      assert w[j] == p[k + j];
    }
    assert w[d..n] == w[..n - d];
  }

  /** Behind a star: an anchored subject that matches and is rejected. */
  lemma {:induction false} RejectedAfterStar(p: string, pat: string)
    requires Ends(p) && Closed(pat) && Matches(['*'] + pat, p) && !Greedy(p, ['*'] + pat)
    ensures Slack(pat).Some? && |p| >= Shortest(pat) + Slack(pat).value
    decreases |pat|
  {
    hide Ends, Matches, Greedy, Find, Slack, Shortest, FirstShift, LiteralRun, WordAt;
    var w, rest := Chunk(pat);
    var k := StarSplit(pat, p);
    MatchesWord(w, rest, p, k);
    WordFits(w, p, k);
    ShortestMatch(rest, p[k + |w|..]);
    if LiteralRun(w) > 0 {
      var i := RunFound(w, p, k);
      GreedyAnchored(p, w, rest);
      if !WordAt(w, p, i) {
        MisleadingShift(w, p, i, k);
      } else if rest == [] {
        LastWordEnds(p, w, i);
        assert false;
      } else {
        var j := i + |w|;
        RestAbsorbs(p, rest, j, k + |w|);
        RejectedAfterStar(p[j..], rest[1..]);
      }
    }
  }

  lemma WordFits(w: string, p: string, k: nat)
    requires WordAt(w, p, k)
    ensures k + |w| <= |p|
  {
  }

  lemma GreedyAnchored(p: string, w: string, rest: string)
    requires IsWord(w) && (rest == [] || rest[0] == '*') && Ends(p)
    ensures
      var r := Find(p, w[..LiteralRun(w)], 0);
      Greedy(p, ['*'] + (w + rest)) <==> r.Some? && WordAt(w, p, r.value) && Greedy(p[r.value + |w|..], rest)
  {
    GreedyChunk(p, w, rest);
  }

  /** Where w matches its literal run is found, there or before. */
  lemma RunFound(w: string, p: string, k: nat) returns (i: nat)
    requires LiteralRun(w) > 0 && WordAt(w, p, k)
    ensures Find(p, w[..LiteralRun(w)], 0) == Some(i) && i <= k && WordAt(w[..LiteralRun(w)], p, i)
    ensures !WordAt(w, p, i) ==> i < k
  {
    hide Find, LiteralRun;
    var lit := w[..LiteralRun(w)];
    assert OccursAt(p, lit, k) by {
      assert forall j | 0 <= j < |lit| :: lit[j] == w[j] == p[k + j];
    }
    LeftmostFind(p, lit);
    i := Find(p, lit, 0).value;
    WordFound(p, lit, i);
  }

  /** The last word matches at the end only. */
  lemma LastWordEnds(p: string, w: string, i: nat)
    requires Ends(p) && Closed(w) && WordAt(w, p, i)
    ensures Greedy(p[i + |w|..], [])
  {
    assert w[|w| - 1] == p[i + (|w| - 1)];
    OnlyAtEnd(p, i + |w| - 1);
  }

  /** The next star absorbs what the leftmost place leaves. */
  lemma RestAbsorbs(p: string, rest: string, j: nat, k: nat)
    requires Ends(p) && Closed(rest) && rest[0] == '*' && j <= k <= |p| && Matches(rest, p[k..])
    ensures Matches(rest, p[j..]) && Ends(p[j..])
  {
    hide Ends, Matches;
    assert rest == ['*'] + rest[1..];
    assert p[j..][k - j..] == p[k..];
    StarAbsorbs(rest[1..], p[j..], k - j);
    EndsMatched(rest, p[j..]);
    EndsSuffix(p, j);
  }

  lemma EndsMatched(pat: string, p: string)
    requires Closed(pat) && Matches(pat, p)
    ensures p != []
  {
    hide Matches;
    MatchesNonEmpty(pat[..|pat| - 1], EANCHOR);
    assert pat == pat[..|pat| - 1] + [EANCHOR];
  }

  /** Before the first star nothing goes wrong. */
  lemma {:induction false} RejectedFrom(p: string, pat: string)
    requires Ends(p) && Closed(pat) && Matches(pat, p) && !Greedy(p, pat)
    ensures SlackOf(pat).Some? && |p| >= Shortest(pat) + SlackOf(pat).value
    decreases |pat|
  {
    hide Ends, Slack;
    EndsMatched(pat, p);
    if pat[0] == '*' {
      assert pat == ['*'] + pat[1..];
      RejectedAfterStar(p, pat[1..]);
    } else if pat[1..] == [] {
      AnchorAlone(p, pat);
      assert false;
    } else {
      EndsMatched(pat[1..], p[1..]);
      EndsSuffix(p, 1);
      RejectedFrom(p[1..], pat[1..]);
    }
  }

  lemma AnchorAlone(p: string, pat: string)
    requires Closed(pat) && pat[1..] == [] && Matches(pat, p)
    ensures Greedy(p, pat)
  {
    assert pat[1..] == [] && p[1..] == [];
  }

  lemma StarRest(pat: string)
    requires Ends(pat) && pat != [] && pat[0] == '*'
    ensures pat == ['*'] + pat[1..] && pat[1..] != [] && Ends(pat[1..])
  {
    EndsSuffix(pat, 1);
  }

  // ---------------------------------------------------------------------------
  // A subject of that length that is rejected wrongly.

  /** A shortest match: stars empty, question marks the given character. */
  function Instance(pat: string, c: char): (t: string)
    ensures |t| == Shortest(pat)
  {
    if pat == [] then []
    else if pat[0] == '*' then Instance(pat[1..], c)
    else [if pat[0] == '?' then c else pat[0]] + Instance(pat[1..], c)
  }

  lemma {:induction false} InstanceMatches(pat: string, c: char)
    ensures Matches(pat, Instance(pat, c))
  {
    if pat != [] {
      InstanceMatches(pat[1..], c);
      var t := Instance(pat[1..], c);
      if pat[0] == '*' {
        assert t[0..] == t;
      } else {
        assert Instance(pat, c)[1..] == t;
      }
    }
  }

  lemma {:induction false} InstanceFree(pat: string, c: char)
    requires AnchorFree(pat) && c != EANCHOR && c != '\0'
    ensures AnchorFree(Instance(pat, c))
  {
    if pat != [] {
      InstanceFree(pat[1..], c);
    }
  }

  lemma {:induction false} InstanceEnds(pat: string, c: char)
    requires Ends(pat) && c != EANCHOR && c != '\0'
    ensures Ends(Instance(pat, c))
    decreases |pat|
  {
    if pat[1..] == [] {
      assert Instance(pat, c) == [EANCHOR];
    } else {
      EndsSuffix(pat, 1);
      InstanceEnds(pat[1..], c);
      if pat[0] != '*' {
        assert pat[..|pat| - 1][0] == pat[0];
        EndsPrepended([if pat[0] == '?' then c else pat[0]], Instance(pat[1..], c));
      }
    }
  }

  /** A word's instance, character by character. */
  lemma {:induction false} InstanceAt(w: string, c: char, k: nat)
    requires IsWord(w) && k < |w|
    ensures |Instance(w, c)| == |w| && Instance(w, c)[k] == if w[k] == '?' then c else w[k]
  {
    ShortestWord(w);
    if k > 0 {
      InstanceAt(w[1..], c, k - 1);
    }
  }

  lemma {:induction false} InstanceAppend(a: string, b: string, c: char)
    ensures Instance(a + b, c) == Instance(a, c) + Instance(b, c)
  {
    if a == [] {
      assert a + b == b;
    } else {
      assert (a + b)[1..] == a[1..] + b;
      InstanceAppend(a[1..], b, c);
    }
  }

  /** The first d characters of a subject that misleads: the literal run, and then anything. */
  function Lead(w: string, d: nat, c: char): (s: string)
    ensures |s| == d
  {
    var n := LiteralRun(w);
    seq(d, i requires 0 <= i < d => if i < n then w[i] else c)
  }

  lemma LeadFree(w: string, d: nat, c: char)
    requires (AnchorFree(w) || (Ends(w) && d < |w|)) && c != EANCHOR && c != '\0'
    ensures AnchorFree(Lead(w, d, c))
  {
    hide LiteralRun;
    if !AnchorFree(w) {
      assert forall i | 0 <= i < |w| - 1 :: w[i] == w[..|w| - 1][i];
    }
  }

  /** Behind a star: a string that matches, rejected because the run is found too early. */
  lemma MisledAt(w: string, rest: string, d: nat, c: char)
    requires Ends(w + rest) && IsWord(w) && (rest == [] || rest[0] == '*') && LiteralRun(w) > 0 && d > 0
    requires d < LiteralRun(w) ==> w[d..LiteralRun(w)] <= w
    requires exists k | LiteralRun(w) <= k < |w| :: Mismatch(w, k, d) && w[k] != c
    ensures !Greedy(Lead(w, d, c) + Instance(w + rest, c), ['*'] + (w + rest))
  {
    hide Greedy, Ends, LiteralRun, Find;
    var n := LiteralRun(w);
    var p := Lead(w, d, c) + Instance(w + rest, c);
    var k :| n <= k < |w| && Mismatch(w, k, d) && w[k] != c;
    InstanceAppend(w, rest, c);
    ShortestWord(w);
    forall j | 0 <= j < n
      ensures p[j] == w[j]
    {
      LeadRun(w, rest, d, c, j);
    }
    assert w[..n] <= p;
    FoundAtStart(p, w[..n]);
    if k >= d {
      InstanceAt(w, c, k - d);
    }
    GreedyChunk(p, w, rest);
    assert p[0 + k] != w[k];
  }

  lemma LeadRun(w: string, rest: string, d: nat, c: char, j: nat)
    requires IsWord(w) && j < LiteralRun(w)
    requires d < LiteralRun(w) ==> w[d..LiteralRun(w)] <= w
    ensures |Instance(w, c)| == |w|
    ensures (Lead(w, d, c) + (Instance(w, c) + Instance(rest, c)))[j] == w[j]
  {
    hide LiteralRun;
    ShortestWord(w);
    if j >= d {
      InstanceAt(w, c, j - d);
      assert w[d..LiteralRun(w)][j - d] == w[j];
    }
  }

  lemma FoundAtStart(p: string, lit: string)
    requires lit != [] && lit <= p
    ensures Find(p, lit, 0) == Some(0)
  {
    assert p[0..0 + |lit|] == lit;
  }

  /** An anchored string that matches a star followed by a pattern with slack, and is rejected. */
  lemma {:induction false} Confuse(pat: string) returns (p: string)
    requires Ends(pat) && Slack(pat).Some?
    ensures Ends(p) && |p| == Shortest(pat) + Slack(pat).value
    ensures Matches(['*'] + pat, p) && !Greedy(p, ['*'] + pat)
    decreases |pat|
  {
    hide Ends, Matches, Greedy, Find, Slack, Shortest, FirstShift, LiteralRun, WordAt, Instance, Lead;
    EndsClosed(pat);
    var w, rest := Chunk(pat);
    var slack := Slack(pat).value;
    if LiteralRun(w) == 0 {
      p := Instance(pat, 'a');
      InstanceEnds(pat, 'a');
      InstanceMatches(pat, 'a');
      StarPrefix(pat, [], p);
      assert [] + p == p;
      NoRun(p, w, rest);
    } else if FirstShift(w, 1) == Some(slack) {
      p := ConfuseHere(w, rest, slack);
    } else {
      var p' := Confuse(rest[1..]);
      p := Instance(w, 'a') + p';
      ConfuseLater(w, rest, p');
    }
  }

  /** A word without a literal in front is looked for at the end. */
  lemma NoRun(p: string, w: string, rest: string)
    requires Ends(p) && Ends(w + rest) && IsWord(w) && (rest == [] || rest[0] == '*') && LiteralRun(w) == 0
    ensures !Greedy(p, ['*'] + (w + rest))
  {
    GreedyChunk(p, w, rest);
    assert w[..0] == [];
    if w == [] {
      assert w + rest == rest;
    }
  }

  lemma ConfuseHere(w: string, rest: string, d: nat) returns (p: string)
    requires Ends(w + rest) && IsWord(w) && (rest == [] ==> Ends(w)) && (rest != [] ==> rest[0] == '*' && AnchorFree(w))
    requires LiteralRun(w) > 0 && FirstShift(w, 1) == Some(d)
    ensures Ends(p) && |p| == Shortest(w + rest) + d
    ensures Matches(['*'] + (w + rest), p) && !Greedy(p, ['*'] + (w + rest))
  {
    hide Ends, Matches, Greedy, LiteralRun, Instance, Lead;
    assert Misleads(w, d);
    var k :| LiteralRun(w) <= k < |w| && Mismatch(w, k, d);
    var c := if w[k] == 'a' then 'b' else 'a';
    p := Lead(w, d, c) + Instance(w + rest, c);
    MisledAt(w, rest, d, c);
    InstanceMatches(w + rest, c);
    StarPrefix(w + rest, Lead(w, d, c), Instance(w + rest, c));
    InstanceEnds(w + rest, c);
    if rest == [] {
      ShiftInside(w, d);
    }
    LeadFree(w, d, c);
    EndsPrepended(Lead(w, d, c), Instance(w + rest, c));
  }

  /** In the last word the anchor itself is a mismatch, already behind the literal run. */
  lemma ShiftInside(w: string, d: nat)
    requires Ends(w) && LiteralRun(w) > 0 && FirstShift(w, 1) == Some(d)
    ensures d < |w|
  {
    hide LiteralRun;
    var n := LiteralRun(w);
    var x :| n <= x < |w| && Mismatch(w, x, d);
    var k := |w| - 1;
    assert n <= k;
    assert w[k - n] == w[..|w| - 1][k - n];
    assert Mismatch(w, k, n);
    assert w[n..n] == [];
    ShiftSmallest(w, 1, n);
  }

  lemma ConfuseLater(w: string, rest: string, p: string)
    requires Ends(p) && IsWord(w) && AnchorFree(w) && LiteralRun(w) > 0 && rest != [] && rest[0] == '*'
    requires Matches(rest, p) && !Greedy(p, rest)
    ensures Ends(Instance(w, 'a') + p) && |Instance(w, 'a')| == |w|
    ensures Matches(['*'] + (w + rest), Instance(w, 'a') + p) && !Greedy(Instance(w, 'a') + p, ['*'] + (w + rest))
  {
    hide Ends, Matches, Greedy, LiteralRun, Instance, Find, WordAt;
    var s := Instance(w, 'a') + p;
    InstanceFree(w, 'a');
    EndsPrepended(Instance(w, 'a'), p);
    InstanceWord(w, 'a', p);
    MatchesWord(w, rest, s, 0);
    StarPrefix(w + rest, [], s);
    assert [] + s == s;
    RunAtStart(w, s);
    GreedyChunk(s, w, rest);
  }

  lemma InstanceWord(w: string, c: char, p: string)
    requires IsWord(w)
    ensures |Instance(w, c)| == |w| && WordAt(w, Instance(w, c) + p, 0)
    ensures (Instance(w, c) + p)[0..] == Instance(w, c) + p && (Instance(w, c) + p)[0 + |w|..] == p
  {
    hide Instance;
    ShortestWord(w);
    var s := Instance(w, c) + p;
    forall k | 0 <= k < |w|
      ensures w[k] == '?' || w[k] == s[0 + k]
    {
      InstanceAt(w, c, k);
    }
  }

  lemma RunAtStart(w: string, s: string)
    requires LiteralRun(w) > 0 && WordAt(w, s, 0)
    ensures Find(s, w[..LiteralRun(w)], 0) == Some(0)
  {
    hide Find, LiteralRun;
    var lit := w[..LiteralRun(w)];
    assert forall j | 0 <= j < |lit| :: lit[j] == w[j] == s[0 + j];
    assert lit <= s;
    FoundAtStart(s, lit);
  }

  lemma StarPrefix(pat: string, prefix: string, t: string)
    requires Matches(pat, t)
    ensures Matches(['*'] + pat, prefix + t)
  {
    assert (['*'] + pat)[1..] == pat;
    assert (prefix + t)[|prefix|..] == t;
  }

  /** Before the first star the confusing string just continues the match. */
  lemma {:induction false} ConfuseFrom(pat: string) returns (p: string)
    requires Ends(pat) && SlackOf(pat).Some?
    ensures Ends(p) && |p| == Shortest(pat) + SlackOf(pat).value
    ensures Matches(pat, p) && !Greedy(p, pat)
    decreases |pat|
  {
    hide Ends, Slack;
    if pat[0] == '*' {
      StarRest(pat);
      p := Confuse(pat[1..]);
    } else {
      assert pat[1..] != [];
      EndsSuffix(pat, 1);
      var p' := ConfuseFrom(pat[1..]);
      var c := if pat[0] == '?' then 'a' else pat[0];
      p := [c] + p';
      FirstFree(pat);
      EndsPrepended([c], p');
      assert p[1..] == p';
    }
  }

  lemma FirstFree(pat: string)
    requires Ends(pat) && |pat| > 1
    ensures AnchorFree([if pat[0] == '?' then 'a' else pat[0]])
  {
    assert pat[..|pat| - 1][0] == pat[0];
  }

  // ---------------------------------------------------------------------------
  // Main results.

  /** On a handled pattern strpat decides the match. */
  lemma HandledDecides(s: string, pat: string)
    requires Handled(pat) && AnchorFree(s)
    ensures Accepts(s, pat) <==> Matches(pat, s)
  {
    hide Accepts, Greedy, Matches, Handled;
    HandledNoSlack(pat);
    if !Accepts(s, pat) && Matches(pat, s) {
      RejectedIsLong(s, pat);
    }
    if Accepts(s, pat) {
      AcceptedMatches(s, pat);
    }
  }

  /** No subject that is wrongly rejected is shorter than a shortest match and the slack. */
  lemma RejectedIsLong(s: string, pat: string)
    requires AnchorFree(s) && Matches(pat, s) && !Accepts(s, pat)
    ensures SlackOf(pat + [EANCHOR]).Some? && |s| >= Shortest(pat) + SlackOf(pat + [EANCHOR]).value
  {
    hide Accepts, Greedy, Matches, Shortest;
    MatchesLast(pat, EANCHOR, s);
    AcceptsUnfolds(s, pat);
    EndsAnchored(s);
    RejectedFrom(s + [EANCHOR], pat + [EANCHOR]);
    ShortestAppend(pat, [EANCHOR]);
    ShortestWord([EANCHOR]);
  }

  /** There is one of exactly that length. */
  lemma RejectedExists(pat: string) returns (s: string)
    requires AnchorFree(pat) && SlackOf(pat + [EANCHOR]).Some?
    ensures AnchorFree(s) && |s| == Shortest(pat) + SlackOf(pat + [EANCHOR]).value
    ensures Matches(pat, s) && !Accepts(s, pat)
  {
    hide Accepts, Greedy, Matches, Shortest;
    EndsAnchored(pat);
    var p := ConfuseFrom(pat + [EANCHOR]);
    s := p[..|p| - 1];
    assert p == s + [EANCHOR];
    MatchesLast(pat, EANCHOR, s);
    AcceptsUnfolds(s, pat);
    ShortestAppend(pat, [EANCHOR]);
    ShortestWord([EANCHOR]);
  }

  /** A string that strpat's buffer of `max` bytes can hold between the anchors. */
  predicate Fits(s: string, max: nat) {
    |s| + 3 <= max && AnchorFree(s)
  }

  /** With buffers of `max` bytes strpat decides the match of every subject they hold. */
  ghost predicate Decides(pat: string, max: nat) {
    forall s: string | Fits(s, max) :: Accepts(s, pat) <==> Matches(pat, s)
  }

  /** The buffer holds a shortest match and the slack. */
  predicate Confusable(pat: string, max: nat) {
    var slack := SlackOf(pat + [EANCHOR]);
    slack.Some? && Shortest(pat) + slack.value + 3 <= max
  }

  /** For every pattern: the subjects that the buffers hold are all decided if and only if that does not fit. */
  lemma DecidesExactly(pat: string, max: nat)
    requires AnchorFree(pat)
    ensures Decides(pat, max) <==> !Confusable(pat, max)
  {
    hide Accepts, Greedy, Matches, Shortest, SlackOf;
    if Confusable(pat, max) {
      var t := RejectedExists(pat);
      assert Fits(t, max) && Matches(pat, t) && !Accepts(t, pat);
    } else {
      forall s: string | Fits(s, max)
        ensures Accepts(s, pat) <==> Matches(pat, s)
      {
        if Accepts(s, pat) {
          AcceptedMatches(s, pat);
        } else if Matches(pat, s) {
          RejectedIsLong(s, pat);
        }
      }
    }
  }

  /** Buffers that hold twice the pattern: the subjects decided are all of them exactly for the handled patterns. */
  lemma DecidesWithin(pat: string, max: nat)
    requires AnchorFree(pat) && 2 * |pat| + 3 <= max
    ensures Decides(pat, max) <==> Handled(pat)
  {
    hide Decides, Handled, SlackOf, Shortest;
    HandledNoSlack(pat);
    DecidesExactly(pat, max);
  }

  /** A handled pattern of any length is decided. */
  lemma HandledDecidesAll(pat: string, max: nat)
    requires Handled(pat)
    ensures Decides(pat, max)
  {
    hide Accepts, Matches, Handled;
    forall s: string | Fits(s, max)
      ensures Accepts(s, pat) <==> Matches(pat, s)
    {
      HandledDecides(s, pat);
    }
  }

  /** With the buffers of strpat: exact for patterns of up to 126 characters. */
  lemma DecidesExactlyHandled(pat: string)
    requires AnchorFree(pat) && |pat| <= 126
    ensures Decides(pat, MAXLN) <==> Handled(pat)
  {
    DecidesWithin(pat, MAXLN);
  }

  // Longer patterns: a handled one is still decided, but so are some others, because the subject
  // that would be rejected wrongly does not fit the buffer.

  /** An 'a' and k times 'b'. */
  function LongRun(k: nat): (r: string)
    ensures |r| == k + 1 && r[0] == 'a' && forall i | 1 <= i <= k :: r[i] == 'b'
  {
    "a" + seq(k, _ => 'b')
  }

  lemma RunsDiffer(w: string, d: nat, n: nat)
    requires 0 < d && n <= |w| && forall i | 1 <= i < n :: w[i] != w[0]
    ensures d < n ==> !(w[d..n] <= w)
  {
    if d < n {
      assert w[d..n][0] == w[d];
    }
  }

  /** The pattern "*ab...b?" needs a second run, which does not overlap the first. */
  lemma LongSlack(k: nat)
    ensures
      var pat := ['*'] + (LongRun(k) + "?");
      var slack := SlackOf(pat + [EANCHOR]);
      slack.Some? && slack.value > k && Shortest(pat) == k + 2
  {
    var lit := LongRun(k);
    var w := (lit + "?") + [EANCHOR];
    var pat := ['*'] + (lit + "?");
    assert (pat + [EANCHOR])[1..] == w == lit + ("?" + [EANCHOR]);
    LiteralRunOf(lit, "?" + [EANCHOR]);
    WordRunOf(w, []);
    assert w + [] == w && w[..|w|] == w && w[|w|..] == [];
    assert w[k + 2] == EANCHOR;
    ShiftExists(w);
    var d := FirstShift(w, 1).value;
    RunsDiffer(w, d, k + 1);
    assert pat == ['*'] + (lit + "?");
    ShortestAppend(['*'], lit + "?");
    ShortestWord(lit + "?");
  }

  /** A pattern of 129 characters that is not handled, and yet decided on all subjects that fit. */
  lemma LongPatternDecided()
    ensures
      var pat := ['*'] + (LongRun(126) + "?");
      Fits(pat, MAXLN) && !Handled(pat) && Decides(pat, MAXLN)
  {
    hide Decides, Handled, SlackOf, Shortest;
    LongSlack(126);
    HandledNoSlack(['*'] + (LongRun(126) + "?"));
    DecidesExactly(['*'] + (LongRun(126) + "?"), MAXLN);
  }

  /** The pattern the file layer uses to recognise network names, os/filesys/filesys.c:120, is handled. */
  lemma NetworkPatternHandled()
    ensures Handled("*ftp://*")
  {
    var pat := "ftp://*";
    assert "*ftp://*"[1..] == pat == "ftp://" + "*";
    LiteralRunOf("ftp://", []);
    WordRunOf("ftp://", "*");
    assert "ftp://" + [] == "ftp://" && pat[..6] == "ftp://" && pat[6..] == "*" && "*"[1..] == "";
    assert HandledAfterStar("");
    assert HandledAfterStar(pat);
  }
}
