/** The comparison-operator rewrite of `getBootcamps`: in the JSON text of the
    filter, every whole word `gt`, `gte`, `lt`, `lte` or `in` gets a `$` in front,
    turning the query-string sub-keys into MongoDB operators (`$gt`, ...). The
    handler does it with one global regular-expression replace. */
module OperatorRewrite {

  /** `\w` of a JavaScript regular expression without the `u` flag. */
  predicate IsWordChar(c: char) {
    'a' <= c <= 'z' || 'A' <= c <= 'Z' || '0' <= c <= '9' || c == '_'
  }

  predicate AllWord(s: string) {
    forall i :: 0 <= i < |s| ==> IsWordChar(s[i])
  }

  /** The length of the maximal run of word characters at the start of `s`. */
  function WordRun(s: string): (k: nat)
    ensures k <= |s|
    ensures k == |s| || !IsWordChar(s[k])
    ensures s != [] && IsWordChar(s[0]) ==> k > 0
  {
    if s != [] && IsWordChar(s[0]) then 1 + WordRun(s[1..]) else 0
  }

  /** The run holds word characters only. */
  lemma {:induction false} WordRunAllWord(s: string)
    ensures AllWord(s[..WordRun(s)])
  {
    if s != [] && IsWordChar(s[0]) {
      WordRunAllWord(s[1..]);
      assert s[..WordRun(s)] == [s[0]] + s[1..][..WordRun(s[1..])];
    }
  }

  /** The alternatives of the pattern's group. */
  predicate IsOperator(w: string) {
    w == "gt" || w == "gte" || w == "lt" || w == "lte" || w == "in"
  }

  /** The rewrite read word run by word run: a maximal run of word characters that
      spells an operator gets a `$` in front; every other character is copied. */
  function RewriteOperators(s: string): string
    decreases |s|
  {
    if s == [] then []
    else if IsWordChar(s[0]) then
      var k := WordRun(s);
      (if IsOperator(s[..k]) then "$" + s[..k] else s[..k]) + RewriteOperators(s[k..])
    else [s[0]] + RewriteOperators(s[1..])
  }

  // ---------------------------------------------------------------------------
  // The regular expression, position by position

  /** `\b` at position `i`: a word character on exactly one side of it. */
  predicate Boundary(s: string, i: int)
    requires 0 <= i <= |s|
  {
    (i > 0 && IsWordChar(s[i - 1])) != (i < |s| && IsWordChar(s[i]))
  }

  /** The characters of `t` appear in `s` from position `i` on. */
  predicate OccursAt(s: string, i: nat, t: string)
    decreases |t|
  {
    t == [] || (i < |s| && s[i] == t[0] && OccursAt(s, i + 1, t[1..]))
  }

  /** The group alternative `t` matches at `i` and the closing `\b` holds after it. */
  predicate AlternativeAt(s: string, i: int, t: string)
    requires 0 <= i <= |s|
  {
    i + |t| <= |s| && OccursAt(s, i, t) && Boundary(s, i + |t|)
  }

  /** `/\b(gt|gte|lt|lte|in)\b/` matches at position `i` of `s`. */
  predicate MatchAt(s: string, i: int)
    requires 0 <= i <= |s|
  {
    Boundary(s, i) &&
    (AlternativeAt(s, i, "gt") || AlternativeAt(s, i, "gte") || AlternativeAt(s, i, "lt") ||
     AlternativeAt(s, i, "lte") || AlternativeAt(s, i, "in"))
  }

  /** `s[i..]` with a `$` inserted before every position where the pattern matches.
      A match covers word characters only, so no position strictly inside a match
      is a `\b`: matches never overlap, and the global replace inserts exactly these. */
  function InsertAtMatches(s: string, i: int): string
    requires 0 <= i <= |s|
    decreases |s| - i
  {
    if i == |s| then [] else (if MatchAt(s, i) then "$" else "") + [s[i]] + InsertAtMatches(s, i + 1)
  }

  // ---------------------------------------------------------------------------
  // One step of each run-by-run function

  lemma {:induction false} WordRunExact(u: string, n: nat)
    requires n <= |u| && AllWord(u[..n])
    requires n == |u| || !IsWordChar(u[n])
    ensures WordRun(u) == n
  {
    if n > 0 {
      assert IsWordChar(u[..n][0]);
      assert u[1..][..n - 1] == u[..n][1..];
      WordRunExact(u[1..], n - 1);
    }
  }

  /** A text that may follow a maximal word run: empty or not a word character first. */
  predicate RunEnds(t: string) {
    t == [] || !IsWordChar(t[0])
  }

  lemma {:induction false} WordRunOfConcat(w: string, t: string)
    requires AllWord(w) && RunEnds(t)
    ensures WordRun(w + t) == |w|
  {
    assert (w + t)[..|w|] == w;
    WordRunExact(w + t, |w|);
  }

  /** `s` split at its leading word run. */
  lemma {:induction false} SplitAtRun(s: string)
    requires s != [] && IsWordChar(s[0])
    ensures var k := WordRun(s);
      && 0 < k && s == s[..k] + s[k..] && AllWord(s[..k]) && s[..k] != [] && RunEnds(s[k..])
  {
    var k := WordRun(s);
    WordRunAllWord(s);
    if k < |s| {
      assert s[k..][0] == s[k];
    }
  }

  lemma {:induction false} RewriteWordStep(w: string, t: string)
    requires w != [] && AllWord(w) && RunEnds(t)
    ensures RewriteOperators(w + t) == (if IsOperator(w) then "$" + w else w) + RewriteOperators(t)
  {
    var s := w + t;
    WordRunOfConcat(w, t);
    assert s[0] == w[0];
    assert s[..|w|] == w && s[|w|..] == t;
  }

  lemma {:induction false} RewriteOtherStep(c: char, t: string)
    requires !IsWordChar(c)
    ensures RewriteOperators([c] + t) == [c] + RewriteOperators(t)
  {
    assert ([c] + t)[1..] == t;
  }

  /** The rewrite of a text that follows a word run still follows a word run. */
  lemma {:induction false} RewriteRunEnds(t: string)
    requires RunEnds(t)
    ensures RunEnds(RewriteOperators(t))
  {
    if t != [] {
      RewriteOtherStep(t[0], t[1..]);
      assert t == [t[0]] + t[1..];
    }
  }

  lemma {:induction false} CountWordStep(w: string, t: string)
    requires w != [] && AllWord(w) && RunEnds(t)
    ensures OperatorCount(w + t) == (if IsOperator(w) then 1 else 0) + OperatorCount(t)
  {
    var s := w + t;
    WordRunOfConcat(w, t);
    assert s[0] == w[0];
    assert s[..|w|] == w && s[|w|..] == t;
  }

  lemma {:induction false} CountOtherStep(c: char, t: string)
    requires !IsWordChar(c)
    ensures OperatorCount([c] + t) == OperatorCount(t)
  {
    assert ([c] + t)[1..] == t;
  }

  lemma {:induction false} RestoreWordStep(w: string, t: string)
    requires w != [] && AllWord(w) && RunEnds(t)
    ensures RestoreOperators(w + t) == w + RestoreOperators(t)
  {
    var s := w + t;
    WordRunOfConcat(w, t);
    assert s[0] == w[0];
    assert s[..|w|] == w && s[|w|..] == t;
  }

  /** A `$` right before a maximal run spelling an operator is dropped. */
  lemma {:induction false} RestoreDollarStep(w: string, t: string)
    requires IsOperator(w) && AllWord(w) && RunEnds(t)
    ensures RestoreOperators(['$'] + (w + t)) == RestoreOperators(w + t)
  {
    var r := ['$'] + (w + t);
    assert r[1..] == w + t;
    WordRunOfConcat(w, t);
    assert (w + t)[..|w|] == w;
  }

  /** Any other non-word character is copied. */
  lemma {:induction false} RestoreOtherStep(c: char, t: string)
    requires !IsWordChar(c)
    requires c == '$' ==> !IsOperator(t[..WordRun(t)])
    ensures RestoreOperators([c] + t) == [c] + RestoreOperators(t)
  {
    assert ([c] + t)[1..] == t;
  }

  // ---------------------------------------------------------------------------
  // The run-by-run rewrite is the regular-expression replace

  lemma {:induction false} OccursAtSlice(s: string, i: nat, t: string)
    requires i + |t| <= |s|
    ensures OccursAt(s, i, t) <==> s[i..i + |t|] == t
    decreases |t|
  {
    if t != [] {
      OccursAtSlice(s, i + 1, t[1..]);
      assert s[i..i + |t|] == [s[i]] + s[i + 1..i + 1 + |t[1..]|];
      assert t == [t[0]] + t[1..];
    }
  }

  /** At the start of a word run, an alternative matches iff it is the whole run. */
  lemma {:induction false} AlternativeAtRunStart(s: string, j: int, t: string)
    requires 0 <= j < |s| && IsWordChar(s[j])
    requires |t| > 0 && AllWord(t)
    ensures AlternativeAt(s, j, t) <==> s[j..j + WordRun(s[j..])] == t
  {
    var k := WordRun(s[j..]);
    assert s[j..][..k] == s[j..j + k];
    if j + |t| <= |s| {
      OccursAtSlice(s, j, t);
    }
    if AlternativeAt(s, j, t) {
      assert s[j..][..|t|] == t;
      assert IsWordChar(s[j + |t| - 1]);
      WordRunExact(s[j..], |t|);
    }
  }

  /** At the start of a word run the pattern matches iff the run spells an operator. */
  lemma {:induction false} MatchAtRunStart(s: string, j: int)
    requires 0 <= j < |s| && IsWordChar(s[j])
    requires j == 0 || !IsWordChar(s[j - 1])
    ensures MatchAt(s, j) <==> IsOperator(s[j..j + WordRun(s[j..])])
  {
    AlternativeAtRunStart(s, j, "gt");
    AlternativeAtRunStart(s, j, "gte");
    AlternativeAtRunStart(s, j, "lt");
    AlternativeAtRunStart(s, j, "lte");
    AlternativeAtRunStart(s, j, "in");
  }

  /** Between two word characters there is no `\b`, so nothing matches there. */
  lemma NoMatchInsideWord(s: string, p: int)
    requires 1 <= p < |s| && IsWordChar(s[p - 1]) && IsWordChar(s[p])
    ensures !MatchAt(s, p)
  {
    assert !Boundary(s, p);
  }

  /** Strictly inside a word run nothing matches. */
  lemma {:induction false} NoMatchInsideRun(s: string, p: int, q: int)
    requires 1 <= p <= q <= |s|
    requires forall i :: p - 1 <= i < q ==> IsWordChar(s[i])
    ensures InsertAtMatches(s, p) == s[p..q] + InsertAtMatches(s, q)
    decreases q - p
  {
    if p < q {
      NoMatchInsideWord(s, p);
      InsertStep(s, p);
      NoMatchInsideRun(s, p + 1, q);
      SliceCons(s, p, q);
      ConsAssoc([], s[p], s[p + 1..q], InsertAtMatches(s, q));
    }
  }

  /** Over a word run starting at `j`, the insertion copies the run, with a `$` in
      front when the pattern matches at `j`. */
  lemma {:induction false} InsertAtRunStart(s: string, j: int, k: int)
    requires 0 <= j && 0 < k && j + k <= |s|
    requires AllWord(s[j..j + k])
    ensures InsertAtMatches(s, j) ==
      (if MatchAt(s, j) then "$" + s[j..j + k] else s[j..j + k]) + InsertAtMatches(s, j + k)
  {
    InsertInsideRun(s, j, k);
    InsertStep(s, j);
    SliceCons(s, j, j + k);
    if MatchAt(s, j) {
      ConsAssoc("$", s[j], s[j + 1..j + k], InsertAtMatches(s, j + k));
    } else {
      ConsAssoc([], s[j], s[j + 1..j + k], InsertAtMatches(s, j + k));
    }
  }

  lemma SliceCons(s: string, i: int, j: int)
    requires 0 <= i < j <= |s|
    ensures s[i..j] == [s[i]] + s[i + 1..j]
  {
  }

  lemma ConsAssoc(p: string, c: char, x: string, m: string)
    ensures p + [c] + (x + m) == p + ([c] + x) + m
  {
  }

  lemma InsertInsideRun(s: string, j: int, k: int)
    requires 0 <= j && 0 < k && j + k <= |s|
    requires AllWord(s[j..j + k])
    ensures InsertAtMatches(s, j + 1) == s[j + 1..j + k] + InsertAtMatches(s, j + k)
  {
    RunAbsolute(s, j, k);
    NoMatchInsideRun(s, j + 1, j + k);
  }

  lemma RunAbsolute(s: string, j: int, k: int)
    requires 0 <= j && 0 <= k && j + k <= |s|
    requires AllWord(s[j..j + k])
    ensures forall i :: j <= i < j + k ==> IsWordChar(s[i])
  {
    forall i | j <= i < j + k ensures IsWordChar(s[i]) {
      assert s[j..j + k][i - j] == s[i];
    }
  }

  lemma {:induction false} RewriteFrom(s: string, j: int)
    requires 0 <= j <= |s|
    requires j == 0 || j == |s| || !IsWordChar(s[j - 1]) || !IsWordChar(s[j])
    ensures RewriteOperators(s[j..]) == InsertAtMatches(s, j)
    decreases |s| - j
  {
    if j < |s| {
      if IsWordChar(s[j]) {
        var k := WordRun(s[j..]);
        RunEndAt(s, j);
        RewriteFrom(s, j + k);
        RewriteStepWord(s, j);
      } else {
        RewriteFrom(s, j + 1);
        RewriteStepOther(s, j);
      }
    }
  }

  /** `s[j..]` split at its leading word run, in positions of `s`. */
  lemma {:induction false} SplitAtRunFrom(s: string, j: int)
    requires 0 <= j < |s| && IsWordChar(s[j])
    ensures var k := WordRun(s[j..]);
      && 0 < k && j + k <= |s| && s[j..] == s[j..j + k] + s[j + k..]
      && AllWord(s[j..j + k]) && RunEnds(s[j + k..])
      && (j + k == |s| || !IsWordChar(s[j + k]))
  {
    var k := WordRun(s[j..]);
    SplitAtRun(s[j..]);
    assert s[j..][..k] == s[j..j + k] && s[j..][k..] == s[j + k..];
    if j + k < |s| {
      assert s[j..][k] == s[j + k];
    }
  }

  /** The word run at `j` ends at the end of `s` or before a non-word character. */
  lemma {:induction false} RunEndAt(s: string, j: int)
    requires 0 <= j < |s| && IsWordChar(s[j])
    ensures var k := WordRun(s[j..]);
      0 < k && j + k <= |s| && (j + k == |s| || !IsWordChar(s[j + k]))
  {
    SplitAtRunFrom(s, j);
  }

  lemma {:induction false} RewriteStepWord(s: string, j: int)
    requires 0 <= j < |s| && IsWordChar(s[j])
    requires j == 0 || !IsWordChar(s[j - 1])
    requires j + WordRun(s[j..]) <= |s|
    requires RewriteOperators(s[j + WordRun(s[j..])..]) == InsertAtMatches(s, j + WordRun(s[j..]))
    ensures RewriteOperators(s[j..]) == InsertAtMatches(s, j)
  {
    RewriteAtRun(s, j);
    InsertAtOperatorRun(s, j);
  }

  /** The rewrite of `s[j..]` over its leading word run. */
  lemma {:induction false} RewriteAtRun(s: string, j: int)
    requires 0 <= j < |s| && IsWordChar(s[j])
    ensures var k := WordRun(s[j..]); var w := s[j..j + k];
      j + k <= |s| &&
      RewriteOperators(s[j..]) == (if IsOperator(w) then "$" + w else w) + RewriteOperators(s[j + k..])
  {
    var k := WordRun(s[j..]);
    SplitAtRunFrom(s, j);
    RewriteWordStep(s[j..j + k], s[j + k..]);
  }

  /** Over a maximal word run the insertion puts a `$` in front exactly when the
      run spells an operator. */
  lemma {:induction false} InsertAtOperatorRun(s: string, j: int)
    requires 0 <= j < |s| && IsWordChar(s[j])
    requires j == 0 || !IsWordChar(s[j - 1])
    ensures var k := WordRun(s[j..]); var w := s[j..j + k];
      j + k <= |s| &&
      InsertAtMatches(s, j) == (if IsOperator(w) then "$" + w else w) + InsertAtMatches(s, j + k)
  {
    var k := WordRun(s[j..]);
    SplitAtRunFrom(s, j);
    MatchAtRunStart(s, j);
    InsertAtRunStart(s, j, k);
  }

  lemma {:induction false} RewriteStepOther(s: string, j: int)
    requires 0 <= j < |s| && !IsWordChar(s[j])
    requires RewriteOperators(s[j + 1..]) == InsertAtMatches(s, j + 1)
    ensures RewriteOperators(s[j..]) == InsertAtMatches(s, j)
  {
    NoMatchAtNonWord(s, j);
    InsertStep(s, j);
    assert s[j..] == [s[j]] + s[j + 1..];
    RewriteOtherStep(s[j], s[j + 1..]);
  }

  /** Every alternative starts with a word character, so none matches at a
      character that is not one. */
  lemma NoMatchAtNonWord(s: string, j: int)
    requires 0 <= j < |s| && !IsWordChar(s[j])
    ensures !MatchAt(s, j)
  {
    if j + 2 <= |s| { assert s[j..j + 2][0] == s[j]; }
    if j + 3 <= |s| { assert s[j..j + 3][0] == s[j]; }
  }

  lemma InsertStep(s: string, j: int)
    requires 0 <= j < |s|
    ensures InsertAtMatches(s, j) == (if MatchAt(s, j) then "$" else "") + [s[j]] + InsertAtMatches(s, j + 1)
  {
  }

  /** The run-by-run rewrite is the global replace of `/\b(gt|gte|lt|lte|in)\b/g`
      by `$` and the match: a `$` goes in exactly where the pattern matches and
      every character of the input is kept, in order. */
  lemma {:induction false} RewriteIsRegexReplace(s: string)
    ensures RewriteOperators(s) == InsertAtMatches(s, 0)
  {
    RewriteFrom(s, 0);
    assert s[0..] == s;
  }

  // ---------------------------------------------------------------------------
  // Undoing the rewrite

  /** Deletes every `$` that stands right before a maximal word run spelling an
      operator: the `$`s the rewrite inserted. */
  function RestoreOperators(r: string): string
    decreases |r|
  {
    if r == [] then []
    else if IsWordChar(r[0]) then
      var k := WordRun(r);
      r[..k] + RestoreOperators(r[k..])
    else if r[0] == '$' && IsOperator(r[1..][..WordRun(r[1..])]) then RestoreOperators(r[1..])
    else [r[0]] + RestoreOperators(r[1..])
  }

  /** After the rewrite, the leading word run never spells an operator. */
  lemma {:induction false} RewriteHeadNotOperator(t: string)
    ensures var q := RewriteOperators(t); !IsOperator(q[..WordRun(q)])
  {
    var q := RewriteOperators(t);
    if t != [] && IsWordChar(t[0]) {
      var k := WordRun(t);
      SplitAtRun(t);
      var w, rest := t[..k], t[k..];
      RewriteWordStep(w, rest);
      if IsOperator(w) {
        assert q[0] == '$';
      } else {
        var rr := RewriteOperators(rest);
        RewriteRunEnds(rest);
        WordRunOfConcat(w, rr);
        assert q == w + rr && q[..k] == w;
      }
    }
  }

  /** Deleting the inserted `$`s gives the input back. */
  lemma {:induction false} RestoreRewrite(s: string)
    ensures RestoreOperators(RewriteOperators(s)) == s
    decreases |s|
  {
    if s != [] {
      if IsWordChar(s[0]) {
        var k := WordRun(s);
        SplitAtRun(s);
        RestoreRewrite(s[k..]);
        RestoreStepWord(s[..k], s[k..]);
      } else {
        RestoreRewrite(s[1..]);
        RestoreStepOther(s);
      }
    }
  }

  lemma {:induction false} RestoreStepWord(w: string, rest: string)
    requires w != [] && AllWord(w) && RunEnds(rest)
    requires RestoreOperators(RewriteOperators(rest)) == rest
    ensures RestoreOperators(RewriteOperators(w + rest)) == w + rest
  {
    var rr := RewriteOperators(rest);
    RewriteWordShape(w, rest);
    RewriteRunEnds(rest);
    RestoreAfterWord(w, rr);
  }

  /** One word step of the rewrite, with the `$` split off in front. */
  lemma {:induction false} RewriteWordShape(w: string, rest: string)
    requires w != [] && AllWord(w) && RunEnds(rest)
    ensures RewriteOperators(w + rest) ==
      if IsOperator(w) then ['$'] + (w + RewriteOperators(rest)) else w + RewriteOperators(rest)
  {
    RewriteWordStep(w, rest);
    assert "$" + w + RewriteOperators(rest) == ['$'] + (w + RewriteOperators(rest));
  }

  lemma {:induction false} RestoreAfterWord(w: string, rr: string)
    requires w != [] && AllWord(w) && RunEnds(rr)
    ensures RestoreOperators(if IsOperator(w) then ['$'] + (w + rr) else w + rr) ==
      w + RestoreOperators(rr)
  {
    RestoreWordStep(w, rr);
    if IsOperator(w) {
      RestoreDollarStep(w, rr);
    }
  }

  lemma {:induction false} RestoreStepOther(s: string)
    requires s != [] && !IsWordChar(s[0])
    requires RestoreOperators(RewriteOperators(s[1..])) == s[1..]
    ensures RestoreOperators(RewriteOperators(s)) == s
  {
    var rr := RewriteOperators(s[1..]);
    assert s == [s[0]] + s[1..];
    RewriteOtherStep(s[0], s[1..]);
    RewriteHeadNotOperator(s[1..]);
    RestoreOtherStep(s[0], rr);
  }

  // ---------------------------------------------------------------------------
  // Counting the inserted operators

  /** The number of maximal word runs of `s` that spell an operator. */
  function OperatorCount(s: string): nat
    decreases |s|
  {
    if s == [] then 0
    else if IsWordChar(s[0]) then
      var k := WordRun(s);
      (if IsOperator(s[..k]) then 1 else 0) + OperatorCount(s[k..])
    else OperatorCount(s[1..])
  }

  /** The rewrite adds exactly one character per operator word. */
  lemma {:induction false} RewriteLength(s: string)
    ensures |RewriteOperators(s)| == |s| + OperatorCount(s)
    decreases |s|
  {
    if s != [] {
      if IsWordChar(s[0]) {
        var k := WordRun(s);
        SplitAtRun(s);
        RewriteLength(s[k..]);
        RewriteWordStep(s[..k], s[k..]);
        CountWordStep(s[..k], s[k..]);
      } else {
        RewriteLength(s[1..]);
        assert s == [s[0]] + s[1..];
        RewriteOtherStep(s[0], s[1..]);
        CountOtherStep(s[0], s[1..]);
      }
    }
  }

  /** The rewrite keeps every word run, so the output has as many operator words
      as the input. */
  lemma {:induction false} RewriteKeepsOperatorCount(s: string)
    ensures OperatorCount(RewriteOperators(s)) == OperatorCount(s)
    decreases |s|
  {
    if s != [] {
      if IsWordChar(s[0]) {
        var k := WordRun(s);
        SplitAtRun(s);
        RewriteKeepsOperatorCount(s[k..]);
        CountAfterWordStep(s[..k], s[k..]);
      } else {
        RewriteKeepsOperatorCount(s[1..]);
        assert s == [s[0]] + s[1..];
        RewriteOtherStep(s[0], s[1..]);
        CountOtherStep(s[0], s[1..]);
        CountOtherStep(s[0], RewriteOperators(s[1..]));
      }
    }
  }

  lemma {:induction false} CountAfterWordStep(w: string, rest: string)
    requires w != [] && AllWord(w) && RunEnds(rest)
    requires OperatorCount(RewriteOperators(rest)) == OperatorCount(rest)
    ensures OperatorCount(RewriteOperators(w + rest)) == OperatorCount(w + rest)
  {
    var rr := RewriteOperators(rest);
    RewriteWordShape(w, rest);
    RewriteRunEnds(rest);
    CountAfterWord(w, rr);
    CountWordStep(w, rest);
  }

  lemma {:induction false} CountAfterWord(w: string, rr: string)
    requires w != [] && AllWord(w) && RunEnds(rr)
    ensures OperatorCount(if IsOperator(w) then ['$'] + (w + rr) else w + rr) ==
      (if IsOperator(w) then 1 else 0) + OperatorCount(rr)
  {
    CountWordStep(w, rr);
    if IsOperator(w) {
      CountOtherStep('$', w + rr);
    }
  }

  /** A text without operator words is left as it is. */
  lemma {:induction false} RewriteWithoutOperators(s: string)
    requires OperatorCount(s) == 0
    ensures RewriteOperators(s) == s
    decreases |s|
  {
    if s != [] {
      if IsWordChar(s[0]) {
        var k := WordRun(s);
        SplitAtRun(s);
        CountWordStep(s[..k], s[k..]);
        RewriteWithoutOperators(s[k..]);
        RewriteWordStep(s[..k], s[k..]);
      } else {
        assert s == [s[0]] + s[1..];
        CountOtherStep(s[0], s[1..]);
        RewriteWithoutOperators(s[1..]);
        RewriteOtherStep(s[0], s[1..]);
      }
    }
  }

  /** The rewrite is idempotent exactly on texts without operator words: applied
      twice it prefixes each operator with `$$` (`$gt` becomes `$$gt`). */
  lemma {:induction false} RewriteIdempotentIff(s: string)
    ensures RewriteOperators(RewriteOperators(s)) == RewriteOperators(s) <==> OperatorCount(s) == 0
  {
    var r := RewriteOperators(s);
    RewriteLength(s);
    RewriteLength(r);
    RewriteKeepsOperatorCount(s);
    if OperatorCount(s) == 0 {
      RewriteWithoutOperators(s);
    }
  }

  /** The concrete instance: `gt` becomes `$gt`, which becomes `$$gt`. */
  lemma {:induction false} RewriteNotIdempotent()
    ensures RewriteOperators("gt") == "$gt"
    ensures RewriteOperators("$gt") == "$$gt"
  {
    RewriteWordStep("gt", []);
    assert "gt" + [] == "gt";
    RewriteOtherStep('$', "gt");
    assert ['$'] + "gt" == "$gt";
  }
}
