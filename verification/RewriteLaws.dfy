/**
 Laws of the dotted-path rewrite: it touches nothing but matched paths, it never
 shortens a text, it is idempotent, and it works part by part wherever a text can
 be cut at a character that is neither a word character nor a dot.
 */
module RewriteLaws {
  import opened Rewrite
  import opened Text

  // ---------------------------------------------------------------- only matched paths change

  /** A character copied as it is, or a matched path. */
  datatype Piece = Copied(c: char) | Path(matched: string)

  function Source(pieces: seq<Piece>): string {
    if pieces == [] then ""
    else (match pieces[0] case Copied(c) => [c] case Path(m) => m) + Source(pieces[1..])
  }

  function Rewritten(pieces: seq<Piece>): string {
    if pieces == [] then ""
    else (match pieces[0] case Copied(c) => [c] case Path(m) => Replacement(m)) + Rewritten(pieces[1..])
  }

  /**
   `pieces` cut `s` the way `re.sub` does: a path piece is the longest match of
   the regular expression where it stands, and a character is copied only where
   the expression matches nothing at all.
   */
  ghost predicate LeftmostLongest(wide: Wide, prev: bool, s: string, pieces: seq<Piece>)
    decreases |pieces|
  {
    if pieces == [] then s == []
    else
      match pieces[0]
      case Copied(c) =>
        s != [] && s[0] == c && (forall n: nat :: !Matches(wide, prev, s, n)) &&
        LeftmostLongest(wide, IsWord(wide, c), s[1..], pieces[1..])
      case Path(m) =>
        m != [] && HasPrefix(s, m) && Matches(wide, prev, s, |m|) &&
        (forall n: nat :: Matches(wide, prev, s, n) ==> n <= |m|) &&
        LeftmostLongest(wide, true, s[|m|..], pieces[1..])
  }

  /** The cut the scan makes. */
  function Cut(wide: Wide, prev: bool, s: string): seq<Piece>
    decreases |s|
  {
    if s == [] then []
    else
      var n := MatchLen(wide, prev, s);
      if n == 0 then [Copied(s[0])] + Cut(wide, IsWord(wide, s[0]), s[1..])
      else [Path(s[..n])] + Cut(wide, true, s[n..])
  }

  lemma {:induction false} CutIsLeftmostLongest(wide: Wide, prev: bool, s: string)
    ensures LeftmostLongest(wide, prev, s, Cut(wide, prev, s))
    decreases |s|
  {
    if s != [] {
      var n := MatchLen(wide, prev, s);
      MatchLenIsTheMatch(wide, prev, s);
      if n == 0 {
        CutIsLeftmostLongest(wide, IsWord(wide, s[0]), s[1..]);
        InFront(Copied(s[0]), Cut(wide, IsWord(wide, s[0]), s[1..]));
      } else {
        CutIsLeftmostLongest(wide, true, s[n..]);
        InFront(Path(s[..n]), Cut(wide, true, s[n..]));
      }
    }
  }

  lemma InFront(piece: Piece, rest: seq<Piece>)
    ensures ([piece] + rest)[0] == piece && ([piece] + rest)[1..] == rest
  {
  }

  lemma {:induction false} CutSource(wide: Wide, prev: bool, s: string)
    ensures Source(Cut(wide, prev, s)) == s
    decreases |s|
  {
    if s != [] {
      var n := MatchLen(wide, prev, s);
      if n == 0 {
        InFront(Copied(s[0]), Cut(wide, IsWord(wide, s[0]), s[1..]));
        CutSource(wide, IsWord(wide, s[0]), s[1..]);
        HeadAndTail(s);
      } else {
        InFront(Path(s[..n]), Cut(wide, true, s[n..]));
        CutSource(wide, true, s[n..]);
        TakeAndDrop(s, n);
      }
    }
  }

  lemma {:induction false} CutRewritten(wide: Wide, prev: bool, s: string)
    ensures Rewritten(Cut(wide, prev, s)) == RewriteFrom(wide, prev, s)
    decreases |s|
  {
    if s != [] {
      var n := MatchLen(wide, prev, s);
      if n == 0 {
        InFront(Copied(s[0]), Cut(wide, IsWord(wide, s[0]), s[1..]));
        CutRewritten(wide, IsWord(wide, s[0]), s[1..]);
      } else {
        InFront(Path(s[..n]), Cut(wide, true, s[n..]));
        CutRewritten(wide, true, s[n..]);
      }
    }
  }

  /** For every text: the rewrite replaces its leftmost-longest paths and copies every other character. */
  lemma OnlyPathsChange(wide: Wide, expr: string) returns (pieces: seq<Piece>)
    ensures LeftmostLongest(wide, false, expr, pieces)
    ensures Source(pieces) == expr && Rewritten(pieces) == RewriteDottedPaths(wide, expr)
  {
    pieces := Cut(wide, false, expr);
    CutIsLeftmostLongest(wide, false, expr);
    CutSource(wide, false, expr);
    CutRewritten(wide, false, expr);
  }

  // ---------------------------------------------------------------- the shape of a replacement

  /** A text made of groups only. */
  predicate FullGroups(g: string)
    decreases |g|
  {
    g == [] || (StartsGroup(g) && FullGroups(g[GroupLen(g)..]))
  }

  function BracketGroups(g: string): string
    decreases |g|
  {
    if !StartsGroup(g) then ""
    else Bracket(g[1..GroupLen(g)]) + BracketGroups(g[GroupLen(g)..])
  }

  lemma {:induction false} IdentRunOfTake(s: string, n: nat)
    requires IdentRun(s) <= n <= |s|
    ensures IdentRun(s[..n]) == IdentRun(s)
    decreases |s|
  {
    if s != [] && IsIdent(s[0]) {
      assert s[..n][1..] == s[1..][..n - 1];
      IdentRunOfTake(s[1..], n - 1);
    }
  }

  lemma GroupLenOfTake(s: string, n: nat)
    requires StartsGroup(s) && GroupLen(s) <= n <= |s|
    ensures StartsGroup(s[..n]) && GroupLen(s[..n]) == GroupLen(s)
  {
    assert s[..n][1..] == s[1..][..n - 1];
    IdentRunOfTake(s[1..], n - 1);
  }

  lemma {:induction false} GroupsLenIsFull(wide: Wide, s: string)
    ensures FullGroups(s[..GroupsLen(wide, s)])
    decreases |s|
  {
    var n := GroupsLen(wide, s);
    if n > 0 {
      var m := GroupLen(s);
      GroupLenOfTake(s, n);
      GroupsLenIsFull(wide, s[m..]);
      assert s[..n][m..] == s[m..][..n - m];
    }
  }

  lemma {:induction false} SplitRun(a: string, s: string, sep: char)
    requires sep !in a
    ensures Split(a + s, sep) == [a + Split(s, sep)[0]] + Split(s, sep)[1..]
    decreases |a|
  {
    if a == [] {
      assert a + s == s && a + Split(s, sep)[0] == Split(s, sep)[0];
      assert [Split(s, sep)[0]] + Split(s, sep)[1..] == Split(s, sep);
    } else {
      assert (a + s)[0] == a[0] && (a + s)[1..] == a[1..] + s;
      SplitRun(a[1..], s, sep);
      assert a + Split(s, sep)[0] == [a[0]] + (a[1..] + Split(s, sep)[0]);
    }
  }

  lemma {:induction false} BracketsOfGroups(g: string)
    requires FullGroups(g)
    ensures Brackets(NonEmpty(Split(g, '.'))) == BracketGroups(g)
    decreases |g|
  {
    if g != [] {
      var n := GroupLen(g);
      var ident, rest := g[1..n], g[n..];
      assert '.' !in ident by {
        assert forall i :: 0 <= i < |ident| ==> ident[i] == g[1..][i];
      }
      assert g[1..] == ident + rest;
      SplitRun(ident, rest, '.');
      assert Split(rest, '.')[0] == [];
      assert ident + [] == ident;
      BracketsOfGroups(rest);
      FirstSegment(ident, Split(rest, '.'));
    }
  }

  lemma FirstSegment(ident: string, rest: seq<string>)
    requires ident != [] && rest != [] && rest[0] == []
    ensures NonEmpty([[]] + ([ident] + rest[1..])) == [ident] + NonEmpty(rest)
  {
    var tail := [ident] + rest[1..];
    var all: seq<string> := [[]] + tail;
    assert all[1..] == tail;
    assert tail[1..] == rest[1..];
    assert NonEmpty(all) == [] + NonEmpty(tail) == NonEmpty(tail);
    assert NonEmpty(rest) == [] + NonEmpty(rest[1..]) == NonEmpty(rest[1..]);
  }

  lemma MatchedGroups(wide: Wide, s: string)
    requires MatchLen(wide, false, s) > 0
    ensures var n, root := MatchLen(wide, false, s), RootLen(s);
            0 < root < n && FullGroups(s[root..n]) && s[root..n] != [] && EndsWord(wide, s, n)
  {
    var n, root := MatchLen(wide, false, s), RootLen(s);
    GroupsLenIsFull(wide, s[root..]);
    GroupsLenIsGroups(wide, s[root..]);
    SliceOfDrop(s, root, n);
  }

  lemma MatchedParts(wide: Wide, s: string)
    requires MatchLen(wide, false, s) > 0
    ensures var n, root := MatchLen(wide, false, s), RootLen(s);
            && 0 < root < n && RootLen(s[..n]) == root && FullGroups(s[root..n]) && s[root..n] != []
            && Replacement(s[..n]) == s[..root] + BracketGroups(s[root..n])
            && EndsWord(wide, s, n)
  {
    var n, root := MatchLen(wide, false, s), RootLen(s);
    MatchedGroups(wide, s);
    assert s[..n][..root] == s[..root];
    RootLenIsRoot(s[..n], root);
    DropOfTake(s, root, n);
    BracketsOfGroups(s[root..n]);
  }

  // ---------------------------------------------------------------- texts never shrink

  lemma {:induction false} BracketsAreLonger(g: string)
    requires FullGroups(g)
    ensures |BracketGroups(g)| >= |g| && (g != [] ==> |BracketGroups(g)| > |g|)
    decreases |g|
  {
    if g != [] {
      BracketsAreLonger(g[GroupLen(g)..]);
    }
  }

  /** One step of the scan. */
  lemma ScanStep(wide: Wide, prev: bool, s: string)
    requires s != []
    ensures var n := MatchLen(wide, prev, s);
            if n == 0 then RewriteFrom(wide, prev, s) == [s[0]] + RewriteFrom(wide, IsWord(wide, s[0]), s[1..])
            else |RewriteFrom(wide, prev, s)| > n + |RewriteFrom(wide, true, s[n..])|
  {
    if MatchLen(wide, prev, s) > 0 {
      ReplacementIsLonger(wide, s);
    }
  }

  /** A rewrite is never shorter than its source. */
  lemma {:induction false} RewriteGrows(wide: Wide, prev: bool, s: string)
    ensures |RewriteFrom(wide, prev, s)| >= |s|
    decreases |s|
  {
    if s != [] {
      ScanStep(wide, prev, s);
      var n := MatchLen(wide, prev, s);
      if n == 0 {
        RewriteGrows(wide, IsWord(wide, s[0]), s[1..]);
      } else {
        RewriteGrows(wide, true, s[n..]);
      }
    }
  }

  /** It is as long as its source only when nothing was replaced. */
  lemma {:induction false} SameLengthIsSameText(wide: Wide, prev: bool, s: string)
    requires |RewriteFrom(wide, prev, s)| == |s|
    ensures RewriteFrom(wide, prev, s) == s
    decreases |s|
  {
    if s != [] {
      ScanStep(wide, prev, s);
      var n := MatchLen(wide, prev, s);
      if n == 0 {
        SameLengthIsSameText(wide, IsWord(wide, s[0]), s[1..]);
        HeadAndTail(s);
      } else {
        RewriteGrows(wide, true, s[n..]);
      }
    }
  }

  lemma ReplacementIsLonger(wide: Wide, s: string)
    requires MatchLen(wide, false, s) > 0
    ensures |Replacement(s[..MatchLen(wide, false, s)])| > MatchLen(wide, false, s)
  {
    MatchedParts(wide, s);
    BracketsAreLonger(s[RootLen(s)..MatchLen(wide, false, s)]);
  }

  // ---------------------------------------------------------------- cutting a text

  /** Neither a word character nor a dot. */
  predicate IsCut(wide: Wide, c: char) {
    !IsWord(wide, c) && c != '.'
  }

  /** The seam between `a` and `b` lies next to a cut, or at an end. */
  predicate Seam(wide: Wide, a: string, b: string) {
    a == [] || b == [] || IsCut(wide, b[0]) || IsCut(wide, a[|a| - 1])
  }

  lemma {:induction false} IdentRunSeam(wide: Wide, a: string, b: string)
    requires Seam(wide, a, b) && a != []
    ensures IdentRun(a + b) == IdentRun(a)
    decreases |a|
  {
    assert (a + b)[0] == a[0] && (a + b)[1..] == a[1..] + b;
    if IsIdent(a[0]) {
      if |a| == 1 {
        assert a[1..] + b == b;
      } else {
        IdentRunSeam(wide, a[1..], b);
      }
    }
  }

  lemma GroupLenSeam(wide: Wide, a: string, b: string)
    requires Seam(wide, a, b) && a != []
    ensures StartsGroup(a + b) <==> StartsGroup(a)
    ensures StartsGroup(a) ==> GroupLen(a + b) == GroupLen(a)
  {
    if |a| >= 2 {
      assert (a + b)[1..] == a[1..] + b;
      IdentRunSeam(wide, a[1..], b);
    }
  }

  lemma {:induction false} GroupsLenSeam(wide: Wide, a: string, b: string)
    requires Seam(wide, a, b) && a != []
    ensures GroupsLen(wide, a + b) == GroupsLen(wide, a)
    decreases |a|
  {
    GroupLenSeam(wide, a, b);
    if StartsGroup(a) {
      var n := GroupLen(a);
      assert (a + b)[n..] == a[n..] + b;
      if n == |a| {
        assert IsIdent(a[|a| - 1]) by {
          assert a[|a| - 1] == a[1..][|a| - 2];
        }
        assert a[n..] + b == b;
      } else {
        GroupsLenSeam(wide, a[n..], b);
      }
    }
  }

  lemma RootLenSeam(wide: Wide, a: string, b: string)
    requires Seam(wide, a, b) && a != []
    ensures RootLen(a + b) == RootLen(a)
  {
    PrefixSeam(wide, a, b, PARAMS);
    PrefixSeam(wide, a, b, RESULTS);
  }

  lemma PrefixSeam(wide: Wide, a: string, b: string, p: string)
    requires Seam(wide, a, b) && a != [] && forall i :: 0 <= i < |p| ==> IsIdent(p[i])
    ensures HasPrefix(a + b, p) <==> HasPrefix(a, p)
  {
    assert (a + b)[|a| - 1] == a[|a| - 1];
    assert b != [] ==> (a + b)[|a|] == b[0];
    forall i | 0 <= i < |p| && HasPrefix(a + b, p)
      ensures (a + b)[i] == p[i]
    {
      assert (a + b)[..|p|][i] == (a + b)[i];
    }
    if |p| <= |a| {
      assert (a + b)[..|p|] == a[..|p|];
    }
  }

  lemma MatchLenSeam(wide: Wide, prev: bool, a: string, b: string)
    requires Seam(wide, a, b) && a != []
    ensures MatchLen(wide, prev, a + b) == MatchLen(wide, prev, a)
  {
    RootLenSeam(wide, a, b);
    if RootLen(a) > 0 {
      GroupsBehindRoot(wide, a, b);
    }
  }

  lemma RootEndsInIdent(a: string)
    requires RootLen(a) == |a| > 0
    ensures IsIdent(a[|a| - 1])
  {
    RootLenGivesRoot(a);
    assert a[..|a|] == a;
  }

  /** Across the seam a root is followed by as many groups as before. */
  lemma GroupsBehindRoot(wide: Wide, a: string, b: string)
    requires Seam(wide, a, b) && RootLen(a) > 0
    ensures GroupsLen(wide, (a + b)[RootLen(a)..]) == GroupsLen(wide, a[RootLen(a)..])
  {
    var root := RootLen(a);
    assert (a + b)[root..] == a[root..] + b;
    if root == |a| {
      RootEndsInIdent(a);
      assert a[root..] + b == b;
    } else {
      GroupsLenSeam(wide, a[root..], b);
    }
  }

  /** Whether a word character precedes what follows `a`. */
  function WordBefore(wide: Wide, prev: bool, a: string): bool {
    if a == [] then prev else IsWord(wide, a[|a| - 1])
  }

  lemma MatchEndsInWord(wide: Wide, s: string)
    requires MatchLen(wide, false, s) > 0
    ensures IsIdent(s[MatchLen(wide, false, s) - 1])
  {
    MatchedGroups(wide, s);
    var n, root := MatchLen(wide, false, s), RootLen(s);
    FullGroupsEndInWord(s[root..n]);
    LastOfSlice(s, root, n);
  }

  lemma LastOfSlice(s: string, from: nat, to: nat)
    requires from < to <= |s|
    ensures |s[from..to]| == to - from && s[from..to][to - from - 1] == s[to - 1]
  {
  }

  lemma {:induction false} FullGroupsEndInWord(g: string)
    requires FullGroups(g) && g != []
    ensures IsIdent(g[|g| - 1])
    decreases |g|
  {
    var n := GroupLen(g);
    if n == |g| {
      assert g[|g| - 1] == g[1..][|g| - 2];
    } else {
      FullGroupsEndInWord(g[n..]);
    }
  }

  /** At a seam the rewrite works part by part. */
  lemma {:induction false} RewriteSeam(wide: Wide, prev: bool, a: string, b: string)
    requires Seam(wide, a, b)
    ensures RewriteFrom(wide, prev, a + b) ==
            RewriteFrom(wide, prev, a) + RewriteFrom(wide, WordBefore(wide, prev, a), b)
    decreases |a|
  {
    if a == [] {
      assert a + b == b;
    } else {
      MatchLenSeam(wide, prev, a, b);
      var n := MatchLen(wide, prev, a);
      if n == 0 {
        CopyStep(wide, prev, a, b);
        RewriteSeam(wide, IsWord(wide, a[0]), a[1..], b);
        Associate([a[0]], RewriteFrom(wide, IsWord(wide, a[0]), a[1..]),
                  RewriteFrom(wide, WordBefore(wide, prev, a), b));
      } else {
        PathStep(wide, a, b, n);
        MatchEndsInWord(wide, a);
        RewriteSeam(wide, true, a[n..], b);
        Associate(Replacement(a[..n]), RewriteFrom(wide, true, a[n..]),
                  RewriteFrom(wide, WordBefore(wide, prev, a), b));
      }
    }
  }

  lemma CopyStep(wide: Wide, prev: bool, a: string, b: string)
    requires a != [] && MatchLen(wide, prev, a + b) == 0
    ensures RewriteFrom(wide, prev, a + b) == [a[0]] + RewriteFrom(wide, IsWord(wide, a[0]), a[1..] + b)
    ensures WordBefore(wide, IsWord(wide, a[0]), a[1..]) == WordBefore(wide, prev, a)
  {
    assert (a + b)[0] == a[0] && (a + b)[1..] == a[1..] + b;
  }

  lemma PathStep(wide: Wide, a: string, b: string, n: nat)
    requires 0 < n <= |a| && MatchLen(wide, false, a + b) == n
    ensures RewriteFrom(wide, false, a + b) == Replacement(a[..n]) + RewriteFrom(wide, true, a[n..] + b)
    ensures IsIdent(a[n - 1]) ==> WordBefore(wide, true, a[n..]) == WordBefore(wide, false, a)
  {
    CutInFirst(a, b, n);
    if n < |a| {
      assert a[n..][|a| - n - 1] == a[|a| - 1];
    }
  }

  // ---------------------------------------------------------------- when nothing is rewritten

  /** The regular expression matches nowhere in `s`, wherever a search starts and however far it reaches. */
  ghost predicate NoPath(wide: Wide, prev: bool, s: string) {
    forall i, n: nat :: 0 <= i <= |s| ==> !Matches(wide, WordBefore(wide, prev, s[..i]), s[i..], n)
  }

  lemma TailPosition(wide: Wide, prev: bool, s: string, i: nat)
    requires 0 < i <= |s|
    ensures s[i..] == s[1..][i - 1..]
    ensures WordBefore(wide, prev, s[..i]) == WordBefore(wide, IsWord(wide, s[0]), s[1..][..i - 1])
  {
    assert i > 1 ==> s[1..][..i - 1][i - 2] == s[..i][i - 1];
  }

  lemma NoPathInTail(wide: Wide, prev: bool, s: string)
    requires s != [] && NoPath(wide, prev, s)
    ensures NoPath(wide, IsWord(wide, s[0]), s[1..])
  {
    var tail, word := s[1..], IsWord(wide, s[0]);
    forall i, n: nat | 0 <= i <= |tail|
      ensures !Matches(wide, WordBefore(wide, word, tail[..i]), tail[i..], n)
    {
      TailPosition(wide, prev, s, i + 1);
      assert !Matches(wide, WordBefore(wide, prev, s[..i + 1]), s[i + 1..], n);
    }
  }

  lemma NoPathAtFront(wide: Wide, prev: bool, s: string)
    requires NoPath(wide, prev, s)
    ensures forall n: nat :: !Matches(wide, prev, s, n)
  {
    assert s[..0] == [] && s[0..] == s;
    forall n: nat
      ensures !Matches(wide, prev, s, n)
    {
      assert !Matches(wide, WordBefore(wide, prev, s[..0]), s[0..], n);
    }
  }

  lemma NoPathFromTail(wide: Wide, prev: bool, s: string)
    requires s != [] && (forall n: nat :: !Matches(wide, prev, s, n)) && NoPath(wide, IsWord(wide, s[0]), s[1..])
    ensures NoPath(wide, prev, s)
  {
    var tail, word := s[1..], IsWord(wide, s[0]);
    forall i, n: nat | 0 <= i <= |s|
      ensures !Matches(wide, WordBefore(wide, prev, s[..i]), s[i..], n)
    {
      if i == 0 {
        assert s[..0] == [] && s[0..] == s;
      } else {
        TailPosition(wide, prev, s, i);
        assert !Matches(wide, WordBefore(wide, word, tail[..i - 1]), tail[i - 1..], n);
      }
    }
  }

  /** The rewrite leaves a text alone if and only if the regular expression matches nowhere in it. */
  lemma {:induction false} UnchangedIffNoPath(wide: Wide, prev: bool, s: string)
    ensures RewriteFrom(wide, prev, s) == s <==> NoPath(wide, prev, s)
    decreases |s|
  {
    if s == [] {
      forall n: nat
        ensures !Matches(wide, prev, s, n)
      {
        MatchLenIsTheMatch(wide, prev, s);
      }
      assert forall i :: 0 <= i <= |s| ==> s[..i] == [] && s[i..] == s;
    } else {
      var n := MatchLen(wide, prev, s);
      ScanStep(wide, prev, s);
      MatchLenIsTheMatch(wide, prev, s);
      if n > 0 {
        RewriteGrows(wide, true, s[n..]);
        if NoPath(wide, prev, s) {
          NoPathAtFront(wide, prev, s);
        }
      } else {
        UnchangedIffNoPath(wide, IsWord(wide, s[0]), s[1..]);
        HeadAndTail(s);
        if NoPath(wide, prev, s) {
          NoPathInTail(wide, prev, s);
        } else if NoPath(wide, IsWord(wide, s[0]), s[1..]) {
          NoPathFromTail(wide, prev, s);
        }
      }
    }
  }

  // ---------------------------------------------------------------- idempotence

  lemma {:induction false} NoDotsNoChange(wide: Wide, prev: bool, s: string)
    requires '.' !in s
    ensures RewriteFrom(wide, prev, s) == s
    decreases |s|
  {
    if s != [] {
      var root := RootLen(s);
      assert root < |s| ==> s[root..][0] == s[root];
      NoDotsNoChange(wide, IsWord(wide, s[0]), s[1..]);
      assert s == [s[0]] + s[1..];
    }
  }

  lemma {:induction false} BracketGroupsShape(g: string)
    requires FullGroups(g) && g != []
    ensures var b := BracketGroups(g); b != [] && '.' !in b && b[|b| - 1] == ']'
    decreases |g|
  {
    var n := GroupLen(g);
    assert '.' !in g[1..n] by {
      assert forall i :: 0 <= i < n - 1 ==> g[1..n][i] == g[1..][i];
    }
    if n < |g| {
      BracketGroupsShape(g[n..]);
    } else {
      assert BracketGroups(g[n..]) == "";
    }
  }

  /** A root lies within the identifier run it starts. */
  lemma RootIsInRun(s: string)
    ensures RootLen(s) <= IdentRun(s)
    ensures RootLen(s) > 0 ==> s[0] == 'p' || s[0] == 'r'
  {
    RootLenGivesRoot(s);
    var root := RootLen(s);
    assert forall i :: 0 <= i < root ==> s[..root][i] == s[i];
    RunOfIdents(s, root);
  }

  lemma BracketedIsInert(wide: Wide, root: string, groups: string)
    requires '.' !in root && FullGroups(groups) && groups != []
    ensures var r := root + BracketGroups(groups);
            r != [] && IsCut(wide, r[|r| - 1]) && RewriteFrom(wide, false, r) == r
  {
    BracketGroupsShape(groups);
    InertAppend(wide, root, BracketGroups(groups));
  }

  /** A replacement is left alone by another rewrite, and ends in a cut. */
  lemma ReplacementIsInert(wide: Wide, s: string)
    requires MatchLen(wide, false, s) > 0
    ensures var r := Replacement(s[..MatchLen(wide, false, s)]);
            r != [] && IsCut(wide, r[|r| - 1]) && RewriteFrom(wide, false, r) == r
  {
    var n, root := MatchLen(wide, false, s), RootLen(s);
    MatchedParts(wide, s);
    RootHasNoDot(s);
    BracketedIsInert(wide, s[..root], s[root..n]);
  }

  lemma RootHasNoDot(s: string)
    ensures '.' !in s[..RootLen(s)]
  {
    RootIsInRun(s);
    assert forall i :: 0 <= i < RootLen(s) ==> s[..RootLen(s)][i] == s[i];
  }

  lemma InertAppend(wide: Wide, a: string, b: string)
    requires '.' !in a && '.' !in b && b != [] && IsCut(wide, b[|b| - 1])
    ensures a + b != [] && IsCut(wide, (a + b)[|a + b| - 1]) && RewriteFrom(wide, false, a + b) == a + b
  {
    assert (a + b)[|a + b| - 1] == b[|b| - 1];
    NoDotsNoChange(wide, false, a + b);
  }

  /** Up to and including the first character outside identifiers, a rewrite that starts without a match copies. */
  lemma {:induction false} RunIsCopied(wide: Wide, prev: bool, s: string)
    requires MatchLen(wide, prev, s) == 0 && IdentRun(s) > 0
    ensures var r := IdentRun(s);
            RewriteFrom(wide, prev, s) == s[..r] + RewriteFrom(wide, true, s[r..])
    decreases |s|
  {
    var r := IdentRun(s);
    if r == 1 {
      assert s[..1] == [s[0]];
    } else {
      RunIsCopied(wide, true, s[1..]);
      assert s[..r] == [s[0]] + s[1..][..r - 1];
      assert s[r..] == s[1..][r - 1..];
      Associate([s[0]], s[1..][..r - 1], RewriteFrom(wide, true, s[r..]));
    }
  }

  /** The identifier run at the front of a text, and what follows it. */
  lemma IdentRunOf(a: string, b: string)
    requires (forall i :: 0 <= i < |a| ==> IsIdent(a[i])) && (b == [] || !IsIdent(b[0]))
    ensures IdentRun(a + b) == |a|
  {
    var s := a + b;
    assert forall i :: 0 <= i < |a| ==> s[i] == a[i];
    RunOfIdents(s, |a|);
    assert b != [] ==> s[|a|] == b[0];
  }

  lemma FirstCopied(wide: Wide, prev: bool, s: string)
    requires s != [] && MatchLen(wide, prev, s) == 0
    ensures var out := RewriteFrom(wide, prev, s); out != [] && out[0] == s[0]
    ensures RewriteFrom(wide, prev, s)[1..] == RewriteFrom(wide, IsWord(wide, s[0]), s[1..])
  {
  }

  /** What follows a root and matches no groups matches none after the rewrite either. */
  lemma NoNewGroups(wide: Wide, s: string)
    requires s != [] && GroupsLen(wide, s) == 0
    ensures GroupsLen(wide, RewriteFrom(wide, true, s)) == 0
  {
    var out := RewriteFrom(wide, true, s);
    FirstCopied(wide, true, s);
    if s[0] == '.' && |s| > 1 {
      var t := s[1..];
      if IsIdentStart(s[1]) {
        UnfinishedGroup(wide, s);
      } else {
        RootIsInRun(t);
        assert t[0] == s[1];
        FirstCopied(wide, false, t);
        assert out[1] == out[1..][0] == t[0];
      }
    }
  }

  /** A dot, an identifier and a wide word character: no boundary, so no group. */
  lemma NoGroupBeforeWide(wide: Wide, run: string, tail: string)
    requires run != [] && IsIdentStart(run[0]) && (forall i :: 0 <= i < |run| ==> IsIdent(run[i]))
    requires tail != [] && IsWord(wide, tail[0]) && !IsIdent(tail[0])
    ensures GroupsLen(wide, ['.'] + (run + tail)) == 0
  {
    var x := ['.'] + (run + tail);
    IdentRunOf(run, tail);
    TakeDropAppend(['.'], run + tail);
    TakeDropAppend(['.'] + run, tail);
    Associate(['.'], run, tail);
    assert x[1] == run[0];
    assert GroupLen(x) == 1 + |run| && x[1 + |run|..] == tail;
    assert x[1 + |run|] == tail[0];
  }

  lemma NoGroupsInRun(wide: Wide, t: string, root: nat)
    requires root <= IdentRun(t) < |t| && t[IdentRun(t)] != '.'
    ensures GroupsLen(wide, t[root..]) == 0
  {
    DropHead(t, root);
    NoDotNoGroups(wide, t[root..]);
  }

  lemma DropHead(s: string, n: nat)
    requires n < |s|
    ensures s[n..] != [] && s[n..][0] == s[n]
  {
  }

  lemma NoDotNoGroups(wide: Wide, s: string)
    requires s == [] || s[0] != '.'
    ensures GroupsLen(wide, s) == 0
  {
  }

  lemma RunBeforeWideHasNoMatch(wide: Wide, t: string)
    requires IdentRun(t) < |t| && t[IdentRun(t)] != '.'
    ensures MatchLen(wide, false, t) == 0
  {
    RootIsInRun(t);
    NoGroupsInRun(wide, t, RootLen(t));
  }

  /** A single group that a wide word character follows: the rewrite copies it whole. */
  lemma UnfinishedGroup(wide: Wide, s: string)
    requires StartsGroup(s) && GroupsLen(wide, s) == 0
    ensures GroupsLen(wide, RewriteFrom(wide, true, s)) == 0
  {
    var t := s[1..];
    var r := IdentRun(t);
    WideAfterGroup(wide, s);
    RunBeforeWideHasNoMatch(wide, t);
    RunIsCopied(wide, false, t);
    FirstCopied(wide, true, t[r..]);
    FirstCopied(wide, true, s);
    NoGroupBeforeWide(wide, t[..r], RewriteFrom(wide, true, t[r..]));
  }

  lemma WideAfterGroup(wide: Wide, s: string)
    requires StartsGroup(s) && GroupsLen(wide, s) == 0
    ensures var t := s[1..]; var r := IdentRun(t);
            0 < r < |t| && IsWord(wide, t[r]) && !IsIdent(t[r]) && t[..r][0] == s[1]
  {
    var n := GroupLen(s);
    assert !EndsWord(wide, s, n);
    assert s[1..][n - 1] == s[n];
  }

  /** Where the source matches nothing, the rewritten text matches nothing. */
  lemma NoNewMatch(wide: Wide, prev: bool, s: string)
    requires s != [] && MatchLen(wide, prev, s) == 0
    ensures MatchLen(wide, prev, RewriteFrom(wide, prev, s)) == 0
  {
    var out := RewriteFrom(wide, prev, s);
    FirstCopied(wide, prev, s);
    var r := IdentRun(s);
    if r == 0 {
      RootIsInRun(out);
    } else if !prev {
      RunIsCopied(wide, prev, s);
      var rest := s[r..];
      var tail := RewriteFrom(wide, true, rest);
      if rest == [] {
        assert out == s[..r] + [] == s;
      } else {
        FirstCopied(wide, true, rest);
        NoNewMatchAfterRun(wide, s, r, out, tail);
      }
    }
  }

  lemma NoNewMatchAfterRun(wide: Wide, s: string, r: nat, out: string, tail: string)
    requires 0 < r == IdentRun(s) < |s| && MatchLen(wide, false, s) == 0
    requires out == s[..r] + tail && tail == RewriteFrom(wide, true, s[r..]) && tail != [] && tail[0] == s[r]
    ensures MatchLen(wide, false, out) == 0
  {
    RunOfPrefix(s, r, tail);
    RootIsInRun(out);
    if RootLen(out) == r {
      FullRootHasNoGroups(wide, s, r, out, tail);
    } else if RootLen(out) > 0 {
      ShortRootHasNoGroups(wide, out);
    }
  }

  lemma RunOfPrefix(s: string, r: nat, tail: string)
    requires r == IdentRun(s) < |s| && tail != [] && tail[0] == s[r]
    ensures IdentRun(s[..r] + tail) == r
  {
    IdentRunOf(s[..r], tail);
  }

  lemma FullRootHasNoGroups(wide: Wide, s: string, r: nat, out: string, tail: string)
    requires 0 < r < |s| && MatchLen(wide, false, s) == 0 && RootLen(out) == r
    requires out == s[..r] + tail && tail == RewriteFrom(wide, true, s[r..])
    ensures MatchLen(wide, false, out) == 0
  {
    TakeDropAppend(s[..r], tail);
    RootOfPrefix(out, s, r);
    NoNewGroups(wide, s[r..]);
  }

  lemma RootOfPrefix(out: string, s: string, r: nat)
    requires 0 < r == RootLen(out) <= |s| && out[..r] == s[..r]
    ensures RootLen(s) == r
  {
    RootLenGivesRoot(out);
    RootLenIsRoot(s, r);
  }

  lemma ShortRootHasNoGroups(wide: Wide, s: string)
    requires 0 < RootLen(s) < IdentRun(s)
    ensures MatchLen(wide, false, s) == 0
  {
    DropHead(s, RootLen(s));
    NoDotNoGroups(wide, s[RootLen(s)..]);
  }

  /** After a match, being preceded by a word character or not makes no difference. */
  lemma PrevIsIrrelevant(wide: Wide, t: string)
    requires t == [] || !IsWord(wide, t[0])
    ensures RewriteFrom(wide, false, t) == RewriteFrom(wide, true, t)
  {
    RootIsInRun(t);
  }

  lemma {:induction false} RewriteTwice(wide: Wide, prev: bool, s: string)
    ensures RewriteFrom(wide, prev, RewriteFrom(wide, prev, s)) == RewriteFrom(wide, prev, s)
    decreases |s|
  {
    if s != [] {
      var n := MatchLen(wide, prev, s);
      var out := RewriteFrom(wide, prev, s);
      if n == 0 {
        NoNewMatch(wide, prev, s);
        FirstCopied(wide, prev, s);
        RewriteTwice(wide, IsWord(wide, s[0]), s[1..]);
      } else {
        var r, rest := Replacement(s[..n]), s[n..];
        var tail := RewriteFrom(wide, true, rest);
        ReplacementIsInert(wide, s);
        RewriteSeam(wide, false, r, tail);
        RewriteTwice(wide, true, rest);
        assert tail == [] || !IsWord(wide, tail[0]) by {
          MatchedParts(wide, s);
          if rest != [] {
            FirstCopied(wide, true, rest);
          }
        }
        PrevIsIrrelevant(wide, tail);
      }
    }
  }

  /** Idempotence, for every text: rewriting a rewritten condition changes nothing. */
  lemma RewriteIsIdempotent(wide: Wide, expr: string)
    ensures RewriteDottedPaths(wide, RewriteDottedPaths(wide, expr)) == RewriteDottedPaths(wide, expr)
  {
    RewriteTwice(wide, false, expr);
  }
}
