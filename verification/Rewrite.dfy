/**
 The text rewrite from dotted to bracket form: the regular expression
 `\b(params|results)((?:\.[A-Za-z_][A-Za-z0-9_]*)+)\b`, its leftmost matches, and
 the substitution. `wide` says which characters outside ASCII count as word
 characters; everything holds for every such classification.
 */
module Rewrite {
  import opened Text

  type Wide = char -> bool

  predicate IsIdentStart(c: char) {
    'A' <= c <= 'Z' || 'a' <= c <= 'z' || c == '_'
  }

  predicate IsIdent(c: char) {
    IsIdentStart(c) || '0' <= c <= '9'
  }

  /** Python's `\w` for text: the ASCII identifier characters, and some beyond ASCII. */
  predicate IsWord(wide: Wide, c: char) {
    IsIdent(c) || (c as int >= 128 && wide(c))
  }

  const PARAMS := "params"
  const RESULTS := "results"

  function RootLen(s: string): (n: nat)
    ensures n <= |s|
  {
    if HasPrefix(s, PARAMS) then |PARAMS| else if HasPrefix(s, RESULTS) then |RESULTS| else 0
  }

  /** Length of the leading run of identifier characters. */
  function IdentRun(s: string): (n: nat)
    ensures n <= |s|
    ensures forall i :: 0 <= i < n ==> IsIdent(s[i])
    ensures n < |s| ==> !IsIdent(s[n])
  {
    if s == [] || !IsIdent(s[0]) then 0 else 1 + IdentRun(s[1..])
  }

  /** The word boundary after position `n`, when the character before it is a word character. */
  predicate EndsWord(wide: Wide, s: string, n: nat)
    requires n <= |s|
  {
    n == |s| || !IsWord(wide, s[n])
  }

  predicate StartsGroup(s: string) {
    |s| >= 2 && s[0] == '.' && IsIdentStart(s[1])
  }

  /** Length of the dot and identifier at the front of `s`. */
  function GroupLen(s: string): (n: nat)
    requires StartsGroup(s)
    ensures 2 <= n <= |s|
  {
    1 + IdentRun(s[1..])
  }

  /**
   What the repeated group matches at the front of `s`: as many groups as a word
   boundary can follow, found greedily and given back one group at a time.
   */
  function GroupsLen(wide: Wide, s: string): (n: nat)
    ensures n <= |s|
    decreases |s|
  {
    if !StartsGroup(s) then 0
    else
      var n := GroupLen(s);
      var more := GroupsLen(wide, s[n..]);
      if more > 0 then n + more
      else if EndsWord(wide, s, n) then n else 0
  }

  /** Length of the match at the front of `s`, 0 for none; `prev` says whether a word character precedes. */
  function MatchLen(wide: Wide, prev: bool, s: string): (n: nat)
    ensures n <= |s|
  {
    var root := RootLen(s);
    if prev || root == 0 then 0
    else
      var groups := GroupsLen(wide, s[root..]);
      if groups == 0 then 0 else root + groups
  }

  function Split(s: string, sep: char): (parts: seq<string>)
    ensures parts != []
  {
    if s == [] then [[]]
    else
      var rest := Split(s[1..], sep);
      if s[0] == sep then [[]] + rest else [[s[0]] + rest[0]] + rest[1..]
  }

  function NonEmpty(parts: seq<string>): seq<string> {
    if parts == [] then []
    else (if parts[0] == [] then [] else [parts[0]]) + NonEmpty(parts[1..])
  }

  function Bracket(segment: string): string {
    "['" + segment + "']"
  }

  function Brackets(segments: seq<string>): string {
    if segments == [] then "" else Bracket(segments[0]) + Brackets(segments[1..])
  }

  /** The replacement of a match: its root, and every segment of the rest in brackets. */
  function Replacement(matched: string): string {
    var root := RootLen(matched);
    matched[..root] + Brackets(NonEmpty(Split(matched[root..], '.')))
  }

  /** `re.sub` from here on. */
  function RewriteFrom(wide: Wide, prev: bool, s: string): string
    decreases |s|
  {
    if s == [] then []
    else
      var n := MatchLen(wide, prev, s);
      if n == 0 then [s[0]] + RewriteFrom(wide, IsWord(wide, s[0]), s[1..])
      else Replacement(s[..n]) + RewriteFrom(wide, true, s[n..])
  }

  /** `_rewrite_dotted_paths`. */
  function RewriteDottedPaths(wide: Wide, expr: string): string {
    RewriteFrom(wide, false, expr)
  }

  // ---------------------------------------------------------------- the match is the regular expression's

  /** `g` is a sequence of `n` groups, each a dot and an identifier. */
  ghost predicate IsGroups(g: string, n: nat) {
    if n == 0 then g == []
    else
      exists k :: 2 <= k <= |g| && g[0] == '.' && IsIdentStart(g[1]) &&
                  (forall i :: 2 <= i < k ==> IsIdent(g[i])) && IsGroups(g[k..], n - 1)
  }

  /** The first `n` characters of `s` match the whole regular expression, boundaries included. */
  ghost predicate Matches(wide: Wide, prev: bool, s: string, n: nat) {
    n <= |s| && !prev && EndsWord(wide, s, n) &&
    exists root, groups: nat ::
      0 < root <= n && (s[..root] == PARAMS || s[..root] == RESULTS) && groups > 0 && IsGroups(s[root..n], groups)
  }

  lemma RunOfIdents(s: string, n: nat)
    requires n <= |s| && forall i :: 0 <= i < n ==> IsIdent(s[i])
    ensures n <= IdentRun(s)
  {
  }

  lemma {:induction false} GroupsLenIsGroups(wide: Wide, s: string)
    ensures var n := GroupsLen(wide, s);
            n > 0 ==> EndsWord(wide, s, n) && exists k: nat :: k > 0 && IsGroups(s[..n], k)
    decreases |s|
  {
    var n := GroupsLen(wide, s);
    if n > 0 {
      var m := GroupLen(s);
      GroupsLenIsGroups(wide, s[m..]);
      if n == m {
        GroupInFront(s, n, 0);
      } else {
        var k: nat :| k > 0 && IsGroups(s[m..][..n - m], k);
        DropOfTake(s, m, n);
        SliceOfDrop(s, m, n);
        GroupInFront(s, n, k);
        assert EndsWord(wide, s[m..], n - m) && (n < |s| ==> s[m..][n - m] == s[n]);
      }
    }
  }

  lemma GroupInFront(s: string, n: nat, k: nat)
    requires StartsGroup(s) && GroupLen(s) <= n <= |s| && IsGroups(s[..n][GroupLen(s)..], k)
    ensures IsGroups(s[..n], k + 1)
  {
    var g := s[..n];
    forall i | 2 <= i < GroupLen(s)
      ensures IsIdent(g[i])
    {
      assert g[i] == s[1..][i - 1];
    }
  }

  lemma {:induction false} GroupsLenIsLongest(wide: Wide, s: string, n: nat, k: nat)
    requires n <= |s| && k > 0 && IsGroups(s[..n], k) && EndsWord(wide, s, n)
    ensures n <= GroupsLen(wide, s)
    decreases k
  {
    var m := FirstGroup(s[..n], k);
    FirstGroupIsWhole(wide, s, n, m, k);
    if k > 1 {
      SliceOfDrop(s, m, n);
      DropOfTake(s, m, n);
      GroupsLenIsLongest(wide, s[m..], n - m, k - 1);
    }
  }

  lemma FirstGroup(g: string, k: nat) returns (m: nat)
    requires k > 0 && IsGroups(g, k)
    ensures 2 <= m <= |g| && g[0] == '.' && IsIdentStart(g[1])
    ensures (forall i :: 2 <= i < m ==> IsIdent(g[i])) && IsGroups(g[m..], k - 1)
  {
    m :| 2 <= m <= |g| && g[0] == '.' && IsIdentStart(g[1]) &&
         (forall i :: 2 <= i < m ==> IsIdent(g[i])) && IsGroups(g[m..], k - 1);
  }

  /** A group that a group or a boundary follows takes the whole identifier. */
  lemma FirstGroupIsWhole(wide: Wide, s: string, n: nat, m: nat, k: nat)
    requires n <= |s| && k > 0 && EndsWord(wide, s, n)
    requires 2 <= m <= n && s[0] == '.' && IsIdentStart(s[1]) && (forall i :: 2 <= i < m ==> IsIdent(s[i]))
    requires IsGroups(s[..n][m..], k - 1)
    ensures StartsGroup(s) && m == GroupLen(s)
    ensures k == 1 ==> n == m
    ensures k > 1 ==> n > m
  {
    forall i | 0 <= i < m - 1
      ensures IsIdent(s[1..][i])
    {
      assert s[1..][i] == s[i + 1];
    }
    RunOfIdents(s[1..], m - 1);
    var rest := s[..n][m..];
    assert k == 1 ==> rest == [];
    assert k > 1 ==> |rest| > 0 && rest[0] == '.' && s[m] == rest[0];
    assert m < |s| ==> s[1..][m - 1] == s[m] && !IsIdent(s[m]);
  }

  lemma RootLenIsRoot(s: string, root: nat)
    requires 0 < root <= |s| && (s[..root] == PARAMS || s[..root] == RESULTS)
    ensures RootLen(s) == root
  {
    assert |PARAMS| == 6 && |RESULTS| == 7;
    assert s[0] == s[..root][0];
    assert HasPrefix(s, PARAMS) ==> s[0] == s[..6][0];
  }

  /** The scan finds exactly the regular expression's longest match, and none only where there is none. */
  lemma MatchLenIsTheMatch(wide: Wide, prev: bool, s: string)
    ensures MatchLen(wide, prev, s) > 0 ==> Matches(wide, prev, s, MatchLen(wide, prev, s))
    ensures forall n: nat :: Matches(wide, prev, s, n) ==> 0 < n <= MatchLen(wide, prev, s)
  {
    if MatchLen(wide, prev, s) > 0 {
      MatchLenMatches(wide, prev, s);
    }
    forall n: nat | Matches(wide, prev, s, n)
      ensures 0 < n <= MatchLen(wide, prev, s)
    {
      MatchLenIsLongest(wide, prev, s, n);
    }
  }

  lemma MatchLenMatches(wide: Wide, prev: bool, s: string)
    requires MatchLen(wide, prev, s) > 0
    ensures Matches(wide, prev, s, MatchLen(wide, prev, s))
  {
    var n, root := MatchLen(wide, prev, s), RootLen(s);
    GroupsLenIsGroups(wide, s[root..]);
    var k: nat :| k > 0 && IsGroups(s[root..][..n - root], k);
    SliceOfDrop(s, root, n);
    RootLenGivesRoot(s);
    assert 0 < root <= n && IsGroups(s[root..n], k);
  }

  lemma RootLenGivesRoot(s: string)
    ensures RootLen(s) > 0 ==> s[..RootLen(s)] == PARAMS || s[..RootLen(s)] == RESULTS
  {
  }

  lemma LongestFrom(wide: Wide, prev: bool, s: string, n: nat, r: nat, k: nat)
    requires 0 < r <= n <= |s| && RootLen(s) == r && k > 0 && IsGroups(s[r..n], k)
    requires !prev && EndsWord(wide, s, n)
    ensures 0 < n <= MatchLen(wide, prev, s)
  {
    SliceOfDrop(s, r, n);
    var m := FirstGroup(s[r..n], k);
    GroupsLenIsLongest(wide, s[r..], n - r, k);
  }

  lemma MatchLenIsLongest(wide: Wide, prev: bool, s: string, n: nat)
    requires Matches(wide, prev, s, n)
    ensures 0 < n <= MatchLen(wide, prev, s)
  {
    var r, k: nat :| 0 < r <= n && (s[..r] == PARAMS || s[..r] == RESULTS) && k > 0 && IsGroups(s[r..n], k);
    RootLenIsRoot(s, r);
    LongestFrom(wide, prev, s, n, r, k);
  }
}
