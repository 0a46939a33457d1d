/**
 The default price list that takes the new entries: which bodies have one, and that
 neither inserting fragments before end tags nor setting the date changes it.
 */
module CatalogLists {
  import opened Text
  import opened Xml
  import opened XmlSearch
  import opened CatalogDocs
  import opened CatalogSync
  import opened CatalogMerge

  const LISTS := Open("priceLists", "")

  /**
   Chunk `m`, after a `<priceLists>`, is the start tag of a default price list, and
   but for white space `<plans>` follows.
   */
  predicate ListAt(doc: Doc, m: nat) {
    m < |doc| && LISTS in doc[..m] && ListTag(doc[m..])
  }

  ghost predicate HasList(doc: Doc) {
    exists m :: ListAt(doc, m)
  }

  // ---------------------------------------------------------------- entries are written exactly where there is a list

  lemma ListsIsNoListTag(doc: Doc)
    requires doc != [] && doc[0] == LISTS
    ensures !ListTag(doc)
  {
    assert Inside(LISTS)[0] == 'p';
  }

  lemma ListFound(doc: Doc, k: nat, m: nat)
    requires k <= |doc| && DocFirst(doc, At(LISTS)) == k && DocFirst(doc[k..], ListTag) == m
    ensures ListAt(doc, k + m)
  {
    DocFirstIsFirst(doc, At(LISTS));
    DocFirstIsFirst(doc[k..], ListTag);
    assert doc[k..][m..] == doc[k + m..];
    assert m > 0 by {
      if m == 0 {
        ListsIsNoListTag(doc[k..]);
      }
    }
    assert doc[..k + m][k] == LISTS;
  }

  lemma ListsAreFound(doc: Doc, m: nat)
    requires m <= |doc| && LISTS in doc[..m]
    ensures 0 <= DocFirst(doc, At(LISTS)) < m
  {
    var i :| 0 <= i < m && doc[i] == LISTS;
    DocFirstIsFirst(doc, At(LISTS));
    assert At(LISTS)(doc[i..]);
  }

  lemma FoundFrom(doc: Doc, k: nat, m: nat, q: DocTest)
    requires k <= m <= |doc| && q(doc[m..])
    ensures 0 <= DocFirst(doc[k..], q) <= m - k
  {
    DocFirstIsFirst(doc[k..], q);
    assert doc[k..][m - k..] == doc[m..];
  }

  lemma ListIsFound(doc: Doc, m: nat)
    requires ListAt(doc, m)
    ensures var k := DocFirst(doc, At(LISTS));
            0 <= k <= m && 0 <= DocFirst(doc[k..], ListTag) <= m - k
  {
    ListsAreFound(doc, m);
    FoundFrom(doc, DocFirst(doc, At(LISTS)), m, ListTag);
  }

  lemma HasListWhenFound(doc: Doc)
    ensures HasList(doc) <==> DocFirst(doc, At(LISTS)) >= 0 && DocEntriesAt(doc[DocFirst(doc, At(LISTS))..]) >= 0
  {
    var k := DocFirst(doc, At(LISTS));
    if m :| ListAt(doc, m) {
      ListIsFound(doc, m);
    }
    if k >= 0 && DocFirst(doc[k..], ListTag) >= 0 {
      ListFound(doc, k, DocFirst(doc[k..], ListTag));
    }
  }

  lemma SpliceLengthens(doc: Doc, k: nat, n: nat, x: Doc)
    requires k <= |doc| && n <= |doc| - k && x != []
    ensures |SpliceBehind(doc, k, n, x)| > |doc|
  {
  }

  /** An insertion takes place if and only if the body has a list for it. */
  lemma InsertedIff(doc: Doc, x: Doc)
    requires x != []
    ensures DocInsertInList(doc, x) != doc <==> HasList(doc)
    ensures HasList(doc) <==> DocFirst(doc, At(LISTS)) >= 0 && DocEntriesAt(doc[DocFirst(doc, At(LISTS))..]) >= 0
  {
    HasListWhenFound(doc);
    var k := DocFirst(doc, At(LISTS));
    if k >= 0 && DocEntriesAt(doc[k..]) >= 0 {
      SpliceLengthens(doc, k, DocEntriesAt(doc[k..]), x);
    }
  }

  /** New plans get entries if and only if the body has a list for them. */
  lemma EntriesAddedIff(doc: Doc, plans: seq<Plan>)
    requires plans != []
    ensures DocAddEntries(doc, plans) != doc <==> HasList(doc)
  {
    assert |EntriesFragment(plans)| > 0;
    InsertedIff(doc, EntriesFragment(plans));
  }

  // ---------------------------------------------------------------- read from the front

  /** A list tag after a `<priceLists>`, which may have been seen before. */
  predicate ListAhead(doc: Doc, seen: bool) {
    doc != [] && ((seen && ListTag(doc)) || ListAhead(doc[1..], seen || doc[0] == LISTS))
  }

  lemma {:induction false} ListAheadAt(doc: Doc, seen: bool) returns (m: nat)
    requires ListAhead(doc, seen)
    ensures m < |doc| && (seen || LISTS in doc[..m]) && ListTag(doc[m..])
    decreases |doc|
  {
    if seen && ListTag(doc) {
      m := 0;
      assert doc[0..] == doc;
    } else {
      m := ListAheadAt(doc[1..], seen || doc[0] == LISTS);
      assert doc[1..][m..] == doc[m + 1..];
      assert doc[..m + 1] == [doc[0]] + doc[1..][..m];
      m := m + 1;
    }
  }

  lemma {:induction false} AtListAhead(doc: Doc, seen: bool, m: nat)
    requires m < |doc| && (seen || LISTS in doc[..m]) && ListTag(doc[m..])
    ensures ListAhead(doc, seen)
    decreases m
  {
    if m == 0 {
      assert doc[0..] == doc;
    } else {
      assert doc[1..][m - 1..] == doc[m..];
      assert doc[..m] == [doc[0]] + doc[1..][..m - 1];
      AtListAhead(doc[1..], seen || doc[0] == LISTS, m - 1);
    }
  }

  lemma HasListIff(doc: Doc)
    ensures HasList(doc) <==> ListAhead(doc, false)
  {
    if ListAhead(doc, false) {
      var m := ListAheadAt(doc, false);
      assert ListAt(doc, m);
    }
    if HasList(doc) {
      var m :| ListAt(doc, m);
      AtListAhead(doc, false, m);
    }
  }

  lemma {:induction false} RunAppend(a: Doc, b: Doc, f: char -> bool)
    ensures RunChunks(a + b, f) == if RunChunks(a, f) < |a| then RunChunks(a, f) else |a| + RunChunks(b, f)
    decreases |a|
  {
    if a == [] {
      assert a + b == b;
    } else {
      assert (a + b)[0] == a[0] && (a + b)[1..] == a[1..] + b;
      RunAppend(a[1..], b, f);
    }
  }

  /** White space and then `<plans>`. */
  predicate PlansNext(y: Doc) {
    RunChunks(y, IsSpace) < |y| && y[RunChunks(y, IsSpace)] == Open("plans", "")
  }

  lemma ListTagAppend(s: Doc, y: Doc)
    requires s != [] && !PlansNext(y)
    ensures ListTag(s + y) <==> ListTag(s)
  {
    ChunksAppend(s, y);
    var n := ListChunks(s);
    if n <= |s| {
      assert (s + y)[n - 1] == s[n - 1];
    } else {
      assert ListChunks(s + y) <= |s + y| ==> (s + y)[ListChunks(s + y) - 1] == y[RunChunks(y, IsSpace)];
    }
  }

  lemma ChunksAppend(s: Doc, y: Doc)
    requires s != []
    ensures ListChunks(s + y) ==
            if ListChunks(s) <= |s| then ListChunks(s) else |s| + 1 + RunChunks(y, IsSpace)
  {
    RunAppend(s[1..], y, IsSpace);
    assert (s + y)[1..] == s[1..] + y;
  }

  lemma {:induction false} ListAheadAppend(x: Doc, y: Doc, seen: bool)
    requires !PlansNext(y)
    ensures ListAhead(x + y, seen) <==> ListAhead(x, seen) || ListAhead(y, seen || LISTS in x)
    decreases |x|
  {
    if x == [] {
      assert x + y == y;
    } else {
      assert (x + y)[0] == x[0] && (x + y)[1..] == x[1..] + y;
      ListTagAppend(x, y);
      ListAheadAppend(x[1..], y, seen || x[0] == LISTS);
      assert x == [x[0]] + x[1..];
    }
  }

  /** Neither `<priceLists>` nor a start like a default price list's. */
  predicate QuietChunk(c: Chunk) {
    c != LISTS && (c.Chars? || !HasPrefix(Inside(c), LIST_NAME))
  }

  predicate Quiet(doc: Doc) {
    forall i :: 0 <= i < |doc| ==> QuietChunk(doc[i])
  }

  lemma {:induction false} QuietInFront(q: Doc, rest: Doc, seen: bool)
    requires Quiet(q)
    ensures ListAhead(q + rest, seen) <==> ListAhead(rest, seen)
    decreases |q|
  {
    if q == [] {
      assert q + rest == rest;
    } else {
      assert (q + rest)[0] == q[0] && (q + rest)[1..] == q[1..] + rest;
      QuietInFront(q[1..], rest, seen);
    }
  }

  // ---------------------------------------------------------------- inserting fragments

  lemma PlainIsQuiet(c: Chunk)
    requires PlainChunk(c)
    ensures QuietChunk(c) && c != Open("plans", "")
  {
    match c
    case Open(n, a) => NotListName(n, a);
    case Empty(n, a) =>
      NotListName(n, a + "/");
      assert n + a + "/" == n + (a + "/");
    case Close(n) => assert Inside(c)[0] == '/';
    case Other(i) => assert Inside(c)[0] == i[0];
    case Chars(_) =>
  }

  lemma NotListName(n: string, tail: string)
    requires !HasPrefix(n, LIST_NAME) && (tail == [] || IsSpace(tail[0]) || tail[0] == '/')
    ensures !HasPrefix(n + tail, LIST_NAME)
  {
    if |n| >= |LIST_NAME| {
      var i :| 0 <= i < |LIST_NAME| && n[i] != LIST_NAME[i];
      assert (n + tail)[i] == n[i];
    } else if tail != [] {
      assert (n + tail)[|n|] == tail[0];
      assert forall i :: 0 <= i < |LIST_NAME| ==> 'L' <= LIST_NAME[i] <= 'u';
    }
  }

  lemma PlainPlansNext(fragment: Doc, b: Doc)
    requires forall i :: 0 <= i < |fragment| ==> PlainChunk(fragment[i])
    requires b != [] && b[0].Close?
    ensures !PlansNext(b) && !PlansNext(fragment + b)
  {
    RunAppend(fragment, b, IsSpace);
    var k := RunChunks(fragment, IsSpace);
    if k < |fragment| {
      PlainIsQuiet(fragment[k]);
    }
  }

  lemma ListBesideFragment(a: Doc, fragment: Doc, b: Doc)
    requires forall i :: 0 <= i < |fragment| ==> PlainChunk(fragment[i])
    requires b != [] && b[0].Close?
    ensures HasList(a + fragment + b) <==> HasList(a + b)
  {
    PlainPlansNext(fragment, b);
    ListAheadAppend(a, b, false);
    ListAheadAppend(a, fragment + b, false);
    forall i | 0 <= i < |fragment|
      ensures QuietChunk(fragment[i])
    {
      PlainIsQuiet(fragment[i]);
    }
    QuietInFront(fragment, b, LISTS in a);
    assert a + fragment + b == a + (fragment + b);
    HasListIff(a + b);
    HasListIff(a + fragment + b);
  }

  /** Inserting a plain fragment before an end tag neither makes nor breaks a list. */
  lemma SpliceKeepsList(x: Doc, k: nat, fragment: Doc)
    requires forall i :: 0 <= i < |fragment| ==> PlainChunk(fragment[i])
    requires k < |x| && x[k].Close?
    ensures HasList(Splice(x, k, fragment)) <==> HasList(x)
  {
    assert x == x[..k] + x[k..];
    ListBesideFragment(x[..k], fragment, x[k..]);
  }

  // ---------------------------------------------------------------- setting the date

  lemma HeadKept(doc: Doc, now: string)
    requires doc != []
    ensures DocSetDate(doc, now) != [] && DocSetDate(doc, now)[0] == doc[0]
  {
  }

  lemma CharsKept(doc: Doc, now: string)
    requires doc != [] && doc[0].Chars?
    ensures DocSetDate(doc, now) == [doc[0]] + DocSetDate(doc[1..], now)
  {
  }

  lemma {:induction false} RunKept(doc: Doc, now: string, f: char -> bool)
    ensures var d, k := DocSetDate(doc, now), RunChunks(doc, f);
            && RunChunks(d, f) == k && (k < |d| <==> k < |doc|)
            && (k < |doc| ==> d[k] == doc[k])
    decreases |doc|
  {
    if doc != [] {
      HeadKept(doc, now);
      if RunChunks(doc, f) > 0 {
        CharsKept(doc, now);
        RunKept(doc[1..], now, f);
        assert DocSetDate(doc, now)[1..] == DocSetDate(doc[1..], now);
      }
    }
  }

  lemma {:induction false} RunIsChars(doc: Doc, f: char -> bool)
    ensures forall i :: 0 <= i < RunChunks(doc, f) ==> doc[i].Chars?
    decreases |doc|
  {
    if RunChunks(doc, f) > 0 {
      RunIsChars(doc[1..], f);
      assert forall i :: 1 <= i < RunChunks(doc, f) ==> doc[i] == doc[1..][i - 1];
    }
  }

  lemma DateIsQuiet(doc: Doc, now: string)
    requires DateTag(doc)
    ensures Quiet(doc[..DateChunks(doc)]) && Quiet(DateDoc(now))
  {
    RunIsChars(doc[1..], NotBracket);
    assert Inside(Open("effectiveDate", ""))[0] == 'e' && Inside(Close("effectiveDate"))[0] == '/';
    forall i | 0 <= i < DateChunks(doc)
      ensures QuietChunk(doc[i])
    {
      assert 0 < i < DateChunks(doc) - 1 ==> doc[i] == doc[1..][i - 1];
    }
  }

  /** A list tag depends on the first chunk, the run behind it, and what ends the run. */
  lemma SameTag(d: Doc, e: Doc, k: nat)
    requires d != [] && e != [] && d[0] == e[0] && k == RunChunks(d[1..], IsSpace) == RunChunks(e[1..], IsSpace)
    requires (k + 1 < |d| <==> k + 1 < |e|) && (k + 1 < |d| ==> d[k + 1] == e[k + 1])
    ensures ListTag(d) <==> ListTag(e)
  {
  }

  lemma ListTagAfterDate(doc: Doc, now: string)
    requires doc != [] && !DateTag(doc)
    ensures ListTag(DocSetDate(doc, now)) <==> ListTag(doc)
  {
    var d, tail := DocSetDate(doc, now), DocSetDate(doc[1..], now);
    RunKept(doc[1..], now, IsSpace);
    assert d == [doc[0]] + tail && d[1..] == tail;
    SameTag(d, doc, RunChunks(doc[1..], IsSpace));
  }

  lemma DateRegionIsQuiet(doc: Doc, now: string, seen: bool)
    requires DateTag(doc)
    ensures ListAhead(DocSetDate(doc, now), seen) <==> ListAhead(doc, seen)
  {
    var k := DateChunks(doc);
    DateIsQuiet(doc, now);
    assert doc == doc[..k] + doc[k..];
    QuietInFront(doc[..k], doc[k..], seen);
    QuietInFront(DateDoc(now), doc[k..], seen);
  }

  lemma {:induction false} ListAheadAfterDate(doc: Doc, now: string, seen: bool)
    ensures ListAhead(DocSetDate(doc, now), seen) <==> ListAhead(doc, seen)
    decreases |doc|
  {
    if doc != [] {
      if DateTag(doc) {
        DateRegionIsQuiet(doc, now, seen);
      } else {
        var d := DocSetDate(doc, now);
        ListTagAfterDate(doc, now);
        assert d[0] == doc[0] && d[1..] == DocSetDate(doc[1..], now);
        ListAheadAfterDate(doc[1..], now, seen || doc[0] == LISTS);
      }
    }
  }

  /** Setting the date neither makes nor breaks a list. */
  lemma DateKeepsList(doc: Doc, now: string)
    ensures HasList(DocSetDate(doc, now)) <==> HasList(doc)
  {
    ListAheadAfterDate(doc, now, false);
    HasListIff(doc);
    HasListIff(DocSetDate(doc, now));
  }
}
