/**
 Setting the date and inserting fragments do not disturb each other: taking the
 fragments out of a merged catalog gives back the original body with the new date.
 */
module CatalogDates {
  import opened Xml
  import opened CatalogDocs
  import opened CatalogSync
  import opened CatalogMerge
  import opened CatalogLists
  import opened CatalogLaws

  predicate HasDate(doc: Doc) {
    doc != [] && (DateTag(doc) || HasDate(doc[1..]))
  }

  /** No match of the date pattern that starts in `x` depends on `y`. */
  ghost predicate Apart(x: Doc, y: Doc) {
    forall i :: 0 <= i < |x| ==> (DateTag(x[i..] + y) <==> DateTag(x[i..]))
  }

  lemma ApartTail(x: Doc, y: Doc)
    requires Apart(x, y) && x != []
    ensures Apart(x[1..], y) && (DateTag(x + y) <==> DateTag(x))
  {
    assert x[0..] == x;
    forall i | 0 <= i < |x[1..]|
      ensures DateTag(x[1..][i..] + y) <==> DateTag(x[1..][i..])
    {
      assert x[1..][i..] == x[i + 1..];
    }
  }

  lemma SameRun(x: Doc, y: Doc)
    requires DateTag(x)
    ensures DateTag(x + y) && DateChunks(x + y) == DateChunks(x)
  {
    assert (x + y)[1..] == x[1..] + y;
    RunAppend(x[1..], y, NotBracket);
  }

  lemma DateInFront(x: Doc, y: Doc, now: string)
    requires DateTag(x)
    ensures HasDate(x) && HasDate(x + y) && DocSetDate(x + y, now) == DocSetDate(x, now) + y
  {
    SameRun(x, y);
    var k := DateChunks(x);
    assert (x + y)[k..] == x[k..] + y;
    assert DateDoc(now) + (x[k..] + y) == (DateDoc(now) + x[k..]) + y;
  }

  lemma DateBehind(c: Chunk, x: Doc, now: string)
    requires !DateTag([c] + x)
    ensures HasDate([c] + x) <==> HasDate(x)
    ensures DocSetDate([c] + x, now) == [c] + DocSetDate(x, now)
  {
    assert ([c] + x)[1..] == x;
  }

  /** What `DateOfParts` says. */
  ghost predicate DatedInParts(x: Doc, y: Doc, now: string) {
    && (HasDate(x + y) <==> HasDate(x) || HasDate(y))
    && DocSetDate(x + y, now) == if HasDate(x) then DocSetDate(x, now) + y else x + DocSetDate(y, now)
  }

  lemma DatedBehind(c: Chunk, x: Doc, y: Doc, now: string)
    requires DatedInParts(x, y, now) && !DateTag([c] + x) && !DateTag([c] + (x + y))
    ensures DatedInParts([c] + x, y, now)
  {
    assert ([c] + x) + y == [c] + (x + y);
    DateBehind(c, x, now);
    DateBehind(c, x + y, now);
  }

  /** The first date of two parts that are apart. */
  lemma {:induction false} DateOfParts(x: Doc, y: Doc, now: string)
    requires Apart(x, y)
    ensures HasDate(x + y) <==> HasDate(x) || HasDate(y)
    ensures DocSetDate(x + y, now) == if HasDate(x) then DocSetDate(x, now) + y else x + DocSetDate(y, now)
    decreases |x|
  {
    if x == [] {
      assert x + y == y;
    } else {
      ApartTail(x, y);
      if DateTag(x) {
        DateInFront(x, y, now);
      } else {
        DateOfParts(x[1..], y, now);
        assert x == [x[0]] + x[1..] && x + y == [x[0]] + (x[1..] + y);
        DatedBehind(x[0], x[1..], y, now);
      }
    }
  }

  // ---------------------------------------------------------------- parts that are apart

  /** A chunk that can neither end nor continue a date. */
  predicate FirmStart(y: Doc) {
    y != [] && !y[0].Chars? && y[0] != Close("effectiveDate")
  }

  predicate FirmEnd(x: Doc) {
    x != [] && !x[|x| - 1].Chars? && x[|x| - 1] != Open("effectiveDate", "")
  }

  lemma DateEndsAt(doc: Doc, rest: Doc)
    requires DateTag(doc) && rest == doc[1..]
    ensures RunChunks(rest, NotBracket) < |rest| && rest[RunChunks(rest, NotBracket)] == Close("effectiveDate")
  {
    assert doc[DateChunks(doc) - 1] == rest[DateChunks(doc) - 2];
  }

  lemma DateWithin(s: Doc, y: Doc)
    requires s != [] && DateTag(s + y) && RunChunks(s[1..], NotBracket) < |s| - 1
    ensures DateTag(s)
  {
    var k := RunChunks(s[1..], NotBracket);
    assert (s + y)[1..] == s[1..] + y;
    DateEndsAt(s + y, s[1..] + y);
    RunAppend(s[1..], y, NotBracket);
    assert (s[1..] + y)[k] == s[1..][k] == s[k + 1];
  }

  lemma DateNeedsMore(s: Doc, y: Doc)
    requires s != [] && DateTag(s + y) && !DateTag(s)
    ensures RunChunks(s[1..], NotBracket) == |s| - 1 && s[0] == Open("effectiveDate", "")
    ensures y != [] && y[RunChunks(y, NotBracket)..] != [] && y[RunChunks(y, NotBracket)] == Close("effectiveDate")
  {
    if RunChunks(s[1..], NotBracket) < |s| - 1 {
      DateWithin(s, y);
    }
    DateBeyond(s, y);
  }

  lemma RunEndsBeyond(front: Doc, y: Doc, end: Chunk)
    requires RunChunks(front, NotBracket) == |front|
    requires var n := RunChunks(front + y, NotBracket); n < |front + y| && (front + y)[n] == end
    ensures RunChunks(y, NotBracket) < |y| && y[RunChunks(y, NotBracket)] == end
  {
    RunAppend(front, y, NotBracket);
  }

  lemma DateBeyond(s: Doc, y: Doc)
    requires s != [] && DateTag(s + y) && RunChunks(s[1..], NotBracket) == |s| - 1
    ensures y != [] && y[RunChunks(y, NotBracket)..] != [] && y[RunChunks(y, NotBracket)] == Close("effectiveDate")
  {
    assert (s + y)[1..] == s[1..] + y;
    DateEndsAt(s + y, s[1..] + y);
    RunEndsBeyond(s[1..], y, Close("effectiveDate"));
  }

  lemma TagNeedsMore(s: Doc, y: Doc)
    requires s != [] && (FirmStart(y) || FirmEnd(s) || Close("effectiveDate") !in y)
    ensures DateTag(s + y) <==> DateTag(s)
  {
    assert |s| > 1 ==> s[|s| - 1] == s[1..][|s| - 2];
    if DateTag(s) {
      SameRun(s, y);
    } else if DateTag(s + y) {
      DateNeedsMore(s, y);
      RunIsChars(s[1..], NotBracket);
    }
  }

  lemma PartsApart(x: Doc, y: Doc)
    requires FirmStart(y) || FirmEnd(x) || Close("effectiveDate") !in y
    ensures Apart(x, y)
  {
    forall i | 0 <= i < |x|
      ensures DateTag(x[i..] + y) <==> DateTag(x[i..])
    {
      TagNeedsMore(x[i..], y);
    }
  }

  lemma PlainIsDateless(fragment: Doc)
    requires forall i :: 0 <= i < |fragment| ==> PlainChunk(fragment[i])
    ensures Open("effectiveDate", "") !in fragment && Close("effectiveDate") !in fragment
  {
  }

  lemma {:induction false} NoOpenNoDate(x: Doc)
    requires Open("effectiveDate", "") !in x
    ensures !HasDate(x)
    decreases |x|
  {
    if x != [] {
      NoOpenNoDate(x[1..]);
    }
  }

  lemma {:induction false} NoDateNoChange(x: Doc, now: string)
    requires !HasDate(x)
    ensures DocSetDate(x, now) == x
    decreases |x|
  {
    if x != [] {
      NoDateNoChange(x[1..], now);
    }
  }

  // ---------------------------------------------------------------- which date is set

  predicate DateStarts(doc: Doc, k: nat) {
    k <= |doc| && DateTag(doc[k..])
  }

  /** The document with the date element at `k` replaced. */
  function DateSetAt(doc: Doc, k: nat, now: string): Doc
    requires DateStarts(doc, k)
  {
    doc[..k] + [Open("effectiveDate", ""), Chars(now), Close("effectiveDate")] + doc[k + DateChunks(doc[k..])..]
  }

  lemma StartsLater(doc: Doc, j: nat)
    requires doc != []
    ensures DateStarts(doc, j + 1) == DateStarts(doc[1..], j)
  {
    if j < |doc| {
      assert doc[1..][j..] == doc[j + 1..];
    }
  }

  lemma SetLater(doc: Doc, n: nat, now: string)
    requires doc != [] && DateStarts(doc[1..], n) && DateStarts(doc, n + 1)
    ensures DateSetAt(doc, n + 1, now) == [doc[0]] + DateSetAt(doc[1..], n, now)
  {
    assert doc[1..][n..] == doc[n + 1..];
    assert doc[..n + 1] == [doc[0]] + doc[1..][..n];
    var rest := n + DateChunks(doc[n + 1..]);
    assert doc[1..][rest..] == doc[rest + 1..];
  }

  /** The first date, and no other, becomes the given one. */
  lemma {:induction false} FirstDateIsSet(doc: Doc, now: string) returns (k: nat)
    requires HasDate(doc)
    ensures DateStarts(doc, k) && DocSetDate(doc, now) == DateSetAt(doc, k, now)
    ensures forall j: nat :: j < k ==> !DateStarts(doc, j)
  {
    assert doc[0..] == doc;
    if DateTag(doc) {
      k := 0;
    } else {
      var n := FirstDateIsSet(doc[1..], now);
      k := n + 1;
      StartsLater(doc, n);
      SetLater(doc, n, now);
      forall j: nat | j < k
        ensures !DateStarts(doc, j)
      {
        if j > 0 {
          StartsLater(doc, j - 1);
        }
      }
    }
  }

  // ---------------------------------------------------------------- insertions and the date

  /** Setting the date splits at a place where a fragment may go: one side changes, the other stays. */
  lemma DateAroundFragment(a: Doc, fragment: Doc, b: Doc, now: string)
    requires forall i :: 0 <= i < |fragment| ==> PlainChunk(fragment[i])
    requires FirmStart(b) || FirmEnd(a)
    ensures DocSetDate(a + b, now) == if HasDate(a) then DocSetDate(a, now) + b else a + DocSetDate(b, now)
    ensures DocSetDate(a + fragment + b, now) ==
            if HasDate(a) then DocSetDate(a, now) + fragment + b else a + fragment + DocSetDate(b, now)
  {
    PartsApart(a, b);
    DateOfParts(a, b, now);
    PlainIsDateless(fragment);
    NoOpenNoDate(fragment);
    NoDateNoChange(fragment, now);
    PartsApart(a, fragment);
    DateOfParts(a, fragment, now);
    FragmentApart(a, fragment, b);
    DateOfParts(a + fragment, b, now);
  }

  lemma FragmentApart(a: Doc, fragment: Doc, b: Doc)
    requires Open("effectiveDate", "") !in fragment && Close("effectiveDate") !in fragment
    requires FirmStart(b) || FirmEnd(a)
    ensures Apart(a + fragment, b)
  {
    if FirmStart(b) {
      PartsApart(a + fragment, b);
    } else {
      PartsApart(a, fragment + b);
      PartsApart(a, fragment);
      forall i | 0 <= i < |a + fragment|
        ensures DateTag((a + fragment)[i..] + b) <==> DateTag((a + fragment)[i..])
      {
        if i < |a| {
          assert (a + fragment)[i..] == a[i..] + fragment;
          assert (a + fragment)[i..] + b == a[i..] + (fragment + b);
        } else {
          assert (a + fragment)[i] in fragment;
          assert (a + fragment)[i..][0] == (a + fragment)[i] == ((a + fragment)[i..] + b)[0];
        }
      }
    }
  }

  lemma BeforeParts(front: Doc, back: Doc, fragment: Doc, c: Chunk)
    requires back != [] && back[0] == c
    ensures PutBefore(front + back, front + fragment + back, fragment, c)
  {
    var x := front + back;
    assert x[..|front|] == front && x[|front|..] == back && x[|front|] == c;
    assert Splice(x, |front|, fragment) == front + fragment + back;
  }

  lemma AfterParts(front: Doc, back: Doc, fragment: Doc, c: Chunk)
    requires front != [] && front[|front| - 1] == c
    ensures PutAfter(front + back, front + fragment + back, fragment, c)
  {
    var x, k := front + back, |front| - 1;
    assert x[..k + 1] == front && x[k + 1..] == back && x[k] == c;
    assert Splice(x, k + 1, fragment) == front + fragment + back;
  }

  lemma DatedStart(b: Doc, now: string)
    requires FirmStart(b) && b[0] != Open("effectiveDate", "")
    ensures DocSetDate(b, now) != [] && DocSetDate(b, now)[0] == b[0]
  {
  }

  lemma DatedEnd(a: Doc, now: string)
    requires a != [] && a[|a| - 1].Open? && a[|a| - 1] != Open("effectiveDate", "")
    ensures DocSetDate(a, now) != [] && DocSetDate(a, now)[|DocSetDate(a, now)| - 1] == a[|a| - 1]
  {
    var c := a[|a| - 1];
    var front := a[..|a| - 1];
    assert a == front + [c];
    PartsApart(front, [c]);
    DateOfParts(front, [c], now);
    assert DocSetDate([c], now) == [c] + DocSetDate([], now);
  }

  lemma DatedBefore(a: Doc, fragment: Doc, b: Doc, name: string, now: string)
    requires forall i :: 0 <= i < |fragment| ==> PlainChunk(fragment[i])
    requires b != [] && b[0] == Close(name) && name != "effectiveDate"
    ensures PutBefore(DocSetDate(a + b, now), DocSetDate(a + fragment + b, now), fragment, Close(name))
  {
    DateAroundFragment(a, fragment, b, now);
    DatedStart(b, now);
    if HasDate(a) {
      BeforeParts(DocSetDate(a, now), b, fragment, Close(name));
    } else {
      BeforeParts(a, DocSetDate(b, now), fragment, Close(name));
    }
  }

  lemma DateAndBefore(x: Doc, y: Doc, fragment: Doc, name: string, now: string)
    requires PutBefore(x, y, fragment, Close(name)) && name != "effectiveDate"
    requires forall i :: 0 <= i < |fragment| ==> PlainChunk(fragment[i])
    ensures PutBefore(DocSetDate(x, now), DocSetDate(y, now), fragment, Close(name))
  {
    var k: nat :| k < |x| && x[k] == Close(name) && y == Splice(x, k, fragment);
    assert x == x[..k] + x[k..];
    DatedBefore(x[..k], fragment, x[k..], name, now);
  }

  lemma DatedAfter(a: Doc, fragment: Doc, b: Doc, name: string, now: string)
    requires forall i :: 0 <= i < |fragment| ==> PlainChunk(fragment[i])
    requires a != [] && a[|a| - 1] == Open(name, "") && name != "effectiveDate"
    ensures PutAfter(DocSetDate(a + b, now), DocSetDate(a + fragment + b, now), fragment, Open(name, ""))
  {
    DateAroundFragment(a, fragment, b, now);
    DatedEnd(a, now);
    if HasDate(a) {
      AfterParts(DocSetDate(a, now), b, fragment, Open(name, ""));
    } else {
      AfterParts(a, DocSetDate(b, now), fragment, Open(name, ""));
    }
  }

  lemma DateAndAfter(x: Doc, y: Doc, fragment: Doc, name: string, now: string)
    requires PutAfter(x, y, fragment, Open(name, "")) && name != "effectiveDate"
    requires forall i :: 0 <= i < |fragment| ==> PlainChunk(fragment[i])
    ensures PutAfter(DocSetDate(x, now), DocSetDate(y, now), fragment, Open(name, ""))
  {
    var k: nat :| k < |x| && x[k] == Open(name, "") && y == Splice(x, k + 1, fragment);
    assert x == x[..k + 1] + x[k + 1..];
    DatedAfter(x[..k + 1], fragment, x[k + 1..], name, now);
  }

  /** Setting the date after the insertions is inserting into the dated document. */
  lemma DateAndAdditive(doc: Doc, out: Doc, products: seq<Value>, plans: seq<Plan>, now: string)
    requires Additive(doc, out, products, plans)
    ensures Additive(DocSetDate(doc, now), DocSetDate(out, now), products, plans)
  {
    FragmentsPlain(products, plans);
    InertIsPlain(EntriesFragment(plans));
    var y, z :| AdditiveBy(doc, y, z, out, products, plans);
    if products != [] {
      DateAndBefore(doc, y, ProductsFragment(products), "products", now);
    }
    if plans != [] {
      DateAndBefore(y, z, PlansFragment(plans), "plans", now);
    }
    DateKeepsList(doc, now);
    if plans != [] && HasList(doc) {
      DateAndAfter(z, out, EntriesFragment(plans), "plans", now);
    }
    assert AdditiveBy(DocSetDate(doc, now), DocSetDate(y, now), DocSetDate(z, now), DocSetDate(out, now),
                      products, plans);
  }

  /**
   The merged document is the original one with the new date and the three fragments;
   the entries are missing exactly where the original has no list for them.
   */
  lemma MergeIsAdditive(doc: Doc, plans: seq<Plan>, now: string)
    requires DocMerge(doc, plans, now).Some?
    ensures Additive(DocSetDate(doc, now), DocMerge(doc, plans, now).value,
                     DocNewProducts(doc, plans), DocNewPlans(doc, plans))
  {
    var products, news := DocNewProducts(doc, plans), DocNewPlans(doc, plans);
    InsertAllIsAdditive(doc, products, news);
    DateAndAdditive(doc, DocInsertAll(doc, products, news).value, products, news, now);
  }
}
