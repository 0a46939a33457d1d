/**
 The same merge on documents, and the proof that the index searches and splices of
 the text version do exactly this to a printed document.
 */
module CatalogMerge {
  import opened Wrappers
  import opened Text
  import opened Xml
  import opened XmlSearch
  import opened CatalogDocs
  import opened CatalogNames
  import opened CatalogSync

  // ---------------------------------------------------------------- patterns over chunks

  /** How many leading chunks are character data whose characters all pass the test. */
  function RunChunks(doc: Doc, f: char -> bool): (k: nat)
    ensures k <= |doc|
  {
    if doc != [] && doc[0].Chars? && Span(doc[0].text, f) == |doc[0].text| then 1 + RunChunks(doc[1..], f) else 0
  }

  function ListChunks(doc: Doc): nat
    requires doc != []
  {
    2 + RunChunks(doc[1..], IsSpace)
  }

  /** A tag whose name starts with `defaultPriceList`, white space, and the start of its plans. */
  predicate ListTag(doc: Doc) {
    && doc != [] && !doc[0].Chars? && HasPrefix(Inside(doc[0]), LIST_NAME)
    && ListChunks(doc) <= |doc| && doc[ListChunks(doc) - 1] == Open("plans", "")
  }

  function DateChunks(doc: Doc): nat
    requires doc != []
  {
    2 + RunChunks(doc[1..], NotBracket)
  }

  predicate DateTag(doc: Doc) {
    && doc != [] && doc[0] == Open("effectiveDate", "")
    && DateChunks(doc) <= |doc| && doc[DateChunks(doc) - 1] == Close("effectiveDate")
  }

  // ---------------------------------------------------------------- the steps

  function DocAddProducts(doc: Doc, names: seq<Value>): Option<Doc> {
    if names == [] then Some(doc)
    else
      var k := DocFirst(doc, At(Close("products")));
      if k < 0 then None else Some(Splice(doc, k, ProductsFragment(names)))
  }

  function DocPlansClose(doc: Doc): (j: int)
    ensures -1 <= j <= |doc|
  {
    var k := DocFirst(doc, At(Open("priceLists", "")));
    if k < 0 then -1 else DocLast(doc[..k], At(Close("plans")))
  }

  function DocAddPlans(doc: Doc, plans: seq<Plan>): Option<Doc> {
    var j := DocPlansClose(doc);
    if j < 0 then None
    else if plans == [] then Some(doc)
    else Some(Splice(doc, j, PlansFragment(plans)))
  }

  function DocEntriesAt(lists: Doc): (n: int)
    ensures -1 <= n <= |lists|
  {
    var m := DocFirst(lists, ListTag);
    if m < 0 then -1
    else
      DocFirstIsFirst(lists, ListTag);
      m + ListChunks(lists[m..])
  }

  /** `x` right after the start of the default price list's plans, if there is one. */
  function DocInsertInList(doc: Doc, x: Doc): Doc {
    var k := DocFirst(doc, At(Open("priceLists", "")));
    if k < 0 then doc else SpliceBehind(doc, k, DocEntriesAt(doc[k..]), x)
  }

  function DocAddEntries(doc: Doc, plans: seq<Plan>): Doc {
    if plans == [] then doc else DocInsertInList(doc, EntriesFragment(plans))
  }

  function DocSetDate(doc: Doc, now: string): Doc {
    if doc == [] then []
    else if DateTag(doc) then DateDoc(now) + doc[DateChunks(doc)..]
    else [doc[0]] + DocSetDate(doc[1..], now)
  }

  function DocNewProducts(doc: Doc, plans: seq<Plan>): seq<Value> {
    Missing(Distinct(Products(Actives(plans))), NamesIn(doc, "product"))
  }

  function DocNewPlans(doc: Doc, plans: seq<Plan>): seq<Plan> {
    Unlisted(Actives(plans), NamesIn(doc, "plan"))
  }

  function DocInsertAll(doc: Doc, products: seq<Value>, plans: seq<Plan>): Option<Doc> {
    var a := DocAddProducts(doc, products);
    if a.None? then None
    else
      var b := DocAddPlans(a.value, plans);
      if b.None? then None else Some(DocAddEntries(b.value, plans))
  }

  function DocMerge(doc: Doc, plans: seq<Plan>, now: string): Option<Doc> {
    var c := DocInsertAll(doc, DocNewProducts(doc, plans), DocNewPlans(doc, plans));
    if c.None? then None else Some(DocSetDate(c.value, now))
  }

  // ---------------------------------------------------------------- fragments are documents

  lemma AppendOk(a: Doc, b: Doc)
    requires DocOk(a) && DocOk(b)
    ensures DocOk(a + b)
  {
  }

  lemma SpliceOk(doc: Doc, k: nat, x: Doc)
    requires k <= |doc| && DocOk(doc) && DocOk(x)
    ensures DocOk(Splice(doc, k, x))
  {
  }

  lemma FragmentsPlain(names: seq<Value>, plans: seq<Plan>)
    ensures Plain(ProductsFragment(names)) && Plain(PlansFragment(plans)) && Inert(EntriesFragment(plans))
  {
    ProductDocsPlain(names, 16);
    PlanDocsPlain(plans, 0);
    EntryDocsInert(plans);
    PlainAppend(Joined(ProductDocs(names, 16)), Line(12));
    PlainAppend(Run("\n"), Joined(PlanDocs(plans, 0)));
    PlainAppend(Run("\n") + Joined(PlanDocs(plans, 0)), Line(12));
    InertAppend(Run("\n"), Joined(EntryDocs(plans)));
  }

  // ---------------------------------------------------------------- the text does the same

  lemma PrintSplice(doc: Doc, k: nat, x: Doc)
    requires k <= |doc|
    ensures |Print(doc[..k])| <= |Print(doc)|
    ensures Print(Splice(doc, k, x)) == Splice(Print(doc), |Print(doc[..k])|, Print(x))
  {
    PrintSplit(doc, k);
    PrintAppend(doc[..k], x);
    PrintAppend(doc[..k] + x, doc[k..]);
  }

  lemma AddProductsOnDoc(doc: Doc, names: seq<Value>)
    requires DocOk(doc)
    ensures var d := DocAddProducts(doc, names);
            && AddProducts(Print(doc), names) == (if d.None? then None else Some(Print(d.value)))
            && (d.Some? ==> DocOk(d.value))
  {
    if names != [] {
      IndexOfTag(doc, "products");
      var k := DocFirst(doc, At(Close("products")));
      if k >= 0 {
        PrintSplice(doc, k, ProductsFragment(names));
        FragmentsPlain(names, []);
        SpliceOk(doc, k, ProductsFragment(names));
      }
    }
  }

  lemma OffsetOfTake(doc: Doc, k: nat, j: int)
    requires -1 <= j <= k <= |doc|
    ensures Offset(doc[..k], j) == Offset(doc, j)
  {
    if j >= 0 {
      assert doc[..k][..j] == doc[..j];
    }
  }

  lemma PlansPosition(doc: Doc, k: nat)
    requires DocOk(doc) && k <= |doc|
    ensures |Print(doc[..k])| <= |Print(doc)|
    ensures LastIndexOf(Print(doc)[..|Print(doc[..k])|], EndTag("plans")) ==
            Offset(doc, DocLast(doc[..k], At(Close("plans"))))
  {
    PrintSplit(doc, k);
    LastIndexOfTag(doc[..k], "plans");
    OffsetOfTake(doc, k, DocLast(doc[..k], At(Close("plans"))));
  }

  lemma PlansCloseOnDoc(doc: Doc)
    requires DocOk(doc)
    ensures PlansClose(Print(doc)) == Offset(doc, DocPlansClose(doc))
  {
    IndexOfTag(doc, "priceLists");
    var k := DocFirst(doc, At(Open("priceLists", "")));
    if k >= 0 {
      PlansPosition(doc, k);
    }
  }

  lemma AddPlansOnDoc(doc: Doc, plans: seq<Plan>)
    requires DocOk(doc)
    ensures var d := DocAddPlans(doc, plans);
            && AddPlans(Print(doc), plans) == (if d.None? then None else Some(Print(d.value)))
            && (d.Some? ==> DocOk(d.value))
  {
    PlansCloseOnDoc(doc);
    var j := DocPlansClose(doc);
    if j >= 0 {
      PrintSplice(doc, j, PlansFragment(plans));
      FragmentsPlain([], plans);
      SpliceOk(doc, j, PlansFragment(plans));
    }
  }

  // ---------------------------------------------------------------- runs of character data

  lemma {:induction false} SpanAppend(t: string, x: string, f: char -> bool)
    ensures Span(t + x, f) == if Span(t, f) == |t| then |t| + Span(x, f) else Span(t, f)
    ensures Span(t, f) < |t| ==> !f(t[Span(t, f)])
    decreases |t|
  {
    if t == [] {
      assert t + x == x;
    } else {
      assert (t + x)[0] == t[0] && (t + x)[1..] == t[1..] + x;
      SpanAppend(t[1..], x, f);
    }
  }

  lemma RunGoesOn(t: string, x: string, f: char -> bool)
    requires Span(t, f) == |t|
    ensures Span(t + x, f) == |t| + Span(x, f) && (t + x)[Span(t + x, f)..] == x[Span(x, f)..]
  {
    SpanAppend(t, x, f);
  }

  lemma RunStops(t: string, x: string, f: char -> bool, w: string)
    requires Span(t, f) < |t| && '<' !in t && w != [] && w[0] == '<'
    ensures !HasPrefix((t + x)[Span(t + x, f)..], w)
  {
    SpanAppend(t, x, f);
    assert (t + x)[Span(t, f)] == t[Span(t, f)];
  }

  /** What follows a run of characters in a printed document is what follows the run of chunks. */
  lemma {:induction false} AfterRun(e: Doc, f: char -> bool, w: string, c: Chunk)
    requires DocOk(e) && !f('<') && !c.Chars? && w != [] && w[0] == '<' && Bridges(StartsWith(w), At(c))
    ensures var k := RunChunks(e, f);
            && (HasPrefix(Print(e)[Span(Print(e), f)..], w) <==> k < |e| && e[k] == c)
            && (k < |e| && e[k] == c ==> Span(Print(e), f) == |Print(e[..k])|)
    decreases |e|
  {
    if e == [] {
    } else if e[0].Chars? {
      var t, x := e[0].text, Print(e[1..]);
      if Span(t, f) == |t| {
        AfterRun(e[1..], f, w, c);
        RunGoesOn(t, x, f);
        PrintTake(e, RunChunks(e[1..], f) + 1);
      } else {
        RunStops(t, x, f, w);
      }
    } else {
      PrintHead(e);
      assert Print(e)[0..] == Print(e) && e[..0] == [];
      assert StartsWith(w)(Print(e)) <==> At(c)(e);
    }
  }

  lemma PrintRunAndTag(doc: Doc, k: nat)
    requires k + 1 < |doc|
    ensures |Print(doc[..k + 2])| == |PrintChunk(doc[0])| + |Print(doc[1..][..k])| + |PrintChunk(doc[k + 1])|
  {
    PrintTake(doc, k + 2);
    var e := doc[1..];
    assert e[..k + 1] == e[..k] + [e[k]];
    PrintAppend(e[..k], [e[k]]);
    assert Print([e[k]]) == PrintChunk(e[k]) + Print([]);
  }

  // ---------------------------------------------------------------- the price-list pattern

  lemma BracketEnds(inside: string, rest: string)
    requires '>' !in inside
    ensures IndexOf(Tag(inside) + rest, ">") == |inside| + 1 && (Tag(inside) + rest)[|inside| + 2..] == rest
  {
    FirstChar("<" + inside, '>', rest);
    assert Tag(inside) + rest == "<" + inside + ['>'] + rest;
    TakeDropAppend(Tag(inside), rest);
  }

  lemma ListMatchOfTag(inside: string, rest: string)
    requires '>' !in inside
    ensures ListMatch(Tag(inside) + rest) ==
            if HasPrefix(inside, LIST_NAME) && PlansMatch(rest) >= 0 then |Tag(inside)| + PlansMatch(rest) else -1
  {
    InsidePrefix(inside, rest, LIST_NAME);
    BracketEnds(inside, rest);
  }

  lemma PlansMatchOnDoc(e: Doc)
    requires DocOk(e)
    ensures var k := RunChunks(e, IsSpace);
            PlansMatch(Print(e)) ==
            if k < |e| && e[k] == Open("plans", "") then |Print(e[..k])| + |Tag("plans")| else -1
  {
    OpenBridges("plans");
    AfterRun(e, IsSpace, Tag("plans"), Open("plans", ""));
  }

  lemma StartTagText(name: string)
    ensures PrintChunk(Open(name, "")) == Tag(name)
  {
    assert name + "" == name;
  }

  lemma TagAfterRun(doc: Doc, k: nat, name: string)
    requires k + 1 < |doc| && doc[k + 1] == Open(name, "")
    ensures |Print(doc[..k + 2])| == |PrintChunk(doc[0])| + |Print(doc[1..][..k])| + |Tag(name)|
  {
    PrintRunAndTag(doc, k);
    StartTagText(name);
  }

  lemma ListTagLength(doc: Doc)
    requires doc != [] && ListChunks(doc) <= |doc| && doc[ListChunks(doc) - 1] == Open("plans", "")
    ensures |Print(doc[..ListChunks(doc)])| ==
            |PrintChunk(doc[0])| + |Print(doc[1..][..RunChunks(doc[1..], IsSpace)])| + |Tag("plans")|
  {
    TagAfterRun(doc, RunChunks(doc[1..], IsSpace), "plans");
  }

  lemma ListMatchOnDoc(doc: Doc)
    requires DocOk(doc) && doc != [] && !doc[0].Chars?
    ensures ListMatch(Print(doc)) == if ListTag(doc) then |Print(doc[..ListChunks(doc)])| else -1
  {
    InsideHasNoMarkup(doc[0]);
    ListMatchOfTag(Inside(doc[0]), Print(doc[1..]));
    PlansMatchOnDoc(doc[1..]);
    if ListTag(doc) {
      ListTagLength(doc);
    }
  }

  lemma ListMatchIff(doc: Doc)
    requires DocOk(doc) && doc != [] && !doc[0].Chars?
    ensures ListMatch(Print(doc)) >= 0 <==> ListTag(doc)
  {
    ListMatchOnDoc(doc);
  }

  lemma ListStartsWithBracket()
    ensures forall t :: ListMatch(t) >= 0 ==> t != [] && t[0] == '<'
  {
    assert forall t :: ListMatch(t) >= 0 ==> t[0] == ("<" + LIST_NAME)[0];
  }

  lemma ListBridges()
    ensures Bridges(Matches(ListMatch), ListTag)
  {
    forall d: Doc | DocOk(d) && d != [] && !d[0].Chars?
      ensures ListMatch(Print(d)) >= 0 <==> ListTag(d)
    {
      ListMatchIff(d);
    }
    ListStartsWithBracket();
  }

  lemma OffsetsAdd(doc: Doc, a: nat, b: nat)
    requires a + b <= |doc|
    ensures |Print(doc[..a + b])| == |Print(doc[..a])| + |Print(doc[a..][..b])|
  {
    assert doc[..a + b] == doc[..a] + doc[a..][..b];
    PrintAppend(doc[..a], doc[a..][..b]);
  }

  lemma FirstMatchOnDoc(lists: Doc)
    requires DocOk(lists)
    ensures FindFirst(Print(lists), Matches(ListMatch)) == Offset(lists, DocFirst(lists, ListTag))
  {
    ListBridges();
    FindFirstInDoc(lists, Matches(ListMatch), ListTag);
  }

  lemma MatchEndOnDoc(doc: Doc, pattern: string -> int, m: nat, n: nat)
    requires m + n <= |doc| && FindFirst(Print(doc), Matches(pattern)) == |Print(doc[..m])|
    requires pattern(Print(doc[m..])) == |Print(doc[m..][..n])|
    ensures FirstMatchEnd(Print(doc), pattern) == |Print(doc[..m + n])|
  {
    PrintSplit(doc, m);
    OffsetsAdd(doc, m, n);
  }

  lemma TagMeasured(d: Doc)
    requires DocOk(d) && ListTag(d)
    ensures ListChunks(d) <= |d| && ListMatch(Print(d)) == |Print(d[..ListChunks(d)])|
  {
    ListMatchOnDoc(d);
  }

  lemma FirstTagMeasured(lists: Doc, m: nat) returns (n: nat)
    requires DocOk(lists) && DocFirst(lists, ListTag) == m
    ensures m + n <= |lists| && ListMatch(Print(lists[m..])) == |Print(lists[m..][..n])|
    ensures DocEntriesAt(lists) == m + n
  {
    DocFirstIsFirst(lists, ListTag);
    n := ListChunks(lists[m..]);
    TagMeasured(lists[m..]);
  }

  lemma EntriesEndOnDoc(lists: Doc, m: nat, n: nat)
    requires m + n <= |lists| && FindFirst(Print(lists), Matches(ListMatch)) == |Print(lists[..m])|
    requires ListMatch(Print(lists[m..])) == |Print(lists[m..][..n])|
    ensures EntriesAt(Print(lists)) == |Print(lists[..m + n])|
  {
    MatchEndOnDoc(lists, ListMatch, m, n);
    EntriesAtEndOfMatch(Print(lists));
  }

  lemma EntriesFoundOnDoc(lists: Doc, m: nat) returns (n: nat)
    requires DocOk(lists) && DocFirst(lists, ListTag) == m
    ensures m + n <= |lists| && DocEntriesAt(lists) == m + n && EntriesAt(Print(lists)) == |Print(lists[..m + n])|
  {
    FirstMatchOnDoc(lists);
    n := FirstTagMeasured(lists, m);
    EntriesEndOnDoc(lists, m, n);
  }

  lemma NoEntriesOnDoc(lists: Doc)
    requires DocOk(lists) && DocFirst(lists, ListTag) < 0
    ensures DocEntriesAt(lists) == -1 && EntriesAt(Print(lists)) == -1
  {
    FirstMatchOnDoc(lists);
  }

  lemma EntriesAtOnDoc(lists: Doc)
    requires DocOk(lists)
    ensures EntriesAt(Print(lists)) == Offset(lists, DocEntriesAt(lists))
  {
    var m := DocFirst(lists, ListTag);
    if m < 0 {
      NoEntriesOnDoc(lists);
    } else {
      var n := EntriesFoundOnDoc(lists, m);
    }
  }

  lemma TakeIsShorter(doc: Doc, k: nat)
    requires k <= |doc|
    ensures |Print(doc[..k])| <= |Print(doc)|
  {
    PrintSplit(doc, k);
  }

  lemma OffsetBehind(doc: Doc, k: nat, n: int)
    requires k <= |doc| && -1 <= n <= |doc| - k
    ensures |Print(doc[..k])| <= |Print(doc)|
    ensures Offset(doc[k..], n) <= |Print(doc)| - |Print(doc[..k])|
    ensures n >= 0 ==> Offset(doc[k..], n) == |Print(doc[..k + n])| - |Print(doc[..k])|
  {
    TakeIsShorter(doc, k);
    if n >= 0 {
      OffsetsAdd(doc, k, n);
      TakeIsShorter(doc, k + n);
    }
  }

  lemma BehindIsSplice<T>(s: seq<T>, i: nat, n: nat, at: nat, x: seq<T>)
    requires i + n == at <= |s|
    ensures SpliceBehind(s, i, n, x) == Splice(s, at, x)
  {
  }

  lemma SpliceFurtherOnDoc(doc: Doc, k: nat, n: nat, x: Doc)
    requires k + n <= |doc|
    ensures |Print(doc[..k + n])| <= |Print(doc)|
    ensures Splice(Print(doc), |Print(doc[..k + n])|, Print(x)) == Print(Splice(doc, k + n, x))
  {
    TakeIsShorter(doc, k + n);
    PrintSplice(doc, k + n, x);
  }

  lemma SpliceBehindOnDoc(doc: Doc, k: nat, n: int, x: Doc)
    requires DocOk(doc) && DocOk(x) && k <= |doc| && -1 <= n <= |doc| - k
    ensures |Print(doc[..k])| <= |Print(doc)| && Offset(doc[k..], n) <= |Print(doc)| - |Print(doc[..k])|
    ensures SpliceBehind(Print(doc), |Print(doc[..k])|, Offset(doc[k..], n), Print(x)) ==
            Print(SpliceBehind(doc, k, n, x))
    ensures DocOk(SpliceBehind(doc, k, n, x))
  {
    OffsetBehind(doc, k, n);
    if n >= 0 {
      SpliceFurtherOnDoc(doc, k, n, x);
      SpliceOk(doc, k + n, x);
      BehindIsSplice(Print(doc), |Print(doc[..k])|, Offset(doc[k..], n), |Print(doc[..k + n])|, Print(x));
      BehindIsSplice(doc, k, n, k + n, x);
    }
  }

  lemma EntriesFrom(doc: Doc, k: nat)
    requires DocOk(doc) && k <= |doc|
    ensures |Print(doc[..k])| <= |Print(doc)|
    ensures EntriesAt(Print(doc)[|Print(doc[..k])|..]) == Offset(doc[k..], DocEntriesAt(doc[k..]))
  {
    PrintSplit(doc, k);
    EntriesAtOnDoc(doc[k..]);
  }

  lemma InsertInListOnDoc(doc: Doc, x: Doc)
    requires DocOk(doc) && DocOk(x)
    ensures InsertInList(Print(doc), Print(x)) == Print(DocInsertInList(doc, x)) && DocOk(DocInsertInList(doc, x))
  {
    var k := DocFirst(doc, At(Open("priceLists", "")));
    IndexOfTag(doc, "priceLists");
    if k >= 0 {
      EntriesFrom(doc, k);
      SpliceBehindOnDoc(doc, k, DocEntriesAt(doc[k..]), x);
    }
  }

  lemma AddEntriesOnDoc(doc: Doc, plans: seq<Plan>)
    requires DocOk(doc)
    ensures AddEntries(Print(doc), plans) == Print(DocAddEntries(doc, plans)) && DocOk(DocAddEntries(doc, plans))
  {
    if plans != [] {
      FragmentsPlain([], plans);
      InsertInListOnDoc(doc, EntriesFragment(plans));
    }
  }

  // ---------------------------------------------------------------- the date pattern

  lemma DateMatchOfTag(rest: string)
    ensures var r := Span(rest, NotBracket);
            DateMatch(Tag("effectiveDate") + rest) ==
            if HasPrefix(rest[r..], EndTag("effectiveDate")) then
              |Tag("effectiveDate")| + r + |EndTag("effectiveDate")|
            else -1
  {
    var t := Tag("effectiveDate") + rest;
    TakeDropAppend(Tag("effectiveDate"), rest);
    assert t[|Tag("effectiveDate")|..] == rest;
  }

  lemma DateMatchElsewhere(doc: Doc)
    requires DocOk(doc) && doc != [] && !doc[0].Chars? && doc[0] != Open("effectiveDate", "")
    ensures DateMatch(Print(doc)) == -1
  {
    DateWord();
    TagAtFront(doc, "effectiveDate");
  }

  lemma DateWord()
    ensures NameOk("effectiveDate")
  {
  }

  lemma DateEnd(e: Doc)
    requires DocOk(e)
    ensures var r, k := Span(Print(e), NotBracket), RunChunks(e, NotBracket);
            && (HasPrefix(Print(e)[r..], EndTag("effectiveDate")) <==> k < |e| && e[k] == Close("effectiveDate"))
            && (k < |e| && e[k] == Close("effectiveDate") ==> r == |Print(e[..k])|)
  {
    CloseBridges("effectiveDate");
    AfterRun(e, NotBracket, EndTag("effectiveDate"), Close("effectiveDate"));
  }

  lemma PrintOpen(name: string, rest: Doc)
    ensures Print([Open(name, "")] + rest) == Tag(name) + Print(rest)
  {
    PrintAppend([Open(name, "")], rest);
    assert name + "" == name;
  }

  lemma DateMatchAtStart(doc: Doc)
    requires DocOk(doc) && doc != [] && doc[0] == Open("effectiveDate", "")
    ensures DateMatch(Print(doc)) == if DateTag(doc) then |Print(doc[..DateChunks(doc)])| else -1
  {
    assert doc == [doc[0]] + doc[1..];
    PrintOpen("effectiveDate", doc[1..]);
    DateMatchOfTag(Print(doc[1..]));
    DateEnd(doc[1..]);
    if DateTag(doc) {
      PrintRunAndTag(doc, RunChunks(doc[1..], NotBracket));
    }
  }

  lemma DateMatchOnDoc(doc: Doc)
    requires DocOk(doc) && doc != [] && !doc[0].Chars?
    ensures DateMatch(Print(doc)) == if DateTag(doc) then |Print(doc[..DateChunks(doc)])| else -1
  {
    if doc[0] == Open("effectiveDate", "") {
      DateMatchAtStart(doc);
    } else {
      DateMatchElsewhere(doc);
    }
  }

  lemma MatchSkips(a: string, b: string, p: TextTest)
    requires forall t :: p(t) ==> t != [] && t[0] == '<'
    requires '<' !in a || (a[0] == '<' && '<' !in a[1..] && !p(a + b))
    ensures FindFirst(a + b, p) == if FindFirst(b, p) < 0 then -1 else |a| + FindFirst(b, p)
  {
    if '<' !in a {
      FindFirstSkips(a, b, p);
    } else {
      assert (a + b)[1..] == a[1..] + b;
      FindFirstSkips(a[1..], b, p);
    }
  }

  lemma MoveOut(a: string, b: string, c: string, d: string)
    ensures a + b + c + d == a + (b + c + d)
  {
    assert a + b + c + d == a + (b + c + d);
  }

  lemma ReplacedAt(s: string, pattern: string -> int, x: string, i: nat)
    requires forall t :: pattern(t) <= |t|
    requires FindFirst(s, Matches(pattern)) == i
    ensures pattern(s[i..]) >= 0
    ensures ReplaceFirst(s, pattern, x) == s[..i] + x + s[i..][pattern(s[i..])..]
  {
    FoundHolds(s, Matches(pattern));
  }

  lemma ReplaceSkips(a: string, b: string, pattern: string -> int, x: string)
    requires forall t :: pattern(t) <= |t| && (pattern(t) >= 0 ==> t != [] && t[0] == '<')
    requires '<' !in a || (a[0] == '<' && '<' !in a[1..] && pattern(a + b) < 0)
    ensures ReplaceFirst(a + b, pattern, x) == a + ReplaceFirst(b, pattern, x)
  {
    MatchSkips(a, b, Matches(pattern));
    var i := FindFirst(b, Matches(pattern));
    if i >= 0 {
      ReplacedBehind(a, b, pattern, x, i);
    }
  }

  lemma ReplacedBehind(a: string, b: string, pattern: string -> int, x: string, i: nat)
    requires forall t :: pattern(t) <= |t|
    requires FindFirst(b, Matches(pattern)) == i && FindFirst(a + b, Matches(pattern)) == |a| + i
    ensures ReplaceFirst(a + b, pattern, x) == a + ReplaceFirst(b, pattern, x)
  {
    ReplacedAt(b, pattern, x, i);
    ReplacedAt(a + b, pattern, x, |a| + i);
    CutInSecond(a, b, i);
    MoveOut(a, b[..i], x, b[i..][pattern(b[i..])..]);
  }

  lemma ReplaceHere(t: string, pattern: string -> int, x: string)
    requires forall t :: pattern(t) <= |t|
    requires pattern(t) >= 0
    ensures ReplaceFirst(t, pattern, x) == x + t[pattern(t)..]
  {
    assert t[0..] == t && t[..0] == "";
  }

  lemma DateStartsWithBracket()
    ensures forall t :: DateMatch(t) <= |t| && (DateMatch(t) >= 0 ==> t != [] && t[0] == '<')
  {
    assert forall t :: DateMatch(t) >= 0 ==> t[0] == Tag("effectiveDate")[0];
  }

  lemma {:induction false} SetDateOnDoc(doc: Doc, now: string)
    requires DocOk(doc)
    ensures SetDate(Print(doc), now) == Print(DocSetDate(doc, now))
    decreases |doc|
  {
    DateStartsWithBracket();
    if doc != [] {
      SetDateOnDoc(doc[1..], now);
      var a, b, x := PrintChunk(doc[0]), Print(doc[1..]), Print(DateDoc(now));
      if doc[0].Chars? {
        ReplaceSkips(a, b, DateMatch, x);
        PrintAppend([doc[0]], DocSetDate(doc[1..], now));
      } else {
        DateMatchOnDoc(doc);
        if DateTag(doc) {
          ReplaceHere(Print(doc), DateMatch, x);
          PrintSplit(doc, DateChunks(doc));
          PrintAppend(DateDoc(now), doc[DateChunks(doc)..]);
        } else {
          ChunkTail(doc[0]);
          ReplaceSkips(a, b, DateMatch, x);
          PrintAppend([doc[0]], DocSetDate(doc[1..], now));
        }
      }
    }
  }

  // ---------------------------------------------------------------- the merge

  function TextOf(d: Option<Doc>): Option<string> {
    if d.None? then None else Some(Print(d.value))
  }

  lemma InsertAllOnDoc(doc: Doc, products: seq<Value>, plans: seq<Plan>)
    requires DocOk(doc)
    ensures var a := AddProducts(Print(doc), products);
            var c := DocInsertAll(doc, products, plans);
            && (c.None? <==> a.None? || AddPlans(a.value, plans).None?)
            && (c.Some? ==> DocOk(c.value) && AddEntries(AddPlans(a.value, plans).value, plans) == Print(c.value))
  {
    AddProductsOnDoc(doc, products);
    var a := DocAddProducts(doc, products);
    if a.Some? {
      AddPlansOnDoc(a.value, plans);
      var b := DocAddPlans(a.value, plans);
      if b.Some? {
        AddEntriesOnDoc(b.value, plans);
      }
    }
  }

  /** On a printed body the text merge fails when the document merge does, and else yields its printed result. */
  lemma MergeOnDoc(doc: Doc, plans: seq<Plan>, now: string)
    requires DocOk(doc)
    ensures MergeText(Print(doc), plans, now) == TextOf(DocMerge(doc, plans, now))
  {
    PlanWords();
    ExtractedNames(doc, "product");
    ExtractedNames(doc, "plan");
    var products, news := DocNewProducts(doc, plans), DocNewPlans(doc, plans);
    InsertAllOnDoc(doc, products, news);
    var c := DocInsertAll(doc, products, news);
    if c.Some? {
      SetDateOnDoc(c.value, now);
    }
  }

  lemma {:induction false} DocLastHere(a: Doc, c: Chunk, b: Doc)
    requires c !in b
    ensures DocLast(a + [c] + b, At(c)) == |a|
    decreases |a|
  {
    var d := a + [c] + b;
    if a == [] {
      DocLastAbsent(b, c);
      assert d[0] == c && d[1..] == b;
    } else {
      assert d[0] == a[0] && d[1..] == a[1..] + [c] + b;
      DocLastHere(a[1..], c, b);
    }
  }

  lemma {:induction false} DocLastAbsent(b: Doc, c: Chunk)
    requires c !in b
    ensures DocLast(b, At(c)) == -1
    decreases |b|
  {
    if b != [] {
      DocLastAbsent(b[1..], c);
    }
  }

  lemma VersionWord()
    ensures NameOk("version")
  {
  }

  /** A catalog document whose last version element holds `body`. */
  function Served(pre: Doc, body: Doc, post: Doc): Doc {
    pre + [Open("version", "")] + (body + [Close("version")] + post)
  }

  predicate NoVersionTag(doc: Doc) {
    Open("version", "") !in doc && Close("version") !in doc
  }

  lemma PrintClose(name: string, rest: Doc)
    ensures Print([Close(name)] + rest) == EndTag(name) + Print(rest)
  {
    PrintAppend([Close(name)], rest);
    assert Print([Close(name)]) == EndTag(name) + "";
  }

  lemma ServedParts(pre: Doc, open: Doc, body: Doc, close: Doc, post: Doc)
    ensures Print(pre + (open + (body + (close + post)))) ==
            Print(pre) + (Print(open) + (Print(body) + (Print(close) + Print(post))))
  {
    PrintAppend(pre, open + (body + (close + post)));
    PrintAppend(open, body + (close + post));
    PrintAppend(body, close + post);
    PrintAppend(close, post);
  }

  lemma VersionTagsText()
    ensures Print([Open("version", "")]) == Tag("version") && Print([Close("version")]) == EndTag("version")
  {
    PrintOpen("version", []);
    PrintClose("version", []);
    assert [Open("version", "")] + [] == [Open("version", "")] && [Close("version")] + [] == [Close("version")];
  }

  lemma ServedText(pre: Doc, body: Doc, post: Doc)
    ensures Print(Served(pre, body, post)) ==
            Print(pre) + (Tag("version") + (Print(body) + (EndTag("version") + Print(post))))
  {
    var open, close := [Open("version", "")], [Close("version")];
    assert Served(pre, body, post) == pre + (open + (body + (close + post)));
    ServedParts(pre, open, body, close, post);
    VersionTagsText();
  }

  lemma LastTagIs(front: Doc, c: Chunk, post: Doc, name: string)
    requires DocOk(front + [c] + post) && NameOk(name) && c !in post
    ensures c == Open(name, "") ==> LastIndexOf(Print(front + [c] + post), Tag(name)) == |Print(front)|
    ensures c == Close(name) ==> LastIndexOf(Print(front + [c] + post), EndTag(name)) == |Print(front)|
  {
    var doc := front + [c] + post;
    LastIndexOfTag(doc, name);
    DocLastHere(front, c, post);
    assert doc[..|front|] == front;
  }

  lemma ServedStart(pre: Doc, body: Doc, post: Doc)
    requires DocOk(Served(pre, body, post)) && NoVersionTag(body) && NoVersionTag(post)
    ensures LastIndexOf(Print(Served(pre, body, post)), Tag("version")) == |Print(pre)|
  {
    VersionWord();
    LastTagIs(pre, Open("version", ""), body + [Close("version")] + post, "version");
  }

  lemma ServedEnd(pre: Doc, body: Doc, post: Doc)
    requires DocOk(Served(pre, body, post)) && NoVersionTag(body) && NoVersionTag(post)
    ensures LastIndexOf(Print(Served(pre, body, post)), EndTag("version")) ==
            |Print(pre)| + |Tag("version")| + |Print(body)|
  {
    var open := [Open("version", "")];
    var front := pre + (open + body);
    assert Served(pre, body, post) == front + [Close("version")] + post;
    VersionWord();
    LastTagIs(front, Close("version"), post, "version");
    PrintAppend(pre, open + body);
    PrintOpen("version", body);
  }

  lemma SliceMiddle(p: string, t: string, b: string, rest: string)
    ensures Slice(p + (t + (b + rest)), |p| + |t|, |p| + |t| + |b|) == b
  {
    var s := p + (t + (b + rest));
    assert s[|p| + |t|..|p| + |t| + |b|] == b;
  }

  lemma VersionBodyAt(xml: string, from: nat, to: nat)
    requires LastIndexOf(xml, Tag("version")) == from && LastIndexOf(xml, EndTag("version")) == to && to > 0
    ensures VersionBody(xml) == Some(Slice(xml, from + |Tag("version")|, to))
  {
  }

  lemma VersionBodyOf(xml: string, p: string, b: string, rest: string)
    requires xml == p + (Tag("version") + (b + rest))
    requires LastIndexOf(xml, Tag("version")) == |p|
    requires LastIndexOf(xml, EndTag("version")) == |p| + |Tag("version")| + |b|
    ensures VersionBody(xml) == Some(b)
  {
    VersionBodyAt(xml, |p|, |p| + |Tag("version")| + |b|);
    SliceMiddle(p, Tag("version"), b, rest);
  }

  /** The body between the last version tags is the text of the last version element's contents. */
  lemma ServedBody(pre: Doc, body: Doc, post: Doc)
    requires DocOk(Served(pre, body, post)) && NoVersionTag(body) && NoVersionTag(post)
    ensures VersionBody(Print(Served(pre, body, post))) == Some(Print(body))
  {
    var xml := Print(Served(pre, body, post));
    ServedStart(pre, body, post);
    ServedEnd(pre, body, post);
    ServedText(pre, body, post);
    VersionBodyOf(xml, Print(pre), Print(body), EndTag("version") + Print(post));
  }

  /** The returned catalog around a merged body. */
  function Framed(d: Option<Doc>): Option<string> {
    if d.None? then None else Some(CATALOG_HEAD + Print(d.value) + EndTag("catalog"))
  }

  /** What `appendPlansToCatalog` returns for a catalog whose current version has the given contents. */
  lemma MergeOfServed(pre: Doc, body: Doc, post: Doc, plans: seq<Plan>, now: string)
    requires DocOk(Served(pre, body, post)) && NoVersionTag(body) && NoVersionTag(post)
    ensures Merged(Print(Served(pre, body, post)), plans, now) == Framed(DocMerge(body, plans, now))
  {
    ServedBody(pre, body, post);
    PartIsOk(pre, body, post);
    MergeOnDoc(body, plans, now);
  }

  lemma PartIsOk(pre: Doc, body: Doc, post: Doc)
    ensures DocOk(Served(pre, body, post)) <==> DocOk(pre) && DocOk(body) && DocOk(post)
  {
    var doc := Served(pre, body, post);
    VersionWord();
    if DocOk(doc) {
      assert forall i :: 0 <= i < |pre| ==> doc[i] == pre[i];
      assert forall i :: 0 <= i < |body| ==> doc[|pre| + 1 + i] == body[i];
      assert forall i :: 0 <= i < |post| ==> doc[|pre| + 1 + |body| + 1 + i] == post[i];
    }
  }
}
