/**
 Merging again: once a merged body is served back as the current version, the same plans
 add nothing, and a larger list adds what it would have added to the original body.
 */
module CatalogRepeat {
  import opened Wrappers
  import opened Xml
  import opened XmlSearch
  import opened CatalogDocs
  import opened CatalogNames
  import opened CatalogSync
  import opened CatalogMerge
  import opened CatalogLists
  import opened CatalogLaws
  import opened CatalogDates
  import opened CatalogDeclarations

  // ---------------------------------------------------------------- dates set twice

  lemma NoDateBecomesDate(doc: Doc, now: string)
    requires doc != [] && !DateTag(doc)
    ensures DocSetDate(doc, now) == [doc[0]] + DocSetDate(doc[1..], now) && !DateTag(DocSetDate(doc, now))
  {
    var d := DocSetDate(doc, now);
    assert d[1..] == DocSetDate(doc[1..], now);
    RunKept(doc[1..], now, NotBracket);
  }

  lemma DateDocIsDate(now: string, rest: Doc)
    requires '<' !in now
    ensures var d := DateDoc(now) + rest; DateTag(d) && d[DateChunks(d)..] == rest
  {
    var d := DateDoc(now) + rest;
    AllNotBracket(now);
    assert d[1..] == [Chars(now), Close("effectiveDate")] + rest;
    assert d[1..][1..] == [Close("effectiveDate")] + rest;
    assert RunChunks(d[1..][1..], NotBracket) == 0;
    assert RunChunks(d[1..], NotBracket) == 1;
  }

  lemma {:induction false} AllNotBracket(t: string)
    requires '<' !in t
    ensures Span(t, NotBracket) == |t|
    decreases |t|
  {
    if t != [] {
      AllNotBracket(t[1..]);
    }
  }

  /** The last date set is the one that stays. */
  lemma {:induction false} LastDateStays(doc: Doc, now: string, later: string)
    requires '<' !in now
    ensures DocSetDate(DocSetDate(doc, now), later) == DocSetDate(doc, later)
    decreases |doc|
  {
    if doc == [] {
    } else if DateTag(doc) {
      DateDocIsDate(now, doc[DateChunks(doc)..]);
    } else {
      LastDateStays(doc[1..], now, later);
      NoDateBecomesDate(doc, now);
      assert DocSetDate(doc, now)[1..] == DocSetDate(doc[1..], now);
    }
  }

  // ---------------------------------------------------------------- what the date does not touch

  lemma DateTagMembers(doc: Doc, c: Chunk)
    requires DateTag(doc) && !c.Chars? && c != Open("effectiveDate", "") && c != Close("effectiveDate")
    ensures c !in doc[..DateChunks(doc)]
  {
    RunIsChars(doc[1..], NotBracket);
    forall i | 0 <= i < DateChunks(doc)
      ensures doc[i] != c
    {
      assert 0 < i < DateChunks(doc) - 1 ==> doc[i] == doc[1..][i - 1];
    }
  }

  lemma {:induction false} DateKeepsChunk(doc: Doc, now: string, c: Chunk)
    requires !c.Chars? && c != Open("effectiveDate", "") && c != Close("effectiveDate")
    ensures c in DocSetDate(doc, now) <==> c in doc
    decreases |doc|
  {
    if doc == [] {
    } else if DateTag(doc) {
      DateTagMembers(doc, c);
      assert doc == doc[..DateChunks(doc)] + doc[DateChunks(doc)..];
    } else {
      DateKeepsChunk(doc[1..], now, c);
      assert doc == [doc[0]] + doc[1..];
    }
  }

  lemma {:induction false} ReadyAfterDate(doc: Doc, now: string, closed: bool)
    ensures Ready(DocSetDate(doc, now), closed) <==> Ready(doc, closed)
    decreases |doc|
  {
    if doc == [] {
    } else if DateTag(doc) {
      var k := DateChunks(doc);
      DateTagMembers(doc, Open("priceLists", ""));
      DateTagMembers(doc, Close("plans"));
      assert doc == doc[..k] + doc[k..];
      ReadyAppend(doc[..k], doc[k..], closed);
      ReadyAppend(DateDoc(now), doc[k..], closed);
    } else {
      ReadyAfterDate(doc[1..], now, closed || doc[0] == Close("plans"));
      assert DocSetDate(doc, now)[0] == doc[0] && DocSetDate(doc, now)[1..] == DocSetDate(doc[1..], now);
    }
  }

  // ---------------------------------------------------------------- when a merge succeeds

  /** A merge succeeds exactly when the plans' end tag is in place and, for new products, the products' end tag. */
  lemma MergeSucceedsIff(doc: Doc, plans: seq<Plan>, now: string)
    ensures DocMerge(doc, plans, now).Some? <==>
            Ready(doc, false) && (DocNewProducts(doc, plans) == [] || Close("products") in doc)
  {
    var products := DocNewProducts(doc, plans);
    FoundIff(doc, Close("products"));
    var y := DocAddProducts(doc, products);
    if y.Some? {
      ReadyIsPlansClose(y.value);
      if products != [] {
        FragmentsPlain(products, []);
        ReadyAfterSplice(doc, DocFirst(doc, At(Close("products"))), ProductsFragment(products));
      }
    }
  }

  lemma SpliceMembers(x: Doc, k: nat, fragment: Doc, c: Chunk)
    requires k <= |x|
    ensures c in Splice(x, k, fragment) <==> c in x || c in fragment
  {
    assert x == x[..k] + x[k..];
  }

  lemma AdditiveKeepsChunk(doc: Doc, out: Doc, products: seq<Value>, plans: seq<Plan>, c: Chunk)
    requires Additive(doc, out, products, plans) && !PlainChunk(c)
    ensures c in out <==> c in doc
  {
    FragmentsPlain(products, plans);
    InertIsPlain(EntriesFragment(plans));
    var y, z :| AdditiveBy(doc, y, z, out, products, plans);
    if products != [] {
      var k := PutIsSplice(doc, y, ProductsFragment(products), Close("products"));
      SpliceMembers(doc, k, ProductsFragment(products), c);
    }
    if plans != [] {
      var k := PutIsSplice(y, z, PlansFragment(plans), Close("plans"));
      SpliceMembers(y, k, PlansFragment(plans), c);
    }
    if plans != [] && HasList(doc) {
      var k := PutIsSplice(z, out, EntriesFragment(plans), Open("plans", ""));
      SpliceMembers(z, k, EntriesFragment(plans), c);
    }
  }

  /** A merge keeps what later merges look for. */
  lemma MergeKeepsPlaces(doc: Doc, plans: seq<Plan>, now: string)
    requires DocMerge(doc, plans, now).Some?
    ensures var out := DocMerge(doc, plans, now).value;
            && Ready(out, false) && Ready(doc, false)
            && (Close("products") in out <==> Close("products") in doc)
  {
    MergeSucceedsIff(doc, plans, now);
    var products, news := DocNewProducts(doc, plans), DocNewPlans(doc, plans);
    InsertAllIsAdditive(doc, products, news);
    var c := DocInsertAll(doc, products, news).value;
    ReadyAfterAdditive(doc, c, products, news);
    ReadyAfterDate(c, now, false);
    AdditiveKeepsChunk(doc, c, products, news, Close("products"));
    DateKeepsChunk(c, now, Close("products"));
  }

  // ---------------------------------------------------------------- the same plans again

  lemma PutGrows(x: Doc, y: Doc, fragment: Doc, c: Chunk)
    requires PutBefore(x, y, fragment, c) || PutAfter(x, y, fragment, c)
    ensures |y| == |x| + |fragment|
  {
    var k := PutIsSplice(x, y, fragment, c);
  }

  lemma AdditiveGrows(doc: Doc, out: Doc, products: seq<Value>, plans: seq<Plan>)
    requires Additive(doc, out, products, plans) && (products != [] || plans != [])
    ensures |out| > |doc|
  {
    var y, z :| AdditiveBy(doc, y, z, out, products, plans);
    if products != [] {
      PutGrows(doc, y, ProductsFragment(products), Close("products"));
    }
    if plans != [] {
      PutGrows(y, z, PlansFragment(plans), Close("plans"));
    }
    if plans != [] && HasList(doc) {
      PutGrows(z, out, EntriesFragment(plans), Open("plans", ""));
    }
    assert |ProductsFragment(products)| > 0 && |PlansFragment(plans)| > 0;
  }

  /** A merge changes no more than the date exactly when nothing is new. */
  lemma OnlyDateChangesIff(doc: Doc, plans: seq<Plan>, later: string)
    requires Ready(doc, false)
    ensures DocMerge(doc, plans, later) == Some(DocSetDate(doc, later)) <==>
            DocNewProducts(doc, plans) == [] && DocNewPlans(doc, plans) == []
  {
    ReadyIsPlansClose(doc);
    if DocMerge(doc, plans, later).Some? {
      MergeIsAdditive(doc, plans, later);
      if DocNewProducts(doc, plans) != [] || DocNewPlans(doc, plans) != [] {
        AdditiveGrows(DocSetDate(doc, later), DocMerge(doc, plans, later).value,
                      DocNewProducts(doc, plans), DocNewPlans(doc, plans));
      }
    }
  }

  /** Merging again at a later time, in terms of the first merge's insertions. */
  lemma SecondMerge(doc: Doc, plans: seq<Plan>, now: string, later: string)
    requires '<' !in now && DocMerge(doc, plans, now).Some?
    ensures DocMerge(doc, plans, later) == Some(DocSetDate(DocMerge(doc, plans, now).value, later))
  {
    var c := DocInsertAll(doc, DocNewProducts(doc, plans), DocNewPlans(doc, plans)).value;
    LastDateStays(c, now, later);
  }

  /**
   Serving a merged body back and merging the same plans again gives what one merge at the
   later time gives, if and only if every active plan has an id and a product name.
   */
  lemma MergeIsIdempotentIff(doc: Doc, plans: seq<Plan>, now: string, later: string)
    requires '<' !in now && DocMerge(doc, plans, now).Some?
    ensures DocMerge(DocMerge(doc, plans, now).value, plans, later) == DocMerge(doc, plans, later) <==> AllNamed(plans)
  {
    var out := DocMerge(doc, plans, now).value;
    SecondMerge(doc, plans, now, later);
    NothingNewAfterMerge(doc, plans, now);
    MergeKeepsPlaces(doc, plans, now);
    OnlyDateChangesIff(out, plans, later);
  }

  // ---------------------------------------------------------------- the same plans again, on texts

  lemma {:induction false} DatedOk(doc: Doc, now: string)
    requires DocOk(doc) && '<' !in now
    ensures DocOk(DocSetDate(doc, now))
    decreases |doc|
  {
    if doc != [] {
      if DateTag(doc) {
        assert NameOk("effectiveDate");
        AppendOk(DateDoc(now), doc[DateChunks(doc)..]);
      } else {
        DatedOk(doc[1..], now);
        AppendOk([doc[0]], DocSetDate(doc[1..], now));
      }
    }
  }

  lemma MergedOk(doc: Doc, plans: seq<Plan>, now: string)
    requires DocOk(doc) && '<' !in now && DocMerge(doc, plans, now).Some?
    ensures DocOk(DocMerge(doc, plans, now).value)
  {
    var products, news := DocNewProducts(doc, plans), DocNewPlans(doc, plans);
    InsertAllOnDoc(doc, products, news);
    DatedOk(DocInsertAll(doc, products, news).value, now);
  }

  lemma MergedHasNoVersion(doc: Doc, plans: seq<Plan>, now: string)
    requires NoVersionTag(doc) && DocMerge(doc, plans, now).Some?
    ensures NoVersionTag(DocMerge(doc, plans, now).value)
  {
    var products, news := DocNewProducts(doc, plans), DocNewPlans(doc, plans);
    InsertAllIsAdditive(doc, products, news);
    var c := DocInsertAll(doc, products, news).value;
    AdditiveKeepsChunk(doc, c, products, news, Open("version", ""));
    AdditiveKeepsChunk(doc, c, products, news, Close("version"));
    DateKeepsChunk(c, now, Open("version", ""));
    DateKeepsChunk(c, now, Close("version"));
  }

  lemma PutPrintsMore(x: Doc, y: Doc, fragment: Doc, c: Chunk)
    requires PutBefore(x, y, fragment, c) || PutAfter(x, y, fragment, c)
    ensures |Print(y)| == |Print(x)| + |Print(fragment)|
  {
    var k := PutIsSplice(x, y, fragment, c);
    PrintSplice(x, k, fragment);
  }

  lemma FragmentsPrint(products: seq<Value>, plans: seq<Plan>)
    ensures |Print(ProductsFragment(products))| > 0 && |Print(PlansFragment(plans))| > 0
  {
    PrintAppend(Joined(ProductDocs(products, 16)), Line(12));
    PrintAppend(Run("\n") + Joined(PlanDocs(plans, 0)), Line(12));
    assert Print(Line(12)) == PrintChunk(Line(12)[0]) + Print([]);
  }

  lemma AdditivePrintsMore(doc: Doc, out: Doc, products: seq<Value>, plans: seq<Plan>)
    requires Additive(doc, out, products, plans) && (products != [] || plans != [])
    ensures |Print(out)| > |Print(doc)|
  {
    FragmentsPrint(products, plans);
    var y, z :| AdditiveBy(doc, y, z, out, products, plans);
    if products != [] {
      PutPrintsMore(doc, y, ProductsFragment(products), Close("products"));
    }
    if plans != [] {
      PutPrintsMore(y, z, PlansFragment(plans), Close("plans"));
    }
    if plans != [] && HasList(doc) {
      PutPrintsMore(z, out, EntriesFragment(plans), Open("plans", ""));
    }
  }

  lemma SameTextIff(doc: Doc, plans: seq<Plan>, later: string)
    requires DocOk(doc) && Ready(doc, false) && '<' !in later
    ensures TextOf(DocMerge(doc, plans, later)) == Some(Print(DocSetDate(doc, later))) <==>
            DocNewProducts(doc, plans) == [] && DocNewPlans(doc, plans) == []
  {
    OnlyDateChangesIff(doc, plans, later);
    var products, news := DocNewProducts(doc, plans), DocNewPlans(doc, plans);
    if DocMerge(doc, plans, later).Some? && (products != [] || news != []) {
      MergeIsAdditive(doc, plans, later);
      AdditivePrintsMore(DocSetDate(doc, later), DocMerge(doc, plans, later).value, products, news);
    }
  }

  lemma FrameIsInjective(head: string, a: string, b: string, tail: string)
    ensures head + a + tail == head + b + tail <==> a == b
  {
    if head + a + tail == head + b + tail {
      assert |a| == |b|;
      assert (head + a + tail)[|head|..|head| + |a|] == a;
      assert (head + b + tail)[|head|..|head| + |b|] == b;
    }
  }

  lemma FramedEqualIff(a: Option<Doc>, b: Doc)
    ensures Framed(a) == Framed(Some(b)) <==> TextOf(a) == Some(Print(b))
  {
    if a.Some? {
      FrameIsInjective(CATALOG_HEAD, Print(a.value), Print(b), EndTag("catalog"));
    }
  }

  lemma ServedAgain(pre: Doc, body: Doc, post: Doc, plans: seq<Plan>, now: string)
    requires DocOk(body) && NoVersionTag(body) && '<' !in now && DocMerge(body, plans, now).Some?
    requires DocOk(pre) && DocOk(post)
    ensures var out := DocMerge(body, plans, now).value;
            DocOk(out) && NoVersionTag(out) && DocOk(Served(pre, out, post))
  {
    MergedOk(body, plans, now);
    MergedHasNoVersion(body, plans, now);
    PartIsOk(pre, DocMerge(body, plans, now).value, post);
  }

  lemma SecondTextIff(body: Doc, plans: seq<Plan>, now: string, later: string)
    requires DocOk(body) && '<' !in now && '<' !in later && DocMerge(body, plans, now).Some?
    ensures Framed(DocMerge(DocMerge(body, plans, now).value, plans, later)) == Framed(DocMerge(body, plans, later))
            <==> AllNamed(plans)
  {
    var out := DocMerge(body, plans, now).value;
    MergedOk(body, plans, now);
    SecondMerge(body, plans, now, later);
    NothingNewAfterMerge(body, plans, now);
    MergeKeepsPlaces(body, plans, now);
    SameTextIff(out, plans, later);
    FramedEqualIff(DocMerge(out, plans, later), DocSetDate(out, later));
  }

  /**
   `appendPlansToCatalog` on a catalog that serves the merged body returns the same text as
   on the original catalog at that later time, if and only if every active plan is named.
   */
  lemma MergeServedBackIff(pre: Doc, body: Doc, post: Doc, pre2: Doc, post2: Doc,
                           plans: seq<Plan>, now: string, later: string)
    requires DocOk(Served(pre, body, post)) && NoVersionTag(body) && NoVersionTag(post)
    requires '<' !in now && '<' !in later && DocMerge(body, plans, now).Some?
    requires DocOk(pre2) && DocOk(post2) && NoVersionTag(post2)
    ensures Merged(Print(Served(pre2, DocMerge(body, plans, now).value, post2)), plans, later) ==
            Merged(Print(Served(pre, body, post)), plans, later)
            <==> AllNamed(plans)
  {
    PartIsOk(pre, body, post);
    ServedAgain(pre2, body, post2, plans, now);
    MergeOfServed(pre, body, post, plans, later);
    MergeOfServed(pre2, DocMerge(body, plans, now).value, post2, plans, later);
    SecondTextIff(body, plans, now, later);
  }

  // ---------------------------------------------------------------- a larger list later

  predicate Extends(large: seq<Plan>, small: seq<Plan>) {
    forall p :: p in Actives(small) ==> p in Actives(large)
  }

  lemma ExtendsNames(large: seq<Plan>, small: seq<Plan>)
    requires Extends(large, small)
    ensures forall n :: n in Ids(Actives(small)) ==> n in Ids(Actives(large))
    ensures forall n :: n in Products(Actives(small)) ==> n in Products(Actives(large))
  {
    forall n | n in Ids(Actives(small))
      ensures n in Ids(Actives(large))
    {
      var i :| 0 <= i < |Actives(small)| && Ids(Actives(small))[i] == n;
      ActiveIsListed(Actives(large), Actives(small)[i]);
    }
    forall n | n in Products(Actives(small))
      ensures n in Products(Actives(large))
    {
      ListedIsActive(Actives(small), n);
      var p :| p in Actives(small) && ProductOf(p) == n;
      ActiveIsListed(Actives(large), p);
    }
  }

  lemma SameMissing(names: seq<Value>, known: seq<string>, other: seq<string>)
    requires multiset(known) == multiset(other)
    ensures Missing(names, known) == [] <==> Missing(names, other) == []
  {
    NothingMissing(names, known);
    NothingMissing(names, other);
    assert forall n :: n in known <==> n in multiset(known);
    assert forall n :: n in other <==> n in multiset(other);
  }

  /** A merge in between does not change whether a later one succeeds. */
  lemma LaterMergeSucceeds(doc: Doc, small: seq<Plan>, large: seq<Plan>, now: string, later: string)
    requires DocMerge(doc, small, now).Some?
    ensures DocMerge(DocMerge(doc, small, now).value, large, later).Some? <==> DocMerge(doc, large, later).Some?
  {
    var out := DocMerge(doc, small, now).value;
    MergeKeepsPlaces(doc, small, now);
    MergeSucceedsIff(doc, small, now);
    MergeSucceedsIff(doc, large, later);
    MergeSucceedsIff(out, large, later);
    if Close("products") !in doc {
      NamesOfMerge(doc, small, now, "product");
      assert NonEmpty([]) == [];
      SameMissing(Distinct(Products(Actives(large))), NamesIn(doc, "product"), NamesIn(out, "product"));
    }
  }

  lemma SameCounts(a: seq<string>, b: seq<string>)
    requires "" !in a && "" !in b
    requires forall n :: n != "" ==> multiset(a)[n] == multiset(b)[n]
    ensures multiset(a) == multiset(b)
  {
    assert multiset(a)[""] == 0 == multiset(b)[""];
  }

  /**
   Merging a list and later a list that extends it declares the same products, equally
   often, as merging the larger one at once; with distinct ids the same holds for plans.
   */
  lemma LaterMergeDeclares(doc: Doc, small: seq<Plan>, large: seq<Plan>, now: string, later: string)
    requires DocMerge(doc, small, now).Some? && DocMerge(doc, large, later).Some? && Extends(large, small)
    ensures var out := DocMerge(doc, small, now).value;
            var twice, once := DocMerge(out, large, later), DocMerge(doc, large, later).value;
            && twice.Some?
            && Names(twice.value, "product") == Names(once, "product")
            && (Unique(Ids(Actives(small))) && Unique(Ids(Actives(large))) ==>
                  Names(twice.value, "plan") == Names(once, "plan"))
  {
    LaterMergeSucceeds(doc, small, large, now, later);
    LaterProducts(doc, small, large, now, later);
    if Unique(Ids(Actives(small))) && Unique(Ids(Actives(large))) {
      LaterPlans(doc, small, large, now, later);
    }
  }

  lemma LaterProduct(doc: Doc, small: seq<Plan>, large: seq<Plan>, now: string, later: string, n: string)
    requires DocMerge(doc, small, now).Some? && DocMerge(doc, large, later).Some? && n != ""
    requires n in Products(Actives(small)) ==> n in Products(Actives(large))
    requires DocMerge(DocMerge(doc, small, now).value, large, later).Some?
    ensures Names(DocMerge(DocMerge(doc, small, now).value, large, later).value, "product")[n] ==
            Names(DocMerge(doc, large, later).value, "product")[n]
  {
    var out := DocMerge(doc, small, now).value;
    ProductsDeclared(doc, small, now, n);
    ProductsDeclared(out, large, later, n);
    ProductsDeclared(doc, large, later, n);
    CountIsMembership(NamesIn(out, "product"), n);
    CountIsMembership(NamesIn(doc, "product"), n);
  }

  lemma LaterProducts(doc: Doc, small: seq<Plan>, large: seq<Plan>, now: string, later: string)
    requires DocMerge(doc, small, now).Some? && DocMerge(doc, large, later).Some? && Extends(large, small)
    requires DocMerge(DocMerge(doc, small, now).value, large, later).Some?
    ensures Names(DocMerge(DocMerge(doc, small, now).value, large, later).value, "product") ==
            Names(DocMerge(doc, large, later).value, "product")
  {
    var twice := NamesIn(DocMerge(DocMerge(doc, small, now).value, large, later).value, "product");
    var once := NamesIn(DocMerge(doc, large, later).value, "product");
    ExtendsNames(large, small);
    forall n | n != ""
      ensures multiset(twice)[n] == multiset(once)[n]
    {
      LaterProduct(doc, small, large, now, later, n);
    }
    NamesAreNotEmpty(DocMerge(DocMerge(doc, small, now).value, large, later).value, "product");
    NamesAreNotEmpty(DocMerge(doc, large, later).value, "product");
    SameCounts(twice, once);
  }

  lemma LaterPlan(doc: Doc, small: seq<Plan>, large: seq<Plan>, now: string, later: string, n: string)
    requires DocMerge(doc, small, now).Some? && DocMerge(doc, large, later).Some? && n != ""
    requires n in Ids(Actives(small)) ==> n in Ids(Actives(large))
    requires Unique(Ids(Actives(small))) && Unique(Ids(Actives(large)))
    requires DocMerge(DocMerge(doc, small, now).value, large, later).Some?
    ensures Names(DocMerge(DocMerge(doc, small, now).value, large, later).value, "plan")[n] ==
            Names(DocMerge(doc, large, later).value, "plan")[n]
  {
    var out := DocMerge(doc, small, now).value;
    PlansDeclared(doc, small, now, n);
    PlansDeclared(out, large, later, n);
    PlansDeclared(doc, large, later, n);
    CountIsMembership(NamesIn(out, "plan"), n);
    CountIsMembership(NamesIn(doc, "plan"), n);
    CountUnique(Ids(Actives(small)), n);
    CountUnique(Ids(Actives(large)), n);
  }

  lemma LaterPlans(doc: Doc, small: seq<Plan>, large: seq<Plan>, now: string, later: string)
    requires DocMerge(doc, small, now).Some? && DocMerge(doc, large, later).Some? && Extends(large, small)
    requires DocMerge(DocMerge(doc, small, now).value, large, later).Some?
    requires Unique(Ids(Actives(small))) && Unique(Ids(Actives(large)))
    ensures Names(DocMerge(DocMerge(doc, small, now).value, large, later).value, "plan") ==
            Names(DocMerge(doc, large, later).value, "plan")
  {
    var twice := NamesIn(DocMerge(DocMerge(doc, small, now).value, large, later).value, "plan");
    var once := NamesIn(DocMerge(doc, large, later).value, "plan");
    ExtendsNames(large, small);
    forall n | n != ""
      ensures multiset(twice)[n] == multiset(once)[n]
    {
      LaterPlan(doc, small, large, now, later, n);
    }
    NamesAreNotEmpty(DocMerge(DocMerge(doc, small, now).value, large, later).value, "plan");
    NamesAreNotEmpty(DocMerge(doc, large, later).value, "plan");
    SameCounts(twice, once);
  }
}
