/**
 What a merged catalog declares: how often each name occurs, and what merging again does.
 */
module CatalogDeclarations {
  import opened Xml
  import opened XmlSearch
  import opened CatalogDocs
  import opened CatalogNames
  import opened CatalogSync
  import opened CatalogMerge
  import opened CatalogLists
  import opened CatalogLaws

  // ---------------------------------------------------------------- names of the parts

  function Names(doc: Doc, elem: string): multiset<string> {
    multiset(NamesIn(doc, elem))
  }

  lemma NamesOfSplice(x: Doc, k: nat, fragment: Doc, elem: string)
    requires k <= |x|
    ensures Names(Splice(x, k, fragment), elem) == Names(x, elem) + multiset(NamesIn(fragment, elem))
  {
    assert x == x[..k] + x[k..];
    NamesInAppend(x[..k], x[k..], elem);
    NamesInAppend(x[..k] + fragment, x[k..], elem);
    NamesInAppend(x[..k], fragment, elem);
  }

  lemma NamesOfPut(x: Doc, y: Doc, fragment: Doc, c: Chunk, elem: string)
    requires PutBefore(x, y, fragment, c) || PutAfter(x, y, fragment, c)
    ensures Names(y, elem) == Names(x, elem) + multiset(NamesIn(fragment, elem))
  {
    var k := PutIsSplice(x, y, fragment, c);
    NamesOfSplice(x, k, fragment, elem);
  }

  lemma {:induction false} RunHasNoNames(doc: Doc, f: char -> bool, elem: string)
    ensures NamesIn(doc[RunChunks(doc, f)..], elem) == NamesIn(doc, elem)
    decreases |doc|
  {
    var k := RunChunks(doc, f);
    if k > 0 {
      RunHasNoNames(doc[1..], f, elem);
      assert doc[1..][k - 1..] == doc[k..];
    } else {
      assert doc[0..] == doc;
    }
  }

  lemma DateTagHasNoNames(doc: Doc, elem: string)
    requires DateTag(doc)
    ensures NamesIn(doc[DateChunks(doc)..], elem) == NamesIn(doc, elem)
  {
    var k := RunChunks(doc[1..], NotBracket);
    RunHasNoNames(doc[1..], NotBracket, elem);
    var rest := doc[1..][k..];
    assert rest[0] == Close("effectiveDate") && rest[1..] == doc[k + 2..];
  }

  lemma {:induction false} NamesOfDated(doc: Doc, now: string, elem: string)
    ensures NamesIn(DocSetDate(doc, now), elem) == NamesIn(doc, elem)
    decreases |doc|
  {
    if doc == [] {
    } else if DateTag(doc) {
      DateTagHasNoNames(doc, elem);
      NamesInAppend(DateDoc(now), doc[DateChunks(doc)..], elem);
      NoDeclarations(DateDoc(now), elem);
    } else {
      NamesOfDated(doc[1..], now, elem);
    }
  }

  lemma NamesOfProductsFragment(products: seq<Value>, elem: string)
    ensures NamesIn(ProductsFragment(products), elem) == if elem == "product" then NonEmpty(products) else []
  {
    NamesInAppend(Joined(ProductDocs(products, 16)), Line(12), elem);
    InertHasNoNames(Line(12), elem);
    NamesOfProducts(products, 16, elem);
  }

  lemma NamesOfPlansFragment(plans: seq<Plan>, elem: string)
    ensures NamesIn(PlansFragment(plans), elem) == if elem == "plan" then NonEmpty(Ids(plans)) else []
  {
    NamesInAppend(Run("\n") + Joined(PlanDocs(plans, 0)), Line(12), elem);
    NamesInAppend(Run("\n"), Joined(PlanDocs(plans, 0)), elem);
    InertHasNoNames(Run("\n"), elem);
    InertHasNoNames(Line(12), elem);
    NamesOfPlans(plans, 0, elem);
  }

  function FromProducts(elem: string, products: seq<Value>): multiset<string> {
    if elem == "product" then multiset(NonEmpty(products)) else multiset{}
  }

  function FromPlans(elem: string, plans: seq<Plan>): multiset<string> {
    if elem == "plan" then multiset(NonEmpty(Ids(plans))) else multiset{}
  }

  lemma NamesOfProductStep(x: Doc, y: Doc, products: seq<Value>, elem: string)
    requires if products == [] then y == x else PutBefore(x, y, ProductsFragment(products), Close("products"))
    ensures Names(y, elem) == Names(x, elem) + FromProducts(elem, products)
  {
    if products != [] {
      NamesOfProductsFragment(products, elem);
      NamesOfPut(x, y, ProductsFragment(products), Close("products"), elem);
    }
  }

  lemma NamesOfPlanStep(x: Doc, y: Doc, plans: seq<Plan>, elem: string)
    requires if plans == [] then y == x else PutBefore(x, y, PlansFragment(plans), Close("plans"))
    ensures Names(y, elem) == Names(x, elem) + FromPlans(elem, plans)
  {
    if plans != [] {
      NamesOfPlansFragment(plans, elem);
      NamesOfPut(x, y, PlansFragment(plans), Close("plans"), elem);
    } else {
      assert Ids(plans) == [];
    }
  }

  lemma NamesOfEntryStep(x: Doc, y: Doc, plans: seq<Plan>, elem: string)
    requires y == x || PutAfter(x, y, EntriesFragment(plans), Open("plans", ""))
    ensures Names(y, elem) == Names(x, elem)
  {
    if y != x {
      FragmentsPlain([], plans);
      InertHasNoNames(EntriesFragment(plans), elem);
      NamesOfPut(x, y, EntriesFragment(plans), Open("plans", ""), elem);
    }
  }

  lemma NamesOfSteps(doc: Doc, y: Doc, z: Doc, out: Doc, products: seq<Value>, plans: seq<Plan>, elem: string)
    requires AdditiveBy(doc, y, z, out, products, plans)
    ensures Names(out, elem) == Names(doc, elem) + FromProducts(elem, products) + FromPlans(elem, plans)
  {
    NamesOfProductStep(doc, y, products, elem);
    NamesOfPlanStep(y, z, plans, elem);
    NamesOfEntryStep(z, out, plans, elem);
  }

  /** The names after the insertions: the old ones and the new fragments' ones. */
  lemma NamesOfAdditive(doc: Doc, out: Doc, products: seq<Value>, plans: seq<Plan>, elem: string)
    requires Additive(doc, out, products, plans)
    ensures Names(out, elem) == Names(doc, elem) + FromProducts(elem, products) + FromPlans(elem, plans)
  {
    var y, z :| AdditiveBy(doc, y, z, out, products, plans);
    NamesOfSteps(doc, y, z, out, products, plans, elem);
  }

  // ---------------------------------------------------------------- counting

  lemma {:induction false} CountNonEmpty(names: seq<string>, n: string)
    requires n != ""
    ensures multiset(NonEmpty(names))[n] == multiset(names)[n]
    decreases |names|
  {
    if names != [] {
      CountNonEmpty(names[1..], n);
      assert names == [names[0]] + names[1..];
    }
  }

  lemma IdsOfCons(p: Plan, rest: seq<Plan>)
    ensures Ids([p] + rest) == [p.id] + Ids(rest)
  {
  }

  lemma {:induction false} CountUnlisted(plans: seq<Plan>, known: seq<string>, n: string)
    ensures multiset(Ids(Unlisted(plans, known)))[n] == if n in known then 0 else multiset(Ids(plans))[n]
    decreases |plans|
  {
    if plans != [] {
      CountUnlisted(plans[1..], known, n);
      assert plans == [plans[0]] + plans[1..];
      IdsOfCons(plans[0], plans[1..]);
      IdsOfCons(plans[0], Unlisted(plans[1..], known));
      assert [] + Unlisted(plans[1..], known) == Unlisted(plans[1..], known);
    }
  }

  lemma {:induction false} CountMissing(names: seq<Value>, known: seq<string>, n: string)
    ensures multiset(Missing(names, known))[n] == if n in known then 0 else multiset(names)[n]
    decreases |names|
  {
    if names != [] {
      CountMissing(names[1..], known, n);
      assert names == [names[0]] + names[1..];
    }
  }

  lemma {:induction false} CountDistinct(names: seq<Value>, n: string)
    ensures multiset(Distinct(names))[n] == if n in names then 1 else 0
    decreases |names|
  {
    if names != [] {
      var front, last := names[..|names| - 1], names[|names| - 1];
      CountDistinct(front, n);
      assert names == front + [last];
    }
  }

  // ---------------------------------------------------------------- what a merge declares

  /** How often a text occurs among names; absent texts occur 0 times. */
  function Count(names: seq<string>, n: string): nat {
    multiset(names)[n]
  }

  lemma NamesOfMerge(doc: Doc, plans: seq<Plan>, now: string, elem: string)
    requires DocMerge(doc, plans, now).Some?
    ensures Names(DocMerge(doc, plans, now).value, elem) ==
            Names(doc, elem) + FromProducts(elem, DocNewProducts(doc, plans)) + FromPlans(elem, DocNewPlans(doc, plans))
  {
    var products, news := DocNewProducts(doc, plans), DocNewPlans(doc, plans);
    InsertAllIsAdditive(doc, products, news);
    var c := DocInsertAll(doc, products, news).value;
    NamesOfAdditive(doc, c, products, news, elem);
    NamesOfDated(c, now, elem);
  }

  /** A plan id that the body declares stays declared as often; another one as often as active plans carry it. */
  lemma PlansDeclared(doc: Doc, plans: seq<Plan>, now: string, n: string)
    requires DocMerge(doc, plans, now).Some? && n != ""
    ensures Names(DocMerge(doc, plans, now).value, "plan")[n] ==
            if n in NamesIn(doc, "plan") then Names(doc, "plan")[n] else Count(Ids(Actives(plans)), n)
  {
    NamesOfMerge(doc, plans, now, "plan");
    CountNonEmpty(Ids(DocNewPlans(doc, plans)), n);
    CountUnlisted(Actives(plans), NamesIn(doc, "plan"), n);
  }

  /** A product name that the body declares stays declared as often; another one once, if an active plan needs it. */
  lemma ProductsDeclared(doc: Doc, plans: seq<Plan>, now: string, n: string)
    requires DocMerge(doc, plans, now).Some? && n != ""
    ensures Names(DocMerge(doc, plans, now).value, "product")[n] ==
            if n in NamesIn(doc, "product") then Names(doc, "product")[n]
            else if n in Products(Actives(plans)) then 1
            else 0
  {
    NamesOfMerge(doc, plans, now, "product");
    var needed := Distinct(Products(Actives(plans)));
    CountNonEmpty(DocNewProducts(doc, plans), n);
    CountMissing(needed, NamesIn(doc, "product"), n);
    CountDistinct(Products(Actives(plans)), n);
  }

  predicate Unique(names: seq<string>) {
    forall i, j :: 0 <= i < j < |names| ==> names[i] != names[j]
  }

  lemma {:induction false} CountUnique(names: seq<string>, n: string)
    requires Unique(names)
    ensures Count(names, n) == if n in names then 1 else 0
    decreases |names|
  {
    if names != [] {
      CountUnique(names[1..], n);
      assert names == [names[0]] + names[1..];
    }
  }

  /**
   With distinct ids, and no name declared twice before, every active plan and its product
   are declared exactly once afterwards, and a plan id that no active plan has is not added.
   */
  lemma DeclaredExactlyOnce(doc: Doc, plans: seq<Plan>, now: string, p: Plan)
    requires DocMerge(doc, plans, now).Some?
    requires Unique(Ids(Actives(plans))) && Unique(NamesIn(doc, "plan")) && Unique(NamesIn(doc, "product"))
    requires p in plans && p.id != "" && ProductOf(p) != ""
    ensures var out := DocMerge(doc, plans, now).value;
            && (p.active ==> Names(out, "plan")[p.id] == 1 && Names(out, "product")[ProductOf(p)] == 1)
            && (p.id !in Ids(Actives(plans)) ==> Names(out, "plan")[p.id] == Names(doc, "plan")[p.id])
  {
    PlansDeclared(doc, plans, now, p.id);
    ProductsDeclared(doc, plans, now, ProductOf(p));
    CountUnique(NamesIn(doc, "plan"), p.id);
    CountUnique(NamesIn(doc, "product"), ProductOf(p));
    CountUnique(Ids(Actives(plans)), p.id);
    if p.active {
      ActiveIsListed(Actives(plans), p);
    }
  }

  lemma ActiveIsListed(plans: seq<Plan>, p: Plan)
    requires p in plans
    ensures p.id in Ids(plans) && ProductOf(p) in Products(plans)
  {
    var i :| 0 <= i < |plans| && plans[i] == p;
    assert Ids(plans)[i] == p.id && Products(plans)[i] == ProductOf(p);
  }

  // ---------------------------------------------------------------- merging again

  lemma {:induction false} NamesAreNotEmpty(doc: Doc, elem: string)
    ensures "" !in NamesIn(doc, elem)
    decreases |doc|
  {
    if doc != [] {
      NamesAreNotEmpty(doc[1..], elem);
    }
  }

  predicate AllNamed(plans: seq<Plan>) {
    forall p :: p in Actives(plans) ==> p.id != "" && ProductOf(p) != ""
  }

  lemma NothingUnlisted(plans: seq<Plan>, known: seq<string>)
    ensures Unlisted(plans, known) == [] <==> forall p :: p in plans ==> p.id in known
  {
    var r := Unlisted(plans, known);
    assert r != [] ==> r[0] in r;
  }

  lemma NothingMissing(names: seq<Value>, known: seq<string>)
    ensures Missing(names, known) == [] <==> forall n :: n in names ==> n in known
  {
    var r := Missing(names, known);
    assert r != [] ==> r[0] in r;
  }

  lemma CountIsMembership(names: seq<string>, n: string)
    ensures Count(names, n) > 0 <==> n in names
  {
  }

  lemma ListedIsActive(plans: seq<Plan>, n: string)
    requires n in Products(plans)
    ensures exists p :: p in plans && ProductOf(p) == n
  {
    var i :| 0 <= i < |plans| && Products(plans)[i] == n;
    assert plans[i] in plans;
  }

  lemma NoPlanNewIff(doc: Doc, plans: seq<Plan>)
    requires forall p :: p in Actives(plans) && p.id != "" ==> p.id in NamesIn(doc, "plan")
    ensures DocNewPlans(doc, plans) == [] <==> forall p :: p in Actives(plans) ==> p.id != ""
  {
    NothingUnlisted(Actives(plans), NamesIn(doc, "plan"));
    NamesAreNotEmpty(doc, "plan");
  }

  lemma NoProductNewIff(doc: Doc, plans: seq<Plan>)
    requires forall n :: n in Products(Actives(plans)) && n != "" ==> n in NamesIn(doc, "product")
    ensures DocNewProducts(doc, plans) == [] <==> forall p :: p in Actives(plans) ==> ProductOf(p) != ""
  {
    var active := Actives(plans);
    NothingMissing(Distinct(Products(active)), NamesIn(doc, "product"));
    NamesAreNotEmpty(doc, "product");
    forall p | p in active
      ensures ProductOf(p) in Products(active)
    {
      ActiveIsListed(active, p);
    }
    forall n | n in Products(active)
      ensures exists p :: p in active && ProductOf(p) == n
    {
      ListedIsActive(active, n);
    }
  }

  /** For a body that declares every non-empty name, new are the plans without id and the product without name. */
  lemma NothingNewIff(doc: Doc, plans: seq<Plan>)
    requires forall p :: p in Actives(plans) && p.id != "" ==> p.id in NamesIn(doc, "plan")
    requires forall n :: n in Products(Actives(plans)) && n != "" ==> n in NamesIn(doc, "product")
    ensures AllNamed(plans) <==> DocNewPlans(doc, plans) == [] && DocNewProducts(doc, plans) == []
  {
    NoPlanNewIff(doc, plans);
    NoProductNewIff(doc, plans);
  }

  lemma NothingNewAfterMerge(doc: Doc, plans: seq<Plan>, now: string)
    requires DocMerge(doc, plans, now).Some?
    ensures var out := DocMerge(doc, plans, now).value;
            AllNamed(plans) <==> DocNewPlans(out, plans) == [] && DocNewProducts(out, plans) == []
  {
    var out, active := DocMerge(doc, plans, now).value, Actives(plans);
    forall p | p in active && p.id != ""
      ensures p.id in NamesIn(out, "plan")
    {
      PlansDeclared(doc, plans, now, p.id);
      ActiveIsListed(active, p);
      CountIsMembership(Ids(active), p.id);
    }
    forall n | n in Products(active) && n != ""
      ensures n in NamesIn(out, "product")
    {
      ProductsDeclared(doc, plans, now, n);
    }
    NothingNewIff(out, plans);
  }

  // ---------------------------------------------------------------- the plans' end tag stays

  /** A `</plans>` before the first `<priceLists>`, read from the front. */
  predicate Ready(doc: Doc, closed: bool) {
    doc != [] &&
    if doc[0] == Open("priceLists", "") then closed else Ready(doc[1..], closed || doc[0] == Close("plans"))
  }

  lemma {:induction false} ReadyAppend(a: Doc, b: Doc, closed: bool)
    ensures Ready(a + b, closed) <==>
            if Open("priceLists", "") in a then Ready(a, closed) else Ready(b, closed || Close("plans") in a)
    decreases |a|
  {
    if a == [] {
      assert a + b == b;
    } else {
      assert (a + b)[0] == a[0] && (a + b)[1..] == a[1..] + b;
      ReadyAppend(a[1..], b, closed || a[0] == Close("plans"));
      assert a == [a[0]] + a[1..];
    }
  }

  lemma {:induction false} ReadyNeedsLists(doc: Doc, closed: bool)
    requires Ready(doc, closed)
    ensures Open("priceLists", "") in doc
    decreases |doc|
  {
    if doc[0] != Open("priceLists", "") {
      ReadyNeedsLists(doc[1..], closed || doc[0] == Close("plans"));
    }
  }

  lemma FoundIff(doc: Doc, c: Chunk)
    ensures DocFirst(doc, At(c)) >= 0 <==> c in doc
    ensures DocLast(doc, At(c)) >= 0 <==> c in doc
  {
    FoundAt(doc, c);
    DocFirstIsFirst(doc, At(c));
    DocLastIsLast(doc, At(c));
    if c in doc {
      var i :| 0 <= i < |doc| && doc[i] == c;
      assert At(c)(doc[i..]);
    }
  }

  lemma ReadyIsPlansClose(doc: Doc)
    ensures Ready(doc, false) <==> DocPlansClose(doc) >= 0
  {
    var lists := Open("priceLists", "");
    FoundIff(doc, lists);
    FoundAt(doc, lists);
    BeforeLists(doc);
    var k := DocFirst(doc, At(lists));
    if k >= 0 {
      assert doc == doc[..k] + doc[k..] && doc[k..][0] == lists;
      ReadyAppend(doc[..k], doc[k..], false);
      FoundIff(doc[..k], Close("plans"));
    } else if Ready(doc, false) {
      ReadyNeedsLists(doc, false);
    }
  }

  lemma ReadyAround(a: Doc, fragment: Doc, b: Doc)
    requires Open("priceLists", "") !in fragment && Close("plans") !in fragment
    ensures Ready(a + fragment + b, false) <==> Ready(a + b, false)
  {
    ReadyAppend(a, b, false);
    ReadyAppend(a + fragment, b, false);
    ReadyAppend(a, fragment, false);
  }

  lemma ReadyAfterSplice(x: Doc, k: nat, fragment: Doc)
    requires k <= |x| && forall i :: 0 <= i < |fragment| ==> PlainChunk(fragment[i])
    ensures Ready(Splice(x, k, fragment), false) <==> Ready(x, false)
  {
    assert x == x[..k] + x[k..];
    assert Open("priceLists", "") !in fragment && Close("plans") !in fragment;
    ReadyAround(x[..k], fragment, x[k..]);
  }

  lemma ReadyAfterAdditive(doc: Doc, out: Doc, products: seq<Value>, plans: seq<Plan>)
    requires Additive(doc, out, products, plans)
    ensures Ready(out, false) <==> Ready(doc, false)
  {
    FragmentsPlain(products, plans);
    InertIsPlain(EntriesFragment(plans));
    var y, z :| AdditiveBy(doc, y, z, out, products, plans);
    if products != [] {
      var k := PutIsSplice(doc, y, ProductsFragment(products), Close("products"));
      ReadyAfterSplice(doc, k, ProductsFragment(products));
    }
    if plans != [] {
      var k := PutIsSplice(y, z, PlansFragment(plans), Close("plans"));
      ReadyAfterSplice(y, k, PlansFragment(plans));
    }
    if plans != [] && HasList(doc) {
      var k := PutIsSplice(z, out, EntriesFragment(plans), Open("plans", ""));
      ReadyAfterSplice(z, k, EntriesFragment(plans));
    }
  }
}
