/**
 Which plans a merge lists: the entries of price lists afterwards. A new plan gets
 its entries exactly where the body has a list for them; a plan that was declared
 without an entry is never listed by a later merge.
 */
module CatalogEntries {
  import opened Xml
  import opened CatalogDocs
  import opened CatalogNames
  import opened CatalogSync
  import opened CatalogMerge
  import opened CatalogLists
  import opened CatalogLaws
  import opened CatalogDeclarations
  import opened CatalogRepeat

  /** `<plan>id</plan>` */
  predicate EntryTag(doc: Doc) {
    |doc| >= 3 && doc[0] == Open("plan", "") && doc[1].Chars? && doc[2] == Close("plan")
  }

  /** The ids of the entries, in order. */
  function EntriesIn(doc: Doc): seq<string> {
    if doc == [] then []
    else FirstEntry(doc) + EntriesIn(doc[1..])
  }

  function FirstEntry(doc: Doc): seq<string> {
    if EntryTag(doc) then [doc[1].text] else []
  }

  function Entries(doc: Doc): multiset<string> {
    multiset(EntriesIn(doc))
  }

  // ---------------------------------------------------------------- entries of the parts

  /** The start of `y` ends no entry that was begun before. */
  predicate EndsNoEntry(y: Doc) {
    y == [] || (y[0] != Close("plan") && !(y[0].Chars? && |y| > 1 && y[1] == Close("plan")))
  }

  /** The end of `x` begins no entry that is still to be ended. */
  predicate BeginsNoEntry(x: Doc) {
    x == [] || (!x[|x| - 1].Chars? && x[|x| - 1] != Open("plan", ""))
  }

  lemma EntryApart(x: Doc, y: Doc)
    requires x != [] && (EndsNoEntry(y) || BeginsNoEntry(x))
    ensures FirstEntry(x + y) == FirstEntry(x)
  {
    assert |x| == 1 ==> x[|x| - 1] == x[0];
    assert |x| == 2 ==> x[|x| - 1] == x[1];
  }

  lemma AssociateEntries(a: seq<string>, b: seq<string>, c: seq<string>)
    ensures a + b + c == a + (b + c)
  {
  }

  lemma {:induction false} EntriesInAppend(x: Doc, y: Doc)
    requires EndsNoEntry(y) || BeginsNoEntry(x)
    ensures EntriesIn(x + y) == EntriesIn(x) + EntriesIn(y)
    decreases |x|
  {
    if x == [] {
      assert x + y == y;
    } else {
      EntryApart(x, y);
      assert (x + y)[1..] == x[1..] + y;
      assert |x| > 1 ==> x[1..][|x| - 2] == x[|x| - 1];
      EntriesInAppend(x[1..], y);
      AssociateEntries(FirstEntry(x), EntriesIn(x[1..]), EntriesIn(y));
    }
  }

  lemma {:induction false} NoEntryInFront(x: Doc, y: Doc)
    requires NoEntry(x)
    ensures EntriesIn(x + y) == EntriesIn(y)
    decreases |x|
  {
    if x == [] {
      assert x + y == y;
    } else {
      assert (x + y)[0] == x[0] && (x + y)[1..] == x[1..] + y;
      NoEntryInFront(x[1..], y);
    }
  }

  // ---------------------------------------------------------------- entries of the fragments

  lemma NamedHasNoEntry(indent: nat, elem: string, name: Value, body: Doc)
    requires NoEntry(body)
    ensures NoEntry(NamedDoc(indent, elem, name, body))
  {
    assert NameAttrs(name) != "";
  }

  lemma {:induction false} JoinedHasNoEntry(docs: seq<Doc>)
    requires forall i :: 0 <= i < |docs| ==> NoEntry(docs[i])
    ensures NoEntry(Joined(docs))
    decreases |docs|
  {
    if |docs| > 1 {
      JoinedHasNoEntry(docs[1..]);
    }
  }

  lemma ProductsHaveNoEntry(names: seq<Value>)
    ensures NoEntry(ProductsFragment(names))
  {
    forall i | 0 <= i < |names|
      ensures NoEntry(ProductDocs(names, 16)[i])
    {
      NamedHasNoEntry(16, "product", names[i], ProductBody(16));
    }
    JoinedHasNoEntry(ProductDocs(names, 16));
  }

  lemma PlansHaveNoEntry(plans: seq<Plan>)
    ensures NoEntry(PlansFragment(plans))
  {
    forall i | 0 <= i < |plans|
      ensures NoEntry(PlanDocs(plans, 0)[i])
    {
      NamedHasNoEntry(16, "plan", plans[i].id, PlanBody(plans[i], 0));
    }
    JoinedHasNoEntry(PlanDocs(plans, 0));
  }

  lemma JoinedStart(docs: seq<Doc>)
    requires docs != [] && |docs[0]| >= 2
    ensures |Joined(docs)| >= 2 && Joined(docs)[0] == docs[0][0] && Joined(docs)[1] == docs[0][1]
  {
  }

  /** Character data and then no end tag: such a fragment ends no entry, whatever follows it. */
  predicate FragmentStart(y: Doc) {
    |y| >= 2 && y[0].Chars? && !y[1].Close?
  }

  lemma ProductsStart(products: seq<Value>)
    requires products != []
    ensures FragmentStart(ProductsFragment(products))
  {
    JoinedStart(ProductDocs(products, 16));
  }

  lemma StartWithLine(d: Doc, e: Doc)
    requires d != [] && d[0].Chars?
    ensures FragmentStart(Run("\n") + d + e)
  {
  }

  lemma PlansStart(plans: seq<Plan>)
    requires plans != []
    ensures FragmentStart(PlansFragment(plans))
  {
    var docs := PlanDocs(plans, 0);
    JoinedStart(docs);
    assert docs[0][0] == Chars(Spaces(16));
    StartWithLine(Joined(docs), Line(12));
  }

  lemma EntriesOfEntry(p: Plan)
    ensures EntriesIn(EntryDoc(p)) == [p.id] && BeginsNoEntry(EntryDoc(p))
  {
    var rest := [Chars(p.id), Close("plan")];
    var e := [Open("plan", "")] + rest;
    assert EntryDoc(p) == [Chars(Spaces(24))] + e;
    NoEntryInFront([Chars(Spaces(24))], e);
    NoEntryInFront(rest, []);
    assert rest + [] == rest && e[1..] == rest;
  }

  lemma EntriesBehindEntry(p: Plan, y: Doc)
    requires y != [] && BeginsNoEntry(y)
    ensures EntriesIn(EntryDoc(p) + Run("\n") + y) == [p.id] + EntriesIn(y)
    ensures BeginsNoEntry(EntryDoc(p) + Run("\n") + y)
  {
    EntriesOfEntry(p);
    EntriesInAppend(EntryDoc(p), Run("\n") + y);
    NoEntryInFront(Run("\n"), y);
    assert EntryDoc(p) + Run("\n") + y == EntryDoc(p) + (Run("\n") + y);
  }

  lemma {:induction false} EntriesOfJoined(plans: seq<Plan>)
    ensures EntriesIn(Joined(EntryDocs(plans))) == Ids(plans) && BeginsNoEntry(Joined(EntryDocs(plans)))
    decreases |plans|
  {
    if plans != [] {
      EntriesOfEntry(plans[0]);
      var rest := EntryDocs(plans[1..]);
      assert EntryDocs(plans) == [EntryDoc(plans[0])] + rest;
      assert Ids(plans) == [plans[0].id] + Ids(plans[1..]);
      if |plans| > 1 {
        EntriesOfJoined(plans[1..]);
        assert EntryDocs(plans)[1..] == rest;
        EntriesBehindEntry(plans[0], Joined(rest));
      }
    }
  }

  lemma EntriesOfFragment(plans: seq<Plan>)
    ensures EntriesIn(EntriesFragment(plans)) == Ids(plans)
    ensures plans != [] ==> BeginsNoEntry(EntriesFragment(plans))
  {
    EntriesOfJoined(plans);
    NoEntryInFront(Run("\n"), Joined(EntryDocs(plans)));
  }

  // ---------------------------------------------------------------- entries after the steps

  lemma EntriesAroundQuiet(a: Doc, fragment: Doc, b: Doc)
    requires b != [] && b[0].Close? && b[0] != Close("plan") && NoEntry(fragment) && FragmentStart(fragment)
    ensures EntriesIn(a + fragment + b) == EntriesIn(a + b)
  {
    assert a + fragment + b == a + (fragment + b);
    EntriesInAppend(a, b);
    EntriesInAppend(a, fragment + b);
    NoEntryInFront(fragment, b);
  }

  lemma EntriesAround(a: Doc, fragment: Doc, b: Doc)
    requires BeginsNoEntry(a) && BeginsNoEntry(fragment)
    ensures EntriesIn(a + fragment + b) == EntriesIn(a) + EntriesIn(fragment) + EntriesIn(b)
    ensures EntriesIn(a + b) == EntriesIn(a) + EntriesIn(b)
  {
    assert a + fragment + b == a + (fragment + b);
    EntriesInAppend(a, b);
    EntriesInAppend(a, fragment + b);
    EntriesInAppend(fragment, b);
    AssociateEntries(EntriesIn(a), EntriesIn(fragment), EntriesIn(b));
  }

  lemma EntriesBefore(x: Doc, y: Doc, fragment: Doc, name: string)
    requires PutBefore(x, y, fragment, Close(name)) && name != "plan"
    requires NoEntry(fragment) && FragmentStart(fragment)
    ensures EntriesIn(y) == EntriesIn(x)
  {
    var k: nat :| k < |x| && x[k] == Close(name) && y == Splice(x, k, fragment);
    assert x == x[..k] + x[k..];
    EntriesAroundQuiet(x[..k], fragment, x[k..]);
  }

  lemma EntriesAfter(x: Doc, y: Doc, fragment: Doc, name: string)
    requires PutAfter(x, y, fragment, Open(name, "")) && name != "plan" && BeginsNoEntry(fragment)
    ensures Entries(y) == Entries(x) + multiset(EntriesIn(fragment))
  {
    var k: nat :| k < |x| && x[k] == Open(name, "") && y == Splice(x, k + 1, fragment);
    EntriesBehind(x, k, fragment, name);
  }

  lemma EntriesBehind(x: Doc, k: nat, fragment: Doc, name: string)
    requires k < |x| && x[k] == Open(name, "") && name != "plan" && BeginsNoEntry(fragment)
    ensures Entries(Splice(x, k + 1, fragment)) == Entries(x) + multiset(EntriesIn(fragment))
  {
    var a, b := x[..k + 1], x[k + 1..];
    assert x == a + b && a[|a| - 1] == x[k];
    EntriesAround(a, fragment, b);
  }

  lemma EntriesOfAdditive(doc: Doc, out: Doc, products: seq<Value>, plans: seq<Plan>)
    requires Additive(doc, out, products, plans)
    ensures Entries(out) == Entries(doc) + if HasList(doc) then multiset(Ids(plans)) else multiset{}
  {
    var y, z :| AdditiveBy(doc, y, z, out, products, plans);
    if products != [] {
      ProductsHaveNoEntry(products);
      ProductsStart(products);
      EntriesBefore(doc, y, ProductsFragment(products), "products");
    }
    if plans != [] {
      PlansHaveNoEntry(plans);
      PlansStart(plans);
      EntriesBefore(y, z, PlansFragment(plans), "plans");
      if HasList(doc) {
        EntriesOfFragment(plans);
        EntriesAfter(z, out, EntriesFragment(plans), "plans");
      }
    } else {
      assert Ids(plans) == [];
    }
  }

  // ---------------------------------------------------------------- entries and the date

  lemma EntryAfterDate(doc: Doc, now: string)
    requires doc != [] && !DateTag(doc)
    ensures EntryTag(DocSetDate(doc, now)) <==> EntryTag(doc)
    ensures EntryTag(doc) ==> DocSetDate(doc, now)[1] == doc[1]
  {
    var d := DocSetDate(doc, now);
    assert d[1..] == DocSetDate(doc[1..], now);
    if |doc| > 1 {
      HeadKept(doc[1..], now);
      if doc[1].Chars? {
        assert d[2..] == d[1..][1..] == DocSetDate(doc[2..], now);
        if |doc| > 2 {
          HeadKept(doc[2..], now);
        }
      }
    }
  }

  lemma DateHasNoEntry(doc: Doc, now: string)
    requires DateTag(doc)
    ensures NoEntry(doc[..DateChunks(doc)]) && NoEntry(DateDoc(now))
  {
    RunIsChars(doc[1..], NotBracket);
    forall i | 0 <= i < DateChunks(doc)
      ensures doc[i] != Open("plan", "")
    {
      assert 0 < i < DateChunks(doc) - 1 ==> doc[i] == doc[1..][i - 1];
    }
  }

  lemma {:induction false} EntriesOfDated(doc: Doc, now: string)
    ensures EntriesIn(DocSetDate(doc, now)) == EntriesIn(doc)
    decreases |doc|
  {
    if doc == [] {
    } else if DateTag(doc) {
      var k := DateChunks(doc);
      DateHasNoEntry(doc, now);
      assert doc == doc[..k] + doc[k..];
      NoEntryInFront(doc[..k], doc[k..]);
      NoEntryInFront(DateDoc(now), doc[k..]);
    } else {
      var d := DocSetDate(doc, now);
      EntryAfterDate(doc, now);
      EntriesOfDated(doc[1..], now);
      assert d[0] == doc[0] && d[1..] == DocSetDate(doc[1..], now);
    }
  }

  // ---------------------------------------------------------------- what a merge lists

  /** A merge adds one entry for each new plan if the body has a list for them, and else none. */
  lemma EntriesOfMerge(doc: Doc, plans: seq<Plan>, now: string)
    requires DocMerge(doc, plans, now).Some?
    ensures Entries(DocMerge(doc, plans, now).value) ==
            Entries(doc) + if HasList(doc) then multiset(Ids(DocNewPlans(doc, plans))) else multiset{}
  {
    var products, news := DocNewProducts(doc, plans), DocNewPlans(doc, plans);
    InsertAllIsAdditive(doc, products, news);
    var c := DocInsertAll(doc, products, news).value;
    EntriesOfAdditive(doc, c, products, news);
    EntriesOfDated(c, now);
  }

  /** How often a plan is listed afterwards. */
  lemma PlansListed(doc: Doc, plans: seq<Plan>, now: string, n: string)
    requires DocMerge(doc, plans, now).Some?
    ensures Entries(DocMerge(doc, plans, now).value)[n] ==
            Entries(doc)[n] +
            if HasList(doc) && n !in NamesIn(doc, "plan") then Count(Ids(Actives(plans)), n) else 0
  {
    EntriesOfMerge(doc, plans, now);
    CountUnlisted(Actives(plans), NamesIn(doc, "plan"), n);
  }

  /**
   Every active plan that is new gets its entry, exactly: a merge that declares new
   plans lists each of them if and only if the body has a list for them.
   */
  lemma NewPlansAreListedIff(doc: Doc, plans: seq<Plan>, now: string, p: Plan)
    requires DocMerge(doc, plans, now).Some? && p in DocNewPlans(doc, plans)
    ensures Entries(DocMerge(doc, plans, now).value)[p.id] > Entries(doc)[p.id] <==> HasList(doc)
  {
    PlansListed(doc, plans, now, p.id);
    assert p in Actives(plans) && p.id !in NamesIn(doc, "plan");
    ActiveIsListed(Actives(plans), p);
  }

  /** Only new plans are listed: for an id that the body declares a merge adds no entry, whatever lists there are. */
  lemma DeclaredGetsNoEntry(doc: Doc, plans: seq<Plan>, now: string, n: string)
    requires DocMerge(doc, plans, now).Some? && n in NamesIn(doc, "plan")
    ensures Entries(DocMerge(doc, plans, now).value)[n] == Entries(doc)[n]
  {
    PlansListed(doc, plans, now, n);
  }

  /**
   So a plan that was merged into a body without a list is declared and never
   listed, not by the merge that adds it and not by merging any plans again.
   */
  lemma NeverListed(doc: Doc, plans: seq<Plan>, now: string, others: seq<Plan>, later: string, n: string)
    requires DocMerge(doc, plans, now).Some? && !HasList(doc) && n in Ids(Actives(plans)) && n != ""
    requires DocMerge(DocMerge(doc, plans, now).value, others, later).Some?
    ensures var out := DocMerge(DocMerge(doc, plans, now).value, others, later).value;
            n in NamesIn(out, "plan") && Entries(out)[n] == Entries(doc)[n]
  {
    var once := DocMerge(doc, plans, now).value;
    PlansDeclared(doc, plans, now, n);
    CountIsMembership(Ids(Actives(plans)), n);
    PlansListed(doc, plans, now, n);
    DeclaredGetsNoEntry(once, others, later, n);
    PlansDeclared(once, others, later, n);
  }

  // ---------------------------------------------------------------- a body without a list

  lemma PlansAfterLists(front: Doc, back: Doc, m: nat)
    requires ListAt(front + back, m) && LISTS !in front
    ensures Open("plans", "") in back
  {
    var doc := front + back;
    assert m >= |front| by {
      var i :| 0 <= i < m && doc[i] == LISTS;
      assert i < |front| ==> doc[i] == front[i];
    }
    var last := m + ListChunks(doc[m..]) - 1;
    assert doc[m..][ListChunks(doc[m..]) - 1] == doc[last] == back[last - |front|];
  }

  /** No `<plans>` from the price lists on: the plans of the default price list are one empty tag, say. */
  lemma NoPlansNoList(front: Doc, back: Doc)
    requires LISTS !in front && Open("plans", "") !in back
    ensures !HasList(front + back)
  {
    if m: nat :| ListAt(front + back, m) {
      PlansAfterLists(front, back, m);
    }
  }

  const LISTS_START := [LISTS, Open(LIST_NAME, NameAttrs("DEFAULT")), Empty("plans", "")]
  const LISTS_END := [Close(LIST_NAME), Close("priceLists")]

  /** A well nested body whose default price list has its plans as one empty tag. */
  function EmptyListBody(): Doc {
    [Open("products", ""), Close("products"), Open("plans", ""), Close("plans")] + (LISTS_START + LISTS_END)
  }

  /** Into this body every list of plans merges, and no plan of any list gets an entry. */
  lemma EmptyListIsNoList(plans: seq<Plan>, now: string, p: Plan)
    requires p in plans && p.active && p.id != ""
    ensures DocMerge(EmptyListBody(), plans, now).Some? && !HasList(EmptyListBody())
    ensures var out := DocMerge(EmptyListBody(), plans, now).value;
            p.id in NamesIn(out, "plan") && p.id !in EntriesIn(out)
  {
    var doc := EmptyListBody();
    EmptyListMerges(plans, now);
    EmptyListDeclaresNothing();
    ActiveIsListed(Actives(plans), p);
    PlansDeclared(doc, plans, now, p.id);
    PlansListed(doc, plans, now, p.id);
  }

  lemma EmptyListMerges(plans: seq<Plan>, now: string)
    ensures DocMerge(EmptyListBody(), plans, now).Some? && !HasList(EmptyListBody())
  {
    var front := [Open("products", ""), Close("products"), Open("plans", ""), Close("plans")];
    var back := LISTS_START + LISTS_END;
    NoPlansNoList(front, back);
    MergeSucceedsIff(EmptyListBody(), plans, now);
    ReadyAppend(front, back, false);
    assert front[1] == Close("products") && front[3] == Close("plans") && back[0] == LISTS;
  }

  /** No element of the name `plan`. */
  predicate WithoutPlan(doc: Doc) {
    forall i :: 0 <= i < |doc| && (doc[i].Open? || doc[i].Empty?) ==> doc[i].name != "plan"
  }

  lemma WithoutPlanDeclaresNothing(doc: Doc)
    requires WithoutPlan(doc)
    ensures NamesIn(doc, "plan") == [] && EntriesIn(doc) == []
  {
    NoDeclarations(doc, "plan");
    NoEntryInFront(doc, []);
    assert doc + [] == doc;
  }

  lemma EmptyListDeclaresNothing()
    ensures NamesIn(EmptyListBody(), "plan") == [] && EntriesIn(EmptyListBody()) == []
  {
    var front := [Open("products", ""), Close("products"), Open("plans", ""), Close("plans")];
    assert WithoutPlan(front) && WithoutPlan(LISTS_START) && WithoutPlan(LISTS_END);
    assert WithoutPlan(front + (LISTS_START + LISTS_END));
    WithoutPlanDeclaresNothing(EmptyListBody());
  }
}
