/**
 Everything the catalog printed from scratch says, read back tag by tag.
 */
module CatalogPrinted {
  import opened Xml
  import opened CatalogDocs
  import opened CatalogReading
  import opened CatalogSync
  import opened CatalogPrint
  import opened CatalogContents

  // ---------------------------------------------------------------- what it says

  function HeadingData(): seq<Datum> {
    [Datum(["catalogName"], "KillBillPortal")] +
    ([Datum(["recurringBillingMode"], "IN_ADVANCE")] + ([Datum(["currencies", "currency"], "INR")] +
                                                        ([Datum(["units"], "")])))
  }

  function RulesData(): seq<Datum> {
    [Datum(["changePolicy", "changePolicyCase", "policy"], "IMMEDIATE")] +
    ([Datum(["changeAlignment", "changeAlignmentCase", "alignment"], "START_OF_BUNDLE")] +
     ([Datum(["cancelPolicy", "cancelPolicyCase", "policy"], "IMMEDIATE")] + CancelData()))
  }

  function CancelData(): seq<Datum> {
    [Datum(["createAlignment", "createAlignmentCase", "alignment"], "START_OF_BUNDLE")] +
    ([Datum(["billingAlignment", "billingAlignmentCase", "alignment"], "ACCOUNT")] +
     [Datum(["priceList", "priceListCase", "toPriceList"], "DEFAULT")])
  }

  function Rows(said: seq<seq<Datum>>): seq<Datum> {
    if said == [] then [] else said[0] + Rows(said[1..])
  }

  /** One row for each plan: its tag and what it says. */
  function PlanRowsData(plans: seq<Plan>): seq<seq<Datum>> {
    seq(|plans|, i requires 0 <= i < |plans| => Under(["plan" + AttrsFor(plans[i].id)], PlanData(plans[i])))
  }

  function ProductRowsData(names: seq<string>): seq<seq<Datum>> {
    seq(|names|, i requires 0 <= i < |names| => Under(["product" + AttrsFor(names[i])], ProductData()))
  }

  function EntryRowsData(plans: seq<Plan>): seq<seq<Datum>> {
    seq(|plans|, i requires 0 <= i < |plans| => [Datum(["plan"], plans[i].id)])
  }

  const LIST_TAG := "defaultPriceList" + AttrsFor("DEFAULT")

  /** The date, the heading, the products, the rules, the active plans and the price list that names them. */
  function CatalogData(plans: seq<Plan>, now: string): seq<Datum> {
    var actives := Actives(plans);
    [Datum(["effectiveDate"], now)] +
    ((HeadingData() +
      Under(["products"], Rows(ProductRowsData(Distinct(Products(actives))))) +
      Under(["rules"], RulesData())) +
     (Under(["plans"], Rows(PlanRowsData(actives))) +
      Under(["priceLists", LIST_TAG, "plans"], Rows(EntryRowsData(actives)))))
  }

  // ---------------------------------------------------------------- rules and heading

  lemma UnderTwo(a: string, b: string, c: string, text: string)
    ensures Under([a], Under([b], [Datum([c], text)])) == [Datum([a, b, c], text)]
  {
    UnderUnder([a], [b], [Datum([c], text)]);
    assert [a] + [b] + [c] == [a, b, c];
  }

  lemma RuleShows(name: string, leaf: string, value: string, inside: string)
    requires Word(name) && name[0] != 'd' && Word(leaf) && '<' !in value && inside == name + "Case"
    ensures Shows(Rule(name, leaf, value), [Datum([name, inside, leaf], value)])
    ensures StartsElement(Rule(name, leaf, value))
  {
    CaseWord(name);
    LeafShows(leaf, value);
    AroundShows(inside, "", 16, Leaf(leaf, value), [Datum([leaf], value)], 12);
    var inner := Elem(inside, "", On(16, Leaf(leaf, value), Line(12)));
    assert inside + "" == inside && name + "" == name;
    AroundShows(name, "", 12, inner, Under([inside], [Datum([leaf], value)]), 8);
    UnderTwo(name, inside, leaf, value);
  }

  lemma CaseNames()
    ensures "changePolicy" + "Case" == "changePolicyCase" && "cancelPolicy" + "Case" == "cancelPolicyCase"
    ensures "changeAlignment" + "Case" == "changeAlignmentCase"
    ensures "createAlignment" + "Case" == "createAlignmentCase"
    ensures "billingAlignment" + "Case" == "billingAlignmentCase" && "priceList" + "Case" == "priceListCase"
  {
  }

  lemma CancelShows()
    ensures Shows(CancelRules(), CancelData()) && Roomy(CancelRules())
  {
    AlignmentWords();
    BillingWord();
    RuleWords();
    LeafWords();
    CaseNames();
    var list := [Datum(["priceList", "priceListCase", "toPriceList"], "DEFAULT")];
    RuleShows("priceList", "toPriceList", "DEFAULT", "priceListCase");
    LastShows(8, Rule("priceList", "toPriceList", "DEFAULT"), list, 4);
    var billing := [Datum(["billingAlignment", "billingAlignmentCase", "alignment"], "ACCOUNT")];
    RuleShows("billingAlignment", "alignment", "ACCOUNT", "billingAlignmentCase");
    OnShows(8, AlignmentRule("billingAlignment", "ACCOUNT"), billing,
            On(8, Rule("priceList", "toPriceList", "DEFAULT"), Line(4)), list);
    var create := [Datum(["createAlignment", "createAlignmentCase", "alignment"], "START_OF_BUNDLE")];
    RuleShows("createAlignment", "alignment", "START_OF_BUNDLE", "createAlignmentCase");
    OnShows(8, AlignmentRule("createAlignment", "START_OF_BUNDLE"), create,
            On(8, AlignmentRule("billingAlignment", "ACCOUNT"),
               On(8, Rule("priceList", "toPriceList", "DEFAULT"), Line(4))), billing + list);
  }

  lemma AllRulesShow()
    ensures Shows(AllRules(), RulesData()) && Roomy(AllRules())
  {
    PolicyWords();
    AlignmentWords();
    LeafWords();
    CaseNames();
    CancelShows();
    var cancel := [Datum(["cancelPolicy", "cancelPolicyCase", "policy"], "IMMEDIATE")];
    RuleShows("cancelPolicy", "policy", "IMMEDIATE", "cancelPolicyCase");
    OnShows(8, PolicyRule("cancelPolicy"), cancel, CancelRules(), CancelData());
    var d2 := On(8, PolicyRule("cancelPolicy"), CancelRules());
    var align := [Datum(["changeAlignment", "changeAlignmentCase", "alignment"], "START_OF_BUNDLE")];
    RuleShows("changeAlignment", "alignment", "START_OF_BUNDLE", "changeAlignmentCase");
    OnShows(8, AlignmentRule("changeAlignment", "START_OF_BUNDLE"), align, d2, cancel + CancelData());
    var d1 := On(8, AlignmentRule("changeAlignment", "START_OF_BUNDLE"), d2);
    var change := [Datum(["changePolicy", "changePolicyCase", "policy"], "IMMEDIATE")];
    RuleShows("changePolicy", "policy", "IMMEDIATE", "changePolicyCase");
    OnShows(8, PolicyRule("changePolicy"), change, d1, align + (cancel + CancelData()));
  }

  lemma RulesShow()
    ensures Shows(RulesDoc(), Under(["rules"], RulesData())) && StartsElement(RulesDoc())
  {
    RuleWords();
    AllRulesShow();
    ElemShows("rules", "", AllRules(), RulesData());
    assert "rules" + "" == "rules";
  }

  lemma UnderOne(a: string, b: string, text: string)
    ensures Under([a], [Datum([b], text)]) == [Datum([a, b], text)]
  {
    assert [a] + [b] == [a, b];
  }

  lemma HeadingShows()
    ensures Shows(HeadingDoc(), HeadingData())
  {
    HeadingWords();
    ModeWord();
    AmountWords();
    ShowsVoid("units");
    LastShows(4, Void("units"), [Datum(["units"], "")], 4);
    LeafShows("currency", "INR");
    AroundShows("currencies", "", 8, Leaf("currency", "INR"), [Datum(["currency"], "INR")], 4);
    assert "currencies" + "" == "currencies";
    UnderOne("currencies", "currency", "INR");
    var currencies := Elem("currencies", "", On(8, Leaf("currency", "INR"), Line(4)));
    var x2 := [Datum(["currencies", "currency"], "INR")] + [Datum(["units"], "")];
    OnShows(4, currencies, [Datum(["currencies", "currency"], "INR")],
            On(4, Void("units"), Line(4)), [Datum(["units"], "")]);
    TwoLeavesShow(4, "catalogName", "KillBillPortal", "recurringBillingMode", "IN_ADVANCE",
                  On(4, currencies, On(4, Void("units"), Line(4))), x2);
  }

  // ---------------------------------------------------------------- rows

  lemma {:induction false} JoinedShows(docs: seq<Doc>, said: seq<seq<Datum>>)
    requires |docs| == |said| && forall i :: 0 <= i < |docs| ==> Shows(docs[i], said[i])
    ensures Shows(Joined(docs), Rows(said))
    decreases |docs|
  {
    if docs == [] {
      ShowsNothing();
    } else if |docs| == 1 {
      assert Rows(said[1..]) == [] && said[0] + [] == said[0];
    } else {
      JoinedShows(docs[1..], said[1..]);
      ShowsRun("\n");
      ShowsAppend(docs[0], said[0], Run("\n"), []);
      ShowsAppend(docs[0] + Run("\n"), said[0] + [], Joined(docs[1..]), Rows(said[1..]));
      assert said[0] + [] == said[0];
    }
  }

  lemma NamedShows(indent: nat, elem: string, name: Value, body: Doc, data: seq<Datum>)
    requires Shows(body, data) && Roomy(body)
    ensures Shows(NamedDoc(indent, elem, name, body), Under([elem + NameAttrs(name)], data))
  {
    ShowsElem(elem, NameAttrs(name), body, data);
    ShowsRun(Spaces(indent));
    var element := [Open(elem, NameAttrs(name))] + body + [Close(elem)];
    ShowsAppend([Chars(Spaces(indent))], [], element, Under([elem + NameAttrs(name)], data));
    assert NamedDoc(indent, elem, name, body) == [Chars(Spaces(indent))] + element;
    assert [] + Under([elem + NameAttrs(name)], data) == Under([elem + NameAttrs(name)], data);
  }

  lemma PlanShows(p: Plan, m: nat)
    ensures Shows(PlanDoc(p, m), Under(["plan" + AttrsFor(p.id)], PlanData(p)))
  {
    PlanBodyShows(p, m);
    AttrsWrittenOut(p.id);
    NamedShows(16, "plan", p.id, PlanBody(p, m), PlanData(p));
  }

  lemma ProductShows(name: Value, m: nat)
    ensures Shows(ProductDoc(name, m), Under(["product" + AttrsFor(name)], ProductData()))
  {
    ProductBodyShows(m);
    AttrsWrittenOut(name);
    NamedShows(m, "product", name, ProductBody(m), ProductData());
  }

  lemma EntryShows(p: Plan)
    ensures Shows(EntryDoc(p), [Datum(["plan"], p.id)])
  {
    PlanWords();
    ShowsRun(Spaces(24));
    LeafShows("plan", p.id);
    ShowsAppend(Run(Spaces(24)), [], Leaf("plan", p.id), [Datum(["plan"], p.id)]);
    assert [] + [Datum(["plan"], p.id)] == [Datum(["plan"], p.id)];
  }

  /** Rows between the line breaks of their element. */
  lemma RowsShow(rows: Doc, said: seq<Datum>, n: nat)
    requires Shows(rows, said) && (rows != [] ==> !rows[0].Close?)
    ensures Shows(Run("\n") + rows + Line(n), said) && Roomy(Run("\n") + rows + Line(n))
  {
    ShowsRun("\n");
    LineShows(n);
    ShowsAppend(Run("\n"), [], rows, said);
    ShowsAppend(Run("\n") + rows, [] + said, Line(n), []);
    assert [] + said + [] == said;
    var all := Run("\n") + rows + Line(n);
    assert all[1] == if rows == [] then Line(n)[0] else rows[0];
  }

  lemma JoinedStarts(docs: seq<Doc>)
    requires forall i :: 0 <= i < |docs| ==> docs[i] != [] && docs[i][0].Chars?
    ensures Joined(docs) != [] ==> Joined(docs)[0].Chars?
  {
  }

  lemma ProductRowsShow(plans: seq<Plan>)
    ensures Shows(ProductRows(plans), Rows(ProductRowsData(Distinct(Products(Actives(plans))))))
    ensures Roomy(ProductRows(plans))
  {
    var names := Distinct(Products(Actives(plans)));
    forall i | 0 <= i < |names|
      ensures Shows(ProductDocs(names, 8)[i], ProductRowsData(names)[i])
    {
      ProductShows(names[i], 8);
    }
    JoinedShows(ProductDocs(names, 8), ProductRowsData(names));
    JoinedStarts(ProductDocs(names, 8));
    RowsShow(Joined(ProductDocs(names, 8)), Rows(ProductRowsData(names)), 4);
  }

  lemma EachPlanShows(plans: seq<Plan>)
    ensures forall i :: 0 <= i < |plans| ==> Shows(PlanDocs(plans, 32)[i], PlanRowsData(plans)[i])
  {
    forall i | 0 <= i < |plans|
      ensures Shows(PlanDocs(plans, 32)[i], PlanRowsData(plans)[i])
    {
      PlanShows(plans[i], 32);
    }
  }

  lemma PlanRowsShow(plans: seq<Plan>)
    ensures Shows(PlanRows(plans), Rows(PlanRowsData(Actives(plans)))) && Roomy(PlanRows(plans))
  {
    var actives := Actives(plans);
    EachPlanShows(actives);
    EachPlanStarts(actives);
    ElementRowsShow(PlanDocs(actives, 32), PlanRowsData(actives), 4);
  }

  lemma EachPlanStarts(plans: seq<Plan>)
    ensures forall i :: 0 <= i < |plans| ==> PlanDocs(plans, 32)[i] != [] && PlanDocs(plans, 32)[i][0].Chars?
  {
  }

  lemma ElementRowsShow(docs: seq<Doc>, said: seq<seq<Datum>>, n: nat)
    requires |docs| == |said| && forall i :: 0 <= i < |docs| ==> Shows(docs[i], said[i])
    requires forall i :: 0 <= i < |docs| ==> docs[i] != [] && docs[i][0].Chars?
    ensures Shows(Run("\n") + Joined(docs) + Line(n), Rows(said)) && Roomy(Run("\n") + Joined(docs) + Line(n))
  {
    JoinedShows(docs, said);
    JoinedStarts(docs);
    RowsShow(Joined(docs), Rows(said), n);
  }

  lemma EntryRowsShow(plans: seq<Plan>)
    ensures Shows(EntryRows(plans), Rows(EntryRowsData(Actives(plans)))) && Roomy(EntryRows(plans))
  {
    var actives := Actives(plans);
    forall i | 0 <= i < |actives|
      ensures Shows(EntryDocs(actives)[i], EntryRowsData(actives)[i])
    {
      EntryShows(actives[i]);
    }
    JoinedShows(EntryDocs(actives), EntryRowsData(actives));
    EntriesStart(actives);
    RowsShow(Joined(EntryDocs(actives)), Rows(EntryRowsData(actives)), 12);
  }

  lemma EntriesStart(plans: seq<Plan>)
    ensures Joined(EntryDocs(plans)) != [] ==> Joined(EntryDocs(plans))[0].Chars?
  {
    forall i | 0 <= i < |plans|
      ensures EntryDocs(plans)[i] != [] && EntryDocs(plans)[i][0].Chars?
    {
      assert EntryDoc(plans[i])[0] == Run(Spaces(24))[0];
    }
    JoinedStarts(EntryDocs(plans));
  }

  // ---------------------------------------------------------------- the whole document

  lemma WrappedShows(name: string, kids: Doc, data: seq<Datum>)
    requires Roomy(kids) && Shows(kids, data)
    ensures Shows(Wrapped(name, "", kids), Under([name], data))
  {
    ShowsElem(name, "", kids, data);
    assert name + "" == name;
  }

  /** An element between two lines. */
  lemma BetweenLines(m: nat, doc: Doc, data: seq<Datum>, n: nat)
    requires Shows(doc, data) && StartsElement(doc)
    ensures Shows(Line(m) + doc + Line(n), data) && Roomy(Line(m) + doc + Line(n))
  {
    LineShows(m);
    LineShows(n);
    ShowsAppend(Line(m), [], doc, data);
    ShowsAppend(Line(m) + doc, [] + data, Line(n), []);
    assert [] + data + [] == data;
    assert (Line(m) + doc + Line(n))[1] == doc[0];
  }

  lemma ListsShow(plans: seq<Plan>)
    ensures Shows(Wrapped("priceLists", "", ListRows(plans)),
                  Under(["priceLists", LIST_TAG, "plans"], Rows(EntryRowsData(Actives(plans)))))
  {
    var data := Rows(EntryRowsData(Actives(plans)));
    EntryRowsShow(plans);
    WrappedShows("plans", EntryRows(plans), data);
    var inner := Wrapped("plans", "", EntryRows(plans));
    BetweenLines(12, inner, Under(["plans"], data), 8);
    AttrsWrittenOut("DEFAULT");
    ShowsElem(LIST_NAME, NameAttrs("DEFAULT"), Line(12) + inner + Line(8), Under(["plans"], data));
    var list := Wrapped(LIST_NAME, NameAttrs("DEFAULT"), Line(12) + inner + Line(8));
    BetweenLines(8, list, Under([LIST_TAG], Under(["plans"], data)), 4);
    WrappedShows("priceLists", ListRows(plans), Under([LIST_TAG], Under(["plans"], data)));
    ThreeUnder("priceLists", LIST_TAG, "plans", data);
  }

  lemma ThreeUnder(a: string, b: string, c: string, data: seq<Datum>)
    ensures Under([a], Under([b], Under([c], data))) == Under([a, b, c], data)
  {
    UnderUnder([b], [c], data);
    UnderUnder([a], [b] + [c], data);
    assert [a] + ([b] + [c]) == [a, b, c];
  }

  lemma UpToPlansShows(plans: seq<Plan>)
    ensures Shows(UpToPlans(plans),
                  HeadingData() + Under(["products"], Rows(ProductRowsData(Distinct(Products(Actives(plans)))))) +
                  Under(["rules"], RulesData()))
  {
    var x, y, z := HeadingData(), Under(["products"], Rows(ProductRowsData(Distinct(Products(Actives(plans)))))),
                   Under(["rules"], RulesData());
    var products := Wrapped("products", "", ProductRows(plans));
    HeadingShows();
    ProductRowsShow(plans);
    WrappedShows("products", ProductRows(plans), Rows(ProductRowsData(Distinct(Products(Actives(plans))))));
    RulesShow();
    LineShows(4);
    FiveParts(HeadingDoc(), x, products, y, Line(4), RulesDoc(), z);
  }

  lemma FiveParts(a: Doc, x: seq<Datum>, b: Doc, y: seq<Datum>, line: Doc, c: Doc, z: seq<Datum>)
    requires Shows(a, x) && Shows(b, y) && Shows(line, []) && Shows(c, z)
    ensures Shows(a + b + line + c + line, x + y + z)
  {
    ShowsAppend(a, x, b, y);
    ShowsAppend(a + b, x + y, line, []);
    assert x + y + [] == x + y;
    ShowsAppend(a + b + line, x + y, c, z);
    ShowsAppend(a + b + line + c, x + y + z, line, []);
    assert x + y + z + [] == x + y + z;
  }

  lemma FromPlansOnShows(plans: seq<Plan>)
    ensures Shows(FromPlansOn(plans),
                  Under(["plans"], Rows(PlanRowsData(Actives(plans)))) +
                  Under(["priceLists", LIST_TAG, "plans"], Rows(EntryRowsData(Actives(plans)))))
  {
    var y := Under(["priceLists", LIST_TAG, "plans"], Rows(EntryRowsData(Actives(plans))));
    PlanRowsShow(plans);
    WrappedShows("plans", PlanRows(plans), Rows(PlanRowsData(Actives(plans))));
    ListsShow(plans);
    LineShows(4);
    ShowsRun("\n");
    TwoParts(Wrapped("plans", "", PlanRows(plans)), Under(["plans"], Rows(PlanRowsData(Actives(plans)))),
             Line(4), Wrapped("priceLists", "", ListRows(plans)), y, Run("\n"));
  }

  lemma TwoParts(a: Doc, x: seq<Datum>, line: Doc, b: Doc, y: seq<Datum>, end: Doc)
    requires Shows(a, x) && Shows(line, []) && Shows(b, y) && Shows(end, [])
    ensures Shows(a + (line + b + end), x + y)
  {
    ShowsAppend(line, [], b, y);
    ShowsAppend(line + b, [] + y, end, []);
    assert [] + y + [] == y;
    ShowsAppend(a, x, line + b + end, y);
  }

  lemma BehindLine(line: Doc, a: Doc, x: seq<Datum>, b: Doc, y: seq<Datum>)
    requires Shows(line, []) && Shows(a, x) && Shows(b, y)
    ensures Shows(line + (a + b), x + y)
  {
    ShowsAppend(a, x, b, y);
    ShowsAppend(line, [], a + b, x + y);
    assert [] + (x + y) == x + y;
  }

  lemma DateShows(now: string)
    ensures Shows(DateDoc(now), [Datum(["effectiveDate"], now)])
  {
    ShowsText("effectiveDate", "", now);
    assert "effectiveDate" + "" == "effectiveDate";
  }

  /** What stands in the catalog element, wherever the printed text is read. */
  lemma BodyShows(plans: seq<Plan>, now: string)
    ensures Shows(CatalogBody(plans, now), CatalogData(plans, now)) && Roomy(CatalogBody(plans, now))
  {
    var x := HeadingData() + Under(["products"], Rows(ProductRowsData(Distinct(Products(Actives(plans)))))) +
             Under(["rules"], RulesData());
    var y := Under(["plans"], Rows(PlanRowsData(Actives(plans)))) +
             Under(["priceLists", LIST_TAG, "plans"], Rows(EntryRowsData(Actives(plans))));
    UpToPlansShows(plans);
    FromPlansOnShows(plans);
    ShowsAppend(UpToPlans(plans), x, FromPlansOn(plans), y);
    DateShows(now);
    LineShows(4);
    BehindLine(Line(4), DateDoc(now), [Datum(["effectiveDate"], now)], BehindDate(plans), x + y);
    BodyStarts(BehindDate(plans), now);
  }

  lemma BodyStarts(rest: Doc, now: string)
    ensures Roomy(Line(4) + (DateDoc(now) + rest))
  {
    assert (Line(4) + (DateDoc(now) + rest))[1] == Open("effectiveDate", "");
  }

  lemma FramedData(line: string, catalog: Doc, data: seq<Datum>)
    requires Shows(catalog, data)
    ensures Data([Other(line)] + Run("\n") + catalog, []) == data
  {
    var doc := [Other(line)] + Run("\n") + catalog;
    assert doc[1..] == Run("\n") + catalog;
    ShowsRun("\n");
    assert Data(Run("\n") + catalog, []) == Under([], []) + Data(catalog, []);
    assert catalog + [] == catalog;
    assert Data(catalog + [], []) == Under([], data) + Data([], []);
    UnderNothing(data);
  }

  /** The printed catalog says exactly what `CatalogData` lists, inside its catalog element. */
  lemma PrintedSays(plans: seq<Plan>, now: string)
    ensures Data(CatalogDoc(plans, now), []) == Under(["catalog" + CATALOG_ATTRS], CatalogData(plans, now))
  {
    BodyShows(plans, now);
    ShowsElem("catalog", CATALOG_ATTRS, CatalogBody(plans, now), CatalogData(plans, now));
    var catalog := Wrapped("catalog", CATALOG_ATTRS, CatalogBody(plans, now));
    var data := Under(["catalog" + CATALOG_ATTRS], CatalogData(plans, now));
    FramedData(DECLARATION, catalog, data);
  }
}
