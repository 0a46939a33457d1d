/**
 The catalog printed from scratch: `generateCatalogXML` of index.js. What it prints is
 what the merge's patterns extract, and merging the same plans into it adds nothing.
 */
module CatalogPrint {
  import opened Wrappers
  import opened Text
  import opened Xml
  import opened XmlSearch
  import opened CatalogDocs
  import opened CatalogNames
  import opened CatalogSync
  import opened CatalogMerge
  import opened CatalogLists
  import opened CatalogLaws
  import opened CatalogDeclarations
  import opened CatalogRepeat

  // ---------------------------------------------------------------- the rules

  lemma CaseWord(name: string)
    requires Word(name) && name[0] != 'd'
    ensures Word(name + "Case")
  {
    var n := name + "Case";
    assert n[0] == name[0] && n[|n| - 1] == 'e' && n[|n| - 4] == 'C';
  }

  function Rule(name: string, leaf: string, value: string): (r: Doc)
    requires Word(name) && name[0] != 'd' && Word(leaf) && '<' !in value
    ensures Inert(r)
  {
    CaseWord(name);
    Elem(name, "", On(12, Elem(name + "Case", "", On(16, Leaf(leaf, value), Line(12))), Line(8)))
  }

  function PolicyRule(name: string): (r: Doc)
    requires Word(name) && name[0] != 'd'
    ensures Inert(r)
  {
    LeafWords();
    Rule(name, "policy", "IMMEDIATE")
  }

  function AlignmentRule(name: string, value: string): (r: Doc)
    requires Word(name) && name[0] != 'd' && '<' !in value
    ensures Inert(r)
  {
    LeafWords();
    Rule(name, "alignment", value)
  }

  lemma LeafWords()
    ensures Word("policy") && Word("alignment") && Word("toPriceList")
  {
  }

  lemma PolicyWords()
    ensures Word("changePolicy") && Word("cancelPolicy")
  {
  }

  lemma AlignmentWords()
    ensures Word("changeAlignment") && Word("createAlignment")
  {
  }

  lemma BillingWord()
    ensures Word("billingAlignment")
  {
    LongWord("billingAlignment", 0);
  }

  lemma RuleWords()
    ensures Word("priceList") && Word("rules")
  {
  }

  function CancelRules(): (r: Doc)
    ensures Inert(r)
  {
    AlignmentWords();
    BillingWord();
    RuleWords();
    LeafWords();
    On(8, AlignmentRule("createAlignment", "START_OF_BUNDLE"),
       On(8, AlignmentRule("billingAlignment", "ACCOUNT"),
          On(8, Rule("priceList", "toPriceList", "DEFAULT"), Line(4))))
  }

  function AllRules(): (r: Doc)
    ensures Inert(r)
  {
    PolicyWords();
    AlignmentWords();
    On(8, PolicyRule("changePolicy"),
       On(8, AlignmentRule("changeAlignment", "START_OF_BUNDLE"),
          On(8, PolicyRule("cancelPolicy"), CancelRules())))
  }

  function RulesDoc(): (r: Doc)
    ensures Inert(r)
  {
    RuleWords();
    Elem("rules", "", AllRules())
  }

  // ---------------------------------------------------------------- the document

  lemma HeadingWords()
    ensures Word("catalogName") && Word("currencies") && Word("units")
  {
  }

  function HeadingDoc(): (r: Doc)
    ensures Inert(r)
  {
    HeadingWords();
    ModeWord();
    AmountWords();
    On(4, Leaf("catalogName", "KillBillPortal"),
       On(4, Leaf("recurringBillingMode", "IN_ADVANCE"),
          On(4, Elem("currencies", "", On(8, Leaf("currency", "INR"), Line(4))),
             On(4, Void("units"), Line(4)))))
  }

  /** An element around contents, for the elements that the merge looks for. */
  function Wrapped(name: string, attrs: string, kids: Doc): Doc {
    [Open(name, attrs)] + kids + [Close(name)]
  }

  function ProductRows(plans: seq<Plan>): Doc {
    Run("\n") + Joined(ProductDocs(Distinct(Products(Actives(plans))), 8)) + Line(4)
  }

  function PlanRows(plans: seq<Plan>): Doc {
    Run("\n") + Joined(PlanDocs(Actives(plans), 32)) + Line(4)
  }

  function EntryRows(plans: seq<Plan>): Doc {
    Run("\n") + Joined(EntryDocs(Actives(plans))) + Line(12)
  }

  function ListRows(plans: seq<Plan>): Doc {
    Line(8) + Wrapped(LIST_NAME, NameAttrs("DEFAULT"),
                      Line(12) + Wrapped("plans", "", EntryRows(plans)) + Line(8))
    + Line(4)
  }

  /** From the heading to the start of the plans. */
  function UpToPlans(plans: seq<Plan>): Doc {
    HeadingDoc() + Wrapped("products", "", ProductRows(plans)) + Line(4) + RulesDoc() + Line(4)
  }

  function FromPlansOn(plans: seq<Plan>): Doc {
    Wrapped("plans", "", PlanRows(plans)) + (Line(4) + Wrapped("priceLists", "", ListRows(plans)) + Run("\n"))
  }

  function BehindDate(plans: seq<Plan>): Doc {
    UpToPlans(plans) + FromPlansOn(plans)
  }

  /** The contents of the catalog element. */
  function CatalogBody(plans: seq<Plan>, now: string): Doc {
    Line(4) + (DateDoc(now) + BehindDate(plans))
  }

  const CATALOG_ATTRS := " " + XML_SCHEMA + "\n         " + CATALOG_SCHEMA

  function CatalogDoc(plans: seq<Plan>, now: string): Doc {
    [Other(DECLARATION)] + Run("\n") + Wrapped("catalog", CATALOG_ATTRS, CatalogBody(plans, now))
  }

  /** `generateCatalogXML` */
  function GenerateCatalogXML(plans: seq<Plan>, now: string): string {
    Print(CatalogDoc(plans, now))
  }

  // ---------------------------------------------------------------- names

  lemma NamesOfWrapped(name: string, attrs: string, kids: Doc, elem: string)
    requires name != elem
    ensures NamesIn(Wrapped(name, attrs, kids), elem) == NamesIn(kids, elem)
  {
    NamesInAppend([Open(name, attrs)] + kids, [Close(name)], elem);
    NamesInAppend([Open(name, attrs)], kids, elem);
    NoDeclarations([Open(name, attrs)], elem);
    NoDeclarations([Close(name)], elem);
  }

  lemma NamesBetween(a: Doc, b: Doc, c: Doc, elem: string)
    ensures NamesIn(a + b + c, elem) == NamesIn(a, elem) + NamesIn(b, elem) + NamesIn(c, elem)
  {
    NamesInAppend(a + b, c, elem);
    NamesInAppend(a, b, elem);
  }

  lemma NamesOfProductRows(plans: seq<Plan>, elem: string)
    ensures NamesIn(ProductRows(plans), elem) ==
            if elem == "product" then NonEmpty(Distinct(Products(Actives(plans)))) else []
  {
    var names := Distinct(Products(Actives(plans)));
    NamesBetween(Run("\n"), Joined(ProductDocs(names, 8)), Line(4), elem);
    InertHasNoNames(Run("\n"), elem);
    InertHasNoNames(Line(4), elem);
    NamesOfProducts(names, 8, elem);
  }

  lemma NamesOfPlanRows(plans: seq<Plan>, elem: string)
    ensures NamesIn(PlanRows(plans), elem) == if elem == "plan" then NonEmpty(Ids(Actives(plans))) else []
  {
    NamesBetween(Run("\n"), Joined(PlanDocs(Actives(plans), 32)), Line(4), elem);
    InertHasNoNames(Run("\n"), elem);
    InertHasNoNames(Line(4), elem);
    NamesOfPlans(Actives(plans), 32, elem);
  }

  lemma NamesOfEntryRows(plans: seq<Plan>, elem: string)
    ensures NamesIn(EntryRows(plans), elem) == []
  {
    NamesBetween(Run("\n"), Joined(EntryDocs(Actives(plans))), Line(12), elem);
    EntryDocsInert(Actives(plans));
    InertHasNoNames(Joined(EntryDocs(Actives(plans))), elem);
    InertHasNoNames(Run("\n"), elem);
    InertHasNoNames(Line(12), elem);
  }

  lemma NamesInside(gap: Doc, name: string, attrs: string, kids: Doc, tail: Doc, elem: string)
    requires Inert(gap) && Inert(tail) && name != elem && NamesIn(kids, elem) == []
    ensures NamesIn(gap + Wrapped(name, attrs, kids) + tail, elem) == []
  {
    NamesBetween(gap, Wrapped(name, attrs, kids), tail, elem);
    NamesOfWrapped(name, attrs, kids, elem);
    InertHasNoNames(gap, elem);
    InertHasNoNames(tail, elem);
  }

  lemma NamesOfListElement(plans: seq<Plan>, elem: string)
    requires elem == "plan" || elem == "product"
    ensures NamesIn(Line(12) + Wrapped("plans", "", EntryRows(plans)) + Line(8), elem) == []
  {
    NamesOfEntryRows(plans, elem);
    NamesInside(Line(12), "plans", "", EntryRows(plans), Line(8), elem);
  }

  lemma NamesOfListRows(plans: seq<Plan>, elem: string)
    requires elem == "plan" || elem == "product"
    ensures NamesIn(ListRows(plans), elem) == []
  {
    var inner := Line(12) + Wrapped("plans", "", EntryRows(plans)) + Line(8);
    NamesOfListElement(plans, elem);
    NamesInside(Line(8), LIST_NAME, NameAttrs("DEFAULT"), inner, Line(4), elem);
  }

  lemma NamesUpToPlans(plans: seq<Plan>, elem: string)
    requires elem == "plan" || elem == "product"
    ensures NamesIn(UpToPlans(plans), elem) ==
            if elem == "product" then NonEmpty(Distinct(Products(Actives(plans)))) else []
  {
    var products := Wrapped("products", "", ProductRows(plans));
    NamesInAppend(HeadingDoc() + products + Line(4) + RulesDoc(), Line(4), elem);
    NamesInAppend(HeadingDoc() + products + Line(4), RulesDoc(), elem);
    NamesBetween(HeadingDoc(), products, Line(4), elem);
    NamesOfWrapped("products", "", ProductRows(plans), elem);
    NamesOfProductRows(plans, elem);
    InertHasNoNames(HeadingDoc(), elem);
    InertHasNoNames(RulesDoc(), elem);
    InertHasNoNames(Line(4), elem);
  }

  lemma NamesAfterPlans(plans: seq<Plan>, elem: string)
    requires elem == "plan" || elem == "product"
    ensures NamesIn(Line(4) + Wrapped("priceLists", "", ListRows(plans)) + Run("\n"), elem) == []
  {
    NamesBetween(Line(4), Wrapped("priceLists", "", ListRows(plans)), Run("\n"), elem);
    NamesOfWrapped("priceLists", "", ListRows(plans), elem);
    NamesOfListRows(plans, elem);
    InertHasNoNames(Line(4), elem);
    InertHasNoNames(Run("\n"), elem);
  }

  lemma NamesFromPlansOn(plans: seq<Plan>, elem: string)
    requires elem == "plan" || elem == "product"
    ensures NamesIn(FromPlansOn(plans), elem) == if elem == "plan" then NonEmpty(Ids(Actives(plans))) else []
  {
    NamesInAppend(Wrapped("plans", "", PlanRows(plans)),
                  Line(4) + Wrapped("priceLists", "", ListRows(plans)) + Run("\n"), elem);
    NamesOfWrapped("plans", "", PlanRows(plans), elem);
    NamesOfPlanRows(plans, elem);
    NamesAfterPlans(plans, elem);
  }

  lemma NamesBehindDate(now: string, rest: Doc, elem: string)
    ensures NamesIn(Line(4) + (DateDoc(now) + rest), elem) == NamesIn(rest, elem)
  {
    NamesInAppend(Line(4), DateDoc(now) + rest, elem);
    NamesInAppend(DateDoc(now), rest, elem);
    InertHasNoNames(Line(4), elem);
    NoDeclarations(DateDoc(now), elem);
  }

  lemma NamesOfRest(plans: seq<Plan>, elem: string)
    requires elem == "plan" || elem == "product"
    ensures NamesIn(BehindDate(plans), elem) ==
            if elem == "plan" then NonEmpty(Ids(Actives(plans))) else NonEmpty(Distinct(Products(Actives(plans))))
  {
    NamesInAppend(UpToPlans(plans), FromPlansOn(plans), elem);
    NamesUpToPlans(plans, elem);
    NamesFromPlansOn(plans, elem);
  }

  lemma NamesOfBody(plans: seq<Plan>, now: string, elem: string)
    requires elem == "plan" || elem == "product"
    ensures NamesIn(CatalogBody(plans, now), elem) ==
            if elem == "plan" then NonEmpty(Ids(Actives(plans))) else NonEmpty(Distinct(Products(Actives(plans))))
  {
    NamesBehindDate(now, BehindDate(plans), elem);
    NamesOfRest(plans, elem);
  }

  // ---------------------------------------------------------------- well-formedness

  lemma StructureWords()
    ensures NameOk("products") && NameOk("plans") && NameOk("priceLists") && NameOk("effectiveDate")
  {
  }

  lemma ListWord()
    ensures NameOk(LIST_NAME) && NameOk("catalog")
  {
  }

  /** Well formed and well nested wherever it is put. */
  ghost predicate Sound(doc: Doc) {
    DocOk(doc) && Neutral(doc)
  }

  lemma SoundAppend(a: Doc, b: Doc)
    requires Sound(a) && Sound(b)
    ensures Sound(a + b)
  {
    NeutralAppend(a, b);
  }

  lemma SoundWrapped(name: string, attrs: string, kids: Doc)
    requires Sound(kids) && NameOk(name) && AttrsOk(attrs) && (attrs == [] || attrs[|attrs| - 1] != '/')
    ensures Sound(Wrapped(name, attrs, kids))
  {
    ElemNeutral(name, attrs, kids);
  }

  lemma PlainIsSound(doc: Doc)
    requires Plain(doc)
    ensures Sound(doc)
  {
  }

  lemma SoundRows(docs: seq<Doc>, n: nat)
    requires Plain(Joined(docs))
    ensures Sound(Run("\n") + Joined(docs) + Line(n))
  {
    PlainAppend(Run("\n"), Joined(docs));
    PlainAppend(Run("\n") + Joined(docs), Line(n));
    PlainIsSound(Run("\n") + Joined(docs) + Line(n));
  }

  lemma SoundListRows(plans: seq<Plan>)
    ensures Sound(ListRows(plans))
  {
    var entries := EntryRows(plans);
    EntryDocsInert(Actives(plans));
    SoundRows(EntryDocs(Actives(plans)), 12);
    StructureWords();
    ListWord();
    SoundWrapped("plans", "", entries);
    SoundAppend(Line(12), Wrapped("plans", "", entries));
    SoundAppend(Line(12) + Wrapped("plans", "", entries), Line(8));
    var inner := Line(12) + Wrapped("plans", "", entries) + Line(8);
    NamedAttrsOk("DEFAULT");
    SoundWrapped(LIST_NAME, NameAttrs("DEFAULT"), inner);
    SoundAppend(Line(8), Wrapped(LIST_NAME, NameAttrs("DEFAULT"), inner));
    SoundAppend(Line(8) + Wrapped(LIST_NAME, NameAttrs("DEFAULT"), inner), Line(4));
  }

  lemma SoundUpToPlans(plans: seq<Plan>)
    ensures Sound(UpToPlans(plans))
  {
    var names := Distinct(Products(Actives(plans)));
    ProductDocsPlain(names, 8);
    SoundRows(ProductDocs(names, 8), 4);
    StructureWords();
    var products := Wrapped("products", "", ProductRows(plans));
    SoundWrapped("products", "", ProductRows(plans));
    SoundAppend(HeadingDoc(), products);
    SoundAppend(HeadingDoc() + products, Line(4));
    SoundAppend(HeadingDoc() + products + Line(4), RulesDoc());
    SoundAppend(HeadingDoc() + products + Line(4) + RulesDoc(), Line(4));
  }

  lemma SoundDate(now: string)
    requires '<' !in now
    ensures Sound(DateDoc(now))
  {
    StructureWords();
    assert DateDoc(now) == Wrapped("effectiveDate", "", Run(now));
    SoundWrapped("effectiveDate", "", Run(now));
  }

  lemma SoundFromPlansOn(plans: seq<Plan>)
    ensures Sound(FromPlansOn(plans))
  {
    StructureWords();
    PlanDocsPlain(Actives(plans), 32);
    SoundRows(PlanDocs(Actives(plans), 32), 4);
    SoundWrapped("plans", "", PlanRows(plans));
    SoundListRows(plans);
    var lists := Wrapped("priceLists", "", ListRows(plans));
    SoundWrapped("priceLists", "", ListRows(plans));
    SoundAppend(Line(4), lists);
    SoundAppend(Line(4) + lists, Run("\n"));
    SoundAppend(Wrapped("plans", "", PlanRows(plans)), Line(4) + lists + Run("\n"));
  }

  lemma SoundBehindDate(plans: seq<Plan>)
    ensures Sound(BehindDate(plans))
  {
    SoundUpToPlans(plans);
    SoundFromPlansOn(plans);
    SoundAppend(UpToPlans(plans), FromPlansOn(plans));
  }

  lemma SoundBody(plans: seq<Plan>, now: string)
    requires '<' !in now
    ensures Sound(CatalogBody(plans, now))
  {
    SoundBehindDate(plans);
    SoundDate(now);
    SoundAppend(DateDoc(now), BehindDate(plans));
    SoundAppend(Line(4), DateDoc(now) + BehindDate(plans));
  }

  lemma AttrClean(name: string, value: string)
    requires NoMarkup(name) && NoMarkup(value) && name != []
    ensures NoMarkup(Attr(name, value)) && Attr(name, value)[|Attr(name, value)| - 1] == '"'
    ensures Attr(name, value)[0] == name[0]
  {
  }

  lemma AttrsOfParts(a: string, gap: string, b: string)
    requires NoMarkup(a) && NoMarkup(gap) && NoMarkup(b) && a != [] && a[0] != 'n' && b != [] && b[|b| - 1] == '"'
    ensures AttrsOk(" " + a + gap + b) && (" " + a + gap + b)[|" " + a + gap + b| - 1] != '/'
  {
    var s := " " + a + gap + b;
    assert s[0] == ' ' && s[1] == a[0] && NAME_ATTR[1] == 'n';
  }

  lemma SchemaAttrsOk(gap: string)
    requires NoMarkup(gap)
    ensures var attrs := " " + XML_SCHEMA + gap + CATALOG_SCHEMA;
            AttrsOk(attrs) && attrs[|attrs| - 1] != '/'
  {
    assert NoMarkup("http://www.w3.org/2001/XMLSchema-instance");
    AttrClean("xmlns:xsi", "http://www.w3.org/2001/XMLSchema-instance");
    AttrClean("xsi:noNamespaceSchemaLocation", "CatalogSchema.xsd");
    AttrsOfParts(XML_SCHEMA, gap, CATALOG_SCHEMA);
  }

  lemma CatalogAttrsOk()
    ensures AttrsOk(CATALOG_ATTRS) && CATALOG_ATTRS[|CATALOG_ATTRS| - 1] != '/'
  {
    SchemaAttrsOk("\n         ");
  }

  lemma HeadAttrsOk()
    ensures AttrsOk(HEAD_ATTRS) && HEAD_ATTRS[|HEAD_ATTRS| - 1] != '/'
  {
    SchemaAttrsOk(" ");
  }

  lemma DeclarationClean()
    ensures ChunkOk(Other(DECLARATION))
  {
    assert NoMarkup(VERSION_1) && VERSION_1[0] == '?';
    assert NoMarkup(" standalone=\"yes\"?");
  }

  lemma OtherNeutral(inside: string)
    ensures Neutral([Other(inside)])
  {
    forall stack
      ensures Nest([Other(inside)], stack) == Some(stack)
    {
      assert Nest([Other(inside)], stack) == Nest([], stack);
    }
  }

  lemma SoundFramed(head: Doc, attrs: string, body: Doc)
    requires Sound(head) && Sound(body) && NameOk("catalog") && ChunkOk(Open("catalog", attrs))
    ensures Sound(head + Run("\n") + Wrapped("catalog", attrs, body))
  {
    SoundWrapped("catalog", attrs, body);
    SoundAppend(head, Run("\n"));
    SoundAppend(head + Run("\n"), Wrapped("catalog", attrs, body));
  }

  lemma SoundDeclaration()
    ensures Sound([Other(DECLARATION)])
  {
    DeclarationClean();
    OtherNeutral(DECLARATION);
  }

  lemma SoundCatalog(plans: seq<Plan>, now: string)
    requires '<' !in now
    ensures Sound(CatalogDoc(plans, now))
  {
    SoundBody(plans, now);
    ListWord();
    CatalogAttrsOk();
    SoundDeclaration();
    SoundFramed([Other(DECLARATION)], CATALOG_ATTRS, CatalogBody(plans, now));
  }

  // ---------------------------------------------------------------- print and extract

  lemma NamesOfFramed(inside: string, attrs: string, body: Doc, elem: string)
    requires elem == "plan" || elem == "product"
    ensures NamesIn([Other(inside)] + Run("\n") + Wrapped("catalog", attrs, body), elem) == NamesIn(body, elem)
  {
    NamesBetween([Other(inside)], Run("\n"), Wrapped("catalog", attrs, body), elem);
    NamesOfWrapped("catalog", attrs, body, elem);
    NoDeclarations([Other(inside)], elem);
    InertHasNoNames(Run("\n"), elem);
  }

  lemma NamesOfCatalog(plans: seq<Plan>, now: string, elem: string)
    requires elem == "plan" || elem == "product"
    ensures NamesIn(CatalogDoc(plans, now), elem) ==
            if elem == "plan" then NonEmpty(Ids(Actives(plans))) else NonEmpty(Distinct(Products(Actives(plans))))
  {
    NamesOfFramed(DECLARATION, CATALOG_ATTRS, CatalogBody(plans, now), elem);
    NamesOfBody(plans, now, elem);
  }

  lemma CatalogIsOk(plans: seq<Plan>, now: string)
    requires '<' !in now
    ensures DocOk(CatalogDoc(plans, now))
  {
    SoundCatalog(plans, now);
  }

  lemma ExtractedFromCatalog(plans: seq<Plan>, now: string, elem: string)
    requires '<' !in now && NameOk(elem)
    ensures NamesInText(GenerateCatalogXML(plans, now), Lead(elem)) == NamesIn(CatalogDoc(plans, now), elem)
  {
    CatalogIsOk(plans, now);
    ExtractedNames(CatalogDoc(plans, now), elem);
  }

  /** The merge's patterns extract the active ids in order and the products in order of first appearance. */
  lemma PrintThenExtract(plans: seq<Plan>, now: string)
    requires '<' !in now
    ensures NamesInText(GenerateCatalogXML(plans, now), Lead("plan")) == NonEmpty(Ids(Actives(plans)))
    ensures NamesInText(GenerateCatalogXML(plans, now), Lead("product")) ==
            NonEmpty(Distinct(Products(Actives(plans))))
  {
    PlanWords();
    ExtractedFromCatalog(plans, now, "plan");
    ExtractedFromCatalog(plans, now, "product");
    NamesOfCatalog(plans, now, "plan");
    NamesOfCatalog(plans, now, "product");
  }

  /** The printed catalog is well nested. */
  lemma PrintsWellNested(plans: seq<Plan>, now: string)
    requires '<' !in now
    ensures DocOk(CatalogDoc(plans, now)) && WellNested(CatalogDoc(plans, now))
  {
    SoundCatalog(plans, now);
  }

  // ---------------------------------------------------------------- print and merge

  lemma ListedNames(plans: seq<Plan>, doc: Doc)
    requires NamesIn(doc, "plan") == NonEmpty(Ids(Actives(plans)))
    requires NamesIn(doc, "product") == NonEmpty(Distinct(Products(Actives(plans))))
    ensures forall p :: p in Actives(plans) && p.id != "" ==> p.id in NamesIn(doc, "plan")
    ensures forall n :: n in Products(Actives(plans)) && n != "" ==> n in NamesIn(doc, "product")
  {
    forall p | p in Actives(plans) && p.id != ""
      ensures p.id in NamesIn(doc, "plan")
    {
      ActiveIsListed(Actives(plans), p);
    }
  }

  lemma NotInWrapped(c: Chunk, name: string, attrs: string, kids: Doc)
    requires c !in kids && c != Open(name, attrs) && c != Close(name)
    ensures c !in Wrapped(name, attrs, kids)
  {
  }

  lemma NotInPlain(c: Chunk, doc: Doc)
    requires Plain(doc) && !PlainChunk(c)
    ensures c !in doc
  {
  }

  lemma NotInRows(c: Chunk, docs: seq<Doc>, n: nat)
    requires Plain(Joined(docs)) && !PlainChunk(c)
    ensures c !in Run("\n") + Joined(docs) + Line(n)
  {
    NotInPlain(c, Joined(docs));
    NotInPlain(c, Run("\n"));
    NotInPlain(c, Line(n));
  }

  /** None of the merge's tags but the products' own occurs before the plans. */
  lemma NotUpToPlans(c: Chunk, plans: seq<Plan>)
    requires !PlainChunk(c) && c != Open("products", "") && c != Close("products")
    ensures c !in UpToPlans(plans)
  {
    var names := Distinct(Products(Actives(plans)));
    ProductDocsPlain(names, 8);
    NotInRows(c, ProductDocs(names, 8), 4);
    NotInWrapped(c, "products", "", ProductRows(plans));
    NotInPlain(c, HeadingDoc());
    NotInPlain(c, RulesDoc());
    NotInPlain(c, Line(4));
  }

  lemma NotInPlans(c: Chunk, plans: seq<Plan>)
    requires !PlainChunk(c) && c != Open("plans", "") && c != Close("plans")
    ensures c !in Wrapped("plans", "", PlanRows(plans))
  {
    PlanDocsPlain(Actives(plans), 32);
    NotInRows(c, PlanDocs(Actives(plans), 32), 4);
    NotInWrapped(c, "plans", "", PlanRows(plans));
  }

  lemma ReadyAtLists(gap: Doc, tail: Doc)
    requires LISTS !in gap && tail != [] && tail[0] == LISTS
    ensures Ready(gap + tail, true)
  {
    ReadyAppend(gap, tail, true);
  }

  lemma ReadyOnceClosed(front: Doc, back: Doc, closed: bool)
    requires LISTS !in front && Close("plans") in front && Ready(back, true)
    ensures Ready(front + back, closed)
  {
    ReadyAppend(front, back, closed);
  }

  lemma PlansAreClosed(plans: seq<Plan>)
    ensures var list := Wrapped("plans", "", PlanRows(plans)); LISTS !in list && Close("plans") in list
  {
    NotInPlans(LISTS, plans);
    var list := Wrapped("plans", "", PlanRows(plans));
    assert list[|list| - 1] == Close("plans");
  }

  lemma ReadyFromLists(gap: Doc, lists: Doc, end: Doc)
    requires LISTS !in gap && lists != [] && lists[0] == LISTS
    ensures Ready(gap + lists + end, true)
  {
    assert gap + lists + end == gap + (lists + end);
    ReadyAtLists(gap, lists + end);
  }

  lemma ReadyFromPlansOn(plans: seq<Plan>, closed: bool)
    ensures Ready(FromPlansOn(plans), closed)
  {
    var lists := Wrapped("priceLists", "", ListRows(plans));
    NotInPlain(LISTS, Line(4));
    ReadyFromLists(Line(4), lists, Run("\n"));
    PlansAreClosed(plans);
    ReadyOnceClosed(Wrapped("plans", "", PlanRows(plans)), Line(4) + lists + Run("\n"), closed);
  }

  lemma ReadyBehind(front: Doc, back: Doc)
    requires LISTS !in front && Ready(back, false) && Ready(back, true)
    ensures Ready(front + back, false) && Ready(front + back, true)
  {
    ReadyAppend(front, back, false);
    ReadyAppend(front, back, true);
  }

  lemma NotInDate(now: string)
    ensures LISTS !in DateDoc(now)
  {
  }

  lemma ReadyUpToPlans(plans: seq<Plan>)
    ensures Ready(BehindDate(plans), false) && Ready(BehindDate(plans), true)
  {
    NotUpToPlans(LISTS, plans);
    ReadyFromPlansOn(plans, false);
    ReadyFromPlansOn(plans, true);
    ReadyBehind(UpToPlans(plans), FromPlansOn(plans));
  }

  lemma BodyIsReady(plans: seq<Plan>, now: string)
    ensures Ready(CatalogBody(plans, now), false)
  {
    var rest := BehindDate(plans);
    ReadyUpToPlans(plans);
    NotInDate(now);
    ReadyBehind(DateDoc(now), rest);
    NotInPlain(LISTS, Line(4));
    ReadyBehind(Line(4), DateDoc(now) + rest);
  }

  lemma DateBehindLine(now: string, later: string, rest: Doc)
    requires '<' !in now
    ensures DocSetDate(Line(4) + (DateDoc(now) + rest), later) == Line(4) + (DateDoc(later) + rest)
  {
    DateDocIsDate(now, rest);
    var dated := DateDoc(now) + rest;
    assert (Line(4) + dated)[0] == Line(4)[0] && (Line(4) + dated)[1..] == dated;
    assert DocSetDate(dated, later) == DateDoc(later) + rest;
  }

  lemma DateOfBody(plans: seq<Plan>, now: string, later: string)
    requires '<' !in now
    ensures DocSetDate(CatalogBody(plans, now), later) == CatalogBody(plans, later)
  {
    DateBehindLine(now, later, BehindDate(plans));
  }

  /**
   Merging the plans a catalog was printed from into its body gives the body printed at the
   later time, if and only if every active plan has an id and a product name.
   */
  lemma PrintThenMergeIff(plans: seq<Plan>, now: string, later: string)
    requires '<' !in now
    ensures DocMerge(CatalogBody(plans, now), plans, later) == Some(CatalogBody(plans, later)) <==> AllNamed(plans)
  {
    var body := CatalogBody(plans, now);
    NamesOfBody(plans, now, "plan");
    NamesOfBody(plans, now, "product");
    ListedNames(plans, body);
    NothingNewIff(body, plans);
    BodyIsReady(plans, now);
    OnlyDateChangesIff(body, plans, later);
    DateOfBody(plans, now, later);
  }

  // ---------------------------------------------------------------- the printed catalog has a list for entries

  lemma {:induction false} AllPass(t: string, f: char -> bool)
    requires forall i :: 0 <= i < |t| ==> f(t[i])
    ensures Span(t, f) == |t|
    decreases |t|
  {
    if t != [] {
      AllPass(t[1..], f);
    }
  }

  lemma {:induction false} ListAheadBehind(front: Doc, back: Doc, seen: bool)
    requires ListAhead(back, seen || LISTS in front)
    ensures ListAhead(front + back, seen)
    decreases |front|
  {
    if front == [] {
      assert front + back == back;
    } else {
      assert (front + back)[0] == front[0] && (front + back)[1..] == front[1..] + back;
      assert front == [front[0]] + front[1..];
      ListAheadBehind(front[1..], back, seen || front[0] == LISTS);
    }
  }

  lemma ListTagBeforeLine(c: Chunk, n: nat, rest: Doc)
    requires !c.Chars? && HasPrefix(Inside(c), LIST_NAME)
    ensures ListTag([c] + (Line(n) + ([Open("plans", "")] + rest)))
  {
    var inner := Line(n) + ([Open("plans", "")] + rest);
    AllPass(Line(n)[0].text, IsSpace);
    assert inner[1..] == [Open("plans", "")] + rest;
    assert RunChunks(inner[1..], IsSpace) == 0;
    assert ([c] + inner)[1..] == inner;
  }

  lemma {:induction false} ListAheadInFront(front: Doc, back: Doc, seen: bool)
    requires ListAhead(front, seen)
    ensures ListAhead(front + back, seen)
    decreases |front|
  {
    assert (front + back)[0] == front[0] && (front + back)[1..] == front[1..] + back;
    if seen && ListTag(front) {
      RunAppend(front[1..], back, IsSpace);
    } else {
      ListAheadInFront(front[1..], back, seen || front[0] == LISTS);
    }
  }

  /** The default price list that starts with its plans. */
  lemma ListElementIsTag(attrs: string, n: nat, m: nat, entries: Doc)
    ensures ListAhead(Wrapped(LIST_NAME, attrs, Line(n) + Wrapped("plans", "", entries) + Line(m)), true)
  {
    var c, plans := Open(LIST_NAME, attrs), [Open("plans", "")] + (entries + [Close("plans")]);
    assert Inside(c) == LIST_NAME + attrs;
    ListTagBeforeLine(c, n, entries + [Close("plans")]);
    ListAheadInFront([c] + (Line(n) + plans), Line(m) + [Close(LIST_NAME)], true);
    assert Wrapped("plans", "", entries) == plans;
    assert Wrapped(LIST_NAME, attrs, Line(n) + plans + Line(m)) ==
           ([c] + (Line(n) + plans)) + (Line(m) + [Close(LIST_NAME)]);
  }

  lemma ListRowsHaveList(plans: seq<Plan>)
    ensures ListAhead(ListRows(plans), true)
  {
    var entries := EntryRows(plans);
    var list := Wrapped(LIST_NAME, NameAttrs("DEFAULT"), Line(12) + Wrapped("plans", "", entries) + Line(8));
    ListElementIsTag(NameAttrs("DEFAULT"), 12, 8, entries);
    ListAheadBehind(Line(8), list, true);
    ListAheadInFront(Line(8) + list, Line(4), true);
  }

  lemma ListInLists(kids: Doc, back: Doc)
    requires ListAhead(kids, true)
    ensures ListAhead(Wrapped("priceLists", "", kids) + back, false)
  {
    ListAheadBehind([LISTS], kids, false);
    ListAheadInFront([LISTS] + kids, [Close("priceLists")], false);
    ListAheadInFront(Wrapped("priceLists", "", kids), back, false);
  }

  /** Whatever stands before it. */
  lemma BehindFront(front: Doc, back: Doc, m: nat, c: Chunk)
    requires m <= |back| && c in back[..m]
    ensures (front + back)[|front| + m..] == back[m..]
    ensures c in (front + back)[..|front| + m]
  {
    assert (front + back)[..|front| + m] == front + back[..m];
  }

  lemma ListBehind(front: Doc, back: Doc)
    requires ListAhead(back, false)
    ensures ListAhead(front + back, false)
  {
    var m := ListAheadAt(back, false);
    BehindFront(front, back, m, LISTS);
    AtListAhead(front + back, false, |front| + m);
  }

  lemma FromPlansHasList(plans: seq<Plan>)
    ensures ListAhead(FromPlansOn(plans), false)
  {
    var lists := Wrapped("priceLists", "", ListRows(plans));
    ListRowsHaveList(plans);
    ListInLists(ListRows(plans), Run("\n"));
    assert Line(4) + lists + Run("\n") == Line(4) + (lists + Run("\n"));
    ListBehind(Line(4), lists + Run("\n"));
    ListBehind(Wrapped("plans", "", PlanRows(plans)), Line(4) + lists + Run("\n"));
  }

  /** The printed body has a list for the entries, so every plan merged into it later is listed. */
  lemma PrintedHasList(plans: seq<Plan>, now: string)
    ensures HasList(CatalogBody(plans, now))
  {
    FromPlansHasList(plans);
    ListBehind(UpToPlans(plans), FromPlansOn(plans));
    ListBehind(DateDoc(now), BehindDate(plans));
    ListBehind(Line(4), DateDoc(now) + BehindDate(plans));
    HasListIff(CatalogBody(plans, now));
  }

  // ---------------------------------------------------------------- the printed text has no version

  lemma NoVersionInLists(plans: seq<Plan>)
    ensures Open("version", "") !in ListRows(plans)
  {
    var version := Open("version", "");
    var entries := EntryRows(plans);
    var inner := Line(12) + Wrapped("plans", "", entries) + Line(8);
    EntryDocsInert(Actives(plans));
    NotInRows(version, EntryDocs(Actives(plans)), 12);
    NotInWrapped(version, "plans", "", entries);
    NotInPlain(version, Line(12));
    NotInPlain(version, Line(8));
    NotInPlain(version, Line(4));
    NotInWrapped(version, LIST_NAME, NameAttrs("DEFAULT"), inner);
  }

  lemma NoVersionFromPlansOn(plans: seq<Plan>)
    ensures Open("version", "") !in FromPlansOn(plans)
  {
    var version := Open("version", "");
    NoVersionInLists(plans);
    NotInPlans(version, plans);
    NotInWrapped(version, "priceLists", "", ListRows(plans));
    NotInPlain(version, Line(4));
    NotInPlain(version, Run("\n"));
  }

  lemma NoVersionInFrame(inside: string, attrs: string, body: Doc)
    requires Open("version", "") !in body
    ensures Open("version", "") !in [Other(inside)] + Run("\n") + Wrapped("catalog", attrs, body)
  {
    NotInWrapped(Open("version", ""), "catalog", attrs, body);
  }

  lemma NoVersionBehindDate(plans: seq<Plan>)
    ensures Open("version", "") !in BehindDate(plans)
  {
    NotUpToPlans(Open("version", ""), plans);
    NoVersionFromPlansOn(plans);
  }

  lemma NoVersionBehindLine(now: string, rest: Doc)
    requires Open("version", "") !in rest
    ensures Open("version", "") !in Line(4) + (DateDoc(now) + rest)
  {
    NotInPlain(Open("version", ""), Line(4));
  }

  lemma NoVersionInBody(plans: seq<Plan>, now: string)
    ensures Open("version", "") !in CatalogBody(plans, now)
  {
    NoVersionBehindDate(plans);
    NoVersionBehindLine(now, BehindDate(plans));
  }

  lemma NotMergedWithoutVersion(doc: Doc, plans: seq<Plan>, now: string)
    requires DocOk(doc) && Open("version", "") !in doc
    ensures Merged(Print(doc), plans, now) == None
  {
    VersionWord();
    LastIndexOfTag(doc, "version");
    DocLastAbsent(doc, Open("version", ""));
  }

  /** The printed text itself cannot be merged into: it has no version element, so the merge returns null. */
  lemma PrintedTextIsNotMerged(plans: seq<Plan>, others: seq<Plan>, now: string, later: string)
    requires '<' !in now
    ensures Merged(GenerateCatalogXML(plans, now), others, later) == None
  {
    CatalogIsOk(plans, now);
    NoVersionInBody(plans, now);
    NoVersionInFrame(DECLARATION, CATALOG_ATTRS, CatalogBody(plans, now));
    NotMergedWithoutVersion(CatalogDoc(plans, now), others, later);
  }

  // ---------------------------------------------------------------- the text a merge returns

  /** A merged body in the catalog element that the merge puts around it. */
  function MergedDoc(body: Doc): Doc {
    [Other(DECLARATION)] + Run("\n") + Wrapped("catalog", HEAD_ATTRS, body)
  }

  lemma PrintOfFramed(inside: string, attrs: string, body: Doc)
    ensures Print([Other(inside)] + Run("\n") + Wrapped("catalog", attrs, body)) ==
            Tag(inside) + "\n" + Tag("catalog" + attrs) + Print(body) + EndTag("catalog")
  {
    var head, open, close := [Other(inside)] + Run("\n"), [Open("catalog", attrs)], [Close("catalog")];
    PrintAppend(head, Wrapped("catalog", attrs, body));
    PrintAppend([Other(inside)], Run("\n"));
    PrintAppend(open + body, close);
    PrintAppend(open, body);
    PrintOne(Other(inside));
    PrintOne(Chars("\n"));
    PrintOne(open[0]);
    PrintOne(close[0]);
  }

  lemma PrintOne(c: Chunk)
    ensures Print([c]) == PrintChunk(c)
  {
    assert Print([c]) == PrintChunk(c) + Print([]);
  }

  lemma FramedNests(inside: string, attrs: string, body: Doc)
    requires Nest(body, ["catalog"]) == Some(["catalog"])
    ensures WellNested([Other(inside)] + Run("\n") + Wrapped("catalog", attrs, body))
  {
    var head, open := [Other(inside)] + Run("\n"), [Open("catalog", attrs)];
    OtherNeutral(inside);
    NeutralAppend([Other(inside)], Run("\n"));
    NestAppend(head, Wrapped("catalog", attrs, body), []);
    NestAppend(open + body, [Close("catalog")], []);
    NestAppend(open, body, []);
    assert [] + ["catalog"] == ["catalog"];
    assert open[1..] == [] && Nest(open, []) == Nest([], [] + ["catalog"]);
    assert Nest([Close("catalog")], ["catalog"]) == Nest([], []);
  }

  lemma FramedOk(inside: string, attrs: string, body: Doc)
    requires ChunkOk(Other(inside)) && NameOk("catalog") && DocOk(body)
    requires AttrsOk(attrs) && attrs != "" && attrs[|attrs| - 1] != '/'
    ensures DocOk([Other(inside)] + Run("\n") + Wrapped("catalog", attrs, body))
  {
  }

  lemma MergedDocOk(body: Doc)
    requires DocOk(body)
    ensures DocOk(MergedDoc(body))
  {
    DeclarationClean();
    HeadAttrsOk();
    FramedOk(DECLARATION, HEAD_ATTRS, body);
  }

  lemma MergedDocText(d: Option<Doc>)
    requires d.Some?
    ensures Framed(d) == Some(Print(MergedDoc(d.value)))
  {
    PrintOfFramed(DECLARATION, HEAD_ATTRS, d.value);
  }

  /**
   What `appendPlansToCatalog` returns is the text of a whole document, one catalog
   element around the merged body, and it is well nested if the body it was given nests.
   */
  lemma MergedTextIsCatalog(pre: Doc, body: Doc, post: Doc, plans: seq<Plan>, now: string)
    requires DocOk(Served(pre, body, post)) && NoVersionTag(body) && NoVersionTag(post)
    requires '<' !in now && DocMerge(body, plans, now).Some?
    ensures Merged(Print(Served(pre, body, post)), plans, now) ==
            Some(Print(MergedDoc(DocMerge(body, plans, now).value)))
    ensures DocOk(MergedDoc(DocMerge(body, plans, now).value))
    ensures Nest(body, ["catalog"]) == Some(["catalog"]) ==>
              WellNested(MergedDoc(DocMerge(body, plans, now).value))
  {
    MergeOfServed(pre, body, post, plans, now);
    MergedDocText(DocMerge(body, plans, now));
    PartIsOk(pre, body, post);
    MergedOk(body, plans, now);
    MergedDocOk(DocMerge(body, plans, now).value);
    if Nest(body, ["catalog"]) == Some(["catalog"]) {
      MergeKeepsNesting(body, plans, now, ["catalog"]);
      FramedNests(DECLARATION, HEAD_ATTRS, DocMerge(body, plans, now).value);
    }
  }
}
