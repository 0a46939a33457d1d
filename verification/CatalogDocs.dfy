/**
 The fragments the catalog code writes, as documents: a plan, a product and a
 price-list entry, with the indentation of the templates. The templates of
 catalog-sync.js and index.js differ only in the margin of their innermost lines.
 */
module CatalogDocs {
  import opened Wrappers
  import opened Text
  import opened Xml
  import opened Decimals

  predicate Clean(s: string) {
    forall i :: 0 <= i < |s| ==> s[i] != '<' && s[i] != '>' && s[i] != '"'
  }

  /** A value that needs no escaping in an attribute or in character data. The code never escapes. */
  type Value = s: string | Clean(s)

  /** A subscription plan; a missing currency is the empty text, the price is its number's text. */
  datatype Plan = Plan(id: Value, moduleName: Value, active: bool, trialDays: int, currency: Value, price: Value)

  // ---------------------------------------------------------------- tags that fragments do not hold

  /** Not one of the tags the merge looks for. */
  predicate Ordinary(n: string) {
    n != "products" && n != "priceLists" && n != "plans" && n != "effectiveDate" && n != "version" &&
    !HasPrefix(n, "defaultPriceList")
  }

  predicate PlainChunk(c: Chunk) {
    ChunkOk(c) && (c.Open? || c.Close? || c.Empty? ==> Ordinary(c.name))
  }

  predicate UnnamedChunk(c: Chunk) {
    PlainChunk(c) && (c.Open? || c.Empty? ==> !HasPrefix(c.attrs, NAME_ATTR))
  }

  /** A fragment that can stand anywhere and holds none of the tags the merge looks for. */
  ghost predicate Plain(doc: Doc) {
    Neutral(doc) && forall i :: 0 <= i < |doc| ==> PlainChunk(doc[i])
  }

  /** A plain fragment in which no tag starts with a `name` attribute. */
  ghost predicate Inert(doc: Doc) {
    Neutral(doc) && forall i :: 0 <= i < |doc| ==> UnnamedChunk(doc[i])
  }

  lemma InertIsPlain(doc: Doc)
    requires Inert(doc)
    ensures Plain(doc)
  {
  }

  lemma PlainAppend(a: Doc, b: Doc)
    requires Plain(a) && Plain(b)
    ensures Plain(a + b)
  {
    NeutralAppend(a, b);
  }

  lemma InertAppend(a: Doc, b: Doc)
    requires Inert(a) && Inert(b)
    ensures Inert(a + b)
  {
    NeutralAppend(a, b);
  }

  /** No start tag like that of a price-list entry: a plan without attributes. */
  predicate NoEntry(doc: Doc) {
    Open("plan", "") !in doc
  }

  // ---------------------------------------------------------------- building inert fragments

  predicate Word(name: string) {
    NameOk(name) && Ordinary(name)
  }

  predicate AttrsInert(attrs: string) {
    AttrsOk(attrs) && !HasPrefix(attrs, NAME_ATTR) && (attrs == [] || attrs[|attrs| - 1] != '/')
  }

  function Spaces(n: nat): (r: string)
    ensures |r| == n && forall i :: 0 <= i < n ==> r[i] == ' '
  {
    seq(n, _ => ' ')
  }

  function Run(text: string): (r: Doc)
    requires '<' !in text
    ensures Inert(r) && NoEntry(r)
  {
    CharsNeutral(text);
    [Chars(text)]
  }

  /** A line break and the next line's indentation. */
  function Line(n: nat): (r: Doc)
    ensures Inert(r) && NoEntry(r)
  {
    Run("\n" + Spaces(n))
  }

  function Void(name: string): (r: Doc)
    requires Word(name)
    ensures Inert(r) && NoEntry(r)
  {
    EmptyNeutral(name);
    [Empty(name, "")]
  }

  function Elem(name: string, attrs: string, kids: Doc): (r: Doc)
    requires Word(name) && AttrsInert(attrs) && Inert(kids)
    ensures Inert(r) && (name != "plan" && NoEntry(kids) ==> NoEntry(r))
  {
    ElemNeutral(name, attrs, kids);
    [Open(name, attrs)] + kids + [Close(name)]
  }

  function Leaf(name: string, text: string): (r: Doc)
    requires Word(name) && '<' !in text
    ensures Inert(r) && (name != "plan" ==> NoEntry(r))
  {
    Elem(name, "", Run(text))
  }

  /** A fragment on a line of its own, and what follows it. */
  function On(n: nat, doc: Doc, rest: Doc): (r: Doc)
    requires Inert(doc) && Inert(rest)
    ensures Inert(r) && (NoEntry(doc) && NoEntry(rest) ==> NoEntry(r))
  {
    InertAppend(Line(n), doc);
    InertAppend(Line(n) + doc, rest);
    Line(n) + doc + rest
  }

  lemma NothingIsNeutral()
    ensures Neutral([])
  {
    assert forall stack :: Nest([], stack) == Some(stack);
  }

  lemma CharsNeutral(text: string)
    ensures Neutral([Chars(text)])
  {
    forall stack
      ensures Nest([Chars(text)], stack) == Some(stack)
    {
      assert Nest([Chars(text)], stack) == Nest([], stack);
    }
  }

  lemma EmptyNeutral(name: string)
    ensures Neutral([Empty(name, "")])
  {
    forall stack
      ensures Nest([Empty(name, "")], stack) == Some(stack)
    {
      assert Nest([Empty(name, "")], stack) == Nest([], stack);
    }
  }

  lemma ElemNeutral(name: string, attrs: string, kids: Doc)
    requires Neutral(kids)
    ensures Neutral([Open(name, attrs)] + kids + [Close(name)])
  {
    forall stack
      ensures Nest([Open(name, attrs)] + kids + [Close(name)], stack) == Some(stack)
    {
      var inner := stack + [name];
      NestAppend([Open(name, attrs)] + kids, [Close(name)], stack);
      NestAppend([Open(name, attrs)], kids, stack);
      assert Nest([Open(name, attrs)], stack) == Nest([], inner);
      assert inner[..|inner| - 1] == stack;
      assert Nest([Close(name)], inner) == Nest([], stack);
    }
  }

  // ---------------------------------------------------------------- the words of the templates

  lemma LongWord(name: string, i: nat)
    requires NameOk(name) && name != "effectiveDate"
    requires i < |name| && i < |"defaultPriceList"| && name[i] != "defaultPriceList"[i]
    requires name != "products" && name != "priceLists" && name != "plans" && name != "version"
    ensures Word(name)
  {
  }

  lemma PlanWords()
    ensures Word("plan") && Word("product") && Word("usages")
  {
  }

  lemma AmountWords()
    ensures Word("price") && Word("currency") && Word("value")
  {
  }

  lemma DurationWords()
    ensures Word("duration") && Word("unit") && Word("number")
  {
  }

  lemma FixedWords()
    ensures Word("fixed") && Word("fixedPrice")
  {
  }

  lemma RecurringWords()
    ensures Word("recurring") && Word("recurringPrice") && Word("billingPeriod")
  {
  }

  lemma PhaseWords()
    ensures Word("initialPhases") && Word("phase") && Word("finalPhase")
  {
  }

  lemma ProductWords()
    ensures Word("category") && Word("included") && Word("available") && Word("limits")
  {
  }

  lemma ModeWord()
    ensures Word("recurringBillingMode")
  {
    LongWord("recurringBillingMode", 0);
  }

  lemma BundleWord()
    ensures Word("plansAllowedInBundle")
  {
    LongWord("plansAllowedInBundle", 0);
  }

  function TypeAttr(value: string): (r: string)
    requires NoMarkup(value)
    ensures AttrsInert(r)
  {
    var r := " type=\"" + value + "\"";
    assert r[1] == 't' && NAME_ATTR[1] == 'n';
    r
  }

  // ---------------------------------------------------------------- values

  /** `module.replace(/ /g, "")` */
  function WithoutSpaces(s: Value): (r: Value)
    ensures ' ' !in r
  {
    if s == [] then [] else (if s[0] == ' ' then [] else [s[0]]) + WithoutSpaces(s[1..])
  }

  function ProductOf(p: Plan): Value {
    WithoutSpaces(p.moduleName)
  }

  /** `currency || "INR"` */
  function CurrencyOf(p: Plan): Value {
    if p.currency == "" then "INR" else p.currency
  }

  // ---------------------------------------------------------------- the templates

  const NAME_END := " prettyName=\""

  function NameAttrs(name: Value): string {
    NAME_ATTR + (name + "\"" + (NAME_END + name + "\""))
  }

  /** An amount in the innermost lines, whose margin is `m`. */
  function AmountDoc(m: nat, currency: Value, amount: Value): (r: Doc)
    ensures Inert(r) && NoEntry(r)
  {
    AmountWords();
    Elem("price", "", On(m + 4, Leaf("currency", currency), On(m + 4, Leaf("value", amount), Line(m))))
  }

  function FixedDoc(p: Plan, m: nat): (r: Doc)
    ensures Inert(r) && NoEntry(r)
  {
    FixedWords();
    Elem("fixed", TypeAttr("ONE_TIME"),
         On(m, Elem("fixedPrice", "", On(m + 4, AmountDoc(m + 4, CurrencyOf(p), "0"), Line(m))), Line(28)))
  }

  function TrialDaysDoc(p: Plan, m: nat): (r: Doc)
    requires p.trialDays > 0
    ensures Inert(r) && NoEntry(r)
  {
    DurationWords();
    Elem("duration", "", On(m, Leaf("unit", "DAYS"), On(m, Leaf("number", Decimal(p.trialDays)), Line(28))))
  }

  function TrialPhaseDoc(p: Plan, m: nat): (r: Doc)
    requires p.trialDays > 0
    ensures Inert(r) && NoEntry(r)
  {
    PlanWords();
    PhaseWords();
    Elem("phase", TypeAttr("TRIAL"),
         On(28, TrialDaysDoc(p, m), On(28, FixedDoc(p, m), On(28, Void("usages"), Line(24)))))
  }

  function InitialPhasesDoc(p: Plan, m: nat): (r: Doc)
    ensures Inert(r) && NoEntry(r)
  {
    PhaseWords();
    if p.trialDays > 0 then Elem("initialPhases", "", On(24, TrialPhaseDoc(p, m), Line(20)))
    else Void("initialPhases")
  }

  function RecurringDoc(p: Plan, m: nat): (r: Doc)
    ensures Inert(r) && NoEntry(r)
  {
    RecurringWords();
    Elem("recurring", "",
         On(28, Leaf("billingPeriod", "MONTHLY"),
            On(28, Elem("recurringPrice", "", On(m, AmountDoc(m, CurrencyOf(p), p.price), Line(28))), Line(24))))
  }

  function UnlimitedDoc(): (r: Doc)
    ensures Inert(r) && NoEntry(r)
  {
    DurationWords();
    Elem("duration", "", On(28, Leaf("unit", "UNLIMITED"), On(28, Leaf("number", "-1"), Line(24))))
  }

  function FinalPhaseDoc(p: Plan, m: nat): (r: Doc)
    ensures Inert(r) && NoEntry(r)
  {
    PlanWords();
    PhaseWords();
    Elem("finalPhase", TypeAttr("EVERGREEN"),
         On(24, UnlimitedDoc(), On(24, RecurringDoc(p, m), On(24, Void("usages"), Line(20)))))
  }

  function AllowedDoc(): (r: Doc)
    ensures Inert(r) && NoEntry(r)
  {
    BundleWord();
    On(20, Leaf("plansAllowedInBundle", "-1"), Line(16))
  }

  /** From the phases on. */
  function PhasesDoc(p: Plan, m: nat): (r: Doc)
    ensures Inert(r) && NoEntry(r)
  {
    On(20, InitialPhasesDoc(p, m), On(20, FinalPhaseDoc(p, m), AllowedDoc()))
  }

  function PlanBody(p: Plan, m: nat): (r: Doc)
    ensures Inert(r) && NoEntry(r)
  {
    PlanWords();
    ModeWord();
    On(20, Leaf("product", ProductOf(p)), On(20, Leaf("recurringBillingMode", "IN_ADVANCE"), PhasesDoc(p, m)))
  }

  function ProductBody(m: nat): (r: Doc)
    ensures Inert(r) && NoEntry(r)
  {
    ProductWords();
    On(m + 4, Leaf("category", "BASE"),
       On(m + 4, Void("included"), On(m + 4, Void("available"), On(m + 4, Void("limits"), Line(m)))))
  }

  /** An indented element with a name: what a plan or a product template yields. */
  function NamedDoc(indent: nat, elem: string, name: Value, body: Doc): Doc {
    [Chars(Spaces(indent)), Open(elem, NameAttrs(name))] + body + [Close(elem)]
  }

  /** `buildPlanXML`, with margin 0; the plans of `generateCatalogXML` have margin 32. */
  function PlanDoc(p: Plan, m: nat): Doc
  {
    NamedDoc(16, "plan", p.id, PlanBody(p, m))
  }

  /** `buildProductXML`, indented by 16; the products of `generateCatalogXML` by 8. */
  function ProductDoc(name: Value, m: nat): Doc {
    NamedDoc(m, "product", name, ProductBody(m))
  }

  /** An entry of a price list. */
  function EntryDoc(p: Plan): (r: Doc)
    ensures Inert(r)
  {
    PlanWords();
    InertAppend(Run(Spaces(24)), Leaf("plan", p.id));
    Run(Spaces(24)) + Leaf("plan", p.id)
  }

  /** `join("\n")` */
  function Joined(docs: seq<Doc>): Doc {
    if docs == [] then []
    else if |docs| == 1 then docs[0]
    else docs[0] + Run("\n") + Joined(docs[1..])
  }

  function PlanDocs(plans: seq<Plan>, m: nat): seq<Doc>
  {
    seq(|plans|, i requires 0 <= i < |plans| => PlanDoc(plans[i], m))
  }

  function ProductDocs(names: seq<Value>, m: nat): seq<Doc> {
    seq(|names|, i requires 0 <= i < |names| => ProductDoc(names[i], m))
  }

  function EntryDocs(plans: seq<Plan>): seq<Doc>
  {
    seq(|plans|, i requires 0 <= i < |plans| => EntryDoc(plans[i]))
  }

  // ---------------------------------------------------------------- fragments are plain

  lemma NamedPlain(indent: nat, elem: string, name: Value, body: Doc)
    requires Word(elem) && Inert(body)
    ensures Plain(NamedDoc(indent, elem, name, body))
  {
    var doc := [Open(elem, NameAttrs(name))] + body + [Close(elem)];
    assert NamedDoc(indent, elem, name, body) == Run(Spaces(indent)) + doc;
    ElemNeutral(elem, NameAttrs(name), body);
    NamedAttrsOk(name);
    PlainAppend(Run(Spaces(indent)), doc);
  }

  lemma NamedAttrsOk(name: Value)
    ensures AttrsOk(NameAttrs(name)) && NameAttrs(name)[|NameAttrs(name)| - 1] == '"'
    ensures HasPrefix(NameAttrs(name), NAME_ATTR)
    ensures NameAttrs(name)[|NAME_ATTR|..] == name + "\"" + (NAME_END + name + "\"")
  {
    var rest := name + "\"" + (NAME_END + name + "\"");
    TakeDropAppend(NAME_ATTR, rest);
    assert rest[|name|] == '"';
  }

  lemma {:induction false} JoinedPlain(docs: seq<Doc>)
    requires forall i :: 0 <= i < |docs| ==> Plain(docs[i])
    ensures Plain(Joined(docs))
    decreases |docs|
  {
    NothingIsNeutral();
    if |docs| > 1 {
      JoinedPlain(docs[1..]);
      PlainAppend(docs[0], Run("\n"));
      PlainAppend(docs[0] + Run("\n"), Joined(docs[1..]));
    }
  }

  lemma PlanDocPlain(p: Plan, m: nat)
    ensures Plain(PlanDoc(p, m))
  {
    PlanWords();
    NamedPlain(16, "plan", p.id, PlanBody(p, m));
  }

  lemma ProductDocPlain(name: Value, m: nat)
    ensures Plain(ProductDoc(name, m))
  {
    PlanWords();
    NamedPlain(m, "product", name, ProductBody(m));
  }

  lemma PlanDocsPlain(plans: seq<Plan>, m: nat)
    ensures Plain(Joined(PlanDocs(plans, m)))
  {
    forall i | 0 <= i < |plans|
      ensures Plain(PlanDocs(plans, m)[i])
    {
      PlanDocPlain(plans[i], m);
    }
    JoinedPlain(PlanDocs(plans, m));
  }

  lemma ProductDocsPlain(names: seq<Value>, m: nat)
    ensures Plain(Joined(ProductDocs(names, m)))
  {
    forall i | 0 <= i < |names|
      ensures Plain(ProductDocs(names, m)[i])
    {
      ProductDocPlain(names[i], m);
    }
    JoinedPlain(ProductDocs(names, m));
  }

  lemma {:induction false} JoinedInert(docs: seq<Doc>)
    requires forall i :: 0 <= i < |docs| ==> Inert(docs[i])
    ensures Inert(Joined(docs))
    decreases |docs|
  {
    NothingIsNeutral();
    if |docs| > 1 {
      JoinedInert(docs[1..]);
      InertAppend(docs[0], Run("\n"));
      InertAppend(docs[0] + Run("\n"), Joined(docs[1..]));
    }
  }

  lemma EntryDocsInert(plans: seq<Plan>)
    ensures Inert(Joined(EntryDocs(plans)))
  {
    JoinedInert(EntryDocs(plans));
  }
}
