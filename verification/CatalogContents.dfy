/**
 What a merged catalog says about the plans and products it declares: read back from
 the elements that declare a name, whatever templates they were written with.
 */
module CatalogContents {
  import opened Text
  import opened Decimals
  import opened Xml
  import opened XmlSearch
  import opened CatalogDocs
  import opened CatalogReading
  import opened CatalogNames
  import opened CatalogSync
  import opened CatalogMerge
  import opened CatalogLists
  import opened CatalogLaws
  import opened CatalogDates

  /** A tag of the element whose first attribute is this name. */
  predicate DeclaresName(c: Chunk, elem: string, name: string) {
    (c.Open? || c.Empty?) && c.name == elem && HasPrefix(c.attrs, NAME_ATTR + (name + "\""))
  }

  /** An element: the attributes of its tag and everything it says. */
  datatype Element = Element(attrs: string, data: seq<Datum>)

  /** The elements that declare a name, in order. */
  function ElementsOf(doc: Doc, elem: string, name: string): seq<Element> {
    if doc == [] then []
    else (if DeclaresName(doc[0], elem, name) then [ElementAt(doc)] else []) + ElementsOf(doc[1..], elem, name)
  }

  function ElementAt(doc: Doc): Element
    requires doc != [] && (doc[0].Open? || doc[0].Empty?)
  {
    Element(doc[0].attrs, if doc[0].Open? then Data(doc[1..], []) else [])
  }

  /** No tag declares the name. */
  predicate Silent(doc: Doc, elem: string, name: string) {
    forall c :: c in doc ==> !DeclaresName(c, elem, name)
  }

  lemma {:induction false} SilentInFront(a: Doc, b: Doc, elem: string, name: string)
    requires Silent(a, elem, name)
    ensures ElementsOf(a + b, elem, name) == ElementsOf(b, elem, name)
    decreases |a|
  {
    if a == [] {
      assert a + b == b;
    } else {
      assert (a + b)[0] == a[0] && (a + b)[1..] == a[1..] + b;
      SilentInFront(a[1..], b, elem, name);
    }
  }

  lemma SilentHasNone(doc: Doc, elem: string, name: string)
    requires Silent(doc, elem, name)
    ensures ElementsOf(doc, elem, name) == []
  {
    SilentInFront(doc, [], elem, name);
    assert doc + [] == doc;
  }

  lemma ShorterPrefix(s: string, a: string, b: string)
    ensures HasPrefix(s, a + b) ==> HasPrefix(s, a)
  {
    assert forall i :: 0 <= i < |a| ==> (a + b)[i] == a[i];
  }

  lemma InertIsSilent(doc: Doc, elem: string, name: string)
    requires Inert(doc)
    ensures Silent(doc, elem, name)
  {
    forall c | c in doc
      ensures !DeclaresName(c, elem, name)
    {
      if c.Open? || c.Empty? {
        ShorterPrefix(c.attrs, NAME_ATTR, name + "\"");
      }
    }
  }

  lemma SilentAppend(a: Doc, b: Doc, elem: string, name: string)
    requires Silent(a, elem, name) && Silent(b, elem, name)
    ensures Silent(a + b, elem, name)
  {
  }

  // ---------------------------------------------------------------- one named element

  lemma QuotedPrefix(name: Value, rest: string, n: Value)
    ensures HasPrefix(name + "\"" + rest, n + "\"") <==> name == n
  {
    var s, t := name + "\"" + rest, n + "\"";
    assert s[|name|] == '"' && t[|n|] == '"';
    if HasPrefix(s, t) {
      PrefixAt(s, t, if |n| <= |name| then |n| else |name|);
      forall i | 0 <= i < |n|
        ensures name[i] == n[i]
      {
        PrefixAt(s, t, i);
      }
    }
  }

  lemma PrefixBehind(a: string, s: string, t: string)
    ensures HasPrefix(a + s, a + t) <==> HasPrefix(s, t)
  {
    if HasPrefix(a + s, a + t) {
      forall i | 0 <= i < |t|
        ensures s[i] == t[i]
      {
        assert (a + s)[|a| + i] == (a + t)[|a| + i];
      }
    }
  }

  lemma AttrsDeclare(elem: string, name: Value, n: Value)
    ensures DeclaresName(Open(elem, NameAttrs(name)), elem, n) <==> name == n
  {
    PrefixBehind(NAME_ATTR, name + "\"" + (NAME_END + name + "\""), n + "\"");
    QuotedPrefix(name, NAME_END + name + "\"", n);
  }

  lemma DataOfBody(body: Doc, data: seq<Datum>, elem: string, rest: Doc)
    requires Shows(body, data)
    ensures Data(body + ([Close(elem)] + rest), []) == data
  {
    UnderNothing(data);
    assert Data([Close(elem)] + rest, []) == [];
  }

  /** A named element of the templates, and what follows it. */
  lemma NamedElement(
      indent: nat, elem: string, name: Value, body: Doc, data: seq<Datum>, rest: Doc, n: Value)
    requires Inert(body) && Shows(body, data)
    ensures ElementsOf(NamedDoc(indent, elem, name, body) + rest, elem, n) ==
            (if name == n then [Element(NameAttrs(name), data)] else []) + ElementsOf(rest, elem, n)
  {
    var behind := body + ([Close(elem)] + rest);
    var doc := [Open(elem, NameAttrs(name))] + behind;
    assert NamedDoc(indent, elem, name, body) + rest == [Chars(Spaces(indent))] + doc;
    SilentInFront([Chars(Spaces(indent))], doc, elem, n);
    AttrsDeclare(elem, name, n);
    assert doc[0] == Open(elem, NameAttrs(name)) && doc[1..] == behind;
    DataOfBody(body, data, elem, rest);
    InertIsSilent(body, elem, n);
    SilentInFront(body, [Close(elem)] + rest, elem, n);
    SilentInFront([Close(elem)], rest, elem, n);
  }

  lemma OtherElementIsSilent(indent: nat, elem: string, name: Value, body: Doc, other: string, n: string)
    requires Inert(body) && elem != other
    ensures Silent(NamedDoc(indent, elem, name, body), other, n)
  {
    InertIsSilent(body, other, n);
  }

  // ---------------------------------------------------------------- rows of plans and of products

  /** The attributes of an element with a name, written out. */
  function AttrsFor(name: string): string {
    " name=\"" + name + "\" prettyName=\"" + name + "\""
  }

  /** What the element of a plan is. */
  function PlanElement(p: Plan): Element {
    Element(AttrsFor(p.id), PlanData(p))
  }

  function ProductElement(name: string): Element {
    Element(AttrsFor(name), ProductData())
  }

  lemma AttrsWrittenOut(name: Value)
    ensures NameAttrs(name) == AttrsFor(name)
  {
    assert NAME_ATTR == " name=\"" && "\"" + NAME_END == "\" prettyName=\"";
    assert NAME_ATTR + (name + "\"" + (NAME_END + name + "\"")) ==
           NAME_ATTR + name + ("\"" + NAME_END) + name + "\"";
  }

  function PlanElements(plans: seq<Plan>, id: string): seq<Element> {
    if plans == [] then [] else PlanSaid(plans[0], id) + PlanElements(plans[1..], id)
  }

  function ProductElements(names: seq<Value>, name: string): seq<Element> {
    if names == [] then [] else ProductSaid(names[0], name) + ProductElements(names[1..], name)
  }

  /** The fragment yields these elements wherever it stands. */
  ghost predicate Says(doc: Doc, said: seq<Element>, elem: string, name: string) {
    forall rest :: ElementsOf(doc + rest, elem, name) == said + ElementsOf(rest, elem, name)
  }

  lemma SaysAppend(a: Doc, x: seq<Element>, b: Doc, y: seq<Element>, elem: string, name: string)
    requires Says(a, x, elem, name) && Says(b, y, elem, name)
    ensures Says(a + b, x + y, elem, name)
  {
    forall rest
      ensures ElementsOf(a + b + rest, elem, name) == x + y + ElementsOf(rest, elem, name)
    {
      assert a + b + rest == a + (b + rest);
      assert x + (y + ElementsOf(rest, elem, name)) == x + y + ElementsOf(rest, elem, name);
    }
  }

  lemma SilentSaysNothing(doc: Doc, elem: string, name: string)
    requires Silent(doc, elem, name)
    ensures Says(doc, [], elem, name)
  {
    forall rest
      ensures ElementsOf(doc + rest, elem, name) == [] + ElementsOf(rest, elem, name)
    {
      SilentInFront(doc, rest, elem, name);
    }
  }

  lemma InertSaysNothing(doc: Doc, elem: string, name: string)
    requires Inert(doc)
    ensures Says(doc, [], elem, name)
  {
    InertIsSilent(doc, elem, name);
    SilentSaysNothing(doc, elem, name);
  }

  function Flat(said: seq<seq<Element>>): seq<Element> {
    if said == [] then [] else said[0] + Flat(said[1..])
  }

  lemma {:induction false} JoinedSays(docs: seq<Doc>, said: seq<seq<Element>>, elem: string, name: string)
    requires |docs| == |said| && forall i :: 0 <= i < |docs| ==> Says(docs[i], said[i], elem, name)
    ensures Says(Joined(docs), Flat(said), elem, name)
    decreases |docs|
  {
    if docs == [] {
      SilentSaysNothing([], elem, name);
    } else if |docs| == 1 {
      assert Flat(said[1..]) == [] && said[0] + [] == said[0];
    } else {
      JoinedSays(docs[1..], said[1..], elem, name);
      InertSaysNothing(Run("\n"), elem, name);
      SaysAppend(docs[0], said[0], Run("\n"), [], elem, name);
      SaysAppend(docs[0] + Run("\n"), said[0] + [], Joined(docs[1..]), Flat(said[1..]), elem, name);
      assert said[0] + [] == said[0];
    }
  }

  function PlanSaid(p: Plan, id: string): seq<Element> {
    if p.id == id then [PlanElement(p)] else []
  }

  function ProductSaid(product: string, name: string): seq<Element> {
    if product == name then [ProductElement(name)] else []
  }

  lemma OnePlan(p: Plan, m: nat, id: Value)
    ensures Says(PlanDoc(p, m), PlanSaid(p, id), "plan", id)
  {
    PlanBodyShows(p, m);
    AttrsWrittenOut(p.id);
    forall rest
      ensures ElementsOf(PlanDoc(p, m) + rest, "plan", id) == PlanSaid(p, id) + ElementsOf(rest, "plan", id)
    {
      NamedElement(16, "plan", p.id, PlanBody(p, m), PlanData(p), rest, id);
    }
  }

  lemma OneProduct(product: Value, m: nat, name: Value)
    ensures Says(ProductDoc(product, m), ProductSaid(product, name), "product", name)
  {
    ProductBodyShows(m);
    AttrsWrittenOut(product);
    forall rest
      ensures ElementsOf(ProductDoc(product, m) + rest, "product", name) ==
              ProductSaid(product, name) + ElementsOf(rest, "product", name)
    {
      NamedElement(m, "product", product, ProductBody(m), ProductData(), rest, name);
    }
  }

  function PlansSaid(plans: seq<Plan>, id: string): seq<seq<Element>> {
    seq(|plans|, i requires 0 <= i < |plans| => PlanSaid(plans[i], id))
  }

  function ProductsSaid(names: seq<Value>, name: string): seq<seq<Element>> {
    seq(|names|, i requires 0 <= i < |names| => ProductSaid(names[i], name))
  }

  lemma {:induction false} PlansSaidFlat(plans: seq<Plan>, id: string)
    ensures Flat(PlansSaid(plans, id)) == PlanElements(plans, id)
    decreases |plans|
  {
    if plans != [] {
      PlansSaidFlat(plans[1..], id);
      assert PlansSaid(plans, id)[1..] == PlansSaid(plans[1..], id);
    }
  }

  lemma {:induction false} ProductsSaidFlat(names: seq<Value>, name: string)
    ensures Flat(ProductsSaid(names, name)) == ProductElements(names, name)
    decreases |names|
  {
    if names != [] {
      ProductsSaidFlat(names[1..], name);
      assert ProductsSaid(names, name)[1..] == ProductsSaid(names[1..], name);
    }
  }

  lemma PlanRowsSay(plans: seq<Plan>, m: nat, id: Value)
    ensures Says(Joined(PlanDocs(plans, m)), PlanElements(plans, id), "plan", id)
  {
    forall i | 0 <= i < |plans|
      ensures Says(PlanDocs(plans, m)[i], PlansSaid(plans, id)[i], "plan", id)
    {
      OnePlan(plans[i], m, id);
    }
    JoinedSays(PlanDocs(plans, m), PlansSaid(plans, id), "plan", id);
    PlansSaidFlat(plans, id);
  }

  lemma ProductRowsSay(names: seq<Value>, m: nat, name: Value)
    ensures Says(Joined(ProductDocs(names, m)), ProductElements(names, name), "product", name)
  {
    forall i | 0 <= i < |names|
      ensures Says(ProductDocs(names, m)[i], ProductsSaid(names, name)[i], "product", name)
    {
      OneProduct(names[i], m, name);
    }
    JoinedSays(ProductDocs(names, m), ProductsSaid(names, name), "product", name);
    ProductsSaidFlat(names, name);
  }

  lemma {:induction false} JoinedIsSilent(docs: seq<Doc>, elem: string, name: string)
    requires forall i :: 0 <= i < |docs| ==> Silent(docs[i], elem, name)
    ensures Silent(Joined(docs), elem, name)
    decreases |docs|
  {
    if |docs| > 1 {
      JoinedIsSilent(docs[1..], elem, name);
      InertIsSilent(Run("\n"), elem, name);
      SilentAppend(docs[0], Run("\n"), elem, name);
      SilentAppend(docs[0] + Run("\n"), Joined(docs[1..]), elem, name);
    }
  }

  /** Products and entries declare no plan, and plans and entries no product. */
  lemma OtherFragmentsAreSilent(names: seq<Value>, plans: seq<Plan>, id: string)
    ensures Silent(ProductsFragment(names), "plan", id) && Silent(PlansFragment(plans), "product", id)
    ensures Silent(EntriesFragment(plans), "plan", id) && Silent(EntriesFragment(plans), "product", id)
  {
    InertIsSilent(Line(12), "plan", id);
    InertIsSilent(Line(12), "product", id);
    InertIsSilent(Run("\n"), "product", id);
    ProductRowsAreSilent(names, 16, id);
    PlanRowsAreSilent(plans, 0, id);
    SilentAppend(Joined(ProductDocs(names, 16)), Line(12), "plan", id);
    SilentAppend(Run("\n"), Joined(PlanDocs(plans, 0)), "product", id);
    SilentAppend(Run("\n") + Joined(PlanDocs(plans, 0)), Line(12), "product", id);
    FragmentsPlain(names, plans);
    InertIsSilent(EntriesFragment(plans), "plan", id);
    InertIsSilent(EntriesFragment(plans), "product", id);
  }

  lemma ProductRowsAreSilent(names: seq<Value>, m: nat, id: string)
    ensures Silent(Joined(ProductDocs(names, m)), "plan", id)
  {
    forall i | 0 <= i < |names|
      ensures Silent(ProductDocs(names, m)[i], "plan", id)
    {
      OtherElementIsSilent(m, "product", names[i], ProductBody(m), "plan", id);
    }
    JoinedIsSilent(ProductDocs(names, m), "plan", id);
  }

  lemma PlanRowsAreSilent(plans: seq<Plan>, m: nat, id: string)
    ensures Silent(Joined(PlanDocs(plans, m)), "product", id)
  {
    forall i | 0 <= i < |plans|
      ensures Silent(PlanDocs(plans, m)[i], "product", id)
    {
      OtherElementIsSilent(16, "plan", plans[i].id, PlanBody(plans[i], m), "product", id);
    }
    JoinedIsSilent(PlanDocs(plans, m), "product", id);
  }

  lemma PlansFragmentSays(plans: seq<Plan>, id: Value)
    ensures Says(PlansFragment(plans), PlanElements(plans, id), "plan", id)
  {
    var rows := Joined(PlanDocs(plans, 0));
    PlanRowsSay(plans, 0, id);
    InertSaysNothing(Run("\n"), "plan", id);
    InertSaysNothing(Line(12), "plan", id);
    SaysAppend(Run("\n"), [], rows, PlanElements(plans, id), "plan", id);
    SaysAppend(Run("\n") + rows, [] + PlanElements(plans, id), Line(12), [], "plan", id);
    assert [] + PlanElements(plans, id) + [] == PlanElements(plans, id);
  }

  lemma ProductsFragmentSays(names: seq<Value>, name: Value)
    ensures Says(ProductsFragment(names), ProductElements(names, name), "product", name)
  {
    ProductRowsSay(names, 16, name);
    InertSaysNothing(Line(12), "product", name);
    SaysAppend(Joined(ProductDocs(names, 16)), ProductElements(names, name), Line(12), [], "product", name);
    assert ProductElements(names, name) + [] == ProductElements(names, name);
  }

  // ---------------------------------------------------------------- a fragment among silent text

  /** `out` is the fragment with text around it that does not declare the name. */
  ghost predicate Amid(out: Doc, fragment: Doc, elem: string, name: string) {
    exists a, b :: AmidBy(out, a, fragment, b, elem, name)
  }

  predicate AmidBy(out: Doc, a: Doc, fragment: Doc, b: Doc, elem: string, name: string) {
    out == a + fragment + b && Silent(a, elem, name) && Silent(b, elem, name)
  }

  lemma SpliceIsAmid(x: Doc, k: nat, fragment: Doc, elem: string, name: string)
    requires k <= |x| && Silent(x, elem, name)
    ensures Amid(Splice(x, k, fragment), fragment, elem, name)
  {
    assert AmidBy(Splice(x, k, fragment), x[..k], fragment, x[k..], elem, name);
  }

  lemma SpliceIsSilent(x: Doc, k: nat, more: Doc, elem: string, name: string)
    requires k <= |x| && Silent(x, elem, name) && Silent(more, elem, name)
    ensures Silent(Splice(x, k, more), elem, name)
  {
    SilentAppend(x[..k], more, elem, name);
    SilentAppend(x[..k] + more, x[k..], elem, name);
  }

  lemma SpliceBefore(a: Doc, fragment: Doc, b: Doc, k: nat, more: Doc)
    requires k <= |a|
    ensures Splice(a + fragment + b, k, more) == Splice(a, k, more) + fragment + b
  {
    var all := a + fragment + b;
    assert all[..k] == a[..k] && all[k..] == a[k..] + fragment + b;
  }

  lemma SpliceBehindFragment(a: Doc, fragment: Doc, b: Doc, k: nat, more: Doc)
    requires |a| + |fragment| <= k <= |a| + |fragment| + |b|
    ensures Splice(a + fragment + b, k, more) == a + fragment + Splice(b, k - |a| - |fragment|, more)
  {
    var all, j := a + fragment + b, k - |a| - |fragment|;
    assert all[..k] == a + fragment + b[..j] && all[k..] == b[j..];
  }

  /** Another insertion that does not cut the fragment in two leaves it amid silent text. */
  lemma StaysAmid(x: Doc, a: Doc, fragment: Doc, b: Doc, k: nat, more: Doc, elem: string, name: string)
    requires AmidBy(x, a, fragment, b, elem, name) && Silent(more, elem, name)
    requires k <= |a| || |a| + |fragment| <= k <= |x|
    ensures Amid(Splice(x, k, more), fragment, elem, name)
  {
    if k <= |a| {
      SpliceBefore(a, fragment, b, k, more);
      SpliceIsSilent(a, k, more, elem, name);
      assert AmidBy(Splice(x, k, more), Splice(a, k, more), fragment, b, elem, name);
    } else {
      var j := k - |a| - |fragment|;
      SpliceBehindFragment(a, fragment, b, k, more);
      SpliceIsSilent(b, j, more, elem, name);
      assert AmidBy(Splice(x, k, more), a, fragment, Splice(b, j, more), elem, name);
    }
  }

  lemma OutsideFragment(a: Doc, fragment: Doc, b: Doc, k: nat, c: Chunk)
    requires k < |a + fragment + b| && (a + fragment + b)[k] == c && c !in fragment
    ensures k < |a| || k >= |a| + |fragment|
  {
    if |a| <= k < |a| + |fragment| {
      InsideFragment(a, fragment, b, k);
    }
  }

  lemma InsideFragment(a: Doc, fragment: Doc, b: Doc, k: nat)
    requires |a| <= k < |a| + |fragment|
    ensures (a + fragment + b)[k] in fragment
  {
    assert (a + fragment + b)[k] == fragment[k - |a|];
  }

  lemma AmidAfterPutBefore(x: Doc, y: Doc, fragment: Doc, more: Doc, c: Chunk, elem: string, name: string)
    requires Amid(x, fragment, elem, name) && PutBefore(x, y, more, c) && c !in fragment && Silent(more, elem, name)
    ensures Amid(y, fragment, elem, name)
  {
    var a, b :| AmidBy(x, a, fragment, b, elem, name);
    var k: nat :| k < |x| && x[k] == c && y == Splice(x, k, more);
    OutsideFragment(a, fragment, b, k, c);
    StaysAmid(x, a, fragment, b, k, more, elem, name);
  }

  lemma AmidAfterPutAfter(x: Doc, y: Doc, fragment: Doc, more: Doc, c: Chunk, elem: string, name: string)
    requires Amid(x, fragment, elem, name) && PutAfter(x, y, more, c) && c !in fragment && Silent(more, elem, name)
    ensures Amid(y, fragment, elem, name)
  {
    var a, b :| AmidBy(x, a, fragment, b, elem, name);
    var k: nat :| k < |x| && x[k] == c && y == Splice(x, k + 1, more);
    OutsideFragment(a, fragment, b, k, c);
    StaysAmid(x, a, fragment, b, k + 1, more, elem, name);
  }

  lemma AmidAfterEntries(
      z: Doc, out: Doc, fragment: Doc, plans: seq<Plan>, listed: bool, elem: string, name: string)
    requires Plain(fragment) && Amid(z, fragment, elem, name) && Silent(EntriesFragment(plans), elem, name)
    requires if plans == [] || !listed then out == z else PutAfter(z, out, EntriesFragment(plans), Open("plans", ""))
    ensures Amid(out, fragment, elem, name)
  {
    if plans != [] && listed {
      assert Open("plans", "") !in fragment;
      AmidAfterPutAfter(z, out, fragment, EntriesFragment(plans), Open("plans", ""), elem, name);
    }
  }

  lemma AmidSays(out: Doc, fragment: Doc, elem: string, name: string, said: seq<Element>)
    requires Amid(out, fragment, elem, name)
    requires Says(fragment, said, elem, name)
    ensures ElementsOf(out, elem, name) == said
  {
    var a, b :| AmidBy(out, a, fragment, b, elem, name);
    assert a + fragment + b == a + (fragment + b);
    SilentInFront(a, fragment + b, elem, name);
    SilentHasNone(b, elem, name);
    assert said + [] == said;
  }
  // ---------------------------------------------------------------- the merged document

  lemma SilentAfterDate(doc: Doc, now: string, elem: string, name: string)
    requires Silent(doc, elem, name) && elem != "effectiveDate"
    ensures Silent(DocSetDate(doc, now), elem, name)
  {
    forall c | c in DocSetDate(doc, now)
      ensures !DeclaresName(c, elem, name)
    {
      DatedChunks(doc, now, c);
    }
  }

  lemma {:induction false} DatedChunks(doc: Doc, now: string, c: Chunk)
    requires c in DocSetDate(doc, now)
    ensures c in doc || c in DateDoc(now)
    decreases |doc|
  {
    if doc != [] && !DateTag(doc) && c != doc[0] {
      DatedChunks(doc[1..], now, c);
    }
  }

  lemma SilentAfterPut(x: Doc, y: Doc, more: Doc, c: Chunk, elem: string, name: string)
    requires PutBefore(x, y, more, c) && Silent(x, elem, name) && Silent(more, elem, name)
    ensures Silent(y, elem, name)
  {
    var k: nat :| k < |x| && x[k] == c && y == Splice(x, k, more);
    SpliceIsSilent(x, k, more, elem, name);
  }

  lemma PutIsAmid(x: Doc, y: Doc, fragment: Doc, c: Chunk, elem: string, name: string)
    requires PutBefore(x, y, fragment, c) && Silent(x, elem, name)
    ensures Amid(y, fragment, elem, name)
  {
    var k: nat :| k < |x| && x[k] == c && y == Splice(x, k, fragment);
    SpliceIsAmid(x, k, fragment, elem, name);
  }

  lemma EntriesAreSilent(z: Doc, out: Doc, plans: seq<Plan>, listed: bool, elem: string, name: string)
    requires if plans == [] || !listed then out == z else PutAfter(z, out, EntriesFragment(plans), Open("plans", ""))
    requires Silent(z, elem, name) && Silent(EntriesFragment(plans), elem, name)
    ensures Silent(out, elem, name)
  {
    if plans != [] && listed {
      var k: nat :| k < |z| && z[k] == Open("plans", "") && out == Splice(z, k + 1, EntriesFragment(plans));
      SpliceIsSilent(z, k + 1, EntriesFragment(plans), elem, name);
    }
  }

  lemma AdditivePlans(doc: Doc, y: Doc, z: Doc, out: Doc, products: seq<Value>, plans: seq<Plan>, id: Value)
    requires AdditiveBy(doc, y, z, out, products, plans) && Silent(doc, "plan", id)
    ensures ElementsOf(out, "plan", id) == PlanElements(plans, id)
  {
    OtherFragmentsAreSilent(products, plans, id);
    if products != [] {
      SilentAfterPut(doc, y, ProductsFragment(products), Close("products"), "plan", id);
    }
    if plans == [] {
      SilentHasNone(out, "plan", id);
    } else {
      PutIsAmid(y, z, PlansFragment(plans), Close("plans"), "plan", id);
      FragmentsPlain(products, plans);
      AmidAfterEntries(z, out, PlansFragment(plans), plans, HasList(doc), "plan", id);
      PlansFragmentSays(plans, id);
      AmidSays(out, PlansFragment(plans), "plan", id, PlanElements(plans, id));
    }
  }

  lemma AdditiveProducts(doc: Doc, y: Doc, z: Doc, out: Doc, products: seq<Value>, plans: seq<Plan>, name: Value)
    requires AdditiveBy(doc, y, z, out, products, plans) && Silent(doc, "product", name) && products != []
    ensures ElementsOf(out, "product", name) == ProductElements(products, name)
  {
    var fragment := ProductsFragment(products);
    OtherFragmentsAreSilent(products, plans, name);
    FragmentsPlain(products, plans);
    PutIsAmid(doc, y, fragment, Close("products"), "product", name);
    AmidAfterPlans(y, z, fragment, plans, name);
    AmidAfterEntries(z, out, fragment, plans, HasList(doc), "product", name);
    ProductsFragmentSays(products, name);
    AmidSays(out, fragment, "product", name, ProductElements(products, name));
  }

  lemma AmidAfterPlans(y: Doc, z: Doc, fragment: Doc, plans: seq<Plan>, name: string)
    requires Plain(fragment) && Amid(y, fragment, "product", name) && Silent(PlansFragment(plans), "product", name)
    requires if plans == [] then z == y else PutBefore(y, z, PlansFragment(plans), Close("plans"))
    ensures Amid(z, fragment, "product", name)
  {
    if plans != [] {
      assert Close("plans") !in fragment;
      AmidAfterPutBefore(y, z, fragment, PlansFragment(plans), Close("plans"), "product", name);
    }
  }

  lemma AdditiveNoProducts(doc: Doc, y: Doc, z: Doc, out: Doc, plans: seq<Plan>, name: Value)
    requires AdditiveBy(doc, y, z, out, [], plans) && Silent(doc, "product", name)
    ensures ElementsOf(out, "product", name) == []
  {
    OtherFragmentsAreSilent([], plans, name);
    if plans != [] {
      SilentAfterPut(y, z, PlansFragment(plans), Close("plans"), "product", name);
    }
    EntriesAreSilent(z, out, plans, HasList(doc), "product", name);
    SilentHasNone(out, "product", name);
  }

  // ---------------------------------------------------------------- which plans and products are new

  lemma CapturedIsQuoted(attrs: string, name: string)
    requires HasPrefix(attrs, NAME_ATTR) && name in Captured(attrs[|NAME_ATTR|..])
    ensures HasPrefix(attrs, NAME_ATTR + (name + "\""))
  {
    var v := attrs[|NAME_ATTR|..];
    var q := IndexOf(v, "\"");
    FoundHolds(v, StartsWith("\""));
    assert Captured(v) == [v[..q]];
    assert v[q] == v[q..][0] == '"';
    assert attrs[..|NAME_ATTR|] == NAME_ATTR;
    TakeAndDrop(attrs, |NAME_ATTR|);
    PrefixBehind(NAME_ATTR, v, name + "\"");
  }

  lemma {:induction false} DeclaredIsNotSilent(doc: Doc, elem: string, name: string)
    requires name in NamesIn(doc, elem)
    ensures !Silent(doc, elem, name)
    decreases |doc|
  {
    if name in NameIn(doc[0], elem) {
      CapturedIsQuoted(doc[0].attrs, name);
      assert DeclaresName(doc[0], elem, name);
    } else {
      DeclaredIsNotSilent(doc[1..], elem, name);
      var c :| c in doc[1..] && DeclaresName(c, elem, name);
      assert c in doc;
    }
  }

  /** The plans with this id that are active, in order. */
  function ActiveWith(plans: seq<Plan>, id: string): seq<Plan> {
    if plans == [] then []
    else (if plans[0].active && plans[0].id == id then [plans[0]] else []) + ActiveWith(plans[1..], id)
  }

  function Elements(plans: seq<Plan>): seq<Element> {
    seq(|plans|, i requires 0 <= i < |plans| => PlanElement(plans[i]))
  }

  lemma PlanElementsCons(p: Plan, rest: seq<Plan>, id: string)
    ensures PlanElements([p] + rest, id) == PlanSaid(p, id) + PlanElements(rest, id)
  {
    assert ([p] + rest)[1..] == rest;
  }

  lemma ElementsCons(p: Plan, rest: seq<Plan>)
    ensures Elements([p] + rest) == [PlanElement(p)] + Elements(rest)
  {
    var all, more := Elements([p] + rest), Elements(rest);
    assert all[0] == PlanElement(p);
    assert forall i :: 0 < i < |all| ==> all[i] == more[i - 1];
  }

  lemma {:induction false} NewPlanElements(plans: seq<Plan>, known: seq<string>, id: string)
    requires id !in known
    ensures PlanElements(Unlisted(Actives(plans), known), id) == Elements(ActiveWith(plans, id))
    decreases |plans|
  {
    if plans != [] {
      var p, rest := plans[0], Actives(plans[1..]);
      NewPlanElements(plans[1..], known, id);
      if p.active {
        assert Actives(plans) == [p] + rest;
        UnlistedHead(p, rest, known);
        PlanElementsCons(p, Unlisted(rest, known), id);
        ElementsCons(p, ActiveWith(plans[1..], id));
      } else {
        assert Actives(plans) == rest;
      }
      assert [] + ActiveWith(plans[1..], id) == ActiveWith(plans[1..], id);
      assert [] + PlanElements(Unlisted(rest, known), id) == PlanElements(Unlisted(rest, known), id);
    }
  }

  lemma {:induction false} NewProductElements(names: seq<Value>, name: Value)
    requires NoRepeats(names)
    ensures ProductElements(names, name) == if name in names then [ProductElement(name)] else []
    decreases |names|
  {
    if names != [] {
      NewProductElements(names[1..], name);
    }
  }

  predicate NoRepeats(names: seq<Value>) {
    forall i, j :: 0 <= i < j < |names| ==> names[i] != names[j]
  }

  lemma RepeatsNothing(name: Value, rest: seq<Value>)
    requires NoRepeats(rest) && name !in rest
    ensures NoRepeats([name] + rest)
  {
  }

  lemma {:induction false} MissingIsDistinct(names: seq<Value>, known: seq<string>)
    requires NoRepeats(names)
    ensures NoRepeats(Missing(names, known))
    decreases |names|
  {
    if names != [] {
      var rest := Missing(names[1..], known);
      MissingIsDistinct(names[1..], known);
      assert names[0] !in names[1..] && names[0] !in rest;
      RepeatsNothing(names[0], rest);
      assert [] + rest == rest;
    }
  }

  /**
   Whatever the merge does elsewhere: the elements that declare an id the catalog did
   not know are those of the active plans with that id, and they say about each of
   them exactly what `PlanElement` lists.
   */
  lemma MergedPlansSay(doc: Doc, plans: seq<Plan>, now: string, id: Value)
    requires DocMerge(doc, plans, now).Some? && Silent(doc, "plan", id)
    ensures ElementsOf(DocMerge(doc, plans, now).value, "plan", id) == Elements(ActiveWith(plans, id))
  {
    var dated, out := DocSetDate(doc, now), DocMerge(doc, plans, now).value;
    var products, news := DocNewProducts(doc, plans), DocNewPlans(doc, plans);
    MergeIsAdditive(doc, plans, now);
    var y, z :| AdditiveBy(dated, y, z, out, products, news);
    SilentAfterDate(doc, now, "plan", id);
    AdditivePlans(dated, y, z, out, products, news, id);
    if id in NamesIn(doc, "plan") {
      DeclaredIsNotSilent(doc, "plan", id);
    }
    NewPlanElements(plans, NamesIn(doc, "plan"), id);
  }

  lemma {:induction false} ActiveWithPlace(plans: seq<Plan>, p: Plan) returns (i: nat)
    requires p in plans && p.active
    ensures i < |ActiveWith(plans, p.id)| && ActiveWith(plans, p.id)[i] == p
    decreases |plans|
  {
    if plans[0] == p {
      i := 0;
    } else {
      var k := ActiveWithPlace(plans[1..], p);
      i := if plans[0].active && plans[0].id == p.id then k + 1 else k;
    }
  }

  /** So what a new active plan is billed by, and its trial, are those of its row in the plans file. */
  lemma NewPlanIsBilled(doc: Doc, plans: seq<Plan>, now: string, p: Plan) returns (e: Element)
    requires DocMerge(doc, plans, now).Some? && p in plans && p.active && Silent(doc, "plan", p.id)
    ensures e in ElementsOf(DocMerge(doc, plans, now).value, "plan", p.id)
    ensures TextsAt(e.data, ["product"]) == [WithoutSpaces(p.moduleName)]
    ensures TextsAt(e.data, [EVERGREEN, "recurring", "recurringPrice", "price", "value"]) == [p.price]
    ensures TextsAt(e.data, [EVERGREEN, "recurring", "recurringPrice", "price", "currency"]) ==
            [if p.currency == "" then "INR" else p.currency]
    ensures TextsAt(e.data, ["initialPhases", TRIAL, "duration", "number"]) ==
            if p.trialDays > 0 then [Decimal(p.trialDays)] else []
  {
    e := PlanElement(p);
    var i := ActiveWithPlace(plans, p);
    MergedPlansSay(doc, plans, now, p.id);
    assert Elements(ActiveWith(plans, p.id))[i] == e;
    PlanTexts(p);
    TrialIff(p);
  }

  /** The same for products: one element for a name that an active plan needs. */
  lemma MergedProductsSay(doc: Doc, plans: seq<Plan>, now: string, name: Value)
    requires DocMerge(doc, plans, now).Some? && Silent(doc, "product", name)
    ensures ElementsOf(DocMerge(doc, plans, now).value, "product", name) ==
            if exists p :: p in plans && p.active && ProductOf(p) == name then [ProductElement(name)] else []
  {
    var dated, out := DocSetDate(doc, now), DocMerge(doc, plans, now).value;
    var products, news := DocNewProducts(doc, plans), DocNewPlans(doc, plans);
    MergeIsAdditive(doc, plans, now);
    var y, z :| AdditiveBy(dated, y, z, out, products, news);
    SilentAfterDate(doc, now, "product", name);
    if name in NamesIn(doc, "product") {
      DeclaredIsNotSilent(doc, "product", name);
    }
    NeededProducts(plans, NamesIn(doc, "product"), name);
    if products == [] {
      AdditiveNoProducts(dated, y, z, out, news, name);
    } else {
      AdditiveProducts(dated, y, z, out, products, news, name);
      NewProductElements(products, name);
    }
  }

  lemma NeededProducts(plans: seq<Plan>, known: seq<string>, name: Value)
    requires name !in known
    ensures var news := Missing(Distinct(Products(Actives(plans))), known);
            && (name in news <==> exists p :: p in plans && p.active && ProductOf(p) == name)
            && NoRepeats(news)
  {
    var names := Products(Actives(plans));
    MissingIsDistinct(Distinct(names), known);
    assert name in Missing(Distinct(names), known) <==> name in Distinct(names);
    assert name in Distinct(names) <==> name in names;
    ActiveProducts(plans, name);
  }

  lemma ActiveProducts(plans: seq<Plan>, name: Value)
    ensures name in Products(Actives(plans)) <==> exists p :: p in plans && p.active && ProductOf(p) == name
  {
    if p :| p in plans && p.active && ProductOf(p) == name {
      ProductIsThere(Actives(plans), p);
    }
    if name in Products(Actives(plans)) {
      var p := PlanIsThere(Actives(plans), name);
      assert p in plans && p.active && ProductOf(p) == name;
    }
  }

  lemma ProductIsThere(plans: seq<Plan>, p: Plan)
    requires p in plans
    ensures ProductOf(p) in Products(plans)
  {
    var i: nat :| i < |plans| && plans[i] == p;
    assert Products(plans)[i] == ProductOf(p);
  }

  lemma PlanIsThere(plans: seq<Plan>, name: Value) returns (p: Plan)
    requires name in Products(plans)
    ensures p in plans && ProductOf(p) == name
  {
    var i: nat :| i < |Products(plans)| && Products(plans)[i] == name;
    p := plans[i];
  }
}
