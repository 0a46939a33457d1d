/**
 Where the merge puts its fragments, in terms of the elements that are open there.
 */
module CatalogPlaces {
  import opened Wrappers
  import opened Text
  import opened Xml
  import opened XmlSearch
  import opened CatalogDocs
  import opened CatalogSync
  import opened CatalogMerge
  import opened CatalogLists
  import opened CatalogLaws

  /** The elements open before chunk `k`, outermost first. */
  ghost predicate OpenAt(doc: Doc, k: nat, path: seq<string>) {
    k <= |doc| && Nest(doc[..k], []) == Some(path)
  }

  lemma {:induction false} NestOne(x: Doc, c: Chunk)
    ensures var before := Nest(x, []);
            Nest(x + [c], []) == if before.None? then None else Nest([c], before.value)
  {
    NestAppend(x, [c], []);
  }

  /** Before an end tag of a well nested document, its element is the innermost open one. */
  lemma InsideItsElement(doc: Doc, k: nat, name: string)
    requires WellNested(doc) && k < |doc| && doc[k] == Close(name)
    ensures exists outer :: OpenAt(doc, k, outer + [name])
  {
    assert doc == doc[..k] + doc[k..];
    NestAppend(doc[..k], doc[k..], []);
    var open := Nest(doc[..k], []).value;
    assert doc[k..][0] == Close(name);
    assert open == open[..|open| - 1] + [name];
    assert OpenAt(doc, k, open[..|open| - 1] + [name]);
  }

  /** The innermost open element was opened by a start tag that stood in the surrounding elements. */
  lemma {:induction false} OpenedBefore(doc: Doc, k: nat, outer: seq<string>, name: string)
    requires OpenAt(doc, k, outer + [name])
    ensures exists i :: 0 <= i < k && doc[i].Open? && doc[i].name == name && OpenAt(doc, i, outer)
    decreases k
  {
    assert Nest([], []) == Some([]) && doc[..0] == [] && outer + [name] != [];
    assert k > 0;
    var c, x := doc[k - 1], doc[..k - 1];
    assert doc[..k] == x + [c];
    NestOne(x, c);
    var before := Nest(x, []).value;
    match c
    case Open(n, _) =>
      assert Nest([c], before) == Nest([], before + [n]);
      assert before + [n] == outer + [name];
      assert (before + [n])[..|before|] == before && (outer + [name])[..|outer|] == outer;
      assert (before + [n])[|before|] == n && (outer + [name])[|outer|] == name;
      assert OpenAt(doc, k - 1, outer);
    case Close(n) =>
      assert Nest([c], before) == Nest([], before[..|before| - 1]);
      assert before == (outer + [name]) + [n];
      OpenedBefore(doc, k - 1, outer + [name], n);
      var i :| 0 <= i < k - 1 && doc[i].Open? && doc[i].name == n && OpenAt(doc, i, outer + [name]);
      OpenedBefore(doc, i, outer, name);
    case _ =>
      assert Nest([c], before) == Nest([], before);
      OpenedBefore(doc, k - 1, outer, name);
  }

  // ---------------------------------------------------------------- products

  ghost predicate ProductsPlaced(x: Doc, y: Doc, products: seq<Value>) {
    if products == [] then y == x
    else exists k: nat, outer ::
           OpenAt(x, k, outer + ["products"]) && y == Splice(x, k, ProductsFragment(products))
  }

  /** New products go inside a `products` element. */
  lemma ProductsGoInside(doc: Doc, products: seq<Value>)
    requires WellNested(doc) && DocAddProducts(doc, products).Some?
    ensures ProductsPlaced(doc, DocAddProducts(doc, products).value, products)
  {
    if products != [] {
      var k := DocFirst(doc, At(Close("products")));
      FoundAt(doc, Close("products"));
      InsideItsElement(doc, k, "products");
      var outer :| OpenAt(doc, k, outer + ["products"]);
    }
  }

  // ---------------------------------------------------------------- plans

  /** Before the price lists, `plans` elements stand at the top level only. */
  ghost predicate PlansOnTop(doc: Doc) {
    forall i :: 0 <= i < |doc| && doc[i].Open? && doc[i].name == "plans" && NoLists(doc[..i]) ==> OpenAt(doc, i, [])
  }

  lemma ClosedOnTop(doc: Doc, j: nat)
    requires WellNested(doc) && PlansOnTop(doc) && j < |doc| && doc[j] == Close("plans") && NoLists(doc[..j])
    ensures OpenAt(doc, j, ["plans"])
  {
    InsideItsElement(doc, j, "plans");
    var outer :| OpenAt(doc, j, outer + ["plans"]);
    OpenedBefore(doc, j, outer, "plans");
    var i :| 0 <= i < j && doc[i].Open? && doc[i].name == "plans" && OpenAt(doc, i, outer);
    assert doc[..i] == doc[..j][..i];
    assert outer == [];
    assert outer + ["plans"] == ["plans"];
  }

  ghost predicate PlansPlaced(x: Doc, y: Doc, plans: seq<Plan>) {
    if plans == [] then y == x
    else exists j: nat ::
           OpenAt(x, j, ["plans"]) && NoLists(x[..j]) && y == Splice(x, j, PlansFragment(plans))
  }

  /** New plans go directly inside the top-level `plans` element, before the price lists. */
  lemma PlansGoOnTop(doc: Doc, plans: seq<Plan>)
    requires WellNested(doc) && PlansOnTop(doc) && DocAddPlans(doc, plans).Some?
    ensures PlansPlaced(doc, DocAddPlans(doc, plans).value, plans)
  {
    PlansCloseFound(doc);
    ClosedOnTop(doc, DocPlansClose(doc));
  }

  lemma SplicedChunk(doc: Doc, k: nat, fragment: Doc, i: nat)
    requires k <= |doc| && i < |doc| + |fragment|
    ensures Splice(doc, k, fragment)[i] ==
            if i < k then doc[i] else if i < k + |fragment| then fragment[i - k] else doc[i - |fragment|]
  {
  }

  lemma PlansOnTopKept(doc: Doc, k: nat, fragment: Doc)
    requires PlansOnTop(doc) && k <= |doc| && Plain(fragment)
    ensures PlansOnTop(Splice(doc, k, fragment))
  {
    var y := Splice(doc, k, fragment);
    forall i | 0 <= i < |y| && y[i].Open? && y[i].name == "plans" && NoLists(y[..i])
      ensures OpenAt(y, i, [])
    {
      SplicedChunk(doc, k, fragment, i);
      if i < k {
        assert y[..i] == doc[..i] && y[i] == doc[i];
      } else {
        var o := i - |fragment|;
        assert y[i] == doc[o];
        assert y[..i] == Splice(doc[..o], k, fragment) by {
          assert doc[..o][..k] == doc[..k] && doc[..o][k..] == doc[k..o];
        }
        assert NoLists(doc[..o]) by {
          forall q | 0 <= q < o
            ensures doc[..o][q] != Open("priceLists", "")
          {
            assert y[..i][if q < k then q else q + |fragment|] == doc[q];
          }
        }
        SpliceKeepsNesting(doc[..o], k, fragment, []);
      }
    }
  }

  // ---------------------------------------------------------------- price-list entries

  lemma {:induction false} RunLeavesOpen(doc: Doc, m: nat, k: nat, path: seq<string>)
    requires OpenAt(doc, m, path) && m + k <= |doc| && forall i :: m <= i < m + k ==> doc[i].Chars?
    ensures OpenAt(doc, m + k, path)
    decreases k
  {
    if k > 0 {
      RunLeavesOpen(doc, m, k - 1, path);
      assert doc[..m + k] == doc[..m + k - 1] + [doc[m + k - 1]];
      NestOne(doc[..m + k - 1], doc[m + k - 1]);
      assert Nest([doc[m + k - 1]], path) == Nest([], path);
    }
  }

  lemma OpenNext(doc: Doc, m: nat, path: seq<string>)
    requires OpenAt(doc, m, path) && m < |doc| && doc[m].Open?
    ensures OpenAt(doc, m + 1, path + [doc[m].name])
  {
    assert doc[..m + 1] == doc[..m] + [doc[m]];
    NestOne(doc[..m], doc[m]);
    assert Nest([doc[m]], path) == Nest([], path + [doc[m].name]);
  }

  /** After a default price list's start tag, white space and `<plans>`, both elements are open. */
  lemma InsideListTag(doc: Doc, m: nat, path: seq<string>)
    requires m < |doc| && ListTag(doc[m..]) && doc[m].Open? && OpenAt(doc, m, path)
    ensures OpenAt(doc, m + ListChunks(doc[m..]), path + [doc[m].name] + ["plans"])
  {
    var k := RunChunks(doc[m..][1..], IsSpace);
    OpenNext(doc, m, path);
    RunIsChars(doc[m..][1..], IsSpace);
    assert forall i :: 0 <= i < k ==> doc[m + 1 + i] == doc[m..][1..][i];
    assert forall i :: m + 1 <= i < m + 1 + k ==> doc[i] == doc[m..][1..][i - m - 1];
    RunLeavesOpen(doc, m + 1, k, path + [doc[m].name]);
    assert doc[m + 1 + k] == doc[m..][1 + k];
    OpenNext(doc, m + 1 + k, path + [doc[m].name]);
  }

  /** No self-closing tag starts like a default price list. */
  predicate ListsHaveContent(doc: Doc) {
    forall i :: 0 <= i < |doc| && doc[i].Empty? ==> !HasPrefix(Inside(doc[i]), LIST_NAME)
  }

  /** The first list tag after a `<priceLists>`. */
  ghost predicate IsFirstList(x: Doc, m: nat) {
    ListAt(x, m) && forall i :: ListAt(x, i) ==> m <= i
  }

  /** The position after the list's `<plans>`. */
  function BehindPlans(doc: Doc, m: nat): nat
    requires m < |doc|
  {
    m + ListChunks(doc[m..])
  }

  /** Chunk `m` starts the first default price list, and position `n` is at the front of its plans. */
  ghost predicate InFirstList(x: Doc, m: nat, n: nat, path: seq<string>) {
    && IsFirstList(x, m) && x[m].Open? && n == BehindPlans(x, m)
    && OpenAt(x, m, path) && OpenAt(x, n, path + [x[m].name] + ["plans"])
  }

  predicate Inserted(x: Doc, y: Doc, n: nat, fragment: Doc) {
    n <= |x| && y == Splice(x, n, fragment)
  }

  /** `y` is `x` with the entries at the front of the first default price list's plans. */
  ghost predicate Listed(x: Doc, y: Doc, entries: Doc) {
    exists m, n, path :: InFirstList(x, m, n, path) && Inserted(x, y, n, entries)
  }

  /** Without such a list no entries are written. */
  ghost predicate EntriesPlaced(x: Doc, y: Doc, plans: seq<Plan>) {
    if plans == [] || !HasList(x) then y == x
    else Listed(x, y, EntriesFragment(plans))
  }

  lemma InsideHead(c: Chunk)
    requires ChunkOk(c) && !c.Chars?
    ensures Inside(c) != [] && (c.Close? || c.Other? ==> Inside(c)[0] in "/?!")
  {
  }

  lemma ListTagIsOpen(doc: Doc, m: nat)
    requires DocOk(doc) && ListsHaveContent(doc) && m < |doc| && ListTag(doc[m..])
    ensures doc[m].Open? && HasPrefix(Inside(doc[m]), LIST_NAME)
  {
    assert doc[m..][0] == doc[m];
    InsideHead(doc[m]);
    assert Inside(doc[m])[0] == LIST_NAME[0];
  }

  lemma PrefixNests(doc: Doc, m: nat) returns (path: seq<string>)
    requires WellNested(doc) && m <= |doc|
    ensures OpenAt(doc, m, path)
  {
    NestAppend(doc[..m], doc[m..], []);
    assert doc == doc[..m] + doc[m..];
    path := Nest(doc[..m], []).value;
  }

  lemma {:induction false} FirstList(doc: Doc, some: nat) returns (m: nat)
    requires ListAt(doc, some)
    ensures IsFirstList(doc, m)
    decreases some
  {
    if i: nat :| i < some && ListAt(doc, i) {
      m := FirstList(doc, i);
    } else {
      m := some;
    }
  }

  /** The position the searches compute. */
  function EntrySpot(doc: Doc): (n: int)
    ensures n <= |doc|
  {
    var k := DocFirst(doc, At(LISTS));
    if k < 0 || DocEntriesAt(doc[k..]) < 0 then -1 else k + DocEntriesAt(doc[k..])
  }

  lemma FirstIsFound(doc: Doc, m: nat, k: nat, j: nat)
    requires k <= |doc| && DocFirst(doc, At(LISTS)) == k && DocFirst(doc[k..], ListTag) == j
    requires k + j <= m && forall i :: ListAt(doc, i) ==> m <= i
    ensures m == k + j
  {
    ListFound(doc, k, j);
  }

  lemma SpotOfFound(doc: Doc, k: nat, j: nat)
    requires k + j < |doc| && DocFirst(doc, At(LISTS)) == k && DocFirst(doc[k..], ListTag) == j
    ensures EntrySpot(doc) == BehindPlans(doc, k + j)
  {
    assert doc[k..][j..] == doc[k + j..];
  }

  lemma FoundWithin(doc: Doc, m: nat) returns (k: nat, j: nat)
    requires ListAt(doc, m)
    ensures k + j <= m < |doc| && DocFirst(doc, At(LISTS)) == k && DocFirst(doc[k..], ListTag) == j
  {
    ListIsFound(doc, m);
    k := DocFirst(doc, At(LISTS));
    j := DocFirst(doc[k..], ListTag);
  }

  /** The searches find the first list. */
  lemma SpotOfFirst(doc: Doc, m: nat)
    requires m < |doc| && ListAt(doc, m) && forall i :: ListAt(doc, i) ==> m <= i
    ensures EntrySpot(doc) == BehindPlans(doc, m)
  {
    var k, j := FoundWithin(doc, m);
    FirstIsFound(doc, m, k, j);
    SpotOfFound(doc, k, j);
  }

  lemma InsertedAtSpot(doc: Doc, x: Doc)
    requires EntrySpot(doc) >= 0
    ensures Inserted(doc, DocInsertInList(doc, x), EntrySpot(doc), x)
  {
  }

  ghost predicate ListsOpen(doc: Doc) {
    forall m: nat :: ListAt(doc, m) ==> doc[m].Open?
  }

  lemma ProperListsOpen(doc: Doc)
    requires DocOk(doc) && ListsHaveContent(doc)
    ensures ListsOpen(doc)
  {
    forall m: nat | ListAt(doc, m)
      ensures doc[m].Open?
    {
      ListTagIsOpen(doc, m);
    }
  }

  lemma ListedFrom(doc: Doc, y: Doc, x: Doc, m: nat)
    requires WellNested(doc) && ListsOpen(doc) && IsFirstList(doc, m)
    requires Inserted(doc, y, BehindPlans(doc, m), x)
    ensures Listed(doc, y, x)
  {
    var path := PrefixNests(doc, m);
    InsideListTag(doc, m, path);
    assert InFirstList(doc, m, BehindPlans(doc, m), path);
  }

  lemma InsertedIsListed(doc: Doc, x: Doc, m: nat)
    requires WellNested(doc) && ListsOpen(doc) && IsFirstList(doc, m) && EntrySpot(doc) == BehindPlans(doc, m)
    ensures Listed(doc, DocInsertInList(doc, x), x)
  {
    InsertedAtSpot(doc, x);
    ListedFrom(doc, DocInsertInList(doc, x), x, m);
  }

  /** New entries go inside the plans of the first default price list, if there is one. */
  lemma EntriesGoInside(doc: Doc, plans: seq<Plan>)
    requires DocOk(doc) && WellNested(doc) && ListsHaveContent(doc)
    ensures EntriesPlaced(doc, DocAddEntries(doc, plans), plans)
  {
    if plans != [] {
      EntriesAddedIff(doc, plans);
      if HasList(doc) {
        var some :| ListAt(doc, some);
        var m := FirstList(doc, some);
        SpotOfFirst(doc, m);
        ProperListsOpen(doc);
        InsertedIsListed(doc, EntriesFragment(plans), m);
      }
    }
  }

  // ---------------------------------------------------------------- the merge

  lemma PlainIsNoList(c: Chunk)
    requires PlainChunk(c) && c.Empty?
    ensures !HasPrefix(Inside(c), LIST_NAME)
  {
    var n, tail := c.name, c.attrs + "/";
    assert Inside(c) == n + tail;
    if HasPrefix(n + tail, LIST_NAME) && |n| < |LIST_NAME| {
      PrefixAt(n + tail, LIST_NAME, |n|);
    }
  }

  lemma ContentKept(doc: Doc, k: nat, fragment: Doc)
    requires ListsHaveContent(doc) && k <= |doc| && Plain(fragment)
    ensures ListsHaveContent(Splice(doc, k, fragment))
  {
    var y := Splice(doc, k, fragment);
    forall i | 0 <= i < |y| && y[i].Empty?
      ensures !HasPrefix(Inside(y[i]), LIST_NAME)
    {
      SplicedChunk(doc, k, fragment, i);
      if k <= i < k + |fragment| {
        PlainIsNoList(fragment[i - k]);
      }
    }
  }

  predicate Proper(doc: Doc) {
    DocOk(doc) && WellNested(doc) && ListsHaveContent(doc)
  }

  lemma SpliceIsProper(x: Doc, k: nat, fragment: Doc)
    requires k <= |x| && Plain(fragment) && Proper(x)
    ensures Proper(Splice(x, k, fragment))
  {
    SpliceOk(x, k, fragment);
    SpliceKeepsNesting(x, k, fragment, []);
    ContentKept(x, k, fragment);
  }

  lemma AfterProducts(doc: Doc, products: seq<Value>)
    requires Proper(doc) && PlansOnTop(doc) && DocAddProducts(doc, products).Some?
    ensures var y := DocAddProducts(doc, products).value; Proper(y) && PlansOnTop(y)
  {
    FragmentsPlain(products, []);
    if products != [] {
      var k, p := DocFirst(doc, At(Close("products"))), ProductsFragment(products);
      SpliceIsProper(doc, k, p);
      PlansOnTopKept(doc, k, p);
    }
  }

  lemma AfterPlans(doc: Doc, plans: seq<Plan>)
    requires Proper(doc) && DocAddPlans(doc, plans).Some?
    ensures Proper(DocAddPlans(doc, plans).value)
  {
    FragmentsPlain([], plans);
    SpliceIsProper(doc, DocPlansClose(doc), PlansFragment(plans));
  }

  /**
   In a well nested body whose top-level plans come before the price lists, every
   fragment of the merge goes inside its element, and the entries are written
   exactly when the body has a list for them.
   */
  lemma MergePlaces(doc: Doc, plans: seq<Plan>, now: string)
    requires Proper(doc) && PlansOnTop(doc)
    requires DocMerge(doc, plans, now).Some?
    ensures exists y, z, e ::
              && ProductsPlaced(doc, y, DocNewProducts(doc, plans))
              && PlansPlaced(y, z, DocNewPlans(doc, plans))
              && EntriesPlaced(z, e, DocNewPlans(doc, plans)) && (HasList(z) <==> HasList(doc))
              && DocMerge(doc, plans, now).value == DocSetDate(e, now)
  {
    var products, news := DocNewProducts(doc, plans), DocNewPlans(doc, plans);
    ProductsGoInside(doc, products);
    AfterProducts(doc, products);
    var y := DocAddProducts(doc, products).value;
    PlansGoOnTop(y, news);
    AfterPlans(y, news);
    var z := DocAddPlans(y, news).value;
    EntriesGoInside(z, news);
    StepsKeepList(doc, products, news);
    var e := DocAddEntries(z, news);
  }
}
