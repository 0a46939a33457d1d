/**
 What the merge does to a document: it only inserts its fragments and sets the date,
 each fragment goes where it belongs, and the nesting of the document is kept.
 */
module CatalogLaws {
  import opened Xml
  import opened XmlSearch
  import opened CatalogDocs
  import opened CatalogSync
  import opened CatalogMerge
  import opened CatalogLists

  // ---------------------------------------------------------------- insertions

  /** `y` is `x` with the fragment right before a chunk `c`. */
  ghost predicate PutBefore(x: Doc, y: Doc, fragment: Doc, c: Chunk) {
    exists k: nat :: k < |x| && x[k] == c && y == Splice(x, k, fragment)
  }

  /** `y` is `x` with the fragment right after a chunk `c`. */
  ghost predicate PutAfter(x: Doc, y: Doc, fragment: Doc, c: Chunk) {
    exists k: nat :: k < |x| && x[k] == c && y == Splice(x, k + 1, fragment)
  }

  ghost predicate AdditiveBy(doc: Doc, y: Doc, z: Doc, out: Doc, products: seq<Value>, plans: seq<Plan>) {
    && (if products == [] then y == doc else PutBefore(doc, y, ProductsFragment(products), Close("products")))
    && (if plans == [] then z == y else PutBefore(y, z, PlansFragment(plans), Close("plans")))
    && (if plans == [] || !HasList(doc) then out == z else PutAfter(z, out, EntriesFragment(plans), Open("plans", "")))
  }

  /**
   `out` is `doc` with the three fragments, each next to its tag; the price-list
   entries are there exactly when `doc` has a list for them.
   */
  ghost predicate Additive(doc: Doc, out: Doc, products: seq<Value>, plans: seq<Plan>) {
    exists y, z :: AdditiveBy(doc, y, z, out, products, plans)
  }

  lemma SplicedBefore(x: Doc, k: nat, fragment: Doc, c: Chunk)
    requires k < |x| && x[k] == c
    ensures PutBefore(x, Splice(x, k, fragment), fragment, c)
  {
  }

  lemma SplicedAfter(x: Doc, k: nat, n: int, fragment: Doc, c: Chunk)
    requires k <= |x| && 0 < n <= |x| - k && x[k..][n - 1] == c
    ensures PutAfter(x, SpliceBehind(x, k, n, fragment), fragment, c)
  {
    var at := k + n - 1;
    assert x[at] == c && SpliceBehind(x, k, n, fragment) == Splice(x, at + 1, fragment);
  }

  lemma FoundAt(doc: Doc, c: Chunk)
    ensures DocFirst(doc, At(c)) >= 0 ==> DocFirst(doc, At(c)) < |doc| && doc[DocFirst(doc, At(c))] == c
    ensures DocLast(doc, At(c)) >= 0 ==> DocLast(doc, At(c)) < |doc| && doc[DocLast(doc, At(c))] == c
  {
    DocFirstIsFirst(doc, At(c));
    DocLastIsLast(doc, At(c));
  }

  lemma AddProductsPlace(doc: Doc, products: seq<Value>)
    requires DocAddProducts(doc, products).Some?
    ensures var y := DocAddProducts(doc, products).value;
            if products == [] then y == doc else PutBefore(doc, y, ProductsFragment(products), Close("products"))
  {
    if products != [] {
      FoundAt(doc, Close("products"));
      SplicedBefore(doc, DocFirst(doc, At(Close("products"))), ProductsFragment(products), Close("products"));
    }
  }

  predicate NoLists(doc: Doc) {
    Open("priceLists", "") !in doc
  }

  lemma BeforeLists(doc: Doc)
    ensures var k := DocFirst(doc, At(Open("priceLists", ""))); k >= 0 ==> NoLists(doc[..k])
  {
    DocFirstIsFirst(doc, At(Open("priceLists", "")));
    var k := DocFirst(doc, At(Open("priceLists", "")));
    if k >= 0 {
      forall i | 0 <= i < k
        ensures doc[..k][i] != Open("priceLists", "")
      {
        assert doc[i..][0] == doc[i];
        assert At(Open("priceLists", ""))(doc[i..]) <==> doc[i] == Open("priceLists", "");
      }
    }
  }

  lemma PlansCloseFound(doc: Doc)
    requires DocPlansClose(doc) >= 0
    ensures var j := DocPlansClose(doc); j < |doc| && doc[j] == Close("plans") && NoLists(doc[..j])
  {
    var k := DocFirst(doc, At(Open("priceLists", "")));
    FoundAt(doc[..k], Close("plans"));
    BeforeLists(doc);
    var j := DocPlansClose(doc);
    assert doc[j] == doc[..k][j] && doc[..j] == doc[..k][..j];
  }

  lemma AddPlansPlace(doc: Doc, plans: seq<Plan>)
    requires DocAddPlans(doc, plans).Some?
    ensures var y := DocAddPlans(doc, plans).value;
            if plans == [] then y == doc else PutBefore(doc, y, PlansFragment(plans), Close("plans"))
  {
    PlansCloseFound(doc);
    if plans != [] {
      SplicedBefore(doc, DocPlansClose(doc), PlansFragment(plans), Close("plans"));
    }
  }

  lemma EntriesAfterPlans(lists: Doc)
    requires DocEntriesAt(lists) >= 0
    ensures 0 < DocEntriesAt(lists) <= |lists| && lists[DocEntriesAt(lists) - 1] == Open("plans", "")
  {
    DocFirstIsFirst(lists, ListTag);
    var m := DocFirst(lists, ListTag);
    assert ListTag(lists[m..]);
  }

  lemma InsertedPlace(doc: Doc, x: Doc)
    requires HasList(doc) && x != []
    ensures PutAfter(doc, DocInsertInList(doc, x), x, Open("plans", ""))
  {
    InsertedIff(doc, x);
    var k := DocFirst(doc, At(LISTS));
    var n := DocEntriesAt(doc[k..]);
    EntriesAfterPlans(doc[k..]);
    SplicedAfter(doc, k, n, x, Open("plans", ""));
  }

  lemma AddEntriesPlace(doc: Doc, plans: seq<Plan>)
    ensures var y := DocAddEntries(doc, plans);
            if plans == [] || !HasList(doc) then y == doc
            else PutAfter(doc, y, EntriesFragment(plans), Open("plans", ""))
  {
    if plans != [] {
      EntriesAddedIff(doc, plans);
      if HasList(doc) {
        InsertedPlace(doc, EntriesFragment(plans));
      }
    }
  }

  lemma PutKeepsList(x: Doc, y: Doc, fragment: Doc, name: string)
    requires PutBefore(x, y, fragment, Close(name)) && forall i :: 0 <= i < |fragment| ==> PlainChunk(fragment[i])
    ensures HasList(y) <==> HasList(x)
  {
    var k: nat :| k < |x| && x[k] == Close(name) && y == Splice(x, k, fragment);
    SpliceKeepsList(x, k, fragment);
  }

  /** The new products and plans neither make nor break a list for the entries. */
  lemma StepsKeepList(doc: Doc, products: seq<Value>, plans: seq<Plan>)
    requires DocAddProducts(doc, products).Some? && DocAddPlans(DocAddProducts(doc, products).value, plans).Some?
    ensures HasList(DocAddPlans(DocAddProducts(doc, products).value, plans).value) <==> HasList(doc)
  {
    FragmentsPlain(products, plans);
    AddProductsPlace(doc, products);
    var y := DocAddProducts(doc, products).value;
    AddPlansPlace(y, plans);
    if products != [] {
      PutKeepsList(doc, y, ProductsFragment(products), "products");
    }
    if plans != [] {
      PutKeepsList(y, DocAddPlans(y, plans).value, PlansFragment(plans), "plans");
    }
  }

  lemma InsertAllIsAdditive(doc: Doc, products: seq<Value>, plans: seq<Plan>)
    requires DocInsertAll(doc, products, plans).Some?
    ensures Additive(doc, DocInsertAll(doc, products, plans).value, products, plans)
  {
    AddProductsPlace(doc, products);
    var y := DocAddProducts(doc, products).value;
    AddPlansPlace(y, plans);
    var z := DocAddPlans(y, plans).value;
    AddEntriesPlace(z, plans);
    StepsKeepList(doc, products, plans);
    assert AdditiveBy(doc, y, z, DocInsertAll(doc, products, plans).value, products, plans);
  }

  // ---------------------------------------------------------------- nesting

  lemma SpliceKeepsNesting(x: Doc, k: nat, fragment: Doc, stack: seq<string>)
    requires k <= |x| && Neutral(fragment)
    ensures Nest(Splice(x, k, fragment), stack) == Nest(x, stack)
  {
    InsertKeepsNesting(x[..k], fragment, x[k..], stack);
    assert x == x[..k] + x[k..];
  }

  lemma PutIsSplice(x: Doc, y: Doc, fragment: Doc, c: Chunk) returns (k: nat)
    requires PutBefore(x, y, fragment, c) || PutAfter(x, y, fragment, c)
    ensures k <= |x| && y == Splice(x, k, fragment)
  {
    if PutBefore(x, y, fragment, c) {
      k :| k < |x| && x[k] == c && y == Splice(x, k, fragment);
    } else {
      k :| k < |x| && x[k] == c && y == Splice(x, k + 1, fragment);
      k := k + 1;
    }
  }

  lemma PutKeepsNesting(x: Doc, y: Doc, fragment: Doc, c: Chunk, stack: seq<string>)
    requires PutBefore(x, y, fragment, c) || PutAfter(x, y, fragment, c)
    requires Neutral(fragment)
    ensures Nest(y, stack) == Nest(x, stack)
  {
    var k := PutIsSplice(x, y, fragment, c);
    SpliceKeepsNesting(x, k, fragment, stack);
  }

  lemma AdditiveKeepsNesting(doc: Doc, out: Doc, products: seq<Value>, plans: seq<Plan>, stack: seq<string>)
    requires Additive(doc, out, products, plans)
    ensures Nest(out, stack) == Nest(doc, stack)
  {
    FragmentsPlain(products, plans);
    var y, z :| AdditiveBy(doc, y, z, out, products, plans);
    if products != [] {
      PutKeepsNesting(doc, y, ProductsFragment(products), Close("products"), stack);
    }
    if plans != [] {
      PutKeepsNesting(y, z, PlansFragment(plans), Close("plans"), stack);
    }
    if plans != [] && HasList(doc) {
      PutKeepsNesting(z, out, EntriesFragment(plans), Open("plans", ""), stack);
    }
  }

  lemma {:induction false} RunKeepsNesting(doc: Doc, f: char -> bool, stack: seq<string>)
    ensures Nest(doc, stack) == Nest(doc[RunChunks(doc, f)..], stack)
    decreases |doc|
  {
    var k := RunChunks(doc, f);
    if k > 0 {
      RunKeepsNesting(doc[1..], f, stack);
      assert doc[1..][k - 1..] == doc[k..];
    } else {
      assert doc[0..] == doc;
    }
  }

  lemma DateTagNesting(doc: Doc, stack: seq<string>)
    requires DateTag(doc)
    ensures Nest(doc, stack) == Nest(doc[DateChunks(doc)..], stack)
  {
    var inner, k := stack + ["effectiveDate"], RunChunks(doc[1..], NotBracket);
    RunKeepsNesting(doc[1..], NotBracket, inner);
    var rest := doc[1..][k..];
    assert rest[0] == Close("effectiveDate") && rest[1..] == doc[k + 2..];
    assert inner[..|inner| - 1] == stack;
  }

  lemma DateDocNesting(now: string, rest: Doc, stack: seq<string>)
    ensures Nest(DateDoc(now) + rest, stack) == Nest(rest, stack)
  {
    var inner := stack + ["effectiveDate"];
    var doc := DateDoc(now) + rest;
    assert doc[1..] == [Chars(now), Close("effectiveDate")] + rest;
    assert doc[1..][1..] == [Close("effectiveDate")] + rest;
    assert doc[1..][1..][1..] == rest;
    assert Nest(doc, stack) == Nest(doc[1..], inner);
    assert Nest(doc[1..], inner) == Nest(doc[1..][1..], inner);
    assert inner[..|inner| - 1] == stack;
  }

  lemma {:induction false} SetDateKeepsNesting(doc: Doc, now: string, stack: seq<string>)
    ensures Nest(DocSetDate(doc, now), stack) == Nest(doc, stack)
    decreases |doc|
  {
    if doc == [] {
    } else if DateTag(doc) {
      DateTagNesting(doc, stack);
      DateDocNesting(now, doc[DateChunks(doc)..], stack);
    } else {
      var rest := DocSetDate(doc[1..], now);
      assert DocSetDate(doc, now)[0] == doc[0] && DocSetDate(doc, now)[1..] == rest;
      match doc[0]
      case Open(n, _) => SetDateKeepsNesting(doc[1..], now, stack + [n]);
      case Close(n) =>
        if stack != [] && stack[|stack| - 1] == n {
          SetDateKeepsNesting(doc[1..], now, stack[..|stack| - 1]);
        }
      case _ => SetDateKeepsNesting(doc[1..], now, stack);
    }
  }

  /** The merge keeps the nesting of the body, whatever elements are open around it. */
  lemma MergeKeepsNesting(doc: Doc, plans: seq<Plan>, now: string, stack: seq<string>)
    requires DocMerge(doc, plans, now).Some?
    ensures Nest(DocMerge(doc, plans, now).value, stack) == Nest(doc, stack)
  {
    var products, news := DocNewProducts(doc, plans), DocNewPlans(doc, plans);
    InsertAllIsAdditive(doc, products, news);
    var c := DocInsertAll(doc, products, news).value;
    AdditiveKeepsNesting(doc, c, products, news, stack);
    SetDateKeepsNesting(c, now, stack);
  }
}
