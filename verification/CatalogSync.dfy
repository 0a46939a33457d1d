/**
 The additive catalog merge of catalog-sync.js, on texts: positions are found by
 index and by pattern, and the text is spliced there.
 */
module CatalogSync {
  import opened Wrappers
  import opened Sequences
  import opened Text
  import opened Xml
  import opened XmlSearch
  import opened CatalogDocs
  import opened CatalogNames

  // ---------------------------------------------------------------- which plans and products are new

  function Actives(plans: seq<Plan>): (r: seq<Plan>)
    ensures forall p :: p in r <==> p in plans && p.active
  {
    if plans == [] then [] else (if plans[0].active then [plans[0]] else []) + Actives(plans[1..])
  }

  /** `filter((p) => !known.includes(p.id))` */
  function Unlisted(plans: seq<Plan>, known: seq<string>): (r: seq<Plan>)
    ensures forall p :: p in r <==> p in plans && p.id !in known
  {
    if plans == [] then [] else (if plans[0].id in known then [] else [plans[0]]) + Unlisted(plans[1..], known)
  }

  // Each filter keeps the order: one more plan at the end is one more, at the end, or none.

  lemma ActivesHead(p: Plan, rest: seq<Plan>)
    ensures Actives([p] + rest) == if p.active then [p] + Actives(rest) else Actives(rest)
  {
    assert ([p] + rest)[1..] == rest;
  }

  lemma {:induction false} ActivesOfMore(plans: seq<Plan>, last: Plan)
    ensures Actives(plans + [last]) == if last.active then Actives(plans) + [last] else Actives(plans)
    decreases |plans|
  {
    if plans == [] {
      AppendEmpty(plans, [last]);
    } else {
      var first, rest := plans[0], plans[1..];
      ActivesOfMore(rest, last);
      ActivesHead(first, rest);
      ActivesHead(first, rest + [last]);
      assert [first] + rest == plans;
      Regroup([first], rest, [last]);
      Regroup([first], Actives(rest), [last]);
    }
  }

  lemma UnlistedHead(p: Plan, rest: seq<Plan>, known: seq<string>)
    ensures Unlisted([p] + rest, known) == if p.id in known then Unlisted(rest, known) else [p] + Unlisted(rest, known)
  {
    assert ([p] + rest)[1..] == rest;
  }

  lemma {:induction false} UnlistedOfMore(plans: seq<Plan>, last: Plan, known: seq<string>)
    ensures Unlisted(plans + [last], known)
         == if last.id in known then Unlisted(plans, known) else Unlisted(plans, known) + [last]
    decreases |plans|
  {
    if plans == [] {
      AppendEmpty(plans, [last]);
    } else {
      var first, rest := plans[0], plans[1..];
      UnlistedOfMore(rest, last, known);
      UnlistedHead(first, rest, known);
      UnlistedHead(first, rest + [last], known);
      assert [first] + rest == plans;
      Regroup([first], rest, [last]);
      Regroup([first], Unlisted(rest, known), [last]);
    }
  }

  function Products(plans: seq<Plan>): (r: seq<Value>)
    ensures |r| == |plans| && forall i :: 0 <= i < |r| ==> r[i] == ProductOf(plans[i])
  {
    seq(|plans|, i requires 0 <= i < |plans| => ProductOf(plans[i]))
  }

  /** `[...new Set(names)]`: each name once, in the order of first appearance. */
  function Distinct(names: seq<Value>): (r: seq<Value>)
    ensures forall n :: n in r <==> n in names
    ensures forall i, j :: 0 <= i < j < |r| ==> r[i] != r[j]
  {
    if names == [] then []
    else
      var before, last := Distinct(names[..|names| - 1]), names[|names| - 1];
      if last in before then before else before + [last]
  }

  /** The name at `i` of the distinct ones first appears before the one at `j` does. */
  lemma {:induction false} FirstAppearance(names: seq<Value>, i: nat, j: nat) returns (k: nat)
    requires i < j < |Distinct(names)|
    ensures k < |names| && names[k] == Distinct(names)[i] && Distinct(names)[j] !in names[..k + 1]
    decreases |names|
  {
    var front, last := names[..|names| - 1], names[|names| - 1];
    var before := Distinct(front);
    if j < |before| {
      k := FirstAppearance(front, i, j);
      assert front[..k + 1] == names[..k + 1];
    } else {
      assert Distinct(names)[i] == before[i] && Distinct(names)[j] == last;
      assert before[i] in front;
      k :| 0 <= k < |front| && front[k] == before[i];
      assert forall n :: n in names[..k + 1] ==> n in front;
    }
  }

  function Missing(names: seq<Value>, known: seq<string>): (r: seq<Value>)
    ensures forall n :: n in r <==> n in names && n !in known
  {
    if names == [] then [] else (if names[0] in known then [] else [names[0]]) + Missing(names[1..], known)
  }

  lemma MissingHead(n: Value, rest: seq<Value>, known: seq<string>)
    ensures Missing([n] + rest, known) == if n in known then Missing(rest, known) else [n] + Missing(rest, known)
  {
    assert ([n] + rest)[1..] == rest;
  }

  lemma {:induction false} MissingOfMore(names: seq<Value>, last: Value, known: seq<string>)
    ensures Missing(names + [last], known)
         == if last in known then Missing(names, known) else Missing(names, known) + [last]
    decreases |names|
  {
    if names == [] {
      AppendEmpty(names, [last]);
    } else {
      var first, rest := names[0], names[1..];
      MissingOfMore(rest, last, known);
      MissingHead(first, rest, known);
      MissingHead(first, rest + [last], known);
      assert [first] + rest == names;
      Regroup([first], rest, [last]);
      Regroup([first], Missing(rest, known), [last]);
    }
  }

  // ---------------------------------------------------------------- the inserted fragments

  function ProductsFragment(names: seq<Value>): Doc {
    Joined(ProductDocs(names, 16)) + Line(12)
  }

  function PlansFragment(plans: seq<Plan>): Doc {
    Run("\n") + Joined(PlanDocs(plans, 0)) + Line(12)
  }

  function EntriesFragment(plans: seq<Plan>): Doc {
    Run("\n") + Joined(EntryDocs(plans))
  }

  function DateDoc(now: string): Doc {
    [Open("effectiveDate", ""), Chars(now), Close("effectiveDate")]
  }

  // ---------------------------------------------------------------- the patterns

  predicate NotBracket(c: char) {
    c != '<'
  }

  /** The length of the longest front of `t` whose characters pass the test. */
  function Span(t: string, f: char -> bool): (n: nat)
    ensures n <= |t|
  {
    if t == [] || !f(t[0]) then 0 else 1 + Span(t[1..], f)
  }

  const LIST_NAME := "defaultPriceList"

  /** The length of the match of `/\s*<plans>/` at the front of `t`, or -1. */
  function PlansMatch(t: string): (n: int)
    ensures -1 <= n <= |t|
  {
    var r := Span(t, IsSpace);
    if HasPrefix(t[r..], Tag("plans")) then r + |Tag("plans")| else -1
  }

  /** The length of the match of `/<defaultPriceList[^>]*>\s*<plans>/` at the front of `t`, or -1. */
  function ListMatch(t: string): (n: int)
    ensures -1 <= n <= |t|
  {
    var g := IndexOf(t, ">");
    if !HasPrefix(t, "<" + LIST_NAME) || g < 0 then -1
    else
      var n := PlansMatch(t[g + 1..]);
      if n < 0 then -1 else g + 1 + n
  }

  /** The length of the match of `/<effectiveDate>[^<]*<\/effectiveDate>/` at the front of `t`, or -1. */
  function DateMatch(t: string): (n: int)
    ensures -1 <= n <= |t|
  {
    var tag, end := Tag("effectiveDate"), EndTag("effectiveDate");
    if !HasPrefix(t, tag) then -1
    else
      var r := |tag| + Span(t[|tag|..], NotBracket);
      if HasPrefix(t[r..], end) then r + |end| else -1
  }

  /** The test that a pattern, given by its match length, matches at the front. */
  function Matches(pattern: string -> int): TextTest {
    (t: string) => pattern(t) >= 0
  }

  // ---------------------------------------------------------------- the steps of the merge

  function Splice<T>(s: seq<T>, i: nat, x: seq<T>): seq<T>
    requires i <= |s|
  {
    s[..i] + x + s[i..]
  }

  /** Step 1: new products go before the first `</products>`. */
  function AddProducts(inner: string, names: seq<Value>): Option<string> {
    if names == [] then Some(inner)
    else
      var i := IndexOf(inner, EndTag("products"));
      if i < 0 then None else Some(Splice(inner, i, Print(ProductsFragment(names))))
  }

  /** The last `</plans>` that precedes the first `<priceLists>`, or -1. */
  function PlansClose(inner: string): (j: int)
    ensures -1 <= j <= |inner|
  {
    var i := IndexOf(inner, Tag("priceLists"));
    if i < 0 then -1 else LastIndexOf(inner[..i], EndTag("plans"))
  }

  /** Step 2: new plans go before that end tag. */
  function AddPlans(inner: string, plans: seq<Plan>): Option<string> {
    var j := PlansClose(inner);
    if j < 0 then None
    else if plans == [] then Some(inner)
    else Some(Splice(inner, j, Print(PlansFragment(plans))))
  }

  /**
   Where the first match of the default price list's start ends, or -1. The code looks
   the matched text up again, from the same start.
   */
  function EntriesAt(lists: string): (n: int)
    ensures -1 <= n <= |lists|
  {
    var m := FindFirst(lists, Matches(ListMatch));
    if m < 0 then -1
    else
      FindFirstIsFirst(lists, Matches(ListMatch));
      var found := lists[m..][..ListMatch(lists[m..])];
      IndexOf(lists, found) + |found|
  }

  /** Splices at `n` behind `i`, unless `n` is -1. */
  function SpliceBehind<T>(s: seq<T>, i: nat, n: int, x: seq<T>): seq<T>
    requires i <= |s| && n <= |s| - i
  {
    if n < 0 then s else Splice(s, i + n, x)
  }

  /** `x` goes right after the start of the default price list's plans, if there is one. */
  function InsertInList(inner: string, x: string): string {
    var i := IndexOf(inner, Tag("priceLists"));
    if i < 0 then inner else SpliceBehind(inner, i, EntriesAt(inner[i..]), x)
  }

  /** Step 3: the new plans' ids. */
  function AddEntries(inner: string, plans: seq<Plan>): string {
    if plans == [] then inner else InsertInList(inner, Print(EntriesFragment(plans)))
  }

  /** `s.replace(pattern, x)`: the first match is replaced. */
  function ReplaceFirst(s: string, pattern: string -> int, x: string): string
    requires forall t :: pattern(t) <= |t|
  {
    var i := FindFirst(s, Matches(pattern));
    if i < 0 then s
    else
      FindFirstIsFirst(s, Matches(pattern));
      s[..i] + x + s[i..][pattern(s[i..])..]
  }

  /** Step 4: the first effective date is replaced. */
  function SetDate(inner: string, now: string): string {
    ReplaceFirst(inner, DateMatch, Print(DateDoc(now)))
  }

  function NewProducts(inner: string, plans: seq<Plan>): seq<Value> {
    Missing(Distinct(Products(Actives(plans))), NamesInText(inner, Lead("product")))
  }

  function NewPlans(inner: string, plans: seq<Plan>): seq<Plan> {
    Unlisted(Actives(plans), NamesInText(inner, Lead("plan")))
  }

  /** The four steps on a version body; the new names are determined before the first step. */
  function MergeText(inner: string, plans: seq<Plan>, now: string): Option<string> {
    var news := NewPlans(inner, plans);
    var a := AddProducts(inner, NewProducts(inner, plans));
    if a.None? then None
    else
      var b := AddPlans(a.value, news);
      if b.None? then None else Some(SetDate(AddEntries(b.value, news), now))
  }

  /** `s.slice(from, to)` for positions that are not negative. */
  function Slice(s: string, from: nat, to: nat): string {
    if from < to <= |s| then s[from..to] else []
  }

  function Attr(name: string, value: string): string {
    name + "=\"" + value + "\""
  }

  const VERSION_1 := "?xml version=\"1.0\" encoding=\"UTF-8\""
  const DECLARATION := VERSION_1 + " standalone=\"yes\"?"

  const XML_SCHEMA := Attr("xmlns:xsi", "http://www.w3.org/2001/XMLSchema-instance")
  const CATALOG_SCHEMA := Attr("xsi:noNamespaceSchemaLocation", "CatalogSchema.xsd")
  const HEAD_ATTRS := " " + XML_SCHEMA + " " + CATALOG_SCHEMA

  const CATALOG_HEAD := Tag(DECLARATION) + "\n" + Tag("catalog" + HEAD_ATTRS)

  /** The text between the last `<version>` and the last `</version>`; None when one is missing. */
  function VersionBody(xml: string): Option<string> {
    var from := LastIndexOf(xml, Tag("version"));
    var to := LastIndexOf(xml, EndTag("version"));
    if xml == "" || from < 0 || to < 0 then None else Some(Slice(xml, from + |Tag("version")|, to))
  }

  function Merged(xml: string, plans: seq<Plan>, now: string): Option<string> {
    var inner := VersionBody(xml);
    if inner.None? then None
    else
      var body := MergeText(inner.value, plans, now);
      if body.None? then None else Some(CATALOG_HEAD + body.value + EndTag("catalog"))
  }

  // ---------------------------------------------------------------- the second look-up

  lemma {:induction false} SpanIsLocal(t: string, u: string, f: char -> bool)
    requires Span(t, f) < |t| && HasPrefix(u, t[..Span(t, f) + 1])
    ensures Span(u, f) == Span(t, f)
    decreases |t|
  {
    assert t[..Span(t, f) + 1][0] == t[0];
    assert u[0] == t[0];
    if f(t[0]) {
      assert t[..Span(t, f) + 1][1..] == t[1..][..Span(t[1..], f) + 1];
      SpanIsLocal(t[1..], u[1..], f);
    }
  }

  lemma CharFound(s: string, c: char, g: nat)
    ensures IndexOf(s, [c]) == g <==> g < |s| && s[g] == c && c !in s[..g]
  {
    if IndexOf(s, [c]) == g {
      FindFirstIsFirst(s, StartsWith([c]));
      assert HasPrefix(s[g..], [c]) && s[g..][0] == s[g];
      forall j | 0 <= j < g
        ensures s[j] != c
      {
        assert s[j..][0] == s[j];
        assert HasPrefix(s[j..], [c]) <==> s[j] == c;
      }
    }
    if g < |s| && s[g] == c && c !in s[..g] {
      assert s == s[..g] + [c] + s[g + 1..];
      FirstChar(s[..g], c, s[g + 1..]);
    }
  }

  lemma PrefixCarries(t: string, u: string, n: nat, i: nat, w: string)
    requires n <= |t| && HasPrefix(u, t[..n])
    requires i + |w| <= n && HasPrefix(t[i..], w)
    ensures HasPrefix(u[i..], w)
  {
    forall k | 0 <= k < |w|
      ensures u[i..][k] == w[k]
    {
      assert t[i..][k] == w[k] && t[..n][i + k] == t[i + k];
    }
  }

  lemma IndexCarries(t: string, u: string, n: nat, c: char, g: nat)
    requires n <= |t| && HasPrefix(u, t[..n]) && g < n && IndexOf(t, [c]) == g
    ensures IndexOf(u, [c]) == g
  {
    CharFound(t, c, g);
    CharFound(u, c, g);
    assert forall i :: 0 <= i < n ==> u[i] == t[..n][i];
  }

  lemma PlansMatchIsLocal(t: string, u: string)
    requires PlansMatch(t) >= 0 && HasPrefix(u, t[..PlansMatch(t)])
    ensures PlansMatch(u) == PlansMatch(t)
  {
    var n, r := PlansMatch(t), Span(t, IsSpace);
    PrefixCarries(t, u, n, r, Tag("plans"));
    assert t[0..] == t && u[0..] == u;
    assert HasPrefix(t, t[..r + 1]);
    PrefixCarries(t, u, n, 0, t[..r + 1]);
    SpanIsLocal(t, u, IsSpace);
  }

  lemma MatchIsLong(t: string)
    requires ListMatch(t) >= 0
    ensures |"<" + LIST_NAME| <= IndexOf(t, ">") < ListMatch(t)
  {
    var g, w := IndexOf(t, ">"), "<" + LIST_NAME;
    CharFound(t, '>', g);
    assert '>' !in w;
    PrefixAt(t, w, if g < |w| then g else 0);
  }

  lemma DropCarries(t: string, u: string, n: nat, b: nat)
    requires b <= n <= |t| && HasPrefix(u, t[..n])
    ensures b <= |u| && HasPrefix(u[b..], t[b..][..n - b])
  {
    forall i | 0 <= i < n - b
      ensures u[b..][i] == t[b..][..n - b][i]
    {
      assert t[..n][b + i] == t[b..][i];
    }
  }

  /** Whether a text starts with a match, and how long it is, depends on the matched text alone. */
  lemma MatchIsLocal(t: string, u: string)
    requires ListMatch(t) >= 0 && HasPrefix(u, t[..ListMatch(t)])
    ensures ListMatch(u) == ListMatch(t)
  {
    var n, g := ListMatch(t), IndexOf(t, ">");
    assert t[0..] == t && u[0..] == u;
    MatchIsLong(t);
    PrefixCarries(t, u, n, 0, "<" + LIST_NAME);
    IndexCarries(t, u, n, '>', g);
    DropCarries(t, u, n, g + 1);
    PlansMatchIsLocal(t[g + 1..], u[g + 1..]);
  }

  /** Looking the first match's text up again finds the match itself. */
  lemma MatchIsFoundAgain(s: string, m: nat)
    requires FindFirst(s, Matches(ListMatch)) == m && ListMatch(s[m..]) >= 0
    ensures IndexOf(s, s[m..][..ListMatch(s[m..])]) == m
  {
    var found := s[m..][..ListMatch(s[m..])];
    FirstIsLeast(s, StartsWith(found), m);
    FoundHolds(s, StartsWith(found));
    var i := IndexOf(s, found);
    MatchIsLocal(s[m..], s[i..]);
    FirstIsLeast(s, Matches(ListMatch), i);
  }

  /** Where the first match of a pattern ends, or -1. */
  function FirstMatchEnd(t: string, pattern: string -> int): int {
    var m := FindFirst(t, Matches(pattern));
    if m < 0 then -1 else m + pattern(t[m..])
  }

  lemma EntriesAtEndOfMatch(lists: string)
    ensures EntriesAt(lists) == FirstMatchEnd(lists, ListMatch)
  {
    var m := FindFirst(lists, Matches(ListMatch));
    if m >= 0 {
      FindFirstIsFirst(lists, Matches(ListMatch));
      MatchIsFoundAgain(lists, m);
    }
  }

  // ---------------------------------------------------------------- the operation

  method InsertPlans(versionBody: string, newPlans: seq<Plan>) returns (r: Option<string>)
    ensures r == AddPlans(versionBody, newPlans)
  {
    var inner := versionBody;
    var priceListsIdx := IndexOf(inner, Tag("priceLists"));
    if priceListsIdx == -1 {
      return None;
    }
    var topPlansCloseIdx := LastIndexOf(inner[..priceListsIdx], EndTag("plans"));
    if topPlansCloseIdx == -1 {
      return None;
    }
    if |newPlans| > 0 {
      inner := Splice(inner, topPlansCloseIdx, Print(PlansFragment(newPlans)));
    }
    r := Some(inner);
  }

  /** The part of `appendPlansToCatalog` that rewrites `inner`. */
  method MergeInto(versionBody: string, allPlans: seq<Plan>, now: string) returns (r: Option<string>)
    ensures r == MergeText(versionBody, allPlans, now)
  {
    var inner := versionBody;
    var activePlans := Actives(allPlans);
    var existingPlanIds := NamesInText(inner, Lead("plan"));
    var existingProductNames := NamesInText(inner, Lead("product"));
    var newPlans := Unlisted(activePlans, existingPlanIds);
    var neededProducts := Distinct(Products(activePlans));
    var newProducts := Missing(neededProducts, existingProductNames);
    assert newPlans == NewPlans(versionBody, allPlans) && newProducts == NewProducts(versionBody, allPlans);

    if |newProducts| > 0 {
      var productsCloseIdx := IndexOf(inner, EndTag("products"));
      if productsCloseIdx == -1 {
        return None;
      }
      inner := Splice(inner, productsCloseIdx, Print(ProductsFragment(newProducts)));
    }
    assert AddProducts(versionBody, newProducts) == Some(inner);

    var withPlans := InsertPlans(inner, newPlans);
    if withPlans.None? {
      return None;
    }
    inner := withPlans.value;
    inner := AddEntries(inner, newPlans);
    inner := SetDate(inner, now);
    r := Some(inner);
  }

  /** `appendPlansToCatalog`; None stands for null, in and out. */
  method AppendPlansToCatalog(currentCatalogXML: Option<string>, allPlans: seq<Plan>, now: string)
    returns (r: Option<string>)
    ensures r == if currentCatalogXML.None? then None else Merged(currentCatalogXML.value, allPlans, now)
  {
    if currentCatalogXML.None? || currentCatalogXML.value == "" {
      return None;
    }
    var xml := currentCatalogXML.value;
    var versionStart := LastIndexOf(xml, Tag("version"));
    var versionEnd := LastIndexOf(xml, EndTag("version"));
    if versionStart == -1 || versionEnd == -1 {
      return None;
    }
    var inner := MergeInto(Slice(xml, versionStart + |Tag("version")|, versionEnd), allPlans, now);
    if inner.None? {
      return None;
    }
    r := Some(CATALOG_HEAD + inner.value + EndTag("catalog"));
  }
}
