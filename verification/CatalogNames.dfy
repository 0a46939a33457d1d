/**
 The names a catalog declares: what the merge's two patterns extract from a text,
 and what the document says.
 */
module CatalogNames {
  import opened Text
  import opened Xml
  import opened XmlSearch
  import opened CatalogDocs

  /** `matchAll(/lead([^"]+)"/g)`, with the captured groups. */
  function NamesInText(s: string, lead: string): seq<string>
    decreases |s|
  {
    if s == [] then []
    else if !HasPrefix(s, lead) then NamesInText(s[1..], lead)
    else
      var rest := s[|lead|..];
      var q := IndexOf(rest, "\"");
      if q <= 0 then NamesInText(s[1..], lead)
      else [rest[..q]] + NamesInText(rest[q + 1..], lead)
  }

  /** The name a tag declares, if it is a tag of `elem` whose first attribute is a non-empty name. */
  function NameIn(c: Chunk, elem: string): seq<string> {
    if Declares(c, elem) then Captured(c.attrs[|NAME_ATTR|..]) else []
  }

  predicate Declares(c: Chunk, elem: string) {
    (c.Open? || c.Empty?) && c.name == elem && HasPrefix(c.attrs, NAME_ATTR)
  }

  /** `([^"]+)"`: the text before the first quote, when there is any. */
  function Captured(v: string): seq<string> {
    var q := IndexOf(v, "\"");
    if q > 0 then [v[..q]] else []
  }

  function NamesIn(doc: Doc, elem: string): seq<string> {
    if doc == [] then [] else NameIn(doc[0], elem) + NamesIn(doc[1..], elem)
  }

  function Lead(elem: string): string {
    "<" + elem + NAME_ATTR
  }

  lemma {:induction false} NamesInAppend(a: Doc, b: Doc, elem: string)
    ensures NamesIn(a + b, elem) == NamesIn(a, elem) + NamesIn(b, elem)
    decreases |a|
  {
    if a == [] {
      assert a + b == b;
    } else {
      assert (a + b)[0] == a[0] && (a + b)[1..] == a[1..] + b;
      NamesInAppend(a[1..], b, elem);
    }
  }

  lemma {:induction false} NoDeclarations(doc: Doc, elem: string)
    requires forall i :: 0 <= i < |doc| ==> !Declares(doc[i], elem)
    ensures NamesIn(doc, elem) == []
    decreases |doc|
  {
    if doc != [] {
      NoDeclarations(doc[1..], elem);
    }
  }

  lemma InertHasNoNames(doc: Doc, elem: string)
    requires forall i :: 0 <= i < |doc| ==> UnnamedChunk(doc[i])
    ensures NamesIn(doc, elem) == []
  {
    NoDeclarations(doc, elem);
  }

  // ---------------------------------------------------------------- text and document agree

  lemma {:induction false} NamesSkip(a: string, b: string, elem: string)
    requires '<' !in a
    ensures NamesInText(a + b, Lead(elem)) == NamesInText(b, Lead(elem))
    decreases |a|
  {
    if a == [] {
      assert a + b == b;
    } else {
      assert (a + b)[0] == a[0] && (a + b)[1..] == a[1..] + b;
      assert Lead(elem)[0] == '<';
      NamesSkip(a[1..], b, elem);
    }
  }

  lemma NameEnds(n: string, tail: string, elem: string, attr: string)
    requires NameOk(n) && NameOk(elem) && attr != [] && attr[0] == ' '
    requires tail == [] || IsSpace(tail[0]) || tail[0] == '/'
    requires HasPrefix(n + tail, elem + attr)
    ensures n == elem && HasPrefix(tail, attr)
  {
    var least := if |n| <= |elem| then |n| else |elem|;
    PrefixAt(n + tail, elem + attr, least);
    forall i | 0 <= i < |elem|
      ensures n[i] == elem[i]
    {
      PrefixAt(n + tail, elem + attr, i);
    }
    forall i | 0 <= i < |attr|
      ensures i < |tail| && tail[i] == attr[i]
    {
      PrefixAt(n + tail, elem + attr, |elem| + i);
    }
  }

  lemma NameFits(n: string, tail: string, attr: string)
    requires HasPrefix(tail, attr)
    ensures HasPrefix(n + tail, n + attr)
  {
  }

  lemma SlashAfter(a: string)
    ensures HasPrefix(a + "/", NAME_ATTR) <==> HasPrefix(a, NAME_ATTR)
  {
    assert a == (a + "/")[..|a|];
    assert (a + "/")[|a|] == '/' && '/' !in NAME_ATTR;
  }

  /** A tag's text starts like a declaration of `elem` exactly when it is one. */
  lemma LeadOfTag(c: Chunk, elem: string, rest: string)
    requires ChunkOk(c) && !c.Chars? && NameOk(elem)
    ensures HasPrefix(PrintChunk(c) + rest, Lead(elem)) <==> Declares(c, elem)
  {
    var w := elem + NAME_ATTR;
    assert Lead(elem) == "<" + w;
    InsidePrefix(Inside(c), rest, w);
    match c
    case Open(n, a) =>
      if HasPrefix(n + a, w) { NameEnds(n, a, elem, NAME_ATTR); }
      if HasPrefix(a, NAME_ATTR) { NameFits(n, a, NAME_ATTR); }
    case Empty(n, a) =>
      assert n + a + "/" == n + (a + "/");
      SlashAfter(a);
      if HasPrefix(n + (a + "/"), w) { NameEnds(n, a + "/", elem, NAME_ATTR); }
      if HasPrefix(a, NAME_ATTR) { NameFits(n, a + "/", NAME_ATTR); }
    case Close(n) =>
      assert w[0] == elem[0] && ("/" + n)[0] == '/';
    case Other(i) =>
      assert w[0] == elem[0];
  }

  lemma {:induction false} QuoteIn(v: string, more: string)
    requires '"' in v
    ensures IndexOf(v, "\"") >= 0 && IndexOf(v + more, "\"") == IndexOf(v, "\"")
    decreases |v|
  {
    assert (v + more)[0] == v[0] && (v + more)[1..] == v[1..] + more;
    if v[0] != '"' {
      QuoteIn(v[1..], more);
    }
  }

  /** The part of a declaring tag after its lead. */
  function AfterLead(c: Chunk): string
    requires (c.Open? || c.Empty?) && HasPrefix(c.attrs, NAME_ATTR)
  {
    c.attrs[|NAME_ATTR|..] + (if c.Open? then ">" else "/>")
  }

  lemma DeclarationSplits(c: Chunk, elem: string)
    requires Declares(c, elem)
    ensures PrintChunk(c) == Lead(elem) + AfterLead(c)
  {
    var v := c.attrs[|NAME_ATTR|..];
    var tail := if c.Open? then ">" else "/>";
    assert c.attrs == NAME_ATTR + v;
    assert PrintChunk(c) == "<" + (elem + (NAME_ATTR + v)) + tail;
    assert Lead(elem) + (v + tail) == "<" + (elem + (NAME_ATTR + v)) + tail;
  }

  lemma LeadFits(lead: string, after: string)
    ensures HasPrefix(lead + after, lead) && (lead + after)[|lead|..] == after
  {
  }

  lemma LeadHasOneBracket(elem: string)
    requires NameOk(elem)
    ensures '<' !in Lead(elem)[1..]
  {
    assert Lead(elem)[1..] == elem + NAME_ATTR;
  }

  /** A lead followed at once by a quote yields no name. */
  lemma ReadsNothing(elem: string, v: string, rest: string)
    requires NameOk(elem) && '<' !in v && v != [] && v[0] == '"'
    ensures NamesInText(Lead(elem) + (v + rest), Lead(elem)) == NamesInText(rest, Lead(elem))
  {
    var lead := Lead(elem);
    LeadFits(lead, v + rest);
    assert IndexOf(v + rest, "\"") == 0;
    LeadHasOneBracket(elem);
    Associate(lead, v, rest);
    CutInFirst(lead + v, rest, 1);
    CutInFirst(lead, v, 1);
    NamesSkip(lead[1..] + v, rest, elem);
  }

  /** A lead followed by a quoted value yields the value. */
  lemma ReadsName(elem: string, v: string, rest: string)
    requires '<' !in v && '"' in v && v[0] != '"'
    ensures NamesInText(Lead(elem) + (v + rest), Lead(elem)) == Captured(v) + NamesInText(rest, Lead(elem))
  {
    var lead := Lead(elem);
    LeadFits(lead, v + rest);
    QuoteIn(v, rest);
    var q := IndexOf(v, "\"");
    CutInFirst(v, rest, q);
    CutInFirst(v, rest, q + 1);
    NamesSkip(v[q + 1..], rest, elem);
  }

  lemma CapturedBefore(v: string, tail: string)
    requires '"' in v
    ensures Captured(v + tail) == Captured(v)
  {
    QuoteIn(v, tail);
    CutInFirst(v, tail, IndexOf(v, "\""));
  }

  /** One declaring tag contributes its name and nothing else. */
  lemma DeclarationRead(c: Chunk, elem: string, rest: string)
    requires ChunkOk(c) && Declares(c, elem) && NameOk(elem)
    ensures NamesInText(PrintChunk(c) + rest, Lead(elem)) == NameIn(c, elem) + NamesInText(rest, Lead(elem))
  {
    var v := c.attrs[|NAME_ATTR|..];
    var tail := if c.Open? then ">" else "/>";
    var after := v + tail;
    DeclarationSplits(c, elem);
    Associate(Lead(elem), after, rest);
    CapturedBefore(v, tail);
    if v[0] == '"' {
      ReadsNothing(elem, after, rest);
    } else {
      ReadsName(elem, after, rest);
    }
  }

  /** The merge's pattern extracts from a printed document exactly the names its tags declare, in order. */
  lemma {:induction false} ExtractedNames(doc: Doc, elem: string)
    requires DocOk(doc) && NameOk(elem)
    ensures NamesInText(Print(doc), Lead(elem)) == NamesIn(doc, elem)
    decreases |doc|
  {
    if doc != [] {
      ExtractedNames(doc[1..], elem);
      var c, rest := doc[0], Print(doc[1..]);
      if c.Chars? {
        NamesSkip(c.text, rest, elem);
      } else if Declares(c, elem) {
        DeclarationRead(c, elem, rest);
      } else {
        LeadOfTag(c, elem, rest);
        PrintHead(doc);
        ChunkTail(c);
        NamesSkip(PrintChunk(c)[1..], rest, elem);
      }
    }
  }

  // ---------------------------------------------------------------- the names of the fragments

  function NonEmpty(names: seq<string>): (r: seq<string>)
    ensures forall n :: n in r <==> n in names && n != ""
  {
    if names == [] then [] else (if names[0] == "" then [] else [names[0]]) + NonEmpty(names[1..])
  }

  lemma CapturedFirst(name: string, more: string)
    requires '"' !in name
    ensures Captured(name + "\"" + more) == NonEmpty([name])
  {
    FirstChar(name, '"', more);
    assert (name + "\"" + more)[..|name|] == name;
    assert NonEmpty([name]) == (if name == "" then [] else [name]) + NonEmpty([]);
  }

  lemma NameOfTemplate(elem: string, name: Value)
    ensures NameIn(Open(elem, NameAttrs(name)), elem) == NonEmpty([name])
  {
    NamedAttrsOk(name);
    CapturedFirst(name, NAME_END + name + "\"");
  }

  lemma NamesOfParts(line: Doc, open: Chunk, body: Doc, close: Doc, other: string)
    requires NamesIn(line, other) == [] && NamesIn(body, other) == [] && NamesIn(close, other) == []
    ensures NamesIn(line + [open] + body + close, other) == NameIn(open, other)
  {
    NamesInAppend(line + [open] + body, close, other);
    NamesInAppend(line + [open], body, other);
    NamesInAppend(line, [open], other);
    assert NamesIn([open], other) == NameIn(open, other) + NamesIn([], other);
  }

  lemma NamesOfNamed(indent: nat, elem: string, name: Value, body: Doc, other: string)
    requires Inert(body)
    ensures NamesIn(NamedDoc(indent, elem, name, body), other) == if other == elem then NonEmpty([name]) else []
  {
    var open := Open(elem, NameAttrs(name));
    assert [Chars(Spaces(indent)), open] == [Chars(Spaces(indent))] + [open];
    InertHasNoNames(body, other);
    NamesOfParts([Chars(Spaces(indent))], open, body, [Close(elem)], other);
    NameOfTemplate(elem, name);
  }

  lemma {:induction false} NonEmptyAppend(a: seq<string>, b: seq<string>)
    ensures NonEmpty(a + b) == NonEmpty(a) + NonEmpty(b)
    decreases |a|
  {
    if a == [] {
      assert a + b == b;
    } else {
      assert (a + b)[0] == a[0] && (a + b)[1..] == a[1..] + b;
      NonEmptyAppend(a[1..], b);
    }
  }

  lemma NonEmptyFirst(names: seq<string>)
    requires names != []
    ensures NonEmpty(names) == NonEmpty([names[0]]) + NonEmpty(names[1..])
  {
    assert names == [names[0]] + names[1..];
    NonEmptyAppend([names[0]], names[1..]);
  }

  lemma NamesAround(first: Doc, gap: Doc, rest: Doc, elem: string)
    requires NamesIn(gap, elem) == []
    ensures NamesIn(first + gap + rest, elem) == NamesIn(first, elem) + NamesIn(rest, elem)
  {
    NamesInAppend(first + gap, rest, elem);
    NamesInAppend(first, gap, elem);
  }

  /** A joined list of templates declares the non-empty names, in order, and no other element's name. */
  lemma {:induction false} NamesOfJoined(docs: seq<Doc>, names: seq<string>, elem: string, other: string)
    requires |docs| == |names|
    requires forall i :: 0 <= i < |docs| ==>
               NamesIn(docs[i], other) == if other == elem then NonEmpty([names[i]]) else []
    ensures NamesIn(Joined(docs), other) == if other == elem then NonEmpty(names) else []
    decreases |docs|
  {
    if |docs| == 1 {
      assert names == [names[0]];
    } else if docs != [] {
      NamesOfJoined(docs[1..], names[1..], elem, other);
      InertHasNoNames(Run("\n"), other);
      NamesAround(docs[0], Run("\n"), Joined(docs[1..]), other);
      NonEmptyFirst(names);
    }
  }

  function Ids(plans: seq<Plan>): seq<Value> {
    seq(|plans|, i requires 0 <= i < |plans| => plans[i].id)
  }

  lemma NamesOfPlans(plans: seq<Plan>, m: nat, other: string)
    ensures NamesIn(Joined(PlanDocs(plans, m)), other) == if other == "plan" then NonEmpty(Ids(plans)) else []
  {
    forall i | 0 <= i < |plans|
      ensures NamesIn(PlanDocs(plans, m)[i], other) == if other == "plan" then NonEmpty([Ids(plans)[i]]) else []
    {
      NamesOfNamed(16, "plan", plans[i].id, PlanBody(plans[i], m), other);
    }
    NamesOfJoined(PlanDocs(plans, m), Ids(plans), "plan", other);
  }

  lemma NamesOfProducts(names: seq<Value>, m: nat, other: string)
    ensures NamesIn(Joined(ProductDocs(names, m)), other) == if other == "product" then NonEmpty(names) else []
  {
    forall i | 0 <= i < |names|
      ensures NamesIn(ProductDocs(names, m)[i], other) == if other == "product" then NonEmpty([names[i]]) else []
    {
      NamesOfNamed(m, "product", names[i], ProductBody(m), other);
    }
    NamesOfJoined(ProductDocs(names, m), names, "product", other);
  }
}
