/**
 Searching a text by index and searching the document it prints: when every
 match of a search starts with an angle bracket, the first and last positions in
 the text are the starts of the first and last matching chunks.
 */
module XmlSearch {
  import opened Text
  import opened Xml

  type TextTest = string -> bool
  type DocTest = Doc -> bool

  /** The first position whose rest of the text passes the test, or -1. */
  function FindFirst(s: string, p: TextTest): (i: int)
    ensures -1 <= i <= |s|
  {
    if p(s) then 0
    else if s == [] then -1
    else
      var r := FindFirst(s[1..], p);
      if r < 0 then -1 else r + 1
  }

  function FindLast(s: string, p: TextTest): (i: int)
    ensures -1 <= i <= |s|
  {
    if s == [] then (if p(s) then 0 else -1)
    else
      var r := FindLast(s[1..], p);
      if r >= 0 then r + 1 else if p(s) then 0 else -1
  }

  function DocFirst(doc: Doc, q: DocTest): (k: int)
    ensures -1 <= k <= |doc|
  {
    if q(doc) then 0
    else if doc == [] then -1
    else
      var r := DocFirst(doc[1..], q);
      if r < 0 then -1 else r + 1
  }

  function DocLast(doc: Doc, q: DocTest): (k: int)
    ensures -1 <= k <= |doc|
  {
    if doc == [] then (if q(doc) then 0 else -1)
    else
      var r := DocLast(doc[1..], q);
      if r >= 0 then r + 1 else if q(doc) then 0 else -1
  }

  function StartsWith(needle: string): TextTest {
    (t: string) => HasPrefix(t, needle)
  }

  /** `s.indexOf(needle)` and `s.lastIndexOf(needle)`. */
  function IndexOf(s: string, needle: string): (i: int)
    ensures i == -1 || 0 <= i <= |s| - |needle|
  {
    FindFirstIsFirst(s, StartsWith(needle));
    FindFirst(s, StartsWith(needle))
  }

  function LastIndexOf(s: string, needle: string): int {
    FindLast(s, StartsWith(needle))
  }

  function At(c: Chunk): DocTest {
    (d: Doc) => d != [] && d[0] == c
  }

  // ---------------------------------------------------------------- what the searches find

  lemma {:induction false} FindFirstIsFirst(s: string, p: TextTest)
    ensures var i := FindFirst(s, p);
            && (i >= 0 ==> p(s[i..]))
            && (forall j :: 0 <= j <= |s| && p(s[j..]) ==> 0 <= i <= j)
    decreases |s|
  {
    assert s[0..] == s;
    if !p(s) && s != [] {
      FindFirstIsFirst(s[1..], p);
      assert forall j :: 1 <= j <= |s| ==> s[j..] == s[1..][j - 1..];
    }
  }

  lemma FoundHolds(s: string, p: TextTest)
    requires FindFirst(s, p) >= 0
    ensures p(s[FindFirst(s, p)..])
  {
    FindFirstIsFirst(s, p);
  }

  lemma FirstIsLeast(s: string, p: TextTest, j: nat)
    requires j <= |s| && p(s[j..])
    ensures 0 <= FindFirst(s, p) <= j
  {
    FindFirstIsFirst(s, p);
  }

  lemma {:induction false} DocFirstIsFirst(doc: Doc, q: DocTest)
    ensures var k := DocFirst(doc, q);
            && (k >= 0 ==> q(doc[k..]))
            && (forall j :: 0 <= j <= |doc| && q(doc[j..]) ==> 0 <= k <= j)
    decreases |doc|
  {
    assert doc[0..] == doc;
    if !q(doc) && doc != [] {
      DocFirstIsFirst(doc[1..], q);
      assert forall j :: 1 <= j <= |doc| ==> doc[j..] == doc[1..][j - 1..];
    }
  }

  lemma {:induction false} DocLastIsLast(doc: Doc, q: DocTest)
    ensures var k := DocLast(doc, q);
            && (k >= 0 ==> q(doc[k..]))
            && (forall j :: 0 <= j <= |doc| && q(doc[j..]) ==> j <= k)
    decreases |doc|
  {
    assert doc[0..] == doc;
    if doc != [] {
      DocLastIsLast(doc[1..], q);
      assert forall j :: 1 <= j <= |doc| ==> doc[j..] == doc[1..][j - 1..];
    }
  }

  lemma {:induction false} FirstChar(a: string, c: char, b: string)
    requires c !in a
    ensures IndexOf(a + [c] + b, [c]) == |a|
    decreases |a|
  {
    var s := a + [c] + b;
    if a == [] {
      assert s[0] == c;
    } else {
      assert s[0] == a[0] && s[1..] == a[1..] + [c] + b;
      FirstChar(a[1..], c, b);
    }
  }

  // ---------------------------------------------------------------- from text to document

  /** `p` on printed texts is `q` on documents, and only angle brackets pass it. */
  ghost predicate Bridges(p: TextTest, q: DocTest) {
    && (forall t :: p(t) ==> t != [] && t[0] == '<')
    && (forall d: Doc :: q(d) ==> d != [] && !d[0].Chars?)
    && (forall d: Doc :: DocOk(d) && d != [] && !d[0].Chars? ==> (p(Print(d)) <==> q(d)))
  }

  lemma {:induction false} FindFirstSkips(a: string, b: string, p: TextTest)
    requires '<' !in a && forall t :: p(t) ==> t != [] && t[0] == '<'
    ensures FindFirst(a + b, p) == if FindFirst(b, p) < 0 then -1 else |a| + FindFirst(b, p)
    decreases |a|
  {
    if a == [] {
      assert a + b == b;
    } else {
      assert (a + b)[0] == a[0] && (a + b)[1..] == a[1..] + b;
      FindFirstSkips(a[1..], b, p);
    }
  }

  lemma {:induction false} FindLastSkips(a: string, b: string, p: TextTest)
    requires '<' !in a && forall t :: p(t) ==> t != [] && t[0] == '<'
    ensures FindLast(a + b, p) == if FindLast(b, p) < 0 then -1 else |a| + FindLast(b, p)
    decreases |a|
  {
    if a == [] {
      assert a + b == b;
    } else {
      assert (a + b)[0] == a[0] && (a + b)[1..] == a[1..] + b;
      FindLastSkips(a[1..], b, p);
    }
  }

  /** A chunk's text after its first character holds no further angle bracket. */
  lemma ChunkTail(c: Chunk)
    requires ChunkOk(c) && !c.Chars?
    ensures PrintChunk(c) != [] && PrintChunk(c)[0] == '<' && '<' !in PrintChunk(c)[1..]
  {
    InsideHasNoMarkup(c);
    assert PrintChunk(c)[1..] == Inside(c) + ">";
  }

  lemma PrintHead(doc: Doc)
    requires doc != [] && DocOk(doc) && !doc[0].Chars?
    ensures Print(doc) != [] && Print(doc)[0] == '<'
    ensures Print(doc)[1..] == PrintChunk(doc[0])[1..] + Print(doc[1..])
  {
    ChunkTail(doc[0]);
    var c, rest := PrintChunk(doc[0]), Print(doc[1..]);
    assert (c + rest)[1..] == c[1..] + rest;
  }

  lemma PrintTake(doc: Doc, k: nat)
    requires doc != [] && 0 < k <= |doc|
    ensures Print(doc[..k]) == PrintChunk(doc[0]) + Print(doc[1..][..k - 1])
  {
    assert doc[..k][0] == doc[0] && doc[..k][1..] == doc[1..][..k - 1];
  }

  /** The text position of chunk `k`; -1 for none. */
  function Offset(doc: Doc, k: int): int
    requires -1 <= k <= |doc|
  {
    if k < 0 then -1 else |Print(doc[..k])|
  }

  lemma {:induction false} FindFirstInDoc(doc: Doc, p: TextTest, q: DocTest)
    requires DocOk(doc) && Bridges(p, q)
    ensures FindFirst(Print(doc), p) == Offset(doc, DocFirst(doc, q))
    decreases |doc|
  {
    if doc == [] {
      assert doc[..0] == [];
    } else {
      FindFirstInDoc(doc[1..], p, q);
      var k := DocFirst(doc[1..], q);
      if k >= 0 {
        PrintTake(doc, k + 1);
      }
      if doc[0].Chars? {
        FindFirstSkips(doc[0].text, Print(doc[1..]), p);
      } else {
        PrintHead(doc);
        ChunkTail(doc[0]);
        FindFirstSkips(PrintChunk(doc[0])[1..], Print(doc[1..]), p);
        assert doc[..0] == [];
      }
    }
  }

  lemma {:induction false} FindLastInDoc(doc: Doc, p: TextTest, q: DocTest)
    requires DocOk(doc) && Bridges(p, q)
    ensures FindLast(Print(doc), p) == Offset(doc, DocLast(doc, q))
    decreases |doc|
  {
    if doc == [] {
      assert doc[..0] == [];
    } else {
      FindLastInDoc(doc[1..], p, q);
      var k := DocLast(doc[1..], q);
      if k >= 0 {
        PrintTake(doc, k + 1);
      }
      if doc[0].Chars? {
        FindLastSkips(doc[0].text, Print(doc[1..]), p);
      } else {
        PrintHead(doc);
        ChunkTail(doc[0]);
        FindLastSkips(PrintChunk(doc[0])[1..], Print(doc[1..]), p);
        assert doc[..0] == [];
      }
    }
  }

  // ---------------------------------------------------------------- tags

  function EndTag(name: string): string {
    Tag("/" + name)
  }

  lemma PrefixAt(s: string, p: string, i: nat)
    requires HasPrefix(s, p) && i < |p|
    ensures i < |s| && s[i] == p[i]
  {
  }

  /** The text of a tag up to and with its closing bracket. */
  lemma TagChar(inside: string, rest: string, i: nat)
    requires i <= |inside|
    ensures i + 1 < |Tag(inside) + rest|
    ensures (Tag(inside) + rest)[i + 1] == if i < |inside| then inside[i] else '>'
  {
  }

  lemma TagFront(inside: string, rest: string, content: string)
    requires NoMarkup(inside) && NoMarkup(content) && HasPrefix(Tag(inside) + rest, Tag(content))
    ensures |inside| == |content|
  {
    var least := if |inside| <= |content| then |inside| else |content|;
    TagChar(inside, rest, least);
    TagChar(content, "", least);
    assert Tag(content) + "" == Tag(content);
    PrefixAt(Tag(inside) + rest, Tag(content), least + 1);
  }

  /** A complete tag is the front of a printed document only as that very tag. */
  lemma TagPrefix(inside: string, rest: string, content: string)
    requires NoMarkup(inside) && NoMarkup(content)
    ensures HasPrefix(Tag(inside) + rest, Tag(content)) <==> inside == content
  {
    if HasPrefix(Tag(inside) + rest, Tag(content)) {
      TagFront(inside, rest, content);
      assert Tag(content) + "" == Tag(content);
      forall i | 0 <= i < |content|
        ensures inside[i] == content[i]
      {
        TagChar(inside, rest, i);
        TagChar(content, "", i);
        PrefixAt(Tag(inside) + rest, Tag(content), i + 1);
      }
    }
  }

  /** A search text that stops inside the tag looks only at the inside of the tag. */
  lemma InsidePrefix(inside: string, rest: string, w: string)
    requires '>' !in w
    ensures HasPrefix(Tag(inside) + rest, "<" + w) <==> HasPrefix(inside, w)
  {
    var s, needle := Tag(inside) + rest, "<" + w;
    forall i | 0 <= i < |w|
      ensures needle[i + 1] == w[i]
    {
    }
    if HasPrefix(inside, w) {
      forall i | 0 <= i < |needle|
        ensures s[i] == needle[i]
      {
        if i > 0 {
          TagChar(inside, rest, i - 1);
        }
      }
    }
    if HasPrefix(s, needle) {
      var least := if |inside| < |w| then |inside| else |w| - 1;
      if w != [] {
        TagChar(inside, rest, least);
        PrefixAt(s, needle, least + 1);
      }
      forall i | 0 <= i < |w|
        ensures i < |inside| && inside[i] == w[i]
      {
        TagChar(inside, rest, if i < |inside| then i else |inside|);
        PrefixAt(s, needle, i + 1);
      }
    }
  }

  lemma OpenBridges(name: string)
    requires NameOk(name)
    ensures Bridges(StartsWith(Tag(name)), At(Open(name, "")))
  {
    forall d: Doc | DocOk(d) && d != [] && !d[0].Chars?
      ensures HasPrefix(Print(d), Tag(name)) <==> d[0] == Open(name, "")
    {
      TagAtFront(d, name);
    }
    assert forall t :: HasPrefix(t, Tag(name)) ==> t[0] == Tag(name)[0];
  }

  lemma CloseBridges(name: string)
    requires NameOk(name)
    ensures Bridges(StartsWith(EndTag(name)), At(Close(name)))
  {
    forall d: Doc | DocOk(d) && d != [] && !d[0].Chars?
      ensures HasPrefix(Print(d), EndTag(name)) <==> d[0] == Close(name)
    {
      InsideHasNoMarkup(d[0]);
      TagPrefix(Inside(d[0]), Print(d[1..]), "/" + name);
      InsideIsClose(d[0], name);
    }
    assert forall t :: HasPrefix(t, EndTag(name)) ==> t[0] == EndTag(name)[0];
  }

  lemma TagAtFront(doc: Doc, name: string)
    requires DocOk(doc) && doc != [] && !doc[0].Chars? && NameOk(name)
    ensures HasPrefix(Print(doc), Tag(name)) <==> doc[0] == Open(name, "")
  {
    InsideHasNoMarkup(doc[0]);
    TagPrefix(Inside(doc[0]), Print(doc[1..]), name);
    InsideIsOpen(doc[0], name);
  }

  /** `indexOf` of a start or end tag lands on the first such tag of the document. */
  lemma IndexOfTag(doc: Doc, name: string)
    requires DocOk(doc) && NameOk(name)
    ensures IndexOf(Print(doc), Tag(name)) == Offset(doc, DocFirst(doc, At(Open(name, ""))))
    ensures IndexOf(Print(doc), EndTag(name)) == Offset(doc, DocFirst(doc, At(Close(name))))
  {
    OpenBridges(name);
    CloseBridges(name);
    FindFirstInDoc(doc, StartsWith(Tag(name)), At(Open(name, "")));
    FindFirstInDoc(doc, StartsWith(EndTag(name)), At(Close(name)));
  }

  /** `lastIndexOf` lands on the last one. */
  lemma LastIndexOfTag(doc: Doc, name: string)
    requires DocOk(doc) && NameOk(name)
    ensures LastIndexOf(Print(doc), Tag(name)) == Offset(doc, DocLast(doc, At(Open(name, ""))))
    ensures LastIndexOf(Print(doc), EndTag(name)) == Offset(doc, DocLast(doc, At(Close(name))))
  {
    OpenBridges(name);
    CloseBridges(name);
    FindLastInDoc(doc, StartsWith(Tag(name)), At(Open(name, "")));
    FindLastInDoc(doc, StartsWith(EndTag(name)), At(Close(name)));
  }
}
