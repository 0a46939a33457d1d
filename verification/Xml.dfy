/**
 XML texts as sequences of chunks: tags with their attribute text kept as it is,
 declarations, and character data. Printing a document gives its text; nesting is
 the stack discipline of start and end tags (section 2.1 of XML 1.0).
 */
module Xml {
  import opened Wrappers
  import opened Text

  datatype Chunk =
    | Open(name: string, attrs: string)
    | Close(name: string)
    | Empty(name: string, attrs: string)
    | Other(inside: string)
    | Chars(text: string)

  type Doc = seq<Chunk>

  /** What stands between the angle brackets. */
  function Inside(c: Chunk): string
    requires !c.Chars?
  {
    match c
    case Open(n, a) => n + a
    case Close(n) => "/" + n
    case Empty(n, a) => n + a + "/"
    case Other(i) => i
  }

  function Tag(inside: string): string {
    "<" + inside + ">"
  }

  function PrintChunk(c: Chunk): string {
    if c.Chars? then c.text else Tag(Inside(c))
  }

  function Print(doc: Doc): string {
    if doc == [] then "" else PrintChunk(doc[0]) + Print(doc[1..])
  }

  // ---------------------------------------------------------------- well-formed chunks

  /** White space of JavaScript's `\s`. */
  predicate IsSpace(c: char) {
    c == ' ' || '\t' <= c <= '\r' || c == '\U{00A0}' || c == '\U{1680}' || '\U{2000}' <= c <= '\U{200A}' ||
    c == '\U{2028}' || c == '\U{2029}' || c == '\U{202F}' || c == '\U{205F}' || c == '\U{3000}' || c == '\U{FEFF}'
  }

  /** Any character but white space and the ones that end or mark a tag. */
  predicate IsNameChar(c: char) {
    !IsSpace(c) && c != '<' && c != '>' && c != '/' && c != '"' && c != '=' && c != '?' && c != '!'
  }

  predicate NameOk(n: string) {
    n != [] && forall i :: 0 <= i < |n| ==> IsNameChar(n[i])
  }

  predicate NoMarkup(s: string) {
    forall i :: 0 <= i < |s| ==> s[i] != '<' && s[i] != '>'
  }

  const NAME_ATTR := " name=\""

  predicate AttrsOk(a: string) {
    a == [] ||
    (IsSpace(a[0]) && NoMarkup(a) && (HasPrefix(a, NAME_ATTR) ==> '"' in a[|NAME_ATTR|..]))
  }

  predicate ChunkOk(c: Chunk) {
    match c
    case Open(n, a) => NameOk(n) && AttrsOk(a) && (a == [] || a[|a| - 1] != '/')
    case Close(n) => NameOk(n)
    case Empty(n, a) => NameOk(n) && AttrsOk(a)
    case Other(i) => i != [] && (i[0] == '?' || i[0] == '!') && NoMarkup(i)
    case Chars(t) => '<' !in t
  }

  predicate DocOk(doc: Doc) {
    forall i :: 0 <= i < |doc| ==> ChunkOk(doc[i])
  }

  // ---------------------------------------------------------------- printing

  lemma {:induction false} PrintAppend(a: Doc, b: Doc)
    ensures Print(a + b) == Print(a) + Print(b)
    decreases |a|
  {
    if a == [] {
      assert a + b == b;
    } else {
      assert (a + b)[0] == a[0] && (a + b)[1..] == a[1..] + b;
      PrintAppend(a[1..], b);
      Associate(PrintChunk(a[0]), Print(a[1..]), Print(b));
    }
  }

  lemma PrintSplit(doc: Doc, k: nat)
    requires k <= |doc|
    ensures Print(doc) == Print(doc[..k]) + Print(doc[k..])
    ensures |Print(doc[..k])| <= |Print(doc)|
    ensures Print(doc)[..|Print(doc[..k])|] == Print(doc[..k]) && Print(doc)[|Print(doc[..k])|..] == Print(doc[k..])
  {
    assert doc == doc[..k] + doc[k..];
    PrintAppend(doc[..k], doc[k..]);
    TakeDropAppend(Print(doc[..k]), Print(doc[k..]));
  }

  lemma InsideHasNoMarkup(c: Chunk)
    requires ChunkOk(c) && !c.Chars?
    ensures NoMarkup(Inside(c))
  {
  }

  /** A start tag without attributes is recognised by its name alone, an end tag by its name after the slash. */
  lemma InsideIsOpen(c: Chunk, name: string)
    requires ChunkOk(c) && !c.Chars? && NameOk(name)
    ensures Inside(c) == name <==> c == Open(name, "")
  {
    match c
    case Open(n, a) =>
      assert a != [] ==> (n + a)[|n|] == a[0];
      assert n + [] == n;
    case Close(n) =>
      assert ("/" + n)[0] == '/';
    case Empty(n, a) =>
      assert (n + a + "/")[|n + a|] == '/';
    case Other(i) =>
  }

  lemma InsideIsClose(c: Chunk, name: string)
    requires ChunkOk(c) && !c.Chars? && NameOk(name)
    ensures Inside(c) == "/" + name <==> c == Close(name)
  {
    match c
    case Open(n, a) =>
      assert (n + a)[0] == n[0];
    case Close(n) =>
      assert ("/" + n)[1..] == n && ("/" + name)[1..] == name;
    case Empty(n, a) =>
      assert (n + a + "/")[0] == n[0];
    case Other(i) =>
  }

  // ---------------------------------------------------------------- nesting

  /** Reads a document with the open elements on a stack; None when an end tag does not fit. */
  function Nest(doc: Doc, stack: seq<string>): Option<seq<string>> {
    if doc == [] then Some(stack)
    else
      match doc[0]
      case Open(n, _) => Nest(doc[1..], stack + [n])
      case Close(n) =>
        if stack != [] && stack[|stack| - 1] == n then Nest(doc[1..], stack[..|stack| - 1]) else None
      case _ => Nest(doc[1..], stack)
  }

  predicate WellNested(doc: Doc) {
    Nest(doc, []) == Some([])
  }

  /** Well nested wherever it is put. */
  ghost predicate Neutral(doc: Doc) {
    forall stack :: Nest(doc, stack) == Some(stack)
  }

  lemma {:induction false} NestAppend(a: Doc, b: Doc, stack: seq<string>)
    ensures Nest(a + b, stack) == if Nest(a, stack).None? then None else Nest(b, Nest(a, stack).value)
    decreases |a|
  {
    if a == [] {
      assert a + b == b;
    } else {
      assert (a + b)[0] == a[0] && (a + b)[1..] == a[1..] + b;
      match a[0]
      case Open(n, _) => NestAppend(a[1..], b, stack + [n]);
      case Close(n) =>
        if stack != [] && stack[|stack| - 1] == n {
          NestAppend(a[1..], b, stack[..|stack| - 1]);
        }
      case _ => NestAppend(a[1..], b, stack);
    }
  }

  lemma NeutralAppend(a: Doc, b: Doc)
    requires Neutral(a) && Neutral(b)
    ensures Neutral(a + b)
  {
    forall stack
      ensures Nest(a + b, stack) == Some(stack)
    {
      NestAppend(a, b, stack);
    }
  }

  /** Putting a neutral fragment anywhere keeps a document's nesting. */
  lemma InsertKeepsNesting(a: Doc, fragment: Doc, b: Doc, stack: seq<string>)
    requires Neutral(fragment)
    ensures Nest(a + fragment + b, stack) == Nest(a + b, stack)
  {
    NestAppend(a, b, stack);
    NestAppend(a + fragment, b, stack);
    NestAppend(a, fragment, stack);
  }
}
