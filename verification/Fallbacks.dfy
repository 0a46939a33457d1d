/**
 What a binding expression yields: the texts of paths, alone or joined by " or ",
 against a reader that follows the segments without looking at any text.
 */
module Fallbacks {
  import opened Wrappers
  import opened Json
  import opened Conditions
  import opened Decimals
  import opened Rewrite
  import opened RewriteLaws
  import opened Expression
  import opened ConditionText

  /** `name`, or `name[index]`. */
  datatype Segment = Field(name: string) | Item(name: string, index: int)

  /** Neither white space nor a dot. */
  predicate PathChar(c: char) {
    !IsSpace(c) && c != '.'
  }

  predicate PathChars(s: string) {
    forall i :: 0 <= i < |s| ==> PathChar(s[i])
  }

  /** A name without white space, dots and brackets; only before an index it may be empty. */
  predicate SegmentOk(g: Segment) {
    PathChars(g.name) && '[' !in g.name && ']' !in g.name && (g.Field? ==> g.name != "")
  }

  /** The segments of a path, at least one. */
  predicate PathOk(path: seq<Segment>) {
    path != [] && forall i :: 0 <= i < |path| ==> SegmentOk(path[i])
  }

  function IndexText(index: int): string {
    if index < 0 then "-" + Decimal(-index) else Decimal(index)
  }

  function SegmentText(g: Segment): string {
    match g
    case Field(name) => name
    case Item(name, index) => name + "[" + IndexText(index) + "]"
  }

  /** The segments joined by dots. */
  function PathText(path: seq<Segment>): string
    requires path != []
  {
    if |path| == 1 then SegmentText(path[0]) else SegmentText(path[0]) + "." + PathText(path[1..])
  }

  /** The paths joined by `or`. */
  function Alternatives(paths: seq<seq<Segment>>): string
    requires paths != [] && forall i :: 0 <= i < |paths| ==> PathOk(paths[i])
  {
    assert PathOk(paths[0]);
    if |paths| == 1 then PathText(paths[0]) else PathText(paths[0]) + " or " + Alternatives(paths[1..])
  }

  // ---------------------------------------------------------------- the reader

  /** An item of a list or a character of a text, counted from the end when the index is negative. */
  function ItemOf(v: Value, index: int): Result<Value, PyError> {
    if v.List? then
      Ok(if 0 <= index < |v.items| then v.items[index]
         else if -|v.items| <= index < 0 then v.items[|v.items| + index] else Null)
    else if v.Str? then
      Ok(if 0 <= index < |v.s| then Str([v.s[index]])
         else if -|v.s| <= index < 0 then Str([v.s[|v.s| + index]]) else Null)
    else if v.Dict? then Err(KeyError) else Ok(Null)
  }

  /** The value at the end of the path; None as soon as there is nothing to go on from. */
  function Reach(v: Value, path: seq<Segment>): Result<Value, PyError>
    decreases |path|
  {
    if path == [] then Ok(v)
    else if v == Null then Ok(Null)
    else
      match path[0]
      case Field(name) => if v.Dict? && name in v.fields then Reach(v.fields[name], path[1..]) else Ok(Null)
      case Item(name, index) =>
        if !v.Dict? then Err(AttributeError)
        else if name !in v.fields then Ok(Null)
        else
          var item := ItemOf(v.fields[name], index);
          if item.Err? then item else Reach(item.value, path[1..])
  }

  // ---------------------------------------------------------------- characters of a segment

  lemma IndexChars(index: int)
    ensures PathChars(IndexText(index)) && '[' !in IndexText(index) && IndexText(index) != []
  {
  }

  lemma SegmentChars(g: Segment)
    requires SegmentOk(g)
    ensures SegmentText(g) != [] && PathChars(SegmentText(g))
  {
    if g.Item? {
      IndexChars(g.index);
    }
  }

  lemma StripRead(text: string)
    requires text == [] || (!IsSpace(text[0]) && !IsSpace(text[|text| - 1]))
    ensures Strip(text) == text
  {
  }

  lemma StripPathChars(text: string)
    requires PathChars(text)
    ensures Strip(text) == text
  {
    StripRead(text);
  }

  predicate IsSign(sign: string) {
    sign == "" || sign == "+" || sign == "-"
  }

  lemma UnsignedReads(text: string, digits: string)
    requires Strip(text) == digits && digits != "" && AllDigits(digits)
    ensures PyInt(text) == Some(DigitsValue(digits))
  {
    assert '0' <= digits[0] <= '9';
  }

  lemma SignedReads(text: string, sign: char, digits: string)
    requires Strip(text) == [sign] + digits && (sign == '+' || sign == '-') && digits != "" && AllDigits(digits)
    ensures PyInt(text) == Some(if sign == '-' then 0 - DigitsValue(digits) else DigitsValue(digits))
  {
    assert ([sign] + digits)[1..] == digits;
  }

  /** `int` reads an optional sign and digits, with white space around them. */
  lemma NumberReads(lead: string, sign: string, digits: string, tail: string)
    requires AllSpace(lead) && AllSpace(tail) && IsSign(sign) && digits != "" && AllDigits(digits)
    ensures PyInt(lead + (sign + digits) + tail) ==
            Some(if sign == "-" then 0 - DigitsValue(digits) else DigitsValue(digits))
  {
    var t := sign + digits;
    assert t[|t| - 1] == digits[|digits| - 1];
    assert t[0] == if sign == "" then digits[0] else sign[0];
    StripBetween(lead, t, tail);
    if sign == "" {
      assert t == digits;
      UnsignedReads(lead + t + tail, digits);
    } else {
      assert sign == [sign[0]];
      SignedReads(lead + t + tail, sign[0], digits);
    }
  }

  lemma DigitsOf(text: string)
    requires PyInt(text).Some?
    ensures var t := Strip(text);
            t != "" && if t[0] == '-' || t[0] == '+' then t[1..] != "" && AllDigits(t[1..]) else AllDigits(t)
  {
  }

  /** And nothing else. */
  lemma OnlyNumbersRead(text: string) returns (lead: string, sign: string, digits: string, tail: string)
    requires PyInt(text).Some?
    ensures text == lead + (sign + digits) + tail
    ensures AllSpace(lead) && AllSpace(tail) && IsSign(sign) && digits != "" && AllDigits(digits)
  {
    lead, tail := StripSplits(text);
    DigitsOf(text);
    var t := Strip(text);
    if t[0] == '-' || t[0] == '+' {
      sign, digits := [t[0]], t[1..];
    } else {
      sign, digits := "", t;
    }
    assert sign + digits == t;
  }

  lemma {:induction false} StripLeftOfSpaced(lead: string, t: string)
    requires AllSpace(lead) && t != "" && !IsSpace(t[0])
    ensures StripLeft(lead + t) == t
    decreases |lead|
  {
    if lead == "" {
      assert lead + t == t;
    } else {
      assert (lead + t)[0] == lead[0] && (lead + t)[1..] == lead[1..] + t;
      StripLeftOfSpaced(lead[1..], t);
    }
  }

  lemma {:induction false} StripRightOfSpaced(t: string, tail: string)
    requires AllSpace(tail) && t != "" && !IsSpace(t[|t| - 1])
    ensures StripRight(t + tail) == t
    decreases |tail|
  {
    var all := t + tail;
    if tail == "" {
      assert all == t;
    } else {
      assert all[|all| - 1] == tail[|tail| - 1] && all[..|all| - 1] == t + tail[..|tail| - 1];
      StripRightOfSpaced(t, tail[..|tail| - 1]);
    }
  }

  lemma StripBetween(lead: string, t: string, tail: string)
    requires AllSpace(lead) && AllSpace(tail) && t != "" && !IsSpace(t[0]) && !IsSpace(t[|t| - 1])
    ensures Strip(lead + t + tail) == t
  {
    assert lead + t + tail == lead + (t + tail);
    StripLeftOfSpaced(lead, t + tail);
    StripRightOfSpaced(t, tail);
  }

  lemma BothSignsRead(digits: string)
    requires digits != "" && AllDigits(digits)
    ensures PyInt(digits) == Some(DigitsValue(digits)) && PyInt("-" + digits) == Some(0 - DigitsValue(digits))
  {
    StripPathChars(digits);
    StripPathChars("-" + digits);
    UnsignedReads(digits, digits);
    SignedReads("-" + digits, '-', digits);
  }

  lemma IndexReadsBack(index: int)
    ensures PyInt(IndexText(index)) == Some(index)
  {
    var n := if index < 0 then -index else index;
    DecimalReadsBack(n);
    BothSignsRead(Decimal(n));
  }

  lemma PositionBehind(name: string, rest: string)
    requires '[' !in name
    ensures Position(name + "[" + rest, '[') == |name|
  {
    var s := name + "[" + rest;
    assert s[|name|] == '[';
    assert forall i :: 0 <= i < |name| ==> s[i] == name[i];
  }

  // ---------------------------------------------------------------- one segment

  /** What one turn of the lookup loop makes of a bracketed segment. */
  lemma LookupIndexed(cur: Value, name: string, text: string)
    requires '[' !in name
    ensures var idx := PyInt(text);
            Lookup(cur, name + "[" + text + "]") ==
            if idx.None? then Err(ValueError)
            else if !cur.Dict? then Err(AttributeError)
            else IndexInto(if name in cur.fields then cur.fields[name] else List([]), idx.value)
  {
    var segment := name + "[" + text + "]";
    assert segment == name + "[" + (text + "]");
    assert segment[|name|] == '[' && segment[|segment| - 1] == ']';
    PositionBehind(name, text + "]");
    assert segment[..|name|] == name && segment[|name| + 1..] == text + "]";
    assert (text + "]")[..|text + "]"| - 1] == text;
  }

  lemma LookupField(cur: Value, name: string)
    requires '[' !in name
    ensures Lookup(cur, name) == Ok(if cur.Dict? && name in cur.fields then Some(cur.fields[name]) else None)
  {
    assert !IsIndexed(name);
  }

  lemma IndexIntoIsItem(v: Value, index: int)
    ensures IndexInto(v, index).Err? ==> IndexInto(v, index) == Err(KeyError) && ItemOf(v, index) == Err(KeyError)
    ensures IndexInto(v, index).Ok? ==>
              ItemOf(v, index) ==
              Ok(if IndexInto(v, index).value.Some? then IndexInto(v, index).value.value else Null)
  {
  }

  // ---------------------------------------------------------------- one path

  function Texts(path: seq<Segment>): seq<string> {
    seq(|path|, i requires 0 <= i < |path| => SegmentText(path[i]))
  }

  lemma {:induction false} WalkReaches(v: Value, path: seq<Segment>)
    requires (forall i :: 0 <= i < |path| ==> SegmentOk(path[i])) && v != Null
    ensures Walk(v, Texts(path)) == Reach(v, path)
    decreases |path|, 0
  {
    if path != [] {
      var rest := path[1..];
      assert path == [path[0]] + rest && Texts(path)[1..] == Texts(rest);
      match path[0]
      case Field(name) =>
        LookupField(v, name);
        FieldReaches(v, name, rest);
      case Item(name, index) =>
        LookupIndexed(v, name, IndexText(index));
        IndexReadsBack(index);
        if v.Dict? {
          ItemReaches(v, name, index, rest);
        }
    }
  }

  lemma {:induction false} FieldReaches(v: Value, name: string, rest: seq<Segment>)
    requires v != Null && forall i :: 0 <= i < |rest| ==> SegmentOk(rest[i])
    ensures Reach(v, [Field(name)] + rest) ==
            if v.Dict? && name in v.fields && v.fields[name] != Null then Walk(v.fields[name], Texts(rest))
            else Ok(Null)
    decreases |rest|, 1
  {
    var path := [Field(name)] + rest;
    assert path[0] == Field(name) && path[1..] == rest;
    NullReaches(rest);
    if v.Dict? && name in v.fields && v.fields[name] != Null {
      WalkReaches(v.fields[name], rest);
    }
  }

  lemma NullReaches(path: seq<Segment>)
    ensures Reach(Null, path) == Ok(Null)
  {
  }

  lemma {:induction false} ItemReaches(v: Value, name: string, index: int, rest: seq<Segment>)
    requires v.Dict? && forall i :: 0 <= i < |rest| ==> SegmentOk(rest[i])
    ensures var found := IndexInto(if name in v.fields then v.fields[name] else List([]), index);
            Reach(v, [Item(name, index)] + rest) ==
            if found.Err? then Err(KeyError)
            else if found.value.None? || found.value.value == Null then Ok(Null)
            else Walk(found.value.value, Texts(rest))
    decreases |rest|, 1
  {
    var path := [Item(name, index)] + rest;
    assert path[0] == Item(name, index) && path[1..] == rest;
    var base := if name in v.fields then v.fields[name] else List([]);
    IndexIntoIsItem(base, index);
    NullReaches(rest);
    var found := IndexInto(base, index);
    if found.Ok? && found.value.Some? && found.value.value != Null {
      WalkReaches(found.value.value, rest);
    }
  }

  // ---------------------------------------------------------------- the text of a path

  lemma {:induction false} PathTextChars(path: seq<Segment>)
    requires PathOk(path)
    ensures PathText(path) != [] && ' ' !in PathText(path)
    ensures !IsSpace(PathText(path)[0]) && !IsSpace(PathText(path)[|PathText(path)| - 1])
    decreases |path|
  {
    SegmentHasNoSpace(path[0]);
    if |path| > 1 {
      PathTextChars(path[1..]);
      EndsAsParts(SegmentText(path[0]), PathText(path[1..]));
    }
  }

  lemma EndsAsParts(a: string, b: string)
    requires a != [] && b != []
    ensures (a + "." + b)[0] == a[0] && (a + "." + b)[|a + "." + b| - 1] == b[|b| - 1]
    ensures ' ' !in a && ' ' !in b ==> ' ' !in a + "." + b
  {
  }

  lemma SegmentHasNoSpace(g: Segment)
    requires SegmentOk(g)
    ensures var s := SegmentText(g);
            s != [] && ' ' !in s && !IsSpace(s[0]) && !IsSpace(s[|s| - 1])
  {
    var s := SegmentText(g);
    SegmentChars(g);
  }

  lemma {:induction false} SplitPath(path: seq<Segment>)
    requires PathOk(path)
    ensures Split(PathText(path), '.') == Texts(path)
    decreases |path|
  {
    var first := SegmentText(path[0]);
    SegmentChars(path[0]);
    assert '.' !in first;
    if |path| == 1 {
      SplitRun(first, "", '.');
      assert first + "" == first;
      assert Texts(path) == [first];
    } else {
      SplitPath(path[1..]);
      SplitFirst(first, PathText(path[1..]));
      TextsCons(path);
    }
  }

  lemma TextsCons(path: seq<Segment>)
    requires path != []
    ensures Texts(path) == [SegmentText(path[0])] + Texts(path[1..])
  {
  }

  lemma SplitFirst(first: string, rest: string)
    requires '.' !in first
    ensures Split(first + "." + rest, '.') == [first] + Split(rest, '.')
  {
    SplitRun(first, "." + rest, '.');
    assert first + "." + rest == first + ("." + rest);
    assert ("." + rest)[1..] == rest;
    assert first + [] == first;
  }

  // ---------------------------------------------------------------- alternatives

  lemma {:induction false} SplitOrBehind(s: string, rest: string)
    requires ' ' !in s && s != []
    ensures SplitOr(s) == [s]
    ensures SplitOr(s + " or " + rest) == [s] + SplitOr(rest)
    decreases |s|
  {
    SplitAtOr(rest);
    LongerPart(s[0], s[1..] + OR + rest);
    LongerPart(s[0], s[1..]);
    assert s + OR + rest == [s[0]] + (s[1..] + OR + rest) && s == [s[0]] + s[1..];
    if |s| == 1 {
      assert s[1..] + OR + rest == OR + rest;
    } else {
      SplitOrBehind(s[1..], rest);
    }
  }

  lemma SplitAtOr(rest: string)
    ensures SplitOr(OR + rest) == [[]] + SplitOr(rest)
  {
    assert (OR + rest)[|OR|..] == rest;
  }

  lemma LongerPart(c: char, rest: string)
    requires c != ' '
    ensures SplitOr([c] + rest) == [[c] + SplitOr(rest)[0]] + SplitOr(rest)[1..]
  {
    assert OR[0] == ' ' && ([c] + rest)[0] == c && ([c] + rest)[1..] == rest;
  }

  /** The alternatives of a text are the texts of its paths. */
  lemma {:induction false} SplitAlternatives(paths: seq<seq<Segment>>)
    requires paths != [] && forall i :: 0 <= i < |paths| ==> PathOk(paths[i])
    ensures |SplitOr(Alternatives(paths))| == |paths|
    ensures forall i :: 0 <= i < |paths| ==> SplitOr(Alternatives(paths))[i] == PathText(paths[i])
    decreases |paths|
  {
    PathTextChars(paths[0]);
    if |paths| == 1 {
      SplitOrBehind(PathText(paths[0]), "");
    } else {
      SplitAlternatives(paths[1..]);
      SplitOrBehind(PathText(paths[0]), Alternatives(paths[1..]));
      var rest := SplitOr(Alternatives(paths[1..]));
      assert forall i :: 0 < i < |paths| ==> ([PathText(paths[0])] + rest)[i] == rest[i - 1];
    }
  }

  lemma OnePart(path: seq<Segment>, ctx: map<string, Value>)
    requires PathOk(path)
    ensures Walk(Dict(ctx), Split(Strip(PathText(path)), '.')) == Reach(Dict(ctx), path)
  {
    PathTextChars(path);
    StripRead(PathText(path));
    SplitPath(path);
    WalkReaches(Dict(ctx), path);
  }

  /** The path fails, or leads to something other than None, the empty text and the empty list. */
  predicate Decides(path: seq<Segment>, ctx: map<string, Value>) {
    var r := Reach(Dict(ctx), path);
    r.Err? || (r.value != Null && r.value != Str("") && r.value != List([]))
  }

  predicate Spelled(parts: seq<string>, paths: seq<seq<Segment>>) {
    |parts| == |paths| && forall i :: 0 <= i < |paths| ==> PathOk(paths[i]) && parts[i] == PathText(paths[i])
  }

  predicate NoneDecides(paths: seq<seq<Segment>>, ctx: map<string, Value>) {
    forall i :: 0 <= i < |paths| ==> !Decides(paths[i], ctx)
  }

  lemma ChosenHead(parts: seq<string>, paths: seq<seq<Segment>>, ctx: map<string, Value>)
    requires parts != [] && Spelled(parts, paths)
    ensures Spelled(parts[1..], paths[1..])
    ensures Chosen(parts, ctx) ==
            if Decides(paths[0], ctx) then Reach(Dict(ctx), paths[0]) else Chosen(parts[1..], ctx)
  {
    OnePart(paths[0], ctx);
  }

  lemma {:induction false} ChosenPath(parts: seq<string>, paths: seq<seq<Segment>>, ctx: map<string, Value>, i: nat)
    requires Spelled(parts, paths) && i <= |paths| && NoneDecides(paths[..i], ctx)
    requires i < |paths| ==> Decides(paths[i], ctx)
    ensures Chosen(parts, ctx) == if i < |paths| then Reach(Dict(ctx), paths[i]) else Ok(Null)
    decreases |parts|
  {
    if parts != [] {
      ChosenHead(parts, paths, ctx);
      if i > 0 {
        assert paths[..i][0] == paths[0] && paths[..i][1..] == paths[1..][..i - 1];
        ChosenPath(parts[1..], paths[1..], ctx, i - 1);
      }
    }
  }

  lemma AlternativesSpell(paths: seq<seq<Segment>>)
    requires paths != [] && forall j :: 0 <= j < |paths| ==> PathOk(paths[j])
    ensures Spelled(SplitOr(Alternatives(paths)), paths)
  {
    SplitAlternatives(paths);
  }

  lemma NoneBefore(paths: seq<seq<Segment>>, ctx: map<string, Value>, i: nat)
    requires i <= |paths| && forall j :: 0 <= j < i ==> !Decides(paths[j], ctx)
    ensures NoneDecides(paths[..i], ctx)
  {
  }

  /**
   What an expression of paths joined by `or` yields: the first path decides that
   fails or leads to something other than None, "" and []; if none does, None.
   */
  lemma AlternativesGive(paths: seq<seq<Segment>>, ctx: map<string, Value>, i: nat)
    requires paths != [] && i <= |paths| && forall j :: 0 <= j < |paths| ==> PathOk(paths[j])
    requires forall j :: 0 <= j < i ==> !Decides(paths[j], ctx)
    requires i < |paths| ==> Decides(paths[i], ctx)
    ensures ExprValue(Alternatives(paths), ctx) == if i < |paths| then Reach(Dict(ctx), paths[i]) else Ok(Null)
  {
    AlternativesSpell(paths);
    NoneBefore(paths, ctx, i);
    ChosenPath(SplitOr(Alternatives(paths)), paths, ctx, i);
  }

  // ---------------------------------------------------------------- paths of identifiers

  function Fields(names: seq<string>): seq<Segment> {
    seq(|names|, i requires 0 <= i < |names| => Field(names[i]))
  }

  lemma {:induction false} FieldsAreSubscripts(v: Value, names: seq<string>)
    ensures Reach(v, Fields(names)) == Ok(match Subscript(v, names) case Ok(x) => x case Err(_) => Null)
    decreases |names|
  {
    if names != [] {
      assert Fields(names)[1..] == Fields(names[1..]);
      if v.Dict? && names[0] in v.fields {
        FieldsAreSubscripts(v.fields[names[0]], names[1..]);
      }
    }
  }

  lemma IdentifierIsName(name: string)
    requires IsIdentifier(name)
    ensures SegmentOk(Field(name))
  {
    forall i | 0 <= i < |name|
      ensures PathChar(name[i])
    {
      assert IsIdent(name[i]);
    }
  }

  /** A dotted path of identifiers yields the value its subscripts lead to, and None if there is none or it is empty. */
  lemma DottedPathGives(names: seq<string>, ctx: map<string, Value>)
    requires AllIdentifiers(names) && names != []
    ensures var found := Subscript(Dict(ctx), names);
            ExprValue(PathText(Fields(names)), ctx) ==
            if found.Err? || found.value == Str("") || found.value == List([]) then Ok(Null) else Ok(found.value)
  {
    var path := Fields(names);
    FieldsAreSubscripts(Dict(ctx), names);
    forall i | 0 <= i < |names|
      ensures SegmentOk(path[i])
    {
      IdentifierIsName(names[i]);
    }
    AlternativesGive([path], ctx, if Decides(path, ctx) then 0 else 1);
  }

  /** A text without white space and dots is one alternative of one segment. */
  lemma OneSegment(text: string)
    requires PathChars(text) && text != ""
    ensures Split(Strip(text), '.') == [text] && SplitOr(text) == [text]
  {
    assert ' ' !in text && '.' !in text;
    StripPathChars(text);
    SplitOrBehind(text, "");
    SplitRun(text, "", '.');
    assert text + "" == text;
  }

  lemma IndexedChars(name: string, index: string)
    requires PathChars(name) && PathChars(index)
    ensures PathChars(name + "[" + index + "]")
  {
  }

  /** An index that is no number is an error, whatever the context holds. */
  lemma NoNumberFails(name: string, index: string, ctx: map<string, Value>)
    requires PathChars(name) && '[' !in name && PathChars(index) && PyInt(index).None?
    ensures ExprValue(name + "[" + index + "]", ctx) == Err(ValueError)
  {
    var text := name + "[" + index + "]";
    IndexedChars(name, index);
    OneSegment(text);
    LookupIndexed(Dict(ctx), name, index);
    assert Walk(Dict(ctx), [text]) == Err(ValueError);
  }

  // ---------------------------------------------------------------- the characters themselves

  /** The code points that `strip` takes away. */
  lemma SpaceCharacters(c: char)
    ensures IsSpace(c) <==>
            c as int in {9, 10, 11, 12, 13, 28, 29, 30, 31, 32, 133, 160, 5760, 8192, 8193, 8194, 8195, 8196, 8197,
                         8198, 8199, 8200, 8201, 8202, 8232, 8233, 8239, 8287, 12288}
  {
  }

  /** The code points of an identifier: `A` to `Z`, `a` to `z`, the underscore and, not in front, `0` to `9`. */
  lemma IdentifierCharacters(c: char)
    ensures IsIdentStart(c) <==> 65 <= c as int <= 90 || 97 <= c as int <= 122 || c as int == 95
    ensures IsIdent(c) <==> IsIdentStart(c) || 48 <= c as int <= 57
  {
  }

  /** A path of a condition and what it is rewritten to, one segment longer each time. */
  lemma {:induction false} PathsSpelledOut(root: Root, segments: seq<string>, last: string)
    ensures Dotted(root, []) == Bracketed(root, []) == if root == Params then "params" else "results"
    ensures Dotted(root, segments + [last]) == Dotted(root, segments) + ("." + last)
    ensures Bracketed(root, segments + [last]) == Bracketed(root, segments) + ("['" + last + "']")
    decreases |segments|
  {
    if segments == [] {
      assert segments + [last] == [last] && [last][1..] == [];
    } else {
      var first, rest, all := segments[0], segments[1..], segments + [last];
      PathsSpelledOut(root, rest, last);
      assert all[0] == first && all[1..] == rest + [last];
      BehindRoot(RootName(root), Dots(rest + [last]), Dots(rest), "." + last);
      BehindRoot(RootName(root), Brackets(rest + [last]), Brackets(rest), "['" + last + "']");
      Regroup(RootName(root), "." + first, Dots(rest), "." + last);
      Regroup(RootName(root), Bracket(first), Brackets(rest), "['" + last + "']");
    }
  }

  lemma BehindRoot(root: string, x: string, y: string, z: string)
    requires root + x == root + y + z
    ensures x == y + z
  {
    assert (root + x)[|root|..] == x && (root + y + z)[|root|..] == y + z;
  }

  lemma Regroup(root: string, a: string, b: string, c: string)
    ensures root + (a + (b + c)) == root + (a + b) + c
  {
  }
}
