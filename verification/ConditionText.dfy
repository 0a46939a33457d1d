/**
 The rewrite preserves meaning. A dotted path becomes the bracket form of the same
 path; subscripting along that form gives what the path lookup gives; and a whole
 condition text becomes the text of the same condition in bracket form exactly when
 none of its literals contains a dotted path itself.
 */
module ConditionText {
  import opened Wrappers
  import opened Json
  import opened Conditions
  import opened Rewrite
  import opened Text
  import opened RewriteLaws
  import opened Expression

  predicate IsIdentifier(s: string) {
    s != [] && IsIdentStart(s[0]) && forall i :: 0 <= i < |s| ==> IsIdent(s[i])
  }

  predicate AllIdentifiers(segments: seq<string>) {
    forall i :: 0 <= i < |segments| ==> IsIdentifier(segments[i])
  }

  function Dots(segments: seq<string>): string {
    if segments == [] then "" else "." + segments[0] + Dots(segments[1..])
  }

  function RootName(root: Root): string {
    if root.Params? then PARAMS else RESULTS
  }

  /** `params.a.b`. */
  function Dotted(root: Root, segments: seq<string>): string {
    RootName(root) + Dots(segments)
  }

  /** `params['a']['b']`. */
  function Bracketed(root: Root, segments: seq<string>): string {
    RootName(root) + Brackets(segments)
  }

  // ---------------------------------------------------------------- one path

  lemma {:induction false} DotsAreGroups(segments: seq<string>)
    requires AllIdentifiers(segments)
    ensures IsGroups(Dots(segments), |segments|)
    decreases |segments|
  {
    if segments != [] {
      var g, k := Dots(segments), 1 + |segments[0]|;
      DotsAreGroups(segments[1..]);
      FirstDots(segments);
      assert forall i :: 2 <= i < k ==> g[i] == segments[0][i - 1];
      assert g[1] == segments[0][0];
    }
  }

  lemma FirstDots(segments: seq<string>)
    requires segments != [] && segments[0] != []
    ensures var g, k := Dots(segments), 1 + |segments[0]|;
            2 <= k <= |g| && g[0] == '.' && g[1..k] == segments[0] && g[k..] == Dots(segments[1..])
  {
    var g := "." + segments[0];
    assert Dots(segments) == g + Dots(segments[1..]);
    TakeDropAppend(g, Dots(segments[1..]));
    assert Dots(segments)[1..1 + |segments[0]|] == g[1..] == segments[0];
  }

  lemma {:induction false} SplitDots(segments: seq<string>)
    requires AllIdentifiers(segments)
    ensures Split(Dots(segments), '.') == [[]] + segments
    decreases |segments|
  {
    if segments == [] {
      assert Split("", '.') == [[]] + [];
    } else {
      var rest := Dots(segments[1..]);
      SplitDots(segments[1..]);
      SplitRun(segments[0], rest, '.');
      assert Dots(segments) == ['.'] + (segments[0] + rest);
      assert Dots(segments)[1..] == segments[0] + rest;
      assert segments[0] + [] == segments[0];
      assert ([[]] + segments[1..])[1..] == segments[1..];
      assert [segments[0]] + segments[1..] == segments;
    }
  }

  lemma {:induction false} NonEmptyKeeps(segments: seq<string>)
    requires AllIdentifiers(segments)
    ensures NonEmpty(segments) == segments
    decreases |segments|
  {
    if segments != [] {
      NonEmptyKeeps(segments[1..]);
      assert [segments[0]] + segments[1..] == segments;
    }
  }

  lemma RootNames(root: Root)
    ensures |RootName(root)| > 0 && (forall i :: 0 <= i < |RootName(root)| ==> IsIdent(RootName(root)[i]))
    ensures '.' !in RootName(root)
  {
  }

  lemma DottedIsOneMatch(wide: Wide, root: Root, segments: seq<string>)
    requires AllIdentifiers(segments) && segments != []
    ensures MatchLen(wide, false, Dotted(root, segments)) == |Dotted(root, segments)| > 0
  {
    var s, r := Dotted(root, segments), |RootName(root)|;
    RootNames(root);
    DotsAreGroups(segments);
    TakeDropAppend(RootName(root), Dots(segments));
    assert s[r..|s|] == s[r..];
    assert Matches(wide, false, s, |s|);
    MatchLenIsTheMatch(wide, false, s);
  }

  lemma WholeTextIsReplaced(wide: Wide, s: string)
    requires MatchLen(wide, false, s) == |s| > 0
    ensures RewriteDottedPaths(wide, s) == Replacement(s)
  {
    assert s[..|s|] == s && s[|s|..] == [];
    assert RewriteFrom(wide, true, s[|s|..]) == [];
  }

  lemma SegmentsOfDots(segments: seq<string>)
    requires AllIdentifiers(segments)
    ensures NonEmpty(Split(Dots(segments), '.')) == segments
  {
    SplitDots(segments);
    NonEmptyKeeps(segments);
    assert ([[]] + segments)[1..] == segments;
  }

  lemma RootOfDotted(root: Root, segments: seq<string>)
    ensures RootLen(Dotted(root, segments)) == |RootName(root)|
    ensures Dotted(root, segments)[..|RootName(root)|] == RootName(root)
    ensures Dotted(root, segments)[|RootName(root)|..] == Dots(segments)
  {
    RootNames(root);
    TakeDropAppend(RootName(root), Dots(segments));
    RootLenIsRoot(Dotted(root, segments), |RootName(root)|);
  }

  /** A path made of identifiers is rewritten, as a whole, to its bracket form. */
  lemma DottedBecomesBracketed(wide: Wide, root: Root, segments: seq<string>)
    requires AllIdentifiers(segments) && segments != []
    ensures RewriteDottedPaths(wide, Dotted(root, segments)) == Bracketed(root, segments)
  {
    DottedIsOneMatch(wide, root, segments);
    WholeTextIsReplaced(wide, Dotted(root, segments));
    RootOfDotted(root, segments);
    SegmentsOfDots(segments);
  }

  // ---------------------------------------------------------------- reading the bracket form

  /** Parses `['a']['b']...`, to the end of the text. */
  function ParseKeys(t: string): Option<seq<string>>
    decreases |t|
  {
    if t == [] then Some([])
    else if |t| < 2 || t[0] != '[' || t[1] != '\'' then None
    else
      var n := Position(t[2..], '\'');
      var rest := t[2..][n..];
      if |rest| < 2 || rest[0] != '\'' || rest[1] != ']' then None
      else
        var keys := ParseKeys(rest[2..]);
        if keys.None? then None else Some([t[2..][..n]] + keys.value)
  }

  /** The meaning of a bracket expression: its root's dictionary, subscripted key by key; None if it is not one. */
  function EvalSubscripts(t: string, params: Env, results: Env): Option<Result<Value, EvalError>> {
    var n := IdentRun(t);
    var keys := ParseKeys(t[n..]);
    if keys.None? then None
    else if t[..n] == PARAMS then Some(Subscript(Dict(params), keys.value))
    else if t[..n] == RESULTS then Some(Subscript(Dict(results), keys.value))
    else None
  }

  lemma PositionAfter(a: string, b: string, c: char)
    requires c !in a && b != [] && b[0] == c
    ensures Position(a + b, c) == |a|
  {
    assert (a + b)[|a|] == c;
    assert forall i :: 0 <= i < |a| ==> (a + b)[i] == a[i];
  }

  lemma {:induction false} ParseBrackets(segments: seq<string>)
    requires AllIdentifiers(segments)
    ensures ParseKeys(Brackets(segments)) == Some(segments)
    decreases |segments|
  {
    if segments != [] {
      ParseBrackets(segments[1..]);
      var tail := Brackets(segments[1..]);
      ParseOneBracket(segments[0], tail);
      assert [segments[0]] + segments[1..] == segments;
    }
  }

  lemma ParseOneBracket(segment: string, tail: string)
    requires IsIdentifier(segment)
    ensures ParseKeys(Bracket(segment) + tail) ==
            if ParseKeys(tail).None? then None else Some([segment] + ParseKeys(tail).value)
  {
    var t := Bracket(segment) + tail;
    var close := "']" + tail;
    assert t == "['" + (segment + close);
    TakeDropAppend("['", segment + close);
    assert t[0] == "['"[0] && t[1] == "['"[1];
    PositionAfter(segment, close, '\'');
    TakeDropAppend(segment, close);
    TakeDropAppend("']", tail);
    assert close[0] == '\'' && close[1] == ']';
  }

  lemma EvalBracketed(root: Root, segments: seq<string>, params: Env, results: Env)
    requires AllIdentifiers(segments)
    ensures EvalSubscripts(Bracketed(root, segments), params, results) ==
            Some(Subscript(Dict(if root.Params? then params else results), segments))
  {
    var name, keys := RootName(root), Brackets(segments);
    RootNames(root);
    assert keys != [] ==> keys[0] == '[' by {
      if segments != [] {
        assert Bracket(segments[0])[0] == '[';
      }
    }
    IdentRunOf(name, keys);
    TakeDropAppend(name, keys);
    ParseBrackets(segments);
  }

  // ---------------------------------------------------------------- looking up the dotted form

  lemma {:induction false} WalkIsSubscript(v: Value, segments: seq<string>)
    requires AllIdentifiers(segments) && v != Null
    ensures Walk(v, segments) == Ok(match Subscript(v, segments) case Ok(x) => x case Err(_) => Null)
    decreases |segments|
  {
    if segments != [] {
      assert !IsIndexed(segments[0]);
      if v.Dict? && segments[0] in v.fields {
        var next := v.fields[segments[0]];
        if next == Null {
          NullHasNoKeys(segments[1..]);
        } else {
          WalkIsSubscript(next, segments[1..]);
        }
      }
    }
  }

  lemma NullHasNoKeys(segments: seq<string>)
    ensures match Subscript(Null, segments) case Ok(x) => x == Null case Err(_) => true
  {
  }

  lemma SplitDotted(root: Root, segments: seq<string>)
    requires AllIdentifiers(segments)
    ensures Split(Dotted(root, segments), '.') == [RootName(root)] + segments
  {
    RootNames(root);
    SplitDots(segments);
    SplitRun(RootName(root), Dots(segments), '.');
    assert RootName(root) + [] == RootName(root);
    assert ([[]] + segments)[1..] == segments;
  }

  function ContextOf(params: Env, results: Env): map<string, Value> {
    map["params" := Dict(params), "results" := Dict(results)]
  }

  lemma WalkDotted(root: Root, segments: seq<string>, params: Env, results: Env)
    requires AllIdentifiers(segments)
    ensures var start := Dict(if root.Params? then params else results);
            Walk(Dict(ContextOf(params, results)), Split(Dotted(root, segments), '.')) == Walk(start, segments)
  {
    var path := [RootName(root)] + segments;
    SplitDotted(root, segments);
    RootNames(root);
    assert path[0] == RootName(root) && path[1..] == segments;
    assert !IsIndexed(path[0]);
    assert PARAMS[0] == 'p' && RESULTS[0] == 'r';
  }

  /**
   The rewrite preserves meaning, for every path of identifiers and every pair of
   dictionaries: subscripting along the rewritten text succeeds exactly when every
   segment exists, and then gives the value the dotted lookup gives; where a
   segment is missing the subscript is an error and the lookup answers None.
   */
  lemma RewriteKeepsMeaning(wide: Wide, root: Root, segments: seq<string>, params: Env, results: Env)
    requires AllIdentifiers(segments) && segments != []
    ensures var v := EvalSubscripts(RewriteDottedPaths(wide, Dotted(root, segments)), params, results);
            var looked := Walk(Dict(ContextOf(params, results)), Split(Dotted(root, segments), '.'));
            && v.Some?
            && (v.value.Ok? ==> looked == Ok(v.value.value))
            && (v.value.Err? ==> looked == Ok(Null))
            && (looked.Ok? && looked.value != Null ==> v.value == Ok(looked.value))
            && v.value == Eval(Expr.Path(root, segments[0], segments[1..]), params, results)
  {
    assert [segments[0]] + segments[1..] == segments;
    DottedBecomesBracketed(wide, root, segments);
    EvalBracketed(root, segments, params, results);
    WalkDotted(root, segments, params, results);
    WalkIsSubscript(Dict(if root.Params? then params else results), segments);
  }

  // ---------------------------------------------------------------- whole conditions

  function OpText(op: CompareOp): string {
    match op
    case Eq => " == "
    case Ne => " != "
    case Lt => " < "
    case Le => " <= "
    case Gt => " > "
    case Ge => " >= "
  }

  function Infix(left: string, op: string, right: string): string {
    "(" + ((left + (op + right)) + ")")
  }

  const NOT := "(not "

  /** The text of a condition, fully parenthesised, with its paths in dotted or in bracket form. */
  function Render(e: Expr, dotted: bool): string {
    match e
    case Literal(text, _) => text
    case Path(root, first, rest) =>
      if dotted then Dotted(root, [first] + rest) else Bracketed(root, [first] + rest)
    case Compare(op, l, r) => Infix(Render(l, dotted), OpText(op), Render(r, dotted))
    case And(l, r) => Infix(Render(l, dotted), " and ", Render(r, dotted))
    case Or(l, r) => Infix(Render(l, dotted), " or ", Render(r, dotted))
    case Not(x) => NOT + (Render(x, dotted) + ")")
  }

  predicate PathsAreIdentifiers(e: Expr) {
    match e
    case Literal(_, _) => true
    case Path(_, first, rest) => AllIdentifiers([first] + rest)
    case Compare(_, l, r) => PathsAreIdentifiers(l) && PathsAreIdentifiers(r)
    case And(l, r) => PathsAreIdentifiers(l) && PathsAreIdentifiers(r)
    case Or(l, r) => PathsAreIdentifiers(l) && PathsAreIdentifiers(r)
    case Not(x) => PathsAreIdentifiers(x)
  }

  /** The condition with every literal's text rewritten. */
  function LiteralsRewritten(wide: Wide, e: Expr): Expr {
    match e
    case Literal(text, v) => Literal(RewriteDottedPaths(wide, text), v)
    case Path(_, _, _) => e
    case Compare(op, l, r) => Compare(op, LiteralsRewritten(wide, l), LiteralsRewritten(wide, r))
    case And(l, r) => And(LiteralsRewritten(wide, l), LiteralsRewritten(wide, r))
    case Or(l, r) => Or(LiteralsRewritten(wide, l), LiteralsRewritten(wide, r))
    case Not(x) => Not(LiteralsRewritten(wide, x))
  }

  /** No literal's text contains a dotted path: the regular expression matches nowhere in it. */
  ghost predicate NoPathInLiterals(wide: Wide, e: Expr) {
    match e
    case Literal(text, _) => NoPath(wide, false, text)
    case Path(_, _, _) => true
    case Compare(_, l, r) => NoPathInLiterals(wide, l) && NoPathInLiterals(wide, r)
    case And(l, r) => NoPathInLiterals(wide, l) && NoPathInLiterals(wide, r)
    case Or(l, r) => NoPathInLiterals(wide, l) && NoPathInLiterals(wide, r)
    case Not(x) => NoPathInLiterals(wide, x)
  }

  /** Text without dots that starts and ends in a cut is copied, and separates what surrounds it. */
  predicate Separator(wide: Wide, s: string) {
    s != [] && '.' !in s && IsCut(wide, s[0]) && IsCut(wide, s[|s| - 1])
  }

  lemma RewriteSeparated(wide: Wide, prev: bool, left: string, sep: string, right: string)
    requires Separator(wide, sep)
    ensures RewriteFrom(wide, prev, left + (sep + right)) ==
            RewriteFrom(wide, prev, left) + (sep + RewriteFrom(wide, false, right))
  {
    var before := WordBefore(wide, prev, left);
    assert (sep + right)[0] == sep[0];
    RewriteSeam(wide, prev, left, sep + right);
    RewriteSeam(wide, before, sep, right);
    NoDotsNoChange(wide, before, sep);
  }

  lemma RewriteEnclosed(wide: Wide, open: string, x: string, close: string)
    requires Separator(wide, open) && Separator(wide, close)
    ensures RewriteFrom(wide, false, open + (x + close)) == open + (RewriteFrom(wide, false, x) + close)
  {
    RewriteSeam(wide, false, open, x + close);
    NoDotsNoChange(wide, false, open);
    RewriteSeam(wide, false, x, close);
    NoDotsNoChange(wide, WordBefore(wide, false, x), close);
  }

  lemma RewriteInfix(wide: Wide, left: string, op: string, right: string)
    requires Separator(wide, op)
    ensures RewriteFrom(wide, false, Infix(left, op, right)) ==
            Infix(RewriteFrom(wide, false, left), op, RewriteFrom(wide, false, right))
  {
    RewriteEnclosed(wide, "(", left + (op + right), ")");
    RewriteSeparated(wide, false, left, op, right);
  }

  lemma RewriteNot(wide: Wide, x: string)
    ensures RewriteFrom(wide, false, NOT + (x + ")")) == NOT + (RewriteFrom(wide, false, x) + ")")
  {
    assert NOT[0] == '(' && NOT[|NOT| - 1] == ' ';
    RewriteEnclosed(wide, NOT, x, ")");
  }

  lemma OpsSeparate(wide: Wide, op: CompareOp)
    ensures Separator(wide, OpText(op)) && Separator(wide, " and ") && Separator(wide, " or ")
  {
  }

  /** What the rewrite makes of a condition text: bracket form for its paths, and its literals rewritten as texts. */
  lemma {:induction false} RewriteOfCondition(wide: Wide, e: Expr)
    requires PathsAreIdentifiers(e)
    ensures RewriteDottedPaths(wide, Render(e, true)) == Render(LiteralsRewritten(wide, e), false)
  {
    match e
    case Literal(_, _) =>
    case Path(root, first, rest) =>
      DottedBecomesBracketed(wide, root, [first] + rest);
    case Compare(op, l, r) =>
      OpsSeparate(wide, op);
      RewriteInfix(wide, Render(l, true), OpText(op), Render(r, true));
      RewriteOfCondition(wide, l);
      RewriteOfCondition(wide, r);
    case And(l, r) =>
      OpsSeparate(wide, Eq);
      RewriteInfix(wide, Render(l, true), " and ", Render(r, true));
      RewriteOfCondition(wide, l);
      RewriteOfCondition(wide, r);
    case Or(l, r) =>
      OpsSeparate(wide, Eq);
      RewriteInfix(wide, Render(l, true), " or ", Render(r, true));
      RewriteOfCondition(wide, l);
      RewriteOfCondition(wide, r);
    case Not(x) =>
      RewriteNot(wide, Render(x, true));
      RewriteOfCondition(wide, x);
  }

  lemma InfixLength(left: string, op: string, right: string)
    ensures |Infix(left, op, right)| == |left| + |op| + |right| + 2
  {
  }

  /** Rewriting literals never shortens a condition, and keeps its length only when it keeps every literal. */
  lemma LiteralGrows(wide: Wide, text: string)
    ensures |RewriteFrom(wide, false, text)| >= |text|
    ensures |RewriteFrom(wide, false, text)| == |text| <==> RewriteFrom(wide, false, text) == text
    ensures RewriteFrom(wide, false, text) == text <==> NoPath(wide, false, text)
  {
    RewriteGrows(wide, false, text);
    UnchangedIffNoPath(wide, false, text);
    if |RewriteFrom(wide, false, text)| == |text| {
      SameLengthIsSameText(wide, false, text);
    }
  }

  lemma {:induction false} LiteralsGrow(wide: Wide, e: Expr)
    ensures |Render(LiteralsRewritten(wide, e), false)| >= |Render(e, false)|
    ensures |Render(LiteralsRewritten(wide, e), false)| == |Render(e, false)| <==> NoPathInLiterals(wide, e)
    ensures NoPathInLiterals(wide, e) ==> LiteralsRewritten(wide, e) == e
  {
    match e
    case Literal(text, _) =>
      LiteralGrows(wide, text);
    case Path(_, _, _) =>
    case Compare(op, l, r) =>
      LiteralsGrow(wide, l);
      LiteralsGrow(wide, r);
      GrowBoth(wide, l, r, OpText(op));
    case And(l, r) =>
      LiteralsGrow(wide, l);
      LiteralsGrow(wide, r);
      GrowBoth(wide, l, r, " and ");
    case Or(l, r) =>
      LiteralsGrow(wide, l);
      LiteralsGrow(wide, r);
      GrowBoth(wide, l, r, " or ");
    case Not(x) =>
      LiteralsGrow(wide, x);
  }

  /** What `LiteralsGrow` says. */
  ghost predicate Grown(wide: Wide, e: Expr) {
    var was, now := |Render(e, false)|, |Render(LiteralsRewritten(wide, e), false)|;
    && now >= was && (now == was <==> NoPathInLiterals(wide, e))
    && (NoPathInLiterals(wide, e) ==> LiteralsRewritten(wide, e) == e)
  }

  lemma GrowBoth(wide: Wide, l: Expr, r: Expr, op: string)
    requires Grown(wide, l) && Grown(wide, r)
    ensures var was := |Infix(Render(l, false), op, Render(r, false))|;
            var x, y := LiteralsRewritten(wide, l), LiteralsRewritten(wide, r);
            var now := |Infix(Render(x, false), op, Render(y, false))|;
            now >= was && (now == was <==> NoPathInLiterals(wide, l) && NoPathInLiterals(wide, r))
  {
    InfixLength(Render(l, false), op, Render(r, false));
    InfixLength(Render(LiteralsRewritten(wide, l), false), op, Render(LiteralsRewritten(wide, r), false));
  }

  /**
   The rewrite turns the text of a condition into the text of the same condition
   with bracket paths, exactly, if and only if the regular expression matches
   nowhere in a literal. A literal such as 'params.x' is rewritten like any text.
   */
  lemma ConditionIsRewrittenIff(wide: Wide, e: Expr)
    requires PathsAreIdentifiers(e)
    ensures RewriteDottedPaths(wide, Render(e, true)) == Render(e, false) <==> NoPathInLiterals(wide, e)
  {
    RewriteOfCondition(wide, e);
    LiteralsGrow(wide, e);
  }

  /** A quoted literal that holds a path: the rewrite changes the text it compares with. */
  lemma QuotedPathIsRewritten(wide: Wide, root: Root, segments: seq<string>)
    requires AllIdentifiers(segments) && segments != []
    ensures RewriteDottedPaths(wide, "'" + (Dotted(root, segments) + "'")) == "'" + (Bracketed(root, segments) + "'")
    ensures !NoPathInLiterals(wide, Literal("'" + (Dotted(root, segments) + "'"), Str(Dotted(root, segments))))
  {
    var s := Dotted(root, segments);
    RewriteEnclosed(wide, "'", s, "'");
    UnchangedIffNoPath(wide, false, "'" + (s + "'"));
    DottedBecomesBracketed(wide, root, segments);
    assert |Bracketed(root, segments)| > |s| by {
      DottedIsOneMatch(wide, root, segments);
      ReplacementIsLonger(wide, s);
      WholeTextIsReplaced(wide, s);
      assert s[..|s|] == s;
    }
  }

  // ---------------------------------------------------------------- missing segments

  predicate Fails(path: Expr, params: Env, results: Env) {
    path.Path? && Eval(path, params, results).Err?
  }

  /**
   The paths evaluation looks up, short-circuiting as Python does: the right side
   of a comparison only after a left side without error, that of "and" only after
   a true left side, that of "or" only after a false one.
   */
  function Reached(e: Expr, params: Env, results: Env): set<Expr> {
    match e
    case Literal(_, _) => {}
    case Path(_, _, _) => {e}
    case Compare(_, l, r) =>
      Reached(l, params, results) + if Eval(l, params, results).Ok? then Reached(r, params, results) else {}
    case And(l, r) =>
      var a := Eval(l, params, results);
      Reached(l, params, results) + if a.Ok? && Truthy(a.value) then Reached(r, params, results) else {}
    case Or(l, r) =>
      var a := Eval(l, params, results);
      Reached(l, params, results) + if a.Ok? && !Truthy(a.value) then Reached(r, params, results) else {}
    case Not(x) => Reached(x, params, results)
  }

  /** A reached path that fails makes the whole condition an error. */
  lemma {:induction false} ReachedFailureIsError(e: Expr, params: Env, results: Env, path: Expr)
    requires path in Reached(e, params, results) && Fails(path, params, results)
    ensures Eval(e, params, results).Err?
  {
    match e
    case Path(_, _, _) =>
    case Compare(_, l, r) =>
      ReachedFailureIsError(if path in Reached(l, params, results) then l else r, params, results, path);
    case And(l, r) =>
      ReachedFailureIsError(if path in Reached(l, params, results) then l else r, params, results, path);
    case Or(l, r) =>
      ReachedFailureIsError(if path in Reached(l, params, results) then l else r, params, results, path);
    case Not(x) => ReachedFailureIsError(x, params, results, path);
  }

  /** Every other error is a comparison of values that have no order. */
  lemma {:induction false} ErrorIsReachedFailure(e: Expr, params: Env, results: Env)
    requires Eval(e, params, results).Err? && Eval(e, params, results).error != IncomparableTypes
    ensures exists path :: path in Reached(e, params, results) && Fails(path, params, results)
  {
    match e
    case Path(_, _, _) =>
      assert e in Reached(e, params, results);
    case Compare(op, l, r) =>
      if Eval(l, params, results).Ok? && Eval(r, params, results).Ok? {
        OrderErrs(op, Eval(l, params, results).value, Eval(r, params, results).value);
      }
      var side := if Eval(l, params, results).Err? then l else r;
      ErrorIsReachedFailure(side, params, results);
      var path :| path in Reached(side, params, results) && Fails(path, params, results);
      assert path in Reached(e, params, results);
    case And(l, r) =>
      var side := if Eval(l, params, results).Err? then l else r;
      ErrorIsReachedFailure(side, params, results);
      var path :| path in Reached(side, params, results) && Fails(path, params, results);
      assert path in Reached(e, params, results);
    case Or(l, r) =>
      var side := if Eval(l, params, results).Err? then l else r;
      ErrorIsReachedFailure(side, params, results);
      var path :| path in Reached(side, params, results) && Fails(path, params, results);
      assert path in Reached(e, params, results);
    case Not(x) =>
      ErrorIsReachedFailure(x, params, results);
  }

  /**
   A missing segment makes the condition false wherever evaluation comes across
   it, even where the lookup is negated or offered an alternative.
   */
  lemma MissingSegmentIsFalse(e: Expr, params: Env, results: Env, root: Root, first: string, rest: seq<string>)
    requires Expr.Path(root, first, rest) in Reached(e, params, results)
    requires Subscript(Dict(if root.Params? then params else results), [first] + rest).Err?
    ensures !Holds(When(e), params, results)
  {
    ReachedFailureIsError(e, params, results, Expr.Path(root, first, rest));
  }
}
