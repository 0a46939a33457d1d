/**
 Reading a catalog: the texts in it, each under the tags it stands in, and the
 elements that declare a name. What the templates of a plan and a product say is
 stated by what is read back from them.
 */
module CatalogReading {
  import opened Xml
  import opened Decimals
  import opened CatalogDocs

  /** An element with nothing but text in it, under what stands in the start tags around it and in its own. */
  datatype Datum = Datum(path: seq<string>, text: string)

  /** The data from here to the end of the element that is open at the start, or of the document. */
  function Data(doc: Doc, path: seq<string>): seq<Datum>
    decreases |doc|
  {
    if doc == [] then []
    else
      match doc[0]
      case Open(n, a) =>
        var inner := path + [n + a];
        if |doc| > 1 && doc[1] == Close(n) then [Datum(inner, "")] + Data(doc[2..], path)
        else if |doc| > 2 && doc[1].Chars? && doc[2] == Close(n) then [Datum(inner, doc[1].text)] + Data(doc[3..], path)
        else Data(doc[1..], inner)
      case Close(_) => if path == [] then [] else Data(doc[1..], path[..|path| - 1])
      case Empty(n, a) => [Datum(path + [n + a], "")] + Data(doc[1..], path)
      case _ => Data(doc[1..], path)
  }

  /** The data, further down. */
  function Under(path: seq<string>, data: seq<Datum>): seq<Datum> {
    seq(|data|, i requires 0 <= i < |data| => Datum(path + data[i].path, data[i].text))
  }

  /** The fragment has these data wherever it stands. */
  ghost predicate Shows(doc: Doc, data: seq<Datum>) {
    forall rest, path :: Data(doc + rest, path) == Under(path, data) + Data(rest, path)
  }

  // ---------------------------------------------------------------- composing

  lemma UnderAppend(path: seq<string>, x: seq<Datum>, y: seq<Datum>)
    ensures Under(path, x + y) == Under(path, x) + Under(path, y)
  {
  }

  lemma UnderUnder(path: seq<string>, more: seq<string>, data: seq<Datum>)
    ensures Under(path, Under(more, data)) == Under(path + more, data)
  {
    assert forall i :: 0 <= i < |data| ==> path + (more + data[i].path) == (path + more) + data[i].path;
  }

  lemma UnderNothing(data: seq<Datum>)
    ensures Under([], data) == data
  {
    assert forall i :: 0 <= i < |data| ==> [] + data[i].path == data[i].path;
  }

  lemma ShowsNothing()
    ensures Shows([], [])
  {
    forall rest: Doc, path
      ensures Data([] + rest, path) == Under(path, []) + Data(rest, path)
    {
      assert [] + rest == rest;
    }
  }

  lemma ShowsAppend(a: Doc, x: seq<Datum>, b: Doc, y: seq<Datum>)
    requires Shows(a, x) && Shows(b, y)
    ensures Shows(a + b, x + y)
  {
    forall rest, path
      ensures Data(a + b + rest, path) == Under(path, x + y) + Data(rest, path)
    {
      assert a + b + rest == a + (b + rest);
      UnderAppend(path, x, y);
      assert Under(path, x) + (Under(path, y) + Data(rest, path)) ==
             Under(path, x) + Under(path, y) + Data(rest, path);
    }
  }

  lemma ShowsRun(text: string)
    ensures Shows([Chars(text)], [])
  {
    forall rest, path
      ensures Data([Chars(text)] + rest, path) == Under(path, []) + Data(rest, path)
    {
      assert ([Chars(text)] + rest)[1..] == rest;
    }
  }

  lemma ShowsVoid(name: string)
    ensures Shows([Empty(name, "")], [Datum([name], "")])
  {
    forall rest, path
      ensures Data([Empty(name, "")] + rest, path) == Under(path, [Datum([name], "")]) + Data(rest, path)
    {
      assert ([Empty(name, "")] + rest)[1..] == rest && name + "" == name;
    }
  }

  lemma ShowsText(name: string, attrs: string, text: string)
    ensures Shows([Open(name, attrs), Chars(text), Close(name)], [Datum([name + attrs], text)])
  {
    var doc := [Open(name, attrs), Chars(text), Close(name)];
    forall rest, path
      ensures Data(doc + rest, path) == Under(path, [Datum([name + attrs], text)]) + Data(rest, path)
    {
      assert (doc + rest)[3..] == rest;
    }
  }

  /** Contents that begin with another element, or with text before one. */
  predicate Roomy(kids: Doc) {
    kids != [] && !kids[0].Close? && (kids[0].Chars? ==> |kids| > 1 && !kids[1].Close?)
  }

  lemma DataBehindClose(name: string, rest: Doc, path: seq<string>, inner: string)
    ensures Data([Close(name)] + rest, path + [inner]) == Data(rest, path)
  {
    assert ([Close(name)] + rest)[1..] == rest;
    assert (path + [inner])[..|path|] == path;
  }

  lemma ShowsElem(name: string, attrs: string, kids: Doc, data: seq<Datum>)
    requires Roomy(kids) && Shows(kids, data)
    ensures Shows([Open(name, attrs)] + kids + [Close(name)], Under([name + attrs], data))
  {
    forall rest, path
      ensures Data([Open(name, attrs)] + kids + [Close(name)] + rest, path) ==
              Under(path, Under([name + attrs], data)) + Data(rest, path)
    {
      var behind := [Close(name)] + rest;
      var doc := [Open(name, attrs)] + kids + [Close(name)] + rest;
      assert doc[1..] == kids + behind && doc[1] == kids[0] && (|kids| > 1 ==> doc[2] == kids[1]);
      DataBehindClose(name, rest, path, name + attrs);
      UnderUnder(path, [name + attrs], data);
    }
  }

  // ---------------------------------------------------------------- the building blocks of the templates

  lemma LeafShows(name: string, text: string)
    requires Word(name) && '<' !in text
    ensures Shows(Leaf(name, text), [Datum([name], text)])
  {
    ShowsText(name, "", text);
    assert name + "" == name;
    assert Leaf(name, text) == [Open(name, ""), Chars(text), Close(name)];
  }

  lemma LineShows(n: nat)
    ensures Shows(Line(n), [])
  {
    ShowsRun("\n" + Spaces(n));
  }

  /** A fragment that starts with a tag. */
  predicate StartsElement(doc: Doc) {
    doc != [] && (doc[0].Open? || doc[0].Empty?)
  }

  lemma OnShows(n: nat, doc: Doc, x: seq<Datum>, rest: Doc, y: seq<Datum>)
    requires Inert(doc) && Inert(rest) && StartsElement(doc) && Shows(doc, x) && Shows(rest, y)
    ensures Shows(On(n, doc, rest), x + y) && Roomy(On(n, doc, rest))
  {
    LineShows(n);
    ShowsAppend(Line(n), [], doc, x);
    ShowsAppend(Line(n) + doc, [] + x, rest, y);
    assert [] + x == x;
    var all := On(n, doc, rest);
    assert all[0].Chars? && all[1] == doc[0];
  }

  /** The last fragment before the end tag. */
  lemma LastShows(n: nat, doc: Doc, x: seq<Datum>, m: nat)
    requires Inert(doc) && StartsElement(doc) && Shows(doc, x)
    ensures Shows(On(n, doc, Line(m)), x) && Roomy(On(n, doc, Line(m)))
  {
    LineShows(m);
    OnShows(n, doc, x, Line(m), []);
    assert x + [] == x;
  }

  lemma ElemShows(name: string, attrs: string, kids: Doc, data: seq<Datum>)
    requires Word(name) && AttrsInert(attrs) && Inert(kids) && Roomy(kids) && Shows(kids, data)
    ensures Shows(Elem(name, attrs, kids), Under([name + attrs], data)) && StartsElement(Elem(name, attrs, kids))
  {
    ShowsElem(name, attrs, kids, data);
  }

  // ---------------------------------------------------------------- what a plan says

  const TRIAL := "phase type=\"TRIAL\""
  const ONE_TIME := "fixed type=\"ONE_TIME\""
  const EVERGREEN := "finalPhase type=\"EVERGREEN\""

  lemma TypedTags()
    ensures "phase" + TypeAttr("TRIAL") == TRIAL
    ensures "fixed" + TypeAttr("ONE_TIME") == ONE_TIME
    ensures "finalPhase" + TypeAttr("EVERGREEN") == EVERGREEN
  {
    TrialTag();
    OneTimeTag();
    EvergreenTag();
  }

  lemma TrialTag()
    ensures "phase" + TypeAttr("TRIAL") == TRIAL
  {
  }

  lemma OneTimeTag()
    ensures "fixed" + TypeAttr("ONE_TIME") == ONE_TIME
  {
  }

  lemma EvergreenTag()
    ensures "finalPhase" + TypeAttr("EVERGREEN") == EVERGREEN
  {
  }

  function PriceData(currency: string, amount: string): seq<Datum> {
    [Datum(["currency"], currency), Datum(["value"], amount)]
  }

  function DurationData(unit: string, number: string): seq<Datum> {
    [Datum(["unit"], unit), Datum(["number"], number)]
  }

  function TrialData(days: nat, currency: string): seq<Datum> {
    Under(["duration"], DurationData("DAYS", Decimal(days))) +
    (Under([ONE_TIME, "fixedPrice", "price"], PriceData(currency, "0")) + [Datum(["usages"], "")])
  }

  function InitialData(p: Plan): seq<Datum> {
    if p.trialDays > 0 then Under(["initialPhases", TRIAL], TrialData(p.trialDays, CurrencyOf(p)))
    else [Datum(["initialPhases"], "")]
  }

  function FinalData(currency: string, price: string): seq<Datum> {
    Under(["duration"], DurationData("UNLIMITED", "-1")) +
    (Under(["recurring"], [Datum(["billingPeriod"], "MONTHLY")] +
                          Under(["recurringPrice", "price"], PriceData(currency, price))) +
     [Datum(["usages"], "")])
  }

  /** The phases of a plan and what follows them. */
  function PhasesData(p: Plan): seq<Datum> {
    InitialData(p) + (Under([EVERGREEN], FinalData(CurrencyOf(p), p.price)) + [Datum(["plansAllowedInBundle"], "-1")])
  }

  /** Everything the element of a plan says. */
  function PlanData(p: Plan): seq<Datum> {
    [Datum(["product"], ProductOf(p))] + ([Datum(["recurringBillingMode"], "IN_ADVANCE")] + PhasesData(p))
  }

  lemma AmountShows(m: nat, currency: Value, amount: Value)
    ensures Shows(AmountDoc(m, currency, amount), Under(["price"], PriceData(currency, amount)))
    ensures StartsElement(AmountDoc(m, currency, amount))
  {
    AmountWords();
    LeafShows("currency", currency);
    LeafShows("value", amount);
    var inner := On(m + 4, Leaf("value", amount), Line(m));
    LastShows(m + 4, Leaf("value", amount), [Datum(["value"], amount)], m);
    OnShows(m + 4, Leaf("currency", currency), [Datum(["currency"], currency)], inner, [Datum(["value"], amount)]);
    assert [Datum(["currency"], currency)] + [Datum(["value"], amount)] == PriceData(currency, amount);
    ElemShows("price", "", On(m + 4, Leaf("currency", currency), inner), PriceData(currency, amount));
    assert "price" + "" == "price";
  }

  /** An element around one element on a line of its own. */
  lemma AroundShows(name: string, attrs: string, n: nat, doc: Doc, data: seq<Datum>, m: nat)
    requires Word(name) && AttrsInert(attrs) && Inert(doc) && StartsElement(doc) && Shows(doc, data)
    ensures Shows(Elem(name, attrs, On(n, doc, Line(m))), Under([name + attrs], data))
    ensures StartsElement(Elem(name, attrs, On(n, doc, Line(m))))
  {
    LastShows(n, doc, data, m);
    ElemShows(name, attrs, On(n, doc, Line(m)), data);
  }

  lemma FixedShows(p: Plan, m: nat)
    ensures Shows(FixedDoc(p, m), Under([ONE_TIME, "fixedPrice", "price"], PriceData(CurrencyOf(p), "0")))
    ensures StartsElement(FixedDoc(p, m))
  {
    FixedWords();
    TypedTags();
    var data := PriceData(CurrencyOf(p), "0");
    var amount := AmountDoc(m + 4, CurrencyOf(p), "0");
    AmountShows(m + 4, CurrencyOf(p), "0");
    AroundShows("fixedPrice", "", m + 4, amount, Under(["price"], data), m);
    assert "fixedPrice" + "" == "fixedPrice";
    var price := Elem("fixedPrice", "", On(m + 4, amount, Line(m)));
    AroundShows("fixed", TypeAttr("ONE_TIME"), m, price, Under(["fixedPrice"], Under(["price"], data)), 28);
    UnderUnder(["fixedPrice"], ["price"], data);
    UnderUnder([ONE_TIME], ["fixedPrice", "price"], data);
    assert ["fixedPrice"] + ["price"] == ["fixedPrice", "price"];
    assert [ONE_TIME] + ["fixedPrice", "price"] == [ONE_TIME, "fixedPrice", "price"];
  }

  lemma DurationShows(n: nat, unit: string, number: string, m: nat)
    requires Word("duration") && Word("unit") && Word("number") && '<' !in unit && '<' !in number
    ensures var doc := Elem("duration", "", On(n, Leaf("unit", unit), On(n, Leaf("number", number), Line(m))));
            Shows(doc, Under(["duration"], DurationData(unit, number))) && StartsElement(doc)
  {
    LeafShows("unit", unit);
    LeafShows("number", number);
    var inner := On(n, Leaf("number", number), Line(m));
    LastShows(n, Leaf("number", number), [Datum(["number"], number)], m);
    OnShows(n, Leaf("unit", unit), [Datum(["unit"], unit)], inner, [Datum(["number"], number)]);
    assert [Datum(["unit"], unit)] + [Datum(["number"], number)] == DurationData(unit, number);
    ElemShows("duration", "", On(n, Leaf("unit", unit), inner), DurationData(unit, number));
    assert "duration" + "" == "duration";
  }

  lemma UsagesShows(n: nat, m: nat)
    requires Word("usages")
    ensures Shows(On(n, Void("usages"), Line(m)), [Datum(["usages"], "")])
  {
    ShowsVoid("usages");
    LastShows(n, Void("usages"), [Datum(["usages"], "")], m);
  }

  lemma TrialShows(p: Plan, m: nat)
    requires p.trialDays > 0
    ensures Shows(TrialPhaseDoc(p, m), Under([TRIAL], TrialData(p.trialDays, CurrencyOf(p))))
    ensures StartsElement(TrialPhaseDoc(p, m))
  {
    PlanWords();
    PhaseWords();
    DurationWords();
    TypedTags();
    var fixed := Under([ONE_TIME, "fixedPrice", "price"], PriceData(CurrencyOf(p), "0"));
    var usages := On(28, Void("usages"), Line(24));
    UsagesShows(28, 24);
    FixedShows(p, m);
    OnShows(28, FixedDoc(p, m), fixed, usages, [Datum(["usages"], "")]);
    var inner := On(28, FixedDoc(p, m), usages);
    DurationShows(m, "DAYS", Decimal(p.trialDays), 28);
    OnShows(28, TrialDaysDoc(p, m), Under(["duration"], DurationData("DAYS", Decimal(p.trialDays))),
            inner, fixed + [Datum(["usages"], "")]);
    ElemShows("phase", TypeAttr("TRIAL"), On(28, TrialDaysDoc(p, m), inner), TrialData(p.trialDays, CurrencyOf(p)));
  }

  lemma InitialShows(p: Plan, m: nat)
    ensures Shows(InitialPhasesDoc(p, m), InitialData(p)) && StartsElement(InitialPhasesDoc(p, m))
  {
    PhaseWords();
    if p.trialDays > 0 {
      var data := TrialData(p.trialDays, CurrencyOf(p));
      TrialShows(p, m);
      AroundShows("initialPhases", "", 24, TrialPhaseDoc(p, m), Under([TRIAL], data), 20);
      assert "initialPhases" + "" == "initialPhases";
      UnderUnder(["initialPhases"], [TRIAL], data);
      assert ["initialPhases"] + [TRIAL] == ["initialPhases", TRIAL];
    } else {
      ShowsVoid("initialPhases");
    }
  }

  lemma RecurringShows(p: Plan, m: nat)
    ensures Shows(RecurringDoc(p, m),
                  Under(["recurring"], [Datum(["billingPeriod"], "MONTHLY")] +
                                       Under(["recurringPrice", "price"], PriceData(CurrencyOf(p), p.price))))
    ensures StartsElement(RecurringDoc(p, m))
  {
    RecurringWords();
    var data := PriceData(CurrencyOf(p), p.price);
    var amount := AmountDoc(m, CurrencyOf(p), p.price);
    AmountShows(m, CurrencyOf(p), p.price);
    AroundShows("recurringPrice", "", m, amount, Under(["price"], data), 28);
    assert "recurringPrice" + "" == "recurringPrice" && "recurring" + "" == "recurring";
    UnderUnder(["recurringPrice"], ["price"], data);
    assert ["recurringPrice"] + ["price"] == ["recurringPrice", "price"];
    var price := Elem("recurringPrice", "", On(m, amount, Line(28)));
    LastShows(28, price, Under(["recurringPrice", "price"], data), 24);
    LeafShows("billingPeriod", "MONTHLY");
    OnShows(28, Leaf("billingPeriod", "MONTHLY"), [Datum(["billingPeriod"], "MONTHLY")],
            On(28, price, Line(24)), Under(["recurringPrice", "price"], data));
    ElemShows("recurring", "", On(28, Leaf("billingPeriod", "MONTHLY"), On(28, price, Line(24))),
              [Datum(["billingPeriod"], "MONTHLY")] + Under(["recurringPrice", "price"], data));
  }

  lemma FinalShows(p: Plan, m: nat)
    ensures Shows(FinalPhaseDoc(p, m), Under([EVERGREEN], FinalData(CurrencyOf(p), p.price)))
    ensures StartsElement(FinalPhaseDoc(p, m))
  {
    PlanWords();
    PhaseWords();
    DurationWords();
    TypedTags();
    var recurring := Under(["recurring"], [Datum(["billingPeriod"], "MONTHLY")] +
                                          Under(["recurringPrice", "price"], PriceData(CurrencyOf(p), p.price)));
    var usages := On(24, Void("usages"), Line(20));
    UsagesShows(24, 20);
    RecurringShows(p, m);
    OnShows(24, RecurringDoc(p, m), recurring, usages, [Datum(["usages"], "")]);
    var inner := On(24, RecurringDoc(p, m), usages);
    DurationShows(28, "UNLIMITED", "-1", 24);
    OnShows(24, UnlimitedDoc(), Under(["duration"], DurationData("UNLIMITED", "-1")),
            inner, recurring + [Datum(["usages"], "")]);
    ElemShows("finalPhase", TypeAttr("EVERGREEN"), On(24, UnlimitedDoc(), inner), FinalData(CurrencyOf(p), p.price));
  }

  lemma PhasesShow(p: Plan, m: nat)
    ensures Shows(PhasesDoc(p, m), PhasesData(p))
  {
    BundleWord();
    var allowed := [Datum(["plansAllowedInBundle"], "-1")];
    var final := Under([EVERGREEN], FinalData(CurrencyOf(p), p.price));
    LeafShows("plansAllowedInBundle", "-1");
    LastShows(20, Leaf("plansAllowedInBundle", "-1"), allowed, 16);
    FinalShows(p, m);
    OnShows(20, FinalPhaseDoc(p, m), final, AllowedDoc(), allowed);
    InitialShows(p, m);
    OnShows(20, InitialPhasesDoc(p, m), InitialData(p), On(20, FinalPhaseDoc(p, m), AllowedDoc()), final + allowed);
  }

  lemma TwoLeavesShow(n: nat, name: string, text: string, other: string, more: string, rest: Doc, data: seq<Datum>)
    requires Word(name) && '<' !in text && Word(other) && '<' !in more && Inert(rest) && Shows(rest, data)
    ensures var doc := On(n, Leaf(name, text), On(n, Leaf(other, more), rest));
            Shows(doc, [Datum([name], text)] + ([Datum([other], more)] + data)) && Roomy(doc)
  {
    LeafShows(name, text);
    LeafShows(other, more);
    OnShows(n, Leaf(other, more), [Datum([other], more)], rest, data);
    OnShows(n, Leaf(name, text), [Datum([name], text)], On(n, Leaf(other, more), rest), [Datum([other], more)] + data);
  }

  lemma PlanBodyShows(p: Plan, m: nat)
    ensures Shows(PlanBody(p, m), PlanData(p)) && Roomy(PlanBody(p, m))
  {
    PlanWords();
    ModeWord();
    PhasesShow(p, m);
    TwoLeavesShow(20, "product", ProductOf(p), "recurringBillingMode", "IN_ADVANCE", PhasesDoc(p, m), PhasesData(p));
  }

  // ---------------------------------------------------------------- what a product says

  function ProductData(): seq<Datum> {
    [Datum(["category"], "BASE"), Datum(["included"], ""), Datum(["available"], ""), Datum(["limits"], "")]
  }

  lemma VoidShows(n: nat, name: string, rest: Doc, data: seq<Datum>)
    requires Word(name) && Inert(rest) && Shows(rest, data)
    ensures Shows(On(n, Void(name), rest), [Datum([name], "")] + data) && Roomy(On(n, Void(name), rest))
  {
    ShowsVoid(name);
    OnShows(n, Void(name), [Datum([name], "")], rest, data);
  }

  lemma ProductBodyShows(m: nat)
    ensures Shows(ProductBody(m), ProductData()) && Roomy(ProductBody(m))
  {
    ProductWords();
    LineShows(m);
    var limits := On(m + 4, Void("limits"), Line(m));
    var available := On(m + 4, Void("available"), limits);
    var included := On(m + 4, Void("included"), available);
    var x := [Datum(["limits"], "")] + [];
    var y := [Datum(["available"], "")] + x;
    VoidShows(m + 4, "limits", Line(m), []);
    VoidShows(m + 4, "available", limits, x);
    VoidShows(m + 4, "included", available, y);
    LeafShows("category", "BASE");
    OnShows(m + 4, Leaf("category", "BASE"), [Datum(["category"], "BASE")], included, [Datum(["included"], "")] + y);
    assert [Datum(["category"], "BASE")] + ([Datum(["included"], "")] + y) == ProductData();
  }

  // ---------------------------------------------------------------- the texts at a path

  /** The texts of the leaves at a path, in order. */
  function TextsAt(data: seq<Datum>, path: seq<string>): seq<string> {
    if data == [] then []
    else (if data[0].path == path then [data[0].text] else []) + TextsAt(data[1..], path)
  }

  lemma {:induction false} TextsAtAppend(x: seq<Datum>, y: seq<Datum>, path: seq<string>)
    ensures TextsAt(x + y, path) == TextsAt(x, path) + TextsAt(y, path)
    decreases |x|
  {
    if x == [] {
      assert x + y == y;
    } else {
      assert (x + y)[0] == x[0] && (x + y)[1..] == x[1..] + y;
      TextsAtAppend(x[1..], y, path);
    }
  }

  lemma {:induction false} TextsAtUnder(front: seq<string>, data: seq<Datum>, path: seq<string>)
    ensures TextsAt(Under(front, data), front + path) == TextsAt(data, path)
    decreases |data|
  {
    if data != [] {
      assert Under(front, data)[1..] == Under(front, data[1..]);
      assert front + data[0].path == front + path ==> data[0].path == path by {
        assert (front + data[0].path)[|front|..] == data[0].path && (front + path)[|front|..] == path;
      }
      TextsAtUnder(front, data[1..], path);
    }
  }

  lemma {:induction false} TextsAtElsewhere(first: string, front: seq<string>, data: seq<Datum>, path: seq<string>)
    requires path != [] && path[0] != first
    ensures TextsAt(Under([first] + front, data), path) == []
    decreases |data|
  {
    if data != [] {
      assert Under([first] + front, data)[1..] == Under([first] + front, data[1..]);
      assert ([first] + front + data[0].path)[0] == first;
      TextsAtElsewhere(first, front, data[1..], path);
    }
  }

  lemma TextsAtOne(at: seq<string>, text: string, path: seq<string>)
    ensures TextsAt([Datum(at, text)], path) == if at == path then [text] else []
  {
    assert [Datum(at, text)][1..] == [];
  }

  lemma PriceTexts(currency: string, amount: string)
    ensures TextsAt(PriceData(currency, amount), ["value"]) == [amount]
    ensures TextsAt(PriceData(currency, amount), ["currency"]) == [currency]
  {
    assert PriceData(currency, amount) == [Datum(["currency"], currency)] + [Datum(["value"], amount)];
    assert |"value"| != |"currency"|;
    assert ["value"][0] != ["currency"][0];
    TextsAtAppend([Datum(["currency"], currency)], [Datum(["value"], amount)], ["value"]);
    TextsAtAppend([Datum(["currency"], currency)], [Datum(["value"], amount)], ["currency"]);
    TextsAtOne(["currency"], currency, ["value"]);
    TextsAtOne(["currency"], currency, ["currency"]);
    TextsAtOne(["value"], amount, ["value"]);
    TextsAtOne(["value"], amount, ["currency"]);
  }

  /** In the final phase the last tag of the path picks the amount or the currency. */
  lemma FinalTexts(currency: string, price: string, last: string)
    ensures TextsAt(FinalData(currency, price), ["recurring", "recurringPrice", "price", last]) ==
            TextsAt(PriceData(currency, price), [last])
  {
    var path := ["recurring", "recurringPrice", "price", last];
    var duration := Under(["duration"], DurationData("UNLIMITED", "-1"));
    var amount := Under(["recurringPrice", "price"], PriceData(currency, price));
    var period := [Datum(["billingPeriod"], "MONTHLY")];
    var recurring := Under(["recurring"], period + amount);
    var usages := [Datum(["usages"], "")];
    assert |"duration"| != |"recurring"|;
    assert ["duration"] + [] == ["duration"];
    TextsAtElsewhere("duration", [], DurationData("UNLIMITED", "-1"), path);
    TextsAtOne(["usages"], "", path);
    TextsAtAppend(recurring, usages, path);
    TextsAtAppend(duration, recurring + usages, path);
    assert path == ["recurring"] + ["recurringPrice", "price", last];
    TextsAtUnder(["recurring"], period + amount, ["recurringPrice", "price", last]);
    TextsAtAppend(period, amount, ["recurringPrice", "price", last]);
    TextsAtOne(["billingPeriod"], "MONTHLY", ["recurringPrice", "price", last]);
    assert ["recurringPrice", "price", last] == ["recurringPrice", "price"] + [last];
    TextsAtUnder(["recurringPrice", "price"], PriceData(currency, price), [last]);
  }

  lemma TrialTexts(days: nat, currency: string)
    ensures TextsAt(TrialData(days, currency), ["duration", "number"]) == [Decimal(days)]
  {
    var path := ["duration", "number"];
    var unit, number := [Datum(["unit"], "DAYS")], [Datum(["number"], Decimal(days))];
    var fixed := Under([ONE_TIME, "fixedPrice", "price"], PriceData(currency, "0"));
    var usages := [Datum(["usages"], "")];
    assert path == ["duration"] + ["number"] && DurationData("DAYS", Decimal(days)) == unit + number;
    assert |"unit"| != |"number"|;
    assert ["unit"][0] != ["number"][0];
    TextsAtUnder(["duration"], unit + number, ["number"]);
    TextsAtAppend(unit, number, ["number"]);
    TextsAtOne(["unit"], "DAYS", ["number"]);
    TextsAtOne(["number"], Decimal(days), ["number"]);
    assert ONE_TIME[0] != "duration"[0];
    assert [ONE_TIME] + ["fixedPrice", "price"] == [ONE_TIME, "fixedPrice", "price"];
    TextsAtElsewhere(ONE_TIME, ["fixedPrice", "price"], PriceData(currency, "0"), path);
    TextsAtOne(["usages"], "", path);
    TextsAtAppend(fixed, usages, path);
    TextsAtAppend(Under(["duration"], unit + number), fixed + usages, path);
  }

  /** Which of the four parts of a plan's element a path leads into. */
  lemma PlanParts(p: Plan, path: seq<string>)
    requires path != []
    ensures path[0] == EVERGREEN ==>
              TextsAt(PlanData(p), path) ==
              TextsAt(Under([EVERGREEN], FinalData(CurrencyOf(p), p.price)), path)
    ensures path[0] == "initialPhases" ==> TextsAt(PlanData(p), path) == TextsAt(InitialData(p), path)
    ensures path == ["product"] ==> TextsAt(PlanData(p), path) == [ProductOf(p)]
  {
    var product, mode := [Datum(["product"], ProductOf(p))], [Datum(["recurringBillingMode"], "IN_ADVANCE")];
    var final, allowed := Under([EVERGREEN], FinalData(CurrencyOf(p), p.price)),
                          [Datum(["plansAllowedInBundle"], "-1")];
    TextsAtOne(["product"], ProductOf(p), path);
    TextsAtOne(["recurringBillingMode"], "IN_ADVANCE", path);
    TextsAtOne(["plansAllowedInBundle"], "-1", path);
    TextsAtAppend(final, allowed, path);
    TextsAtAppend(InitialData(p), final + allowed, path);
    TextsAtAppend(mode, PhasesData(p), path);
    TextsAtAppend(product, mode + PhasesData(p), path);
    PartTagsDiffer();
    if path[0] != EVERGREEN {
      assert [EVERGREEN] + [] == [EVERGREEN];
      TextsAtElsewhere(EVERGREEN, [], FinalData(CurrencyOf(p), p.price), path);
    }
    if path[0] != "initialPhases" {
      InitialTextsElsewhere(p, path);
    }
  }

  lemma InitialTextsElsewhere(p: Plan, path: seq<string>)
    requires path != [] && path[0] != "initialPhases"
    ensures TextsAt(InitialData(p), path) == []
  {
    if p.trialDays > 0 {
      assert ["initialPhases"] + [TRIAL] == ["initialPhases", TRIAL];
      TextsAtElsewhere("initialPhases", [TRIAL], TrialData(p.trialDays, CurrencyOf(p)), path);
    } else {
      TextsAtOne(["initialPhases"], "", path);
    }
  }

  lemma PartTagsDiffer()
    ensures EVERGREEN != "product" && EVERGREEN != "recurringBillingMode" && EVERGREEN != "plansAllowedInBundle"
    ensures EVERGREEN != "initialPhases" && "initialPhases" != "product"
    ensures "initialPhases" != "recurringBillingMode" && "initialPhases" != "plansAllowedInBundle"
    ensures "product" != "recurringBillingMode" && "product" != "plansAllowedInBundle"
  {
    assert EVERGREEN[0] == 'f' && "product"[0] == 'p' && "recurringBillingMode"[0] == 'r';
    assert "plansAllowedInBundle"[1] == 'l' && "product"[1] == 'r' && "initialPhases"[0] == 'i';
  }

  /** What a plan's element says about price, currency and product. */
  lemma PlanTexts(p: Plan)
    ensures TextsAt(PlanData(p), ["product"]) == [ProductOf(p)]
    ensures TextsAt(PlanData(p), [EVERGREEN, "recurring", "recurringPrice", "price", "value"]) == [p.price]
    ensures TextsAt(PlanData(p), [EVERGREEN, "recurring", "recurringPrice", "price", "currency"]) ==
            [if p.currency == "" then "INR" else p.currency]
  {
    PlanParts(p, ["product"]);
    PriceTexts(CurrencyOf(p), p.price);
    PriceTextAt(p, "value");
    PriceTextAt(p, "currency");
  }

  lemma PriceTextAt(p: Plan, last: string)
    ensures TextsAt(PlanData(p), [EVERGREEN, "recurring", "recurringPrice", "price", last]) ==
            TextsAt(PriceData(CurrencyOf(p), p.price), [last])
  {
    var path := ["recurring", "recurringPrice", "price", last];
    assert [EVERGREEN, "recurring", "recurringPrice", "price", last] == [EVERGREEN] + path;
    PlanParts(p, [EVERGREEN] + path);
    TextsAtUnder([EVERGREEN], FinalData(CurrencyOf(p), p.price), path);
    FinalTexts(CurrencyOf(p), p.price, last);
  }

  /** A trial phase is there exactly for a positive number of trial days, which its duration reads back as. */
  lemma TrialIff(p: Plan)
    ensures TextsAt(PlanData(p), ["initialPhases", TRIAL, "duration", "number"]) ==
            if p.trialDays > 0 then [Decimal(p.trialDays)] else []
    ensures p.trialDays > 0 ==> DigitsValue(Decimal(p.trialDays)) == p.trialDays
    ensures (exists d :: d in InitialData(p) && |d.path| > 1) <==> p.trialDays > 0
  {
    var path := ["initialPhases", TRIAL, "duration", "number"];
    PlanParts(p, path);
    if p.trialDays > 0 {
      assert path == ["initialPhases", TRIAL] + ["duration", "number"];
      TextsAtUnder(["initialPhases", TRIAL], TrialData(p.trialDays, CurrencyOf(p)), ["duration", "number"]);
      TrialTexts(p.trialDays, CurrencyOf(p));
      DecimalReadsBack(p.trialDays);
      assert InitialData(p)[0] in InitialData(p) && |InitialData(p)[0].path| > 1;
    } else {
      TextsAtOne(["initialPhases"], "", path);
    }
  }

  // ---------------------------------------------------------------- the name of a product

  lemma WithoutSpacesCons(c: char, rest: Value, all: Value)
    requires all == [c] + rest
    ensures WithoutSpaces(all) == (if c == ' ' then [] else [c]) + WithoutSpaces(rest)
  {
    assert all[1..] == rest;
  }

  /** Exactly the spaces are taken away, character by character: this leaves no other function. */
  lemma {:induction false} SpacesAreDropped(a: Value, b: Value, all: Value)
    requires all == a + b
    ensures WithoutSpaces(all) == WithoutSpaces(a) + WithoutSpaces(b)
    ensures |a| == 1 ==> WithoutSpaces(a) == if a[0] == ' ' then "" else a
    decreases |a|
  {
    if a == [] {
      assert all == b;
    } else {
      SpacesAreDropped(a[1..], b, all[1..]);
      WithoutSpacesCons(a[0], a[1..], a);
      WithoutSpacesCons(a[0], all[1..], all);
      assert |a| == 1 ==> a == [a[0]] && WithoutSpaces(a[1..]) == [];
    }
  }
}
