/** The consumption-results parser: reads the `ScenarioResult` elements of a results
    document, skips the diagnostics scenario, and collects each scenario's
    `CounterResult` elements in document order. The XML text is taken already parsed,
    as an element tree; `bool.Parse` and `int.Parse` are supplied by the caller. */
module ConsumptionParser {
  import opened Wrappers

  datatype XAttribute = XAttribute(name: string, value: string)

  /** An element: its tag, its attributes, its text content (`XElement.Value`) and its
      child elements. */
  datatype Element = Element(tag: string, attributes: seq<XAttribute>, value: string, children: seq<Element>)

  /** `element.Attribute(name)?.Value`: the value of the first attribute of that name. */
  function AttributeValue(attributes: seq<XAttribute>, name: string): (r: Option<string>)
    ensures r.None? <==> forall k :: 0 <= k < |attributes| ==> attributes[k].name != name
    ensures r.Some? ==> exists k :: 0 <= k < |attributes| && attributes[k] == XAttribute(name, r.value)
  {
    if attributes == [] then None
    else if attributes[0].name == name then Some(attributes[0].value)
    else
      var r := AttributeValue(attributes[1..], name);
      assert forall k :: 1 <= k < |attributes| ==> attributes[1..][k - 1] == attributes[k];
      r
  }

  /** `Descendants(name)` of the elements `children` and everything below them, in
      document order (each element before its own descendants). */
  function DescendantsOf(children: seq<Element>, name: string): (r: seq<Element>)
    ensures forall k :: 0 <= k < |r| ==> r[k].tag == name
    decreases children
  {
    if children == [] then []
    else
      (if children[0].tag == name then [children[0]] else []) +
      DescendantsOf(children[0].children, name) +
      DescendantsOf(children[1..], name)
  }

  function Descendants(e: Element, name: string): seq<Element> {
    DescendantsOf(e.children, name)
  }

  /** The exception `Parse` ends with: a missing attribute (a null dereference in the
      source), or an attribute text that `bool.Parse` or `int.Parse` rejects. */
  datatype ParseError = MissingAttribute(attribute: string) | InvalidBool(text: string) | InvalidInt(text: string)

  datatype CounterResult = CounterResult(name: string, units: string, isDefault: bool, top: bool, iteration: int, value: string)

  datatype ScenarioResult = ScenarioResult(name: string, counters: seq<CounterResult>)

  datatype ConsumptionParse = ConsumptionParse(scenarios: seq<ScenarioResult>)

  const ScenarioTag: string := "ScenarioResult"
  const CounterTag: string := "CounterResult"
  const DiagnosticsScenario: string := "..TestDiagnostics.."


  /** The counter an element describes, its arguments read in the source's order: name,
      units, default flag, top flag, iteration, text. */
  function ParseCounter(counter: Element, parseBool: string -> Option<bool>, parseInt: string -> Option<int>): (r: Result<CounterResult, ParseError>)
    ensures AttributeValue(counter.attributes, "Name").None? ==> r == Failure(MissingAttribute("Name"))
    ensures var name, units := AttributeValue(counter.attributes, "Name"), AttributeValue(counter.attributes, "Units");
            var isDefault, top := AttributeValue(counter.attributes, "Default"), AttributeValue(counter.attributes, "Top");
            var iteration := AttributeValue(counter.attributes, "Iteration");
            (r.Success? <==>
               name.Some? && units.Some? &&
               isDefault.Some? && parseBool(isDefault.value).Some? &&
               top.Some? && parseBool(top.value).Some? &&
               iteration.Some? && parseInt(iteration.value).Some?) &&
            (r.Success? ==>
               r.value == CounterResult(name.value, units.value, parseBool(isDefault.value).value,
                                        parseBool(top.value).value, parseInt(iteration.value).value, counter.value))
  {
    var name := AttributeValue(counter.attributes, "Name");
    var units := AttributeValue(counter.attributes, "Units");
    var isDefault := AttributeValue(counter.attributes, "Default");
    var top := AttributeValue(counter.attributes, "Top");
    var iteration := AttributeValue(counter.attributes, "Iteration");
    if name.None? then Failure(MissingAttribute("Name"))
    else if units.None? then Failure(MissingAttribute("Units"))
    else if isDefault.None? then Failure(MissingAttribute("Default"))
    else if parseBool(isDefault.value).None? then Failure(InvalidBool(isDefault.value))
    else if top.None? then Failure(MissingAttribute("Top"))
    else if parseBool(top.value).None? then Failure(InvalidBool(top.value))
    else if iteration.None? then Failure(MissingAttribute("Iteration"))
    else if parseInt(iteration.value).None? then Failure(InvalidInt(iteration.value))
    else Success(CounterResult(name.value, units.value, parseBool(isDefault.value).value,
                               parseBool(top.value).value, parseInt(iteration.value).value, counter.value))
  }

  /** Every failure of `ParseCounter` names one of its attributes that is absent, or an
      attribute text that `bool.Parse` or `int.Parse` rejects. */
  lemma ParseCounterFailure(counter: Element, parseBool: string -> Option<bool>, parseInt: string -> Option<int>)
    ensures var r := ParseCounter(counter, parseBool, parseInt);
            r.Failure? ==>
              match r.error
              case MissingAttribute(a) =>
                a in ["Name", "Units", "Default", "Top", "Iteration"] && AttributeValue(counter.attributes, a).None?
              case InvalidBool(t) =>
                parseBool(t).None? &&
                (AttributeValue(counter.attributes, "Default") == Some(t) || AttributeValue(counter.attributes, "Top") == Some(t))
              case InvalidInt(t) =>
                parseInt(t).None? && AttributeValue(counter.attributes, "Iteration") == Some(t)
  {
  }

  /** Every value in order when every step succeeded; otherwise the first failure. */
  function Collect<T, E>(results: seq<Result<T, E>>): (r: Result<seq<T>, E>)
    ensures r.Success? <==> forall k :: 0 <= k < |results| ==> results[k].Success?
    ensures r.Success? ==>
              |r.value| == |results| &&
              forall k :: 0 <= k < |results| ==> results[k] == Success(r.value[k])
    decreases |results|
  {
    if results == [] then Success([])
    else
      var n := |results| - 1;
      var front := results[..n];
      assert forall k :: 0 <= k < n ==> front[k] == results[k];
      match Collect(front)
      case Failure(e) => Failure(e)
      case Success(prefix) =>
        match results[n]
        case Failure(e) => Failure(e)
        case Success(x) => Success(prefix + [x])
  }

  /** A failure among the first steps is the failure of the whole run. */
  lemma {:induction false} CollectFailurePersists<T, E>(results: seq<Result<T, E>>, i: nat)
    requires i <= |results|
    requires Collect(results[..i]).Failure?
    ensures Collect(results) == Collect(results[..i])
    decreases |results|
  {
    if i < |results| {
      var front := results[..|results| - 1];
      assert front[..i] == results[..i];
      CollectFailurePersists(front, i);
    } else {
      assert results[..i] == results;
    }
  }

  /** The error of a failed run is that of its first failing step. */
  lemma {:induction false} CollectFirstFailure<T, E>(results: seq<Result<T, E>>)
    requires Collect(results).Failure?
    ensures exists k :: 0 <= k < |results| && results[k] == Failure(Collect(results).error) &&
              forall j :: 0 <= j < k ==> results[j].Success?
    decreases |results|
  {
    var n := |results| - 1;
    var front := results[..n];
    assert forall k :: 0 <= k < n ==> front[k] == results[k];
    if Collect(front).Failure? {
      CollectFirstFailure(front);
    } else {
      assert forall j :: 0 <= j < n ==> results[j].Success?;
    }
  }

  /** As `Collect`, but a step that succeeds with `None` contributes nothing. */
  function CollectKept<T, E>(results: seq<Result<Option<T>, E>>): (r: Result<seq<T>, E>)
    ensures r.Success? <==> forall k :: 0 <= k < |results| ==> results[k].Success?
    ensures r.Success? ==> |r.value| <= |results|
    decreases |results|
  {
    if results == [] then Success([])
    else
      var n := |results| - 1;
      var front := results[..n];
      assert forall k :: 0 <= k < n ==> front[k] == results[k];
      match CollectKept(front)
      case Failure(e) => Failure(e)
      case Success(prefix) =>
        match results[n]
        case Failure(e) => Failure(e)
        case Success(None) => Success(prefix)
        case Success(Some(x)) => Success(prefix + [x])
  }

  lemma {:induction false} CollectKeptFailurePersists<T, E>(results: seq<Result<Option<T>, E>>, i: nat)
    requires i <= |results|
    requires CollectKept(results[..i]).Failure?
    ensures CollectKept(results) == CollectKept(results[..i])
    decreases |results|
  {
    if i < |results| {
      var front := results[..|results| - 1];
      assert front[..i] == results[..i];
      CollectKeptFailurePersists(front, i);
    } else {
      assert results[..i] == results;
    }
  }

  function CounterResults(counters: seq<Element>, parseBool: string -> Option<bool>, parseInt: string -> Option<int>): seq<Result<CounterResult, ParseError>> {
    seq(|counters|, k requires 0 <= k < |counters| => ParseCounter(counters[k], parseBool, parseInt))
  }

  /** One scenario: `None` for the diagnostics scenario, which is skipped. */
  function ParseScenario(scenario: Element, parseBool: string -> Option<bool>, parseInt: string -> Option<int>): (r: Result<Option<ScenarioResult>, ParseError>)
    ensures AttributeValue(scenario.attributes, "Name").None? ==> r == Failure(MissingAttribute("Name"))
    ensures r == Success(None) <==> AttributeValue(scenario.attributes, "Name") == Some(DiagnosticsScenario)
    ensures r.Success? && r.value.Some? ==> Some(r.value.value.name) == AttributeValue(scenario.attributes, "Name")
  {
    var name := AttributeValue(scenario.attributes, "Name");
    if name.None? then Failure(MissingAttribute("Name"))
    else if name.value == DiagnosticsScenario then Success(None)
    else
      match Collect(CounterResults(Descendants(scenario, CounterTag), parseBool, parseInt))
      case Failure(e) => Failure(e)
      case Success(counters) => Success(Some(ScenarioResult(name.value, counters)))
  }

  /** On success each kept scenario carries the parsed `CounterResult` descendants of its
      element, all of them, in document order. */
  lemma ParseScenarioCounters(scenario: Element, result: ScenarioResult, parseBool: string -> Option<bool>, parseInt: string -> Option<int>)
    requires ParseScenario(scenario, parseBool, parseInt) == Success(Some(result))
    ensures |result.counters| == |Descendants(scenario, CounterTag)|
    ensures forall k :: 0 <= k < |result.counters| ==>
              ParseCounter(Descendants(scenario, CounterTag)[k], parseBool, parseInt) == Success(result.counters[k])
  {
    var counters := Descendants(scenario, CounterTag);
    assert Collect(CounterResults(counters, parseBool, parseInt)).Success?;
  }

  function ScenarioResults(scenarios: seq<Element>, parseBool: string -> Option<bool>, parseInt: string -> Option<int>): seq<Result<Option<ScenarioResult>, ParseError>> {
    seq(|scenarios|, k requires 0 <= k < |scenarios| => ParseScenario(scenarios[k], parseBool, parseInt))
  }

  /** The names of the scenarios `Parse` keeps: every name but the diagnostics one, in
      document order. */
  function KeptNames(scenarios: seq<Element>): (names: seq<string>)
    ensures forall k :: 0 <= k < |names| ==> names[k] != DiagnosticsScenario
  {
    if scenarios == [] then []
    else
      var n := |scenarios| - 1;
      var name := AttributeValue(scenarios[n].attributes, "Name");
      KeptNames(scenarios[..n]) + (if name.Some? && name.value != DiagnosticsScenario then [name.value] else [])
  }

  /** The scenario elements `Parse` keeps: those with a name other than the diagnostics
      one, in document order. */
  function KeptElements(scenarios: seq<Element>): (kept: seq<Element>)
    ensures forall k :: 0 <= k < |kept| ==>
              AttributeValue(kept[k].attributes, "Name").Some? &&
              AttributeValue(kept[k].attributes, "Name").value != DiagnosticsScenario
    ensures |kept| <= |scenarios|
  {
    if scenarios == [] then []
    else
      var n := |scenarios| - 1;
      var name := AttributeValue(scenarios[n].attributes, "Name");
      KeptElements(scenarios[..n]) + (if name.Some? && name.value != DiagnosticsScenario then [scenarios[n]] else [])
  }

  function Names(results: seq<ScenarioResult>): seq<string> {
    seq(|results|, k requires 0 <= k < |results| => results[k].name)
  }

  /** A successful run keeps what its last step keeps, after what the earlier steps kept. */
  lemma CollectKeptLast<T, E>(results: seq<Result<Option<T>, E>>)
    requires |results| > 0 && CollectKept(results).Success?
    ensures var n := |results| - 1;
            CollectKept(results[..n]).Success? &&
            CollectKept(results).value ==
              CollectKept(results[..n]).value + (if results[n].value.Some? then [results[n].value.value] else [])
  {
  }

  lemma ScenarioResultsFront(scenarios: seq<Element>, n: nat, parseBool: string -> Option<bool>, parseInt: string -> Option<int>)
    requires n <= |scenarios|
    ensures ScenarioResults(scenarios, parseBool, parseInt)[..n] == ScenarioResults(scenarios[..n], parseBool, parseInt)
  {
  }

  /** The positions of the steps that succeed with a value, in order. */
  function SomeIndices<T, E>(results: seq<Result<Option<T>, E>>): (idx: seq<nat>)
    ensures forall k :: 0 <= k < |idx| ==> idx[k] < |results|
  {
    if results == [] then []
    else
      var n := |results| - 1;
      SomeIndices(results[..n]) + (if results[n].Success? && results[n].value.Some? then [n] else [])
  }

  /** A successful run keeps exactly the values of the steps at `SomeIndices`, in order. */
  lemma {:induction false} CollectKeptAt<T, E>(results: seq<Result<Option<T>, E>>)
    requires CollectKept(results).Success?
    ensures var out, idx := CollectKept(results).value, SomeIndices(results);
            |out| == |idx| && forall k :: 0 <= k < |idx| ==> results[idx[k]] == Success(Some(out[k]))
  {
    if results != [] {
      var n := |results| - 1;
      var front := results[..n];
      CollectKeptLast(results);
      CollectKeptAt(front);
      var out, idx := CollectKept(results).value, SomeIndices(results);
      var outFront, idxFront := CollectKept(front).value, SomeIndices(front);
      forall k | 0 <= k < |idx|
        ensures results[idx[k]] == Success(Some(out[k]))
      {
        if k < |idxFront| {
          assert idx[k] == idxFront[k] && out[k] == outFront[k];
          assert front[idx[k]] == results[idx[k]];
        }
      }
    }
  }

  /** The kept scenario elements are those whose parse yields a scenario. */
  lemma {:induction false} KeptElementsAt(scenarios: seq<Element>, parseBool: string -> Option<bool>, parseInt: string -> Option<int>)
    requires CollectKept(ScenarioResults(scenarios, parseBool, parseInt)).Success?
    ensures var idx := SomeIndices(ScenarioResults(scenarios, parseBool, parseInt));
            |KeptElements(scenarios)| == |idx| &&
            forall k :: 0 <= k < |idx| ==> KeptElements(scenarios)[k] == scenarios[idx[k]]
  {
    if scenarios != [] {
      var n := |scenarios| - 1;
      var front := scenarios[..n];
      var results := ScenarioResults(scenarios, parseBool, parseInt);
      CollectKeptLast(results);
      ScenarioResultsFront(scenarios, n, parseBool, parseInt);
      KeptElementsAt(front, parseBool, parseInt);
      var last := ParseScenario(scenarios[n], parseBool, parseInt);
      assert results[n] == last;
      var name := AttributeValue(scenarios[n].attributes, "Name");
      assert last.value.Some? <==> name.Some? && name.value != DiagnosticsScenario;
      var idx, idxFront := SomeIndices(results), SomeIndices(results[..n]);
      var kept, keptFront := KeptElements(scenarios), KeptElements(front);
      forall k | 0 <= k < |idx|
        ensures kept[k] == scenarios[idx[k]]
      {
        if k < |idxFront| {
          assert idx[k] == idxFront[k] && kept[k] == keptFront[k];
          assert front[idx[k]] == scenarios[idx[k]];
        }
      }
    }
  }

  /** On success the `k`-th output scenario is the parse of the `k`-th kept scenario
      element, so it holds that element's counters. */
  lemma ParseScenariosKeepsElements(scenarios: seq<Element>, parseBool: string -> Option<bool>, parseInt: string -> Option<int>)
    requires CollectKept(ScenarioResults(scenarios, parseBool, parseInt)).Success?
    ensures var out := CollectKept(ScenarioResults(scenarios, parseBool, parseInt)).value;
            |out| == |KeptElements(scenarios)| &&
            forall k :: 0 <= k < |out| ==> ParseScenario(KeptElements(scenarios)[k], parseBool, parseInt) == Success(Some(out[k]))
  {
    var results := ScenarioResults(scenarios, parseBool, parseInt);
    var out, idx, kept := CollectKept(results).value, SomeIndices(results), KeptElements(scenarios);
    CollectKeptAt(results);
    KeptElementsAt(scenarios, parseBool, parseInt);
    forall k | 0 <= k < |out|
      ensures ParseScenario(kept[k], parseBool, parseInt) == Success(Some(out[k]))
    {
      assert kept[k] == scenarios[idx[k]];
      assert results[idx[k]] == ParseScenario(scenarios[idx[k]], parseBool, parseInt);
    }
  }

  /** The kept names are the names of the kept elements. */
  lemma {:induction false} KeptNamesOfElements(scenarios: seq<Element>)
    ensures |KeptNames(scenarios)| == |KeptElements(scenarios)|
    ensures forall k :: 0 <= k < |KeptNames(scenarios)| ==>
              Some(KeptNames(scenarios)[k]) == AttributeValue(KeptElements(scenarios)[k].attributes, "Name")
  {
    if scenarios != [] {
      KeptNamesOfElements(scenarios[..|scenarios| - 1]);
    }
  }

  /** On success the output has one scenario per kept input scenario, with the same names
      in the same order. */
  lemma ParseScenariosKeepsOrder(scenarios: seq<Element>, parseBool: string -> Option<bool>, parseInt: string -> Option<int>)
    requires CollectKept(ScenarioResults(scenarios, parseBool, parseInt)).Success?
    ensures Names(CollectKept(ScenarioResults(scenarios, parseBool, parseInt)).value) == KeptNames(scenarios)
  {
    var out := CollectKept(ScenarioResults(scenarios, parseBool, parseInt)).value;
    var kept := KeptElements(scenarios);
    ParseScenariosKeepsElements(scenarios, parseBool, parseInt);
    KeptNamesOfElements(scenarios);
    forall k | 0 <= k < |out|
      ensures Names(out)[k] == KeptNames(scenarios)[k]
    {
      assert ParseScenario(kept[k], parseBool, parseInt) == Success(Some(out[k]));
    }
  }

  /** Hence the output has exactly as many scenarios as there are kept input scenarios,
      and the diagnostics scenario is never among them. */
  lemma ParseScenariosSkipsDiagnostics(scenarios: seq<Element>, parseBool: string -> Option<bool>, parseInt: string -> Option<int>)
    requires CollectKept(ScenarioResults(scenarios, parseBool, parseInt)).Success?
    ensures var out := CollectKept(ScenarioResults(scenarios, parseBool, parseInt)).value;
            |out| == |KeptNames(scenarios)| &&
            forall k :: 0 <= k < |out| ==> out[k].name != DiagnosticsScenario
  {
    var out := CollectKept(ScenarioResults(scenarios, parseBool, parseInt)).value;
    ParseScenariosKeepsOrder(scenarios, parseBool, parseInt);
    assert forall k :: 0 <= k < |out| ==> out[k].name == Names(out)[k];
  }

  /** On success every output scenario lists, in document order, the parsed
      `CounterResult` descendants of the kept scenario element it comes from. */
  lemma ParseKeepsCounterOrder(scenarios: seq<Element>, k: nat, parseBool: string -> Option<bool>, parseInt: string -> Option<int>)
    requires CollectKept(ScenarioResults(scenarios, parseBool, parseInt)).Success?
    requires k < |CollectKept(ScenarioResults(scenarios, parseBool, parseInt)).value|
    ensures var out := CollectKept(ScenarioResults(scenarios, parseBool, parseInt)).value;
            k < |KeptElements(scenarios)| &&
            var counters := Descendants(KeptElements(scenarios)[k], CounterTag);
            |out[k].counters| == |counters| &&
            forall j :: 0 <= j < |counters| ==> ParseCounter(counters[j], parseBool, parseInt) == Success(out[k].counters[j])
  {
    var out := CollectKept(ScenarioResults(scenarios, parseBool, parseInt)).value;
    ParseScenariosKeepsElements(scenarios, parseBool, parseInt);
    ParseScenarioCounters(KeptElements(scenarios)[k], out[k], parseBool, parseInt);
  }

  /** `ConsumptionParse.Parse`, over the already parsed document. `document` stands for
      the document node, whose children hold the root element, so that `Descendants`
      reaches the root as `XDocument.Descendants` does. */
  function ParseDocument(document: Element, parseBool: string -> Option<bool>, parseInt: string -> Option<int>): Result<ConsumptionParse, ParseError>
  {
    match CollectKept(ScenarioResults(Descendants(document, ScenarioTag), parseBool, parseInt))
    case Failure(e) => Failure(e)
    case Success(scenarios) => Success(ConsumptionParse(scenarios))
  }

  /** `Parse`'s inner loop: the counters of one scenario, appended in order, stopping at
      the first that does not parse. */
  method ParseCounterElements(counters: seq<Element>, parseBool: string -> Option<bool>, parseInt: string -> Option<int>)
    returns (r: Result<seq<CounterResult>, ParseError>)
    ensures r == Collect(CounterResults(counters, parseBool, parseInt))
  {
    ghost var results := CounterResults(counters, parseBool, parseInt);
    var countersOut: seq<CounterResult> := [];
    var j := 0;
    while j < |counters|
      invariant 0 <= j <= |counters|
      invariant Collect(results[..j]) == Success(countersOut)
    {
      assert results[..j + 1][..j] == results[..j];
      var counter := ParseCounter(counters[j], parseBool, parseInt);
      if counter.Failure? {
        CollectFailurePersists(results, j + 1);
        assert results[..|counters|] == results;
        return Failure(counter.error);
      }
      countersOut := countersOut + [counter.value];
      j := j + 1;
    }
    assert results[..j] == results;
    return Success(countersOut);
  }

  /** The body of `Parse`'s outer loop for one scenario element: its name, then the
      inner loop over its `CounterResult` descendants. */
  method ParseScenarioElement(scenario: Element, parseBool: string -> Option<bool>, parseInt: string -> Option<int>)
    returns (r: Result<Option<ScenarioResult>, ParseError>)
    ensures r == ParseScenario(scenario, parseBool, parseInt)
  {
    var name := AttributeValue(scenario.attributes, "Name");
    if name.None? {
      return Failure(MissingAttribute("Name"));
    }
    if name.value == DiagnosticsScenario {
      return Success(None);
    }
    var counters := ParseCounterElements(Descendants(scenario, CounterTag), parseBool, parseInt);
    if counters.Failure? {
      return Failure(counters.error);
    }
    return Success(Some(ScenarioResult(name.value, counters.value)));
  }

  /** `ConsumptionParse.Parse`: the loop over the document's scenarios. */
  method Parse(document: Element, parseBool: string -> Option<bool>, parseInt: string -> Option<int>)
    returns (r: Result<ConsumptionParse, ParseError>)
    ensures r == ParseDocument(document, parseBool, parseInt)
  {
    var scenarios := Descendants(document, ScenarioTag);
    ghost var results := ScenarioResults(scenarios, parseBool, parseInt);
    var scenariosOut: seq<ScenarioResult> := [];
    var i := 0;
    while i < |scenarios|
      invariant 0 <= i <= |scenarios|
      invariant CollectKept(results[..i]) == Success(scenariosOut)
    {
      assert results[..i + 1][..i] == results[..i];
      var scenario := ParseScenarioElement(scenarios[i], parseBool, parseInt);
      if scenario.Failure? {
        CollectKeptFailurePersists(results, i + 1);
        assert results[..|scenarios|] == results;
        return Failure(scenario.error);
      }
      if scenario.value.Some? {
        scenariosOut := scenariosOut + [scenario.value.value];
      }
      i := i + 1;
    }
    assert results[..i] == results;
    return Success(ConsumptionParse(scenariosOut));
  }

  /** The `ScenarioResult` indexer: the first counter with the given name, or none. */
  method CounterNamed(scenario: ScenarioResult, name: string) returns (r: Option<CounterResult>)
    ensures r.None? <==> forall k :: 0 <= k < |scenario.counters| ==> scenario.counters[k].name != name
    ensures r.Some? ==>
              exists k :: 0 <= k < |scenario.counters| && scenario.counters[k] == r.value && r.value.name == name &&
                forall j :: 0 <= j < k ==> scenario.counters[j].name != name
  {
    var i := 0;
    while i < |scenario.counters|
      invariant 0 <= i <= |scenario.counters|
      invariant forall j :: 0 <= j < i ==> scenario.counters[j].name != name
    {
      var counter := scenario.counters[i];
      if counter.name == name {
        return Some(counter);
      }
      i := i + 1;
    }
    return None;
  }
}
