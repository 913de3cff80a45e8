/**
 * The morc `flows` command: its attribute keys and the flow listing it
 * prints. The command's RunE checks the project file path and then always
 * lists; the step-editing flags it registers are never applied.
 */
module Flows {
  import opened Wrappers
  import opened Text
  import opened Sorting
  import opened CmdIO

  /** A step of a flow: the name of the request template it calls. */
  datatype FlowStep = FlowStep(template: string)

  /** A named, ordered sequence of request-template calls. */
  datatype Flow = Flow(name: string, steps: seq<FlowStep>)

  /** A flow attribute key. Like the Go string type it stands for, it can hold
      any text; only the keys in FlowAttrKeys are valid. */
  datatype FlowKey = FlowKey(key: string)
  {
    function Name(): string
    {
      key
    }

    /** The human-readable description of the key; an unknown key is quoted
        in the message, which reads back as the key. */
    function Human(): (r: string)
      ensures this == NameKey ==> r == "flow name"
      ensures this != NameKey ==>
        |r| > |UnknownKeyPrefix| && r[..|UnknownKeyPrefix|] == UnknownKeyPrefix
        && Unquote(r[|UnknownKeyPrefix|..]) == Some(key)
    {
      if this == NameKey then "flow name"
      else
        QuoteRoundTrip(key);
        UnknownKeyPrefix + Quote(key)
    }
  }

  const UnknownKeyPrefix: string := "unknown flow key "

  const NameKey: FlowKey := FlowKey("NAME")

  /** The valid keys, in the order they are listed in messages. */
  const FlowAttrKeys: seq<FlowKey> := [NameKey]

  /** The names of the valid keys, in order. */
  function AttrKeyNames(): (names: seq<string>)
    ensures |names| == |FlowAttrKeys|
    ensures forall i :: 0 <= i < |names| ==> names[i] == FlowAttrKeys[i].Name()
  {
    seq(|FlowAttrKeys|, i requires 0 <= i < |FlowAttrKeys| => FlowAttrKeys[i].Name())
  }

  /** Fills a slice of the valid keys' names, one per key, in order; the
      result is AttrKeyNames(), which the error message below joins. */
  method FlowAttrKeyNames() returns (names: seq<string>)
    ensures |names| == |FlowAttrKeys|
    ensures forall i :: 0 <= i < |names| ==> names[i] == FlowAttrKeys[i].Name()
    ensures names == AttrKeyNames()
  {
    var slots := new string[|FlowAttrKeys|];
    for i := 0 to |FlowAttrKeys|
      invariant forall j :: 0 <= j < i ==> slots[j] == FlowAttrKeys[j].Name()
    {
      slots[i] := FlowAttrKeys[i].Name();
    }
    names := slots[..];
  }

  function InvalidAttrError(s: string): string
  {
    "invalid attribute " + Quote(s) + "; must be one of " + Join(AttrKeyNames(), ", ")
  }

  /** Parses an attribute key in any letter case. */
  function ParseFlowAttrKey(s: string): Result<FlowKey, string>
  {
    if ToUpper(s) == NameKey.Name() then Ok(NameKey) else Err(InvalidAttrError(s))
  }

  /** Exactly the sixteen casings of "name" parse, and they parse to NAME. */
  lemma ParseFlowAttrKeyAnyCase(s: string)
    ensures ParseFlowAttrKey(s).Ok?
        <==> |s| == 4 && forall i :: 0 <= i < 4 ==> s[i] == "NAME"[i] || s[i] == "name"[i]
    ensures ParseFlowAttrKey(s).Ok? ==> ParseFlowAttrKey(s).value == NameKey
  {
  }

  /** A rejected attribute's message names every valid key. */
  lemma ParseFlowAttrKeyErrorListsKeys(s: string, i: nat)
    requires ParseFlowAttrKey(s).Err? && i < |FlowAttrKeys|
    ensures Contains(ParseFlowAttrKey(s).error, FlowAttrKeys[i].Name())
  {
    JoinContainsEach(AttrKeyNames(), ", ", i);
    ContainsWithin("invalid attribute " + Quote(s) + "; must be one of ", Join(AttrKeyNames(), ", "), "", FlowAttrKeys[i].Name());
    assert InvalidAttrError(s) + "" == InvalidAttrError(s);
  }

  /** Every valid key's name parses back to that key. */
  lemma ParseFlowAttrKeyRoundTrip(i: nat)
    requires i < |FlowAttrKeys|
    ensures ParseFlowAttrKey(FlowAttrKeys[i].Name()) == Ok(FlowAttrKeys[i])
  {
  }

  // ---------------------------------------------------------------- listing

  /** The '!' printed after a flow name when the flow cannot be executed. */
  function Marker(execable: bool): string
  {
    if execable then "" else "!"
  }

  /** One listing line: "<name>:<!> <n> request<s>", where the '!' marks a
      flow that cannot be executed and the 's' is dropped for one step. */
  function FlowLine(f: Flow, execable: bool): string
  {
    f.name + ":" + Marker(execable) + " "
      + IntToDecimal(|f.steps|) + " request" + (if |f.steps| == 1 then "" else "s")
  }

  /** The step count in a listing line is CountOf(n, "request"). */
  lemma FlowLineIsCountOf(f: Flow, execable: bool)
    ensures FlowLine(f, execable) == f.name + ":" + Marker(execable) + " " + CountOf(|f.steps|, "request", [])
  {
  }

  lemma LinePieces(name: string, marker: string, count: string)
    requires |count| > 0 && count[0] != '!'
    ensures var line := name + ":" + marker + " " + count;
      && |line| > |name| + 2
      && line[..|name|] == name
      && line[|name|] == ':'
      && line[|name| + |marker| + 2..] == count
      && (marker == "" ==> line[|name| + 1] != '!')
      && (marker == "!" ==> line[|name| + 1] == '!')
  {
  }

  /** "n request(s)" reads back as n and the form chosen for it. */
  lemma RequestCountReadsBack(n: nat)
    ensures ParseCount(CountOf(n, "request", [])) == Some((n, if n == 1 then "request" else "requests"))
  {
    CountOfRoundTrip(n, "request", []);
    assert SingularForm("request", []) == "request";
    assert PluralForm("request", []) == "requests";
  }

  lemma FlowLineSplits(f: Flow, execable: bool)
    ensures CountOf(|f.steps|, "request", [])[0] != '!'
    ensures FlowLine(f, execable) == f.name + ":" + Marker(execable) + " " + CountOf(|f.steps|, "request", [])
  {
    IntToDecimalRoundTrip(|f.steps|);
    assert CountOf(|f.steps|, "request", [])[0] == IntToDecimal(|f.steps|)[0];
    FlowLineIsCountOf(f, execable);
  }

  /** A listing line reads back as the flow's name, the '!' exactly for a
      flow that is not execable, and the step count with "request" in
      singular for one step and plural otherwise. */
  lemma FlowLineReadsBack(f: Flow, execable: bool)
    ensures |FlowLine(f, execable)| > |f.name| + 2
    ensures FlowLine(f, execable)[..|f.name|] == f.name
    ensures FlowLine(f, execable)[|f.name|] == ':'
    ensures FlowLine(f, execable)[|f.name| + 1] == '!' <==> !execable
    ensures ParseCount(FlowLine(f, execable)[|f.name| + |Marker(execable)| + 2..])
         == Some((|f.steps|, if |f.steps| == 1 then "request" else "requests"))
  {
    FlowLineSplits(f, execable);
    LinePieces(f.name, Marker(execable), CountOf(|f.steps|, "request", []));
    RequestCountReadsBack(|f.steps|);
  }

  /** The lines the listing prints for a project's flows, keyed by name. */
  ghost function Listing(flows: map<string, Flow>, isExecable: string -> bool): seq<string>
  {
    if |flows| == 0 then ["(none)"]
    else
      var names := SortedKeys(flows.Keys);
      seq(|names|, i requires 0 <= i < |names| => FlowLine(flows[names[i]], isExecable(names[i])))
  }

  /** A non-empty project lists one line per flow, every flow appears, and
      the line of a smaller key comes before the line of a larger one. */
  lemma ListingOneLinePerFlow(flows: map<string, Flow>, isExecable: string -> bool)
    requires |flows| > 0
    ensures |Listing(flows, isExecable)| == |flows|
    ensures forall k :: k in flows ==> FlowLine(flows[k], isExecable(k)) in Listing(flows, isExecable)
    ensures forall k1, k2 :: k1 in flows && k2 in flows && Less(k1, k2) ==>
      exists i, j :: 0 <= i < j < |Listing(flows, isExecable)|
        && Listing(flows, isExecable)[i] == FlowLine(flows[k1], isExecable(k1))
        && Listing(flows, isExecable)[j] == FlowLine(flows[k2], isExecable(k2))
  {
    var names := SortedKeys(flows.Keys);
    var lines := Listing(flows, isExecable);
    assert |flows.Keys| == |flows|;
    forall k | k in flows ensures FlowLine(flows[k], isExecable(k)) in lines {
      assert k in SetOf(names);
      var i :| 0 <= i < |names| && names[i] == k;
      assert lines[i] == FlowLine(flows[k], isExecable(k));
    }
    forall k1, k2 | k1 in flows && k2 in flows && Less(k1, k2)
      ensures exists i, j ::
        0 <= i < j < |lines| && lines[i] == FlowLine(flows[k1], isExecable(k1)) && lines[j] == FlowLine(flows[k2], isExecable(k2))
    {
      assert k1 in SetOf(names) && k2 in SetOf(names);
      var i, j := SortedPositions(names, k1, k2);
      assert lines[i] == FlowLine(flows[k1], isExecable(k1)) && lines[j] == FlowLine(flows[k2], isExecable(k2));
    }
  }

  /** Prints the project's flows: "(none)" when there are none, else one line
      per flow in ascending order of name. */
  method ListFlows(flows: map<string, Flow>, isExecable: string -> bool) returns (lines: seq<string>)
    ensures lines == Listing(flows, isExecable)
  {
    if |flows| == 0 {
      lines := ["(none)"];
    } else {
      var sortedNames := SortedNames(flows.Keys);
      lines := [];
      for i := 0 to |sortedNames|
        invariant |lines| == i
        invariant forall j :: 0 <= j < i ==>
          sortedNames[j] in flows && lines[j] == FlowLine(flows[sortedNames[j]], isExecable(sortedNames[j]))
      {
        assert sortedNames[i] in SetOf(sortedNames);
        var f := flows[sortedNames[i]];
        lines := lines + [FlowLine(f, isExecable(sortedNames[i]))];
      }
    }
  }

  const EmptyProjectFileError: string := "project file is set to empty string"

  /** The step-editing and creation flags the command accepts; RunE reads none
      of them. */
  datatype FlowFlags = FlowFlags(
    createNew: bool, delete: bool,
    removals: seq<int>, adds: seq<string>, moves: seq<string>)

  /** RunE: rejects an empty project file path, then loads the project and
      lists its flows, whatever flags were given. */
  method RunFlowsCommand(
    projFile: string, flags: FlowFlags,
    load: string -> Result<map<string, Flow>, string>, isExecable: string -> bool)
    returns (r: Result<seq<string>, string>)
    ensures projFile == "" ==> r == Err(EmptyProjectFileError)
    ensures projFile != "" && load(projFile).Err? ==> r == Err(load(projFile).error)
    ensures projFile != "" && load(projFile).Ok? ==> r == Ok(Listing(load(projFile).value, isExecable))
  {
    if projFile == "" {
      return Err(EmptyProjectFileError);
    }
    var loaded := load(projFile);
    if loaded.Err? {
      return Err(loaded.error);
    }
    var lines := ListFlows(loaded.value, isExecable);
    r := Ok(lines);
  }
}
