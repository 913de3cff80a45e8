/**
 * The suyac `send` command: turning its flags into options, then sending
 * one request template. Loading the project, gathering the output flags
 * and the HTTP send itself are calls into the suyac package; they are
 * parameters here.
 */
module Send {
  import opened Wrappers
  import opened Text
  import opened Sorting

  /** A timestamp recorded by the foreign send. */
  type Time = int

  /** The recorded request or response the foreign send returns, carried
      into history unread. */
  type Snapshot = string

  /** The output settings gathered from the output flags, carried unread. */
  datatype OutputControl = OutputControl(settings: seq<string>)

  /** A template's capture specification, handed to the send unread. */
  datatype CaptureSpec = CaptureSpec(varName: string, extraction: string)

  /** A request template, stored in the project under its lower-case name. */
  datatype Template = Template(
    name: string, httpMethod: string, url: string,
    headers: map<string, seq<string>>, body: seq<bv8>,
    captures: map<string, CaptureSpec>)

  datatype HistoryEntry = HistoryEntry(
    template: string, reqTime: Time, respTime: Time,
    request: Snapshot, response: Snapshot, captures: map<string, string>)

  /** The parts of a loaded project the command reads or changes. */
  datatype Project = Project(
    templates: map<string, Template>, recordHistory: bool, history: seq<HistoryEntry>)

  /** The command's options; oneTimeVars is None when no var flag was given. */
  datatype SendOptions = SendOptions(
    projFile: string, oneTimeVars: Option<map<string, string>>, outputCtrl: OutputControl)

  /** The options handed to the foreign send. */
  datatype RequestOptions = RequestOptions(
    vars: Option<map<string, string>>, body: seq<bv8>, headers: map<string, seq<string>>,
    output: OutputControl, captures: seq<CaptureSpec>)

  /** One call of the foreign send: method, URL, variable symbol, options. */
  datatype SendCall = SendCall(httpMethod: string, url: string, varSymbol: string, opts: RequestOptions)

  datatype SendResult = SendResult(
    sendTime: Time, recvTime: Time, request: Snapshot, response: Snapshot,
    captures: map<string, string>)

  /** What one run of the command does: the error it returns, the send call it
      makes (None when it never reaches the send) and the history it hands to
      the project's history persister (None when it persists none). */
  datatype Outcome = Outcome(
    err: Option<string>, call: Option<SendCall>, persisted: Option<seq<HistoryEntry>>)

  const EmptyProjectFileError: string := "project file is set to empty string"

  const VarSymbol: string := "$"

  // ---------------------------------------------------------------- var flags

  /** The position of the first var flag without a ':', or the number of flags
      when every flag has one. */
  function FirstMalformedVar(flags: seq<string>): (k: nat)
    ensures k <= |flags|
    ensures forall j :: 0 <= j < k ==> ':' in flags[j]
    ensures k < |flags| ==> ':' !in flags[k]
  {
    if |flags| == 0 then 0
    else if ':' !in flags[0] then 0
    else 1 + FirstMalformedVar(flags[1..])
  }

  /** The variable name of a "name:value" flag: the text before its first ':'. */
  function VarName(flag: string): string
    requires ':' in flag
  {
    SplitFirst(flag, ':').value.0
  }

  /** The value of a "name:value" flag: everything after its first ':'. */
  function VarValue(flag: string): string
    requires ':' in flag
  {
    SplitFirst(flag, ':').value.1
  }

  /** A name without ':' glued to any value by ':' splits back into that
      name and that value, even when the value is empty or holds colons. */
  lemma VarFlagSplitsAtFirstColon(name: string, value: string)
    requires ':' !in name
    ensures ':' in name + ":" + value
    ensures VarName(name + ":" + value) == name
    ensures VarValue(name + ":" + value) == value
  {
    SplitFirstOfJoined(name, ':', value);
  }

  /** The map the flags set, each flag in turn overwriting its name. */
  function VarsOf(flags: seq<string>): map<string, string>
    requires forall i :: 0 <= i < |flags| ==> ':' in flags[i]
  {
    if |flags| == 0 then map[]
    else
      var last := flags[|flags| - 1];
      VarsOf(flags[..|flags| - 1])[VarName(last) := VarValue(last)]
  }

  /** The names of a list of var flags. */
  ghost function NamesOf(flags: seq<string>): set<string>
    requires forall i :: 0 <= i < |flags| ==> ':' in flags[i]
  {
    set i | 0 <= i < |flags| :: VarName(flags[i])
  }

  lemma NamesOfLast(flags: seq<string>)
    requires |flags| > 0 && forall i :: 0 <= i < |flags| ==> ':' in flags[i]
    ensures NamesOf(flags) == NamesOf(flags[..|flags| - 1]) + {VarName(flags[|flags| - 1])}
  {
    var n := |flags| - 1;
    var init := flags[..n];
    forall k | k in NamesOf(flags) ensures k in NamesOf(init) + {VarName(flags[n])} {
      var i :| 0 <= i < |flags| && VarName(flags[i]) == k;
      if i < n {
        assert init[i] == flags[i];
      }
    }
    forall k | k in NamesOf(init) ensures k in NamesOf(flags) {
      var i :| 0 <= i < n && VarName(init[i]) == k;
      assert init[i] == flags[i];
    }
  }

  /** The names set are exactly the names of the flags. */
  lemma {:induction false} VarsOfNames(flags: seq<string>)
    requires forall i :: 0 <= i < |flags| ==> ':' in flags[i]
    ensures VarsOf(flags).Keys == NamesOf(flags)
  {
    if |flags| > 0 {
      VarsOfNames(flags[..|flags| - 1]);
      NamesOfLast(flags);
    }
  }

  /** A name holds the value of the last flag that names it. */
  lemma {:induction false} VarsOfLastWins(flags: seq<string>, i: nat)
    requires forall j :: 0 <= j < |flags| ==> ':' in flags[j]
    requires i < |flags|
    requires forall j :: i < j < |flags| ==> VarName(flags[j]) != VarName(flags[i])
    ensures VarName(flags[i]) in VarsOf(flags)
    ensures VarsOf(flags)[VarName(flags[i])] == VarValue(flags[i])
  {
    var n := |flags| - 1;
    if i < n {
      var init := flags[..n];
      assert init[i] == flags[i];
      forall j | i < j < n ensures VarName(init[j]) != VarName(init[i]) {
        assert init[j] == flags[j];
      }
      VarsOfLastWins(init, i);
    }
  }

  function VarFormatError(position: int, flag: string): string
  {
    "var #" + IntToDecimal(position) + " (" + Quote(flag) + ") is not in format key:value"
  }

  /** The result of reading the var flags: the error for the first flag
      without ':' (counting from 1), else no map for no flags, else the map. */
  function ParsedVars(flags: seq<string>): Result<Option<map<string, string>>, string>
  {
    var k := FirstMalformedVar(flags);
    if k < |flags| then Err(VarFormatError(k + 1, flags[k]))
    else if |flags| == 0 then Ok(None)
    else Ok(Some(VarsOf(flags)))
  }

  /** Reading fails exactly when some flag lacks a ':'. */
  lemma ParsedVarsFailsIffMalformed(flags: seq<string>)
    ensures ParsedVars(flags).Err? <==> exists j :: 0 <= j < |flags| && ':' !in flags[j]
  {
  }

  /** The error is for the first flag that lacks a ':'. */
  lemma ParsedVarsFailsOnMalformed(flags: seq<string>, i: nat)
    requires i < |flags| && ':' !in flags[i]
    requires forall j :: 0 <= j < i ==> ':' in flags[j]
    ensures ParsedVars(flags) == Err(VarFormatError(i + 1, flags[i]))
  {
  }

  /** The loop over the var flags. */
  method ParseVarFlags(flags: seq<string>) returns (r: Result<Option<map<string, string>>, string>)
    ensures r == ParsedVars(flags)
  {
    if |flags| == 0 {
      return Ok(None);
    }
    var oneTimeVars: map<string, string> := map[];
    for idx := 0 to |flags|
      invariant forall j :: 0 <= j < idx ==> ':' in flags[j]
      invariant oneTimeVars == VarsOf(flags[..idx])
    {
      var parts := SplitFirst(flags[idx], ':');
      if parts.None? {
        return Err(VarFormatError(idx + 1, flags[idx]));
      }
      assert flags[..idx + 1][..idx] == flags[..idx];
      oneTimeVars := oneTimeVars[parts.value.0 := parts.value.1];
    }
    assert flags[..|flags|] == flags;
    r := Ok(Some(oneTimeVars));
  }

  /** The options the flags give, or the first error: the project file check
      first, then the output flags, then the var flags. */
  function ParsedOptions(projFile: string, outputFlags: Result<OutputControl, string>, varFlags: seq<string>)
    : Result<SendOptions, string>
  {
    if projFile == "" then Err(EmptyProjectFileError)
    else if outputFlags.Err? then Err(outputFlags.error)
    else match ParsedVars(varFlags)
      case Err(e) => Err(e)
      case Ok(vars) => Ok(SendOptions(projFile, vars, outputFlags.value))
  }

  /** sendFlagsToOptions. */
  method SendFlagsToOptions(projFile: string, outputFlags: Result<OutputControl, string>, varFlags: seq<string>)
    returns (r: Result<SendOptions, string>)
    ensures r == ParsedOptions(projFile, outputFlags, varFlags)
  {
    if projFile == "" {
      return Err(EmptyProjectFileError);
    }
    if outputFlags.Err? {
      return Err(outputFlags.error);
    }
    var vars := ParseVarFlags(varFlags);
    if vars.Err? {
      return Err(vars.error);
    }
    r := Ok(SendOptions(projFile, vars.value, outputFlags.value));
  }

  /** An empty project file path is the error, whatever the other flags hold. */
  lemma EmptyProjectFileFirst(outputFlags: Result<OutputControl, string>, varFlags: seq<string>)
    ensures ParsedOptions("", outputFlags, varFlags) == Err(EmptyProjectFileError)
  {
  }

  // ---------------------------------------------------------------- invokeSend

  /** Looks the template up by its lower-case name and checks it can be sent:
      it must exist, then have a method, then have a URL. */
  function Validate(reqName: string, templates: map<string, Template>): (r: Result<Template, string>)
    ensures r.Ok? <==> (ToLower(reqName) in templates
      && templates[ToLower(reqName)].httpMethod != "" && templates[ToLower(reqName)].url != "")
    ensures r.Ok? ==> r.value == templates[ToLower(reqName)]
    ensures ToLower(reqName) !in templates ==> r == Err("no request template " + ToLower(reqName))
    ensures ToLower(reqName) in templates && templates[ToLower(reqName)].httpMethod == ""
      ==> r == Err("request template " + ToLower(reqName) + " has no method set")
    ensures ToLower(reqName) in templates && templates[ToLower(reqName)].httpMethod != ""
      && templates[ToLower(reqName)].url == ""
      ==> r == Err("request template " + ToLower(reqName) + " has no URL set")
  {
    var name := ToLower(reqName);
    if name !in templates then Err("no request template " + name)
    else if templates[name].httpMethod == "" then Err("request template " + name + " has no method set")
    else if templates[name].url == "" then Err("request template " + name + " has no URL set")
    else Ok(templates[name])
  }

  /** Names that differ only in letter case select the same template and
      fail in the same way. */
  lemma ValidateIgnoresCase(a: string, b: string, templates: map<string, Template>)
    requires SameIgnoringCase(a, b)
    ensures Validate(a, templates) == Validate(b, templates)
  {
    ToLowerNormalForm(a, b);
  }

  /** The template's capture specs in ascending order of their names. */
  ghost function OrderedCaptures(captures: map<string, CaptureSpec>): seq<CaptureSpec>
  {
    var names := SortedKeys(captures.Keys);
    seq(|names|, i requires 0 <= i < |names| => captures[names[i]])
  }

  /** There are as many ordered captures as the template has, every spec is
      among them, and the spec of a smaller name comes before that of a larger
      one. */
  lemma OrderedCapturesCoverAll(captures: map<string, CaptureSpec>)
    ensures |OrderedCaptures(captures)| == |captures|
    ensures forall k :: k in captures ==> captures[k] in OrderedCaptures(captures)
    ensures forall k1, k2 :: k1 in captures && k2 in captures && Less(k1, k2) ==>
      exists i, j :: 0 <= i < j < |OrderedCaptures(captures)|
        && OrderedCaptures(captures)[i] == captures[k1] && OrderedCaptures(captures)[j] == captures[k2]
  {
    var names := SortedKeys(captures.Keys);
    var ordered := OrderedCaptures(captures);
    assert |captures.Keys| == |captures|;
    forall k | k in captures ensures captures[k] in ordered {
      assert k in SetOf(names);
      var i :| 0 <= i < |names| && names[i] == k;
      assert ordered[i] == captures[k];
    }
    forall k1, k2 | k1 in captures && k2 in captures && Less(k1, k2)
      ensures exists i, j :: 0 <= i < j < |ordered| && ordered[i] == captures[k1] && ordered[j] == captures[k2]
    {
      assert k1 in SetOf(names) && k2 in SetOf(names);
      var i, j := SortedPositions(names, k1, k2);
      assert ordered[i] == captures[k1] && ordered[j] == captures[k2];
    }
  }

  ghost function CallFor(tmpl: Template, opts: SendOptions): SendCall
  {
    SendCall(tmpl.httpMethod, tmpl.url, VarSymbol,
      RequestOptions(opts.oneTimeVars, tmpl.body, tmpl.headers, opts.outputCtrl, OrderedCaptures(tmpl.captures)))
  }

  function EntryFor(tmpl: Template, result: SendResult): HistoryEntry
  {
    HistoryEntry(tmpl.name, result.sendTime, result.recvTime, result.request, result.response, result.captures)
  }

  /** What invokeSend does with a project loader and a send function. */
  ghost function SendSpec(
    reqName: string, opts: SendOptions,
    load: string -> Result<Project, string>, send: SendCall -> Result<SendResult, string>,
    persist: seq<HistoryEntry> -> Option<string>): Outcome
  {
    match load(opts.projFile)
    case Err(e) => Outcome(Some(e), None, None)
    case Ok(p) =>
      match Validate(reqName, p.templates)
      case Err(e) => Outcome(Some(e), None, None)
      case Ok(tmpl) =>
        var call := CallFor(tmpl, opts);
        match send(call)
        case Err(e) => Outcome(Some(e), Some(call), None)
        case Ok(result) =>
          if p.recordHistory then
            var history := p.history + [EntryFor(tmpl, result)];
            Outcome(persist(history), Some(call), Some(history))
          else Outcome(None, Some(call), None)
  }

  /** Sends only a template that exists and has a method and a URL. */
  lemma SendOnlyValidTemplates(
    reqName: string, opts: SendOptions,
    load: string -> Result<Project, string>, send: SendCall -> Result<SendResult, string>,
    persist: seq<HistoryEntry> -> Option<string>)
    ensures SendSpec(reqName, opts, load, send, persist).call.Some?
      <==> load(opts.projFile).Ok? && Validate(reqName, load(opts.projFile).value.templates).Ok?
    ensures SendSpec(reqName, opts, load, send, persist).call.Some? ==>
      var tmpl := load(opts.projFile).value.templates[ToLower(reqName)];
      var call := SendSpec(reqName, opts, load, send, persist).call.value;
      call.httpMethod == tmpl.httpMethod && call.url == tmpl.url && call.httpMethod != "" && call.url != ""
      && call.varSymbol == "$" && call.opts.vars == opts.oneTimeVars
      && |call.opts.captures| == |tmpl.captures|
  {
    if load(opts.projFile).Ok? && Validate(reqName, load(opts.projFile).value.templates).Ok? {
      OrderedCapturesCoverAll(load(opts.projFile).value.templates[ToLower(reqName)].captures);
    }
  }

  /** With recording on, a successful send persists the old history plus one
      entry at the end, made from the template's name and the send's result,
      and the persister's error is the command's; with it off, or when
      anything before it fails, nothing is persisted. */
  lemma HistoryGrowsByOne(
    reqName: string, opts: SendOptions,
    load: string -> Result<Project, string>, send: SendCall -> Result<SendResult, string>,
    persist: seq<HistoryEntry> -> Option<string>)
    ensures var out := SendSpec(reqName, opts, load, send, persist);
      out.persisted.Some? <==> out.call.Some? && send(out.call.value).Ok? && load(opts.projFile).value.recordHistory
    ensures var out := SendSpec(reqName, opts, load, send, persist);
      out.persisted.Some? ==> out.err == persist(out.persisted.value)
    ensures var out := SendSpec(reqName, opts, load, send, persist);
      out.persisted.Some? ==>
        var old_ := load(opts.projFile).value.history;
        var h := out.persisted.value;
        |h| == |old_| + 1 && h[..|old_|] == old_
        && h[|old_|].template == load(opts.projFile).value.templates[ToLower(reqName)].name
        && h[|old_|].reqTime == send(out.call.value).value.sendTime
        && h[|old_|].respTime == send(out.call.value).value.recvTime
        && h[|old_|].request == send(out.call.value).value.request
        && h[|old_|].response == send(out.call.value).value.response
        && h[|old_|].captures == send(out.call.value).value.captures
  {
  }

  /** invokeSend. */
  method InvokeSend(
    reqName: string, opts: SendOptions,
    load: string -> Result<Project, string>, send: SendCall -> Result<SendResult, string>,
    persist: seq<HistoryEntry> -> Option<string>)
    returns (out: Outcome)
    ensures out == SendSpec(reqName, opts, load, send, persist)
  {
    var loaded := load(opts.projFile);
    if loaded.Err? {
      return Outcome(Some(loaded.error), None, None);
    }
    var p := loaded.value;
    var checked := Validate(reqName, p.templates);
    if checked.Err? {
      return Outcome(Some(checked.error), None, None);
    }
    var tmpl := checked.value;

    var capVarNames := SortedNames(tmpl.captures.Keys);
    var captures: seq<CaptureSpec> := [];
    for i := 0 to |capVarNames|
      invariant |captures| == i
      invariant forall j :: 0 <= j < i ==>
        capVarNames[j] in tmpl.captures && captures[j] == tmpl.captures[capVarNames[j]]
    {
      assert capVarNames[i] in SetOf(capVarNames);
      captures := captures + [tmpl.captures[capVarNames[i]]];
    }
    assert captures == OrderedCaptures(tmpl.captures);
    var call := SendCall(tmpl.httpMethod, tmpl.url, VarSymbol,
      RequestOptions(opts.oneTimeVars, tmpl.body, tmpl.headers, opts.outputCtrl, captures));

    var result := send(call);
    if result.Err? {
      return Outcome(Some(result.error), Some(call), None);
    }
    if p.recordHistory {
      var entry := EntryFor(tmpl, result.value);
      var history := p.history + [entry];
      var persistErr := persist(history);
      return Outcome(persistErr, Some(call), Some(history));
    }
    out := Outcome(None, Some(call), None);
  }

  /** The command's RunE: options first, and the send only when they parse. */
  method RunSendCommand(
    reqName: string, projFile: string, outputFlags: Result<OutputControl, string>, varFlags: seq<string>,
    load: string -> Result<Project, string>, send: SendCall -> Result<SendResult, string>,
    persist: seq<HistoryEntry> -> Option<string>)
    returns (out: Outcome)
    ensures ParsedOptions(projFile, outputFlags, varFlags).Err? ==>
      out == Outcome(Some(ParsedOptions(projFile, outputFlags, varFlags).error), None, None)
    ensures ParsedOptions(projFile, outputFlags, varFlags).Ok? ==>
      out == SendSpec(reqName, ParsedOptions(projFile, outputFlags, varFlags).value, load, send, persist)
  {
    var opts := SendFlagsToOptions(projFile, outputFlags, varFlags);
    if opts.Err? {
      return Outcome(Some(opts.error), None, None);
    }
    out := InvokeSend(reqName, opts.value, load, send, persist);
  }
}
