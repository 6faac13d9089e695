/** The multi-action controller: it checks the request type, resolves the action method,
    registers one argument per action parameter, attaches the validators declared for
    the action, picks a view and calls the action, appending what it returns (or the
    rendered view) to the response. Reflection (method_exists, getMethodParameters, the
    validator resolver), the called action itself and the view's rendering are oracles
    passed in as parameters. */
module ActionControllers {
  import opened Common
  import opened Arguments

  const ActionSuffix := "Action"
  const ErrorMethodName := "errorAction"
  const TemplateViewClass := "Tx_Fluid_View_TemplateView"
  const EmptyViewClass := "Tx_Extbase_MVC_View_EmptyView"

  /** Exception codes. */
  const UnsupportedRequestTypeCode := 1187701131
  const NoSuchArgumentCode := 1239853108
  const NoSuchActionCode := 1186669086

  /** PHP_EOL on the platforms the framework runs on. */
  const Eol := "\n"

  // ---------------------------------------------------------------------------------
  // Action method name

  /** resolveActionMethodName: the request's action name followed by `Action`, which must
      be a method of the controller. */
  function ResolveActionMethodName(actionName: string, methods: set<string>): (r: Result<string, Exception>)
    ensures r.Success? <==> actionName + ActionSuffix in methods
    ensures r.Success? ==> r.value == actionName + ActionSuffix && r.value in methods
    ensures r.Failure? ==> r.error == NoSuchAction(actionName + ActionSuffix, NoSuchActionCode)
  {
    var name := actionName + ActionSuffix;
    if name !in methods then Failure(NoSuchAction(name, NoSuchActionCode)) else Success(name)
  }

  /** The per-action initialisation hook: `initialize` followed by the action method name
      with its first letter upper-cased. */
  function InitializeHookName(actionMethodName: string): (r: string)
    ensures |r| == |"initialize"| + |actionMethodName|
    ensures r[..|"initialize"|] == "initialize"
    ensures actionMethodName != [] ==>
      r[|"initialize"|] == UpperChar(actionMethodName[0]) && r[|"initialize"| + 1..] == actionMethodName[1..]
  {
    "initialize" + UcFirst(actionMethodName)
  }

  // ---------------------------------------------------------------------------------
  // View object name

  const ExtensionMarker := "@extension"
  const ControllerMarker := "@controller"
  const ActionMarker := "@action"

  /** `Tx_@extension_View_@controller_@action`. */
  const ViewObjectNamePattern := "Tx_" + ExtensionMarker + "_View_" + ControllerMarker + "_" + ActionMarker

  /** The view object name the pattern gives, replacing the markers in turn; the action
      name is upper-cased first. */
  function ViewObjectName(pattern: string, extensionName: string, controllerName: string, actionName: string): string {
    var withExtension := Replace(pattern, ExtensionMarker, extensionName);
    var withController := Replace(withExtension, ControllerMarker, controllerName);
    Replace(withController, ActionMarker, UcFirst(actionName))
  }

  /** The controller and action markers pass the extension marker's replacement
      unchanged: they differ from it in their second character. */
  lemma ExtensionSkipsMarkers(x: string)
    ensures Replace(ControllerMarker + "_" + ActionMarker, ExtensionMarker, x) == ControllerMarker + "_" + ActionMarker
  {
    var t := ControllerMarker + "_" + ActionMarker;
    assert t[1] != ExtensionMarker[1];
    assert t[1..] == "controller_" + ActionMarker;
    ReplaceAfterPlain("controller_", ActionMarker, ExtensionMarker, x);
  }

  /** The rest of the default pattern passes the extension marker's replacement
      unchanged. */
  lemma ExtensionReplaceSkipsLater(x: string)
    ensures Replace("_View_" + ControllerMarker + "_" + ActionMarker, ExtensionMarker, x)
      == "_View_" + ControllerMarker + "_" + ActionMarker
  {
    var t := ControllerMarker + "_" + ActionMarker;
    assert "_View_" + ControllerMarker + "_" + ActionMarker == "_View_" + t;
    ReplaceAfterPlain("_View_", t, ExtensionMarker, x);
    ExtensionSkipsMarkers(x);
  }

  /** The action marker passes the controller marker's replacement unchanged. */
  lemma ControllerReplaceSkipsLater(x: string)
    ensures Replace("_" + ActionMarker, ControllerMarker, x) == "_" + ActionMarker
  {
    ReplaceAfterPlain("_", ActionMarker, ControllerMarker, x);
  }

  /** Replacing the extension marker in the default pattern. */
  lemma ExtensionStep(extensionName: string)
    requires '@' !in extensionName
    ensures Replace(ViewObjectNamePattern, ExtensionMarker, extensionName)
      == "Tx_" + extensionName + ("_View_" + ControllerMarker + "_" + ActionMarker)
  {
    var tail := "_View_" + ControllerMarker + "_" + ActionMarker;
    assert ViewObjectNamePattern == "Tx_" + (ExtensionMarker + tail);
    ReplaceAfterPlain("Tx_", ExtensionMarker + tail, ExtensionMarker, extensionName);
    ReplaceAtFront(ExtensionMarker, tail, extensionName);
    ExtensionReplaceSkipsLater(extensionName);
  }

  /** Replacing the controller marker after the extension marker was replaced. */
  lemma ControllerStep(extensionName: string, controllerName: string)
    requires '@' !in extensionName
    ensures Replace("Tx_" + extensionName + ("_View_" + ControllerMarker + "_" + ActionMarker), ControllerMarker, controllerName)
      == "Tx_" + extensionName + "_View_" + controllerName + ("_" + ActionMarker)
  {
    var head := "Tx_" + extensionName + "_View_";
    var tail := "_" + ActionMarker;
    assert "Tx_" + extensionName + ("_View_" + ControllerMarker + "_" + ActionMarker) == head + (ControllerMarker + tail);
    assert '@' !in head;
    ReplaceAfterPlain(head, ControllerMarker + tail, ControllerMarker, controllerName);
    ReplaceAtFront(ControllerMarker, tail, controllerName);
    ControllerReplaceSkipsLater(controllerName);
  }

  /** Replacing the action marker after the other two were replaced. */
  lemma ActionStep(extensionName: string, controllerName: string, action: string)
    requires '@' !in extensionName && '@' !in controllerName
    ensures Replace("Tx_" + extensionName + "_View_" + controllerName + ("_" + ActionMarker), ActionMarker, action)
      == "Tx_" + extensionName + "_View_" + controllerName + "_" + action
  {
    var head := "Tx_" + extensionName + "_View_" + controllerName + "_";
    assert "Tx_" + extensionName + "_View_" + controllerName + ("_" + ActionMarker) == head + (ActionMarker + []);
    assert '@' !in head;
    ReplaceAfterPlain(head, ActionMarker + [], ActionMarker, action);
    ReplaceAtFront(ActionMarker, [], action);
  }

  /** With names free of `@`, the default pattern gives
      `Tx_<extension>_View_<controller>_<Action>`. */
  lemma ViewObjectNameOfDefaultPattern(extensionName: string, controllerName: string, actionName: string)
    requires '@' !in extensionName && '@' !in controllerName
    ensures ViewObjectName(ViewObjectNamePattern, extensionName, controllerName, actionName)
      == "Tx_" + extensionName + "_View_" + controllerName + "_" + UcFirst(actionName)
  {
    ExtensionStep(extensionName);
    ControllerStep(extensionName, controllerName);
    ActionStep(extensionName, controllerName, UcFirst(actionName));
  }

  /** resolveViewObjectName: the name the pattern gives when that class exists, else the
      default view object name when it is set and exists, else nothing (FALSE). */
  function ResolveViewObjectName(pattern: string, extensionName: string, controllerName: string, actionName: string,
                                 defaultViewObjectName: Option<string>, env: Environment): (r: Option<string>)
    ensures r.Some? ==> env.ClassExists(r.value)
    ensures r.Some? ==>
      r.value == ViewObjectName(pattern, extensionName, controllerName, actionName) || Some(r.value) == defaultViewObjectName
    ensures env.ClassExists(ViewObjectName(pattern, extensionName, controllerName, actionName)) ==>
      r == Some(ViewObjectName(pattern, extensionName, controllerName, actionName))
    ensures r.None? <==>
      (!env.ClassExists(ViewObjectName(pattern, extensionName, controllerName, actionName))
       && (defaultViewObjectName.None? || !env.ClassExists(defaultViewObjectName.value)))
  {
    var possible := ViewObjectName(pattern, extensionName, controllerName, actionName);
    if env.ClassExists(possible) then Some(possible)
    else if defaultViewObjectName.Some? && env.ClassExists(defaultViewObjectName.value) then defaultViewObjectName
    else None
  }

  /** resolveView: the Fluid template view when it has a template, else the resolved view
      object, else the empty view. */
  function ResolveViewClass(hasTemplate: bool, resolved: Option<string>): (r: string)
    ensures hasTemplate ==> r == TemplateViewClass
    ensures !hasTemplate && resolved.Some? ==> r == resolved.value
    ensures !hasTemplate && resolved.None? ==> r == EmptyViewClass
  {
    if hasTemplate then TemplateViewClass
    else if resolved.None? then EmptyViewClass
    else resolved.value
  }

  /** Without a template, the view is an existing class or the empty view. */
  lemma ViewFallsBack(hasTemplate: bool, pattern: string, extensionName: string, controllerName: string,
                      actionName: string, defaultViewObjectName: Option<string>, env: Environment)
    requires !hasTemplate
    ensures var v := ResolveViewClass(hasTemplate,
        ResolveViewObjectName(pattern, extensionName, controllerName, actionName, defaultViewObjectName, env));
      env.ClassExists(v) || v == EmptyViewClass
    ensures var v := ResolveViewClass(hasTemplate,
        ResolveViewObjectName(pattern, extensionName, controllerName, actionName, defaultViewObjectName, env));
      v == EmptyViewClass ==>
        (env.ClassExists(EmptyViewClass) || !env.ClassExists(ViewObjectName(pattern, extensionName, controllerName, actionName)))
  {
  }

  // ---------------------------------------------------------------------------------
  // Response content

  /** What calling the action adds to the response: the rendered view when the action
      returns NULL and there is a view, the result when it is a non-empty string, and
      nothing otherwise. */
  function AppendedContent(actionResult: Mixed, hasView: bool, rendered: string): (r: string)
    ensures actionResult.Null? && hasView ==> r == rendered
    ensures actionResult.Str? && actionResult.s != [] ==> r == actionResult.s
    ensures r != [] ==> (actionResult.Null? && hasView && r == rendered) || (actionResult.Str? && r == actionResult.s)
  {
    if actionResult.Null? && hasView then rendered
    else if actionResult.Str? && |actionResult.s| > 0 then actionResult.s
    else []
  }

  // ---------------------------------------------------------------------------------
  // The error action's message

  /** The line listing one message: the prefix, the message and PHP_EOL. */
  function Line(prefix: string, message: string): string {
    prefix + message + Eol
  }

  /** One line per message, in order. */
  function Lines(prefix: string, messages: seq<string>): string
    decreases |messages|
  {
    if messages == [] then []
    else Lines(prefix, messages[..|messages| - 1]) + Line(prefix, messages[|messages| - 1])
  }

  /** The first line of the error action's message, naming the controller and the
      action method. */
  function ErrorHeader(controllerClass: string, actionMethodName: string): string {
    "An error occurred while trying to call " + controllerClass + "->" + actionMethodName + "()." + Eol
  }

  /** The message errorAction returns: a header line naming the controller and the
      action method, then one `Error:` line per error and one `Warning:` line per
      warning. */
  function ErrorMessage(controllerClass: string, actionMethodName: string, errors: seq<string>, warnings: seq<string>): string {
    ErrorHeader(controllerClass, actionMethodName) + Lines("Error:   ", errors) + Lines("Warning: ", warnings)
  }

  /** How often `c` occurs in `s`. */
  function Occurrences(s: string, c: char): (n: nat)
    ensures n <= |s|
    decreases |s|
  {
    if s == [] then 0 else (if s[|s| - 1] == c then 1 else 0) + Occurrences(s[..|s| - 1], c)
  }

  lemma {:induction false} OccurrencesAppend(a: string, b: string, c: char)
    ensures Occurrences(a + b, c) == Occurrences(a, c) + Occurrences(b, c)
    decreases |b|
  {
    if b == [] {
      assert a + b == a;
    } else {
      assert (a + b)[..|a + b| - 1] == a + b[..|b| - 1];
      OccurrencesAppend(a, b[..|b| - 1], c);
    }
  }

  lemma {:induction false} OccurrencesAbsent(s: string, c: char)
    requires c !in s
    ensures Occurrences(s, c) == 0
    decreases |s|
  {
    if s != [] {
      OccurrencesAbsent(s[..|s| - 1], c);
    }
  }

  /** Messages without a line break give exactly one line each. */
  lemma {:induction false} LinesCount(prefix: string, messages: seq<string>)
    requires '\n' !in prefix
    requires forall i :: 0 <= i < |messages| ==> '\n' !in messages[i]
    ensures Occurrences(Lines(prefix, messages), '\n') == |messages|
    decreases |messages|
  {
    if messages != [] {
      var init := messages[..|messages| - 1];
      var last := messages[|messages| - 1];
      LinesCount(prefix, init);
      OccurrencesAppend(Lines(prefix, init), Line(prefix, last), '\n');
      OccurrencesAppend(prefix + last, Eol, '\n');
      OccurrencesAppend(prefix, last, '\n');
      OccurrencesAbsent(prefix, '\n');
      OccurrencesAbsent(last, '\n');
    }
  }

  /** The message has one line for the header and one per error and per warning, when
      none of the names or messages breaks a line. */
  lemma ErrorMessageLines(controllerClass: string, actionMethodName: string, errors: seq<string>, warnings: seq<string>)
    requires '\n' !in controllerClass && '\n' !in actionMethodName
    requires forall i :: 0 <= i < |errors| ==> '\n' !in errors[i]
    requires forall i :: 0 <= i < |warnings| ==> '\n' !in warnings[i]
    ensures Occurrences(ErrorMessage(controllerClass, actionMethodName, errors, warnings), '\n')
      == 1 + |errors| + |warnings|
  {
    var h, e, w := ErrorHeader(controllerClass, actionMethodName), Lines("Error:   ", errors), Lines("Warning: ", warnings);
    HeaderLines(controllerClass, actionMethodName);
    OccurrencesAppend(h + e, w, '\n');
    OccurrencesAppend(h, e, '\n');
    LinesCount("Error:   ", errors);
    LinesCount("Warning: ", warnings);
  }

  /** The header is one line when neither name breaks a line. */
  lemma HeaderLines(controllerClass: string, actionMethodName: string)
    requires '\n' !in controllerClass && '\n' !in actionMethodName
    ensures Occurrences(ErrorHeader(controllerClass, actionMethodName), '\n') == 1
  {
    var header := "An error occurred while trying to call " + controllerClass + "->" + actionMethodName + "().";
    assert ErrorHeader(controllerClass, actionMethodName) == header + Eol;
    OccurrencesAbsent(header, '\n');
    OccurrencesAppend(header, Eol, '\n');
  }

  /** Listing two runs of messages lists the first run, then the second. */
  lemma {:induction false} LinesAppend(prefix: string, a: seq<string>, b: seq<string>)
    ensures Lines(prefix, a + b) == Lines(prefix, a) + Lines(prefix, b)
    decreases |b|
  {
    if b == [] {
      assert a + b == a;
    } else {
      var init, last := b[..|b| - 1], b[|b| - 1];
      assert (a + b)[..|a + b| - 1] == a + init;
      assert (a + b)[|a + b| - 1] == last;
      LinesAppend(prefix, a, init);
    }
  }

  /** Message k is listed on a line of its own, `prefix + messages[k]`, after the lines
      of the messages before it and before the lines of those after it. */
  lemma LinesAt(prefix: string, messages: seq<string>, k: nat)
    requires k < |messages|
    ensures Lines(prefix, messages)
         == Lines(prefix, messages[..k]) + Line(prefix, messages[k]) + Lines(prefix, messages[k + 1..])
  {
    var before, m, after := messages[..k], messages[k], messages[k + 1..];
    assert messages == (before + [m]) + after;
    LinesAppend(prefix, before + [m], after);
    assert Lines(prefix, before + [m]) == Lines(prefix, before) + Line(prefix, m) by {
      assert (before + [m])[..|before + [m]| - 1] == before;
    }
  }

  /** In the error action's message, error k is the line `Error:   ` + errors[k], with
      the header and the errors before it above it, and the errors after it and all the
      warnings below it. */
  lemma ErrorLineAt(controllerClass: string, actionMethodName: string, errors: seq<string>, warnings: seq<string>, k: nat)
    requires k < |errors|
    ensures ErrorMessage(controllerClass, actionMethodName, errors, warnings)
         == ErrorHeader(controllerClass, actionMethodName) + Lines("Error:   ", errors[..k])
            + Line("Error:   ", errors[k]) + Lines("Error:   ", errors[k + 1..]) + Lines("Warning: ", warnings)
  {
    var h, w := ErrorHeader(controllerClass, actionMethodName), Lines("Warning: ", warnings);
    var before, line, after := Lines("Error:   ", errors[..k]), Line("Error:   ", errors[k]), Lines("Error:   ", errors[k + 1..]);
    LinesAt("Error:   ", errors, k);
    calc {
      ErrorMessage(controllerClass, actionMethodName, errors, warnings);
      h + (before + line + after) + w;
      { AppendAssoc(h, before + line, after); AppendAssoc(h, before, line); }
      h + before + line + after + w;
    }
  }

  /** In the error action's message, warning k is the line `Warning: ` + warnings[k], with
      the header, all the errors and the warnings before it above it, and the warnings
      after it below it. */
  lemma WarningLineAt(controllerClass: string, actionMethodName: string, errors: seq<string>, warnings: seq<string>, k: nat)
    requires k < |warnings|
    ensures ErrorMessage(controllerClass, actionMethodName, errors, warnings)
         == ErrorHeader(controllerClass, actionMethodName) + Lines("Error:   ", errors) + Lines("Warning: ", warnings[..k])
            + Line("Warning: ", warnings[k]) + Lines("Warning: ", warnings[k + 1..])
  {
    var he := ErrorHeader(controllerClass, actionMethodName) + Lines("Error:   ", errors);
    var before, line, after := Lines("Warning: ", warnings[..k]), Line("Warning: ", warnings[k]), Lines("Warning: ", warnings[k + 1..]);
    LinesAt("Warning: ", warnings, k);
    calc {
      ErrorMessage(controllerClass, actionMethodName, errors, warnings);
      he + (before + line + after);
      { AppendAssoc(he, before + line, after); AppendAssoc(he, before, line); }
      he + before + line + after;
    }
  }

  // ---------------------------------------------------------------------------------
  // Requests and responses

  /** A request, as far as the controller reads and changes it. */
  class Request {
    /** The request's class, checked against the controller's supported request types. */
    const requestType: string
    const controllerExtensionName: string
    const controllerName: string
    const controllerActionName: string
    var dispatched: bool
    var errors: seq<string>

    constructor(requestType: string, extensionName: string, controllerName: string, actionName: string)
      ensures this.requestType == requestType && controllerExtensionName == extensionName
      ensures this.controllerName == controllerName && controllerActionName == actionName
      ensures !dispatched && errors == []
    {
      this.requestType := requestType;
      this.controllerExtensionName := extensionName;
      this.controllerName := controllerName;
      this.controllerActionName := actionName;
      this.dispatched := false;
      this.errors := [];
    }

    method SetDispatched(flag: bool)
      modifies this
      ensures dispatched == flag && errors == old(errors)
    {
      dispatched := flag;
    }

    method SetErrors(errors: seq<string>)
      modifies this
      ensures this.errors == errors && dispatched == old(dispatched)
    {
      this.errors := errors;
    }
  }

  /** A response whose content the controller appends to. */
  class Response {
    var content: string

    constructor()
      ensures content == []
    {
      content := [];
    }

    method AppendContent(s: string)
      modifies this
      ensures content == old(content) + s
    {
      content := content + s;
    }
  }

  // ---------------------------------------------------------------------------------
  // Arguments of the action method

  /** A PHP identifier: never empty. */
  type Identifier = s: string | |s| >= 1 witness "a"

  /** What reflection reports about one parameter of the action method. */
  datatype ParameterInfo = ParameterInfo(
    name: Identifier,
    typeName: Option<string>,
    isArray: bool,
    optional: Mixed,
    defaultValue: Mixed)

  /** The data type registered for a parameter: its declared type, else `array` for an
      array parameter, else `Text`. */
  function ParameterDataType(p: ParameterInfo): (t: string)
    ensures p.typeName.Some? ==> t == p.typeName.value
    ensures p.typeName.None? && p.isArray ==> t == "array"
    ensures p.typeName.None? && !p.isArray ==> t == DefaultDataType
  {
    if p.typeName.Some? then p.typeName.value else if p.isArray then "array" else DefaultDataType
  }

  /** The argument registered for a parameter: named after it, of its data type,
      required exactly when the parameter is reported as not optional (the strict
      comparison `optional === FALSE`), with the parameter's default value. */
  function ArgumentFor(p: ParameterInfo, env: Environment): ArgumentFields {
    var t := ParameterDataType(p);
    ArgumentFields(p.name, None, t, env.HasClassSchema(t), p.optional == Bool(false), Null, p.defaultValue, None, false)
  }

  /** Only a parameter reported as the boolean FALSE for `optional` is required: a
      missing flag (NULL) or a falsy value of another type is not. */
  lemma RequiredOnlyForStrictFalse(p: ParameterInfo, env: Environment)
    ensures ArgumentFor(p, env).isRequired ==> !Truthy(p.optional)
    ensures p.optional.Null? || p.optional == Int(0) || p.optional == Str("") ==> !ArgumentFor(p, env).isRequired
  {
  }

  /** Where the argument of a given name is in the collection, if it is. */
  function IndexOf(args: seq<Argument>, name: string): (r: Option<nat>)
    ensures r.Some? ==> r.value < |args| && args[r.value].name == name
    ensures r.Some? ==> forall j :: 0 <= j < r.value ==> args[j].name != name
    ensures r.None? <==> forall j :: 0 <= j < |args| ==> args[j].name != name
    decreases |args|
  {
    if args == [] then None
    else if args[0].name == name then Some(0)
    else match IndexOf(args[1..], name)
      case None => None
      case Some(i) => Some(i + 1)
  }

  /** The collection is keyed by argument name. */
  predicate DistinctNames(args: seq<Argument>) {
    forall i, j :: 0 <= i < j < |args| ==> args[i].name != args[j].name
  }

  /** Replacing an argument by one of the same name moves no name. */
  lemma {:induction false} IndexOfUpdate(args: seq<Argument>, k: nat, a: Argument, n: string)
    requires k < |args| && a.name == args[k].name
    ensures IndexOf(args[k := a], n) == IndexOf(args, n)
    decreases |args|
  {
    if k == 0 {
      assert args[k := a][1..] == args[1..];
    } else {
      assert args[k := a][1..] == args[1..][k - 1 := a];
      IndexOfUpdate(args[1..], k - 1, a, n);
    }
  }

  /** Appending an argument finds it only for a name not found before. */
  lemma {:induction false} IndexOfAppend(args: seq<Argument>, a: Argument, n: string)
    ensures IndexOf(args + [a], n) ==
      if IndexOf(args, n).Some? then IndexOf(args, n) else if a.name == n then Some(|args|) else None
    decreases |args|
  {
    if args == [] {
      assert (args + [a])[1..] == [];
    } else {
      assert (args + [a])[1..] == args[1..] + [a];
      IndexOfAppend(args[1..], a, n);
    }
  }

  /** The collection after adding `a`: `a` takes the place of the argument of the same
      name, or comes last. */
  function Added(args: seq<Argument>, a: Argument): (r: seq<Argument>)
    ensures a in r
    ensures forall b :: b in r ==> b in args || b == a
    ensures |r| == |args| || |r| == |args| + 1
  {
    match IndexOf(args, a.name)
    case Some(k) => assert args[k := a][k] == a; args[k := a]
    case None => args + [a]
  }

  /** After adding, the name of `a` finds `a`, every other name finds what it found
      before, and the collection stays keyed by name. */
  lemma AddedFinds(args: seq<Argument>, a: Argument)
    ensures IndexOf(Added(args, a), a.name).Some?
    ensures Added(args, a)[IndexOf(Added(args, a), a.name).value] == a
    ensures forall n :: n != a.name ==> IndexOf(Added(args, a), n) == IndexOf(args, n)
    ensures DistinctNames(args) ==> DistinctNames(Added(args, a))
  {
    match IndexOf(args, a.name)
    case Some(k) =>
      forall n {
        IndexOfUpdate(args, k, a, n);
      }
    case None =>
      forall n {
        IndexOfAppend(args, a, n);
      }
  }

  /** Adding keeps every argument of another name. */
  lemma AddedKeeps(args: seq<Argument>, a: Argument)
    ensures forall b :: b in args && b.name != a.name ==> b in Added(args, a)
  {
    match IndexOf(args, a.name)
    case Some(k) =>
      forall b | b in args && b.name != a.name
        ensures b in args[k := a]
      {
        var j :| 0 <= j < |args| && args[j] == b;
        assert j != k;
        assert args[k := a][j] == b;
      }
    case None =>
  }

  /** The position of the first validator conjunction whose argument is not registered. */
  function FirstUnknown(conjunctions: seq<(string, Validator)>, args: seq<Argument>): (r: Option<nat>)
    ensures r.Some? ==> r.value < |conjunctions| && IndexOf(args, conjunctions[r.value].0).None?
    ensures r.Some? ==> forall k :: 0 <= k < r.value ==> IndexOf(args, conjunctions[k].0).Some?
    ensures r.None? <==> forall k :: 0 <= k < |conjunctions| ==> IndexOf(args, conjunctions[k].0).Some?
    decreases |conjunctions|
  {
    if conjunctions == [] then None
    else if IndexOf(args, conjunctions[0].0).None? then Some(0)
    else match FirstUnknown(conjunctions[1..], args)
      case None => None
      case Some(k) => Some(k + 1)
  }

  /** The validator that applying the conjunctions in order leaves on the argument named
      `name`, which held `initial` before: the last conjunction for that name, or `initial`
      when no conjunction names it. */
  function AssignedValidator(conjunctions: seq<(string, Validator)>, name: string, initial: Option<Validator>): Option<Validator>
    decreases |conjunctions|
  {
    if conjunctions == [] then initial
    else if conjunctions[|conjunctions| - 1].0 == name then Some(conjunctions[|conjunctions| - 1].1)
    else AssignedValidator(conjunctions[..|conjunctions| - 1], name, initial)
  }

  /** An argument that none of the first `n` conjunctions names keeps its validator. */
  lemma {:induction false} AssignedValidatorUnnamed(conjunctions: seq<(string, Validator)>, n: nat, name: string, initial: Option<Validator>)
    requires n <= |conjunctions|
    requires forall k :: 0 <= k < n ==> conjunctions[k].0 != name
    ensures AssignedValidator(conjunctions[..n], name, initial) == initial
    decreases n
  {
    if n > 0 {
      AssignedValidatorStep(conjunctions, n - 1, name, initial);
      AssignedValidatorUnnamed(conjunctions, n - 1, name, initial);
    }
  }

  /** Applying one more conjunction changes only the validator of the argument it names. */
  lemma AssignedValidatorStep(conjunctions: seq<(string, Validator)>, i: nat, name: string, initial: Option<Validator>)
    requires i < |conjunctions|
    ensures AssignedValidator(conjunctions[..i + 1], name, initial) ==
      if conjunctions[i].0 == name then Some(conjunctions[i].1) else AssignedValidator(conjunctions[..i], name, initial)
  {
    assert conjunctions[..i + 1][i] == conjunctions[i];
    assert conjunctions[..i + 1][..i] == conjunctions[..i];
  }

  /** With distinct argument names, each conjunction among the first `n` is the one whose
      validator its argument is left with. */
  lemma {:induction false} AssignedValidatorOf(conjunctions: seq<(string, Validator)>, n: nat, k: nat, initial: Option<Validator>)
    requires forall i, j :: 0 <= i < j < |conjunctions| ==> conjunctions[i].0 != conjunctions[j].0
    requires k < n <= |conjunctions|
    ensures AssignedValidator(conjunctions[..n], conjunctions[k].0, initial) == Some(conjunctions[k].1)
    decreases n
  {
    AssignedValidatorStep(conjunctions, n - 1, conjunctions[k].0, initial);
    if k < n - 1 {
      AssignedValidatorOf(conjunctions, n - 1, k, initial);
    }
  }

  /** Conjunctions handed out in order up to the first one whose argument is missing:
      that one is the first unknown conjunction, and when none is missing there is none. */
  lemma FirstUnknownAt(conjunctions: seq<(string, Validator)>, args: seq<Argument>, applied: nat, failed: bool)
    requires applied <= |conjunctions|
    requires forall k :: 0 <= k < applied ==> IndexOf(args, conjunctions[k].0).Some?
    requires failed ==> applied < |conjunctions| && IndexOf(args, conjunctions[applied].0).None?
    requires !failed ==> applied == |conjunctions|
    ensures FirstUnknown(conjunctions, args) == if failed then Some(applied) else None
  {
  }

  /** Validators declared for parameters of the action always find their argument once
      the parameters are registered. */
  lemma ValidatorsForParametersFindArguments(conjunctions: seq<(string, Validator)>, parameters: seq<ParameterInfo>, args: seq<Argument>)
    requires forall i :: 0 <= i < |parameters| ==> IndexOf(args, parameters[i].name).Some?
    requires forall k :: 0 <= k < |conjunctions| ==> exists i :: 0 <= i < |parameters| && parameters[i].name == conjunctions[k].0
    ensures FirstUnknown(conjunctions, args).None?
  {
    forall k | 0 <= k < |conjunctions|
      ensures IndexOf(args, conjunctions[k].0).Some?
    {
      var i :| 0 <= i < |parameters| && parameters[i].name == conjunctions[k].0;
    }
  }

  /** The collection holds, under the parameter's name, a valid argument built from the
      parameter. */
  predicate Registered(args: seq<Argument>, p: ParameterInfo, env: Environment)
    reads args
  {
    match IndexOf(args, p.name)
    case None => false
    case Some(k) => args[k].Valid() && args[k].Fields() == ArgumentFor(p, env)
  }

  /** Adding the argument built from the next parameter registers it and keeps
      registered the parameters before it, whose names differ. */
  lemma RegisteredAfterAdd(args: seq<Argument>, a: Argument, parameters: seq<ParameterInfo>, i: nat, env: Environment)
    requires i < |parameters|
    requires forall k :: 0 <= k < i ==> Registered(args, parameters[k], env) && parameters[k].name != parameters[i].name
    requires a.name == parameters[i].name && a.Valid() && a.Fields() == ArgumentFor(parameters[i], env)
    ensures forall k :: 0 <= k < i + 1 ==> Registered(Added(args, a), parameters[k], env)
  {
    AddedFinds(args, a);
  }

  /** The collection holds, under the parameter's name, an argument built from the
      parameter, whatever validator it was given since. */
  predicate Declared(args: seq<Argument>, p: ParameterInfo, env: Environment)
    reads args
  {
    match IndexOf(args, p.name)
    case None => false
    case Some(k) => args[k].Fields() == ArgumentFor(p, env).(validator := args[k].validator)
  }

  /** The names of the arguments, in collection order. */
  function Names(args: seq<Argument>): (r: seq<string>)
    ensures |r| == |args| && forall i :: 0 <= i < |args| ==> r[i] == args[i].name
  {
    seq(|args|, i requires 0 <= i < |args| => args[i].name)
  }

  /** The names of the parameters, in declaration order. */
  function ParameterNames(parameters: seq<ParameterInfo>): (r: seq<string>)
    ensures |r| == |parameters| && forall i :: 0 <= i < |parameters| ==> r[i] == parameters[i].name
  {
    seq(|parameters|, i requires 0 <= i < |parameters| => parameters[i].name)
  }

  /** The names after adding an argument named `n`: unchanged when `n` is there already,
      else with `n` last. */
  function AddedName(names: seq<string>, n: string): seq<string> {
    if n in names then names else names + [n]
  }

  /** The names after adding one argument per parameter, in declaration order. */
  function NamesAfter(names: seq<string>, parameters: seq<ParameterInfo>): seq<string>
    decreases |parameters|
  {
    if parameters == [] then names
    else AddedName(NamesAfter(names, parameters[..|parameters| - 1]), parameters[|parameters| - 1].name)
  }

  /** Adding an argument changes the names as `AddedName` says. */
  lemma AddedNames(args: seq<Argument>, a: Argument)
    ensures Names(Added(args, a)) == AddedName(Names(args), a.name)
  {
    match IndexOf(args, a.name)
    case Some(k) =>
      assert Names(args)[k] == a.name;
      assert Names(args[k := a]) == Names(args);
    case None =>
      assert a.name !in Names(args);
      assert Names(args + [a]) == Names(args) + [a.name];
  }

  /** One more parameter adds its name as `AddedName` says. */
  lemma NamesAfterStep(names: seq<string>, parameters: seq<ParameterInfo>, i: nat)
    requires i < |parameters|
    ensures NamesAfter(names, parameters[..i + 1]) == AddedName(NamesAfter(names, parameters[..i]), parameters[i].name)
  {
    assert parameters[..i + 1][..i] == parameters[..i];
  }

  /** Parameters with distinct names, none of them in the collection yet, each add their
      name at the end, in declaration order. */
  lemma {:induction false} NamesAfterFresh(names: seq<string>, parameters: seq<ParameterInfo>)
    requires forall i :: 0 <= i < |parameters| ==> parameters[i].name !in names
    requires forall i, j :: 0 <= i < j < |parameters| ==> parameters[i].name != parameters[j].name
    ensures NamesAfter(names, parameters) == names + ParameterNames(parameters)
    decreases |parameters|
  {
    if parameters != [] {
      var init, last := parameters[..|parameters| - 1], parameters[|parameters| - 1];
      NamesAfterFresh(names, init);
      assert last.name !in names + ParameterNames(init);
      assert ParameterNames(parameters) == ParameterNames(init) + [last.name];
    }
  }

  /** Registering parameters brings in no name but theirs. */
  lemma {:induction false} NamesAfterFrom(names: seq<string>, parameters: seq<ParameterInfo>, n: string)
    requires n in NamesAfter(names, parameters)
    ensures n in names || n in ParameterNames(parameters)
    decreases |parameters|
  {
    if parameters != [] {
      var init := parameters[..|parameters| - 1];
      if n in NamesAfter(names, init) {
        NamesAfterFrom(names, init, n);
        if n in ParameterNames(init) {
          var k :| 0 <= k < |init| && ParameterNames(init)[k] == n;
          assert ParameterNames(parameters)[k] == n;
        }
      } else {
        assert ParameterNames(parameters)[|parameters| - 1] == n;
      }
    }
  }

  /** An argument that was not in the collection before the parameters were registered
      is named after one of them: the collection stays keyed by name, and the arguments
      whose names no parameter takes stay. */
  lemma NewArgumentsNamedByParameters(args0: seq<Argument>, args: seq<Argument>, parameters: seq<ParameterInfo>)
    requires DistinctNames(args)
    requires Names(args) == NamesAfter(Names(args0), parameters)
    requires forall b :: b in args0 && (forall i :: 0 <= i < |parameters| ==> b.name != parameters[i].name) ==> b in args
    ensures forall b :: b in args && b !in args0 ==> b.name in ParameterNames(parameters)
  {
    forall b | b in args && b !in args0
      ensures b.name in ParameterNames(parameters)
    {
      var j :| 0 <= j < |args| && args[j] == b;
      assert Names(args)[j] == b.name;
      NamesAfterFrom(Names(args0), parameters, b.name);
      if b.name in Names(args0) {
        var k :| 0 <= k < |args0| && Names(args0)[k] == b.name;
        var c := args0[k];
        assert c != b;
        assert c !in args by {
          SameNameSameArgument(args, b, c);
        }
        var i :| 0 <= i < |parameters| && c.name == parameters[i].name;
        assert ParameterNames(parameters)[i] == b.name;
      }
    }
  }

  /** In a collection keyed by name, two arguments of the same name are the same. */
  lemma SameNameSameArgument(args: seq<Argument>, a: Argument, b: Argument)
    requires DistinctNames(args)
    ensures a in args && b in args && a.name == b.name ==> a == b
  {
    if a in args && b in args && a.name == b.name {
      var i :| 0 <= i < |args| && args[i] == a;
      var j :| 0 <= j < |args| && args[j] == b;
      assert i == j;
    }
  }

  /** Arguments named as the parameters are, one per parameter, in declaration order. */
  lemma NamedAsParameters(args: seq<Argument>, parameters: seq<ParameterInfo>)
    requires Names(args) == ParameterNames(parameters)
    ensures |args| == |parameters|
    ensures forall i :: 0 <= i < |parameters| ==> args[i].name == parameters[i].name
  {
    forall i | 0 <= i < |parameters|
      ensures args[i].name == parameters[i].name
    {
      assert Names(args)[i] == ParameterNames(parameters)[i];
    }
  }

  /** Registering parameters with distinct names in an empty collection gives one
      argument per parameter, in declaration order. */
  lemma RegisteredInOrder(args: seq<Argument>, parameters: seq<ParameterInfo>)
    requires forall i, j :: 0 <= i < j < |parameters| ==> parameters[i].name != parameters[j].name
    requires Names(args) == NamesAfter([], parameters)
    ensures |args| == |parameters|
    ensures forall i :: 0 <= i < |parameters| ==> args[i].name == parameters[i].name
  {
    NamesAfterFresh([], parameters);
    assert [] + ParameterNames(parameters) == ParameterNames(parameters);
    NamedAsParameters(args, parameters);
  }

  // ---------------------------------------------------------------------------------
  // The controller

  /** The controller's own state, as one value. */
  datatype ControllerFields = ControllerFields(
    actionMethodName: string,
    arguments: seq<Argument>,
    request: Request?,
    response: Response?,
    view: Option<string>)

  /** Gives each validator conjunction, in order, to the argument of its name in `args`,
      stopping at the first conjunction whose argument is not there; `applied` counts the
      conjunctions handed out. Every argument keeps its other fields and ends with the
      validator the applied conjunctions assign it, or its old one. */
  method ApplyConjunctions(args: seq<Argument>, conjunctions: seq<(string, Validator)>)
      returns (r: Outcome<Exception>, ghost applied: nat)
    requires DistinctNames(args)
    modifies (set a | a in args)`validator
    ensures applied <= |conjunctions|
    ensures forall k :: 0 <= k < applied ==> IndexOf(args, conjunctions[k].0).Some?
    ensures r.Pass? ==> applied == |conjunctions|
    ensures r.Fail? ==> applied < |conjunctions| && IndexOf(args, conjunctions[applied].0).None?
    ensures r.Fail? ==> r.error == NoSuchArgument(conjunctions[applied].0, NoSuchArgumentCode)
    ensures forall j :: 0 <= j < |args| ==>
      args[j].validator == AssignedValidator(conjunctions[..applied], args[j].name, old(args[j].validator))
  {
    var i := 0;
    while i < |conjunctions|
      invariant 0 <= i <= |conjunctions|
      invariant forall k :: 0 <= k < i ==> IndexOf(args, conjunctions[k].0).Some?
      invariant forall j :: 0 <= j < |args| ==>
        args[j].validator == AssignedValidator(conjunctions[..i], args[j].name, old(args[j].validator))
      decreases |conjunctions| - i
    {
      var (argumentName, conjunction) := conjunctions[i];
      var index := IndexOf(args, argumentName);
      if index.None? {
        return Fail(NoSuchArgument(argumentName, NoSuchArgumentCode)), i;
      }
      forall j | 0 <= j < |args|
        ensures AssignedValidator(conjunctions[..i + 1], args[j].name, old(args[j].validator)) ==
          if j == index.value then Some(conjunction)
          else AssignedValidator(conjunctions[..i], args[j].name, old(args[j].validator))
      {
        AssignedValidatorStep(conjunctions, i, args[j].name, old(args[j].validator));
      }
      args[index.value].SetValidator(conjunction);
      i := i + 1;
    }
    return Pass, i;
  }

  /** Gives each validator conjunction to the argument of its name in `args`; a conjunction
      for an argument that is not there stops with NoSuchArgument, after the ones before it
      were given out. */
  method AssignValidators(args: seq<Argument>, conjunctions: seq<(string, Validator)>) returns (r: Outcome<Exception>)
    requires DistinctNames(args)
    requires forall i, j :: 0 <= i < j < |conjunctions| ==> conjunctions[i].0 != conjunctions[j].0
    modifies (set a | a in args)`validator
    ensures r.Fail? <==> FirstUnknown(conjunctions, args).Some?
    ensures r.Fail? ==>
      r.error == NoSuchArgument(conjunctions[FirstUnknown(conjunctions, args).value].0, NoSuchArgumentCode)
    ensures var applied := if r.Fail? then FirstUnknown(conjunctions, args).value else |conjunctions|;
      forall k :: 0 <= k < applied ==>
        args[IndexOf(args, conjunctions[k].0).value].validator == Some(conjunctions[k].1)
    ensures var applied := if r.Fail? then FirstUnknown(conjunctions, args).value else |conjunctions|;
      forall a :: a in args && (forall k :: 0 <= k < applied ==> conjunctions[k].0 != a.name) ==>
        a.validator == old(a.validator)
    ensures forall a :: a in args ==> a.Fields() == old(a.Fields()).(validator := a.validator)
  {
    ghost var applied;
    r, applied := ApplyConjunctions(args, conjunctions);
    FirstUnknownAt(conjunctions, args, applied, r.Fail?);
    forall k | 0 <= k < applied
      ensures args[IndexOf(args, conjunctions[k].0).value].validator == Some(conjunctions[k].1)
    {
      var j := IndexOf(args, conjunctions[k].0).value;
      AssignedValidatorOf(conjunctions, applied, k, old(args[j].validator));
    }
    forall a | a in args && (forall k :: 0 <= k < applied ==> conjunctions[k].0 != a.name)
      ensures a.validator == old(a.validator)
    {
      AssignedValidatorUnnamed(conjunctions, applied, a.name, old(a.validator));
    }
  }

  /** An action controller: the request it processes, the arguments of the action it
      resolved, the view it chose and the response it writes. */
  class ActionController {
    /** Reflection: which classes exist and which have a class schema. */
    const env: Environment
    /** The controller's class and the methods it has (method_exists). */
    const controllerClass: string
    const methods: set<string>
    /** The request classes the controller accepts. */
    const supportedRequestTypes: seq<string>
    const viewObjectNamePattern: string
    const defaultViewObjectName: Option<string>

    var actionMethodName: string
    /** The arguments collection, keyed by argument name in insertion order. */
    var arguments: seq<Argument>
    var request: Request?
    var response: Response?
    /** The class of the resolved view, once there is one. */
    var view: Option<string>

    function Fields(): ControllerFields
      reads this
    {
      ControllerFields(actionMethodName, arguments, request, response, view)
    }

    constructor(env: Environment, controllerClass: string, methods: set<string>, supportedRequestTypes: seq<string>,
                defaultViewObjectName: Option<string>)
      ensures this.env == env && this.controllerClass == controllerClass && this.methods == methods
      ensures this.supportedRequestTypes == supportedRequestTypes && this.defaultViewObjectName == defaultViewObjectName
      ensures viewObjectNamePattern == ViewObjectNamePattern
      ensures Fields() == ControllerFields("indexAction", [], null, null, None)
    {
      this.env := env;
      this.controllerClass := controllerClass;
      this.methods := methods;
      this.supportedRequestTypes := supportedRequestTypes;
      this.viewObjectNamePattern := ViewObjectNamePattern;
      this.defaultViewObjectName := defaultViewObjectName;
      this.actionMethodName := "indexAction";
      this.arguments := [];
      this.request := null;
      this.response := null;
      this.view := None;
    }

    /** Whether the request is an instance of one of the supported request types. */
    predicate CanProcessRequest(request: Request) {
      exists t :: t in supportedRequestTypes && env.InstanceOf(Obj(request.requestType), t)
    }

    /** Adds an argument to the collection, replacing the one of the same name. */
    method AddArgument(a: Argument)
      requires DistinctNames(arguments)
      modifies this`arguments
      ensures arguments == Added(old(arguments), a)
      ensures DistinctNames(arguments)
      ensures Fields() == old(Fields()).(arguments := arguments)
    {
      AddedFinds(arguments, a);
      arguments := Added(arguments, a);
    }

    /** Creates an argument with the given name, data type, required flag and default
        value, and adds it. */
    method AddNewArgument(name: Identifier, dataType: string, isRequired: bool, defaultValue: Mixed) returns (a: Argument)
      requires DistinctNames(arguments)
      modifies this`arguments
      ensures fresh(a) && a.Valid() && a.env == env
      ensures a.Fields() == ArgumentFields(name, None, dataType, env.HasClassSchema(dataType), isRequired, Null, defaultValue, None, false)
      ensures arguments == Added(old(arguments), a)
      ensures DistinctNames(arguments)
      ensures Fields() == old(Fields()).(arguments := arguments)
    {
      a := new Argument(name, dataType, env);
      a.SetRequired(Bool(isRequired));
      a.SetDefaultValue(defaultValue);
      AddArgument(a);
    }

    /** The body of initializeActionMethodArguments' loop: the data type is the declared
        type, else `array` for an array parameter, else `Text`; the argument is required
        when the parameter is reported as not optional. */
    method AddParameterArgument(p: ParameterInfo) returns (a: Argument)
      requires DistinctNames(arguments)
      modifies this`arguments
      ensures fresh(a) && a.name == p.name && a.Valid() && a.Fields() == ArgumentFor(p, env)
      ensures arguments == Added(old(arguments), a)
      ensures DistinctNames(arguments)
      ensures Fields() == old(Fields()).(arguments := arguments)
    {
      var dataType := DefaultDataType;
      if p.typeName.Some? {
        dataType := p.typeName.value;
      } else if p.isArray {
        dataType := "array";
      }
      a := AddNewArgument(p.name, dataType, p.optional == Bool(false), p.defaultValue);
    }

    /** The loop of initializeActionMethodArguments: adds one argument per parameter, in
        order. */
    method AddParameterArguments(parameters: seq<ParameterInfo>)
      requires DistinctNames(arguments)
      requires forall i, j :: 0 <= i < j < |parameters| ==> parameters[i].name != parameters[j].name
      modifies this`arguments
      ensures DistinctNames(arguments)
      ensures forall i :: 0 <= i < |parameters| ==> Registered(arguments, parameters[i], env)
      ensures Names(arguments) == NamesAfter(Names(old(arguments)), parameters)
      ensures forall b :: b in arguments ==> b in old(arguments) || fresh(b)
      ensures forall b :: b in old(arguments) && (forall i :: 0 <= i < |parameters| ==> b.name != parameters[i].name) ==>
        b in arguments
      ensures Fields() == old(Fields()).(arguments := arguments)
    {
      ghost var args0, names0 := arguments, Names(arguments);
      assert NamesAfter(names0, parameters[..0]) == names0 by {
        assert parameters[..0] == [];
      }
      var i := 0;
      while i < |parameters|
        invariant 0 <= i <= |parameters|
        invariant DistinctNames(arguments)
        invariant forall k :: 0 <= k < i ==> Registered(arguments, parameters[k], env)
        invariant Names(arguments) == NamesAfter(names0, parameters[..i])
        invariant forall b :: b in arguments ==> b in args0 || fresh(b)
        invariant forall b :: b in args0 && (forall k :: 0 <= k < i ==> b.name != parameters[k].name) ==>
          b in arguments
        invariant Fields() == old(Fields()).(arguments := arguments)
        decreases |parameters| - i
      {
        ghost var before := arguments;
        var a := AddParameterArgument(parameters[i]);
        RegisteredAfterAdd(before, a, parameters, i, env);
        AddedKeeps(before, a);
        AddedNames(before, a);
        NamesAfterStep(names0, parameters, i);
        i := i + 1;
      }
      assert parameters[..i] == parameters;
    }

    /** initializeActionMethodArguments: one argument per parameter of the action method,
        in order. */
    method InitializeActionMethodArguments(parameters: seq<ParameterInfo>)
      requires DistinctNames(arguments)
      requires forall i, j :: 0 <= i < j < |parameters| ==> parameters[i].name != parameters[j].name
      modifies this`arguments
      ensures DistinctNames(arguments)
      ensures forall i :: 0 <= i < |parameters| ==> Registered(arguments, parameters[i], env)
      ensures Names(arguments) == NamesAfter(Names(old(arguments)), parameters)
      ensures old(arguments) == [] ==>
        |arguments| == |parameters| && forall i :: 0 <= i < |parameters| ==> arguments[i].name == parameters[i].name
      ensures forall b :: b in arguments ==> b in old(arguments) || fresh(b)
      ensures forall b :: b in arguments && b !in old(arguments) ==> b.name in ParameterNames(parameters)
      ensures forall b :: b in old(arguments) && (forall i :: 0 <= i < |parameters| ==> b.name != parameters[i].name) ==>
        b in arguments
      ensures Fields() == old(Fields()).(arguments := arguments)
    {
      ghost var args0 := arguments;
      AddParameterArguments(parameters);
      NewArgumentsNamedByParameters(args0, arguments, parameters);
      if args0 == [] {
        assert Names(args0) == [];
        RegisteredInOrder(arguments, parameters);
      }
    }

    /** initializeActionMethodValidators: each declared validator conjunction goes to the
        argument of its name; a conjunction for an argument that is not registered stops
        with NoSuchArgument, after the ones before it were assigned. */
    method InitializeActionMethodValidators(conjunctions: seq<(string, Validator)>) returns (r: Outcome<Exception>)
      requires DistinctNames(arguments)
      requires forall i, j :: 0 <= i < j < |conjunctions| ==> conjunctions[i].0 != conjunctions[j].0
      modifies (set a | a in arguments)`validator
      ensures r.Fail? <==> FirstUnknown(conjunctions, arguments).Some?
      ensures r.Fail? ==>
        r.error == NoSuchArgument(conjunctions[FirstUnknown(conjunctions, arguments).value].0, NoSuchArgumentCode)
      ensures var applied := if r.Fail? then FirstUnknown(conjunctions, arguments).value else |conjunctions|;
        forall k :: 0 <= k < applied ==>
          arguments[IndexOf(arguments, conjunctions[k].0).value].validator == Some(conjunctions[k].1)
      ensures var applied := if r.Fail? then FirstUnknown(conjunctions, arguments).value else |conjunctions|;
        forall a :: a in arguments && (forall k :: 0 <= k < applied ==> conjunctions[k].0 != a.name) ==>
          a.validator == old(a.validator)
      ensures forall a :: a in arguments ==> a.Fields() == old(a.Fields()).(validator := a.validator)
    {
      r := AssignValidators(arguments, conjunctions);
    }

    /** callActionMethod: the arguments' values are prepared in order, then the action
        method is called, or the error action instead when mapping the request's arguments
        produced errors; what the called method returns decides what is appended to the
        response. `actionResult` is what the action method returns, `rendered` what the
        view renders, and `errors` and `warnings` are the mapping results. */
    method CallActionMethod(hasErrors: bool, errors: seq<string>, warnings: seq<string>, actionResult: Mixed, rendered: string)
      returns (prepared: seq<Mixed>, called: string, result: Mixed)
      requires request != null && response != null
      modifies request, response
      ensures |prepared| == |arguments|
      ensures forall i :: 0 <= i < |arguments| ==> prepared[i] == arguments[i].GetValue()
      ensures called == (if hasErrors then ErrorMethodName else actionMethodName)
      ensures result == (if hasErrors then Str(ErrorMessage(controllerClass, actionMethodName, errors, warnings)) else actionResult)
      ensures request.errors == (if hasErrors then errors else old(request.errors))
      ensures request.dispatched == old(request.dispatched)
      ensures response.content == old(response.content) + AppendedContent(result, view.Some?, rendered)
      ensures hasErrors ==> response.content == old(response.content) + ErrorMessage(controllerClass, actionMethodName, errors, warnings)
    {
      prepared := [];
      var i := 0;
      while i < |arguments|
        invariant 0 <= i <= |arguments|
        invariant |prepared| == i
        invariant forall k :: 0 <= k < i ==> prepared[k] == arguments[k].GetValue()
        modifies {}
        decreases |arguments| - i
      {
        prepared := prepared + [arguments[i].GetValue()];
        i := i + 1;
      }
      if hasErrors {
        called := ErrorMethodName;
        var message := ErrorAction(errors, warnings);
        result := Str(message);
      } else {
        called := actionMethodName;
        result := actionResult;
      }
      if result.Null? && view.Some? {
        response.AppendContent(rendered);
      } else if result.Str? && |result.s| > 0 {
        response.AppendContent(result.s);
      }
    }

    /** errorAction: hands the mapping errors to the request and returns the message
        listing them and the warnings. */
    method ErrorAction(errors: seq<string>, warnings: seq<string>) returns (message: string)
      requires request != null
      modifies request
      ensures request.errors == errors && request.dispatched == old(request.dispatched)
      ensures message == ErrorMessage(controllerClass, actionMethodName, errors, warnings)
    {
      request.SetErrors(errors);
      message := "An error occurred while trying to call " + controllerClass + "->" + actionMethodName + "()." + Eol;
      ghost var header := message;
      var i := 0;
      while i < |errors|
        invariant 0 <= i <= |errors|
        invariant message == header + Lines("Error:   ", errors[..i])
        decreases |errors| - i
      {
        assert errors[..i + 1][..i] == errors[..i];
        message := message + Line("Error:   ", errors[i]);
        i := i + 1;
      }
      assert errors[..|errors|] == errors;
      ghost var withErrors := message;
      i := 0;
      while i < |warnings|
        invariant 0 <= i <= |warnings|
        invariant message == withErrors + Lines("Warning: ", warnings[..i])
        decreases |warnings| - i
      {
        assert warnings[..i + 1][..i] == warnings[..i];
        message := message + Line("Warning: ", warnings[i]);
        i := i + 1;
      }
      assert warnings[..|warnings|] == warnings;
    }

    /** The argument steps of processRequest: registers the action method's arguments, then
        assigns their validators; an argument no parameter names is kept, with its fields,
        and keeps its validator unless a conjunction assigned before a failure names it. */
    method RegisterArguments(parameters: seq<ParameterInfo>, conjunctions: seq<(string, Validator)>)
      returns (r: Outcome<Exception>)
      requires DistinctNames(arguments)
      requires forall i, j :: 0 <= i < j < |parameters| ==> parameters[i].name != parameters[j].name
      requires forall i, j :: 0 <= i < j < |conjunctions| ==> conjunctions[i].0 != conjunctions[j].0
      modifies this`arguments, set a | a in arguments
      ensures DistinctNames(arguments)
      ensures forall i :: 0 <= i < |parameters| ==> Declared(arguments, parameters[i], env)
      ensures Names(arguments) == NamesAfter(Names(old(arguments)), parameters)
      ensures r.Fail? <==> FirstUnknown(conjunctions, arguments).Some?
      ensures r.Fail? ==>
        r.error == NoSuchArgument(conjunctions[FirstUnknown(conjunctions, arguments).value].0, NoSuchArgumentCode)
      ensures var applied := if r.Fail? then FirstUnknown(conjunctions, arguments).value else |conjunctions|;
        forall k :: 0 <= k < applied ==>
          arguments[IndexOf(arguments, conjunctions[k].0).value].validator == Some(conjunctions[k].1)
      ensures forall b :: b in old(arguments) && (forall i :: 0 <= i < |parameters| ==> b.name != parameters[i].name) ==>
        b in arguments && b.Fields() == old(b.Fields()).(validator := b.validator)
      ensures var applied := if r.Fail? then FirstUnknown(conjunctions, arguments).value else |conjunctions|;
        forall b ::
          (b in old(arguments) && (forall i :: 0 <= i < |parameters| ==> b.name != parameters[i].name)
           && (forall k :: 0 <= k < applied ==> conjunctions[k].0 != b.name)) ==>
          b.validator == old(b.validator)
    {
      ghost var args0 := arguments;
      InitializeActionMethodArguments(parameters);
      label registered:
      r := InitializeActionMethodValidators(conjunctions);
      ghost var applied := if r.Fail? then FirstUnknown(conjunctions, arguments).value else |conjunctions|;
      forall b | b in args0 && (forall i :: 0 <= i < |parameters| ==> b.name != parameters[i].name)
        ensures b in arguments && b.Fields() == old(b.Fields()).(validator := b.validator)
        ensures (forall k :: 0 <= k < applied ==> conjunctions[k].0 != b.name) ==> b.validator == old(b.validator)
      {
        assert old@registered(b.Fields()) == old(b.Fields());
      }
      forall i | 0 <= i < |parameters|
        ensures Declared(arguments, parameters[i], env)
      {
        var k := IndexOf(arguments, parameters[i].name).value;
        assert old@registered(arguments[k].Fields()) == ArgumentFor(parameters[i], env);
      }
    }

    /** The first half of processRequest once the request is accepted: resolves the action
        method, then registers its arguments and their validators. */
    method PrepareAction(parameters: seq<ParameterInfo>, conjunctions: seq<(string, Validator)>)
      returns (r: Outcome<Exception>)
      requires request != null
      requires DistinctNames(arguments)
      requires forall i, j :: 0 <= i < j < |parameters| ==> parameters[i].name != parameters[j].name
      requires forall i, j :: 0 <= i < j < |conjunctions| ==> conjunctions[i].0 != conjunctions[j].0
      modifies this`actionMethodName, this`arguments, set a | a in arguments
      ensures request == old(request) && response == old(response) && view == old(view)
      ensures var resolved := ResolveActionMethodName(request.controllerActionName, methods);
        resolved.Failure? ==>
        r == Fail(resolved.error) && actionMethodName == old(actionMethodName) && arguments == old(arguments)
        && unchanged(arguments)
      ensures var resolved := ResolveActionMethodName(request.controllerActionName, methods);
        resolved.Success? ==>
        actionMethodName == resolved.value
        && DistinctNames(arguments)
        && (forall i :: 0 <= i < |parameters| ==> Declared(arguments, parameters[i], env))
        && Names(arguments) == NamesAfter(Names(old(arguments)), parameters)
        && (r.Fail? <==> FirstUnknown(conjunctions, arguments).Some?)
      ensures r.Fail? && r.error.NoSuchArgument? ==>
        FirstUnknown(conjunctions, arguments).Some?
        && r.error == NoSuchArgument(conjunctions[FirstUnknown(conjunctions, arguments).value].0, NoSuchArgumentCode)
      ensures var resolved := ResolveActionMethodName(request.controllerActionName, methods);
        resolved.Success? ==>
        var applied := if r.Fail? then FirstUnknown(conjunctions, arguments).value else |conjunctions|;
        forall k :: 0 <= k < applied ==>
          arguments[IndexOf(arguments, conjunctions[k].0).value].validator == Some(conjunctions[k].1)
      ensures forall b :: b in old(arguments) && (forall i :: 0 <= i < |parameters| ==> b.name != parameters[i].name) ==>
        b in arguments && b.Fields() == old(b.Fields()).(validator := b.validator)
      ensures var resolved := ResolveActionMethodName(request.controllerActionName, methods);
        var applied := if resolved.Failure? then 0 else if r.Fail? then FirstUnknown(conjunctions, arguments).value else |conjunctions|;
        forall b ::
          (b in old(arguments) && (forall i :: 0 <= i < |parameters| ==> b.name != parameters[i].name)
           && (forall k :: 0 <= k < applied ==> conjunctions[k].0 != b.name)) ==>
          b.validator == old(b.validator)
    {
      var resolved := ResolveActionMethodName(request.controllerActionName, methods);
      if resolved.Failure? {
        return Fail(resolved.error);
      }
      actionMethodName := resolved.value;
      r := RegisterArguments(parameters, conjunctions);
    }

    /** The second half of processRequest: the action's initialisation hook, the view,
        and the call of the action. */
    method RunAction(hasTemplate: bool, errors: seq<string>, warnings: seq<string>, actionResult: Mixed, rendered: string)
      returns (hook: Option<string>, result: Mixed)
      requires request != null && response != null
      modifies this`view, request, response
      ensures request == old(request) && response == old(response)
      ensures actionMethodName == old(actionMethodName) && arguments == old(arguments)
      ensures request.dispatched == old(request.dispatched)
      ensures request.errors == (if errors != [] then errors else old(request.errors))
      ensures hook == (if InitializeHookName(actionMethodName) in methods then Some(InitializeHookName(actionMethodName)) else None)
      ensures view == Some(ResolveViewClass(hasTemplate, ResolveViewObjectName(viewObjectNamePattern, request.controllerExtensionName,
                                                                             request.controllerName, request.controllerActionName,
                                                                             defaultViewObjectName, env)))
      ensures result == (if errors != [] then Str(ErrorMessage(controllerClass, actionMethodName, errors, warnings)) else actionResult)
      ensures response.content == old(response.content) + AppendedContent(result, true, rendered)
    {
      hook := None;
      var hookName := "initialize" + UcFirst(actionMethodName);
      if hookName in methods {
        hook := Some(hookName);
      }
      var viewObjectName := ResolveViewObjectName(viewObjectNamePattern, request.controllerExtensionName,
                                                  request.controllerName, request.controllerActionName,
                                                  defaultViewObjectName, env);
      view := Some(ResolveViewClass(hasTemplate, viewObjectName));
      var prepared, called;
      prepared, called, result := CallActionMethod(errors != [], errors, warnings, actionResult, rendered);
    }

    /** The accepted path of processRequest, once the controller holds the request and
        the response: the action is prepared, and run when preparing it succeeded. */
    method Dispatch(parameters: seq<ParameterInfo>, conjunctions: seq<(string, Validator)>, hasTemplate: bool,
                    errors: seq<string>, warnings: seq<string>, actionResult: Mixed, rendered: string)
      returns (r: Outcome<Exception>, hook: Option<string>, result: Mixed)
      requires request != null && response != null
      requires DistinctNames(arguments)
      requires forall i, j :: 0 <= i < j < |parameters| ==> parameters[i].name != parameters[j].name
      requires forall i, j :: 0 <= i < j < |conjunctions| ==> conjunctions[i].0 != conjunctions[j].0
      modifies this`actionMethodName, this`arguments, this`view, request, response, set a | a in arguments
      ensures request == old(request) && response == old(response) && request.dispatched == old(request.dispatched)
      ensures var resolved := ResolveActionMethodName(request.controllerActionName, methods);
        resolved.Failure? ==>
        r == Fail(resolved.error) && actionMethodName == old(actionMethodName) && arguments == old(arguments)
        && unchanged(arguments)
      ensures var resolved := ResolveActionMethodName(request.controllerActionName, methods);
        resolved.Success? ==>
        actionMethodName == resolved.value
        && DistinctNames(arguments)
        && (forall i :: 0 <= i < |parameters| ==> Declared(arguments, parameters[i], env))
        && Names(arguments) == NamesAfter(Names(old(arguments)), parameters)
        && (r.Fail? <==> FirstUnknown(conjunctions, arguments).Some?)
      ensures r.Fail? && r.error.NoSuchArgument? ==>
        FirstUnknown(conjunctions, arguments).Some?
        && r.error == NoSuchArgument(conjunctions[FirstUnknown(conjunctions, arguments).value].0, NoSuchArgumentCode)
      ensures r.Fail? ==>
        view == old(view) && response.content == old(response.content) && hook == None && result == Null
      ensures var resolved := ResolveActionMethodName(request.controllerActionName, methods);
        resolved.Success? ==>
        var applied := if r.Fail? then FirstUnknown(conjunctions, arguments).value else |conjunctions|;
        forall k :: 0 <= k < applied ==>
          arguments[IndexOf(arguments, conjunctions[k].0).value].validator == Some(conjunctions[k].1)
      ensures forall b :: b in old(arguments) && (forall i :: 0 <= i < |parameters| ==> b.name != parameters[i].name) ==>
        b in arguments && b.Fields() == old(b.Fields()).(validator := b.validator)
      ensures var resolved := ResolveActionMethodName(request.controllerActionName, methods);
        var applied := if resolved.Failure? then 0 else if r.Fail? then FirstUnknown(conjunctions, arguments).value else |conjunctions|;
        forall b ::
          (b in old(arguments) && (forall i :: 0 <= i < |parameters| ==> b.name != parameters[i].name)
           && (forall k :: 0 <= k < applied ==> conjunctions[k].0 != b.name)) ==>
          b.validator == old(b.validator)
      ensures r.Fail? ==> request.errors == old(request.errors)
      ensures r.Pass? ==> request.errors == (if errors != [] then errors else old(request.errors))
      ensures r.Pass? ==>
        hook == (if InitializeHookName(actionMethodName) in methods then Some(InitializeHookName(actionMethodName)) else None)
      ensures r.Pass? ==>
        view == Some(ResolveViewClass(hasTemplate, ResolveViewObjectName(viewObjectNamePattern, request.controllerExtensionName,
                                                                         request.controllerName, request.controllerActionName,
                                                                         defaultViewObjectName, env)))
      ensures r.Pass? ==>
        result == (if errors != [] then Str(ErrorMessage(controllerClass, actionMethodName, errors, warnings)) else actionResult)
        && response.content == old(response.content) + AppendedContent(result, true, rendered)
    {
      hook := None;
      result := Null;
      r := PrepareAction(parameters, conjunctions);
      if r.Pass? {
        hook, result := RunAction(hasTemplate, errors, warnings, actionResult, rendered);
      }
    }

    /** processRequest: refuses a request of an unsupported type before touching anything;
        otherwise marks the request dispatched, resolves the action method, registers its
        arguments and their validators, calls the action's initialisation hook when the
        controller has one, resolves the view and calls the action. The outcome of the
        reflection and mapping steps comes in as parameters: the action's `parameters`,
        the validator `conjunctions` declared for it, whether the template view has a
        template, and the mapping `errors` and `warnings`. */
    method ProcessRequest(request: Request, response: Response, parameters: seq<ParameterInfo>,
                          conjunctions: seq<(string, Validator)>, hasTemplate: bool,
                          errors: seq<string>, warnings: seq<string>, actionResult: Mixed, rendered: string)
      returns (r: Outcome<Exception>, hook: Option<string>, result: Mixed)
      requires DistinctNames(arguments)
      requires forall i, j :: 0 <= i < j < |parameters| ==> parameters[i].name != parameters[j].name
      requires forall i, j :: 0 <= i < j < |conjunctions| ==> conjunctions[i].0 != conjunctions[j].0
      modifies this, request, response, set a | a in arguments
      ensures !CanProcessRequest(request) ==>
        r == Fail(UnsupportedRequestType(UnsupportedRequestTypeCode))
        && Fields() == old(Fields()) && unchanged(request, response) && unchanged(arguments)
      ensures CanProcessRequest(request) ==>
        this.request == request && this.response == response && request.dispatched
      ensures var resolved := ResolveActionMethodName(request.controllerActionName, methods);
        CanProcessRequest(request) && resolved.Failure? ==>
        r == Fail(resolved.error) && actionMethodName == old(actionMethodName) && arguments == old(arguments)
        && unchanged(arguments)
      ensures var resolved := ResolveActionMethodName(request.controllerActionName, methods);
        CanProcessRequest(request) && resolved.Success? ==>
        actionMethodName == resolved.value
        && DistinctNames(arguments)
        && (forall i :: 0 <= i < |parameters| ==> Declared(arguments, parameters[i], env))
        && Names(arguments) == NamesAfter(Names(old(arguments)), parameters)
        && (r.Fail? <==> FirstUnknown(conjunctions, arguments).Some?)
      ensures r.Fail? && r.error.NoSuchArgument? ==>
        FirstUnknown(conjunctions, arguments).Some?
        && r.error == NoSuchArgument(conjunctions[FirstUnknown(conjunctions, arguments).value].0, NoSuchArgumentCode)
      ensures r.Fail? ==>
        view == old(view) && response.content == old(response.content) && hook == None && result == Null
      ensures var resolved := ResolveActionMethodName(request.controllerActionName, methods);
        CanProcessRequest(request) && resolved.Success? ==>
        var applied := if r.Fail? then FirstUnknown(conjunctions, arguments).value else |conjunctions|;
        forall k :: 0 <= k < applied ==>
          arguments[IndexOf(arguments, conjunctions[k].0).value].validator == Some(conjunctions[k].1)
      ensures var resolved := ResolveActionMethodName(request.controllerActionName, methods);
        var applied := if !CanProcessRequest(request) || resolved.Failure? then 0 else if r.Fail? then FirstUnknown(conjunctions, arguments).value else |conjunctions|;
        forall b ::
          (b in old(arguments) && (forall i :: 0 <= i < |parameters| ==> b.name != parameters[i].name)
           && (forall k :: 0 <= k < applied ==> conjunctions[k].0 != b.name)) ==>
          b.validator == old(b.validator)
      ensures r.Fail? ==> request.errors == old(request.errors)
      ensures r.Pass? ==> request.errors == (if errors != [] then errors else old(request.errors))
      ensures r.Pass? ==>
        hook == (if InitializeHookName(actionMethodName) in methods then Some(InitializeHookName(actionMethodName)) else None)
      ensures r.Pass? ==>
        view == Some(ResolveViewClass(hasTemplate, ResolveViewObjectName(viewObjectNamePattern, request.controllerExtensionName,
                                                                         request.controllerName, request.controllerActionName,
                                                                         defaultViewObjectName, env)))
      ensures r.Pass? ==>
        result == (if errors != [] then Str(ErrorMessage(controllerClass, actionMethodName, errors, warnings)) else actionResult)
        && response.content == old(response.content) + AppendedContent(result, true, rendered)
      ensures forall b :: b in old(arguments) && (forall i :: 0 <= i < |parameters| ==> b.name != parameters[i].name) ==>
        b in arguments && b.Fields() == old(b.Fields()).(validator := b.validator)
    {
      hook := None;
      result := Null;
      if !CanProcessRequest(request) {
        return Fail(UnsupportedRequestType(UnsupportedRequestTypeCode)), hook, result;
      }
      this.request := request;
      request.SetDispatched(true);
      this.response := response;
      label dispatching:
      r, hook, result := Dispatch(parameters, conjunctions, hasTemplate, errors, warnings, actionResult, rendered);
      forall b | b in old(arguments) && (forall i :: 0 <= i < |parameters| ==> b.name != parameters[i].name)
        ensures b in arguments && b.Fields() == old(b.Fields()).(validator := b.validator)
      {
        assert old@dispatching(b.Fields()) == old(b.Fields());
      }
    }
  }
}
