/** gmail_api.php: the Gmail webhook. It digs a tool-call id, a function name
    and an argument array out of the body, dispatches on the name
    (case-sensitively) and wraps the outcome in the
    `{results: [{toolCallId, tool_call_id, result}]}` envelope. */
module GmailApi {
  import opened Php
  import opened Json
  import opened JsonSearch
  import GmailTools

  // ---------------------------------------------------------------- the tool-call id (lines 53-72)

  /** One step of an access chain: `['k']` or `[0]`. */
  datatype Step = Key(name: string) | Head

  function Apply(j: Json, s: Step): Json
  {
    match s
    case Key(k) => At(j, k)
    case Head => At0(j)
  }

  function Follow(j: Json, path: seq<Step>): Json
    decreases |path|
  {
    if path == [] then j else Follow(Apply(j, path[0]), path[1..])
  }

  lemma FollowOne(j: Json, a: Step)
    ensures Follow(j, [a]) == Apply(j, a)
  {
    assert [a][1..] == [];
  }

  lemma FollowCons(j: Json, a: Step, rest: seq<Step>)
    ensures Follow(j, [a] + rest) == Follow(Apply(j, a), rest)
  {
    assert ([a] + rest)[1..] == rest;
  }

  /** The five places the id may sit, in the order they are tried. */
  const IdPaths: seq<seq<Step>> := [
    [Key("message"), Key("toolCalls"), Head, Key("id")],
    [Key("message"), Key("tool_calls"), Head, Key("id")],
    [Key("message"), Key("tool_call_list"), Head, Key("id")],
    [Key("message"), Key("tool_with_tool_call_list"), Head, Key("tool_call"), Key("id")],
    [Key("id")]
  ]

  /** The value at the first path that is set, `null` when none is. */
  function FirstSetAlong(j: Json, paths: seq<seq<Step>>): Json
  {
    if paths == [] then Null
    else if IsSet(Follow(j, paths[0])) then Follow(j, paths[0])
    else FirstSetAlong(j, paths[1..])
  }

  /** The id as the if/elseif chain of lines 53-72 computes it. */
  function ToolCallId(body: Json): Json
  {
    var m := At(body, "message");
    var camel := At(At0(At(m, "toolCalls")), "id");
    var snake := At(At0(At(m, "tool_calls")), "id");
    var list := At(At0(At(m, "tool_call_list")), "id");
    var nested := At(At(At0(At(m, "tool_with_tool_call_list")), "tool_call"), "id");
    if IsSet(camel) then camel
    else if IsSet(snake) then snake
    else if IsSet(list) then list
    else if IsSet(nested) then nested
    else At(body, "id")
  }

  /** The chain takes the id from the first of the five paths that is set. */
  lemma ToolCallIdIsFirstSetPath(body: Json)
    ensures ToolCallId(body) == FirstSetAlong(body, IdPaths)
  {
    ListPath(body, "toolCalls");
    ListPath(body, "tool_calls");
    ListPath(body, "tool_call_list");
    NestedPath(body);
    FollowOne(body, Key("id"));
    FirstSetAlongOfFive(body, IdPaths[0], IdPaths[1], IdPaths[2], IdPaths[3], IdPaths[4]);
  }

  lemma ListPath(body: Json, list: string)
    ensures Follow(body, [Key("message"), Key(list), Head, Key("id")]) == At(At0(At(At(body, "message"), list)), "id")
  {
    var m, l, id := Key("message"), Key(list), Key("id");
    assert [m, l, Head, id] == [m] + [l, Head, id];
    assert [l, Head, id] == [l] + [Head, id];
    assert [Head, id] == [Head] + [id];
    FollowCons(body, m, [l, Head, id]);
    FollowCons(Apply(body, m), l, [Head, id]);
    FollowCons(Apply(Apply(body, m), l), Head, [id]);
    FollowOne(Apply(Apply(Apply(body, m), l), Head), id);
  }

  lemma NestedPath(body: Json)
    ensures Follow(body, IdPaths[3]) == At(At(At0(At(At(body, "message"), "tool_with_tool_call_list")), "tool_call"), "id")
  {
    var m, w, t, id := Key("message"), Key("tool_with_tool_call_list"), Key("tool_call"), Key("id");
    assert IdPaths[3] == [m] + [w, Head, t, id];
    assert [w, Head, t, id] == [w] + [Head, t, id];
    assert [Head, t, id] == [Head] + [t, id];
    assert [t, id] == [t] + [id];
    FollowCons(body, m, [w, Head, t, id]);
    FollowCons(Apply(body, m), w, [Head, t, id]);
    FollowCons(Apply(Apply(body, m), w), Head, [t, id]);
    FollowCons(Apply(Apply(Apply(body, m), w), Head), t, [id]);
    FollowOne(Apply(Apply(Apply(Apply(body, m), w), Head), t), id);
  }

  lemma FirstSetAlongOfFive(j: Json, p0: seq<Step>, p1: seq<Step>, p2: seq<Step>, p3: seq<Step>, p4: seq<Step>)
    ensures FirstSetAlong(j, [p0, p1, p2, p3, p4]) ==
      if IsSet(Follow(j, p0)) then Follow(j, p0)
      else if IsSet(Follow(j, p1)) then Follow(j, p1)
      else if IsSet(Follow(j, p2)) then Follow(j, p2)
      else if IsSet(Follow(j, p3)) then Follow(j, p3)
      else Follow(j, p4)
  {
    assert [p0, p1, p2, p3, p4] == [p0] + [p1, p2, p3, p4];
    assert [p1, p2, p3, p4] == [p1] + [p2, p3, p4];
    assert [p2, p3, p4] == [p2] + [p3, p4];
    assert [p3, p4] == [p3] + [p4];
    FirstSetAlongCons(j, p0, [p1, p2, p3, p4]);
    FirstSetAlongCons(j, p1, [p2, p3, p4]);
    FirstSetAlongCons(j, p2, [p3, p4]);
    FirstSetAlongCons(j, p3, [p4]);
    assert [p4] == [p4] + [];
    FirstSetAlongCons(j, p4, []);
  }

  lemma FirstSetAlongCons(j: Json, p: seq<Step>, rest: seq<seq<Step>>)
    ensures FirstSetAlong(j, [p] + rest) == if IsSet(Follow(j, p)) then Follow(j, p) else FirstSetAlong(j, rest)
  {
    assert ([p] + rest)[0] == p && ([p] + rest)[1..] == rest;
  }

  /** `FirstSetAlong` is a priority choice: it is null iff no path is set, and
      otherwise it is the value at some path with every earlier path unset. */
  lemma {:induction false} FirstSetAlongChoosesFirst(j: Json, paths: seq<seq<Step>>)
    ensures FirstSetAlong(j, paths) == Null <==> forall i :: 0 <= i < |paths| ==> !IsSet(Follow(j, paths[i]))
    ensures FirstSetAlong(j, paths) != Null ==>
      exists i :: 0 <= i < |paths| && FirstSetAlong(j, paths) == Follow(j, paths[i])
        && forall k :: 0 <= k < i ==> !IsSet(Follow(j, paths[k]))
  {
    if paths != [] {
      FirstSetAlongChoosesFirst(j, paths[1..]);
      if !IsSet(Follow(j, paths[0])) && FirstSetAlong(j, paths) != Null {
        var i :| 0 <= i < |paths[1..]| && FirstSetAlong(j, paths[1..]) == Follow(j, paths[1..][i])
          && forall k :: 0 <= k < i ==> !IsSet(Follow(j, paths[1..][k]));
        assert forall k :: 0 <= k < i + 1 ==> !IsSet(Follow(j, paths[k])) by {
          forall k | 0 <= k < i + 1 ensures !IsSet(Follow(j, paths[k])) {
            if k > 0 { assert paths[k] == paths[1..][k - 1]; }
          }
        }
      }
      if FirstSetAlong(j, paths) == Null {
        forall i | 0 <= i < |paths| ensures !IsSet(Follow(j, paths[i])) {
          if i > 0 { assert paths[i] == paths[1..][i - 1]; }
        }
      }
    }
  }

  // ---------------------------------------------------------------- function and params (lines 91-163)

  /** `function.arguments` as lines 99-103 read it: an array is taken as is,
      anything else goes through `json_decode` (after PHP's string conversion). */
  function DecodeArguments(args: Json, decode: string -> Json): Json
  {
    if IsArray(args) then args else decode(ToPhpString(args))
  }

  /** The test of line 135: `function` is set, and `params` or `arguments` is. */
  predicate IsCallNode(n: Json)
  {
    IsSet(At(n, "function")) && (IsSet(At(n, "params")) || IsSet(At(n, "arguments")))
  }

  /** Lines 137-146: `params` is preferred over `arguments`. */
  function NodeParams(n: Json, decode: string -> Json): Json
  {
    if IsSet(At(n, "params")) then At(n, "params") else DecodeArguments(At(n, "arguments"), decode)
  }

  /** What `extractFunctionAndParams` leaves behind: its return value and the
      two globals it writes. */
  datatype Extraction = Extraction(ok: bool, functionName: Json, params: Json)

  /** The `function` object of the first entry of `message.<list>`. */
  function FirstCallFunction(body: Json, list: string): Json
  {
    At(At0(At(At(body, "message"), list)), "function")
  }

  /** One of the two nested shapes (lines 95-120): the name, and the arguments
      when they are set, otherwise the globals keep `params0`. */
  function NestedShape(f: Json, decode: string -> Json, params0: Json): Extraction
  {
    Extraction(true, At(f, "name"),
      if IsSet(At(f, "arguments")) then DecodeArguments(At(f, "arguments"), decode) else params0)
  }

  /** `extractFunctionAndParams($body)` with the globals holding `name0`
      and `params0` on entry. */
  function Extract(body: Json, decode: string -> Json, name0: Json, params0: Json): Extraction
  {
    var camel := FirstCallFunction(body, "toolCalls");
    var snake := FirstCallFunction(body, "tool_calls");
    if IsSet(At(camel, "name")) then NestedShape(camel, decode, params0)
    else if IsSet(At(snake, "name")) then NestedShape(snake, decode, params0)
    else if IsSet(At(body, "function")) && IsSet(At(body, "params")) then
      Extraction(true, At(body, "function"), At(body, "params"))
    else match FirstMatch(body, IsCallNode)
      case Some(n) => Extraction(true, At(n, "function"), NodeParams(n, decode))
      case None => Extraction(false, name0, params0)
  }

  /** The camelCase shape, once it has a name, decides the outcome: nothing
      else in the body is looked at. */
  lemma CamelShapeDecides(b1: Json, b2: Json, decode: string -> Json, f0: Json, p0: Json)
    requires FirstCallFunction(b1, "toolCalls") == FirstCallFunction(b2, "toolCalls")
    requires IsSet(At(FirstCallFunction(b1, "toolCalls"), "name"))
    ensures Extract(b1, decode, f0, p0) == Extract(b2, decode, f0, p0)
    ensures Extract(b1, decode, f0, p0).ok
  {
  }

  /** Without a camelCase name, the snake_case shape with a name decides the
      outcome; without `arguments` the params keep their previous value. */
  lemma SnakeShapeDecides(b1: Json, b2: Json, decode: string -> Json, f0: Json, p0: Json)
    requires !IsSet(At(FirstCallFunction(b1, "toolCalls"), "name"))
    requires !IsSet(At(FirstCallFunction(b2, "toolCalls"), "name"))
    requires FirstCallFunction(b1, "tool_calls") == FirstCallFunction(b2, "tool_calls")
    requires IsSet(At(FirstCallFunction(b1, "tool_calls"), "name"))
    ensures Extract(b1, decode, f0, p0) == Extract(b2, decode, f0, p0)
    ensures !IsSet(At(FirstCallFunction(b1, "tool_calls"), "arguments")) ==> Extract(b1, decode, f0, p0).params == p0
  {
  }

  /** A camelCase tool call with a name yields that name, and its arguments
      as JSON: decoded from a string, used as they are when already an array,
      the previous params when absent. */
  lemma CamelCallExtracts(body: Json, decode: string -> Json, f0: Json, p0: Json)
    requires IsSet(At(FirstCallFunction(body, "toolCalls"), "name"))
    ensures var f := FirstCallFunction(body, "toolCalls");
      var a := At(f, "arguments");
      var x := Extract(body, decode, f0, p0);
      x.ok && x.functionName == At(f, "name")
      && (a.Str? ==> x.params == decode(a.s))
      && (IsArray(a) ==> x.params == a)
      && (!IsSet(a) ==> x.params == p0)
  {
  }

  /** Without a camelCase name, a snake_case tool call with a name yields
      its name and arguments in the same way. */
  lemma SnakeCallExtracts(body: Json, decode: string -> Json, f0: Json, p0: Json)
    requires !IsSet(At(FirstCallFunction(body, "toolCalls"), "name"))
    requires IsSet(At(FirstCallFunction(body, "tool_calls"), "name"))
    ensures var f := FirstCallFunction(body, "tool_calls");
      var a := At(f, "arguments");
      var x := Extract(body, decode, f0, p0);
      x.ok && x.functionName == At(f, "name")
      && (a.Str? ==> x.params == decode(a.s))
      && (IsArray(a) ==> x.params == a)
      && (!IsSet(a) ==> x.params == p0)
  {
  }

  /** The direct shape (lines 123-127) gives what the recursive search would
      give on the same body: the body is itself the first node it visits. */
  lemma DirectShapeIsFirstNode(body: Json, decode: string -> Json)
    requires IsSet(At(body, "function")) && IsSet(At(body, "params"))
    ensures FirstMatch(body, IsCallNode) == Some(body)
    ensures NodeParams(body, decode) == At(body, "params")
  {
  }

  /** When neither nested shape has a name, extraction succeeds iff some node
      of the body has `function` and `params` or `arguments`, and it then reads
      the first such node in document order. */
  lemma FallbackReadsFirstCallNode(body: Json, decode: string -> Json, f0: Json, p0: Json)
    requires !IsSet(At(FirstCallFunction(body, "toolCalls"), "name"))
    requires !IsSet(At(FirstCallFunction(body, "tool_calls"), "name"))
    ensures Extract(body, decode, f0, p0).ok <==> exists n :: n in Nodes(body) && IsCallNode(n)
    ensures Extract(body, decode, f0, p0).ok ==>
      FirstIn(Nodes(body), IsCallNode).Some? &&
      var n := FirstIn(Nodes(body), IsCallNode).value;
      Extract(body, decode, f0, p0) == Extraction(true, At(n, "function"), NodeParams(n, decode))
    ensures !Extract(body, decode, f0, p0).ok ==> Extract(body, decode, f0, p0) == Extraction(false, f0, p0)
  {
    FirstMatchIsFirstNode(body, IsCallNode);
    FirstInFound(Nodes(body), IsCallNode);
    if IsSet(At(body, "function")) && IsSet(At(body, "params")) {
      DirectShapeIsFirstNode(body, decode);
      assert IsCallNode(body) && body in Nodes(body);
    }
  }

  /** The script's globals `$function` and `$params` (lines 87-88), written by
      the extraction functions. */
  class Request {
    var functionName: Json
    var params: Json

    constructor ()
      ensures functionName == Null && params == Arr([])
    {
      functionName := Null;
      params := Arr([]);
    }

    /** `findFunctionAndParams($data)` (lines 130-160). */
    method FindFunctionAndParams(data: Json, decode: string -> Json) returns (found: bool)
      modifies this
      ensures found == FirstMatch(data, IsCallNode).Some?
      ensures found ==>
        && functionName == At(FirstMatch(data, IsCallNode).value, "function")
        && params == NodeParams(FirstMatch(data, IsCallNode).value, decode)
      ensures !found ==> functionName == old(functionName) && params == old(params)
      decreases data
    {
      if !IsArray(data) {
        return false;
      }
      if IsCallNode(data) {
        functionName := At(data, "function");
        if IsSet(At(data, "params")) {
          params := At(data, "params");
        } else if IsArray(At(data, "arguments")) {
          params := At(data, "arguments");
        } else {
          params := decode(ToPhpString(At(data, "arguments")));
        }
        return true;
      }
      var i := 0;
      while i < Width(data)
        invariant i <= Width(data)
        invariant FirstMatch(data, IsCallNode) == FirstMatchFrom(data, IsCallNode, i)
        invariant functionName == old(functionName) && params == old(params)
      {
        var value := Child(data, i);
        if IsArray(value) {
          var f := FindFunctionAndParams(value, decode);
          if f {
            return true;
          }
        }
        i := i + 1;
      }
      return false;
    }

    /** `extractFunctionAndParams($body)` (lines 91-163). */
    method ExtractFunctionAndParams(body: Json, decode: string -> Json) returns (ok: bool)
      modifies this
      ensures Extraction(ok, functionName, params) == Extract(body, decode, old(functionName), old(params))
    {
      var camel := FirstCallFunction(body, "toolCalls");
      if IsSet(At(camel, "name")) {
        functionName := At(camel, "name");
        if IsSet(At(camel, "arguments")) {
          params := DecodeArguments(At(camel, "arguments"), decode);
        }
        return true;
      }
      var snake := FirstCallFunction(body, "tool_calls");
      if IsSet(At(snake, "name")) {
        functionName := At(snake, "name");
        if IsSet(At(snake, "arguments")) {
          params := DecodeArguments(At(snake, "arguments"), decode);
        }
        return true;
      }
      if IsSet(At(body, "function")) && IsSet(At(body, "params")) {
        functionName := At(body, "function");
        params := At(body, "params");
        return true;
      }
      ok := FindFunctionAndParams(body, decode);
    }
  }

  // ---------------------------------------------------------------- dispatch (lines 193-226)

  /** The Gmail tool the request asks for, with the arguments it is given. */
  datatype GmailCall =
    | SearchEmails(query: Json, maxResults: int)
    | ReadEmail(emailId: Json)
    | CreateDraft(to: Json, subject: Json, body: Json, cc: Json, bcc: Json)

  const QueryRequired := "Le paramètre \"query\" est requis pour la recherche d'emails"
  const EmailIdRequired := "Le paramètre \"emailId\" est requis pour lire un email"
  const DraftFieldsRequired := "Les paramètres \"to\", \"subject\" et \"body\" sont requis pour créer un brouillon"
  const UnknownFunction := "Fonction non reconnue: "

  /** The switch of lines 193-226: the call to make, or the message of the
      exception it throws. */
  function Dispatch(name: Json, params: Json): Result<GmailCall>
  {
    if SwitchMatches(name, "SearchEmails") then
      if !IsSet(At(params, "query")) then Err(QueryRequired)
      else Ok(SearchEmails(At(params, "query"),
        if IsSet(At(params, "maxResults")) then IntVal(At(params, "maxResults")) else 10))
    else if SwitchMatches(name, "ReadEmail") then
      if !IsSet(At(params, "emailId")) then Err(EmailIdRequired)
      else Ok(ReadEmail(At(params, "emailId")))
    else if SwitchMatches(name, "CreateDraft") then
      if !IsSet(At(params, "to")) || !IsSet(At(params, "subject")) || !IsSet(At(params, "body")) then
        Err(DraftFieldsRequired)
      else Ok(CreateDraft(At(params, "to"), At(params, "subject"), At(params, "body"),
        Coalesce(At(params, "cc"), Str("")), Coalesce(At(params, "bcc"), Str(""))))
    else Err(UnknownFunction + ToPhpString(name))
  }

  /** A string name selects a tool only when it is spelled exactly as the tool;
      any other string is reported back as unknown. */
  lemma DispatchIsExact(name: string, params: Json)
    ensures Dispatch(Str(name), params).Ok? && Dispatch(Str(name), params).value.SearchEmails? ==> name == "SearchEmails"
    ensures Dispatch(Str(name), params).Ok? && Dispatch(Str(name), params).value.ReadEmail? ==> name == "ReadEmail"
    ensures Dispatch(Str(name), params).Ok? && Dispatch(Str(name), params).value.CreateDraft? ==> name == "CreateDraft"
    ensures name !in {"SearchEmails", "ReadEmail", "CreateDraft"} ==>
      Dispatch(Str(name), params) == Err(UnknownFunction + name)
  {
  }

  /** The required arguments are checked, and the optional ones defaulted:
      `maxResults` to 10, `cc` and `bcc` to the empty string. */
  lemma DispatchArguments(params: Json)
    ensures Dispatch(Str("SearchEmails"), params).Ok? <==> IsSet(At(params, "query"))
    ensures !IsSet(At(params, "maxResults")) && IsSet(At(params, "query")) ==>
      Dispatch(Str("SearchEmails"), params) == Ok(SearchEmails(At(params, "query"), 10))
    ensures Dispatch(Str("ReadEmail"), params).Ok? <==> IsSet(At(params, "emailId"))
    ensures Dispatch(Str("CreateDraft"), params).Ok? <==>
      IsSet(At(params, "to")) && IsSet(At(params, "subject")) && IsSet(At(params, "body"))
    ensures Dispatch(Str("CreateDraft"), params).Ok? && !IsSet(At(params, "cc")) && !IsSet(At(params, "bcc")) ==>
      Dispatch(Str("CreateDraft"), params).value.cc == Str("") && Dispatch(Str("CreateDraft"), params).value.bcc == Str("")
  {
  }

  // ---------------------------------------------------------------- envelope (lines 173-254)

  const ExtractionFailed := "Erreur: Impossible d'extraire la fonction et les paramètres"

  function Envelope(id: Json, result: string): Json
  {
    Obj([("results", Arr([Obj([("toolCallId", id), ("tool_call_id", id), ("result", Str(result))])]))])
  }

  /** What the handler of gmail_tools.php that a call reaches does: return
      its array, throw (the message of the exception), or end the script
      through the `header('Location: gmail_auth.php'); exit;` of
      `getGmailClient` (gmail_tools.php:107-108, 113-114). */
  datatype Handled = Returned(value: Json) | Threw(message: string) | Exited

  /** How the endpoint ends: the echoed envelope, or the 302 redirect to
      gmail_auth.php with no body and no log entry. */
  datatype Outcome = Sent(body: Json) | RedirectedToAuth

  /** Lines 173-254: the response for an extracted request. `run` is the
      handler the call reaches; `encode` is `json_encode`. */
  function Reply(id: Json, x: Extraction, encode: Json -> string, run: GmailCall -> Handled): Outcome
  {
    if !x.ok || !Truthy(x.functionName) then Sent(Envelope(id, ExtractionFailed))
    else match Dispatch(x.functionName, x.params)
      case Err(m) => Sent(Envelope(id, "Erreur: " + m))
      case Ok(call) =>
        match run(call)
        case Returned(v) => Sent(Envelope(id, encode(v)))
        case Threw(m) => Sent(Envelope(id, "Erreur: " + m))
        case Exited => RedirectedToAuth
  }

  /** The whole endpoint: the globals start as `null` and `[]`. */
  function Respond(body: Json, decode: string -> Json, encode: Json -> string, run: GmailCall -> Handled): Outcome
  {
    Reply(ToolCallId(body), Extract(body, decode, Null, Arr([])), encode, run)
  }

  lemma EnvelopeShape(id: Json, t: string)
    ensures var r := At0(At(Envelope(id, t), "results"));
      Width(At(Envelope(id, t), "results")) == 1
      && At(r, "toolCallId") == id && At(r, "tool_call_id") == id && At(r, "result") == Str(t)
  {
    var fields := [("toolCallId", id), ("tool_call_id", id), ("result", Str(t))];
    assert fields[1..] == [("tool_call_id", id), ("result", Str(t))];
    assert fields[1..][1..] == [("result", Str(t))];
    assert "toolCallId" != "tool_call_id" by { assert "toolCallId"[4] != "tool_call_id"[4]; }
    assert "toolCallId" != "result" && "tool_call_id" != "result";
    assert Lookup(fields, "tool_call_id") == Lookup(fields[1..], "tool_call_id");
    assert Lookup(fields, "result") == Lookup(fields[1..], "result") == Lookup(fields[1..][1..], "result");
  }

  /** Every response that is sent is a single result carrying the extracted
      id under both spellings; the script redirects instead exactly when a
      dispatched call's handler exits. */
  lemma ReplyCarriesId(body: Json, decode: string -> Json, encode: Json -> string, run: GmailCall -> Handled)
    ensures var o := Respond(body, decode, encode, run);
      o.Sent? ==>
        var r := At0(At(o.body, "results"));
        Width(At(o.body, "results")) == 1
        && At(r, "toolCallId") == ToolCallId(body) && At(r, "tool_call_id") == ToolCallId(body)
        && At(r, "result").Str?
    ensures var x := Extract(body, decode, Null, Arr([]));
      Respond(body, decode, encode, run).RedirectedToAuth? <==>
        x.ok && Truthy(x.functionName) && Dispatch(x.functionName, x.params).Ok?
        && run(Dispatch(x.functionName, x.params).value).Exited?
  {
    var x := Extract(body, decode, Null, Arr([]));
    if !x.ok || !Truthy(x.functionName) {
      EnvelopeShape(ToolCallId(body), ExtractionFailed);
    } else {
      match Dispatch(x.functionName, x.params)
      case Err(m) => EnvelopeShape(ToolCallId(body), "Erreur: " + m);
      case Ok(call) =>
        match run(call)
        case Returned(v) => EnvelopeShape(ToolCallId(body), encode(v));
        case Threw(m) => EnvelopeShape(ToolCallId(body), "Erreur: " + m);
        case Exited =>
    }
  }

  /** No handler runs unless extraction produced a truthy name and the switch
      accepted it: the reply then does not depend on the handlers at all. */
  lemma NoHandlerWithoutCall(id: Json, x: Extraction, encode: Json -> string, run1: GmailCall -> Handled, run2: GmailCall -> Handled)
    requires !x.ok || !Truthy(x.functionName) || Dispatch(x.functionName, x.params).Err?
    ensures Reply(id, x, encode, run1) == Reply(id, x, encode, run2)
    ensures Reply(id, x, encode, run1).Sent?
    ensures !x.ok || !Truthy(x.functionName) ==> Reply(id, x, encode, run1) == Sent(Envelope(id, ExtractionFailed))
  {
  }

  /** A dispatched call's reply is the JSON encoding of what that one handler
      returns, or "Erreur: " and the message of the exception it throws, or
      the redirect when it exits. */
  lemma ReplyOfDispatchedCall(id: Json, x: Extraction, encode: Json -> string, run: GmailCall -> Handled, call: GmailCall)
    requires x.ok && Truthy(x.functionName) && Dispatch(x.functionName, x.params) == Ok(call)
    ensures run(call).Returned? ==> Reply(id, x, encode, run) == Sent(Envelope(id, encode(run(call).value)))
    ensures run(call).Threw? ==> Reply(id, x, encode, run) == Sent(Envelope(id, "Erreur: " + run(call).message))
    ensures run(call).Exited? <==> Reply(id, x, encode, run) == RedirectedToAuth
  {
  }

  /** The array a handler returns once `getGmailClient` gave it a client. */
  function ToolReply(call: GmailCall, list: (Json, int) -> Result<seq<GmailTools.MessageRef>>,
                     get: Json -> Result<GmailTools.Message>, create: string -> Result<string>): Json
  {
    match call
    case SearchEmails(query, maxResults) => GmailTools.SearchReply(query, maxResults, list, get)
    case ReadEmail(emailId) => GmailTools.ReadReply(emailId, get)
    case CreateDraft(to, subject, body, cc, bcc) => GmailTools.DraftReply(to, subject, body, cc, bcc, create)
  }

  /** The handlers of gmail_tools.php as the switch calls them, with
      `client` the outcome of their `getGmailClient()`. Each catches its own
      exceptions, a failing client's included, so none reaches the
      endpoint's `catch`; the redirect leaves the handler through `exit`. */
  function Tools(client: GmailTools.ClientOutcome, list: (Json, int) -> Result<seq<GmailTools.MessageRef>>,
                 get: Json -> Result<GmailTools.Message>, create: string -> Result<string>): GmailCall -> Handled
  {
    (call: GmailCall) =>
      match client
      case RedirectToAuth => Exited
      case Failed(m) => Returned(GmailTools.ErrorReply(m))
      case Authorized(_) => Returned(ToolReply(call, list, get, create))
  }

  /** With these handlers the client alone decides how a dispatched call
      ends: the redirect when no token can be found or refreshed locally,
      `{success: false, error}` with the client's message when it fails, and
      the handler's array otherwise; never an "Erreur: " result. */
  lemma ClientDecidesReply(id: Json, x: Extraction, encode: Json -> string, client: GmailTools.ClientOutcome,
                           list: (Json, int) -> Result<seq<GmailTools.MessageRef>>,
                           get: Json -> Result<GmailTools.Message>, create: string -> Result<string>, call: GmailCall)
    requires x.ok && Truthy(x.functionName) && Dispatch(x.functionName, x.params) == Ok(call)
    ensures client.RedirectToAuth? <==> Reply(id, x, encode, Tools(client, list, get, create)) == RedirectedToAuth
    ensures client.Failed? ==>
      Reply(id, x, encode, Tools(client, list, get, create)) == Sent(Envelope(id, encode(GmailTools.ErrorReply(client.message))))
    ensures client.Authorized? ==>
      Reply(id, x, encode, Tools(client, list, get, create)) == Sent(Envelope(id, encode(ToolReply(call, list, get, create))))
  {
    ReplyOfDispatchedCall(id, x, encode, Tools(client, list, get, create), call);
  }

  /** With an authorized client, a Gmail failure shows up inside the
      handler's array as `{success: false, error}`, never as an "Erreur: "
      result. */
  lemma ToolFailuresAreEncoded(id: Json, x: Extraction, encode: Json -> string, client: GmailTools.ClientOutcome,
                               list: (Json, int) -> Result<seq<GmailTools.MessageRef>>,
                               get: Json -> Result<GmailTools.Message>, create: string -> Result<string>, emailId: Json)
    requires client.Authorized?
    requires x.ok && Truthy(x.functionName) && Dispatch(x.functionName, x.params) == Ok(ReadEmail(emailId))
    ensures get(emailId).Err? ==>
      Reply(id, x, encode, Tools(client, list, get, create)) == Sent(Envelope(id, encode(GmailTools.ErrorReply(get(emailId).message))))
    ensures get(emailId).Ok? ==>
      Reply(id, x, encode, Tools(client, list, get, create)) == Sent(Envelope(id, encode(GmailTools.ReadReply(emailId, get))))
  {
    ReplyOfDispatchedCall(id, x, encode, Tools(client, list, get, create), ReadEmail(emailId));
  }

  /** The script's top level (lines 47-255) over its globals. */
  method HandleRequest(body: Json, decode: string -> Json, encode: Json -> string, run: GmailCall -> Handled)
    returns (outcome: Outcome)
    ensures outcome == Respond(body, decode, encode, run)
  {
    var toolCallId := ToolCallId(body);
    var request := new Request();
    var extracted := request.ExtractFunctionAndParams(body, decode);
    if !extracted || !Truthy(request.functionName) {
      outcome := Sent(Envelope(toolCallId, ExtractionFailed));
      return;
    }
    var dispatched := Dispatch(request.functionName, request.params);
    match dispatched {
      case Err(m) =>
        outcome := Sent(Envelope(toolCallId, "Erreur: " + m));
      case Ok(call) =>
        var result := run(call);
        match result {
          case Returned(v) => outcome := Sent(Envelope(toolCallId, encode(v)));
          case Threw(m) => outcome := Sent(Envelope(toolCallId, "Erreur: " + m));
          case Exited => outcome := RedirectedToAuth;
        }
    }
  }

  /** The example request of the draft tool: exactly the three given fields,
      no Cc and no Bcc. */
  lemma DirectDraftExample(decode: string -> Json)
    ensures var body := Obj([("function", Str("CreateDraft")),
                             ("params", Obj([("to", Str("a@b.com")), ("subject", Str("Hi")), ("body", Str("Hello"))]))]);
      var x := Extract(body, decode, Null, Arr([]));
      x.ok && Dispatch(x.functionName, x.params) == Ok(CreateDraft(Str("a@b.com"), Str("Hi"), Str("Hello"), Str(""), Str("")))
  {
  }
}
