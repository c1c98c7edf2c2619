/** contacts_api_vapi.php: the contacts endpoint as Vapi calls it. It takes
    the arguments from the first of four body shapes, lower-cases their keys
    and the action, dispatches, and answers
    `{results: [{tool_call_id, data}]}` or `{results: [{tool_call_id, error}]}`.
    It is the only endpoint that ignores case. */
module ContactsApiVapi {
  import opened Php
  import opened Json
  import opened ContactsApi
  import GmailApi

  // ---------------------------------------------------------------- payload shapes (lines 50-92)

  /** The arguments and the correlation id the shapes yield. */
  datatype Payload = Payload(params: Json, toolCallId: Json)

  /** Lines 58-64: `function.arguments` when set, JSON-decoded if it is a
      string and taken unchanged otherwise; the params stay `[]` when it is
      not set. */
  function ArgumentsOf(toolCall: Json, decode: string -> Json): Json
  {
    var a := At(At(toolCall, "function"), "arguments");
    if !IsSet(a) then Arr([]) else if a.Str? then decode(a.s) else a
  }

  function FromToolCall(toolCall: Json, decode: string -> Json): Payload
  {
    Payload(ArgumentsOf(toolCall, decode), At(toolCall, "id"))
  }

  /** The if/elseif chain of lines 54-92. `uniq` is what `uniqid()` returns. */
  function ExtractPayload(input: Json, decode: string -> Json, uniq: string): Payload
  {
    var m := At(input, "message");
    if IsSet(m) && IsSet(At(m, "tool_calls")) then FromToolCall(At0(At(m, "tool_calls")), decode)
    else if IsSet(m) && IsSet(At(m, "toolCalls")) then FromToolCall(At0(At(m, "toolCalls")), decode)
    else if IsSet(At(input, "tool_calls")) then FromToolCall(At0(At(input, "tool_calls")), decode)
    else if IsSet(At(input, "action")) || IsSet(At(input, "Action")) then Payload(input, Str("test_" + uniq))
    else Payload(Arr([]), Null)
  }

  /** `message.tool_calls`, when set, decides the payload: nothing else in the
      body is looked at. */
  lemma SnakeShapeDecides(b1: Json, b2: Json, decode: string -> Json, uniq: string)
    requires At(b1, "message") == At(b2, "message")
    requires IsSet(At(At(b1, "message"), "tool_calls"))
    ensures ExtractPayload(b1, decode, uniq) == ExtractPayload(b2, decode, uniq)
    ensures ExtractPayload(b1, decode, uniq) == FromToolCall(At0(At(At(b1, "message"), "tool_calls")), decode)
  {
  }

  /** The tool call the chain picks (the first of `message.tool_calls`,
      `message.toolCalls` and `tool_calls` that is set) gives its id, and its
      arguments: decoded from a string, used as they are otherwise, `[]`
      when absent. */
  lemma ToolCallPayload(input: Json, decode: string -> Json, uniq: string, tc: Json)
    requires var m := At(input, "message");
      (IsSet(At(m, "tool_calls")) && tc == At0(At(m, "tool_calls")))
      || (!IsSet(At(m, "tool_calls")) && IsSet(At(m, "toolCalls")) && tc == At0(At(m, "toolCalls")))
      || (!IsSet(At(m, "tool_calls")) && !IsSet(At(m, "toolCalls")) && IsSet(At(input, "tool_calls"))
          && tc == At0(At(input, "tool_calls")))
    ensures var a := At(At(tc, "function"), "arguments");
      var p := ExtractPayload(input, decode, uniq);
      p.toolCallId == At(tc, "id")
      && (a.Str? ==> p.params == decode(a.s))
      && (IsSet(a) && !a.Str? ==> p.params == a)
      && (!IsSet(a) ==> p.params == Arr([]))
  {
  }

  /** The direct shape is taken only when no tool-call list is set: the whole
      body is the params and the id is `test_` and the unique suffix. */
  lemma DirectShape(input: Json, decode: string -> Json, uniq: string)
    requires !IsSet(At(At(input, "message"), "tool_calls")) && !IsSet(At(At(input, "message"), "toolCalls"))
    requires !IsSet(At(input, "tool_calls"))
    ensures IsSet(At(input, "action")) || IsSet(At(input, "Action")) ==>
      ExtractPayload(input, decode, uniq) == Payload(input, Str("test_" + uniq))
    ensures !IsSet(At(input, "action")) && !IsSet(At(input, "Action")) ==>
      ExtractPayload(input, decode, uniq) == Payload(Arr([]), Null)
  {
  }

  /** The two endpoints read a body carrying both spellings differently:
      this one takes the id of `tool_calls`, the Gmail one that of `toolCalls`. */
  lemma PriorityDiffersFromGmail(decode: string -> Json, uniq: string)
    ensures var call := (id: string) => Arr([Obj([("id", Str(id))])]);
      var body := Obj([("message", Obj([("toolCalls", call("camel")), ("tool_calls", call("snake"))]))]);
      ExtractPayload(body, decode, uniq).toolCallId == Str("snake")
      && GmailApi.ToolCallId(body) == Str("camel")
  {
    var call := (id: string) => Arr([Obj([("id", Str(id))])]);
    var m := Obj([("toolCalls", call("camel")), ("tool_calls", call("snake"))]);
    assert "toolCalls" != "tool_calls" by { assert "toolCalls"[4] != "tool_calls"[4]; }
    var rest := [("tool_calls", call("snake"))];
    assert m.fields[1..] == rest;
    assert Lookup(m.fields, "tool_calls") == Lookup(rest, "tool_calls");
    assert Lookup(rest, "tool_calls") == call("snake");
  }

  /** A number given as `arguments` is kept here (and then ignored, as it is
      not an array), where the Gmail endpoint would JSON-decode its text. */
  lemma ArgumentsDifferFromGmail(decode: string -> Json, n: int)
    ensures var tc := Obj([("function", Obj([("arguments", Num(n))]))]);
      ArgumentsOf(tc, decode) == Num(n)
      && GmailApi.DecodeArguments(At(At(tc, "function"), "arguments"), decode) == decode(IntToString(n))
  {
  }

  // ---------------------------------------------------------------- key normalisation (lines 98-104)

  /** `$normalizedParams` after the first `n` rounds of the foreach. */
  function LowerKeysUpTo(p: Json, n: nat): seq<(string, Json)>
    requires n <= Width(p)
  {
    if n == 0 then [] else Put(LowerKeysUpTo(p, n - 1), Lower(KeyAt(p, n - 1)), Child(p, n - 1))
  }

  /** `$normalizedParams` after the loop; empty when the params are not an array. */
  function LowerKeys(p: Json): seq<(string, Json)>
  {
    if IsArray(p) then LowerKeysUpTo(p, Width(p)) else []
  }

  /** A key is present after normalisation iff it is the lower-cased form of
      some key of the params. */
  lemma {:induction false} LowerKeysHas(p: Json, n: nat, k: string)
    requires n <= Width(p)
    ensures HasKey(LowerKeysUpTo(p, n), k) <==> exists i :: 0 <= i < n && Lower(KeyAt(p, i)) == k
  {
    if n > 0 {
      LowerKeysHas(p, n - 1, k);
      PutLookup(LowerKeysUpTo(p, n - 1), Lower(KeyAt(p, n - 1)), Child(p, n - 1), k);
      if exists i :: 0 <= i < n && Lower(KeyAt(p, i)) == k {
        var i :| 0 <= i < n && Lower(KeyAt(p, i)) == k;
        if i < n - 1 {
          assert exists i' :: 0 <= i' < n - 1 && Lower(KeyAt(p, i')) == k;
        }
      }
    }
  }

  /** Values are copied unchanged, and of keys that agree up to case the one
      visited last wins. */
  lemma {:induction false} LowerKeysLaterWins(p: Json, n: nat, i: nat)
    requires i < n <= Width(p)
    requires forall j :: i < j < n ==> Lower(KeyAt(p, j)) != Lower(KeyAt(p, i))
    ensures Lookup(LowerKeysUpTo(p, n), Lower(KeyAt(p, i))) == Child(p, i)
  {
    var k := Lower(KeyAt(p, i));
    PutLookup(LowerKeysUpTo(p, n - 1), Lower(KeyAt(p, n - 1)), Child(p, n - 1), k);
    if i < n - 1 {
      LowerKeysLaterWins(p, n - 1, i);
    }
  }

  /** Every key left after normalisation is lower-case. */
  lemma LowerKeysAreLower(p: Json, k: string)
    requires HasKey(LowerKeys(p), k)
    ensures IsLower(k)
  {
    if IsArray(p) {
      LowerKeysHas(p, Width(p), k);
      var i :| 0 <= i < Width(p) && Lower(KeyAt(p, i)) == k;
      LowerIsLower(KeyAt(p, i));
    }
  }

  /** The foreach of lines 99-104. */
  method NormalizeKeys(params: Json) returns (normalized: seq<(string, Json)>)
    ensures normalized == LowerKeys(params)
  {
    normalized := [];
    if IsArray(params) {
      var i := 0;
      while i < Width(params)
        invariant i <= Width(params)
        invariant normalized == LowerKeysUpTo(params, i)
      {
        normalized := Put(normalized, Lower(KeyAt(params, i)), Child(params, i));
        i := i + 1;
      }
    }
  }

  // ---------------------------------------------------------------- dispatch (lines 110-169)

  /** Lines 129-130: `pagesize`, else `page_size`, else 10, through `intval`. */
  function PageSize(params: Json): int
  {
    if IsSet(At(params, "pagesize")) then IntVal(At(params, "pagesize"))
    else if IsSet(At(params, "page_size")) then IntVal(At(params, "page_size"))
    else 10
  }

  /** The switch of lines 127-169 on the lower-cased action, over the
      normalised params. */
  function Dispatch(action: string, params: Json): Result<ContactsCall>
  {
    if action == "list" then Ok(ListContacts(PageSize(params), At(params, "pagetoken")))
    else if action == "search" then
      match Required(params, "query", QueryRequired)
      case Ok(q) => Ok(SearchContacts(q))
      case Err(m) => Err(m)
    else if action == "findbyemail" then
      match Required(params, "email", EmailRequired)
      case Ok(e) => Ok(FindContactByEmail(e))
      case Err(m) => Err(m)
    else if action == "findbyname" then
      match Required(params, "name", NameRequired)
      case Ok(n) => Ok(FindContactsByName(n))
      case Err(m) => Err(m)
    else if action == "getemailfromname" then
      match Required(params, "name", NameRequiredForEmail)
      case Ok(n) => Ok(GetEmailFromName(n))
      case Err(m) => Err(m)
    else Err(UnknownAction + action)
  }

  const VapiActions: set<string> := {"list", "search", "findbyemail", "findbyname", "getemailfromname"}

  /** What the script ends in: a JSON reply; the reply followed by a fatal
      `Error` (line 207 logs `$result ?? $e->getMessage()`, and with a null
      result and no exception caught `$e` is undefined, so the warning and the
      fatal error text are printed after the JSON, which display_errors,
      turned on again by contacts_tools.php:13, lets through); or PHP's fatal
      `TypeError` when `strtolower` is handed an array as the action (line
      121, outside the `try`). */
  datatype Outcome = Reply(body: Json) | ReplyThenCrash(body: Json) | Crash

  function DataReply(id: Json, data: Json): Json
  {
    Obj([("results", Arr([Obj([("tool_call_id", id), ("data", data)])]))])
  }

  function ErrorReply(id: Json, message: string): Json
  {
    Obj([("results", Arr([Obj([("tool_call_id", id), ("error", Str(message))])]))])
  }

  /** The reply once the params are normalised (lines 110-207). A handler
      that returns null (`findContactByEmail` or `getEmailFromName` without a
      match) leaves `$e` unset, so the log line crashes after the reply. */
  function Finish(params: seq<(string, Json)>, id: Json, run: ContactsCall -> Result<Json>): Outcome
  {
    if |params| == 0 || !IsSet(Lookup(params, "action")) then Reply(Failure(ActionRequired))
    else if IsArray(Lookup(params, "action")) then Crash
    else match Dispatch(Lower(ToPhpString(Lookup(params, "action"))), Obj(params))
      case Err(m) => Reply(ErrorReply(id, m))
      case Ok(call) =>
        match run(call)
        case Ok(v) => if v == Null then ReplyThenCrash(DataReply(id, v)) else Reply(DataReply(id, v))
        case Err(m) => Reply(ErrorReply(id, m))
  }

  /** The script with a log line that does not read `$e` unless an exception
      was caught: the reply is the whole response. */
  function FinishCorrected(params: seq<(string, Json)>, id: Json, run: ContactsCall -> Result<Json>): Outcome
  {
    if |params| == 0 || !IsSet(Lookup(params, "action")) then Reply(Failure(ActionRequired))
    else if IsArray(Lookup(params, "action")) then Crash
    else match Dispatch(Lower(ToPhpString(Lookup(params, "action"))), Obj(params))
      case Err(m) => Reply(ErrorReply(id, m))
      case Ok(call) =>
        match run(call)
        case Ok(v) => Reply(DataReply(id, v))
        case Err(m) => Reply(ErrorReply(id, m))
  }

  /** The script crashes after its reply exactly when a dispatched handler
      returns null; the reply it sent first is the data reply for null. */
  lemma NullResultCrashesAfterReply(params: seq<(string, Json)>, id: Json, run: ContactsCall -> Result<Json>)
    ensures Finish(params, id, run).ReplyThenCrash? <==>
      |params| > 0 && IsSet(Lookup(params, "action")) && !IsArray(Lookup(params, "action"))
      && Dispatch(Lower(ToPhpString(Lookup(params, "action"))), Obj(params)).Ok?
      && run(Dispatch(Lower(ToPhpString(Lookup(params, "action"))), Obj(params)).value) == Ok(Null)
    ensures Finish(params, id, run).ReplyThenCrash? ==> Finish(params, id, run).body == DataReply(id, Null)
  {
  }

  /** A `findByEmail` whose search finds nobody: the reply is sent, then the
      script dies on the log line. */
  lemma FindByEmailWithoutMatch(id: Json, run: ContactsCall -> Result<Json>, email: string)
    requires email == "nobody@example.com"
    requires run(FindContactByEmail(Str(email))) == Ok(Null)
    ensures Finish([("action", Str("findByEmail")), ("email", Str(email))], id, run) == ReplyThenCrash(DataReply(id, Null))
  {
    var params := [("action", Str("findByEmail")), ("email", Str(email))];
    assert "action" != "email" by { assert "action"[0] != "email"[0]; }
    assert Lookup(params, "email") == Lookup(params[1..], "email") == Str(email);
    assert Lower("findByEmail") == "findbyemail";
    assert Truthy(Str(email)) by { assert email[0] == 'n'; }
  }

  /** The corrected script never crashes after replying: where the script as
      written does, it sends the same reply and stops; everywhere else the two
      agree. */
  lemma CorrectedFinishesCleanly(params: seq<(string, Json)>, id: Json, run: ContactsCall -> Result<Json>)
    ensures !FinishCorrected(params, id, run).ReplyThenCrash?
    ensures Finish(params, id, run).ReplyThenCrash? ==> FinishCorrected(params, id, run) == Reply(Finish(params, id, run).body)
    ensures !Finish(params, id, run).ReplyThenCrash? ==> FinishCorrected(params, id, run) == Finish(params, id, run)
  {
  }

  /** The whole endpoint on the decoded body. */
  function Respond(input: Json, decode: string -> Json, uniq: string, run: ContactsCall -> Result<Json>): Outcome
  {
    var payload := ExtractPayload(input, decode, uniq);
    Finish(LowerKeys(payload.params), payload.toolCallId, run)
  }

  /** The whole endpoint with the corrected log line. */
  function RespondCorrected(input: Json, decode: string -> Json, uniq: string, run: ContactsCall -> Result<Json>): Outcome
  {
    var payload := ExtractPayload(input, decode, uniq);
    FinishCorrected(LowerKeys(payload.params), payload.toolCallId, run)
  }

  /** Params that normalise to nothing, or lack `action`, are refused with the
      fixed message, and no handler runs. */
  lemma InvalidParamsAreRefused(params: seq<(string, Json)>, id: Json, run1: ContactsCall -> Result<Json>, run2: ContactsCall -> Result<Json>)
    requires |params| == 0 || !IsSet(Lookup(params, "action"))
    ensures Finish(params, id, run1) == Reply(Failure(ActionRequired))
    ensures Finish(params, id, run1) == Finish(params, id, run2)
  {
  }

  /** The action is matched after lower-casing: only the five lower-case names
      are accepted, whatever the case they were sent in, and the message for
      any other names the lower-cased action. */
  lemma ActionMatchingIgnoresCase(a: string, params: Json)
    ensures Dispatch(Lower(a), params).Ok? ==> Lower(a) in VapiActions
    ensures Lower(a) !in VapiActions ==> Dispatch(Lower(a), params) == Err(UnknownAction + Lower(a))
    ensures Dispatch(Lower(Lower(a)), params) == Dispatch(Lower(a), params)
  {
    LowerIsLower(a);
  }

  /** `list` reads `pagesize` before `page_size` and defaults to 10. */
  lemma ListPageSize(params: Json, n: int, m: int)
    ensures At(params, "pagesize") == Num(n) ==> PageSize(params) == n
    ensures IsInt64(m) && !IsSet(At(params, "pagesize")) && At(params, "page_size") == Str(IntToString(m)) ==> PageSize(params) == m
    ensures !IsSet(At(params, "pagesize")) && !IsSet(At(params, "page_size")) ==> PageSize(params) == 10
  {
    if IsInt64(m) {
      IntValOfNumericString(m);
    }
  }

  /** The other actions refuse a PHP-empty argument, `''` and `'0'` included. */
  lemma RequiredArguments(params: Json)
    ensures Dispatch("search", params).Ok? <==> Truthy(At(params, "query"))
    ensures Dispatch("findbyemail", params).Ok? <==> Truthy(At(params, "email"))
    ensures Dispatch("findbyname", params).Ok? <==> Truthy(At(params, "name"))
    ensures Dispatch("getemailfromname", params).Ok? <==> Truthy(At(params, "name"))
  {
  }

  /** A reply with results holds one result, with the id and exactly one of
      `data` and `error`. */
  lemma ResultHasDataOrError(params: seq<(string, Json)>, id: Json, run: ContactsCall -> Result<Json>)
    requires !Finish(params, id, run).Crash? && HasKey(Finish(params, id, run).body.fields, "results")
    ensures var rs := At(Finish(params, id, run).body, "results");
      Width(rs) == 1 && At(At0(rs), "tool_call_id") == id
      && (HasKey(At0(rs).fields, "data") <==> !HasKey(At0(rs).fields, "error"))
  {
    if !(|params| == 0 || !IsSet(Lookup(params, "action"))) && !IsArray(Lookup(params, "action")) {
      match Dispatch(Lower(ToPhpString(Lookup(params, "action"))), Obj(params))
      case Err(m) => ErrorReplyShape(id, m);
      case Ok(call) =>
        match run(call)
        case Ok(v) => DataReplyShape(id, v);
        case Err(m) => ErrorReplyShape(id, m);
    }
  }

  lemma DataReplyShape(id: Json, data: Json)
    ensures var r := At0(At(DataReply(id, data), "results"));
      Width(At(DataReply(id, data), "results")) == 1 && At(r, "tool_call_id") == id
      && HasKey(r.fields, "data") && !HasKey(r.fields, "error")
  {
    var r := At0(At(DataReply(id, data), "results"));
    assert r == Obj([("tool_call_id", id), ("data", data)]);
    assert r.fields[1].0 == "data";
    forall i | 0 <= i < |r.fields|
      ensures r.fields[i].0 != "error"
    {
      assert r.fields[i].0[0] != 'e';
    }
  }

  lemma ErrorReplyShape(id: Json, message: string)
    ensures var r := At0(At(ErrorReply(id, message), "results"));
      Width(At(ErrorReply(id, message), "results")) == 1 && At(r, "tool_call_id") == id
      && HasKey(r.fields, "error") && !HasKey(r.fields, "data")
  {
    var r := At0(At(ErrorReply(id, message), "results"));
    assert r == Obj([("tool_call_id", id), ("error", Str(message))]);
    assert r.fields[1].0 == "error";
    forall i | 0 <= i < |r.fields|
      ensures r.fields[i].0 != "data"
    {
      assert r.fields[i].0[0] != 'd';
    }
  }

  /** The same request in the two endpoints: the Vapi one accepts a
      capitalised action and argument key, while the plain one, which reads
      only the lower-case `action` key, answers that the action is missing. */
  lemma CaseHandlingDiffers(run: ContactsCall -> Result<Json>, uniq: string, decode: string -> Json)
    ensures var body := Obj([("Action", Str("findByEmail")), ("Email", Str("a@b.fr"))]);
      ContactsApi.Respond(body, run) == ContactsApi.Failure(ContactsApi.ActionRequired)
      && ExtractPayload(body, decode, uniq) == Payload(body, Str("test_" + uniq))
      && LowerKeys(body) == [("action", Str("findByEmail")), ("email", Str("a@b.fr"))]
      && Dispatch(Lower("findByEmail"), Obj(LowerKeys(body))) == Ok(FindContactByEmail(Str("a@b.fr")))
  {
    var body := Obj([("Action", Str("findByEmail")), ("Email", Str("a@b.fr"))]);
    ExampleLowerKeys(body);
    assert Lower("findByEmail") == "findbyemail";
  }

  lemma ExampleLowerKeys(body: Json)
    requires body == Obj([("Action", Str("findByEmail")), ("Email", Str("a@b.fr"))])
    ensures LowerKeys(body) == [("action", Str("findByEmail")), ("email", Str("a@b.fr"))]
  {
    assert Lower("Action") == "action";
    assert Lower("Email") == "email";
    assert KeyAt(body, 0) == "Action" && KeyAt(body, 1) == "Email";
    assert LowerKeysUpTo(body, 1) == Put([], "action", Str("findByEmail")) == [("action", Str("findByEmail"))];
    assert "action"[0] != "email"[0];
    var once := [("action", Str("findByEmail"))];
    assert Put(once, "email", Str("a@b.fr")) == [once[0]] + Put([], "email", Str("a@b.fr"));
  }

  // ---------------------------------------------------------------- the script

  /** Lines 50-104: the payload shapes, then the key normalisation, as the
      script runs them by reassigning `$params` and `$toolCallId`. */
  method ReadToolCall(toolCall: Json, decode: string -> Json) returns (params: Json, toolCallId: Json)
    ensures Payload(params, toolCallId) == FromToolCall(toolCall, decode)
  {
    params := Arr([]);
    toolCallId := if IsSet(At(toolCall, "id")) then At(toolCall, "id") else Null;
    var arguments := At(At(toolCall, "function"), "arguments");
    if IsSet(arguments) {
      if arguments.Str? {
        params := decode(arguments.s);
      } else {
        params := arguments;
      }
    }
  }

  method HandleRequest(input: Json, decode: string -> Json, uniq: string, run: ContactsCall -> Result<Json>)
    returns (outcome: Outcome)
    ensures outcome == Respond(input, decode, uniq, run)
  {
    var params := Arr([]);
    var toolCallId := Null;
    var message := At(input, "message");
    if IsSet(message) && IsSet(At(message, "tool_calls")) {
      params, toolCallId := ReadToolCall(At0(At(message, "tool_calls")), decode);
    } else if IsSet(message) && IsSet(At(message, "toolCalls")) {
      params, toolCallId := ReadToolCall(At0(At(message, "toolCalls")), decode);
    } else if IsSet(At(input, "tool_calls")) {
      params, toolCallId := ReadToolCall(At0(At(input, "tool_calls")), decode);
    } else if IsSet(At(input, "action")) || IsSet(At(input, "Action")) {
      params := input;
      toolCallId := Str("test_" + uniq);
    }
    var normalized := NormalizeKeys(params);
    if |normalized| == 0 || !IsSet(Lookup(normalized, "action")) {
      return Reply(Failure(ActionRequired));
    }
    var actionValue := Lookup(normalized, "action");
    if IsArray(actionValue) {
      return Crash;
    }
    var action := Lower(ToPhpString(actionValue));
    var dispatched := Dispatch(action, Obj(normalized));
    match dispatched {
      case Err(m) =>
        outcome := Reply(ErrorReply(toolCallId, m));
      case Ok(call) =>
        var result := run(call);
        match result {
          case Ok(v) =>
            outcome := Reply(DataReply(toolCallId, v));
            if v == Null {
              outcome := ReplyThenCrash(outcome.body);
            }
          case Err(m) => outcome := Reply(ErrorReply(toolCallId, m));
        }
    }
  }
}
