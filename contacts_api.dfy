/** contacts_api.php: the plain contacts endpoint. The decoded body must carry
    an `action`; the action is matched case-sensitively, its argument is
    checked, and the outcome is wrapped as `{success, data}` or
    `{success, message}`. The call datatype and the messages are shared with
    the Vapi variant (contacts_api_vapi.php). */
module ContactsApi {
  import opened Php
  import opened Json

  /** A call into contacts_tools.php, with the arguments the endpoint passes. */
  datatype ContactsCall =
    | ListContacts(pageSize: int, pageToken: Json)
    | SearchContacts(query: Json)
    | FindContactByEmail(email: Json)
    | FindContactsByName(name: Json)
    | GetEmailFromName(name: Json)

  const ActionRequired := "Données invalides. Le paramètre \"action\" est requis."
  const QueryRequired := "Le paramètre \"query\" est requis pour l'action \"search\"."
  const EmailRequired := "Le paramètre \"email\" est requis pour l'action \"findByEmail\"."
  const NameRequired := "Le paramètre \"name\" est requis pour l'action \"findByName\"."
  const NameRequiredForEmail := "Le paramètre \"name\" est requis pour l'action \"getEmailFromName\"."
  const UnknownAction := "Action non reconnue : "

  /** `$x = isset($in[k]) ? $in[k] : ''; if (empty($x)) throw ...`: the
      argument when it is PHP-truthy, otherwise the exception's message. */
  function Required(input: Json, key: string, message: string): (r: Result<Json>)
    ensures r.Ok? <==> Truthy(At(input, key))
    ensures r.Ok? ==> r.value == At(input, key)
    ensures r.Err? ==> r.message == message
  {
    var x := if IsSet(At(input, key)) then At(input, key) else Str("");
    if !Truthy(x) then Err(message) else Ok(x)
  }

  /** The switch of lines 57-98: the call to make, or the exception's message. */
  function Dispatch(action: Json, input: Json): Result<ContactsCall>
  {
    if SwitchMatches(action, "list") then
      Ok(ListContacts(if IsSet(At(input, "pageSize")) then IntVal(At(input, "pageSize")) else 10,
                      At(input, "pageToken")))
    else if SwitchMatches(action, "search") then
      match Required(input, "query", QueryRequired)
      case Ok(q) => Ok(SearchContacts(q))
      case Err(m) => Err(m)
    else if SwitchMatches(action, "findByEmail") then
      match Required(input, "email", EmailRequired)
      case Ok(e) => Ok(FindContactByEmail(e))
      case Err(m) => Err(m)
    else if SwitchMatches(action, "findByName") then
      match Required(input, "name", NameRequired)
      case Ok(n) => Ok(FindContactsByName(n))
      case Err(m) => Err(m)
    else if SwitchMatches(action, "getEmailFromName") then
      match Required(input, "name", NameRequiredForEmail)
      case Ok(n) => Ok(GetEmailFromName(n))
      case Err(m) => Err(m)
    else Err(UnknownAction + ToPhpString(action))
  }

  function Success(data: Json): Json
  {
    Obj([("success", Bool(true)), ("data", data)])
  }

  function Failure(message: string): Json
  {
    Obj([("success", Bool(false)), ("message", Str(message))])
  }

  /** The whole endpoint on the decoded body `input`. `run` is the handler of
      contacts_tools.php the call reaches: its value, or the message of an
      exception that escapes it. */
  function Respond(input: Json, run: ContactsCall -> Result<Json>): Json
  {
    if !Truthy(input) || !IsSet(At(input, "action")) then Failure(ActionRequired)
    else match Dispatch(At(input, "action"), input)
      case Err(m) => Failure(m)
      case Ok(call) =>
        match run(call)
        case Ok(v) => Success(v)
        case Err(m) => Failure(m)
  }

  const Actions: set<string> := {"list", "search", "findByEmail", "findByName", "getEmailFromName"}

  /** A body that decodes to nothing falsy or has no `action` is refused with
      the fixed message, and no handler runs. */
  lemma InvalidInputIsRefused(input: Json, run1: ContactsCall -> Result<Json>, run2: ContactsCall -> Result<Json>)
    requires !Truthy(input) || !IsSet(At(input, "action"))
    ensures Respond(input, run1) == Failure(ActionRequired)
    ensures Respond(input, run1) == Respond(input, run2)
  {
  }

  /** A string action selects a handler only when it is spelled exactly as one
      of the five actions, case included; any other string is reported back. */
  lemma ActionMatchingIsExact(a: string, input: Json)
    ensures Dispatch(Str(a), input).Ok? ==> a in Actions
    ensures a !in Actions ==> Dispatch(Str(a), input) == Err(UnknownAction + a)
    ensures Dispatch(Str(a), input).Ok? ==>
      match Dispatch(Str(a), input).value
      case ListContacts(_, _) => a == "list"
      case SearchContacts(_) => a == "search"
      case FindContactByEmail(_) => a == "findByEmail"
      case FindContactsByName(_) => a == "findByName"
      case GetEmailFromName(_) => a == "getEmailFromName"
  {
  }

  /** `list` never fails: the page size defaults to 10 and is read with
      `intval`, the page token defaults to null. */
  lemma ListArguments(input: Json, n: int)
    ensures Dispatch(Str("list"), input).Ok?
    ensures !IsSet(At(input, "pageSize")) ==> Dispatch(Str("list"), input).value.pageSize == 10
    ensures IsInt64(n) && At(input, "pageSize") == Str(IntToString(n)) ==> Dispatch(Str("list"), input).value.pageSize == n
    ensures At(input, "pageSize") == Num(n) ==> Dispatch(Str("list"), input).value.pageSize == n
    ensures At(input, "pageSize").Str? ==> IsInt64(Dispatch(Str("list"), input).value.pageSize)
    ensures Dispatch(Str("list"), input).value.pageToken == At(input, "pageToken")
  {
    if IsInt64(n) {
      IntValOfNumericString(n);
    }
  }

  /** The four other actions go ahead iff their argument is PHP-truthy, so
      `''`, `'0'`, `0`, `false` and `[]` are refused like a missing argument. */
  lemma RequiredArguments(input: Json)
    ensures Dispatch(Str("search"), input).Ok? <==> Truthy(At(input, "query"))
    ensures Dispatch(Str("findByEmail"), input).Ok? <==> Truthy(At(input, "email"))
    ensures Dispatch(Str("findByName"), input).Ok? <==> Truthy(At(input, "name"))
    ensures Dispatch(Str("getEmailFromName"), input).Ok? <==> Truthy(At(input, "name"))
    ensures !Truthy(At(input, "query")) ==> Dispatch(Str("search"), input) == Err(QueryRequired)
    ensures !Truthy(At(input, "email")) ==> Dispatch(Str("findByEmail"), input) == Err(EmailRequired)
  {
  }

  /** Every reply has a boolean `success`, and carries `data` exactly when it
      is true and `message` exactly when it is false. */
  lemma ReplyIsSuccessOrFailure(input: Json, run: ContactsCall -> Result<Json>)
    ensures var r := Respond(input, run);
      r.Obj? && (At(r, "success") == Bool(true) || At(r, "success") == Bool(false))
      && (HasKey(r.fields, "data") <==> At(r, "success") == Bool(true))
      && (HasKey(r.fields, "message") <==> At(r, "success") == Bool(false))
  {
    var r := Respond(input, run);
    if r.fields[0].1 == Bool(true) {
      assert r.fields[1].0 == "data";
      assert !HasKey(r.fields, "message") by {
        assert "data" != "message" && "success" != "message";
      }
    } else {
      assert r.fields[1].0 == "message";
      assert !HasKey(r.fields, "data") by {
        assert "message" != "data" && "success" != "data";
      }
    }
  }

  /** A call that goes through reports what the handler returned. */
  lemma DispatchedCallReply(input: Json, run: ContactsCall -> Result<Json>, call: ContactsCall)
    requires Truthy(input) && IsSet(At(input, "action")) && Dispatch(At(input, "action"), input) == Ok(call)
    ensures run(call).Ok? ==> Respond(input, run) == Success(run(call).value)
    ensures run(call).Err? ==> Respond(input, run) == Failure(run(call).message)
  {
  }
}
