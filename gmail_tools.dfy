/** gmail_tools.php: the client's token branches (`getGmailClient`), the
    header pick-out of `searchEmails` and `readEmail`, the depth-first
    `text/plain` body of `getMessageBody`, and the RFC 2822 draft of
    `createDraft` with its base64url encoding. The Gmail service is a pair of
    oracles: `list` answers `users_messages->listUsersMessages`, `get`
    answers `users_messages->get`, `create` answers `users_drafts->create`;
    each gives the value or the message of the exception it throws (an
    exception of `getGmailClient` included). */
module GmailTools {
  import opened Php
  import opened Json
  import opened Base64

  // ---------------------------------------------------------------- getGmailClient (lines 35-119)

  const TokenVariableMissing := "Configuration Gmail incomplète. Variable d'environnement GMAIL_TOKEN_JSON manquante."
  const ReauthenticationNeeded := "Authentification Gmail expirée. Veuillez réauthentifier l'application."

  /** How the call ends: with a client holding `token`, with an exception, or
      with the redirect to gmail_auth.php that ends the script. */
  datatype ClientOutcome = Authorized(token: Json) | Failed(message: string) | RedirectToAuth

  /** `getenv($v)` used as a condition: unset is `false`, a set value is a string. */
  predicate EnvSet(v: Option<string>)
  {
    v.Some? && Truthy(Str(v.value))
  }

  /** What lines 52-60 hand to `setAuthConfig`: the decoded credentials
      variable, or the path of the OAuth client-secret file. */
  datatype AuthConfig = FromEnvironment(credentials: Json) | FromSecretFile(path: string)

  const ClientSecretFile := "client_secret_897210672149-bdk9e05vo6gmnvnqdv0572ebt5voobe0.apps.googleusercontent.com.json"

  function AuthConfigOf(credentials: Option<string>, decode: string -> Json): AuthConfig
  {
    if EnvSet(credentials) then FromEnvironment(decode(credentials.value)) else FromSecretFile(ClientSecretFile)
  }

  /** The outcome of lines 49-118. `credentials` and `tokenVariable` are
      the environment variables GOOGLE_APPLICATION_CREDENTIALS_JSON and
      GMAIL_TOKEN_JSON; `configure` is the message of the exception
      `setAuthConfig` throws on a configuration (a secret file that is
      missing, credentials that are not a valid client), or nothing when it
      accepts it; `fileExists` and `fileContent` describe gmail_token.json;
      `expired` is `isAccessTokenExpired()` on a token and `refresh` the
      client's token after `fetchAccessTokenWithRefreshToken`. */
  function ClientOutcomeOf(credentials: Option<string>, tokenVariable: Option<string>,
                           configure: AuthConfig -> Option<string>,
                           fileExists: bool, fileContent: string,
                           decode: string -> Json, expired: Json -> bool, refresh: Json -> Json): ClientOutcome
  {
    if configure(AuthConfigOf(credentials, decode)).Some? then Failed(configure(AuthConfigOf(credentials, decode)).value)
    else if EnvSet(credentials) then
      if !EnvSet(tokenVariable) then Failed(TokenVariableMissing)
      else
        var token := decode(tokenVariable.value);
        if !expired(token) then Authorized(token)
        else if HasRefreshToken(token) then Authorized(refresh(token))
        else Failed(ReauthenticationNeeded)
    else if !fileExists then RedirectToAuth
    else
      var token := decode(fileContent);
      if !expired(token) then Authorized(token)
      else if HasRefreshToken(token) then Authorized(refresh(token))
      else RedirectToAuth
  }

  /** Line 104 runs: the local branch refreshed the token from the file. */
  predicate WritesTokenFile(credentials: Option<string>, configure: AuthConfig -> Option<string>,
                            fileExists: bool, fileContent: string, decode: string -> Json, expired: Json -> bool)
  {
    !EnvSet(credentials) && configure(FromSecretFile(ClientSecretFile)).None? && fileExists && expired(decode(fileContent)) && HasRefreshToken(decode(fileContent))
  }

  /** gmail_token.json. */
  class TokenFile {
    var present: bool
    var content: string

    constructor (present: bool, content: string)
      ensures this.present == present && this.content == content
    {
      this.present := present;
      this.content := content;
    }
  }

  method GetGmailClient(credentials: Option<string>, tokenVariable: Option<string>,
                        configure: AuthConfig -> Option<string>, file: TokenFile,
                        decode: string -> Json, encode: Json -> string,
                        expired: Json -> bool, refresh: Json -> Json)
    returns (outcome: ClientOutcome)
    modifies file
    ensures outcome == ClientOutcomeOf(credentials, tokenVariable, configure, old(file.present), old(file.content), decode, expired, refresh)
    ensures file.present == old(file.present)
    ensures file.content == if WritesTokenFile(credentials, configure, old(file.present), old(file.content), decode, expired)
                            then encode(outcome.token) else old(file.content)
  {
    var config: AuthConfig;
    if EnvSet(credentials) {
      config := FromEnvironment(decode(credentials.value));
    } else {
      config := FromSecretFile(ClientSecretFile);
    }
    var thrown := configure(config);
    if thrown.Some? {
      outcome := Failed(thrown.value);
      return;
    }
    if EnvSet(credentials) {
      if EnvSet(tokenVariable) {
        var token := decode(tokenVariable.value);
        outcome := Authorized(token);
        if expired(token) {
          if HasRefreshToken(token) {
            outcome := Authorized(refresh(token));
          } else {
            outcome := Failed(ReauthenticationNeeded);
          }
        }
      } else {
        outcome := Failed(TokenVariableMissing);
      }
    } else {
      if file.present {
        var token := decode(file.content);
        outcome := Authorized(token);
        if expired(token) {
          if HasRefreshToken(token) {
            var refreshed := refresh(token);
            outcome := Authorized(refreshed);
            file.content := encode(refreshed);
          } else {
            outcome := RedirectToAuth;
          }
        }
      } else {
        outcome := RedirectToAuth;
      }
    }
  }

  /** A configuration `setAuthConfig` refuses makes the call throw its
      message before any token is read. Once configured, with the credentials
      variable set, the call never redirects: it fails with the "missing
      variable" message when GMAIL_TOKEN_JSON is unset and with the
      reauthentication message exactly when the token is expired and carries
      no refresh token. Without the variable, a configured call never throws. */
  lemma ClientBranches(credentials: Option<string>, tokenVariable: Option<string>,
                       configure: AuthConfig -> Option<string>, fileExists: bool, fileContent: string,
                       decode: string -> Json, expired: Json -> bool, refresh: Json -> Json)
    ensures var o := ClientOutcomeOf(credentials, tokenVariable, configure, fileExists, fileContent, decode, expired, refresh);
      var thrown := configure(AuthConfigOf(credentials, decode));
      (thrown.Some? ==> o == Failed(thrown.value))
      && (EnvSet(credentials) ==> AuthConfigOf(credentials, decode) == FromEnvironment(decode(credentials.value)))
      && (!EnvSet(credentials) ==> AuthConfigOf(credentials, decode) == FromSecretFile(ClientSecretFile))
      && (EnvSet(credentials) ==> !o.RedirectToAuth?)
      && (thrown.None? && EnvSet(credentials) && !EnvSet(tokenVariable) ==> o == Failed(TokenVariableMissing))
      && (thrown.None? && EnvSet(credentials) && EnvSet(tokenVariable) ==>
            (o == Failed(ReauthenticationNeeded) <==>
               expired(decode(tokenVariable.value)) && !HasRefreshToken(decode(tokenVariable.value))))
      && (!EnvSet(credentials) ==> (o.Failed? <==> thrown.Some?))
      && (thrown.None? && !EnvSet(credentials) && !fileExists ==> o == RedirectToAuth)
  {
  }

  /** The local branch writes the refreshed token back, so the next call
      reads it from the file: when the decoder undoes the encoder on it and it
      has not expired, the next client holds the same token and writes nothing. */
  lemma RefreshedTokenIsReused(fileContent: string, configure: AuthConfig -> Option<string>,
                               decode: string -> Json, encode: Json -> string,
                               expired: Json -> bool, refresh: Json -> Json, tokenVariable: Option<string>)
    requires WritesTokenFile(None, configure, true, fileContent, decode, expired)
    requires decode(encode(refresh(decode(fileContent)))) == refresh(decode(fileContent))
    requires !expired(refresh(decode(fileContent)))
    ensures var first := ClientOutcomeOf(None, tokenVariable, configure, true, fileContent, decode, expired, refresh);
      var written := encode(first.token);
      ClientOutcomeOf(None, tokenVariable, configure, true, written, decode, expired, refresh) == first
      && !WritesTokenFile(None, configure, true, written, decode, expired)
  {
  }

  // ---------------------------------------------------------------- headers (lines 150-176, 210-237)

  /** A message header, `getName()` and `getValue()`. */
  datatype Header = Header(name: string, value: string)

  /** What the header loop leaves in a field: the value of the last header
      with that name, `''` when there is none. */
  function LastValue(headers: seq<Header>, name: string): string
    decreases |headers|
  {
    if headers == [] then ""
    else if headers[|headers| - 1].name == name then headers[|headers| - 1].value
    else LastValue(headers[..|headers| - 1], name)
  }

  /** Without a header of that name the field keeps its default. */
  lemma {:induction false} LastValueDefault(headers: seq<Header>, name: string)
    requires forall i :: 0 <= i < |headers| ==> headers[i].name != name
    ensures LastValue(headers, name) == ""
    decreases |headers|
  {
    if headers != [] {
      var init := headers[..|headers| - 1];
      assert forall i :: 0 <= i < |init| ==> init[i] == headers[i];
      LastValueDefault(init, name);
    }
  }

  /** Otherwise it holds the value of the last header of that name. */
  lemma {:induction false} LastValueIsLastOccurrence(headers: seq<Header>, name: string, i: nat)
    requires i < |headers| && headers[i].name == name
    requires forall j :: i < j < |headers| ==> headers[j].name != name
    ensures LastValue(headers, name) == headers[i].value
    decreases |headers|
  {
    if i < |headers| - 1 {
      var init := headers[..|headers| - 1];
      assert forall j :: 0 <= j < |init| ==> init[j] == headers[j];
      LastValueIsLastOccurrence(init, name, i);
    }
  }

  /** The four fields the loop fills. */
  datatype Picked = Picked(date: string, from: string, to: string, subject: string)

  function PickedHeaders(headers: seq<Header>): Picked
  {
    Picked(LastValue(headers, "Date"), LastValue(headers, "From"), LastValue(headers, "To"), LastValue(headers, "Subject"))
  }

  /** A header with any other name leaves the four fields as they were. */
  lemma OtherHeadersAreIgnored(headers: seq<Header>, h: Header)
    requires h.name !in {"Date", "From", "To", "Subject"}
    ensures PickedHeaders(headers + [h]) == PickedHeaders(headers)
  {
    assert (headers + [h])[..|headers|] == headers;
  }

  /** The `foreach ($headers as $header) switch ($header->getName())` loop. */
  method PickHeaders(headers: seq<Header>) returns (picked: Picked)
    ensures picked == PickedHeaders(headers)
  {
    var date, from, to, subject := "", "", "", "";
    for i := 0 to |headers|
      invariant date == LastValue(headers[..i], "Date")
      invariant from == LastValue(headers[..i], "From")
      invariant to == LastValue(headers[..i], "To")
      invariant subject == LastValue(headers[..i], "Subject")
    {
      var header := headers[i];
      assert headers[..i + 1][..i] == headers[..i];
      if header.name == "Date" {
        date := header.value;
      } else if header.name == "From" {
        from := header.value;
      } else if header.name == "To" {
        to := header.value;
      } else if header.name == "Subject" {
        subject := header.value;
      }
    }
    assert headers[..|headers|] == headers;
    picked := Picked(date, from, to, subject);
  }

  function HeaderFields(p: Picked): seq<(string, Json)>
  {
    [("date", Str(p.date)), ("from", Str(p.from)), ("to", Str(p.to)), ("subject", Str(p.subject))]
  }

  // ---------------------------------------------------------------- message bodies (lines 240-277)

  /** A MIME part: its type, its body data (`''` when it has none) and its sub-parts. */
  datatype Part = Part(mimeType: string, data: string, parts: seq<Part>)

  datatype Message = Message(id: string, threadId: string, snippet: string, headers: seq<Header>, payload: Part)

  /** Concatenation of a sequence of sequences. */
  function Join<T>(xs: seq<seq<T>>): seq<T>
    decreases |xs|
  {
    if xs == [] then [] else Join(xs[..|xs| - 1]) + xs[|xs| - 1]
  }

  /** Lines 250 and 273: the URL-safe data decoded, as a PHP string. */
  function DecodedData(data: string): string
  {
    Text(UrlDecode(data))
  }

  /** What a part contributes itself (lines 248-252): its decoded data when
      it has data and is `text/plain`, nothing otherwise. */
  function OwnText(p: Part): string
  {
    if Truthy(Str(p.data)) && p.mimeType == "text/plain" then DecodedData(p.data) else ""
  }

  function ChildTexts(p: Part): seq<string>
    decreases p, 0
  {
    seq(|p.parts|, i requires 0 <= i < |p.parts| => PlainText(p.parts[i]))
  }

  /** `getMessageBody($part)`: its own text, then that of each sub-part. */
  function PlainText(p: Part): string
    decreases p, 1
  {
    OwnText(p) + Join(ChildTexts(p))
  }

  /** The recursion of lines 244-262. */
  method MessageBody(part: Part) returns (body: string)
    ensures body == PlainText(part)
    decreases part, 1
  {
    body := "";
    if Truthy(Str(part.data)) {
      if part.mimeType == "text/plain" {
        body := DecodedData(part.data);
      }
    }
    var below := "";
    if |part.parts| > 0 {
      below := SubPartsBody(part);
    }
    body := body + below;
  }

  /** The loop of lines 255-259: the bodies of the sub-parts, in order. */
  method SubPartsBody(part: Part) returns (body: string)
    ensures body == Join(ChildTexts(part))
    decreases part, 0
  {
    body := "";
    ghost var texts := ChildTexts(part);
    for i := 0 to |part.parts|
      invariant body == Join(texts[..i])
    {
      var sub := MessageBody(part.parts[i]);
      ChildTextAt(part, i);
      JoinPrefixStep(texts, i);
      body := body + sub;
    }
    assert texts[..|part.parts|] == texts;
  }

  lemma ChildTextAt(p: Part, i: nat)
    requires i < |p.parts|
    ensures |ChildTexts(p)| == |p.parts| && ChildTexts(p)[i] == PlainText(p.parts[i])
  {
  }

  /** One more element of the prefix adds that element to the join. */
  lemma JoinPrefixStep<T>(xs: seq<seq<T>>, i: nat)
    requires i < |xs|
    ensures Join(xs[..i + 1]) == Join(xs[..i]) + xs[i]
  {
    assert xs[..i + 1][..i] == xs[..i];
  }

  /** The parts of a tree in pre-order: the part, then the parts below each
      sub-part in turn. */
  function Flatten(p: Part): seq<Part>
    decreases p
  {
    [p] + Join(seq(|p.parts|, i requires 0 <= i < |p.parts| => Flatten(p.parts[i])))
  }

  function OwnTexts(ps: seq<Part>): seq<string>
  {
    seq(|ps|, i requires 0 <= i < |ps| => OwnText(ps[i]))
  }

  lemma {:induction false} JoinAppend<T>(a: seq<seq<T>>, b: seq<seq<T>>)
    ensures Join(a + b) == Join(a) + Join(b)
    decreases |b|
  {
    if b == [] {
      assert a + b == a;
    } else {
      var init := b[..|b| - 1];
      assert (a + b)[..|a + b| - 1] == a + init;
      assert (a + b)[|a + b| - 1] == b[|b| - 1];
      JoinAppend(a, init);
      assert Join(a + b) == Join(a + init) + b[|b| - 1];
      assert Join(b) == Join(init) + b[|b| - 1];
    }
  }

  lemma {:induction false} JoinJoin<T>(g: seq<seq<seq<T>>>)
    ensures Join(Join(g)) == Join(seq(|g|, i requires 0 <= i < |g| => Join(g[i])))
    decreases |g|
  {
    if g != [] {
      var init := g[..|g| - 1];
      JoinJoin(init);
      JoinAppend(Join(init), g[|g| - 1]);
      var s := seq(|g|, i requires 0 <= i < |g| => Join(g[i]));
      assert s[..|g| - 1] == seq(|init|, i requires 0 <= i < |init| => Join(init[i]));
    }
  }

  lemma OwnTextsAppend(a: seq<Part>, b: seq<Part>)
    ensures OwnTexts(a + b) == OwnTexts(a) + OwnTexts(b)
  {
  }

  lemma {:induction false} OwnTextsJoin(f: seq<seq<Part>>)
    ensures OwnTexts(Join(f)) == Join(seq(|f|, i requires 0 <= i < |f| => OwnTexts(f[i])))
    decreases |f|
  {
    if f != [] {
      var init := f[..|f| - 1];
      OwnTextsJoin(init);
      OwnTextsAppend(Join(init), f[|f| - 1]);
      var s := seq(|f|, i requires 0 <= i < |f| => OwnTexts(f[i]));
      assert s[..|f| - 1] == seq(|init|, i requires 0 <= i < |init| => OwnTexts(init[i]));
    }
  }

  /** The sub-parts' texts are the own texts of every part below `p`, in pre-order. */
  lemma {:induction false} ChildrenArePreOrder(p: Part)
    ensures Join(ChildTexts(p)) == Join(OwnTexts(Flatten(p)[1..]))
    decreases p, 0
  {
    var f := seq(|p.parts|, i requires 0 <= i < |p.parts| => Flatten(p.parts[i]));
    var g := seq(|f|, i requires 0 <= i < |f| => OwnTexts(f[i]));
    forall i | 0 <= i < |p.parts|
      ensures ChildTexts(p)[i] == Join(g[i])
    {
      PlainTextIsPreOrder(p.parts[i]);
    }
    assert ChildTexts(p) == seq(|g|, i requires 0 <= i < |g| => Join(g[i]));
    assert Flatten(p)[1..] == Join(f);
    OwnTextsJoin(f);
    JoinJoin(g);
  }

  /** `getMessageBody` concatenates the own texts of the part tree in pre-order. */
  lemma {:induction false} PlainTextIsPreOrder(p: Part)
    ensures PlainText(p) == Join(OwnTexts(Flatten(p)))
    decreases p, 1
  {
    ChildrenArePreOrder(p);
    PreOrderStartsWithPart(p);
  }

  lemma PreOrderStartsWithPart(p: Part)
    ensures Join(OwnTexts(Flatten(p))) == OwnText(p) + Join(OwnTexts(Flatten(p)[1..]))
  {
    var flat := Flatten(p);
    var rest := OwnTexts(flat[1..]);
    assert OwnTexts(flat) == [OwnText(p)] + rest;
    JoinAppend([OwnText(p)], rest);
    JoinSingleton(OwnText(p));
  }

  lemma JoinSingleton<T>(x: seq<T>)
    ensures Join([x]) == x
  {
    assert [x][..0] == [];
  }

  /** The body `readEmail` reports (lines 240-277): with parts, the text of
      each part in turn (the payload's own data is not read); without, the
      payload's decoded data whatever its type, or `''`. */
  function BodyText(payload: Part): string
  {
    if |payload.parts| > 0 then Join(ChildTexts(payload))
    else if Truthy(Str(payload.data)) then DecodedData(payload.data)
    else ""
  }

  /** With parts, the body is every `text/plain` part below the payload, in
      pre-order; the payload itself never contributes. */
  lemma BodyIsPreOrderBelowPayload(payload: Part)
    requires |payload.parts| > 0
    ensures BodyText(payload) == Join(OwnTexts(Flatten(payload)[1..]))
  {
    ChildrenArePreOrder(payload);
  }

  /** A part's data counts only when it is `text/plain`, but the data of a
      payload without parts is decoded whatever its type: a message sent as
      `createDraft` encodes it reads back as the bytes that were encoded. */
  lemma PayloadDataIgnoresType(mimeType: string, b: seq<Byte>)
    ensures BodyText(Part(mimeType, UrlEncode(b), [])) == Text(b)
    ensures mimeType != "text/plain" ==> PlainText(Part(mimeType, UrlEncode(b), [])) == ""
  {
    UrlRoundTrip(b);
    if b != [] {
      UrlEncodeOfNonEmpty(b);
    }
  }

  method ReadBody(payload: Part) returns (body: string)
    ensures body == BodyText(payload)
  {
    body := "";
    if |payload.parts| > 0 {
      body := SubPartsBody(payload);
    } else {
      var data := payload.data;
      if Truthy(Str(data)) {
        body := DecodedData(data);
      }
    }
  }

  // ---------------------------------------------------------------- searchEmails and readEmail

  function ErrorReply(message: string): Json
  {
    Obj([("success", Bool(false)), ("error", Str(message))])
  }

  /** A message of the listing: `getId()` and `getThreadId()`. */
  datatype MessageRef = MessageRef(id: string, threadId: string)

  /** The `$email` array of lines 150-176 for a listed message and its metadata. */
  function Summary(r: MessageRef, m: Message): Json
  {
    Obj([("id", Str(r.id)), ("threadId", Str(r.threadId)), ("snippet", Str(m.snippet))] + HeaderFields(PickedHeaders(m.headers)))
  }

  /** The loop of lines 146-179: the summaries in listing order, or the
      message of the first fetch that throws. */
  function Summaries(refs: seq<MessageRef>, get: Json -> Result<Message>): Result<seq<Json>>
    decreases |refs|
  {
    if refs == [] then Ok([])
    else match Summaries(refs[..|refs| - 1], get)
      case Err(m) => Err(m)
      case Ok(es) =>
        match get(Str(refs[|refs| - 1].id))
        case Err(m) => Err(m)
        case Ok(msg) => Ok(es + [Summary(refs[|refs| - 1], msg)])
  }

  /** `searchEmails($query, $maxResults)`. */
  function SearchReply(query: Json, maxResults: int,
                       list: (Json, int) -> Result<seq<MessageRef>>, get: Json -> Result<Message>): Json
  {
    match list(query, maxResults)
    case Err(m) => ErrorReply(m)
    case Ok(refs) =>
      match Summaries(refs, get)
      case Err(m) => ErrorReply(m)
      case Ok(es) => Obj([("success", Bool(true)), ("count", Num(|es|)), ("emails", Arr(es))])
  }

  /** One summary per listed message, in listing order, when every fetch
      succeeds; otherwise the first failing fetch's message. */
  lemma {:induction false} SummariesInOrder(refs: seq<MessageRef>, get: Json -> Result<Message>)
    ensures Summaries(refs, get).Ok? <==> forall i :: 0 <= i < |refs| ==> get(Str(refs[i].id)).Ok?
    ensures Summaries(refs, get).Ok? ==>
      |Summaries(refs, get).value| == |refs|
      && forall i :: 0 <= i < |refs| ==> Summaries(refs, get).value[i] == Summary(refs[i], get(Str(refs[i].id)).value)
    ensures Summaries(refs, get).Err? ==>
      exists k :: 0 <= k < |refs| && get(Str(refs[k].id)) == Err(Summaries(refs, get).message)
                  && forall i :: 0 <= i < k ==> get(Str(refs[i].id)).Ok?
    decreases |refs|
  {
    if refs != [] {
      var init := refs[..|refs| - 1];
      SummariesInOrder(init, get);
      assert forall i :: 0 <= i < |init| ==> init[i] == refs[i];
    }
  }

  /** A successful reply lists every message, and its `count` is the number
      of summaries it carries. */
  lemma SearchCountIsLength(query: Json, maxResults: int,
                            list: (Json, int) -> Result<seq<MessageRef>>, get: Json -> Result<Message>)
    ensures var r := SearchReply(query, maxResults, list, get);
      At(r, "success") == Bool(true) ==>
        list(query, maxResults).Ok?
        && At(r, "count") == Num(|list(query, maxResults).value|)
        && At(r, "emails").Arr?
        && |At(r, "emails").items| == |list(query, maxResults).value|
  {
    var r := SearchReply(query, maxResults, list, get);
    if list(query, maxResults).Err? || Summaries(list(query, maxResults).value, get).Err? {
      assert r.fields[0] == ("success", Bool(false));
    } else {
      var refs := list(query, maxResults).value;
      SummariesInOrder(refs, get);
      var es := Summaries(refs, get).value;
      var f := [("success", Bool(true)), ("count", Num(|es|)), ("emails", Arr(es))];
      assert r == Obj(f);
      assert "success"[0] != "count"[0] && "success"[0] != "emails"[0] && "count"[0] != "emails"[0];
      assert Lookup(f, "count") == Lookup(f[1..], "count") == Num(|es|);
      assert Lookup(f, "emails") == Lookup(f[1..], "emails") == Lookup(f[2..], "emails") == Arr(es);
    }
  }

  lemma {:induction false} FailureStays(refs: seq<MessageRef>, k: nat, get: Json -> Result<Message>)
    requires k <= |refs|
    requires Summaries(refs[..k], get).Err?
    ensures Summaries(refs, get) == Summaries(refs[..k], get)
    decreases |refs| - k
  {
    if k < |refs| {
      assert refs[..k + 1][..k] == refs[..k];
      FailureStays(refs, k + 1, get);
    } else {
      assert refs[..k] == refs;
    }
  }

  method SearchEmails(query: Json, maxResults: int,
                      list: (Json, int) -> Result<seq<MessageRef>>, get: Json -> Result<Message>)
    returns (reply: Json)
    ensures reply == SearchReply(query, maxResults, list, get)
  {
    var listed := list(query, maxResults);
    if listed.Err? {
      return ErrorReply(listed.message);
    }
    var refs := listed.value;
    var emails: seq<Json> := [];
    for i := 0 to |refs|
      invariant Summaries(refs[..i], get) == Ok(emails)
    {
      var fetched := get(Str(refs[i].id));
      assert refs[..i + 1][..i] == refs[..i];
      if fetched.Err? {
        FailureStays(refs, i + 1, get);
        return ErrorReply(fetched.message);
      }
      var picked := PickHeaders(fetched.value.headers);
      var email := Obj([("id", Str(refs[i].id)), ("threadId", Str(refs[i].threadId)), ("snippet", Str(fetched.value.snippet))]
                       + HeaderFields(picked));
      emails := emails + [email];
    }
    assert refs[..|refs|] == refs;
    reply := Obj([("success", Bool(true)), ("count", Num(|emails|)), ("emails", Arr(emails))]);
  }

  /** `readEmail($emailId)`. */
  function ReadReply(emailId: Json, get: Json -> Result<Message>): Json
  {
    match get(emailId)
    case Err(m) => ErrorReply(m)
    case Ok(msg) =>
      Obj([("success", Bool(true)),
           ("email", Obj([("id", Str(msg.id)), ("threadId", Str(msg.threadId)), ("snippet", Str(msg.snippet))]
                         + HeaderFields(PickedHeaders(msg.headers)) + [("body", Str(BodyText(msg.payload)))]))])
  }

  method ReadEmail(emailId: Json, get: Json -> Result<Message>) returns (reply: Json)
    ensures reply == ReadReply(emailId, get)
  {
    var fetched := get(emailId);
    if fetched.Err? {
      return ErrorReply(fetched.message);
    }
    var msg := fetched.value;
    var picked := PickHeaders(msg.headers);
    var body := ReadBody(msg.payload);
    reply := Obj([("success", Bool(true)),
                  ("email", Obj([("id", Str(msg.id)), ("threadId", Str(msg.threadId)), ("snippet", Str(msg.snippet))]
                                + HeaderFields(picked) + [("body", Str(body))]))]);
  }

  // ---------------------------------------------------------------- createDraft (lines 301-345)

  const Crlf := "\r\n"
  const FromLine := "From: me"
  const ContentTypeLine := "Content-Type: text/plain; charset=UTF-8"
  const DraftCreated := "Brouillon créé avec succès"

  /** `if (!empty($x))`: the line when the value is non-empty. */
  function LineIf(value: Json, line: string): seq<string>
  {
    if Truthy(value) then [line] else []
  }

  /** The header lines of lines 308-320, in order; `Cc` and `Bcc` only when non-empty. */
  function DraftHeaders(to: Json, subject: Json, cc: Json, bcc: Json): seq<string>
  {
    [FromLine, "To: " + ToPhpString(to)]
    + LineIf(cc, "Cc: " + ToPhpString(cc))
    + LineIf(bcc, "Bcc: " + ToPhpString(bcc))
    + ["Subject: " + ToPhpString(subject), ContentTypeLine]
  }

  /** Each line followed by CRLF. */
  function Terminated(lines: seq<string>): string
    decreases |lines|
  {
    if lines == [] then "" else Terminated(lines[..|lines| - 1]) + (lines[|lines| - 1] + Crlf)
  }

  /** The message text: the header block, a blank line, the body. */
  function DraftText(to: Json, subject: Json, body: Json, cc: Json, bcc: Json): string
  {
    Terminated(DraftHeaders(to, subject, cc, bcc)) + (Crlf + ToPhpString(body))
  }

  /** `implode($sep, $lines)` */
  function Implode(lines: seq<string>, sep: string): string
    decreases |lines|
  {
    if lines == [] then ""
    else if |lines| == 1 then lines[0]
    else Implode(lines[..|lines| - 1], sep) + sep + lines[|lines| - 1]
  }

  lemma {:induction false} TerminatedThenLast(lines: seq<string>, last: string)
    ensures Terminated(lines) + last == Implode(lines + [last], Crlf)
    decreases |lines|
  {
    var all := lines + [last];
    assert all[..|all| - 1] == lines;
    if lines != [] {
      var init := lines[..|lines| - 1];
      TerminatedThenLast(init, lines[|lines| - 1]);
      assert init + [lines[|lines| - 1]] == lines;
    }
  }

  /** The draft is its lines joined by CRLF: the headers, an empty line, the body. */
  lemma DraftIsCrlfJoined(to: Json, subject: Json, body: Json, cc: Json, bcc: Json)
    ensures DraftText(to, subject, body, cc, bcc)
            == Implode(DraftHeaders(to, subject, cc, bcc) + ["", ToPhpString(body)], Crlf)
  {
    TerminatedThenBody(DraftHeaders(to, subject, cc, bcc), ToPhpString(body));
  }

  /** Terminated lines, CRLF and a body are the lines, an empty line and
      the body joined by CRLF. */
  lemma TerminatedThenBody(h: seq<string>, b: string)
    ensures Terminated(h) + (Crlf + b) == Implode(h + ["", b], Crlf)
  {
    TerminatedThenLast(h + [""], b);
    assert (h + [""])[..|h|] == h;
    assert Terminated(h + [""]) == Terminated(h) + Crlf;
    assert h + [""] + [b] == h + ["", b];
  }

  predicate StartsWith(s: string, prefix: string)
  {
    |prefix| <= |s| && s[..|prefix|] == prefix
  }

  lemma PrefixStarts(p: string, r: string)
    ensures StartsWith(p + r, p)
  {
    assert (p + r)[..|p|] == p;
  }

  /** A text whose first character differs from the prefix's does not start with it. */
  lemma FirstCharDiffers(s: string, p: string)
    requires |s| > 0 && |p| > 0 && s[0] != p[0]
    ensures !StartsWith(s, p)
  {
    if |p| <= |s| {
      assert s[..|p|][0] == s[0];
    }
  }

  /** The fixed lines start with neither `Cc: ` nor `Bcc: `. */
  lemma NotACopyLine(x: string)
    requires |x| >= 2
    requires x[0] == 'F' || x[0] == 'T' || x[0] == 'S' || (x[0] == 'C' && x[1] == 'o')
    ensures !StartsWith(x, "Cc: ") && !StartsWith(x, "Bcc: ")
  {
    if |x| >= 4 {
      assert x[..4][0] == x[0] && x[..4][1] == x[1];
    }
    if |x| >= 5 {
      assert x[..5][0] == x[0];
    }
  }

  /** A `Cc:` line is present iff `cc` is non-empty, a `Bcc:` line iff
      `bcc` is; `From` comes first, `To` second, and the `Subject` and
      `Content-Type` lines close the block. */
  lemma CopyLinesIffNonEmpty(to: Json, subject: Json, cc: Json, bcc: Json)
    ensures var h := DraftHeaders(to, subject, cc, bcc);
      ((exists x :: x in h && StartsWith(x, "Cc: ")) <==> Truthy(cc))
      && ((exists x :: x in h && StartsWith(x, "Bcc: ")) <==> Truthy(bcc))
      && h[0] == "From: me" && h[1] == "To: " + ToPhpString(to)
      && h[|h| - 2] == "Subject: " + ToPhpString(subject)
  {
    var h := DraftHeaders(to, subject, cc, bcc);
    CopyLinesByFlag(ToPhpString(to), ToPhpString(subject), ToPhpString(cc), ToPhpString(bcc), Truthy(cc), Truthy(bcc));
    assert h == HeaderLines(ToPhpString(to), ToPhpString(subject), ToPhpString(cc), ToPhpString(bcc), Truthy(cc), Truthy(bcc));
  }

  /** The header block over the values as text, with the copy lines chosen by flags. */
  function HeaderLines(t: string, sub: string, c: string, b: string, hasCc: bool, hasBcc: bool): seq<string>
  {
    [FromLine, "To: " + t]
    + (if hasCc then ["Cc: " + c] else [])
    + (if hasBcc then ["Bcc: " + b] else [])
    + ["Subject: " + sub, ContentTypeLine]
  }

  /** In the header block a copy line is present iff its flag is set;
      `From` and `To` open the block and `Subject` is next to last. */
  lemma CopyLinesByFlag(t: string, sub: string, c: string, b: string, hasCc: bool, hasBcc: bool)
    ensures var h := HeaderLines(t, sub, c, b, hasCc, hasBcc);
      ((exists x :: x in h && StartsWith(x, "Cc: ")) <==> hasCc)
      && ((exists x :: x in h && StartsWith(x, "Bcc: ")) <==> hasBcc)
      && h[0] == "From: me" && h[1] == "To: " + t
      && h[|h| - 2] == "Subject: " + sub
  {
    CopyLinesPresent(t, sub, c, b, hasCc, hasBcc);
    var h := HeaderLines(t, sub, c, b, hasCc, hasBcc);
    var n := |h|;
    assert h[n - 2..] == ["Subject: " + sub, ContentTypeLine];
    assert h[n - 2] == h[n - 2..][0];
  }

  lemma CopyLinesPresent(t: string, sub: string, c: string, b: string, hasCc: bool, hasBcc: bool)
    ensures var h := HeaderLines(t, sub, c, b, hasCc, hasBcc);
      ((exists x :: x in h && StartsWith(x, "Cc: ")) <==> hasCc)
      && ((exists x :: x in h && StartsWith(x, "Bcc: ")) <==> hasBcc)
  {
    var head := [FromLine, "To: " + t];
    var tail := ["Subject: " + sub, ContentTypeLine];
    NotACopyLine(FromLine);
    NotACopyLine("To: " + t);
    NotACopyLine("Subject: " + sub);
    NotACopyLine(ContentTypeLine);
    var ccLine := "Cc: " + c;
    var bccLine := "Bcc: " + b;
    PrefixStarts("Cc: ", c);
    FirstCharDiffers(ccLine, "Bcc: ");
    PrefixStarts("Bcc: ", b);
    FirstCharDiffers(bccLine, "Cc: ");
    CopyLinesOf(head, if hasCc then [ccLine] else [], if hasBcc then [bccLine] else [], tail);
  }

  /** Between lines that are no copy lines, a `Cc:` line is present iff the
      `Cc` part holds one, and likewise for `Bcc:`. */
  lemma CopyLinesOf(head: seq<string>, ccPart: seq<string>, bccPart: seq<string>, tail: seq<string>)
    requires forall x :: x in head ==> !StartsWith(x, "Cc: ") && !StartsWith(x, "Bcc: ")
    requires forall x :: x in tail ==> !StartsWith(x, "Cc: ") && !StartsWith(x, "Bcc: ")
    requires forall x :: x in ccPart ==> StartsWith(x, "Cc: ") && !StartsWith(x, "Bcc: ")
    requires forall x :: x in bccPart ==> StartsWith(x, "Bcc: ") && !StartsWith(x, "Cc: ")
    ensures var h := head + ccPart + bccPart + tail;
      ((exists x :: x in h && StartsWith(x, "Cc: ")) <==> ccPart != [])
      && ((exists x :: x in h && StartsWith(x, "Bcc: ")) <==> bccPart != [])
  {
    var h := head + ccPart + bccPart + tail;
    assert forall x :: x in h <==> x in head || x in ccPart || x in bccPart || x in tail;
    if ccPart != [] {
      assert ccPart[0] in h;
    }
    if bccPart != [] {
      assert bccPart[0] in h;
    }
  }

  /** Line 324 applied to the draft. */
  function EncodedDraft(to: Json, subject: Json, body: Json, cc: Json, bcc: Json): string
  {
    UrlEncode(Bytes(DraftText(to, subject, body, cc, bcc)))
  }

  /** The raw message is URL-safe and decodes (line 250) back to the draft's bytes. */
  lemma EncodedDraftRoundTrip(to: Json, subject: Json, body: Json, cc: Json, bcc: Json)
    ensures UrlDecode(EncodedDraft(to, subject, body, cc, bcc)) == Bytes(DraftText(to, subject, body, cc, bcc))
    ensures forall c :: c in EncodedDraft(to, subject, body, cc, bcc) ==> c != '+' && c != '/' && c != '='
  {
    var b := Bytes(DraftText(to, subject, body, cc, bcc));
    UrlRoundTrip(b);
    UrlEncodeIsUrlSafe(b);
  }

  /** `createDraft(...)`: `create` answers for the raw message. */
  function DraftReply(to: Json, subject: Json, body: Json, cc: Json, bcc: Json, create: string -> Result<string>): Json
  {
    match create(EncodedDraft(to, subject, body, cc, bcc))
    case Err(m) => ErrorReply(m)
    case Ok(id) => Obj([("success", Bool(true)), ("draftId", Str(id)), ("message", Str(DraftCreated))])
  }

  lemma {:induction false} TerminatedAppend(a: seq<string>, b: seq<string>)
    ensures Terminated(a + b) == Terminated(a) + Terminated(b)
    decreases |b|
  {
    if b == [] {
      assert a + b == a;
    } else {
      var init := b[..|b| - 1];
      TerminatedAppend(a, init);
      assert (a + b)[..|a + b| - 1] == a + init;
    }
  }

  lemma TerminatedPair(x: string, y: string)
    ensures Terminated([x, y]) == x + Crlf + (y + Crlf)
  {
    TerminatedSnoc([x], y);
    TerminatedSnoc([], x);
    assert [x] + [y] == [x, y];
    assert [] + [x] == [x];
  }

  lemma TerminatedSnoc(lines: seq<string>, line: string)
    ensures Terminated(lines + [line]) == Terminated(lines) + (line + Crlf)
  {
    assert (lines + [line])[..|lines|] == lines;
  }

  /** Lines 308-320: the header block built by successive appends. */
  method HeaderBlock(to: Json, subject: Json, cc: Json, bcc: Json) returns (email: string)
    ensures email == Terminated(DraftHeaders(to, subject, cc, bcc))
  {
    ghost var head := [FromLine, "To: " + ToPhpString(to)];
    ghost var cc' := LineIf(cc, "Cc: " + ToPhpString(cc));
    ghost var bcc' := LineIf(bcc, "Bcc: " + ToPhpString(bcc));
    ghost var tail := ["Subject: " + ToPhpString(subject), ContentTypeLine];
    email := FromLine + Crlf;
    email := email + ("To: " + ToPhpString(to) + Crlf);
    TerminatedPair(head[0], head[1]);
    if Truthy(cc) {
      email := email + ("Cc: " + ToPhpString(cc) + Crlf);
      TerminatedSnoc([], "Cc: " + ToPhpString(cc));
    }
    TerminatedAppend(head, cc');
    if Truthy(bcc) {
      email := email + ("Bcc: " + ToPhpString(bcc) + Crlf);
      TerminatedSnoc([], "Bcc: " + ToPhpString(bcc));
    }
    TerminatedAppend(head + cc', bcc');
    ghost var before := email;
    assert before == Terminated(head + cc' + bcc');
    email := email + ("Subject: " + ToPhpString(subject) + Crlf);
    email := email + (ContentTypeLine + Crlf);
    TerminatedPair(tail[0], tail[1]);
    Associative(before, tail[0] + Crlf, tail[1] + Crlf);
    TerminatedAppend(head + cc' + bcc', tail);
  }

  lemma Associative(a: string, b: string, c: string)
    ensures a + b + c == a + (b + c)
  {
  }

  /** Lines 308-321: the header block, then the blank line and the body. */
  method BuildDraft(to: Json, subject: Json, body: Json, cc: Json, bcc: Json) returns (email: string)
    ensures email == DraftText(to, subject, body, cc, bcc)
  {
    email := HeaderBlock(to, subject, cc, bcc);
    email := email + (Crlf + ToPhpString(body));
  }

  method CreateDraft(to: Json, subject: Json, body: Json, cc: Json, bcc: Json, create: string -> Result<string>)
    returns (reply: Json)
    ensures reply == DraftReply(to, subject, body, cc, bcc, create)
  {
    var email := BuildDraft(to, subject, body, cc, bcc);
    var encoded := UrlEncode(Bytes(email));
    var created := create(encoded);
    if created.Err? {
      return ErrorReply(created.message);
    }
    reply := Obj([("success", Bool(true)), ("draftId", Str(created.value)), ("message", Str(DraftCreated))]);
  }
}
