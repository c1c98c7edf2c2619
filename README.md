# tinatools webhook front end, modelled in Dafny

tinatools is a set of PHP endpoints that Vapi.ai voice assistants call as tools.
There are five of them:

- `gmail_api.php` searches, reads and drafts Gmail messages, using the helpers in `gmail_tools.php`.
- `contacts_api.php` and `contacts_api_vapi.php` query Google Contacts, using the helpers in `contacts_tools.php`.
- `gdocs_creator.php` creates a Google Doc.
- `view_logs.php` lists, shows and deletes the request logs.

`db_config.php` keeps the OAuth tokens in a table. Each endpoint does four things:

1. It digs a correlation id, an operation name and an argument map out of one of several JSON body shapes.
2. It validates them.
3. It dispatches to a handler.
4. It wraps the result in the envelope its caller expects.

This project models that logic and proves what it promises.

JSON is the datatype `Json` (`Null | Bool | Num | Str | Arr | Obj`), which mirrors PHP's decoded arrays. `At(j, k)` reads `$j[k]` and yields `Null` when the key is absent, so `isset` is "not `Null`". `Truthy` is PHP's boolean conversion, under which `''` and `'0'` are false.

Some of the system is not modelled at all; it enters the model only as a parameter:

- `json_decode` and `json_encode`;
- the Google and database calls, passed in as oracle functions or their `Result`s;
- `date()` and `uniqid()`.

The modules follow the files:

- `Php` holds the PHP built-ins the endpoints lean on (`strtolower`, `stripos`, `intval`).
- `Json` and `JsonSearch` hold the value type and the depth-first search that `findFunctionAndParams` and `findTitleAndContent` both perform.
- `Base64` covers the base64url coding of section 5 of RFC 4648 as `gmail_tools.php` writes it.
- `DbConfig` holds the token table. Its class `TokenStore` owns a sequence of rows, which `saveTokenToDb` updates or extends in place.
- `GmailTools`, `GmailApi`, `ContactsTools`, `ContactsApi`, `ContactsApiVapi`, `GdocsCreator` and `ViewLogs` follow the other files.

Where the PHP changes state step by step, the model is imperative:

- the global `$function`/`$params` pair is the class `GmailApi.Request`;
- the by-reference `$title`/`$content` are the class `GdocsCreator.Extraction`;
- the log directory is the class `ViewLogs.LogDirectory`, a `map` from file names to entries. Its listing is sorted in place on an `array`.

Each loop is a method proved against a function of its inputs. The properties are proved about those functions.

Two places differ from a plain reading of the endpoints' stated intent.

**The file-name whitelist.** `view_logs.php:21` is described as accepting a name iff every character is in `[A-Za-z0-9_.-]`. The code uses `preg_match` with `$` and no `D` modifier, so it also accepts such a name followed by one final newline. The model follows the code (`ViewLogs.ValidName`). `ViewLogs.ValidNameStaysInDirectory` proves that an accepted name still never holds `/`.

**The token table.** `oauth_tokens` is a sequence of rows, not a map. The `UPDATE ... WHERE token_type` of `db_config.php:82` rewrites every row of the type, and the `SELECT` of line 49 returns the first one. The save lemmas prove that a table with one row per type keeps it.

## Model

| member | source | states |
|---|---|---|
| Php.LowerIsLower | contacts_api_vapi.php:121 | `strtolower` leaves only lower-case letters, so applying it twice is applying it once |
| Php.OccursFromSomewhere | contacts_tools.php:563-565 | the scan behind `stripos` succeeds iff the needle occurs at some position of the haystack |
| Php.ContainsIgnoringCaseOfLower | contacts_tools.php:563-565 | the `stripos` test is insensitive to the case of both the haystack and the needle |
| Php.IntToStringRoundTrip | contacts_api.php:59 | `intval` reads the decimal text of every 64-bit integer back as that integer |
| Php.DigitsSaturate | contacts_api_vapi.php:129-130 | a run of digits beyond 64 bits (and below the double overflow) saturates at `PHP_INT_MAX`, or at `PHP_INT_MIN` after a minus sign |
| Php.ExponentNotation | contacts_api.php:59 | `m` followed by `e` and `x` is read as `m` times `10^x`, saturated to 64 bits |
| Php.FractionIsTruncated | gmail_api.php:200 | a decimal fraction is cut off toward zero: `a.f` is read as `a`, and `-a.f` as `-a` |
| Php.ExponentExample | contacts_api.php:59 | `"1e2"` is read as 100 |
| Php.FractionExample | gmail_api.php:200 | `"2.5"` is read as 2 and `"-2.5"` as -2 |
| Json.IntValOfNumericString | contacts_api.php:59 | `intval` of a 64-bit integer written as a string is that integer |
| Json.PutLookup | contacts_api_vapi.php:102 | after `$a[$k] = $v`, key `k` reads `v`, every other key reads what it read before, and the key set grows by `k` only |
| JsonSearch.FirstMatchIsFirstNode | gmail_api.php:130-160 | the recursive search (the node itself, then each array child in order) returns the first node of the pre-order listing of the body that passes the test |
| JsonSearch.FirstInFound | gdocs_creator.php:62-81 | a node the search returns is in the body and passes the test; the search returns nothing iff no node passes |
| Base64.SextetsRoundTrip | gmail_tools.php:324 | decoding the 6-bit groups of any byte string gives the bytes back, including a final group of one or two bytes |
| Base64.RTrimPadding | gmail_tools.php:324 | `rtrim(.., '=')` removes exactly the padding `base64_encode` added |
| Base64.UrlEncodeIsUrlSafe | gmail_tools.php:324 | the URL-safe text never contains `+`, `/` or `=` |
| Base64.UrlRoundTrip | gmail_tools.php:250 | the `str_replace` and `base64_decode` of line 250 undo the encoding of line 324 for every byte string |
| Base64.DecodeSkipsForeign | gmail_tools.php:273 | the lenient `base64_decode` skips any character outside the alphabet |
| DbConfig.FindRow | db_config.php:49-57 | the lookup finds nothing iff no row has the type; otherwise it returns the data of a row of that type |
| DbConfig.UpsertKeepsTypesUnique | db_config.php:76-92 | update-or-insert keeps at most one row per `token_type` |
| DbConfig.UpsertThenFind | db_config.php:76-92 | after a save, looking the type up returns the saved data, whether the row was updated or inserted |
| DbConfig.UpsertLeavesOthers | db_config.php:82-91 | a save leaves the rows of every other type, and their lookups, unchanged |
| DbConfig.SaveThenGet | db_config.php:73 | the token is stored as its JSON encoding, so a save then a get returns the token whenever decoding undoes encoding |
| DbConfig.TokenStore.constructor | db_config.php:3-39 | a store is a connection that exists or not, over a table with one row per type |
| DbConfig.TokenStore.GetToken | db_config.php:42-62 | without a connection, or when the query throws, the result is null; otherwise it is the decoded data of the first row of the type, or null when there is none |
| DbConfig.TokenStore.SaveToken | db_config.php:65-99 | returns true iff a connection exists and the statements do not throw; on true the table is the upsert of the encoded token, on false it is unchanged |
| DbConfig.DbName | db_config.php:23 | `substr($path, 1)`: the path is its first character followed by the name, and an empty path gives an empty name |
| DbConfig.DbNameDropsSlash | db_config.php:23 | the path `/name` gives the database name `name` |
| ContactsTools.RecordFields | contacts_tools.php:120-147 | a reshaped sub-record has exactly the listed fields: set ones are copied, absent ones read `''` |
| ContactsTools.ReshapeList | contacts_tools.php:121-128 | the `foreach` over a person's list appends one reshaped record per entry, in order, and nothing when the list is not an array |
| ContactsTools.ContactSection | contacts_tools.php:110-167 | each output list of a contact is the reshaped input list of its section, and `resourceName` is copied |
| ContactsTools.BuildContact | contacts_tools.php:110-167 | one contact is built section by section as the reshaping function says |
| ContactsTools.ListQueryPageToken | contacts_tools.php:83-90 | the query carries `pageToken` iff the token is truthy, and always carries the page size |
| ContactsTools.ListResultShape | contacts_tools.php:107-178 | one contact per connection in input order; `nextPageToken` is copied (null when absent); `totalItems` is `totalPeople` when set, else the number of contacts |
| ContactsTools.CollectContacts | contacts_tools.php:108-170 | the loop over the people of a response yields the contacts function |
| ContactsTools.ListContacts | contacts_tools.php:78-187 | the result of `listContacts` for a response, or `{error: true, message}` when the call threw |
| ContactsTools.SearchTotalIsCount | contacts_tools.php:290-293 | `totalItems` equals the number of returned contacts, which is one per search result |
| ContactsTools.SearchContacts | contacts_tools.php:196-300 | the result of `searchContacts` for a response, or the error record |
| ContactsTools.FirstFrom | contacts_tools.php:471-509 | the index returned is the first, from the start index on, whose entry passes the test; nothing is returned iff no entry there passes |
| ContactsTools.ByEmailIsFirstMatch | contacts_tools.php:470-512 | the result is null iff no person has a matching address; otherwise it is the contact of the first such person in result order |
| ContactsTools.EmailMatchIgnoresCase | contacts_tools.php:478 | an address matches iff it equals the query after lower-casing both, and lower-casing the query first changes nothing |
| ContactsTools.ScanAddresses | contacts_tools.php:476-507 | the inner loop throws PHP's `TypeError` iff the query is an array and the person has an address; otherwise it reports a match iff some address of the person matches |
| ContactsTools.FirstWithEmail | contacts_tools.php:470-509 | the outer loop throws iff the query is an array and some person has an address; otherwise it stops at the first person with a matching address, or finds none |
| ContactsTools.ArrayEmailThrows | contacts_tools.php:470-478 | `findContactByEmail` dies with an uncaught `TypeError` iff the response is a result, the query is an array and some person has an address; a string query always returns the search result, and an array query that returns gives null |
| ContactsTools.FindContactByEmail | contacts_tools.php:445-519 | the ending of `findContactByEmail` (its result, or the uncaught `TypeError` of an array query) for a query and a response |
| ContactsTools.MatchingIsOrderedFilter | contacts_tools.php:555-612 | the kept contacts are, in input order, exactly the people having a name that contains the query case-insensitively |
| ContactsTools.ScanNames | contacts_tools.php:559-569 | the inner loop throws iff the query is an array and the person has a name; otherwise it reports a match iff some name of the person matches |
| ContactsTools.KeepMatching | contacts_tools.php:555-612 | the outer loop throws iff the query is an array and some person has a name; otherwise it keeps, in order, the contacts of the people with a matching name |
| ContactsTools.ArrayNameThrows | contacts_tools.php:555-565 | `findContactsByName` dies with an uncaught `TypeError` iff the response is a result, the query is an array and some person has a name; an array query that returns gives the empty list |
| ContactsTools.FindContactsByName | contacts_tools.php:527-622 | the ending of `findContactsByName` (its result, or the uncaught `TypeError` of an array query) for a query and a response |
| ContactsTools.EmailFromNameIsFirstAddressOfFirstMatch | contacts_tools.php:630-645 | the script dies with the `TypeError` exactly when the name search does; otherwise the result is the first address of the first matching person, and null on an error, when nothing matches, or when that person has no address |
| ContactsTools.FirstEmailReadsOnlyFirstContact | contacts_tools.php:633-641 | contacts after the first are never consulted |
| ContactsTools.GetContactsClient | contacts_tools.php:28-69 | the client gets the stored `gmail` token; the table changes only when a token exists, is expired and has a refresh token, and then holds the refreshed token |
| ContactsTools.NoRefreshLeavesStore | contacts_tools.php:53-65 | with no token, an unexpired token or no refresh token, nothing is refreshed and the client keeps the stored token |
| ContactsApi.Required | contacts_api.php:65-68 | the argument is accepted iff it is PHP-non-empty, and a refusal carries the action's message |
| ContactsApi.InvalidInputIsRefused | contacts_api.php:42-48 | a falsy body or one without `action` gets the "action est requis" failure, and no handler runs |
| ContactsApi.ActionMatchingIsExact | contacts_api.php:57-98 | only the five exact, case-sensitive names dispatch, each to its own call; anything else is "Action non reconnue : " followed by the action |
| ContactsApi.ListArguments | contacts_api.php:59-61 | `list` always dispatches; `pageSize` defaults to 10 and goes through `intval`, so a string page size is always a 64-bit integer and the text of one gives it back; `pageToken` is passed as given |
| ContactsApi.RequiredArguments | contacts_api.php:64-94 | `search`, `findByEmail`, `findByName` and `getEmailFromName` dispatch iff their argument is PHP-non-empty |
| ContactsApi.ReplyIsSuccessOrFailure | contacts_api.php:100-111 | every reply is `{success: true, data}` or `{success: false, message}`, never both |
| ContactsApi.DispatchedCallReply | contacts_api.php:100-111 | a dispatched call's value becomes `data`, and its exception message becomes `message` |
| ContactsApiVapi.ToolCallPayload | contacts_api_vapi.php:54-87 | the first tool call of `message.tool_calls`, `message.toolCalls` or `tool_calls` that is set gives the id; its absent arguments give `[]`, string arguments are JSON-decoded, and any other value is used unchanged |
| ContactsApiVapi.SnakeShapeDecides | contacts_api_vapi.php:54-65 | when `message.tool_calls` is set, it alone decides the payload |
| ContactsApiVapi.DirectShape | contacts_api_vapi.php:88-92 | with no tool-call list, a body with `action` or `Action` becomes the params with id `test_` followed by the unique suffix; otherwise the params are `[]` and the id is null |
| ContactsApiVapi.PriorityDiffersFromGmail | contacts_api_vapi.php:54-76 | for a body with both spellings, this endpoint takes the `tool_calls` id while the Gmail one takes the `toolCalls` id |
| ContactsApiVapi.ArgumentsDifferFromGmail | contacts_api_vapi.php:60-64 | a non-string, non-array `arguments` is kept here, while the Gmail endpoint JSON-decodes it |
| ContactsApiVapi.LowerKeysHas | contacts_api_vapi.php:99-104 | a key is present after normalisation iff it is the lower-cased form of some input key |
| ContactsApiVapi.LowerKeysLaterWins | contacts_api_vapi.php:101-103 | values are copied unchanged, and among keys equal up to case the later one wins |
| ContactsApiVapi.LowerKeysAreLower | contacts_api_vapi.php:102 | every normalised key is lower-case |
| ContactsApiVapi.NormalizeKeys | contacts_api_vapi.php:99-104 | the loop builds the normalised map as the normalisation function says, and nothing from a non-array |
| ContactsApiVapi.InvalidParamsAreRefused | contacts_api_vapi.php:110-118 | empty normalised params, or no `action`, give the failure reply, and no handler runs |
| ContactsApiVapi.ActionMatchingIgnoresCase | contacts_api_vapi.php:121-169 | the action is lower-cased before matching, only the five lower-case names dispatch, and anything else is "Action non reconnue : " followed by the lower-cased action |
| ContactsApiVapi.ListPageSize | contacts_api_vapi.php:129-130 | the page size is `pagesize`, else `page_size` (the text of a 64-bit integer gives that integer), else 10 |
| ContactsApiVapi.RequiredArguments | contacts_api_vapi.php:135-165 | the other four actions dispatch iff their argument is PHP-non-empty |
| ContactsApiVapi.ResultHasDataOrError | contacts_api_vapi.php:174-203 | a Vapi reply holds one result with the extracted id and exactly one of `data` and `error` |
| ContactsApiVapi.NullResultCrashesAfterReply | contacts_api_vapi.php:167-207 | as written, the script dies on the log line after its reply exactly when a dispatched handler returns null, and the reply it sent is the data reply for null |
| ContactsApiVapi.FindByEmailWithoutMatch | contacts_api_vapi.php:143-207 | a `findByEmail` for an address nobody has sends `{results: [{tool_call_id, data: null}]}` and then the fatal error |
| ContactsApiVapi.CorrectedFinishesCleanly | contacts_api_vapi.php:174-207 | with a log line that reads the exception only when one was caught, no run crashes after replying; the reply is the same, and every other outcome is unchanged |
| ContactsApiVapi.CaseHandlingDiffers | contacts_api_vapi.php:99-121 | `{Action: findByEmail, Email: ..}` gets the plain endpoint's "action is required" failure, since it reads only the key `action`, but is dispatched by this one after lower-casing |
| ContactsApiVapi.ReadToolCall | contacts_api_vapi.php:56-65 | the params and id read from a tool call are those of the payload function |
| ContactsApiVapi.HandleRequest | contacts_api_vapi.php:42-207 | the script's outcome (a reply; a reply followed by the log line's fatal error when the handler returned null; or PHP's `TypeError` when `action` is an array) is that of the endpoint function |
| GmailApi.ToolCallIdIsFirstSetPath | gmail_api.php:53-72 | the id is read along the first of the five paths that is set |
| GmailApi.FirstSetAlongChoosesFirst | gmail_api.php:53-72 | the result is null iff no path is set; otherwise it is the value along a path that is set, and no earlier path is set |
| GmailApi.CamelCallExtracts | gmail_api.php:95-106 | a `message.toolCalls[0]` call with a name extracts that name; its string arguments are JSON-decoded, array arguments used as they are, and without arguments the params keep their previous value |
| GmailApi.SnakeCallExtracts | gmail_api.php:109-120 | the same for a `message.tool_calls[0]` call when `toolCalls` names no function |
| GmailApi.CamelShapeDecides | gmail_api.php:95-106 | when `message.toolCalls[0].function.name` is set, extraction succeeds and depends on nothing else in the body |
| GmailApi.SnakeShapeDecides | gmail_api.php:109-120 | otherwise `message.tool_calls[0].function.name` decides; without arguments the params keep their previous value |
| GmailApi.DirectShapeIsFirstNode | gmail_api.php:123-127 | a body with top-level `function` and `params` is the first call node, and its params are `params` |
| GmailApi.FallbackReadsFirstCallNode | gmail_api.php:130-162 | when neither nested shape names a function, extraction succeeds iff some node holds `function` with `params` or `arguments`, and then the first in depth-first order supplies them; on failure the globals stay as they were |
| GmailApi.Request.constructor | gmail_api.php:87-88 | the globals start as null and `[]` |
| GmailApi.Request.FindFunctionAndParams | gmail_api.php:130-160 | the recursive search succeeds iff the tree has a call node, and then sets the globals from the first one in depth-first order, preferring `params` to `arguments`; otherwise it changes nothing |
| GmailApi.Request.ExtractFunctionAndParams | gmail_api.php:91-163 | the success flag and the new globals are those of the extraction function applied to the old globals |
| GmailApi.DispatchIsExact | gmail_api.php:193-226 | only the exact names `SearchEmails`, `ReadEmail` and `CreateDraft` dispatch, each to its own call; any other name gives "Fonction non reconnue: " followed by the name |
| GmailApi.DispatchArguments | gmail_api.php:194-222 | `SearchEmails` needs `query` (`maxResults` defaults to 10), `ReadEmail` needs `emailId`, and `CreateDraft` needs `to`, `subject` and `body` (`cc`/`bcc` default to `''`) |
| GmailApi.EnvelopeShape | gmail_api.php:229-237 | an envelope holds one result with the id under both spellings and the given text |
| GmailApi.ReplyCarriesId | gmail_api.php:173-254 | every response sent is one result carrying the extracted id under both `toolCallId` and `tool_call_id`; the script redirects instead iff a dispatched call's handler exits |
| GmailApi.NoHandlerWithoutCall | gmail_api.php:173-187 | when extraction fails, the function is empty, or dispatch refuses, no handler runs and a response is sent; the first two give the fixed extraction error |
| GmailApi.ReplyOfDispatchedCall | gmail_api.php:229-254 | a dispatched call's value is JSON-encoded into `result`, an exception gives "Erreur: " followed by its message, and the script ends in the redirect iff the handler exits |
| GmailApi.ClientDecidesReply | gmail_tools.php:105-116 | for a dispatched call, `getGmailClient`'s redirect ends the script with no envelope; its exception comes back as an encoded `{success: false, error}`; an authorised client gives the handler's array |
| GmailApi.ToolFailuresAreEncoded | gmail_tools.php:283-288 | with an authorised client, a failing Gmail fetch in `readEmail` comes back as an encoded `{success: false, error}` result, not as an "Erreur: " text |
| GmailApi.HandleRequest | gmail_api.php:47-255 | the script's outcome (the echoed envelope, or the redirect to `gmail_auth.php`) is that of the endpoint function on the decoded body |
| GmailApi.DirectDraftExample | gmail_api.php:213-222 | a direct `CreateDraft` body with `to`, `subject` and `body` dispatches with empty `cc` and `bcc` |
| GmailTools.TokenFile.constructor | gmail_tools.php:95-97 | the token file exists or not, with its content |
| GmailTools.GetGmailClient | gmail_tools.php:35-119 | the outcome (an authorised token, a thrown message, or the redirect) follows the branches, a configuration that `setAuthConfig` refuses throws its message first, and the file is rewritten with the refreshed token exactly when the local branch refreshes |
| GmailTools.ClientBranches | gmail_tools.php:52-116 | a refused `setAuthConfig` throws its message, the configuration coming from the environment variable when it is set and from the secret file otherwise; the env-var branch never redirects; once configured, a missing token variable throws, an expired token throws iff it has no refresh token, and the file branch never throws and redirects when the file is missing |
| GmailTools.RefreshedTokenIsReused | gmail_tools.php:101-104 | after a refresh is written back, the next call reads the same token and writes nothing |
| GmailTools.LastValueDefault | gmail_tools.php:150-158 | without a header of that name the field stays `''` |
| GmailTools.LastValueIsLastOccurrence | gmail_tools.php:161-176 | with such headers, the field holds the value of the last one |
| GmailTools.OtherHeadersAreIgnored | gmail_tools.php:162-175 | a header other than `Date`, `From`, `To` or `Subject` changes nothing |
| GmailTools.PickHeaders | gmail_tools.php:161-176 | the header loop yields the picked-headers function |
| GmailTools.MessageBody | gmail_tools.php:244-262 | the recursion yields the part's plain text |
| GmailTools.SubPartsBody | gmail_tools.php:255-259 | the loop over the sub-parts yields their plain texts concatenated in order |
| GmailTools.PlainTextIsPreOrder | gmail_tools.php:244-262 | `getMessageBody` concatenates, in pre-order, the decoded data of every `text/plain` part of the tree |
| GmailTools.BodyIsPreOrderBelowPayload | gmail_tools.php:264-268 | with parts, the body is the pre-order text of the parts below the payload |
| GmailTools.PayloadDataIgnoresType | gmail_tools.php:269-275 | with no parts, the payload's data is decoded whatever its MIME type, while `getMessageBody` would ignore a non-`text/plain` part |
| GmailTools.ReadBody | gmail_tools.php:240-277 | the body read is the body-text function of the payload |
| GmailTools.SummariesInOrder | gmail_tools.php:146-179 | with every fetch successful there is one summary per message, in order; otherwise the first failing fetch's message is returned |
| GmailTools.SearchCountIsLength | gmail_tools.php:181-185 | on success `count` equals the number of messages listed and of emails returned |
| GmailTools.SearchEmails | gmail_tools.php:128-192 | the result of `searchEmails` for the listing and fetch oracles |
| GmailTools.ReadEmail | gmail_tools.php:200-289 | the result of `readEmail` for the fetch oracle |
| GmailTools.DraftIsCrlfJoined | gmail_tools.php:308-321 | the draft is its header lines, an empty line and the body, joined by CRLF |
| GmailTools.CopyLinesIffNonEmpty | gmail_tools.php:308-320 | a `Cc:` or `Bcc:` line appears iff that argument is PHP-non-empty; `From: me` and `To:` come first and `Subject:` comes just before `Content-Type` |
| GmailTools.EncodedDraftRoundTrip | gmail_tools.php:324 | the raw message is URL-safe and decodes, as line 250 does, back to the draft's bytes |
| GmailTools.HeaderBlock | gmail_tools.php:308-320 | the successive appends build the CRLF-terminated header lines |
| GmailTools.BuildDraft | gmail_tools.php:308-321 | the appends build the draft text |
| GmailTools.CreateDraft | gmail_tools.php:301-345 | the result of `createDraft` for the draft-creation oracle |
| GdocsCreator.SkipSpace | gdocs_creator.php:49 | `\s*` consumes the maximal run of PCRE white space from the position |
| GdocsCreator.QuoteFreeEnd | gdocs_creator.php:49 | `[^"]+` stops at the first quote or at the end |
| GdocsCreator.MatchAtIsRegexMatch | gdocs_creator.php:49-50 | the matcher at a position captures `v` iff the pattern matches there with `v` as group 1 |
| GdocsCreator.ScanIsLeftmost | gdocs_creator.php:49-50 | the scan returns the capture at the leftmost matching position, and nothing iff no position matches |
| GdocsCreator.ScanCapture | gdocs_creator.php:49-50 | a capture is non-empty and holds no quote |
| GdocsCreator.RegexPairNeedsBoth | gdocs_creator.php:49-53 | the pair is found iff both patterns match, and then it is the two first captures |
| GdocsCreator.RegexKeepsEscapes | gdocs_creator.php:49-53 | as written, a value with an escaped quote is captured up to the backslash, while the decoded scan reads the whole value |
| GdocsCreator.ReadEscaped | gdocs_creator.php:49-53 | the corrected reader reads any JSON-escaped value back, whatever follows its closing quote |
| GdocsCreator.DecodedScanReadsValue | gdocs_creator.php:49-53 | the corrected scan returns exactly the string the body encodes for the key |
| GdocsCreator.DecodedAgreesWithoutEscapes | gdocs_creator.php:49-53 | where the capture holds no backslash, the corrected scan agrees with the regex |
| GdocsCreator.Extraction.constructor | gdocs_creator.php:45-46 | title and content start as null |
| GdocsCreator.Extraction.FindTitleAndContent | gdocs_creator.php:62-81 | the search succeeds iff some node holds both `title` and `content`, and then copies them from the first in depth-first order; otherwise it changes nothing |
| GdocsCreator.ChosenAreTruthy | gdocs_creator.php:90-95 | the document always gets a truthy title and content |
| GdocsCreator.CapturesTakePrecedence | gdocs_creator.php:49-60 | truthy captures are used and the tree is not searched |
| GdocsCreator.FallbackIsFirstDocNode | gdocs_creator.php:60-95 | otherwise the first node with both keys supplies them when both are truthy, and else the defaults are used |
| GdocsCreator.DefaultsWhenNothingFound | gdocs_creator.php:90-95 | with no usable capture and no such node, the date-stamped title and the fixed content are used |
| GdocsCreator.DocumentUrlRoundTrip | gdocs_creator.php:165 | the URL is the prefix, the id and `/edit`, and reading the id back from such a URL gives the id |
| GdocsCreator.Prefix | gdocs_creator.php:180 | `substr($s, 0, n)` is the first `min(n, len)` characters of `s` |
| GdocsCreator.SuccessFields | gdocs_creator.php:161-170 | a success reply has `success: true`, the document id, and a URL that gives the id back |
| GdocsCreator.FailureFields | gdocs_creator.php:176-184 | a failure reply has `success: false`, "Erreur: " followed by the message, and `raw_data` as the first at most 1000 characters of the raw body |
| GdocsCreator.ReplyOutcome | gdocs_creator.php:97-188 | once the Google client classes are loaded (the file as written loads none; see "## Findings"), the client is configured from the decoded environment credentials when that variable is PHP-non-empty, and from `tina-gdocs-service.json` otherwise; the reply succeeds iff configuration, creation and insertion all succeed; the first failure, the insertion's included, supplies the message |
| GdocsCreator.MissingAutoloaderKillsEveryRequest | gdocs_creator.php:97-99 | without the Google client classes, every request dies with `Class "Google_Client" not found` whatever the Google calls would answer; with them, the script writes the reply |
| GdocsCreator.CreateDocumentAsWritten | gdocs_creator.php:44-192 | the file as written, which loads no autoloader, ends in the uncaught `Error` of `new Google_Client()` and never replies |
| GdocsCreator.CreateDocument | gdocs_creator.php:44-188 | once the Google client classes are loaded, the endpoint creates the document from the chosen title and content and replies as the reply function says |
| GdocsCreator.CreateDocumentCorrected | gdocs_creator.php:44-188 | the endpoint with the Google client classes loaded and the decoded scan in place of the regex; otherwise the same choice of title and content, and the same reply |
| ViewLogs.ValidNameStaysInDirectory | view_logs.php:21 | an accepted name never holds `/`, every character but a final newline is whitelisted, and a name without a final newline is accepted iff it is non-empty and fully whitelisted |
| ViewLogs.WhitelistExamples | view_logs.php:21 | `../db_config.php` is refused; `vapi_request.log` is accepted, and so is that name with a trailing newline |
| ViewLogs.ArrayFileDies | view_logs.php:16-21 | the script dies with `preg_match`'s `TypeError` exactly when `file` is a non-empty array (`?file[]=x`); string parameters are read as they are |
| ViewLogs.ArrayActionDoesNothing | view_logs.php:16-90 | an array `action` (read as `""` by the model) leaves the directory unchanged and never views a file; the page is a list page exactly when it carries the invalid-name message of a rejected file name |
| ViewLogs.Validate | view_logs.php:16-25 | the file kept is PHP-empty or whitelisted; the invalid-name message appears iff the name given is PHP-non-empty and not whitelisted; otherwise the action and file are those given, with the defaults `list` and `''` |
| ViewLogs.OnlyValidNamesAreUsed | view_logs.php:16-37 | no name outside the whitelist reaches a page or a single `unlink`: the file shown is whitelisted, and apart from `delete_all` only a whitelisted file can disappear |
| ViewLogs.RejectedNameIsCleared | view_logs.php:21-25 | a rejected name leaves the directory untouched and lists the files |
| ViewLogs.DeleteOnlyNamed | view_logs.php:28-37 | `delete` removes only the named entry, only if it is a regular file, leaves the others unchanged, and returns to `list` with the matching message |
| ViewLogs.DeleteAllEmptiesListing | view_logs.php:40-51 | `delete_all` leaves no regular file to list and keeps every other entry |
| ViewLogs.ListsPermutation | view_logs.php:70-72 | reordering a listing keeps it a listing |
| ViewLogs.ListedNames | view_logs.php:59-67 | a listing names every visible regular file, and nothing else |
| ViewLogs.MissingViewShowsEmptyList | view_logs.php:77-89 | as written, `view` of a missing file shows the list page with the not-found message, but no listing was built |
| ViewLogs.MissingViewExample | view_logs.php:77-89 | with `vapi_1.log` present, viewing `vapi_2.log` shows the list page while the listing stage saw `view` |
| ViewLogs.CorrectedListsWheneverListShown | view_logs.php:54-89 | in the corrected run, a list page always has a listing; it differs from the original run only for a missing `view` |
| ViewLogs.LogDirectory.constructor | view_logs.php:8-13 | the directory holds the given entries |
| ViewLogs.LogDirectory.Delete | view_logs.php:29-35 | a regular file is unlinked with the deleted message; otherwise nothing changes and the not-found message is returned |
| ViewLogs.LogDirectory.DeleteAll | view_logs.php:40-51 | every visible regular file is unlinked and the count is their number |
| ViewLogs.GlobFiles | view_logs.php:56-67 | the loop over the glob gathers each visible regular file exactly once, with its size and time, and nothing else |
| ViewLogs.LogDirectory.ListFiles | view_logs.php:54-73 | the listing holds each visible regular file once, with its size and time, newest first |
| ViewLogs.LogDirectory.Serve | view_logs.php:16-90 | on the query as sent, the script dies with the directory unchanged iff `file` is a non-empty array; otherwise the page and directory are those `Handle` draws for the strings read |
| ViewLogs.LogDirectory.Handle | view_logs.php:15-90 | the page and the new directory are those of the script run; the listing is present only when the listing stage was `list`, a viewed file is shown pretty-printed when it is JSON, and the content is empty on every other page |
| ViewLogs.LogDirectory.HandleCorrected | view_logs.php:15-90 | in the corrected script, the page is a list page iff it carries a full newest-first listing, other pages carry no listing, a viewed file is shown pretty-printed when it is JSON, and the content is empty on every other page |
| ViewLogs.SortNewestFirst | view_logs.php:70-72 | the `usort` leaves the array newest first and a permutation of what it held |

## Left out

- HTTP plumbing is not modelled, because it is output side effects: CORS headers, the OPTIONS and POST checks, `ob_start`/`ob_clean`, `echo` and `exit`.
- The log-file writes (`file_put_contents`, `logGmailRequest`, `logRequest`, `error_log`) are not modelled: they append to files. The one whose evaluation changes the response, `contacts_api_vapi.php:207`, is modelled by its outcome only (`ContactsApiVapi.Outcome`); the text of the fatal error is not.
- `json_decode` and `json_encode` are oracle parameters (`decode`, `encode`). PHP's parser and printer are not modelled; JSON pretty-printing in `view_logs.php` is an oracle too.
- `GmailApi.ReplyCarriesId`: `encode` is total and returns a string, while PHP's `json_encode` returns `false` on invalid UTF-8, which would make the endpoint echo `false` instead of an envelope.
- `ViewLogs.ReadQuery` reads an array `action` as `""`: the script compares it only with `===` against strings and echoes it nowhere, so every such comparison fails as it does for `""`.
- The Google client library (token checks, refresh, the Gmail, Docs, Drive and People services, the HTTP client) is not modelled; its answers are parameters, `Result` values or oracle functions.
- `GmailTools.GetGmailClient`: `setAuthConfig` is an oracle (`configure`) that may refuse a configuration with a message; `setAccessToken` is taken to accept any decoded token. The redirect to `gmail_auth.php` is an outcome value rather than a `header` and `exit`; `GmailApi.Tools` turns it into the endpoint's `RedirectedToAuth`, and the headers it sends are not modelled.
- `ContactsTools.GetContactsClient`: `setAuthConfig`, `setAccessToken` and the refresh call are taken to succeed. `getContactsClient` runs before each tool function's `try` (`contacts_tools.php:79`, `197`, `446`, `528`), so an exception there escapes the tool function; the endpoints' handler oracles may return it as an error.
- `ContactsApi.Respond` and `ContactsApiVapi.Finish` take the handlers as oracles returning a result, so the uncaught `TypeError` that `ContactsTools.FindContactByEmail` and `ContactsTools.FindContactsByName` model for an array query is not carried to the endpoint's outcome.
- `ContactsTools.FindContactByEmail` and `ContactsTools.FindContactsByName` treat the fields of the People API response that they lower-case (an address `value`, `displayName`, `givenName`, `familyName`) as strings converted the PHP way; an array there would also raise a `TypeError`, which the model does not, since the API sends strings.
- The Drive sharing of `gdocs_creator.php:128-158` is not modelled: its errors are caught and logged, so the reply never depends on it.
- PDO and `parse_url` in `getDbConnection` are not modelled. Only the connection's presence and the database-name rule of line 23 are kept.
- `date()`, `time()` and `uniqid()` are parameters (`now`, `uniq`).
- `formatFileSize` in `view_logs.php` is not modelled: it uses floating-point `log`, `pow` and `round`.
- `getContactDetails` (`contacts_tools.php:308-437`) is not modelled: no endpoint calls it.
- Strings are sequences of characters, so PHP's byte strings are only approximated. `Base64.Bytes` reads each character modulo 256, and no UTF-8 encoding is modelled.
- `GdocsCreator.DecodedScan`: the corrected reader does not decode `\u` escapes, and a value holding one is not read.
- The order of files with equal modification times is not modelled. `glob` sorts alphabetically and PHP 8's `usort` is stable, so such files keep alphabetical order; the model gathers the names in no fixed order and promises only newest first.
- `Php.StringToInt`: the value of a number in decimal-fraction or exponent form is computed exactly and then cut off, whereas PHP first rounds it to a double. Texts with more significant digits than a double holds (about 16), or values at or beyond 2^53, can therefore differ in their last digits.
- `Json.IntVal`: JSON numbers are integers here. Floats such as `2.5` or `1e2`, and integers outside 64 bits that `json_decode` turns into floats, are not values of the model, so `(int)` and `intval` of a float are not modelled.
- The reuse of `$file` as the loop variable in `delete_all` (`view_logs.php:43`) is not modelled: the action is `list` afterwards, so the overwritten value is never read.
- `mkdir` of the log directory is not modelled; the directory is assumed to exist. The HTML, CSS and JavaScript of `view_logs.php` are left out too, including which CSS class shows the message.
- The test pages, `gmail_auth.php` and `oauth_callback.php` are not modelled: they are clients and interactive OAuth redirects with no logic beyond a library call.
- The token table is a sequence of rows, not a map, because `UPDATE ... WHERE token_type` rewrites every row of a type. The "one row per type" promise is proved as an invariant of `DbConfig.TokenStore` rather than built into the type.

## Findings

| source | as written | input that shows it | evidently intended | confidence | as-written member | corrected member |
|---|---|---|---|---|---|---|
| view_logs.php:77-89 | `view` of a missing file switches the action to `list` after the listing step (lines 54-73) has been skipped, so the list page is shown with no files | action `view`, file `vapi_2.log`, in a directory holding only `vapi_1.log` | the fallback shows the list of the files that exist | high (not executed) | ViewLogs.MissingViewExample | ViewLogs.CorrectedListsWheneverListShown |
| contacts_api_vapi.php:207 | the log line evaluates `$result ?? $e->getMessage()`; when a handler returned null, `$e` is undefined and the call on null is a fatal `Error`, whose text display_errors prints after the JSON reply | action `findByEmail` with an email address that no contact has | the JSON reply alone, with the log recording the null result | high (not executed) | ContactsApiVapi.FindByEmailWithoutMatch | ContactsApiVapi.CorrectedFinishesCleanly |
| gdocs_creator.php:49-53 | the regex captures the raw JSON text up to the first quote, so an escaped quote ends the value at its backslash and escapes such as `\n` stay literal | body `{"title":"Say \"hi\"","content":"x"}` gives the title `Say \` | the decoded string value of `title` and `content` | high (not executed) | GdocsCreator.RegexKeepsEscapes | GdocsCreator.DecodedScanReadsValue |
| gdocs_creator.php:192 | the file loads no autoloader, so `new Google_Client()` (reached from line 99) throws `Error: Class "Google_Client" not found`, which `catch (Exception $e)` at line 174 does not catch; the script dies before any reply | any POST body, e.g. `{"title":"t","content":"c"}` | load `vendor/autoload.php` first, as `gmail_api.php` does, and reply as the handler says | high (not executed) | GdocsCreator.CreateDocumentAsWritten | GdocsCreator.CreateDocument |
