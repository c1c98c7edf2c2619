/** contacts_tools.php: the People API front end. The HTTP calls are inputs
    (the decoded response, or the message of the exception the call threw);
    what is modelled is how each function reshapes and filters the people it
    gets back, and when the stored token is refreshed. */
module ContactsTools {
  import opened Php
  import opened Json
  import opened DbConfig

  // ---------------------------------------------------------------- records with '' defaults

  /** `[k1 => $x[k1] ?? '', ...]`: the named fields of `x`, each `''` when absent. */
  function Record(x: Json, keys: seq<string>): Json
  {
    Obj(seq(|keys|, i requires 0 <= i < |keys| => (keys[i], Coalesce(At(x, keys[i]), Str("")))))
  }

  predicate DistinctStrings(keys: seq<string>)
  {
    forall i, j :: 0 <= i < j < |keys| ==> keys[i] != keys[j]
  }

  /** A reshaped record has exactly the listed fields: a field set in the
      source is copied, an absent one reads `''`. */
  lemma RecordFields(x: Json, keys: seq<string>, k: string)
    requires DistinctStrings(keys)
    ensures k in keys && IsSet(At(x, k)) ==> At(Record(x, keys), k) == At(x, k)
    ensures k in keys && !IsSet(At(x, k)) ==> At(Record(x, keys), k) == Str("")
    ensures k !in keys ==> At(Record(x, keys), k) == Null
  {
    var fields := Record(x, keys).fields;
    assert DistinctKeys(fields);
    LookupDistinct(fields, k);
    if k in keys {
      var i :| 0 <= i < |keys| && keys[i] == k;
      assert fields[i].0 == k;
    }
  }

  /** `foreach ($list as $x) { $out[] = [...]; }`, guarded by
      `isset($list) && is_array($list)`. */
  function Reshaped(list: Json, keys: seq<string>): seq<Json>
  {
    seq(Width(list), i requires 0 <= i < Width(list) => Record(Child(list, i), keys))
  }

  method ReshapeList(list: Json, keys: seq<string>) returns (out: seq<Json>)
    ensures out == Reshaped(list, keys)
  {
    out := [];
    if IsSet(list) && IsArray(list) {
      var i := 0;
      while i < Width(list)
        invariant i <= Width(list)
        invariant out == Reshaped(list, keys)[..i]
      {
        out := out + [Record(Child(list, i), keys)];
        i := i + 1;
      }
    }
  }

  /** A sub-list of a contact and the source list it is read from. */
  datatype Section = Section(outKey: string, inKey: string, keys: seq<string>)

  const NameKeys := ["displayName", "givenName", "familyName"]
  const Names := Section("names", "names", NameKeys)
  const Emails := Section("emails", "emailAddresses", ["value", "type"])
  const Phones := Section("phones", "phoneNumbers", ["value", "type"])
  const Organizations := Section("organizations", "organizations", ["name", "title"])
  const Photos := Section("photos", "photos", ["url"])

  /** What `listContacts` and `searchContacts` keep of a person (lines 110-167). */
  const FullSections := [Names, Emails, Phones, Organizations, Photos]
  /** What `findContactByEmail` keeps (lines 480-503). */
  const EmailSections := [Names, Emails]
  /** What `findContactsByName` keeps (lines 573-607). */
  const NameSections := [Names, Emails, Phones]

  /** The contact array built for one person: its `resourceName`, then one
      reshaped list per section, in order. */
  function Contact(person: Json, sections: seq<Section>): Json
  {
    Obj([("resourceName", At(person, "resourceName"))]
      + seq(|sections|, i requires 0 <= i < |sections| =>
              (sections[i].outKey, Arr(Reshaped(At(person, sections[i].inKey), sections[i].keys)))))
  }

  predicate WellFormedSections(sections: seq<Section>)
  {
    (forall i, j :: 0 <= i < j < |sections| ==> sections[i].outKey != sections[j].outKey)
    && forall i :: 0 <= i < |sections| ==> sections[i].outKey != "resourceName"
  }

  /** Each section of a contact holds the person's list of that kind,
      reshaped in order, one entry per source entry. */
  lemma ContactSection(person: Json, sections: seq<Section>, i: nat)
    requires WellFormedSections(sections) && i < |sections|
    ensures At(Contact(person, sections), sections[i].outKey) == Arr(Reshaped(At(person, sections[i].inKey), sections[i].keys))
    ensures At(Contact(person, sections), "resourceName") == At(person, "resourceName")
  {
    var fields := Contact(person, sections).fields;
    assert forall a :: 1 <= a < |fields| ==> fields[a].0 == sections[a - 1].outKey;
    assert DistinctKeys(fields);
    LookupDistinct(fields, sections[i].outKey);
    assert fields[i + 1].0 == sections[i].outKey;
    LookupDistinct(fields, "resourceName");
    assert fields[0].0 == "resourceName";
  }

  lemma SectionListsAreWellFormed()
    ensures WellFormedSections(FullSections) && WellFormedSections(EmailSections) && WellFormedSections(NameSections)
  {
  }

  /** One contact array, section by section. */
  method BuildContact(person: Json, sections: seq<Section>) returns (contact: Json)
    ensures contact == Contact(person, sections)
  {
    var fields := [("resourceName", At(person, "resourceName"))];
    var i := 0;
    while i < |sections|
      invariant i <= |sections|
      invariant fields == Contact(person, sections).fields[..i + 1]
    {
      var list := ReshapeList(At(person, sections[i].inKey), sections[i].keys);
      fields := fields + [(sections[i].outKey, Arr(list))];
      i := i + 1;
    }
    contact := Obj(fields);
  }

  /** `['error' => true, 'message' => ...]`, what the functions return when the call throws. */
  function ErrorResult(message: string): Json
  {
    Obj([("error", Bool(true)), ("message", Str(message))])
  }

  // ---------------------------------------------------------------- listContacts (lines 78-187)

  /** The query parameters of the request: the page token only when truthy. */
  function ListQuery(pageSize: int, pageToken: Json): seq<(string, Json)>
  {
    [("personFields", Str("names,emailAddresses,phoneNumbers,organizations,photos")), ("pageSize", Num(pageSize))]
      + if Truthy(pageToken) then [("pageToken", pageToken)] else []
  }

  lemma ListQueryPageToken(pageSize: int, pageToken: Json)
    ensures HasKey(ListQuery(pageSize, pageToken), "pageToken") <==> Truthy(pageToken)
    ensures At(Obj(ListQuery(pageSize, pageToken)), "pageSize") == Num(pageSize)
  {
    var q := ListQuery(pageSize, pageToken);
    if HasKey(q, "pageToken") {
      var i :| 0 <= i < |q| && q[i].0 == "pageToken";
      assert i == 2;
    }
    if Truthy(pageToken) {
      assert q[2].0 == "pageToken";
    }
    assert q[0].0 == "personFields" && q[1] == ("pageSize", Num(pageSize));
    assert "personFields" != "pageSize";
    assert Lookup(q, "pageSize") == Lookup(q[1..], "pageSize");
    assert q[1..][0] == ("pageSize", Num(pageSize));
  }

  /** The contacts made of every entry of `list`, read through `pick`. */
  function Contacts(list: Json, pick: Json -> Json, sections: seq<Section>): seq<Json>
  {
    if IsArray(list) then seq(Width(list), i requires 0 <= i < Width(list) => Contact(pick(Child(list, i)), sections))
    else []
  }

  function ListResult(response: Result<Json>): Json
  {
    match response
    case Err(m) => ErrorResult(m)
    case Ok(data) =>
      var contacts := Contacts(At(data, "connections"), p => p, FullSections);
      Obj([("contacts", Arr(contacts)),
           ("nextPageToken", Coalesce(At(data, "nextPageToken"), Null)),
           ("totalItems", Coalesce(At(data, "totalPeople"), Num(|contacts|)))])
  }

  /** One contact per connection, in order; the page token is null when
      absent; the total is `totalPeople` when given, else the count. */
  lemma ListResultShape(data: Json)
    ensures var r := ListResult(Ok(data));
      var conns := At(data, "connections");
      var contacts := At(r, "contacts").items;
      At(r, "contacts").Arr?
      && (IsArray(conns) ==>
            |contacts| == Width(conns) && forall i :: 0 <= i < |contacts| ==> contacts[i] == Contact(Child(conns, i), FullSections))
      && At(r, "nextPageToken") == At(data, "nextPageToken")
      && (IsSet(At(data, "totalPeople")) ==> At(r, "totalItems") == At(data, "totalPeople"))
      && (!IsSet(At(data, "totalPeople")) ==> At(r, "totalItems") == Num(|contacts|))
  {
    var r := ListResult(Ok(data));
    assert DistinctKeys(r.fields);
    LookupDistinct(r.fields, "contacts");
    LookupDistinct(r.fields, "nextPageToken");
    LookupDistinct(r.fields, "totalItems");
    assert r.fields[1].0 == "nextPageToken" && r.fields[2].0 == "totalItems";
  }

  /** The loop over the people of a response, as both list functions run it. */
  method CollectContacts(list: Json, pick: Json -> Json, sections: seq<Section>) returns (contacts: seq<Json>)
    ensures contacts == Contacts(list, pick, sections)
  {
    contacts := [];
    if IsSet(list) && IsArray(list) {
      var i := 0;
      while i < Width(list)
        invariant i <= Width(list)
        invariant contacts == Contacts(list, pick, sections)[..i]
      {
        var contact := BuildContact(pick(Child(list, i)), sections);
        contacts := contacts + [contact];
        i := i + 1;
      }
    }
  }

  method ListContacts(response: Result<Json>) returns (result: Json)
    ensures result == ListResult(response)
  {
    if response.Err? {
      return ErrorResult(response.message);
    }
    var data := response.value;
    var contacts := CollectContacts(At(data, "connections"), p => p, FullSections);
    result := Obj([("contacts", Arr(contacts)),
                   ("nextPageToken", Coalesce(At(data, "nextPageToken"), Null)),
                   ("totalItems", Coalesce(At(data, "totalPeople"), Num(|contacts|)))]);
  }

  // ---------------------------------------------------------------- searchContacts (lines 196-300)

  function PersonOf(result: Json): Json
  {
    At(result, "person")
  }

  function SearchResult(response: Result<Json>): Json
  {
    match response
    case Err(m) => ErrorResult(m)
    case Ok(data) =>
      var contacts := Contacts(At(data, "results"), PersonOf, FullSections);
      Obj([("contacts", Arr(contacts)), ("totalItems", Num(|contacts|))])
  }

  /** The total is the number of contacts returned: one per search result. */
  lemma SearchTotalIsCount(data: Json)
    ensures var r := SearchResult(Ok(data));
      At(r, "totalItems") == Num(|At(r, "contacts").items|)
      && |At(r, "contacts").items| == (if IsArray(At(data, "results")) then Width(At(data, "results")) else 0)
  {
    var r := SearchResult(Ok(data));
    assert "contacts" != "totalItems";
    assert Lookup(r.fields, "totalItems") == Lookup(r.fields[1..], "totalItems");
  }

  method SearchContacts(response: Result<Json>) returns (result: Json)
    ensures result == SearchResult(response)
  {
    if response.Err? {
      return ErrorResult(response.message);
    }
    var contacts := CollectContacts(At(response.value, "results"), PersonOf, FullSections);
    result := Obj([("contacts", Arr(contacts)), ("totalItems", Num(|contacts|))]);
  }

  // ---------------------------------------------------------------- first match in a list

  /** The index of the first entry of `list`, from `i` on, that passes `p`. */
  function FirstFrom(list: Json, p: Json -> bool, i: nat): (r: Option<nat>)
    requires i <= Width(list)
    ensures r.Some? ==>
      i <= r.value < Width(list) && p(Child(list, r.value)) && forall j :: i <= j < r.value ==> !p(Child(list, j))
    ensures r.None? ==> forall j :: i <= j < Width(list) ==> !p(Child(list, j))
    decreases Width(list) - i
  {
    if i == Width(list) then None
    else if p(Child(list, i)) then Some(i)
    else FirstFrom(list, p, i + 1)
  }

  // ---------------------------------------------------------------- array arguments

  /** How `findContactByEmail`, `findContactsByName` and `getEmailFromName`
      end: with the value they return, or with the `TypeError` PHP 8 throws
      when `strtolower` (line 478) or `stripos` (lines 563-565) is handed an
      array. A `TypeError` is an `Error`, not an `Exception`: neither these
      functions' `catch` nor an endpoint's stops it, and the script dies. */
  datatype Ending = Returns(value: Json) | TypeErrorThrown

  /** The person holds a non-empty `key` list, so the scan compares at least once. */
  predicate HasEntries(person: Json, key: string)
  {
    IsArray(At(person, key)) && Width(At(person, key)) > 0
  }

  /** The scan over `results` reaches a comparison: some person has a
      non-empty `key` list. */
  predicate Reaches(results: Json, key: string)
  {
    IsArray(results) && exists i :: 0 <= i < Width(results) && HasEntries(PersonOf(Child(results, i)), key)
  }

  /** No person before `i` has a non-empty `key` list. */
  predicate NoEntriesBefore(results: Json, key: string, i: nat)
    requires i <= Width(results)
  {
    forall k :: 0 <= k < i ==> !HasEntries(PersonOf(Child(results, k)), key)
  }

  lemma NoEntriesStep(results: Json, key: string, i: nat)
    requires i < Width(results)
    requires NoEntriesBefore(results, key, i) && !HasEntries(PersonOf(Child(results, i)), key)
    ensures NoEntriesBefore(results, key, i + 1)
  {
  }

  /** A person with entries under `key` is reached. */
  lemma ReachedAt(results: Json, key: string, i: nat)
    requires i < Width(results) && HasEntries(PersonOf(Child(results, i)), key)
    ensures Reaches(results, key)
  {
  }

  /** With no person holding entries, none is reached. */
  lemma NoneReached(results: Json, key: string)
    requires NoEntriesBefore(results, key, Width(results))
    ensures !Reaches(results, key)
  {
  }

  // ---------------------------------------------------------------- findContactByEmail (lines 445-519)

  /** Line 478: the addresses are compared after `strtolower` on both sides. */
  predicate EmailMatches(address: Json, email: Json)
  {
    Lower(ToPhpString(At(address, "value"))) == Lower(ToPhpString(email))
  }

  predicate HasEmail(person: Json, email: Json)
  {
    var addresses := At(person, "emailAddresses");
    IsArray(addresses) && exists j :: 0 <= j < Width(addresses) && EmailMatches(Child(addresses, j), email)
  }

  /** The test of line 478 as a predicate on an entry of `results`. */
  function HasEmailTest(email: Json): Json -> bool
  {
    r => HasEmail(PersonOf(r), email)
  }

  function ByEmailResult(email: Json, response: Result<Json>): Json
  {
    match response
    case Err(m) => ErrorResult(m)
    case Ok(data) =>
      var results := At(data, "results");
      if !IsArray(results) then Null
      else match FirstFrom(results, HasEmailTest(email), 0)
        case Some(i) => Contact(PersonOf(Child(results, i)), EmailSections)
        case None => Null
  }

  /** `findContactByEmail($email)`: an array `email` throws at the first
      comparison; otherwise the call returns the search result. */
  function FindByEmail(email: Json, response: Result<Json>): Ending
  {
    match response
    case Err(m) => Returns(ErrorResult(m))
    case Ok(data) =>
      if IsArray(email) && Reaches(At(data, "results"), "emailAddresses") then TypeErrorThrown
      else Returns(ByEmailResult(email, response))
  }

  /** The call throws iff the email is an array and some person has an
      address; an array email that is never compared finds nobody, and any
      other email returns the search result. */
  lemma ArrayEmailThrows(email: Json, response: Result<Json>)
    ensures FindByEmail(email, response) == TypeErrorThrown <==>
      response.Ok? && IsArray(email) && Reaches(At(response.value, "results"), "emailAddresses")
    ensures !IsArray(email) ==> FindByEmail(email, response) == Returns(ByEmailResult(email, response))
    ensures response.Ok? && IsArray(email) && FindByEmail(email, response).Returns? ==> FindByEmail(email, response) == Returns(Null)
  {
    var results := if response.Ok? then At(response.value, "results") else Null;
    if response.Ok? && IsArray(email) && IsArray(results) && !Reaches(results, "emailAddresses") {
      forall i | 0 <= i < Width(results) ensures !HasEmailTest(email)(Child(results, i)) {
        assert !HasEntries(PersonOf(Child(results, i)), "emailAddresses");
      }
      FirstFromIsFirst(results, HasEmailTest(email));
    }
  }

  /** The reply is null iff no person has the address (case ignored), and
      otherwise it is the first such person, in result order. */
  lemma ByEmailIsFirstMatch(email: Json, data: Json)
    ensures var results := At(data, "results");
      (ByEmailResult(email, Ok(data)) == Null <==>
        !IsArray(results) || forall i :: 0 <= i < Width(results) ==> !HasEmail(PersonOf(Child(results, i)), email))
      && (ByEmailResult(email, Ok(data)) != Null ==>
        exists i :: 0 <= i < Width(results)
          && HasEmail(PersonOf(Child(results, i)), email)
          && (forall j :: 0 <= j < i ==> !HasEmail(PersonOf(Child(results, j)), email))
          && ByEmailResult(email, Ok(data)) == Contact(PersonOf(Child(results, i)), EmailSections))
  {
    var results := At(data, "results");
    if IsArray(results) {
      FirstFromIsFirst(results, HasEmailTest(email));
    }
  }

  /** The search from the start fails iff no entry passes, and otherwise
      stops at the first entry that does. */
  lemma FirstFromIsFirst(list: Json, p: Json -> bool)
    ensures FirstFrom(list, p, 0).None? <==> forall i :: 0 <= i < Width(list) ==> !p(Child(list, i))
    ensures FirstFrom(list, p, 0).Some? ==>
      exists i :: 0 <= i < Width(list) && p(Child(list, i))
        && (forall j :: 0 <= j < i ==> !p(Child(list, j)))
        && FirstFrom(list, p, 0) == Some(i)
  {
    if FirstFrom(list, p, 0).Some? {
      var i := FirstFrom(list, p, 0).value;
      assert 0 <= i < Width(list) && p(Child(list, i));
    }
  }

  /** The address match ignores case on both sides. */
  lemma EmailMatchIgnoresCase(address: string, email: string)
    ensures EmailMatches(Obj([("value", Str(address))]), Str(email)) <==> Lower(address) == Lower(email)
    ensures EmailMatches(Obj([("value", Str(address))]), Str(Lower(email))) <==> EmailMatches(Obj([("value", Str(address))]), Str(email))
  {
    LowerIsLower(email);
  }

  /** The inner foreach of lines 476-507: does some address of the person
      match? `threw` reports the `TypeError` of `strtolower($email)` at the
      first comparison. */
  method ScanAddresses(person: Json, email: Json) returns (found: bool, threw: bool)
    ensures threw <==> IsArray(email) && HasEntries(person, "emailAddresses")
    ensures !threw ==> found == HasEmail(person, email)
  {
    var addresses := At(person, "emailAddresses");
    if IsSet(addresses) && IsArray(addresses) {
      var j := 0;
      while j < Width(addresses)
        invariant j <= Width(addresses)
        invariant j > 0 ==> !IsArray(email)
        invariant forall k :: 0 <= k < j ==> !EmailMatches(Child(addresses, k), email)
      {
        if IsArray(email) {
          return false, true;
        }
        if EmailMatches(Child(addresses, j), email) {
          return true, false;
        }
        j := j + 1;
      }
    }
    return false, false;
  }

  method FindContactByEmail(email: Json, response: Result<Json>) returns (ending: Ending)
    ensures ending == FindByEmail(email, response)
  {
    if response.Err? {
      return Returns(ErrorResult(response.message));
    }
    var results := At(response.value, "results");
    if IsSet(results) && IsArray(results) && Width(results) > 0 {
      var hit, threw := FirstWithEmail(results, email);
      ByEmailOfScan(email, response.value, hit, threw);
      if threw {
        return TypeErrorThrown;
      }
      if hit.Some? {
        var contact := BuildContact(PersonOf(Child(results, hit.value)), EmailSections);
        return Returns(contact);
      }
    } else {
      NobodyToScan(email, response.value);
    }
    return Returns(Null);
  }

  /** What the outer loop reports decides the call's ending. */
  lemma ByEmailOfScan(email: Json, data: Json, hit: Option<nat>, threw: bool)
    requires IsArray(At(data, "results"))
    requires threw <==> IsArray(email) && Reaches(At(data, "results"), "emailAddresses")
    requires !threw ==> hit == FirstFrom(At(data, "results"), HasEmailTest(email), 0)
    ensures threw ==> FindByEmail(email, Ok(data)) == TypeErrorThrown
    ensures !threw && hit.None? ==> FindByEmail(email, Ok(data)) == Returns(Null)
    ensures !threw && hit.Some? ==>
      hit.value < Width(At(data, "results"))
      && FindByEmail(email, Ok(data)) == Returns(Contact(PersonOf(Child(At(data, "results"), hit.value)), EmailSections))
  {
  }

  /** Without results to scan, the call returns null. */
  lemma NobodyToScan(email: Json, data: Json)
    requires !(IsSet(At(data, "results")) && IsArray(At(data, "results")) && Width(At(data, "results")) > 0)
    ensures FindByEmail(email, Ok(data)) == Returns(Null)
  {
    var results := At(data, "results");
    if IsArray(results) {
      assert FirstFrom(results, HasEmailTest(email), 0) == None;
    }
  }

  /** The outer foreach of lines 470-509: the index of the first person
      with the address, unless a comparison throws first. */
  method FirstWithEmail(results: Json, email: Json) returns (hit: Option<nat>, threw: bool)
    ensures threw <==> IsArray(email) && Reaches(results, "emailAddresses")
    ensures !threw ==> hit == FirstFrom(results, HasEmailTest(email), 0)
  {
    ghost var p := HasEmailTest(email);
    var i := 0;
    while i < Width(results)
      invariant i <= Width(results)
      invariant NoneBefore(results, p, i)
      invariant IsArray(email) ==> NoEntriesBefore(results, "emailAddresses", i)
    {
      var found, thrown := ScanAddresses(PersonOf(Child(results, i)), email);
      if thrown {
        ReachedAt(results, "emailAddresses", i);
        return None, true;
      }
      if IsArray(email) {
        NoEntriesStep(results, "emailAddresses", i);
      }
      HasEmailTestHolds(email, Child(results, i));
      SkipNone(results, p, i);
      if found {
        FirstFromStep(results, p, i);
        return Some(i), false;
      }
      NoneStep(results, p, i);
      i := i + 1;
    }
    if IsArray(email) {
      NoneReached(results, "emailAddresses");
    }
    SkipNone(results, p, i);
    return None, false;
  }

  /** No entry before `i` passes the test. */
  predicate NoneBefore(list: Json, p: Json -> bool, i: nat)
    requires i <= Width(list)
  {
    forall j :: 0 <= j < i ==> !p(Child(list, j))
  }

  lemma NoneStep(list: Json, p: Json -> bool, i: nat)
    requires i < Width(list) && NoneBefore(list, p, i) && !p(Child(list, i))
    ensures NoneBefore(list, p, i + 1)
  {
  }

  /** The search may skip entries that fail the test. */
  lemma {:induction false} SkipNone(list: Json, p: Json -> bool, i: nat)
    requires i <= Width(list) && NoneBefore(list, p, i)
    ensures FirstFrom(list, p, 0) == FirstFrom(list, p, i)
  {
    if i > 0 {
      SkipNone(list, p, i - 1);
      FirstFromStep(list, p, i - 1);
    }
  }

  lemma HasEmailTestHolds(email: Json, r: Json)
    ensures HasEmailTest(email)(r) == HasEmail(PersonOf(r), email)
  {
  }

  /** One step of the search: it stops at `i` when the entry passes. */
  lemma FirstFromStep(list: Json, p: Json -> bool, i: nat)
    requires i < Width(list)
    ensures p(Child(list, i)) ==> FirstFrom(list, p, i) == Some(i)
    ensures !p(Child(list, i)) ==> FirstFrom(list, p, i) == FirstFrom(list, p, i + 1)
  {
  }

  // ---------------------------------------------------------------- findContactsByName (lines 527-622)

  /** Lines 563-565: `displayName` is searched whatever it holds, `givenName`
      and `familyName` only when set; `stripos` ignores case. */
  predicate NameMatches(personName: Json, name: Json)
  {
    var q := ToPhpString(name);
    ContainsIgnoringCase(ToPhpString(At(personName, "displayName")), q)
    || (IsSet(At(personName, "givenName")) && ContainsIgnoringCase(ToPhpString(At(personName, "givenName")), q))
    || (IsSet(At(personName, "familyName")) && ContainsIgnoringCase(ToPhpString(At(personName, "familyName")), q))
  }

  predicate HasName(person: Json, name: Json)
  {
    var names := At(person, "names");
    IsArray(names) && exists j :: 0 <= j < Width(names) && NameMatches(Child(names, j), name)
  }

  /** The contacts of the matching people among the first `n` results, in order. */
  function MatchingUpTo(results: Json, name: Json, n: nat): seq<Json>
    requires n <= Width(results)
  {
    if n == 0 then []
    else
      var person := PersonOf(Child(results, n - 1));
      MatchingUpTo(results, name, n - 1) + (if HasName(person, name) then [Contact(person, NameSections)] else [])
  }

  /** The indices of the matching people among the first `n` results. */
  function MatchingIndices(results: Json, name: Json, n: nat): (r: seq<nat>)
    requires n <= Width(results)
    ensures forall k :: 0 <= k < |r| ==> r[k] < n
  {
    KeptIndices(Keep(results, name), n)
  }

  /** One more result adds its index when that person matches. */
  lemma MatchingIndicesStep(results: Json, name: Json, n: nat)
    requires 0 < n <= Width(results)
    ensures MatchingIndices(results, name, n)
      == MatchingIndices(results, name, n - 1) + (if HasName(PersonOf(Child(results, n - 1)), name) then [n - 1] else [])
  {
    var keep := Keep(results, name);
    KeptIndicesStep(keep, n);
    KeepHolds(results, name, n - 1);
    if keep(n - 1) {
      assert MatchingIndices(results, name, n) == MatchingIndices(results, name, n - 1) + [n - 1];
    } else {
      assert MatchingIndices(results, name, n) == MatchingIndices(results, name, n - 1);
    }
  }

  lemma KeptIndicesStep(keep: nat -> bool, n: nat)
    requires n > 0
    ensures KeptIndices(keep, n) == KeptIndices(keep, n - 1) + (if keep(n - 1) then [n - 1] else [])
  {
  }

  function ByNameResult(name: Json, response: Result<Json>): Json
  {
    match response
    case Err(m) => ErrorResult(m)
    case Ok(data) =>
      var results := At(data, "results");
      if IsArray(results) then Arr(MatchingUpTo(results, name, Width(results))) else Arr([])
  }

  /** `findContactsByName($name)`: an array `name` throws at the first
      comparison; otherwise the call returns the filtered contacts. */
  function FindByName(name: Json, response: Result<Json>): Ending
  {
    match response
    case Err(m) => Returns(ErrorResult(m))
    case Ok(data) =>
      if IsArray(name) && Reaches(At(data, "results"), "names") then TypeErrorThrown
      else Returns(ByNameResult(name, response))
  }

  /** The call throws iff the name is an array and some person has a name;
      an array name that is never compared keeps nobody, and any other name
      returns the filtered contacts. */
  lemma ArrayNameThrows(name: Json, response: Result<Json>)
    ensures FindByName(name, response) == TypeErrorThrown <==>
      response.Ok? && IsArray(name) && Reaches(At(response.value, "results"), "names")
    ensures !IsArray(name) ==> FindByName(name, response) == Returns(ByNameResult(name, response))
    ensures response.Ok? && IsArray(name) && FindByName(name, response).Returns? ==> FindByName(name, response) == Returns(Arr([]))
  {
    var results := if response.Ok? then At(response.value, "results") else Null;
    if response.Ok? && IsArray(name) && IsArray(results) && !Reaches(results, "names") {
      forall i | 0 <= i < Width(results) ensures !HasName(PersonOf(Child(results, i)), name) {
        assert !HasEntries(PersonOf(Child(results, i)), "names");
      }
      NobodyKept(results, name, Width(results));
    }
  }

  /** With no matching person among the first `n`, nothing is kept. */
  lemma {:induction false} NobodyKept(results: Json, name: Json, n: nat)
    requires n <= Width(results)
    requires forall i :: 0 <= i < n ==> !HasName(PersonOf(Child(results, i)), name)
    ensures MatchingUpTo(results, name, n) == []
  {
    if n > 0 {
      NobodyKept(results, name, n - 1);
    }
  }

  /** A person is kept iff one of its names matches, and the kept people
      appear in result order: the k-th contact is that of the k-th matching
      index, and the indices increase. */
  lemma {:induction false} MatchingIsOrderedFilter(results: Json, name: Json, n: nat)
    requires n <= Width(results)
    ensures var idx := MatchingIndices(results, name, n);
      var cs := MatchingUpTo(results, name, n);
      |cs| == |idx|
      && (forall k :: 0 <= k < |idx| ==> cs[k] == Contact(PersonOf(Child(results, idx[k])), NameSections))
      && (forall a, b :: 0 <= a < b < |idx| ==> idx[a] < idx[b])
      && (forall i :: 0 <= i < n ==> (i in idx <==> HasName(PersonOf(Child(results, i)), name)))
  {
    MatchingContacts(results, name, n);
    MatchingIndicesIncrease(results, name, n);
    MatchingIndicesMembers(results, name, n);
  }

  lemma MatchingContacts(results: Json, name: Json, n: nat)
    requires n <= Width(results)
    ensures var idx := MatchingIndices(results, name, n);
      var cs := MatchingUpTo(results, name, n);
      |cs| == |idx| && forall k :: 0 <= k < |idx| ==> cs[k] == Contact(PersonOf(Child(results, idx[k])), NameSections)
  {
    var f := ContactAt(results);
    MatchingAreImages(results, name, n);
    KeptImagesAt(Keep(results, name), f, n);
  }

  /** The contact of the `i`-th result, null past the end. */
  function ContactAt(results: Json): nat -> Json
  {
    (i: nat) => if i < Width(results) then Contact(PersonOf(Child(results, i)), NameSections) else Null
  }

  /** The images under `f` of the indices below `n` that `keep` accepts. */
  function KeptImages<T>(keep: nat -> bool, f: nat -> T, n: nat): seq<T>
  {
    if n == 0 then [] else KeptImages(keep, f, n - 1) + (if keep(n - 1) then [f(n - 1)] else [])
  }

  /** The `k`-th image is that of the `k`-th accepted index. */
  lemma {:induction false} KeptImagesAt<T>(keep: nat -> bool, f: nat -> T, n: nat)
    ensures var idx := KeptIndices(keep, n);
      |KeptImages(keep, f, n)| == |idx| && forall k :: 0 <= k < |idx| ==> KeptImages(keep, f, n)[k] == f(idx[k])
  {
    if n > 0 {
      KeptImagesAt(keep, f, n - 1);
      var idx0, im0 := KeptIndices(keep, n - 1), KeptImages(keep, f, n - 1);
      if keep(n - 1) {
        var idx, im := idx0 + [n - 1], im0 + [f(n - 1)];
        forall k | 0 <= k < |idx| ensures im[k] == f(idx[k]) {
          if k < |idx0| {
            assert im[k] == im0[k] && idx[k] == idx0[k];
          }
        }
      }
    }
  }

  /** The contacts of the name search are the images of its indices. */
  lemma {:induction false} MatchingAreImages(results: Json, name: Json, n: nat)
    requires n <= Width(results)
    ensures MatchingUpTo(results, name, n) == KeptImages(Keep(results, name), ContactAt(results), n)
  {
    if n > 0 {
      MatchingAreImages(results, name, n - 1);
      KeepHolds(results, name, n - 1);
      var keep, f := Keep(results, name), ContactAt(results);
      var person := PersonOf(Child(results, n - 1));
      assert f(n - 1) == Contact(person, NameSections);
      if keep(n - 1) {
        assert KeptImages(keep, f, n) == KeptImages(keep, f, n - 1) + [f(n - 1)];
        assert MatchingUpTo(results, name, n) == MatchingUpTo(results, name, n - 1) + [Contact(person, NameSections)];
      } else {
        assert KeptImages(keep, f, n) == KeptImages(keep, f, n - 1);
        assert MatchingUpTo(results, name, n) == MatchingUpTo(results, name, n - 1);
      }
    }
  }

  /** The indices below `n` that `keep` accepts, in increasing order. */
  function KeptIndices(keep: nat -> bool, n: nat): (r: seq<nat>)
    ensures forall k :: 0 <= k < |r| ==> r[k] < n
  {
    if n == 0 then [] else KeptIndices(keep, n - 1) + (if keep(n - 1) then [n - 1] else [])
  }

  function Keep(results: Json, name: Json): nat -> bool
  {
    (i: nat) => i < Width(results) && HasName(PersonOf(Child(results, i)), name)
  }

  lemma KeepHolds(results: Json, name: Json, i: nat)
    requires i < Width(results)
    ensures Keep(results, name)(i) == HasName(PersonOf(Child(results, i)), name)
  {
  }

  lemma {:induction false} KeptIndicesFacts(keep: nat -> bool, n: nat)
    ensures var idx := KeptIndices(keep, n);
      (forall k :: 0 <= k < |idx| ==> idx[k] < n)
      && (forall a, b :: 0 <= a < b < |idx| ==> idx[a] < idx[b])
      && (forall i :: 0 <= i < n ==> (i in idx <==> keep(i)))
  {
    if n > 0 {
      KeptIndicesFacts(keep, n - 1);
    }
  }

  lemma MatchingIndicesIncrease(results: Json, name: Json, n: nat)
    requires n <= Width(results)
    ensures var idx := MatchingIndices(results, name, n);
      forall a, b :: 0 <= a < b < |idx| ==> idx[a] < idx[b]
  {
    KeptIndicesFacts(Keep(results, name), n);
  }

  lemma MatchingIndicesMembers(results: Json, name: Json, n: nat)
    requires n <= Width(results)
    ensures var idx := MatchingIndices(results, name, n);
      forall i :: 0 <= i < n ==> (i in idx <==> HasName(PersonOf(Child(results, i)), name))
  {
    KeptIndicesFacts(Keep(results, name), n);
    forall i | 0 <= i < n ensures Keep(results, name)(i) == HasName(PersonOf(Child(results, i)), name) {
      KeepHolds(results, name, i);
    }
  }

  method FindContactsByName(name: Json, response: Result<Json>) returns (ending: Ending)
    ensures ending == FindByName(name, response)
  {
    if response.Err? {
      return Returns(ErrorResult(response.message));
    }
    var results := At(response.value, "results");
    var contacts := [];
    if IsSet(results) && IsArray(results) {
      var threw;
      contacts, threw := KeepMatching(results, name);
      if threw {
        return TypeErrorThrown;
      }
    }
    return Returns(Arr(contacts));
  }

  /** The outer foreach of lines 555-612: the contacts of the people with a
      matching name, unless a comparison throws first. */
  method KeepMatching(results: Json, name: Json) returns (contacts: seq<Json>, threw: bool)
    ensures threw <==> IsArray(name) && Reaches(results, "names")
    ensures !threw ==> contacts == MatchingUpTo(results, name, Width(results))
  {
    contacts := [];
    var i := 0;
    while i < Width(results)
      invariant i <= Width(results)
      invariant contacts == MatchingUpTo(results, name, i)
      invariant IsArray(name) ==> NoEntriesBefore(results, "names", i)
    {
      var person := PersonOf(Child(results, i));
      var nameMatches, thrown := ScanNames(person, name);
      if thrown {
        ReachedAt(results, "names", i);
        return contacts, true;
      }
      if nameMatches {
        var contact := BuildContact(person, NameSections);
        contacts := contacts + [contact];
      }
      if IsArray(name) {
        NoEntriesStep(results, "names", i);
      }
      i := i + 1;
    }
    if IsArray(name) {
      NoneReached(results, "names");
    }
    return contacts, false;
  }

  /** The inner foreach of lines 559-569: does some name of the person
      match? `threw` reports the `TypeError` of `stripos` at the first
      comparison. */
  method ScanNames(person: Json, name: Json) returns (found: bool, threw: bool)
    ensures threw <==> IsArray(name) && HasEntries(person, "names")
    ensures !threw ==> found == HasName(person, name)
  {
    var names := At(person, "names");
    if IsSet(names) && IsArray(names) {
      var j := 0;
      while j < Width(names)
        invariant j <= Width(names)
        invariant j > 0 ==> !IsArray(name)
        invariant forall k :: 0 <= k < j ==> !NameMatches(Child(names, k), name)
      {
        if IsArray(name) {
          return false, true;
        }
        if NameMatches(Child(names, j), name) {
          return true, false;
        }
        j := j + 1;
      }
    }
    return false, false;
  }

  // ---------------------------------------------------------------- getEmailFromName (lines 630-645)

  /** The selection of lines 633-644 over what `findContactsByName` returned. */
  function FirstEmail(contacts: Json): Json
  {
    if IsArray(contacts) && !IsSet(At(contacts, "error")) && Width(contacts) > 0 then
      var emails := At(At0(contacts), "emails");
      if IsSet(emails) && IsArray(emails) && Width(emails) > 0 then At(At0(emails), "value") else Null
    else Null
  }

  /** `getEmailFromName($name)`: the `TypeError` of the name search passes
      through; otherwise the first address of what it returned. */
  function EmailFromName(name: Json, response: Result<Json>): Ending
  {
    match FindByName(name, response)
    case TypeErrorThrown => TypeErrorThrown
    case Returns(contacts) => Returns(FirstEmail(contacts))
  }

  /** What the first contact of the name search answers: the `value` of its
      first address (`''` when the address has none), null without addresses. */
  lemma FirstEmailOfContact(person: Json, rest: seq<Json>)
    ensures var addresses := At(person, "emailAddresses");
      FirstEmail(Arr([Contact(person, NameSections)] + rest))
        == if Width(addresses) > 0 then Coalesce(At(Child(addresses, 0), "value"), Str("")) else Null
  {
    SectionListsAreWellFormed();
    ContactSection(person, NameSections, 1);
    var addresses := At(person, "emailAddresses");
    if Width(addresses) > 0 {
      RecordFields(Child(addresses, 0), ["value", "type"], "value");
    }
  }

  /** The call dies with the name search's `TypeError` iff the name is an
      array and some person has a name. Otherwise the reply is null when the
      lookup failed, when nobody matched, or when the first person matched
      has no address; else it is the `value` of that person's first address,
      `''` when the address has none. Later people are never consulted. */
  lemma EmailFromNameIsFirstAddressOfFirstMatch(name: Json, response: Result<Json>)
    ensures EmailFromName(name, response) == TypeErrorThrown <==>
      response.Ok? && IsArray(name) && Reaches(At(response.value, "results"), "names")
    ensures response.Err? ==> EmailFromName(name, response) == Returns(Null)
    ensures response.Ok? && !(IsArray(name) && Reaches(At(response.value, "results"), "names")) ==>
      var results := At(response.value, "results");
      if !IsArray(results) || MatchingIndices(results, name, Width(results)) == [] then EmailFromName(name, response) == Returns(Null)
      else
        var addresses := At(PersonOf(Child(results, MatchingIndices(results, name, Width(results))[0])), "emailAddresses");
        EmailFromName(name, response) == Returns(if Width(addresses) > 0 then Coalesce(At(Child(addresses, 0), "value"), Str("")) else Null)
  {
    ArrayNameThrows(name, response);
    if response.Ok? {
      var results := At(response.value, "results");
      if IsArray(results) {
        FirstEmailOfSearch(results, name);
      }
    } else {
      assert ErrorResult(response.message).fields[0].0 == "error";
    }
  }

  /** The first address of the filtered contacts of an array of results:
      null when nobody matched, else that of the first person matched. */
  lemma FirstEmailOfSearch(results: Json, name: Json)
    requires IsArray(results)
    ensures var idx := MatchingIndices(results, name, Width(results));
      FirstEmail(Arr(MatchingUpTo(results, name, Width(results)))) ==
        if idx == [] then Null
        else
          var addresses := At(PersonOf(Child(results, idx[0])), "emailAddresses");
          if Width(addresses) > 0 then Coalesce(At(Child(addresses, 0), "value"), Str("")) else Null
  {
    var idx := MatchingIndices(results, name, Width(results));
    if idx != [] {
      var rest := NameSearchHead(results, name);
      FirstEmailOfContact(PersonOf(Child(results, idx[0])), rest);
    } else {
      NameSearchEmpty(results, name);
    }
  }

  /** The name search's answer begins with the contact of the first match. */
  lemma NameSearchHead(results: Json, name: Json) returns (rest: seq<Json>)
    requires IsArray(results) && MatchingIndices(results, name, Width(results)) != []
    ensures MatchingUpTo(results, name, Width(results))
      == [Contact(PersonOf(Child(results, MatchingIndices(results, name, Width(results))[0])), NameSections)] + rest
  {
    var n := Width(results);
    MatchingContacts(results, name, n);
    var cs := MatchingUpTo(results, name, n);
    rest := cs[1..];
    SplitHead(cs);
  }

  lemma SplitHead<T>(s: seq<T>)
    requires s != []
    ensures s == [s[0]] + s[1..]
  {
  }

  lemma NameSearchEmpty(results: Json, name: Json)
    requires IsArray(results) && MatchingIndices(results, name, Width(results)) == []
    ensures MatchingUpTo(results, name, Width(results)) == []
  {
    MatchingIsOrderedFilter(results, name, Width(results));
  }

  /** Only the first contact is looked at: lists that agree on it give the
      same answer, whatever follows. */
  lemma FirstEmailReadsOnlyFirstContact(c: Json, rest1: seq<Json>, rest2: seq<Json>)
    ensures FirstEmail(Arr([c] + rest1)) == FirstEmail(Arr([c] + rest2))
  {
  }

  // ---------------------------------------------------------------- getContactsClient (lines 28-69)

  /** The decision of lines 53-65: refresh (and save) only when a token is
      stored, the client finds it expired, and it carries a refresh token
      (what `getRefreshToken()` reads). */
  predicate NeedsRefresh(token: Json, expired: bool)
  {
    Truthy(token) && expired && HasRefreshToken(token)
  }

  /** The client's access token after lines 51-66: none without a stored
      token, the refreshed one after a refresh, the stored one otherwise. */
  function ClientToken(token: Json, expired: bool, refreshed: Json): Json
  {
    if !Truthy(token) then Null else if NeedsRefresh(token, expired) then refreshed else token
  }

  /** `isAccessTokenExpired()` is `expired`, the token the refresh returns is
      `refreshed`; `readFails` and `saveFails` say the table's queries throw. */
  method GetContactsClient(store: TokenStore, decode: string -> Json, encode: Json -> string,
                           expired: bool, refreshed: Json, readFails: bool, saveFails: bool)
    returns (clientToken: Json)
    requires store.Valid()
    modifies store
    ensures store.Valid() && store.connected == old(store.connected)
    ensures var token := StoredToken(old(store.connected) && !readFails, old(store.rows), "gmail", decode);
      clientToken == ClientToken(token, expired, refreshed)
      && store.rows == if NeedsRefresh(token, expired) && store.connected && !saveFails
                       then Upsert(old(store.rows), "gmail", encode(refreshed)) else old(store.rows)
  {
    var token := store.GetToken("gmail", decode, readFails);
    clientToken := Null;
    if Truthy(token) {
      clientToken := token;
      if expired {
        if HasRefreshToken(token) {
          clientToken := refreshed;
          var saved := store.SaveToken("gmail", refreshed, encode, saveFails);
        }
      }
    }
  }

  /** Without all three conditions the table is left as it was. */
  lemma NoRefreshLeavesStore(token: Json, expired: bool, refreshed: Json)
    ensures !Truthy(token) ==> ClientToken(token, expired, refreshed) == Null
    ensures Truthy(token) && !NeedsRefresh(token, expired) ==> ClientToken(token, expired, refreshed) == token
    ensures !expired ==> !NeedsRefresh(token, expired)
    ensures !HasRefreshToken(token) ==> !NeedsRefresh(token, expired)
  {
  }
}
