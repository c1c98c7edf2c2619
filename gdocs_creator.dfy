/** gdocs_creator.php: the endpoint that creates a Google Docs document from a
    Vapi.ai request. The title and content are taken from the raw body by two
    regular expressions, or else from the first node of the decoded body that
    has both, or else from fixed defaults; the reply reports the new document
    or the error. */
module GdocsCreator {
  import opened Php
  import opened Json
  import opened JsonSearch

  // ---------------------------------------------------------------- the regular expressions (lines 49-53)

  /** PCRE's `\s` outside UTF mode: space, tab, line feed, vertical tab, form
      feed, carriage return. */
  predicate RegexSpace(c: char)
  {
    c == ' ' || ('\t' <= c <= '\r')
  }

  predicate AllSpace(w: string)
  {
    forall k :: 0 <= k < |w| ==> RegexSpace(w[k])
  }

  /** `[^"]+` without its length bound. */
  predicate QuoteFree(v: string)
  {
    forall k :: 0 <= k < |v| ==> v[k] != '"'
  }

  /** The end of the run of `\s` that starts at `i`. */
  function SkipSpace(s: string, i: nat): (j: nat)
    requires i <= |s|
    ensures i <= j <= |s|
    ensures forall k :: i <= k < j ==> RegexSpace(s[k])
    ensures j == |s| || !RegexSpace(s[j])
    decreases |s| - i
  {
    if i < |s| && RegexSpace(s[i]) then SkipSpace(s, i + 1) else i
  }

  /** The end of the run of non-quote characters that starts at `i`. */
  function QuoteFreeEnd(s: string, i: nat): (j: nat)
    requires i <= |s|
    ensures i <= j <= |s|
    ensures forall k :: i <= k < j ==> s[k] != '"'
    ensures j == |s| || s[j] == '"'
    decreases |s| - i
  {
    if i < |s| && s[i] != '"' then QuoteFreeEnd(s, i + 1) else i
  }

  /** The literal that opens `/"key":\s*"([^"]+)"/`. */
  function Opening(key: string): string
  {
    "\"" + key + "\":"
  }

  /** The capture of `/"key":\s*"([^"]+)"/` for a match that starts at `i`.
      `\s*` and `[^"]+` are greedy; since neither can swallow the `"` that
      follows it, backtracking never finds a shorter run that works. */
  function MatchAt(raw: string, key: string, i: nat): Option<string>
    requires i <= |raw|
  {
    var p := Opening(key);
    if !OccursAt(p, raw, i) then None
    else
      var j := SkipSpace(raw, i + |p|);
      if j < |raw| && raw[j] == '"' then
        var k := QuoteFreeEnd(raw, j + 1);
        if j + 1 < k < |raw| then Some(raw[j + 1..k]) else None
      else None
  }

  /** The regular expression matches at `i` with spaces `w` and capture `v`. */
  ghost predicate MatchesWith(raw: string, key: string, i: nat, w: string, v: string)
  {
    AllSpace(w) && |v| > 0 && QuoteFree(v) && OccursAt(Opening(key) + w + "\"" + v + "\"", raw, i)
  }

  /** `MatchAt` is the regular expression's match: it captures `v` at `i`
      exactly when the text at `i` is the opening, some whitespace, a quote,
      the non-empty quote-free `v` and a closing quote. */
  lemma MatchAtIsRegexMatch(raw: string, key: string, i: nat, v: string)
    requires i <= |raw|
    ensures MatchAt(raw, key, i) == Some(v) <==> exists w :: MatchesWith(raw, key, i, w, v)
  {
    if MatchAt(raw, key, i) == Some(v) {
      MatchAtMatches(raw, key, i);
    }
    if w :| MatchesWith(raw, key, i, w, v) {
      MatchesWithPins(raw, key, i, w, v);
    }
  }

  /** What `MatchAt` captures is a match. */
  lemma MatchAtMatches(raw: string, key: string, i: nat)
    requires i <= |raw| && MatchAt(raw, key, i).Some?
    ensures exists w :: MatchesWith(raw, key, i, w, MatchAt(raw, key, i).value)
  {
    var p := Opening(key);
    var j := SkipSpace(raw, i + |p|);
    var k := QuoteFreeEnd(raw, j + 1);
    MatchAtUnfold(raw, key, i);
    var w := raw[i + |p|..j];
    var v := raw[j + 1..k];
    forall t | 0 <= t < |w| ensures RegexSpace(w[t]) {
      assert w[t] == raw[i + |p| + t];
    }
    forall t | 0 <= t < |v| ensures v[t] != '"' {
      assert v[t] == raw[j + 1 + t];
    }
    QuotedOccurs(p, raw, i, j, k);
    assert MatchesWith(raw, key, i, w, v);
  }

  /** What a successful `MatchAt` saw: the opening, a quote after the
      whitespace, and a closing quote after the capture. */
  lemma MatchAtUnfold(raw: string, key: string, i: nat)
    requires i <= |raw| && MatchAt(raw, key, i).Some?
    ensures var j := SkipSpace(raw, i + |Opening(key)|);
      OccursAt(Opening(key), raw, i) && j < |raw| && raw[j] == '"'
      && j + 1 < QuoteFreeEnd(raw, j + 1) < |raw|
      && MatchAt(raw, key, i).value == raw[j + 1..QuoteFreeEnd(raw, j + 1)]
  {
  }

  /** The opening at `i`, then the text up to a quote at `j`, then the text
      up to a quote at `k`, make one occurrence. */
  lemma QuotedOccurs(p: string, raw: string, i: nat, j: nat, k: nat)
    requires OccursAt(p, raw, i) && i + |p| <= j < k < |raw|
    requires raw[j] == '"' && raw[k] == '"'
    ensures OccursAt(p + raw[i + |p|..j] + "\"" + raw[j + 1..k] + "\"", raw, i)
  {
    var w := raw[i + |p|..j];
    var v := raw[j + 1..k];
    assert OccursAt(w, raw, i + |p|);
    assert OccursAt("\"", raw, j) by { assert raw[j..j + 1] == [raw[j]]; }
    assert OccursAt(v, raw, j + 1);
    assert OccursAt("\"", raw, k) by { assert raw[k..k + 1] == [raw[k]]; }
    OccursConcat(p, w, raw, i);
    OccursConcat(p + w, "\"", raw, i);
    OccursConcat(p + w + "\"", v, raw, i);
    OccursConcat(p + w + "\"" + v, "\"", raw, i);
  }

  lemma OccursConcat(a: string, b: string, s: string, i: nat)
    requires OccursAt(a, s, i) && OccursAt(b, s, i + |a|)
    ensures OccursAt(a + b, s, i)
  {
    assert s[i..i + |a| + |b|] == s[i..i + |a|] + s[i + |a|..i + |a| + |b|];
  }

  /** The front and back of an occurrence occur where they stand. */
  lemma OccursSplit(a: string, b: string, s: string, i: nat)
    requires OccursAt(a + b, s, i)
    ensures OccursAt(a, s, i) && OccursAt(b, s, i + |a|)
  {
    assert s[i..i + |a|] == (a + b)[..|a|] == a;
    assert s[i + |a|..i + |a| + |b|] == (a + b)[|a|..] == b;
  }

  /** A match pins down where the whitespace and the capture end. */
  lemma MatchesWithPins(raw: string, key: string, i: nat, w: string, v: string)
    requires MatchesWith(raw, key, i, w, v)
    ensures MatchAt(raw, key, i) == Some(v)
  {
    var p := Opening(key);
    var j := i + |p| + |w|;
    var k := j + 1 + |v|;
    OccursSplit(p + w + "\"" + v, "\"", raw, i);
    OccursSplit(p + w + "\"", v, raw, i);
    OccursSplit(p + w, "\"", raw, i);
    OccursSplit(p, w, raw, i);
    assert raw[j] == raw[j..j + 1][0] == '"';
    assert raw[k] == raw[k..k + 1][0] == '"';
    forall t | i + |p| <= t < j ensures RegexSpace(raw[t]) {
      assert raw[t] == raw[i + |p|..j][t - i - |p|] == w[t - i - |p|];
    }
    forall t | j + 1 <= t < k ensures raw[t] != '"' {
      assert raw[t] == raw[j + 1..k][t - j - 1] == v[t - j - 1];
    }
    SkipSpaceStops(raw, i + |p|, j);
    QuoteFreeEndStops(raw, j + 1, k);
  }

  /** A run of `\s` followed by a character outside it ends where that
      character stands. */
  lemma SkipSpaceStops(s: string, i: nat, j: nat)
    requires i <= j < |s| && !RegexSpace(s[j])
    requires forall t :: i <= t < j ==> RegexSpace(s[t])
    ensures SkipSpace(s, i) == j
  {
    var e := SkipSpace(s, i);
    assert e < |s| ==> !RegexSpace(s[e]);
  }

  /** A run of non-quotes followed by a quote ends at that quote. */
  lemma QuoteFreeEndStops(s: string, i: nat, k: nat)
    requires i <= k < |s| && s[k] == '"'
    requires forall t :: i <= t < k ==> s[t] != '"'
    ensures QuoteFreeEnd(s, i) == k
  {
    var e := QuoteFreeEnd(s, i);
    assert e < |s| ==> s[e] == '"';
  }

  /** `preg_match` from position `i`: the capture of the leftmost match. */
  function Scan(raw: string, key: string, i: nat): Option<string>
    requires i <= |raw|
    decreases |raw| - i
  {
    if MatchAt(raw, key, i).Some? then MatchAt(raw, key, i)
    else if i == |raw| then None
    else Scan(raw, key, i + 1)
  }

  /** The scan returns the capture of the leftmost match, and fails only when
      no position matches. */
  lemma ScanIsLeftmost(raw: string, key: string, i: nat)
    requires i <= |raw|
    ensures Scan(raw, key, i).Some? ==>
      exists k :: i <= k <= |raw| && MatchAt(raw, key, k) == Scan(raw, key, i)
        && forall m :: i <= m < k ==> MatchAt(raw, key, m).None?
    ensures Scan(raw, key, i).None? <==> forall m :: i <= m <= |raw| ==> MatchAt(raw, key, m).None?
  {
    ScanFindsLeftmost(raw, key, i);
    ScanFailsOnlyWithoutMatch(raw, key, i);
  }

  /** A successful scan from `i` found the capture at some `k`, with no match
      in `[i, k)`. */
  lemma {:induction false} ScanFindsLeftmost(raw: string, key: string, i: nat)
    requires i <= |raw|
    ensures Scan(raw, key, i).Some? ==>
      exists k :: i <= k <= |raw| && MatchAt(raw, key, k) == Scan(raw, key, i)
        && forall m :: i <= m < k ==> MatchAt(raw, key, m).None?
    decreases |raw| - i
  {
    if MatchAt(raw, key, i).Some? {
      assert MatchAt(raw, key, i) == Scan(raw, key, i);
    } else if i < |raw| {
      ScanFindsLeftmost(raw, key, i + 1);
      if Scan(raw, key, i).Some? {
        var k :| i + 1 <= k <= |raw| && MatchAt(raw, key, k) == Scan(raw, key, i + 1)
          && forall m :: i + 1 <= m < k ==> MatchAt(raw, key, m).None?;
        assert forall m :: i <= m < k ==> MatchAt(raw, key, m).None?;
      }
    }
  }

  /** The scan from `i` fails exactly when no position from `i` on matches. */
  lemma {:induction false} ScanFailsOnlyWithoutMatch(raw: string, key: string, i: nat)
    requires i <= |raw|
    ensures Scan(raw, key, i).None? <==> forall m :: i <= m <= |raw| ==> MatchAt(raw, key, m).None?
    decreases |raw| - i
  {
    if MatchAt(raw, key, i).None? && i < |raw| {
      ScanFailsOnlyWithoutMatch(raw, key, i + 1);
    }
  }

  /** The two `preg_match` calls of lines 49-50: both must match. */
  function RegexPair(raw: string): Option<(string, string)>
  {
    match Scan(raw, "title", 0)
    case None => None
    case Some(t) =>
      match Scan(raw, "content", 0)
      case None => None
      case Some(c) => Some((t, c))
  }

  /** A capture is never empty and never holds a quote. */
  lemma {:induction false} ScanCapture(raw: string, key: string, i: nat)
    requires i <= |raw|
    ensures Scan(raw, key, i).Some? ==> |Scan(raw, key, i).value| > 0 && QuoteFree(Scan(raw, key, i).value)
    decreases |raw| - i
  {
    if MatchAt(raw, key, i).Some? {
      var v := MatchAt(raw, key, i).value;
      MatchAtIsRegexMatch(raw, key, i, v);
    } else if i < |raw| {
      ScanCapture(raw, key, i + 1);
    }
  }

  /** The pair is found iff both expressions match; the parts are their
      captures, non-empty and free of quotes. */
  lemma RegexPairNeedsBoth(raw: string)
    ensures RegexPair(raw).Some? <==> Scan(raw, "title", 0).Some? && Scan(raw, "content", 0).Some?
    ensures RegexPair(raw).Some? ==>
      RegexPair(raw).value == (Scan(raw, "title", 0).value, Scan(raw, "content", 0).value)
      && |RegexPair(raw).value.0| > 0 && QuoteFree(RegexPair(raw).value.0)
      && |RegexPair(raw).value.1| > 0 && QuoteFree(RegexPair(raw).value.1)
  {
    ScanCapture(raw, "title", 0);
    ScanCapture(raw, "content", 0);
  }

  /** When nothing matches in `[i, n)`, the scan from `i` is the scan from `n`. */
  lemma {:induction false} ScanFrom(raw: string, key: string, i: nat, n: nat)
    requires i <= n <= |raw|
    requires forall m :: i <= m < n ==> MatchAt(raw, key, m).None?
    ensures Scan(raw, key, i) == Scan(raw, key, n)
    decreases n - i
  {
    if i < n {
      ScanFrom(raw, key, i + 1, n);
    }
  }

  // ---------------------------------------------------------------- JSON string escapes

  /** The character the JSON escape `\c` stands for; `\u` escapes are not read. */
  function Unescaped(c: char): Option<char>
  {
    if c == '"' || c == '\\' || c == '/' then Some(c)
    else if c == 'n' then Some('\n')
    else if c == 'r' then Some('\r')
    else if c == 't' then Some('\t')
    else if c == 'b' then Some(8 as char)
    else if c == 'f' then Some(12 as char)
    else None
  }

  /** How an encoder writes `c` inside a JSON string. */
  function EscapeChar(c: char): string
  {
    if c == '"' then ['\\', '"']
    else if c == '\\' then ['\\', '\\']
    else if c == '\n' then ['\\', 'n']
    else if c == '\r' then ['\\', 'r']
    else if c == '\t' then ['\\', 't']
    else if c == 8 as char then ['\\', 'b']
    else if c == 12 as char then ['\\', 'f']
    else [c]
  }

  /** The body of the JSON string literal that holds `s`. */
  function Escape(s: string): string
  {
    if s == [] then [] else EscapeChar(s[0]) + Escape(s[1..])
  }

  /** Reads the body of a JSON string literal up to its closing quote: the
      value, and how many characters the body takes. */
  function ReadString(t: string): Option<(string, nat)>
  {
    if t == [] then None
    else if t[0] == '"' then Some(([], 0))
    else if t[0] == '\\' then
      if |t| >= 2 && Unescaped(t[1]).Some? then
        match ReadString(t[2..])
        case Some((v, n)) => Some(([Unescaped(t[1]).value] + v, n + 2))
        case None => None
      else None
    else
      match ReadString(t[1..])
      case Some((v, n)) => Some(([t[0]] + v, n + 1))
      case None => None
  }

  /** Reading an escaped value back gives the value, whatever follows. */
  lemma {:induction false} ReadEscaped(s: string, rest: string)
    ensures ReadString(Escape(s) + "\"" + rest) == Some((s, |Escape(s)|))
  {
    if s != [] {
      var tail := Escape(s[1..]) + "\"" + rest;
      assert Escape(s) + "\"" + rest == EscapeChar(s[0]) + tail;
      ReadEscaped(s[1..], rest);
      ReadEscapedChar(s[0], tail, s[1..], |Escape(s[1..])|);
      assert [s[0]] + s[1..] == s;
    }
  }

  /** One escaped character in front of a body is read back as itself. */
  lemma ReadEscapedChar(c: char, tail: string, v: string, n: nat)
    requires ReadString(tail) == Some((v, n))
    ensures ReadString(EscapeChar(c) + tail) == Some(([c] + v, |EscapeChar(c)| + n))
  {
    var e := EscapeChar(c);
    var t := e + tail;
    if |e| == 2 {
      assert t[0] == '\\' && t[1] == e[1] && Unescaped(e[1]) == Some(c);
      assert t[2..] == tail;
    } else {
      assert t[0] == c && c != '"' && c != '\\';
      assert t[1..] == tail;
    }
  }

  /** Text with neither quote nor backslash is read as it stands. */
  lemma {:induction false} ReadPlain(v: string, rest: string)
    requires QuoteFree(v) && '\\' !in v
    ensures ReadString(v + "\"" + rest) == Some((v, |v|))
  {
    if v != [] {
      assert (v + "\"" + rest)[0] == v[0] && (v + "\"" + rest)[1..] == v[1..] + "\"" + rest;
      assert v[0] != '"' && v[0] != '\\';
      assert forall k :: 0 <= k < |v[1..]| ==> v[1..][k] == v[k + 1];
      assert QuoteFree(v[1..]) && '\\' !in v[1..];
      ReadPlain(v[1..], rest);
      assert [v[0]] + v[1..] == v;
    }
  }

  /** The match at `i` with the string's escapes decoded: the value of the
      JSON string literal that follows the opening, when it is not empty. */
  function DecodedMatchAt(raw: string, key: string, i: nat): Option<string>
    requires i <= |raw|
  {
    var p := Opening(key);
    if !OccursAt(p, raw, i) then None
    else
      var j := SkipSpace(raw, i + |p|);
      if j < |raw| && raw[j] == '"' then
        match ReadString(raw[j + 1..])
        case Some((v, _)) => if v != [] then Some(v) else None
        case None => None
      else None
  }

  /** The leftmost decoded match from `i`. */
  function DecodedScan(raw: string, key: string, i: nat): Option<string>
    requires i <= |raw|
    decreases |raw| - i
  {
    if DecodedMatchAt(raw, key, i).Some? then DecodedMatchAt(raw, key, i)
    else if i == |raw| then None
    else DecodedScan(raw, key, i + 1)
  }

  /** Both values, decoded. */
  function DecodedPair(raw: string): Option<(string, string)>
  {
    match DecodedScan(raw, "title", 0)
    case None => None
    case Some(t) =>
      match DecodedScan(raw, "content", 0)
      case None => None
      case Some(c) => Some((t, c))
  }

  /** After the opening and whitespace comes the quote that opens the value. */
  lemma OpeningThen(key: string, w: string, t: string)
    requires AllSpace(w)
    ensures var raw := Opening(key) + w + "\"" + t;
      var j := |Opening(key)| + |w|;
      OccursAt(Opening(key), raw, 0) && SkipSpace(raw, |Opening(key)|) == j
      && j < |raw| && raw[j] == '"' && raw[j + 1..] == t
  {
    var p := Opening(key);
    var raw := p + w + "\"" + t;
    var j := |p| + |w|;
    assert raw[..|p|] == p;
    forall k | |p| <= k < j ensures RegexSpace(raw[k]) {
      assert raw[k] == w[k - |p|];
    }
    assert raw[j] == '"';
    assert raw[j + 1..] == t;
  }

  /** The regular expression stops at the first quote, escaped or not, and
      keeps the backslash of an escape: the title `a"b`, sent as `a\"b`, is
      read as `a\`. */
  lemma RegexKeepsEscapes(key: string, a: string, b: string, rest: string)
    requires |a| > 0 && QuoteFree(a) && QuoteFree(b)
    ensures var raw := Opening(key) + "\"" + (a + ['\\', '"'] + b + "\"" + rest);
      Scan(raw, key, 0) == Some(a + ['\\'])
      && ('\\' !in a + b ==> DecodedScan(raw, key, 0) == Some(a + "\"" + b))
  {
    var t := a + ['\\', '"'] + b + "\"" + rest;
    var raw := Opening(key) + "\"" + t;
    var v := a + ['\\'];
    var m := Opening(key) + "" + "\"" + v + "\"";
    assert m == raw[..|m|];
    assert MatchesWith(raw, key, 0, "", v);
    MatchesWithPins(raw, key, 0, "", v);
    if '\\' !in a + b {
      OpeningThen(key, "", t);
      assert Opening(key) + "" + "\"" + t == raw;
      ReadEscapedPair(a, b, rest);
    }
  }

  /** `a\"b"` reads as `a"b` when `a` and `b` hold nothing to unescape. */
  lemma ReadEscapedPair(a: string, b: string, rest: string)
    requires QuoteFree(a) && QuoteFree(b) && '\\' !in a + b
    ensures ReadString(a + ['\\', '"'] + b + "\"" + rest) == Some((a + "\"" + b, |a| + 2 + |b|))
  {
    NotInParts('\\', a, b);
    var tail := b + "\"" + rest;
    ReadPlain(b, rest);
    ReadEscapedChar('"', tail, b, |b|);
    var u := ['\\', '"'] + tail;
    assert EscapeChar('"') == ['\\', '"'];
    assert ReadString(u) == Some((['"'] + b, 2 + |b|));
    ReadThrough(a, u);
    assert ReadString(a + u) == Some((a + (['"'] + b), |a| + (2 + |b|)));
    assert a + ['\\', '"'] + b + "\"" + rest == a + u;
    assert a + (['"'] + b) == a + "\"" + b;
  }

  /** What is in neither part is in neither of them alone. */
  lemma NotInParts(c: char, a: string, b: string)
    requires c !in a + b
    ensures c !in a && c !in b
  {
    assert forall k :: 0 <= k < |a| ==> (a + b)[k] == a[k];
    assert forall k :: 0 <= k < |b| ==> (a + b)[|a| + k] == b[k];
  }

  /** Plain text in front of a body is read as it stands. */
  lemma {:induction false} ReadThrough(a: string, u: string)
    requires QuoteFree(a) && '\\' !in a
    ensures ReadString(a + u) == match ReadString(u)
      case Some((v, n)) => Some((a + v, |a| + n))
      case None => None
  {
    if a != [] {
      assert (a + u)[0] == a[0] && (a + u)[1..] == a[1..] + u;
      assert a[0] != '"' && a[0] != '\\';
      assert forall k :: 0 <= k < |a[1..]| ==> a[1..][k] == a[k + 1];
      assert QuoteFree(a[1..]) && '\\' !in a[1..];
      ReadThrough(a[1..], u);
      assert ReadString(a + u) == match ReadString(a[1..] + u)
        case Some((v, n)) => Some(([a[0]] + v, n + 1))
        case None => None;
      match ReadString(u) {
        case Some((v, n)) =>
          assert ReadString(a[1..] + u) == Some((a[1..] + v, |a[1..]| + n));
          assert [a[0]] + (a[1..] + v) == a + v;
        case None =>
      }
    } else {
      assert a + u == u;
      if ReadString(u).Some? {
        assert a + ReadString(u).value.0 == ReadString(u).value.0;
      }
    }
  }

  /** The decoded scan reads back any non-empty value an encoder wrote, with
      any whitespace after the colon. */
  lemma DecodedScanReadsValue(key: string, w: string, s: string, rest: string)
    requires AllSpace(w) && s != []
    ensures DecodedScan(Opening(key) + w + "\"" + (Escape(s) + "\"" + rest), key, 0) == Some(s)
  {
    var t := Escape(s) + "\"" + rest;
    var raw := Opening(key) + w + "\"" + t;
    OpeningThen(key, w, t);
    ReadEscaped(s, rest);
    var j := |Opening(key)| + |w|;
    assert raw[j + 1..] == t;
    assert ReadString(raw[j + 1..]) == Some((s, |Escape(s)|));
    assert DecodedMatchAt(raw, key, 0) == Some(s);
  }

  /** Where the capture holds no backslash, the decoded match is the capture. */
  lemma DecodedAgreesWithoutEscapes(raw: string, key: string, i: nat)
    requires i <= |raw|
    requires MatchAt(raw, key, i).Some? && '\\' !in MatchAt(raw, key, i).value
    ensures DecodedMatchAt(raw, key, i) == MatchAt(raw, key, i)
  {
    var p := Opening(key);
    var j := SkipSpace(raw, i + |p|);
    var k := QuoteFreeEnd(raw, j + 1);
    var v := raw[j + 1..k];
    assert raw[j + 1..] == v + "\"" + raw[k + 1..];
    ReadPlain(v, raw[k + 1..]);
  }

  // ---------------------------------------------------------------- findTitleAndContent (lines 62-81)

  /** A node that `findTitleAndContent` stops at: an array with `title` and
      `content` both set. */
  predicate IsDocNode(n: Json)
  {
    IsSet(At(n, "title")) && IsSet(At(n, "content"))
  }

  /** The by-reference `$title` and `$content` of the script. */
  class Extraction {
    var title: Json
    var content: Json

    /** Lines 45-46: both start as null. */
    constructor ()
      ensures title == Null && content == Null
    {
      title := Null;
      content := Null;
    }

    /** `findTitleAndContent($data, $title, $content)`: takes both values from
        the first node, in document order, that has them, and leaves them
        alone when there is none. */
    method FindTitleAndContent(data: Json) returns (found: bool)
      modifies this
      ensures found == FirstMatch(data, IsDocNode).Some?
      ensures found ==> title == At(FirstMatch(data, IsDocNode).value, "title")
                        && content == At(FirstMatch(data, IsDocNode).value, "content")
      ensures !found ==> title == old(title) && content == old(content)
      decreases data
    {
      if !IsArray(data) {
        return false;
      }
      if IsSet(At(data, "title")) && IsSet(At(data, "content")) {
        title := At(data, "title");
        content := At(data, "content");
        return true;
      }
      var i := 0;
      while i < Width(data)
        invariant i <= Width(data)
        invariant FirstMatch(data, IsDocNode) == FirstMatchFrom(data, IsDocNode, i)
        invariant title == old(title) && content == old(content)
      {
        var value := Child(data, i);
        if IsArray(value) {
          var f := FindTitleAndContent(value);
          if f {
            return true;
          }
        }
        i := i + 1;
      }
      return false;
    }
  }

  // ---------------------------------------------------------------- the values used (lines 45-95)

  const DefaultTitlePrefix := "Document test créé le "
  const DefaultContent := "Ceci est un document test créé automatiquement pour vérifier l'intégration entre Vapi.ai et Google Docs."

  /** Lines 90-95: the defaults; `now` is `date('Y-m-d H:i:s')`. */
  function Defaults(now: string): (Json, Json)
  {
    (Str(DefaultTitlePrefix + now), Str(DefaultContent))
  }

  /** Lines 45-53: the two captures, or two nulls. `pair` is `RegexPair(raw)`
      for the script as written. */
  function FromCaptures(pair: Option<(string, string)>): (Json, Json)
  {
    match pair
    case Some((t, c)) => (Str(t), Str(c))
    case None => (Null, Null)
  }

  /** Lines 60-87: the first node that has both, if the values so far are not
      both truthy. */
  function FromTree(data: Json, before: (Json, Json)): (Json, Json)
  {
    if Truthy(before.0) && Truthy(before.1) then before
    else match FirstMatch(data, IsDocNode)
      case Some(n) => (At(n, "title"), At(n, "content"))
      case None => before
  }

  /** The title and content the document is created with, from the captures
      `pair` and the decoded body `data`. */
  function Chosen(pair: Option<(string, string)>, data: Json, now: string): (Json, Json)
  {
    var v := FromTree(data, FromCaptures(pair));
    if Truthy(v.0) && Truthy(v.1) then v else Defaults(now)
  }

  /** The document always gets a truthy title and content. */
  lemma ChosenAreTruthy(pair: Option<(string, string)>, data: Json, now: string)
    ensures Truthy(Chosen(pair, data, now).0) && Truthy(Chosen(pair, data, now).1)
  {
    assert |DefaultTitlePrefix + now| > 1;
    assert |DefaultContent| > 1;
  }

  /** Two truthy captures win over anything in the decoded body; a capture
      `'0'` does not count. */
  lemma CapturesTakePrecedence(pair: Option<(string, string)>, data: Json, now: string, t: string, c: string)
    requires pair == Some((t, c))
    requires Truthy(Str(t)) && Truthy(Str(c))
    ensures Chosen(pair, data, now) == (Str(t), Str(c))
  {
  }

  /** Otherwise the first node in document order with both keys set decides:
      its values are used when both are truthy, and the defaults when either
      is falsy, even if a later node holds usable values. */
  lemma FallbackIsFirstDocNode(pair: Option<(string, string)>, data: Json, now: string, n: Json)
    requires !(Truthy(FromCaptures(pair).0) && Truthy(FromCaptures(pair).1))
    requires FirstIn(Nodes(data), IsDocNode) == Some(n)
    ensures n in Nodes(data) && IsDocNode(n)
    ensures Truthy(At(n, "title")) && Truthy(At(n, "content")) ==>
      Chosen(pair, data, now) == (At(n, "title"), At(n, "content"))
    ensures !(Truthy(At(n, "title")) && Truthy(At(n, "content"))) ==> Chosen(pair, data, now) == Defaults(now)
  {
    FirstMatchIsFirstNode(data, IsDocNode);
    FirstInFound(Nodes(data), IsDocNode);
  }

  /** With no usable capture and no node holding both keys, the defaults are used. */
  lemma DefaultsWhenNothingFound(pair: Option<(string, string)>, data: Json, now: string)
    requires !(Truthy(FromCaptures(pair).0) && Truthy(FromCaptures(pair).1))
    requires forall n :: n in Nodes(data) ==> !IsDocNode(n)
    ensures Chosen(pair, data, now) == Defaults(now)
  {
    FirstMatchIsFirstNode(data, IsDocNode);
    FirstInFound(Nodes(data), IsDocNode);
    var v := FromCaptures(pair);
    if pair.Some? {
      assert !Truthy(v.0) || !Truthy(v.1);
    }
  }

  // ---------------------------------------------------------------- the reply (lines 97-188)

  const UrlPrefix := "https://docs.google.com/document/d/"
  const UrlSuffix := "/edit"
  const DocumentCreated := "Document créé avec succès"
  const ErrorPrefix := "Erreur: "

  /** Line 165. */
  function DocumentUrl(id: string): string
  {
    UrlPrefix + id + UrlSuffix
  }

  /** The document id a URL of that form carries. */
  function IdOfUrl(url: string): Option<string>
  {
    if |url| >= |UrlPrefix| + |UrlSuffix| && url[..|UrlPrefix|] == UrlPrefix && url[|url| - |UrlSuffix|..] == UrlSuffix
    then Some(url[|UrlPrefix|..|url| - |UrlSuffix|])
    else None
  }

  /** The URL gives back its id, and every URL of the form comes from its id. */
  lemma DocumentUrlRoundTrip(id: string, url: string)
    ensures IdOfUrl(DocumentUrl(id)) == Some(id)
    ensures IdOfUrl(url) == Some(id) ==> DocumentUrl(id) == url
  {
    var u := DocumentUrl(id);
    assert u[..|UrlPrefix|] == UrlPrefix;
    assert u[|u| - |UrlSuffix|..] == UrlSuffix;
    assert u[|UrlPrefix|..|u| - |UrlSuffix|] == id;
    if IdOfUrl(url) == Some(id) {
      assert url == url[..|UrlPrefix|] + url[|UrlPrefix|..|url| - |UrlSuffix|] + url[|url| - |UrlSuffix|..];
    }
  }

  /** `substr($s, 0, $n)`. */
  function Prefix(s: string, n: nat): (r: string)
    ensures |r| == if |s| <= n then |s| else n
    ensures r == s[..|r|]
  {
    if |s| <= n then s else s[..n]
  }

  function SuccessReply(id: string, title: Json, content: Json): Json
  {
    Obj([("success", Bool(true)), ("message", Str(DocumentCreated)), ("documentId", Str(id)),
         ("documentUrl", Str(DocumentUrl(id))),
         ("debug_info", Obj([("title_used", title), ("content_used", content)]))])
  }

  function FailureReply(message: string, raw: string, title: Json, content: Json): Json
  {
    Obj([("success", Bool(false)), ("message", Str(ErrorPrefix + message)),
         ("debug_info", Obj([("raw_data", Str(Prefix(raw, 1000))), ("title_extracted", title),
                             ("content_extracted", content)]))])
  }

  /** Lines 196-205: where `getClient` takes its credentials from. */
  datatype Credentials = FromEnvironment(config: Json) | FromKeyFile(path: string)

  const KeyFile := "tina-gdocs-service.json"

  function CredentialsOf(env: Option<string>, decode: string -> Json): (c: Credentials)
    ensures c.FromKeyFile? <==> !Truthy(Str(env.GetOr("")))
  {
    if Truthy(Str(env.GetOr(""))) then FromEnvironment(decode(env.value)) else FromKeyFile(KeyFile)
  }

  /** The Google calls in the `try` block, each of which may throw: the
      client's configuration, `documents->create` (the new id) and
      `documents->batchUpdate`. */
  datatype Docs = Docs(
    configure: Credentials -> Result<()>,
    create: Json -> Result<string>,
    insert: (string, Json) -> Result<()>)

  /** The reply for the chosen title and content. */
  function Reply(raw: string, title: Json, content: Json, env: Option<string>, decode: string -> Json, docs: Docs): Json
  {
    match docs.configure(CredentialsOf(env, decode))
    case Err(m) => FailureReply(m, raw, title, content)
    case Ok(_) =>
      match docs.create(title)
      case Err(m) => FailureReply(m, raw, title, content)
      case Ok(id) =>
        match docs.insert(id, content)
        case Err(m) => FailureReply(m, raw, title, content)
        case Ok(_) => SuccessReply(id, title, content)
  }

  /** A success names the document and a URL that gives the id back. */
  lemma SuccessFields(id: string, title: Json, content: Json)
    ensures At(SuccessReply(id, title, content), "success") == Bool(true)
    ensures At(SuccessReply(id, title, content), "documentId") == Str(id)
    ensures At(SuccessReply(id, title, content), "documentUrl") == Str(DocumentUrl(id))
    ensures IdOfUrl(DocumentUrl(id)) == Some(id)
  {
    DocumentUrlRoundTrip(id, DocumentUrl(id));
    assert "success" != "message" by { assert "success"[0] != "message"[0]; }
    assert "documentId" != "debug_info" by { assert "documentId"[1] != "debug_info"[1]; }
    var sf := SuccessReply(id, title, content).fields;
    assert DistinctKeys(sf);
    LookupDistinct(sf, "success");
    LookupDistinct(sf, "documentId");
    LookupDistinct(sf, "documentUrl");
    assert sf[2].0 == "documentId" && sf[3].0 == "documentUrl";
  }

  /** A failure carries the error and the first 1000 characters of the body
      at most. */
  lemma FailureFields(message: string, raw: string, title: Json, content: Json)
    ensures At(FailureReply(message, raw, title, content), "success") == Bool(false)
    ensures At(FailureReply(message, raw, title, content), "message") == Str(ErrorPrefix + message)
    ensures var d := At(At(FailureReply(message, raw, title, content), "debug_info"), "raw_data");
      d.Str? && |d.s| <= 1000 && |d.s| <= |raw| && d.s == raw[..|d.s|] && (|raw| <= 1000 ==> d.s == raw)
  {
    assert "success" != "message" by { assert "success"[0] != "message"[0]; }
    var ff := FailureReply(message, raw, title, content).fields;
    assert DistinctKeys(ff);
    LookupDistinct(ff, "success");
    LookupDistinct(ff, "message");
    LookupDistinct(ff, "debug_info");
    var df := ff[2].1.fields;
    assert DistinctKeys(df);
    LookupDistinct(df, "raw_data");
  }

  /** The client is configured from the decoded environment variable when it
      is set and not PHP-empty, and from the key file otherwise. The reply is
      the success only when every Google call goes through, and otherwise
      reports the first call that threw. */
  lemma ReplyOutcome(raw: string, title: Json, content: Json, env: Option<string>, decode: string -> Json, docs: Docs)
    ensures var r := Reply(raw, title, content, env, decode, docs);
      var c := docs.configure(CredentialsOf(env, decode));
      (Truthy(Str(env.GetOr(""))) ==> c == docs.configure(FromEnvironment(decode(env.value))))
      && (!Truthy(Str(env.GetOr(""))) ==> c == docs.configure(FromKeyFile(KeyFile)))
      && (At(r, "success") == Bool(true) <==>
        c.Ok? && docs.create(title).Ok? && docs.insert(docs.create(title).value, content).Ok?)
      && (c.Err? ==> r == FailureReply(c.message, raw, title, content))
      && (c.Ok? && docs.create(title).Err? ==> r == FailureReply(docs.create(title).message, raw, title, content))
      && (c.Ok? && docs.create(title).Ok? && docs.insert(docs.create(title).value, content).Err? ==>
            r == FailureReply(docs.insert(docs.create(title).value, content).message, raw, title, content))
  {
    var c := docs.configure(CredentialsOf(env, decode));
    if c.Err? {
      FailureFields(c.message, raw, title, content);
    } else if docs.create(title).Err? {
      FailureFields(docs.create(title).message, raw, title, content);
    } else {
      var id := docs.create(title).value;
      if docs.insert(id, content).Err? {
        FailureFields(docs.insert(id, content).message, raw, title, content);
      } else {
        SuccessFields(id, title, content);
      }
    }
  }

  // ---------------------------------------------------------------- class loading (lines 97-99, 174, 191-192)

  /** How the script ends: its JSON reply written, or killed by an uncaught
      `Error` before any reply. */
  datatype Ending = Replied(reply: Json) | Died(error: string)

  const ClientClass := "Google_Client"

  /** PHP's message for a class that no autoloader defines. */
  function ClassNotFound(name: string): string
  {
    "Class \"" + name + "\" not found"
  }

  /** Lines 97-188 once the title and content are chosen. `loaded` says
      whether the Google client classes are defined. Without them
      `new Google_Client()` (line 192, reached from line 99) throws an
      `Error`, which `catch (Exception $e)` (line 174) does not catch. */
  function Finish(loaded: bool, raw: string, title: Json, content: Json, env: Option<string>,
                  decode: string -> Json, docs: Docs): Ending
  {
    if loaded then Replied(Reply(raw, title, content, env, decode, docs)) else Died(ClassNotFound(ClientClass))
  }

  /** The file requires no autoloader, so every request that gets past the
      extraction dies at `new Google_Client()`, whatever the Google calls
      would have answered; with the classes loaded it writes the reply. */
  lemma MissingAutoloaderKillsEveryRequest(raw: string, title: Json, content: Json, env: Option<string>,
                                           decode: string -> Json, docs: Docs, other: Docs)
    ensures Finish(false, raw, title, content, env, decode, docs) == Died(ClassNotFound(ClientClass))
    ensures Finish(false, raw, title, content, env, decode, docs) == Finish(false, raw, title, content, env, decode, other)
    ensures Finish(true, raw, title, content, env, decode, docs) == Replied(Reply(raw, title, content, env, decode, docs))
  {
  }

  /** Lines 44-188 once the scan has produced `pair`: the fallback search,
      the defaults, then the document. */
  method CreateFrom(loaded: bool, pair: Option<(string, string)>, raw: string, decode: string -> Json, now: string,
                    env: Option<string>, docs: Docs)
    returns (ending: Ending)
    ensures var v := Chosen(pair, decode(raw), now);
      ending == Finish(loaded, raw, v.0, v.1, env, decode, docs)
  {
    var requestData := decode(raw);
    var e := new Extraction();
    match pair {
      case Some((t, c)) =>
        e.title := Str(t);
        e.content := Str(c);
      case None =>
    }
    if !Truthy(e.title) || !Truthy(e.content) {
      var _ := e.FindTitleAndContent(requestData);
    }
    if !Truthy(e.title) || !Truthy(e.content) {
      e.title := Str(DefaultTitlePrefix + now);
      e.content := Str(DefaultContent);
    }
    if !loaded {
      return Died(ClassNotFound(ClientClass));
    }
    ending := Replied(Reply(raw, e.title, e.content, env, decode, docs));
  }

  /** The endpoint as the file is written, with the regex of lines 49-53
      and no autoloader: it never writes a reply. */
  method CreateDocumentAsWritten(raw: string, decode: string -> Json, now: string, env: Option<string>, docs: Docs)
    returns (ending: Ending)
    ensures ending == Died(ClassNotFound(ClientClass))
  {
    ending := CreateFrom(false, RegexPair(raw), raw, decode, now, env, docs);
  }

  /** The endpoint on the raw body `raw` once the Google client classes are
      loaded (the autoloader required as the other endpoints do), with the
      regex of lines 49-53; `now` is the formatted date. */
  method CreateDocument(raw: string, decode: string -> Json, now: string, env: Option<string>, docs: Docs)
    returns (reply: Json)
    ensures var v := Chosen(RegexPair(raw), decode(raw), now);
      reply == Reply(raw, v.0, v.1, env, decode, docs)
  {
    var ending := CreateFrom(true, RegexPair(raw), raw, decode, now, env, docs);
    reply := ending.reply;
  }

  /** The endpoint with the classes loaded and the scan reading the JSON
      string values instead. */
  method CreateDocumentCorrected(raw: string, decode: string -> Json, now: string, env: Option<string>, docs: Docs)
    returns (reply: Json)
    ensures var v := Chosen(DecodedPair(raw), decode(raw), now);
      reply == Reply(raw, v.0, v.1, env, decode, docs)
  {
    var ending := CreateFrom(true, DecodedPair(raw), raw, decode, now, env, docs);
    reply := ending.reply;
  }
}
