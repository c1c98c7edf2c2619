/** db_config.php: the `oauth_tokens` table that holds the OAuth tokens, one
    row per `token_type`, and the database name derived from the Heroku URL. */
module DbConfig {
  import opened Php
  import opened Json

  /** A row of `oauth_tokens`: the type and the JSON text of the token. */
  datatype Row = Row(tokenType: string, tokenData: string)

  predicate UniqueTypes(rows: seq<Row>)
  {
    forall i, j :: 0 <= i < j < |rows| ==> rows[i].tokenType != rows[j].tokenType
  }

  /** `SELECT ... WHERE token_type = :t` then `fetch`: the first row of that type. */
  function FindRow(rows: seq<Row>, t: string): (r: Option<string>)
    ensures r.None? <==> forall i :: 0 <= i < |rows| ==> rows[i].tokenType != t
    ensures r.Some? ==> exists i :: 0 <= i < |rows| && rows[i] == Row(t, r.value)
  {
    if rows == [] then None
    else if rows[0].tokenType == t then Some(rows[0].tokenData)
    else
      var r := FindRow(rows[1..], t);
      assert forall i :: 1 <= i < |rows| ==> rows[i] == rows[1..][i - 1];
      r
  }

  /** `UPDATE ... SET token_data = :d WHERE token_type = :t`: every row of that type. */
  function UpdateAll(rows: seq<Row>, t: string, d: string): seq<Row>
  {
    seq(|rows|, i requires 0 <= i < |rows| => if rows[i].tokenType == t then Row(t, d) else rows[i])
  }

  /** What `saveTokenToDb` does to the table: update when a row of the type
      exists, insert otherwise. */
  function Upsert(rows: seq<Row>, t: string, d: string): seq<Row>
  {
    if FindRow(rows, t).Some? then UpdateAll(rows, t, d) else rows + [Row(t, d)]
  }

  /** `getTokenFromDb`: null without a connection, when the query fails, or
      when no row has the type; otherwise the decoded token. */
  function StoredToken(available: bool, rows: seq<Row>, t: string, decode: string -> Json): Json
  {
    if !available then Null
    else match FindRow(rows, t)
      case Some(d) => decode(d)
      case None => Null
  }

  /** Saving keeps at most one row per type. */
  lemma UpsertKeepsTypesUnique(rows: seq<Row>, t: string, d: string)
    requires UniqueTypes(rows)
    ensures UniqueTypes(Upsert(rows, t, d))
  {
    var r := Upsert(rows, t, d);
    if FindRow(rows, t).None? {
      forall i, j | 0 <= i < j < |r| ensures r[i].tokenType != r[j].tokenType {
        if j == |rows| {
          assert r[i] == rows[i];
        } else {
          assert r[i] == rows[i] && r[j] == rows[j];
        }
      }
    }
  }

  /** After saving, the type's row holds the new data. */
  lemma {:induction false} UpsertThenFind(rows: seq<Row>, t: string, d: string)
    ensures FindRow(Upsert(rows, t, d), t) == Some(d)
  {
    var r := Upsert(rows, t, d);
    if FindRow(rows, t).Some? {
      var i :| 0 <= i < |rows| && rows[i] == Row(t, FindRow(rows, t).value);
      assert r[i] == Row(t, d);
      FirstRowOfType(r, t, d);
    } else {
      assert r[|rows|] == Row(t, d);
      FirstRowOfType(r, t, d);
    }
  }

  /** When every row of type `t` holds `d`, the lookup returns `d`. */
  lemma {:induction false} FirstRowOfType(rows: seq<Row>, t: string, d: string)
    requires exists i :: 0 <= i < |rows| && rows[i].tokenType == t
    requires forall i :: 0 <= i < |rows| && rows[i].tokenType == t ==> rows[i].tokenData == d
    ensures FindRow(rows, t) == Some(d)
  {
    if rows[0].tokenType != t {
      var i :| 0 <= i < |rows| && rows[i].tokenType == t;
      assert rows[1..][i - 1].tokenType == t;
      FirstRowOfType(rows[1..], t, d);
    }
  }

  /** Saving touches no row of another type: those rows stay where they were
      with the same data, and every other type reads as before. */
  lemma {:induction false} UpsertLeavesOthers(rows: seq<Row>, t: string, d: string, t': string)
    requires t' != t
    ensures forall i :: 0 <= i < |rows| && rows[i].tokenType != t ==> Upsert(rows, t, d)[i] == rows[i]
    ensures FindRow(Upsert(rows, t, d), t') == FindRow(rows, t')
  {
    var r := Upsert(rows, t, d);
    OtherTypeUnchanged(rows, r, t, t');
  }

  lemma {:induction false} OtherTypeUnchanged(rows: seq<Row>, r: seq<Row>, t: string, t': string)
    requires t' != t
    requires |rows| <= |r|
    requires forall i :: 0 <= i < |rows| && rows[i].tokenType != t ==> r[i] == rows[i]
    requires forall i :: 0 <= i < |rows| && rows[i].tokenType == t ==> r[i].tokenType == t
    requires forall i :: |rows| <= i < |r| ==> r[i].tokenType == t
    ensures FindRow(r, t') == FindRow(rows, t')
    decreases |rows|, |r|
  {
    if rows == [] {
      if r != [] {
        assert r[0].tokenType == t;
        assert forall i :: 0 <= i < |r[1..]| ==> r[1..][i] == r[i + 1];
        OtherTypeUnchanged(rows, r[1..], t, t');
      }
    } else if rows[0].tokenType == t' {
      assert r[0] == rows[0];
    } else {
      assert r[0].tokenType != t';
      assert forall i :: 0 <= i < |rows[1..]| ==> rows[1..][i] == rows[i + 1] && r[1..][i] == r[i + 1];
      assert forall i :: |rows[1..]| <= i < |r[1..]| ==> r[1..][i] == r[i + 1];
      OtherTypeUnchanged(rows[1..], r[1..], t, t');
    }
  }

  /** The token is stored as its JSON text, so a save followed by a get gives
      back the token whenever decoding undoes encoding on it. */
  lemma SaveThenGet(rows: seq<Row>, t: string, token: Json, encode: Json -> string, decode: string -> Json)
    requires decode(encode(token)) == token
    ensures StoredToken(true, Upsert(rows, t, encode(token)), t, decode) == token
  {
    UpsertThenFind(rows, t, encode(token));
  }

  /** The table behind `getDbConnection()`; `connected` is false when PDO
      could not connect (the function then returns null). */
  class TokenStore {
    var connected: bool
    var rows: seq<Row>

    predicate Valid()
      reads this
    {
      UniqueTypes(rows)
    }

    constructor (connected: bool, rows: seq<Row>)
      requires UniqueTypes(rows)
      ensures Valid()
      ensures this.connected == connected && this.rows == rows
    {
      this.connected := connected;
      this.rows := rows;
    }

    /** `getTokenFromDb($t)` (lines 42-62); `fails` says the query throws. */
    method GetToken(t: string, decode: string -> Json, fails: bool) returns (token: Json)
      ensures token == StoredToken(connected && !fails, rows, t, decode)
    {
      if !connected {
        return Null;
      }
      if fails {
        return Null;
      }
      var found := FindRow(rows, t);
      if found.Some? {
        token := decode(found.value);
      } else {
        token := Null;
      }
    }

    /** `saveTokenToDb($t, $token)` (lines 65-99); `fails` says a statement
        throws, in which case nothing is written. */
    method SaveToken(t: string, token: Json, encode: Json -> string, fails: bool) returns (saved: bool)
      requires Valid()
      modifies this
      ensures Valid()
      ensures saved == (old(connected) && !fails)
      ensures connected == old(connected)
      ensures rows == if saved then Upsert(old(rows), t, encode(token)) else old(rows)
    {
      if !connected || fails {
        return false;
      }
      var data := encode(token);
      UpsertKeepsTypesUnique(rows, t, data);
      if FindRow(rows, t).Some? {
        rows := UpdateAll(rows, t, data);
      } else {
        rows := rows + [Row(t, data)];
      }
      return true;
    }
  }

  // ---------------------------------------------------------------- Heroku URL (line 23)

  /** `substr($url['path'], 1)`: the path without its first character, `''`
      for an empty path. */
  function DbName(path: string): (name: string)
    ensures |path| > 0 ==> [path[0]] + name == path
    ensures |path| == 0 ==> name == ""
  {
    if |path| == 0 then "" else path[1..]
  }

  /** The path `/tinatools` names the database `tinatools`. */
  lemma DbNameDropsSlash(name: string)
    ensures DbName("/" + name) == name
  {
  }
}
