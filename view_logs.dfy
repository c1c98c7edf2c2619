/** view_logs.php: the page that lists, shows and deletes the request logs
    kept in the `logs` directory. The directory is a map from entry name to
    entry; the request is the query string's `action` and `file`. */
module ViewLogs {
  import opened Php
  import opened Json

  /** An entry of the log directory: a regular file, or anything else
      (a sub-directory, `.`, `..`). */
  datatype Entry = Regular(content: string, size: nat, mtime: int) | Other

  /** One line of the listing: `['name' => ..., 'size' => ..., 'time' => ...]`. */
  datatype FileInfo = FileInfo(name: string, size: nat, time: int)

  /** A query-string value as PHP parses it: a string, or an array (from
      `name[]=...`) of `count` entries, whose values the script never reads. */
  datatype Param = Text(s: string) | Items(count: nat)

  /** `$_GET['action']` and `$_GET['file']` as sent, `None` when absent. */
  datatype Query = Query(action: Option<Param>, file: Option<Param>)

  /** `$_GET['action']` and `$_GET['file']` once read as strings, `None` when absent. */
  datatype Request = Request(action: Option<string>, file: Option<string>)

  /** The variables `$action`, `$file` and `$message` at one point of the script. */
  datatype Stage = Stage(action: string, file: string, message: string)

  /** What the page shows: the final variables, `$files` and `$file_content`. */
  datatype Page = Page(action: string, file: string, message: string, files: seq<FileInfo>, content: string)

  const InvalidName := "Nom de fichier invalide"
  const Deleted := "Fichier supprimé avec succès"
  const NotFound := "Fichier introuvable"
  const FilesDeleted := " fichiers supprimés"

  // ---------------------------------------------------------------- file-name whitelist (line 21)

  predicate NameChar(c: char)
  {
    ('a' <= c <= 'z') || ('A' <= c <= 'Z') || ('0' <= c <= '9') || c == '_' || c == '-' || c == '.'
  }

  predicate NameChars(s: string)
  {
    forall i :: 0 <= i < |s| ==> NameChar(s[i])
  }

  /** `preg_match('/^[a-zA-Z0-9_\-\.]+$/', $file)`. Without the `D` modifier
      PCRE's `$` also matches just before a final newline, so one trailing
      `"\n"` is let through. */
  predicate ValidName(f: string)
  {
    (|f| > 0 && NameChars(f)) || (|f| > 1 && f[|f| - 1] == '\n' && NameChars(f[..|f| - 1]))
  }

  /** An accepted name is made of the whitelisted characters, save at most a
      final newline; in particular it never holds a `/`, so it names an entry
      of the log directory itself (`.` and `..` pass too, and are then no
      regular file). A name without a final newline is accepted iff it is
      non-empty and whitelisted. */
  lemma ValidNameStaysInDirectory(f: string)
    ensures ValidName(f) ==> '/' !in f
    ensures ValidName(f) ==> forall i :: 0 <= i < |f| ==> NameChar(f[i]) || (i == |f| - 1 && f[i] == '\n')
    ensures |f| > 0 && f[|f| - 1] != '\n' ==> (ValidName(f) <==> NameChars(f))
  {
    if ValidName(f) && !NameChars(f) {
      forall i | 0 <= i < |f| - 1 ensures NameChar(f[i]) {
        assert f[..|f| - 1][i] == f[i];
      }
    }
  }

  /** A path with a separator is refused; a trailing newline is not. */
  lemma WhitelistExamples()
    ensures !ValidName("../db_config.php")
    ensures ValidName("vapi_request.log")
    ensures ValidName("vapi_request.log\n")
    ensures !ValidName("")
  {
    assert !NameChar("../db_config.php"[2]);
    var s := "vapi_request.log\n";
    assert s[..|s| - 1] == "vapi_request.log";
  }

  // ---------------------------------------------------------------- the directory

  /** The glob of every entry of the log directory (a `*` pattern) does not
      return names that start with a dot. */
  predicate Visible(name: string)
  {
    |name| > 0 && name[0] != '.'
  }

  /** `file_exists($p) && is_file($p)` for `$p = $log_dir . '/' . $name`. */
  predicate IsRegular(d: map<string, Entry>, name: string)
  {
    name in d && d[name].Regular?
  }

  /** The entries that the glob finds and `is_file` keeps. */
  function RegularNames(d: map<string, Entry>): set<string>
  {
    set n | n in d && Visible(n) && d[n].Regular?
  }

  /** The directory once the entries in `gone` are unlinked. */
  function Drop(d: map<string, Entry>, gone: set<string>): (r: map<string, Entry>)
    ensures forall n :: n in r <==> n in d && n !in gone
    ensures forall n :: n in r ==> r[n] == d[n]
  {
    map n | n in d && n !in gone :: d[n]
  }

  function Info(name: string, d: map<string, Entry>): FileInfo
    requires IsRegular(d, name)
  {
    FileInfo(name, d[name].size, d[name].mtime)
  }

  /** A line the listing may hold: a visible regular file with its size and time. */
  predicate IsListed(f: FileInfo, d: map<string, Entry>)
  {
    Visible(f.name) && IsRegular(d, f.name) && f == Info(f.name, d)
  }

  /** `files` lists exactly the visible regular files of `d`, each once. */
  ghost predicate Lists(files: seq<FileInfo>, d: map<string, Entry>)
  {
    (forall i :: 0 <= i < |files| ==> IsListed(files[i], d))
    && (forall f :: IsListed(f, d) ==> multiset(files)[f] == 1)
  }

  /** The order of `usort` with `$b['time'] - $a['time']`: newest first. */
  predicate NewestFirst(files: seq<FileInfo>)
  {
    forall i, j :: 0 <= i < j < |files| ==> files[i].time >= files[j].time
  }

  /** Reordering a listing keeps it a listing. */
  lemma ListsPermutation(a: seq<FileInfo>, b: seq<FileInfo>, d: map<string, Entry>)
    requires Lists(a, d)
    requires multiset(a) == multiset(b)
    ensures Lists(b, d)
  {
    forall i | 0 <= i < |b| ensures IsListed(b[i], d) {
      assert b[i] in multiset(b);
      var k :| 0 <= k < |a| && a[k] == b[i];
    }
  }

  /** One entry of the glob in `delete_all`: it joins the removed ones iff
      it is a regular file. */
  lemma RemovalStep(d: map<string, Entry>, done: set<string>, removed: set<string>, n: string)
    requires removed == RegularNames(d) * done
    requires n in d && Visible(n) && n !in done
    ensures n !in removed && n in Drop(d, removed) && Drop(d, removed)[n] == d[n]
    ensures d[n].Regular? ==> RegularNames(d) * (done + {n}) == removed + {n} && |removed + {n}| == |removed| + 1
    ensures !d[n].Regular? ==> RegularNames(d) * (done + {n}) == removed
  {
  }

  lemma DropOneMore(d: map<string, Entry>, gone: set<string>, n: string)
    requires n in d && n !in gone
    ensures Drop(d, gone) - {n} == Drop(d, gone + {n})
  {
  }

  /** The files gathered after the glob has visited the names in `done`:
      each visible regular file among them once, and nothing else. */
  ghost predicate Collected(files: seq<FileInfo>, done: set<string>, d: map<string, Entry>)
  {
    (forall i :: 0 <= i < |files| ==> IsListed(files[i], d) && files[i].name in done)
    && (forall f :: IsListed(f, d) ==> multiset(files)[f] == if f.name in done then 1 else 0)
  }

  /** Visiting one more name keeps the gathered files collected. */
  lemma CollectStep(files: seq<FileInfo>, done: set<string>, n: string, d: map<string, Entry>)
    requires Collected(files, done, d) && n in d && Visible(n) && n !in done
    ensures Collected(if d[n].Regular? then files + [Info(n, d)] else files, done + {n}, d)
  {
    if d[n].Regular? {
      var g := files + [Info(n, d)];
      assert multiset(g) == multiset(files) + multiset{Info(n, d)};
      forall f | IsListed(f, d)
        ensures multiset(g)[f] == if f.name in done + {n} then 1 else 0
      {
        if f.name == n {
          assert f == Info(n, d);
        }
      }
    }
  }

  /** Once every visible name is visited, the gathered files are a listing. */
  lemma CollectedAll(files: seq<FileInfo>, done: set<string>, d: map<string, Entry>)
    requires Collected(files, done, d) && forall n :: n in d && Visible(n) ==> n in done
    ensures Lists(files, d)
  {
    forall f | IsListed(f, d) ensures multiset(files)[f] == 1 {
      assert f.name in done;
    }
  }

  /** Lines 56-67: one entry per visible regular file. The loop takes the names
      in no fixed order; glob's alphabetical order is not modelled. */
  method GlobFiles(d: map<string, Entry>) returns (files: seq<FileInfo>)
    ensures Lists(files, d)
  {
    var todo := set n | n in d && Visible(n);
    ghost var done: set<string> := {};
    files := [];
    while todo != {}
      invariant forall n :: n in todo <==> n in d && Visible(n) && n !in done
      invariant Collected(files, done, d)
      decreases |todo|
    {
      var n :| n in todo;
      CollectStep(files, done, n, d);
      if d[n].Regular? {
        files := files + [Info(n, d)];
      }
      todo := todo - {n};
      done := done + {n};
    }
    CollectedAll(files, done, d);
  }

  /** A listing names every visible regular file, and nothing else. */
  lemma ListedNames(files: seq<FileInfo>, d: map<string, Entry>)
    requires Lists(files, d)
    ensures forall n :: n in RegularNames(d) <==> exists i :: 0 <= i < |files| && files[i].name == n
  {
    forall n | n in RegularNames(d) ensures exists i :: 0 <= i < |files| && files[i].name == n {
      assert IsListed(Info(n, d), d);
      assert Info(n, d) in multiset(files);
      var i :| 0 <= i < |files| && files[i] == Info(n, d);
    }
  }

  // ---------------------------------------------------------------- the query string (lines 16-21)

  /** Lines 16-21 on the query as sent. A non-empty array `file` is truthy,
      so it reaches `preg_match`, which throws PHP 8's `TypeError` on an
      array subject: `None`, the script dies. An empty array is falsy and
      acts as `''`. An array `action` is `===` to none of the actions the
      script tests, as `""` is not either. */
  function ReadQuery(q: Query): Option<Request>
  {
    match q.file
    case Some(Items(n)) =>
      if n > 0 then None else Some(Request(ActionText(q.action), Some("")))
    case Some(Text(f)) => Some(Request(ActionText(q.action), Some(f)))
    case None => Some(Request(ActionText(q.action), None))
  }

  function ActionText(a: Option<Param>): Option<string>
  {
    match a
    case Some(Text(t)) => Some(t)
    case Some(Items(_)) => Some("")
    case None => None
  }

  /** The script dies at line 21 exactly when `file` is a non-empty array;
      string parameters are read as they are. */
  lemma ArrayFileDies(q: Query)
    ensures ReadQuery(q).None? <==> q.file.Some? && q.file.value.Items? && q.file.value.count > 0
    ensures (q.file.None? || q.file.value.Text?) && (q.action.None? || q.action.value.Text?) ==>
      ReadQuery(q) == Some(Request(if q.action.Some? then Some(q.action.value.s) else None,
                                   if q.file.Some? then Some(q.file.value.s) else None))
  {
  }

  /** An array `action` does nothing: no file is deleted, nothing is listed
      or shown, unless the file name is rejected, which shows the empty
      list with its message. */
  lemma ArrayActionDoesNothing(d: map<string, Entry>, q: Query)
    requires q.action.Some? && q.action.value.Items? && ReadQuery(q).Some?
    ensures var o := Run(d, ReadQuery(q).value);
      o.dir == d && o.shown == o.listed && o.listed.action != "view"
      && (o.listed.action == "list" <==> o.listed.message == InvalidName)
  {
  }

  // ---------------------------------------------------------------- the script, step by step

  /** Lines 16-25: the defaults, then the whitelist. */
  function Validate(r: Request): (s: Stage)
    ensures Truthy(Str(s.file)) ==> ValidName(s.file)
    ensures s.message != "" <==> Truthy(Str(r.file.GetOr(""))) && !ValidName(r.file.GetOr(""))
    ensures s.message == "" ==> s.action == r.action.GetOr("list") && s.file == r.file.GetOr("")
  {
    var action := r.action.GetOr("list");
    var file := r.file.GetOr("");
    if Truthy(Str(file)) && !ValidName(file) then Stage("list", "", InvalidName)
    else Stage(action, file, "")
  }

  /** Lines 28-37: `delete` unlinks the named regular file, and returns to `list`. */
  function DeleteStep(d: map<string, Entry>, s: Stage): (map<string, Entry>, Stage)
  {
    if s.action == "delete" && Truthy(Str(s.file)) then
      if IsRegular(d, s.file) then (d - {s.file}, Stage("list", s.file, Deleted))
      else (d, Stage("list", s.file, NotFound))
    else (d, s)
  }

  /** Lines 40-51: `delete_all` unlinks every regular file the glob finds,
      and reports how many. */
  function DeleteAllStep(d: map<string, Entry>, s: Stage): (map<string, Entry>, Stage)
  {
    if s.action == "delete_all" then
      (Drop(d, RegularNames(d)), Stage("list", s.file, NatToString(|RegularNames(d)|) + FilesDeleted))
    else (d, s)
  }

  /** Lines 77-89: `view` of a name that is not a regular file falls back to `list`. */
  function ViewStep(d: map<string, Entry>, s: Stage): Stage
  {
    if s.action == "view" && Truthy(Str(s.file)) && !IsRegular(d, s.file) then Stage("list", s.file, NotFound)
    else s
  }

  /** Lines 80-85: the file's text, pretty-printed when `json_decode` gives
      something other than null. */
  function Shown(text: string, decode: string -> Json, pretty: Json -> string): string
  {
    if decode(text) != Null then pretty(decode(text)) else text
  }

  /** The directory after the script, the variables when the listing is
      decided (line 55) and the variables the page is drawn from. */
  datatype Outcome = Outcome(dir: map<string, Entry>, listed: Stage, shown: Stage)

  /** The script in its written order: the listing is decided before `view`'s
      fallback. */
  function Run(d: map<string, Entry>, r: Request): Outcome
  {
    var s0 := Validate(r);
    var (d1, s1) := DeleteStep(d, s0);
    var (d2, s2) := DeleteAllStep(d1, s1);
    Outcome(d2, s2, ViewStep(d2, s2))
  }

  /** The order the page needs: the listing is decided after `view`'s fallback. */
  function RunCorrected(d: map<string, Entry>, r: Request): Outcome
  {
    var o := Run(d, r);
    Outcome(o.dir, o.shown, o.shown)
  }

  /** A `view` of a well-formed name that is not a regular file shows the
      list view, yet the listing was skipped: the page says there is no log
      even when the directory holds some. */
  lemma MissingViewShowsEmptyList(d: map<string, Entry>, f: string)
    requires ValidName(f) && Truthy(Str(f)) && !IsRegular(d, f)
    ensures Run(d, Request(Some("view"), Some(f))).shown == Stage("list", f, NotFound)
    ensures Run(d, Request(Some("view"), Some(f))).listed.action != "list"
    ensures Run(d, Request(Some("view"), Some(f))).dir == d
  {
  }

  /** A directory with one log and a request for another one. */
  lemma MissingViewExample()
    ensures var d := map["vapi_1.log" := Regular("{}", 2, 1700000000)];
      RegularNames(d) == {"vapi_1.log"}
      && Run(d, Request(Some("view"), Some("vapi_2.log"))).shown.action == "list"
      && Run(d, Request(Some("view"), Some("vapi_2.log"))).listed.action == "view"
  {
    var d := map["vapi_1.log" := Regular("{}", 2, 1700000000)];
    assert Visible("vapi_1.log");
    assert "vapi_2.log" != "vapi_1.log" by { assert "vapi_2.log"[5] != "vapi_1.log"[5]; }
    assert ValidName("vapi_2.log");
  }

  /** With the listing decided last, the list view always has its listing;
      every other request is handled as before. */
  lemma CorrectedListsWheneverListShown(d: map<string, Entry>, r: Request)
    ensures RunCorrected(d, r).shown.action == "list" ==> RunCorrected(d, r).listed.action == "list"
    ensures RunCorrected(d, r).dir == Run(d, r).dir && RunCorrected(d, r).shown == Run(d, r).shown
    ensures Run(d, r).listed.action == "list" ==> RunCorrected(d, r).listed.action == "list"
    ensures RunCorrected(d, r).listed != Run(d, r).listed ==>
      Run(d, r).listed.action == "view" && Run(d, r).shown.message == NotFound
  {
  }

  /** Whatever the request, the page ends on a known action: either the one
      asked for, or `list`, and a rejected name is cleared. */
  lemma RejectedNameIsCleared(d: map<string, Entry>, r: Request)
    requires Truthy(Str(r.file.GetOr(""))) && !ValidName(r.file.GetOr(""))
    ensures Run(d, r) == Outcome(d, Stage("list", "", InvalidName), Stage("list", "", InvalidName))
  {
  }

  /** Only whitelisted names reach the file system: the file the page shows
      is whitelisted, and outside `delete_all` every entry the script removes
      carries a whitelisted name. */
  lemma OnlyValidNamesAreUsed(d: map<string, Entry>, r: Request, n: string)
    ensures Truthy(Str(Run(d, r).shown.file)) ==> ValidName(Run(d, r).shown.file)
    ensures Validate(r).action != "delete_all" && n in d && n !in Run(d, r).dir ==> ValidName(n)
  {
  }

  /** `delete` touches only the named entry, and only when it is a regular file. */
  lemma DeleteOnlyNamed(d: map<string, Entry>, s: Stage, n: string)
    requires s.action == "delete" && Truthy(Str(s.file))
    ensures DeleteStep(d, s).1.action == "list"
    ensures n in DeleteStep(d, s).0 <==> n in d && !(n == s.file && IsRegular(d, n))
    ensures n in DeleteStep(d, s).0 ==> DeleteStep(d, s).0[n] == d[n]
    ensures DeleteStep(d, s).1.message == (if IsRegular(d, s.file) then Deleted else NotFound)
  {
  }

  /** After `delete_all` no visible regular file is left, everything else is
      kept, and a second `delete_all` would report zero. */
  lemma DeleteAllEmptiesListing(d: map<string, Entry>, s: Stage)
    requires s.action == "delete_all"
    ensures RegularNames(DeleteAllStep(d, s).0) == {}
    ensures forall n :: n in d && n !in RegularNames(d) ==> n in DeleteAllStep(d, s).0 && DeleteAllStep(d, s).0[n] == d[n]
    ensures Lists([], DeleteAllStep(d, s).0)
  {
    var d' := DeleteAllStep(d, s).0;
    assert forall n :: n in d' ==> n !in RegularNames(d);
  }

  // ---------------------------------------------------------------- the directory as the script changes it

  /** The page and the directory `d1` that the script leaves for `r` on the
      directory `d0`: those of `Run`, a full newest-first listing when the
      listing stage was `list` and none otherwise, the viewed file shown
      pretty-printed when it is JSON, and no content on any other page. */
  ghost predicate Drawn(d0: map<string, Entry>, d1: map<string, Entry>, r: Request, page: Page,
                        decode: string -> Json, pretty: Json -> string)
  {
    var o := Run(d0, r);
    d1 == o.dir
    && (page.action, page.file, page.message) == (o.shown.action, o.shown.file, o.shown.message)
    && (o.listed.action == "list" ==> Lists(page.files, d1) && NewestFirst(page.files))
    && (o.listed.action != "list" ==> page.files == [])
    && (o.shown.action == "view" && Truthy(Str(o.shown.file)) ==>
          IsRegular(d1, o.shown.file) && page.content == Shown(d1[o.shown.file].content, decode, pretty))
    && (!(o.shown.action == "view" && Truthy(Str(o.shown.file))) ==> page.content == "")
  }

  class LogDirectory {
    var entries: map<string, Entry>

    constructor (entries: map<string, Entry>)
      ensures this.entries == entries
    {
      this.entries := entries;
    }

    /** Lines 29-35: unlink the file when it is a regular file. */
    method Delete(file: string) returns (message: string)
      modifies this
      ensures (entries, message) == (if IsRegular(old(entries), file) then (old(entries) - {file}, Deleted) else (old(entries), NotFound))
    {
      if file in entries && entries[file].Regular? {
        entries := entries - {file};
        message := Deleted;
      } else {
        message := NotFound;
      }
    }

    /** Lines 41-48: unlink each regular file the glob returns, counting them. */
    method DeleteAll() returns (count: nat)
      modifies this
      ensures entries == Drop(old(entries), RegularNames(old(entries)))
      ensures count == |RegularNames(old(entries))|
    {
      ghost var e0 := entries;
      var todo := set n | n in entries && Visible(n);
      ghost var done: set<string> := {};
      ghost var removed: set<string> := {};
      count := 0;
      while todo != {}
        invariant forall n :: n in todo <==> n in e0 && Visible(n) && n !in done
        invariant removed == RegularNames(e0) * done
        invariant entries == Drop(e0, removed)
        invariant count == |removed|
        decreases |todo|
      {
        var n :| n in todo;
        RemovalStep(e0, done, removed, n);
        if entries[n].Regular? {
          DropOneMore(e0, removed, n);
          entries := entries - {n};
          removed := removed + {n};
          count := count + 1;
        }
        todo := todo - {n};
        done := done + {n};
      }
      assert RegularNames(e0) * done == RegularNames(e0);
    }

    /** Lines 56-72: the regular files the glob returns, newest first. */
    method ListFiles() returns (files: seq<FileInfo>)
      ensures Lists(files, entries)
      ensures NewestFirst(files)
    {
      files := GlobFiles(entries);
      var a := new FileInfo[|files|](i requires 0 <= i < |files| => files[i]);
      assert a[..] == files;
      SortNewestFirst(a);
      ListsPermutation(files, a[..], entries);
      files := a[..];
    }

    /** The whole script on the request `r`, in its written order. `decode`
        and `pretty` are `json_decode` and `json_encode(.., JSON_PRETTY_PRINT)`. */
    method Handle(r: Request, decode: string -> Json, pretty: Json -> string) returns (page: Page)
      modifies this
      ensures Drawn(old(entries), entries, r, page, decode, pretty)
    {
      var action := r.action.GetOr("list");
      var file := r.file.GetOr("");
      var message := "";
      if Truthy(Str(file)) && !ValidName(file) {
        message := InvalidName;
        action := "list";
        file := "";
      }
      if action == "delete" && Truthy(Str(file)) {
        message := Delete(file);
        action := "list";
      }
      if action == "delete_all" {
        var count := DeleteAll();
        message := NatToString(count) + FilesDeleted;
        action := "list";
      }
      var files: seq<FileInfo> := [];
      if action == "list" {
        files := ListFiles();
      }
      var content := "";
      if action == "view" && Truthy(Str(file)) {
        if file in entries && entries[file].Regular? {
          content := Shown(entries[file].content, decode, pretty);
        } else {
          message := NotFound;
          action := "list";
        }
      }
      page := Page(action, file, message, files, content);
    }

    /** The script on the query as sent: it dies with the `TypeError` of
        line 21 when `file` is a non-empty array, before touching the
        directory; otherwise it is `Handle` on the strings read. */
    method Serve(q: Query, decode: string -> Json, pretty: Json -> string) returns (page: Option<Page>)
      modifies this
      ensures page.None? <==> ReadQuery(q).None?
      ensures page.None? ==> entries == old(entries)
      ensures page.Some? ==> Drawn(old(entries), entries, ReadQuery(q).value, page.value, decode, pretty)
    {
      var r := ReadQuery(q);
      if r.None? {
        return None;
      }
      var p := Handle(r.value, decode, pretty);
      page := Some(p);
    }

    /** The script with the listing moved after `view`'s fallback: whenever
        the page shows the list view, it lists every visible regular file. */
    method HandleCorrected(r: Request, decode: string -> Json, pretty: Json -> string) returns (page: Page)
      modifies this
      ensures var o := RunCorrected(old(entries), r);
        entries == o.dir
        && (page.action, page.file, page.message) == (o.shown.action, o.shown.file, o.shown.message)
        && (page.action == "list" <==> Lists(page.files, entries) && NewestFirst(page.files) && o.listed.action == "list")
        && (page.action != "list" ==> page.files == [])
        && (o.shown.action == "view" && Truthy(Str(o.shown.file)) ==>
              IsRegular(entries, o.shown.file) && page.content == Shown(entries[o.shown.file].content, decode, pretty))
        && (!(o.shown.action == "view" && Truthy(Str(o.shown.file))) ==> page.content == "")
    {
      var action := r.action.GetOr("list");
      var file := r.file.GetOr("");
      var message := "";
      if Truthy(Str(file)) && !ValidName(file) {
        message := InvalidName;
        action := "list";
        file := "";
      }
      if action == "delete" && Truthy(Str(file)) {
        message := Delete(file);
        action := "list";
      }
      if action == "delete_all" {
        var count := DeleteAll();
        message := NatToString(count) + FilesDeleted;
        action := "list";
      }
      var content := "";
      if action == "view" && Truthy(Str(file)) {
        if file in entries && entries[file].Regular? {
          content := Shown(entries[file].content, decode, pretty);
        } else {
          message := NotFound;
          action := "list";
        }
      }
      var files: seq<FileInfo> := [];
      if action == "list" {
        files := ListFiles();
      }
      page := Page(action, file, message, files, content);
    }
  }

  // ---------------------------------------------------------------- usort (lines 70-72)

  /** `usort($files, fn($a, $b) => $b['time'] - $a['time'])`, as an insertion
      sort in place. */
  method SortNewestFirst(a: array<FileInfo>)
    modifies a
    ensures NewestFirst(a[..])
    ensures multiset(a[..]) == multiset(old(a[..]))
  {
    var i := 0;
    while i < a.Length
      invariant 0 <= i <= a.Length
      invariant NewestFirst(a[..i])
      invariant multiset(a[..]) == multiset(old(a[..]))
    {
      Insert(a, i);
      i := i + 1;
    }
    assert a[..a.Length] == a[..];
  }

  /** Moves `a[i]` down into the sorted prefix `a[..i]`. */
  method Insert(a: array<FileInfo>, i: nat)
    requires i < a.Length
    requires NewestFirst(a[..i])
    modifies a
    ensures NewestFirst(a[..i + 1])
    ensures multiset(a[..]) == multiset(old(a[..]))
  {
    var j := i;
    while j > 0 && a[j - 1].time < a[j].time
      invariant 0 <= j <= i
      invariant forall p, q :: 0 <= p < q <= i && q != j ==> a[p].time >= a[q].time
      invariant 0 < j < i ==> a[j - 1].time >= a[j + 1].time
      invariant multiset(a[..]) == multiset(old(a[..]))
    {
      Swap(a, j);
      j := j - 1;
    }
  }

  /** Exchanges `a[j - 1]` and `a[j]`. */
  method Swap(a: array<FileInfo>, j: nat)
    requires 0 < j < a.Length
    modifies a
    ensures a[..] == old(a[..])[j - 1 := old(a[j])][j := old(a[j - 1])]
    ensures multiset(a[..]) == multiset(old(a[..]))
  {
    a[j - 1], a[j] := a[j], a[j - 1];
  }
}
