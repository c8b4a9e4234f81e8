/** From login to the first request: the login dialogue and the initial status leave exactly the state in which
    a session starts. */
module Sessions {
  import opened Text
  import opened Streams
  import opened Wire
  import opened Store
  import opened Digests
  import opened Watcher
  import opened Database
  import opened Logins
  import opened System

  /** A session right after login, with the streams the login has left, the history log, and a folder. */
  ghost function Opened(sin: Stream, cin: Stream, log: seq<Entry>, tree: Tree, day: string): State
  {
    State(day := day, tree := tree,
          initial := map[], started := false, index := map[], todo := [], scanning := false, stopped := false,
          asked := false, ring := [], terminated := false, hand := Idle, awaiting := false, pending := map[], next := 0,
          sin := sin, phase := Waiting, table := TableOf(log), cin := cin, reader := Handshake, restored := [],
          seen := map[], log := log, requests := [], done := [], eaten := Nothing, lost := false, pushed := [], handled := [])
  }

  /** A history a session may start from: what every session leaves behind. */
  ghost predicate HistoryFits(dg: Digest, log: seq<Entry>, day: string)
  {
    LogOk(log) && HashesOk(dg, log) && ByDay(log) && forall i :: 0 <= i < |log| ==> Le(log[i].day, day)
  }

  lemma OpenedIsInitial(c: Config, log: seq<Entry>, tree: Tree, day: string)
    requires c.capacity >= 2 && Sha256Like(c.dg) && TreeOk(c, tree) && HistoryFits(c.dg, log, day)
    ensures Initial(c, Opened(Stream("", "", false, false), Stream(EncInit(InitPairs(TableOf(log))), "\n", false, false), log, tree, day))
  {
    hide EncInit, InitPairs, Sha256Like, TableOf, LogOk, HashesOk, ByDay, Le, TreeOk;
  }

  /** Login opens a session: let the client send its name, a first password if it is new, and its tries, and the
      server its answers and then the initial status of the user's table. The server then stands in front of the
      first request, the client has understood every answer and stands in front of the initial status, and with
      these two streams the session starts as the whole-system model has it start. */
  lemma LoginOpensSession(c: Config, db: Db, name: string, first: string, tries: seq<string>,
                          log: seq<Entry>, tree: Tree, day: string)
    requires c.capacity >= 2 && Sha256Like(c.dg) && TreeOk(c, tree) && HistoryFits(c.dg, log, day)
    requires name != "" && NoSpace(name) && |name| < INT_MAX && PasswordOk(first)
    requires forall i :: 0 <= i < |tries| ==> PasswordOk(tries[i])
    requires Decisive(tries, if name in db.users then db.users[name] else first)
    requires if name in db.users then TableName(name) in db.tables && db.tables[TableName(name)] == TableOf(log)
             else TableName(name) !in db.tables && log == []
    ensures var known := name in db.users;
            var login := ServerLogin(Stream(EncLogin(name, if known then None else Some(first), tries), "", false, false), db);
            && login.Got? && login.value.Session? && login.value.name == name
            && login.value.db.users == (if known then db.users else db.users[name := first])
            && TableName(name) in login.value.db.tables && login.value.db.tables[TableName(name)] == TableOf(log)
            && var answers := Stream(login.value.written + EncInit(InitPairs(TableOf(log))), "", false, false);
               var signed := DecFlag(answers);
               && signed.Got? && (signed.value == 1 <==> known)
               && AwaitYes(signed.next).Got? && AwaitYes(signed.next).value == |tries| - 1
               && Initial(c, Opened(login.next, AwaitYes(signed.next).next, log, tree, day))
  {
    hide *;
    var known := name in db.users;
    TriesAreSome(tries, if known then db.users[name] else first);
    var sent := EncLogin(name, if known then None else Some(first), tries);
    var s := Stream(sent, "", false, false);
    AtStart(sent);
    assert sent + "" == sent;
    LoginRoundTrip(s, db, name, first, tries, "");
    Registered(db, name, first, log);
    var status := EncInit(InitPairs(TableOf(log)));
    var rest := Flags(|tries| - 1) + status;
    assert EncFlag(known) + Flags(|tries| - 1) + status == EncFlag(known) + rest;
    AtStart(EncFlag(known) + rest);
    FlagRoundTrip(Stream(EncFlag(known) + rest, "", false, false), known, rest);
    AtNewline(rest);
    FlagsRoundTrip(Stream(rest, "\n", false, false), |tries| - 1, status);
    OpenedIsInitial(c, log, tree, day);
  }

  lemma AtStart(net: string)
    ensures Boundary(Stream(net, "", false, false))
  {
  }

  lemma AtNewline(net: string)
    ensures Boundary(Stream(net, "\n", false, false))
  {
  }

  lemma TriesAreSome(tries: seq<string>, actual: string)
    requires Decisive(tries, actual)
    ensures |tries| >= 1
  {
  }

  /** After login the user is registered and has the table of its history. */
  lemma Registered(db: Db, name: string, first: string, log: seq<Entry>)
    requires if name in db.users then TableName(name) in db.tables && db.tables[TableName(name)] == TableOf(log)
             else TableName(name) !in db.tables && log == []
    ensures var db2 := if name in db.users then db else Db(db.users[name := first], db.tables[TableName(name) := map[]]);
            && db2.users == (if name in db.users then db.users else db.users[name := first])
            && TableName(name) in db2.tables && db2.tables[TableName(name)] == TableOf(log)
  {
    hide TableName;
  }
}
