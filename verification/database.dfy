/** The SQLite database behind the server: one table per user, its queries run row by row, and the
    separation of the users' histories. */
module Database {
  import opened Text
  import opened Wire
  import opened Store

  // ----- table names -----

  predicate IsAlnum(c: char) { '0' <= c <= '9' || 'a' <= c <= 'z' || 'A' <= c <= 'Z' }

  function KeepAlnum(s: string): string
  {
    if s == "" then "" else (if IsAlnum(s[0]) then [s[0]] else []) + KeepAlnum(s[1..])
  }

  function Fold(s: string): string
  {
    if s == "" then "" else [Lower(s[0])] + Fold(s[1..])
  }

  function Lower(c: char): char { if 'A' <= c <= 'Z' then (c as int + 32) as char else c }

  /** The identity of a user's table: SQLite compares table names without regard to case. */
  function TableName(username: string): string { Fold("_" + KeepAlnum(username)) }

  /** Text as it stands in a table name. */
  ghost predicate TableText(t: string)
  {
    (forall i :: 0 <= i < |t| ==> IsAlnum(t[i]) && !('A' <= t[i] <= 'Z')) && KeepAlnum(t) == t && Fold(t) == t
  }

  lemma KeptFirst(s: string)
    requires s != ""
    ensures IsAlnum(s[0]) ==> Fold(KeepAlnum(s)) == [Lower(s[0])] + Fold(KeepAlnum(s[1..]))
    ensures !IsAlnum(s[0]) ==> Fold(KeepAlnum(s)) == Fold(KeepAlnum(s[1..]))
  {
    hide IsAlnum;
    var rest := KeepAlnum(s[1..]);
    if IsAlnum(s[0]) {
      assert KeepAlnum(s) == [s[0]] + rest && ([s[0]] + rest)[1..] == rest;
    } else {
      assert KeepAlnum(s) == [] + rest == rest;
    }
  }

  lemma PlainFirst(c: char, t: string)
    requires IsAlnum(c) && TableText(t)
    ensures TableText([Lower(c)] + t)
  {
    var f, all := Lower(c), [Lower(c)] + t;
    assert all[1..] == t && IsAlnum(f) && Lower(f) == f;
    assert forall i :: 0 < i < |all| ==> all[i] == t[i - 1];
    hide IsAlnum;
    assert KeepAlnum(all) == [f] + KeepAlnum(t) && Fold(all) == [f] + Fold(t);
  }

  lemma {:induction false} FoldedAlnum(s: string)
    ensures TableText(Fold(KeepAlnum(s)))
    decreases s
  {
    if s != "" {
      hide *;
      FoldedAlnum(s[1..]);
      KeptFirst(s);
      if IsAlnum(s[0]) { PlainFirst(s[0], Fold(KeepAlnum(s[1..]))); }
    }
  }

  /** A table name can always stand in a statement: an underscore, then only letters and digits. */
  lemma TableNameShape(u: string)
    ensures var t := TableName(u);
            t != "" && t[0] == '_' && forall i :: 0 < i < |t| ==> IsAlnum(t[i]) && !('A' <= t[i] <= 'Z')
    ensures TableName(TableName(u)) == TableName(u)
  {
    FoldedAlnum(u);
    var k := KeepAlnum(u);
    assert ("_" + k)[1..] == k;
    assert TableName(u) == "_" + Fold(k);
    assert ("_" + Fold(k))[1..] == Fold(k);
    assert KeepAlnum("_" + Fold(k)) == [] + Fold(k) == Fold(k);
  }

  /** What is kept of a name: of each character, in order, itself if it is a letter or digit and else nothing. */
  lemma {:induction false} KeptCharacters(s: string, t: string, c: char)
    ensures KeepAlnum(s + t) == KeepAlnum(s) + KeepAlnum(t)
    ensures KeepAlnum([c]) == (if 48 <= c as int <= 57 || 65 <= c as int <= 90 || 97 <= c as int <= 122 then [c] else "")
    decreases s
  {
    if s == "" {
      assert s + t == t;
    } else {
      assert (s + t)[0] == s[0] && (s + t)[1..] == s[1..] + t;
      KeptCharacters(s[1..], t, c);
    }
    assert [c][1..] == "";
  }

  /** The same letter or digit, but for its case. */
  predicate SameLetter(a: char, b: char)
  {
    a == b || ('A' <= a <= 'Z' && b as int == a as int + 32) || ('A' <= b <= 'Z' && a as int == b as int + 32)
  }

  /** Two users share a table name exactly if their alphanumeric characters agree up to case. */
  lemma TableNamesMeet(u: string, v: string)
    ensures TableName(u) == TableName(v) <==>
              |KeepAlnum(u)| == |KeepAlnum(v)| && forall i :: 0 <= i < |KeepAlnum(u)| ==> SameLetter(KeepAlnum(u)[i], KeepAlnum(v)[i])
  {
    hide KeepAlnum, Fold, SameLetter;
    Folded(KeepAlnum(u));
    Folded(KeepAlnum(v));
    FoldsMeet(KeepAlnum(u), KeepAlnum(v));
  }

  lemma Folded(a: string)
    ensures Fold("_" + a) == "_" + Fold(a)
  {
    assert ("_" + a)[1..] == a;
  }

  lemma FoldsMeet(a: string, b: string)
    ensures "_" + Fold(a) == "_" + Fold(b) <==> |a| == |b| && forall i :: 0 <= i < |a| ==> SameLetter(a[i], b[i])
  {
    hide Fold, SameLetter, Lower;
    FoldedAt(a);
    FoldedAt(b);
    assert ("_" + Fold(a))[1..] == Fold(a) && ("_" + Fold(b))[1..] == Fold(b);
    forall i | 0 <= i < |a| && i < |b| ensures SameLetter(a[i], b[i]) <==> Fold(a)[i] == Fold(b)[i] { LowerMeets(a[i], b[i]); }
    if |a| == |b| && forall i :: 0 <= i < |a| ==> SameLetter(a[i], b[i]) {
      assert Fold(a) == Fold(b);
    }
  }

  lemma LowerMeets(a: char, b: char)
    ensures SameLetter(a, b) <==> Lower(a) == Lower(b)
  {
  }

  lemma {:induction false} FoldedAt(s: string)
    ensures |Fold(s)| == |s| && forall i :: 0 <= i < |s| ==> Fold(s)[i] == Lower(s[i])
    decreases s
  {
    if s != "" {
      FoldedAt(s[1..]);
      assert forall i :: 0 < i < |s| ==> s[i] == s[1..][i - 1] && Fold(s)[i] == Fold(s[1..])[i - 1];
    }
  }

  // ----- the database as a value -----

  datatype Db = Db(users: map<string, string>, tables: map<string, Table>)

  datatype DbOp =
    | Register(user: string, password: string)
    | Add(user: string, entry: Entry)

  /** A failed CREATE TABLE rolls the user row back; login registers only unknown users. */
  function ApplyOp(d: Db, op: DbOp): Db
  {
    match op
    case Register(u, p) =>
      if u in d.users || TableName(u) in d.tables then d
      else Db(d.users[u := p], d.tables[TableName(u) := map[]])
    case Add(u, e) =>
      if TableName(u) in d.tables then d.(tables := d.tables[TableName(u) := Upsert(d.tables[TableName(u)], e)])
      else d
  }

  function RunDb(ops: seq<DbOp>): Db
  {
    if ops == [] then Db(map[], map[]) else ApplyOp(RunDb(ops[..|ops| - 1]), ops[|ops| - 1])
  }

  /** Actions are added only by users that are logged in, hence registered. */
  ghost predicate LoggedIn(ops: seq<DbOp>)
  {
    ops != [] ==>
      LoggedIn(ops[..|ops| - 1]) &&
      (ops[|ops| - 1].Add? ==> ops[|ops| - 1].user in RunDb(ops[..|ops| - 1]).users)
  }

  /** The actions of one user, in order. */
  function OwnLog(ops: seq<DbOp>, u: string): seq<Entry>
  {
    if ops == [] then [] else
      var op := ops[|ops| - 1];
      OwnLog(ops[..|ops| - 1], u) + (if op.Add? && op.user == u then [op.entry] else [])
  }

  ghost predicate Separate(d: Db)
  {
    && (forall u :: u in d.users ==> TableName(u) in d.tables)
    && (forall u, v :: u in d.users && v in d.users && u != v ==> TableName(u) != TableName(v))
  }

  lemma {:induction false} UnknownHasNoLog(ops: seq<DbOp>, u: string)
    requires LoggedIn(ops) && u !in RunDb(ops).users
    ensures OwnLog(ops, u) == []
  {
    if ops != [] {
      var n := |ops| - 1;
      UnknownHasNoLog(ops[..n], u);
    }
  }

  lemma SeparateStep(d: Db, op: DbOp)
    requires Separate(d)
    ensures Separate(ApplyOp(d, op))
  {
    hide TableName, Upsert;
  }

  /** User isolation, first half: in every reachable database distinct users have distinct tables,
      even after case folding. */
  lemma {:induction false} UsersAreSeparate(ops: seq<DbOp>)
    ensures Separate(RunDb(ops))
  {
    if ops != [] {
      UsersAreSeparate(ops[..|ops| - 1]);
      SeparateStep(RunDb(ops[..|ops| - 1]), ops[|ops| - 1]);
    }
  }

  /** The registrations that succeed: those of a table name no earlier one asked for. */
  ghost predicate Succeeds(ops: seq<DbOp>, i: nat)
  {
    i < |ops| && ops[i].Register? && forall j :: 0 <= j < i && ops[j].Register? ==> TableName(ops[j].user) != TableName(ops[i].user)
  }

  lemma SucceedsBefore(ops: seq<DbOp>)
    requires ops != []
    ensures forall i: nat :: i < |ops| - 1 ==> (Succeeds(ops, i) <==> Succeeds(ops[..|ops| - 1], i))
  {
    hide TableName;
    var front := ops[..|ops| - 1];
    assert forall j :: 0 <= j < |front| ==> front[j] == ops[j];
    forall i: nat | i < |front| ensures Succeeds(ops, i) <==> Succeeds(front, i) {
      if Succeeds(front, i) {
        forall j | 0 <= j < i && ops[j].Register? ensures TableName(ops[j].user) != TableName(ops[i].user) {
          assert front[j].Register?;
        }
      }
      if Succeeds(ops, i) {
        forall j | 0 <= j < i && front[j].Register? ensures TableName(front[j].user) != TableName(front[i].user) {
          assert ops[j].Register?;
        }
      }
    }
  }

  /** A table stands exactly for each table name some registration asked for. */
  lemma {:induction false} TablesAsked(ops: seq<DbOp>, t: string)
    ensures t in RunDb(ops).tables <==> exists i :: 0 <= i < |ops| && ops[i].Register? && TableName(ops[i].user) == t
  {
    hide TableName;
    if ops != [] {
      var front, op := ops[..|ops| - 1], ops[|ops| - 1];
      TablesAsked(front, t);
      UsersAreSeparate(front);
      if op.Register? && TableName(op.user) == t { assert ops[|ops| - 1].Register?; }
      if t in RunDb(front).tables {
        var i :| 0 <= i < |front| && front[i].Register? && TableName(front[i].user) == t;
        assert ops[i] == front[i];
      }
      if i :| 0 <= i < |ops| && ops[i].Register? && TableName(ops[i].user) == t {
        if i < |front| { assert front[i] == ops[i]; }
      }
    }
  }

  /** A registration succeeds exactly if it finds neither the user nor the table. */
  lemma LastSucceeds(ops: seq<DbOp>)
    requires ops != [] && ops[|ops| - 1].Register?
    ensures var (op, d) := (ops[|ops| - 1], RunDb(ops[..|ops| - 1]));
            && (Succeeds(ops, |ops| - 1) <==> TableName(op.user) !in d.tables)
            && (op.user in d.users ==> TableName(op.user) in d.tables)
  {
    hide TableName, RunDb;
    var front, op := ops[..|ops| - 1], ops[|ops| - 1];
    TablesAsked(front, TableName(op.user));
    UsersAreSeparate(front);
    assert forall j :: 0 <= j < |front| ==> front[j] == ops[j];
    if TableName(op.user) in RunDb(front).tables {
      var i :| 0 <= i < |front| && front[i].Register? && TableName(front[i].user) == TableName(op.user);
      assert ops[i].Register?;
    } else {
      forall j | 0 <= j < |ops| - 1 && ops[j].Register? ensures TableName(ops[j].user) != TableName(op.user) {
        assert front[j].Register?;
      }
    }
  }

  /** Which users are known, and under which password: those whose registration succeeded, under the one given
      there, whatever any user did later. */
  lemma {:induction false} StoredPassword(ops: seq<DbOp>, u: string, p: string)
    ensures u in RunDb(ops).users && RunDb(ops).users[u] == p <==>
              exists i: nat :: Succeeds(ops, i) && ops[i] == Register(u, p)
    decreases ops
  {
    if ops == [] {
      assert RunDb(ops).users == map[];
    } else {
      var n := |ops| - 1;
      var front := ops[..n];
      StoredPassword(front, u, p);
      hide RunDb, TableName;
      hide Succeeds;
      Earlier(ops, front, u, p);
      LastStores(ops, u, p);
    }
  }

  lemma Earlier(ops: seq<DbOp>, front: seq<DbOp>, u: string, p: string)
    requires ops != [] && front == ops[..|ops| - 1]
    ensures (exists i: nat :: Succeeds(ops, i) && ops[i] == Register(u, p)) <==>
              (Succeeds(ops, |ops| - 1) && ops[|ops| - 1] == Register(u, p))
              || exists i: nat :: Succeeds(front, i) && front[i] == Register(u, p)
  {
    var n := |ops| - 1;
    SucceedsBefore(ops);
    assert forall i :: 0 <= i < n ==> front[i] == ops[i];
    assert forall i: nat :: Succeeds(ops, i) ==> i <= n;
    assert forall i: nat :: Succeeds(front, i) ==> i < n;
    hide Succeeds;
    if i: nat :| Succeeds(ops, i) && ops[i] == Register(u, p) {
      if i < n { assert Succeeds(front, i) && front[i] == Register(u, p); }
    }
    if i: nat :| Succeeds(front, i) && front[i] == Register(u, p) {
      assert Succeeds(ops, i) && ops[i] == Register(u, p);
    }
  }

  /** A user that got its account keeps it, with the password it chose. */
  lemma AccountStays(ops: seq<DbOp>, u: string, p: string, more: seq<DbOp>)
    requires TableName(u) !in RunDb(ops).tables
    ensures u in RunDb(ops + [Register(u, p)] + more).users && RunDb(ops + [Register(u, p)] + more).users[u] == p
  {
    hide TableName, RunDb;
    var one := ops + [Register(u, p)];
    assert one[..|one| - 1] == ops;
    LastSucceeds(one);
    assert forall j :: 0 <= j < |one| ==> (one + more)[j] == one[j];
    assert Succeeds(one + more, |ops|);
    StoredPassword(one + more, u, p);
  }

  lemma LastStores(ops: seq<DbOp>, u: string, p: string)
    requires ops != []
    ensures var d := RunDb(ops[..|ops| - 1]);
            u in RunDb(ops).users && RunDb(ops).users[u] == p <==>
              (Succeeds(ops, |ops| - 1) && ops[|ops| - 1] == Register(u, p)) || (u in d.users && d.users[u] == p)
  {
    RunStep(ops);
    UsersAreSeparate(ops[..|ops| - 1]);
    if ops[|ops| - 1].Register? { LastSucceeds(ops); }
    hide RunDb, TableName, Upsert;
  }

  /** User isolation, second half: each user's table is the one left by that user's own actions,
      whatever the other users did in between. */
  lemma {:induction false} OwnTable(ops: seq<DbOp>, u: string)
    requires LoggedIn(ops) && u in RunDb(ops).users
    ensures TableName(u) in RunDb(ops).tables
    ensures RunDb(ops).tables[TableName(u)] == TableOf(OwnLog(ops, u))
  {
    if ops != [] {
      var n := |ops| - 1;
      var op, before := ops[n], RunDb(ops[..n]);
      UsersAreSeparate(ops[..n]);
      UsersAreSeparate(ops);
      OwnLogStep(ops, u);
      RunStep(ops);
      LoggedInPrefix(ops);
      hide TableName, LoggedIn, TableOf, Upsert, OwnLog, RunDb;
      if u in before.users {
        OwnTable(ops[..n], u);
        if op.Add? && op.user == u { TableSnoc(OwnLog(ops[..n], u), op.entry); }
      } else {
        UnknownHasNoLog(ops[..n], u);
        EmptyTable();
      }
    }
  }

  lemma RunStep(ops: seq<DbOp>)
    requires ops != []
    ensures RunDb(ops) == ApplyOp(RunDb(ops[..|ops| - 1]), ops[|ops| - 1])
  {
  }

  lemma EmptyTable()
    ensures TableOf([]) == map[]
  {
  }

  lemma LoggedInPrefix(ops: seq<DbOp>)
    requires LoggedIn(ops) && ops != []
    ensures LoggedIn(ops[..|ops| - 1])
    ensures ops[|ops| - 1].Add? ==> ops[|ops| - 1].user in RunDb(ops[..|ops| - 1]).users
  {
  }

  lemma OwnLogStep(ops: seq<DbOp>, u: string)
    requires ops != []
    ensures OwnLog(ops, u) ==
            if ops[|ops| - 1].Add? && ops[|ops| - 1].user == u
            then OwnLog(ops[..|ops| - 1], u) + [ops[|ops| - 1].entry]
            else OwnLog(ops[..|ops| - 1], u)
  {
  }

  /** What one user may see as of any date is therefore the replay of that user's own actions. */
  lemma OwnView(ops: seq<DbOp>, u: string, date: string)
    requires LoggedIn(ops) && u in RunDb(ops).users
    ensures TableName(u) in RunDb(ops).tables
    ensures AsOf(RunDb(ops).tables[TableName(u)], date) == Replay(Cut(StableSort(OwnLog(ops, u)), date))
  {
    OwnTable(ops, u);
    AsOfRefinesReplay(OwnLog(ops, u), date);
  }

  // ----- rows in the order the engine returns them -----

  /** The rows of getRestoreEntries' SELECT, ordered by file name. */
  ghost predicate RestoreRows(rows: seq<Key>, t: Table, date: string)
  {
    && (forall k :: k in rows <==> k in t && LatestUpTo(t, k, date) && t[k].action != DELETE_PATH)
    && (forall i, j :: 0 <= i < j < |rows| ==> rows[i].0 != rows[j].0 && Le(rows[i].0, rows[j].0))
  }

  /** The rows of getInitailizationEntries' SELECT, ordered by file name. */
  ghost predicate InitRows(rows: seq<Key>, t: Table)
  {
    && (forall k :: k in rows <==> k in t && Latest(t, k) && t[k].action != DELETE_PATH)
    && (forall i, j :: 0 <= i < j < |rows| ==> rows[i].0 != rows[j].0 && Le(rows[i].0, rows[j].0))
  }

  /** The view as of a date, each live row read as a File under its full name. */
  ghost function WholeFiles(t: Table, date: string): map<string, File>
  {
    map n | n in AsOf(t, date) && ToFile(n, AsOf(t, date)[n]).Some? :: ToFile(n, AsOf(t, date)[n]).value.(name := n)
  }

  function LongestName(rows: seq<Key>): (m: nat)
    ensures forall k :: k in rows ==> |k.0| <= m
  {
    if rows == [] then 0 else
      var m := LongestName(rows[1..]);
      assert forall k :: k in rows ==> k == rows[0] || k in rows[1..];
      if |rows[0].0| > m then |rows[0].0| else m
  }

  /** Every name is the cut of some name. */
  ghost predicate AllCuts(rows: seq<Key>)
  {
    forall n :: n in rows ==> exists m :: m in rows && CutName(m.0) == n.0
  }

  /** A name that is cut is the cut of a longer one. */
  lemma Longer(rows: seq<Key>, k: Key) returns (m: Key)
    requires AllCuts(rows) && k in rows && !OneByte(k.0)
    ensures m in rows && |m.0| > |k.0| && !OneByte(m.0)
  {
    hide CutName, OneByte;
    m :| m in rows && CutName(m.0) == k.0;
    hide AllCuts;
    CutNameExact(k.0);
    CutNameExact(m.0);
  }

  /** If every name is the cut of some name, no name is cut: a cut name would need ever longer ones. */
  lemma {:induction false} NoneIsCut(rows: seq<Key>, k: Key)
    requires AllCuts(rows) && k in rows
    ensures OneByte(k.0)
    decreases LongestName(rows) - |k.0|
  {
    hide *;
    if !OneByte(k.0) {
      var m := Longer(rows, k);
      NoneIsCut(rows, m);
    }
  }

  // ----- what the row loop of a restore adds up to -----

  function NamesOf(rows: seq<Key>): (names: seq<string>)
    ensures |names| == |rows| && forall i :: 0 <= i < |rows| ==> names[i] == rows[i].0
  {
    seq(|rows|, i requires 0 <= i < |rows| => rows[i].0)
  }

  lemma RestoreNamesSorted(rows: seq<Key>, t: Table, date: string, names: seq<string>)
    requires RestoreRows(rows, t, date) && |names| == |rows| && forall i :: 0 <= i < |rows| ==> names[i] == rows[i].0
    ensures Sorted(names) && forall n :: n in names <==> n in AsOf(t, date)
  {
    hide Le, AsOf;
    var m := AsOf(t, date);
    forall n ensures n in names <==> n in m {
      if n in m {
        var k := AsOfKey(t, n, date);
        assert k in rows;
        var i :| 0 <= i < |rows| && rows[i] == k;
        assert names[i] == n;
      }
      if n in names {
        var i :| 0 <= i < |names| && names[i] == n;
        assert rows[i] in rows;
        AsOfAt(t, rows[i], date);
      }
    }
  }

  lemma {:induction false} FilesOfAre(m: map<string, Row>, ks: seq<string>, fs: seq<File>)
    requires |fs| == |ks| && forall k :: k in ks ==> k in m
    requires forall i :: 0 <= i < |ks| ==> ToFile(ks[i], m[ks[i]]) == Some(fs[i])
    ensures FilesOf(m, ks) == Some(fs)
    decreases ks
  {
    hide ToFile;
    if ks != [] {
      FilesOfAre(m, ks[1..], fs[1..]);
      assert fs == [fs[0]] + fs[1..];
    }
  }

  lemma {:induction false} FilesOfNone(m: map<string, Row>, ks: seq<string>, n: string)
    requires (forall k :: k in ks ==> k in m) && n in ks && ToFile(n, m[n]).None?
    ensures FilesOf(m, ks).None?
    decreases ks
  {
    hide ToFile;
    if ks[0] != n {
      assert n in ks[1..];
      FilesOfNone(m, ks[1..], n);
    }
  }

  /** The files of a restore, in row order. */
  ghost function Listing(t: Table, date: string): Option<seq<File>>
  {
    FilesOf(AsOf(t, date), SortedKeys(AsOf(t, date).Keys))
  }

  lemma ListedRows(t: Table, date: string, rows: seq<Key>)
    requires RestoreRows(rows, t, date)
    ensures NamesOf(rows) == SortedKeys(AsOf(t, date).Keys)
    ensures forall j :: 0 <= j < |rows| ==> rows[j] in t && rows[j].0 in AsOf(t, date) && AsOf(t, date)[rows[j].0] == t[rows[j]]
  {
    hide Le, AsOf, ToFile, SortedKeys, Sorted;
    RestoreNamesSorted(rows, t, date, NamesOf(rows));
    SortedUnique(NamesOf(rows), SortedKeys(AsOf(t, date).Keys));
    forall j | 0 <= j < |rows|
      ensures rows[j] in t && rows[j].0 in AsOf(t, date) && AsOf(t, date)[rows[j].0] == t[rows[j]]
    {
      assert rows[j] in rows;
      AsOfAt(t, rows[j], date);
    }
  }

  lemma ListingIs(t: Table, date: string, rows: seq<Key>, fs: seq<File>)
    requires RestoreRows(rows, t, date) && |fs| == |rows|
    requires forall j :: 0 <= j < |rows| ==> rows[j] in t && ToFile(rows[j].0, t[rows[j]]) == Some(fs[j])
    ensures Listing(t, date) == Some(fs)
  {
    hide Le, AsOf, ToFile, SortedKeys, FilesOf, RestoreRows;
    ListedRows(t, date, rows);
    FilesOfAre(AsOf(t, date), NamesOf(rows), fs);
  }

  lemma ListingFails(t: Table, date: string, rows: seq<Key>, j: nat)
    requires RestoreRows(rows, t, date) && j < |rows| && rows[j] in t && ToFile(rows[j].0, t[rows[j]]).None?
    ensures Listing(t, date).None?
  {
    hide Le, AsOf, ToFile, SortedKeys, FilesOf, RestoreRows;
    ListedRows(t, date, rows);
    assert NamesOf(rows)[j] == rows[j].0;
    FilesOfNone(AsOf(t, date), NamesOf(rows), rows[j].0);
  }

  class SqliteDatabase {
    var users: map<string, string>
    var tables: map<string, Table>

    function State(): Db
      reads this
    {
      Db(users, tables)
    }

    method PasswordFromUsername(username: string) returns (r: Option<string>)
      ensures r.Some? <==> username in users
      ensures r.Some? ==> r.value == users[username]
    {
      r := if username in users then Some(users[username]) else None;
    }

    /** The insert and the CREATE TABLE stand or fall together. */
    method CreateNewUser(username: string, password: string) returns (ok: bool)
      requires username !in users
      modifies this
      ensures State() == ApplyOp(old(State()), Register(username, password))
      ensures ok <==> TableName(username) !in old(tables)
      ensures ok ==> users == old(users)[username := password] && tables == old(tables)[TableName(username) := map[]]
      ensures !ok ==> users == old(users) && tables == old(tables)
    {
      var saved := users;
      users := users[username := password];
      if TableName(username) in tables {
        users := saved;
        return false;
      }
      tables := tables[TableName(username) := map[]];
      return true;
    }

    method CheckKeyExist(table: string, filename: string, timestamp: string) returns (r: bool)
      requires table in tables
      ensures r <==> (filename, timestamp) in tables[table]
    {
      r := (filename, timestamp) in tables[table];
    }

    /** Updates the row of the day or inserts one; `engine` is whether SQLite carries the statement out. */
    method AddAction(username: string, filename: string, timestamp: string, row: Row, engine: bool) returns (ok: bool)
      modifies this
      ensures ok <==> engine && TableName(username) in old(tables)
      ensures State() == if ok then ApplyOp(old(State()), Add(username, Entry(filename, timestamp, row))) else old(State())
      ensures users == old(users) && tables.Keys == old(tables).Keys
      ensures forall t :: t in tables && !(ok && t == TableName(username)) ==> tables[t] == old(tables)[t]
      ensures ok ==> tables[TableName(username)] == old(tables)[TableName(username)][(filename, timestamp) := row]
      ensures ok && (filename, timestamp) !in old(tables)[TableName(username)] ==>
                |tables[TableName(username)]| == |old(tables)[TableName(username)]| + 1
      ensures ok && (filename, timestamp) in old(tables)[TableName(username)] ==>
                tables[TableName(username)].Keys == old(tables)[TableName(username)].Keys
    {
      var table := TableName(username);
      if table !in tables || !engine {
        return false;
      }
      var known := CheckKeyExist(table, filename, timestamp);
      var t := tables[table];
      if known {
        t := map k | k in t :: if k == (filename, timestamp) then row else t[k];
      } else {
        t := t[(filename, timestamp) := row];
      }
      assert t == tables[table][(filename, timestamp) := row];
      tables := tables[table := t];
      return true;
    }

    /** The row loop of getRestoreEntries: it throws exactly when some selected metadata text is not an int,
        and otherwise keeps for each name, cut as it may be, the first of its rows. That is the view as of the
        date exactly when every selected name has one byte per character. */
    method GetRestoreEntries(username: string, date: string, rows: seq<Key>) returns (r: Option<map<string, File>>)
      requires TableName(username) in tables && RestoreRows(rows, tables[TableName(username)], date)
      ensures r.Some? <==> forall k :: k in rows ==> ToFile(k.0, tables[TableName(username)][k]).Some?
      ensures r == match Listing(tables[TableName(username)], date) case Some(fs) => Some(FirstWins(fs)) case None => None
      ensures r.Some? ==>
                (r.value == WholeFiles(tables[TableName(username)], date) <==> forall k :: k in rows ==> OneByte(k.0))
    {
      hide Le, AsOf, ToFile, CutName, WholeFiles, OneByte, Listing;
      var t := tables[TableName(username)];
      var m: map<string, File> := map[];
      ghost var fs: seq<File> := [];
      var i := 0;
      while i < |rows|
        invariant 0 <= i <= |rows| && |fs| == i && m == FirstWins(fs)
        invariant forall j :: 0 <= j < i ==> ToFile(rows[j].0, t[rows[j]]) == Some(fs[j])
      {
        assert rows[i] in rows;
        var f := ToFile(rows[i].0, t[rows[i]]);
        if f.None? {
          ListingFails(t, date, rows, i);
          return None;
        }
        FirstWinsSnoc(fs, f.value);
        if f.value.name !in m {
          m := m[f.value.name := f.value];
        }
        fs := fs + [f.value];
        i := i + 1;
      }
      ListingIs(t, date, rows, fs);
      FirstWinsCollects(t, rows, fs);
      CollectedExact(t, date, rows, m);
      return Some(m);
    }

    /** The row loop of getInitailizationEntries. */
    method GetInitializationEntries(username: string, rows: seq<Key>) returns (m: map<string, string>)
      requires TableName(username) in tables && InitRows(rows, tables[TableName(username)])
      ensures m == Current(tables[TableName(username)])
    {
      hide Current, Latest, Le, TableName;
      var t := tables[TableName(username)];
      m := map[];
      var i := 0;
      while i < |rows|
        invariant 0 <= i <= |rows|
        invariant forall j :: 0 <= j < i ==> rows[j].0 in m && m[rows[j].0] == t[rows[j]].hash
        invariant forall n :: n in m ==> exists j :: 0 <= j < i && rows[j].0 == n
      {
        assert rows[i] in rows;
        if rows[i].0 !in m {
          m := m[rows[i].0 := t[rows[i]].hash];
        }
        i := i + 1;
      }
      CollectedHashes(t, rows, m);
    }
  }

  lemma CollectedHashes(t: Table, rows: seq<Key>, m: map<string, string>)
    requires InitRows(rows, t)
    requires forall j :: 0 <= j < |rows| ==> rows[j] in t && rows[j].0 in m && m[rows[j].0] == t[rows[j]].hash
    requires forall n :: n in m ==> exists j :: 0 <= j < |rows| && rows[j].0 == n
    ensures m == Current(t)
  {
    hide Le;
    var c := Current(t);
    forall n ensures n in m <==> n in c {
      if n in c {
        var k :| k in t && Latest(t, k) && t[k].action != DELETE_PATH && k.0 == n;
        assert k in rows;
      }
      if n in m {
        var j :| 0 <= j < |rows| && rows[j].0 == n;
        assert rows[j] in rows;
      }
    }
    forall n | n in m && n in c ensures m[n] == c[n] {
      var k :| k in t && Latest(t, k) && t[k].action != DELETE_PATH && k.0 == n && c[n] == t[k].hash;
      assert k in rows;
    }
  }

  /** m holds what the row loop collected from all rows. */
  ghost predicate Collected(t: Table, rows: seq<Key>, m: map<string, File>)
  {
    && (forall j :: 0 <= j < |rows| ==> rows[j] in t && ToFile(rows[j].0, t[rows[j]]).Some? && CutName(rows[j].0) in m)
    && (forall n :: n in m ==> exists j :: 0 <= j < |rows| && n == CutName(rows[j].0) && ToFile(rows[j].0, t[rows[j]]) == Some(m[n]))
  }

  lemma FirstWinsCollects(t: Table, rows: seq<Key>, fs: seq<File>)
    requires |fs| == |rows|
    requires forall j :: 0 <= j < |rows| ==> rows[j] in t && ToFile(rows[j].0, t[rows[j]]) == Some(fs[j])
    ensures Collected(t, rows, FirstWins(fs))
  {
    hide CutName, ToFile, FirstWins;
    FirstWinsKeys(fs);
    forall j | 0 <= j < |rows| ensures fs[j].name == CutName(rows[j].0) { CutFileName(rows[j].0, t[rows[j]]); }
  }

  lemma CollectedExact(t: Table, date: string, rows: seq<Key>, m: map<string, File>)
    requires RestoreRows(rows, t, date) && Collected(t, rows, m)
    ensures m == WholeFiles(t, date) <==> forall k :: k in rows ==> OneByte(k.0)
  {
    hide RestoreRows, Collected, OneByte, WholeFiles;
    if m == WholeFiles(t, date) { CollectedWhole(t, date, rows, m); }
    if forall k :: k in rows ==> OneByte(k.0) { CollectedOneByte(t, date, rows, m); }
  }

  lemma CollectedWhole(t: Table, date: string, rows: seq<Key>, m: map<string, File>)
    requires RestoreRows(rows, t, date) && Collected(t, rows, m) && m == WholeFiles(t, date)
    ensures forall k :: k in rows ==> OneByte(k.0)
  {
    hide RestoreRows, CutName, OneByte, ToFile, WholeFiles;
    forall k | k in rows ensures exists q :: q in rows && CutName(q.0) == k.0 {
      WholeKeys(t, date, rows, k.0);
      var i :| 0 <= i < |rows| && rows[i] == k;
      assert k.0 in m;
      var j :| 0 <= j < |rows| && k.0 == CutName(rows[j].0);
      assert rows[j] in rows;
    }
    forall k | k in rows ensures OneByte(k.0) { NoneIsCut(rows, k); }
  }

  lemma CollectedOneByte(t: Table, date: string, rows: seq<Key>, m: map<string, File>)
    requires RestoreRows(rows, t, date) && Collected(t, rows, m)
    requires forall k :: k in rows ==> OneByte(k.0)
    ensures m == WholeFiles(t, date)
  {
    hide RestoreRows, CutName, OneByte, ToFile, WholeFiles;
    forall j | 0 <= j < |rows| ensures CutName(rows[j].0) == rows[j].0 {
      assert rows[j] in rows;
      CutNameExact(rows[j].0);
    }
    forall n ensures n in m <==> n in WholeFiles(t, date) {
      WholeKeys(t, date, rows, n);
      if n in WholeFiles(t, date) {
        var j :| 0 <= j < |rows| && rows[j].0 == n;
        assert CutName(rows[j].0) in m;
      }
    }
    forall n | n in m ensures m[n] == WholeFiles(t, date)[n] {
      var j :| 0 <= j < |rows| && n == CutName(rows[j].0) && ToFile(rows[j].0, t[rows[j]]) == Some(m[n]);
      WholeValue(t, date, rows, j);
    }
  }

  lemma CutFileName(n: string, r: Row)
    requires ToFile(n, r).Some?
    ensures ToFile(n, r).value.name == CutName(n)
  {
  }

  lemma WholeValue(t: Table, date: string, rows: seq<Key>, j: nat)
    requires RestoreRows(rows, t, date) && j < |rows|
    requires rows[j] in t && ToFile(rows[j].0, t[rows[j]]).Some? && CutName(rows[j].0) == rows[j].0
    ensures rows[j].0 in WholeFiles(t, date)
    ensures WholeFiles(t, date)[rows[j].0] == ToFile(rows[j].0, t[rows[j]]).value
  {
    hide Le, AsOf, ToFile, CutName;
    assert rows[j] in rows;
    AsOfAt(t, rows[j], date);
    CutFileName(rows[j].0, t[rows[j]]);
  }

  lemma WholeKeys(t: Table, date: string, rows: seq<Key>, n: string)
    requires RestoreRows(rows, t, date)
    requires forall j :: 0 <= j < |rows| ==> rows[j] in t && ToFile(rows[j].0, t[rows[j]]).Some?
    ensures n in WholeFiles(t, date) <==> exists j :: 0 <= j < |rows| && rows[j].0 == n
  {
    hide Le, AsOf, ToFile;
    if n in AsOf(t, date) {
      var k := AsOfKey(t, n, date);
      assert k in rows;
      var j :| 0 <= j < |rows| && rows[j] == k;
    }
    if j :| 0 <= j < |rows| && rows[j].0 == n {
      assert rows[j] in rows;
      AsOfAt(t, rows[j], date);
    }
  }
}
