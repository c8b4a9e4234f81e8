/** The server's side of a session: reading a request, carrying it out, answering it. */
module Handler {
  import opened Text
  import opened Streams
  import opened Wire
  import opened Store
  import opened Digests
  import opened Database
  import opened Chunks
  import opened Logins

  /** The server's answer to one request. */
  datatype Answer = Answer(kind: int, index: int, ok: bool, files: seq<File>)

  /** The response written once the header has been read. */
  function Greeting(h: Header): string
  {
    if h.kind == QUIT then EncResponse(0, FINISH) else EncResponse(h.index, RECEIVED)
  }

  /** What is written when the action is over. */
  function Reply(a: Answer): string
  {
    (if a.kind == RESTORE && a.ok then EncData(a.files) else "") +
    EncResponse(a.index, if a.ok then COMPLETED else ERROR)
  }

  predicate IsChange(kind: int) { kind == READ_FILE || kind == CREATE_FOLDER || kind == DELETE_PATH }

  /** The addAction call a request leads to. */
  function EntryFor(dg: Digest, day: string, h: Header, tail: string): Entry
  {
    Entry(h.path, day,
      if h.kind == READ_FILE then Row(tail, |tail|, READ_FILE, FileHash(dg, tail), h.mtime, h.perms)
      else if h.kind == CREATE_FOLDER then Row("", 0, CREATE_FOLDER, "dir", h.mtime, h.perms)
      else Row("", 0, DELETE_PATH, "", h.mtime, h.perms))
  }

  /** Carrying out a request whose tail has been read; engine is whether SQLite accepts the statement.
      An unknown kind is answered with an error. */
  ghost function Execute(dg: Digest, t: Table, day: string, engine: bool, h: Header, tail: string): (Table, Answer)
  {
    if IsChange(h.kind) then
      (if engine then Upsert(t, EntryFor(dg, day, h, tail)) else t, Answer(h.kind, h.index, engine, []))
    else if h.kind == RESTORE then
      match RestoreList(t, tail)
      case Some(fs) => (t, Answer(RESTORE, h.index, true, fs))
      case None => (t, Answer(RESTORE, h.index, false, []))
    else (t, Answer(h.kind, h.index, false, []))
  }

  // ----- a whole server run -----

  /** The day of an action and whether SQLite carries it out. */
  datatype Turn = Turn(day: string, engine: bool)

  datatype Served = Served(table: Table, written: string)

  /** read_action over and over, until a quit header. */
  ghost function Serve(dg: Digest, s: Stream, t: Table, turns: seq<Turn>): Read<Served>
    decreases turns
  {
    var (h, s1) :- DecHeader(s);
    if h.kind == QUIT then Got(Served(t, Greeting(h)), s1)
    else if turns == [] then Blocked
    else
      hide DecHeader, DecTail, Execute, Greeting, Reply;
      var (tail, s2) :- DecTail(s1, h.kind);
      var (t2, a) := Execute(dg, t, turns[0].day, turns[0].engine, h, tail);
      var (rest, s3) :- Serve(dg, s2, t2, turns[1..]);
      Got(Served(rest.table, Greeting(h) + Reply(a) + rest.written), s3)
  }

  /** The entries of the requests the engine accepted, in request order. */
  function Accepted(dg: Digest, rs: seq<Request>, turns: seq<Turn>): seq<Entry>
    requires |rs| == |turns|
    decreases rs
  {
    if rs == [] then [] else
      var n := |rs| - 1;
      Accepted(dg, rs[..n], turns[..n]) +
      (if IsChange(rs[n].head.kind) && turns[n].engine then [EntryFor(dg, turns[n].day, rs[n].head, rs[n].tail)] else [])
  }

  function UpsertAll(t: Table, es: seq<Entry>): Table
    decreases es
  {
    if es == [] then t else UpsertAll(Upsert(t, es[0]), es[1..])
  }

  /** A written response: an index and a status, with the files of a restore in front. */
  datatype Response = Response(files: Option<seq<File>>, index: int, status: int)

  function Written(rs: seq<Response>): string
    decreases rs
  {
    if rs == [] then "" else
      (if rs[0].files.Some? then EncData(rs[0].files.value) else "") + EncResponse(rs[0].index, rs[0].status) +
      Written(rs[1..])
  }

  /** The response discipline: for each request in order received, then exactly one of completed and error: for a
      change completed exactly if the statement was accepted, for an unknown kind error, and the restore data only
      in front of a restore's completed; at the end a single finish. */
  ghost predicate Disciplined(rs: seq<Request>, turns: seq<Turn>, out: seq<Response>)
    requires |rs| == |turns|
    decreases rs
  {
    if rs == [] then out == [Response(None, 0, FINISH)]
    else
      var kind := rs[0].head.kind;
      && |out| >= 2
      && out[0] == Response(None, rs[0].head.index, RECEIVED)
      && out[1].index == rs[0].head.index
      && (IsChange(kind) ==> out[1].status == if turns[0].engine then COMPLETED else ERROR)
      && (kind == RESTORE ==> out[1].status in {COMPLETED, ERROR})
      && (!IsChange(kind) && kind != RESTORE ==> out[1].status == ERROR)
      && (out[1].files.Some? <==> kind == RESTORE && out[1].status == COMPLETED)
      && Disciplined(rs[1..], turns[1..], out[2..])
  }

  function QuitHeader(): Header { Header(QUIT, 0, "0000", "0000", "0000") }

  lemma OneRequest(s: Stream, r: Request, k: string)
    requires Boundary(s) && RequestOk(r) && s.net == EncRequest(r) + k
    ensures DecHeader(s) == Got(r.head, Stream(EncTail(r.head.kind, r.tail) + k, "", false, false))
    ensures DecTail(Stream(EncTail(r.head.kind, r.tail) + k, "", false, false), r.head.kind)
            == Got(r.tail, Stream(k, Residue(r.head.kind), false, false))
  {
    hide DecHeader, DecTail, EncHeader, EncTail, TailOk, Format, ReadNumber;
    var t := EncTail(r.head.kind, r.tail);
    assert s.net == EncHeader(r.head) + (t + k);
    HeaderExact(s, r.head, t + k);
    TailRoundTrip(Stream(t + k, "", false, false), r.head.kind, r.tail, k);
  }

  /** The responses a run of requests leads to, decided without looking at any byte. */
  ghost function Responses(dg: Digest, rs: seq<Request>, t: Table, turns: seq<Turn>): seq<Response>
    requires |rs| == |turns|
    decreases rs
  {
    if rs == [] then [Response(None, 0, FINISH)] else
      var (t2, a) := Execute(dg, t, turns[0].day, turns[0].engine, rs[0].head, rs[0].tail);
      [Response(None, rs[0].head.index, RECEIVED),
       Response(if a.kind == RESTORE && a.ok then Some(a.files) else None, a.index, if a.ok then COMPLETED else ERROR)] +
      Responses(dg, rs[1..], t2, turns[1..])
  }

  lemma ExecuteAnswers(dg: Digest, t: Table, turn: Turn, r: Request)
    ensures var a := Execute(dg, t, turn.day, turn.engine, r.head, r.tail).1;
            && a.kind == r.head.kind && a.index == r.head.index
            && (IsChange(r.head.kind) ==> (a.ok <==> turn.engine))
            && (!IsChange(r.head.kind) && r.head.kind != RESTORE ==> !a.ok)
  {
  }

  lemma {:induction false} ResponsesDisciplined(dg: Digest, rs: seq<Request>, t: Table, turns: seq<Turn>)
    requires |rs| == |turns|
    ensures Disciplined(rs, turns, Responses(dg, rs, t, turns))
    decreases rs
  {
    if rs != [] {
      var t2 := Execute(dg, t, turns[0].day, turns[0].engine, rs[0].head, rs[0].tail).0;
      ResponsesDisciplined(dg, rs[1..], t2, turns[1..]);
      ExecuteAnswers(dg, t, turns[0], rs[0]);
      ResponsesFront(dg, rs, t, turns);
      ReceivedFirst(dg, rs, t, turns);
      hide Execute, Responses;
    }
  }

  lemma ReceivedFirst(dg: Digest, rs: seq<Request>, t: Table, turns: seq<Turn>)
    requires |rs| == |turns| && rs != []
    ensures Responses(dg, rs, t, turns) != [] && Responses(dg, rs, t, turns)[0] == Response(None, rs[0].head.index, RECEIVED)
  {
    hide Execute;
  }

  /** A request as the client makes them. */
  ghost predicate ClientRequest(r: Request)
  {
    ClientHeader(r.head) && (IsChange(r.head.kind) ==> |r.tail| <= MAX_FILE_SIZE)
  }

  /** On a table of well-formed rows, with changes as the client makes them, every restore is completed, and what
      is sent for it is exactly the view, as of its date, of what has been accepted before it. */
  lemma {:induction false} RestoresComplete(dg: Digest, rs: seq<Request>, t: Table, turns: seq<Turn>, i: nat)
    requires |rs| == |turns| && i < |rs| && rs[i].head.kind == RESTORE
    requires Sha256Like(dg) && TableOk(t) && forall k :: 0 <= k < |rs| ==> ClientRequest(rs[k])
    ensures |Responses(dg, rs, t, turns)| > 2 * i + 1
    ensures var answer := Responses(dg, rs, t, turns)[2 * i + 1];
            && answer.status == COMPLETED && answer.index == rs[i].head.index && answer.files.Some?
            && Depicts(answer.files.value, AsOf(UpsertAll(t, Accepted(dg, rs[..i], turns[..i])), rs[i].tail))
    decreases rs
  {
    hide *;
    ResponsesFront(dg, rs, t, turns);
    if i == 0 {
      RestoreAnswered(dg, t, turns[0], rs[0]);
      NothingAccepted(dg, t, rs, turns);
    } else {
      var t2 := Execute(dg, t, turns[0].day, turns[0].engine, rs[0].head, rs[0].tail).0;
      var out := Responses(dg, rs, t, turns);
      TableStaysOk(dg, t, turns[0], rs[0]);
      RestoresComplete(dg, rs[1..], t2, turns[1..], i - 1);
      assert out[2..][2 * (i - 1) + 1] == out[2 * i + 1];
      AcceptedBefore(dg, rs, t, turns, i);
    }
  }

  lemma ResponsesFront(dg: Digest, rs: seq<Request>, t: Table, turns: seq<Turn>)
    requires |rs| == |turns| && rs != []
    ensures var (t2, a) := Execute(dg, t, turns[0].day, turns[0].engine, rs[0].head, rs[0].tail);
            var out := Responses(dg, rs, t, turns);
            && |out| >= 2 && out[2..] == Responses(dg, rs[1..], t2, turns[1..])
            && out[1] == Response(if a.kind == RESTORE && a.ok then Some(a.files) else None, a.index, if a.ok then COMPLETED else ERROR)
  {
    hide Execute;
  }

  lemma RestoreAnswered(dg: Digest, t: Table, turn: Turn, r: Request)
    requires TableOk(t) && r.head.kind == RESTORE
    ensures var a := Execute(dg, t, turn.day, turn.engine, r.head, r.tail).1;
            a.kind == RESTORE && a.ok && a.index == r.head.index && Depicts(a.files, AsOf(t, r.tail))
  {
    hide Depicts, RestoreList, AsOf, TableOk;
    RestoreListDepicts(t, r.tail);
  }

  lemma NothingAccepted(dg: Digest, t: Table, rs: seq<Request>, turns: seq<Turn>)
    requires |rs| == |turns|
    ensures UpsertAll(t, Accepted(dg, rs[..0], turns[..0])) == t
  {
  }

  lemma AcceptedBefore(dg: Digest, rs: seq<Request>, t: Table, turns: seq<Turn>, i: nat)
    requires |rs| == |turns| && 0 < i <= |rs|
    ensures var t2 := Execute(dg, t, turns[0].day, turns[0].engine, rs[0].head, rs[0].tail).0;
            UpsertAll(t, Accepted(dg, rs[..i], turns[..i])) == UpsertAll(t2, Accepted(dg, rs[1..][..i - 1], turns[1..][..i - 1]))
  {
    hide *;
    AcceptedFront(dg, rs[..i], turns[..i]);
    assert rs[..i][..1] == rs[..1] && turns[..i][..1] == turns[..1];
    assert rs[..i][1..] == rs[1..][..i - 1] && turns[..i][1..] == turns[1..][..i - 1];
    FirstAccepted(dg, t, rs, turns);
    UpsertAllCat(t, Accepted(dg, rs[..1], turns[..1]), Accepted(dg, rs[1..][..i - 1], turns[1..][..i - 1]));
  }

  lemma TableStaysOk(dg: Digest, t: Table, turn: Turn, r: Request)
    requires Sha256Like(dg) && TableOk(t) && ClientRequest(r)
    ensures TableOk(Execute(dg, t, turn.day, turn.engine, r.head, r.tail).0)
  {
    hide RestoreList, RowOk, NameOk;
    if IsChange(r.head.kind) {
      EntryOk(dg, turn.day, r);
    }
  }

  lemma EntryOk(dg: Digest, day: string, r: Request)
    requires Sha256Like(dg) && ClientRequest(r) && IsChange(r.head.kind)
    ensures NameOk(EntryFor(dg, day, r.head, r.tail).name) && RowOk(EntryFor(dg, day, r.head, r.tail).row)
  {
    hide RowOk, NameOk;
    ClientRowOk(dg, day, r.head, r.tail);
  }

  lemma {:induction false} UpsertAllCat(t: Table, a: seq<Entry>, b: seq<Entry>)
    ensures UpsertAll(t, a + b) == UpsertAll(UpsertAll(t, a), b)
    decreases a
  {
    if a == [] {
      assert a + b == b;
    } else {
      assert (a + b)[0] == a[0] && (a + b)[1..] == a[1..] + b;
      UpsertAllCat(Upsert(t, a[0]), a[1..], b);
    }
  }

  lemma {:induction false} AcceptedFront(dg: Digest, rs: seq<Request>, turns: seq<Turn>)
    requires |rs| == |turns| && rs != []
    ensures Accepted(dg, rs, turns) ==
            Accepted(dg, rs[..1], turns[..1]) + Accepted(dg, rs[1..], turns[1..])
    decreases rs
  {
    var n := |rs| - 1;
    if n == 0 {
      assert rs[..1] == rs && turns[..1] == turns && rs[1..] == [] && turns[1..] == [];
    } else {
      AcceptedFront(dg, rs[..n], turns[..n]);
      assert rs[..n][..1] == rs[..1] && turns[..n][..1] == turns[..1];
      assert rs[..n][1..] == rs[1..][..n - 1] && turns[..n][1..] == turns[1..][..n - 1];
      assert rs[1..][n - 1] == rs[n] && turns[1..][n - 1] == turns[n];
    }
  }

  /** Server run: on the bytes of any sequence of well-formed requests and a quit, with SQLite failing
      wherever it likes, the handler carries out exactly the accepted requests in order, writes exactly
      the disciplined responses, and stops at a field boundary in front of whatever follows. */
  lemma {:induction false} ServeRun(dg: Digest, s: Stream, t: Table, rs: seq<Request>, turns: seq<Turn>, k: string)
    requires |rs| == |turns| && AllOk(rs) && forall i :: 0 <= i < |rs| ==> rs[i].head.kind != QUIT
    requires Boundary(s) && s.net == EncRequests(rs) + (EncHeader(QuitHeader()) + k)
    ensures Serve(dg, s, t, turns) ==
            Got(Served(UpsertAll(t, Accepted(dg, rs, turns)), Written(Responses(dg, rs, t, turns))),
                Stream(k, "", false, false))
    decreases rs
  {
    hide DecHeader, DecTail, EncRequest, RequestOk, Execute, EncHeader, EncResponse, Serve, Written, Responses, Upsert;
    var quit := EncHeader(QuitHeader()) + k;
    if rs == [] {
      assert s.net == quit;
      ServeQuit(dg, s, t, turns, k);
    } else {
      var r, rest := rs[0], EncRequests(rs[1..]) + quit;
      assert s.net == EncRequest(r) + rest;
      OneRequest(s, r, rest);
      var s1 := Stream(EncTail(r.head.kind, r.tail) + rest, "", false, false);
      var s2 := Stream(rest, Residue(r.head.kind), false, false);
      var (t2, a) := Execute(dg, t, turns[0].day, turns[0].engine, r.head, r.tail);
      ServeRun(dg, s2, t2, rs[1..], turns[1..], k);
      ServeStep(dg, s, t, turns, r.head, s1, r.tail, s2);
      AcceptedFront(dg, rs, turns);
      FirstAccepted(dg, t, rs, turns);
      UpsertAllCat(t, Accepted(dg, rs[..1], turns[..1]), Accepted(dg, rs[1..], turns[1..]));
      WrittenFront(dg, rs, t, turns);
    }
  }

  lemma ServeStep(dg: Digest, s: Stream, t: Table, turns: seq<Turn>, h: Header, s1: Stream, tail: string, s2: Stream)
    requires DecHeader(s) == Got(h, s1) && h.kind != QUIT && DecTail(s1, h.kind) == Got(tail, s2) && turns != []
    requires Serve(dg, s2, Execute(dg, t, turns[0].day, turns[0].engine, h, tail).0, turns[1..]).Got?
    ensures var (t2, a) := Execute(dg, t, turns[0].day, turns[0].engine, h, tail);
            var rest := Serve(dg, s2, t2, turns[1..]);
            Serve(dg, s, t, turns) == Got(Served(rest.value.table, Greeting(h) + Reply(a) + rest.value.written), rest.next)
  {
    hide DecHeader, DecTail, Execute, Greeting, Reply;
  }

  lemma ServeQuit(dg: Digest, s: Stream, t: Table, turns: seq<Turn>, k: string)
    requires Boundary(s) && s.net == EncHeader(QuitHeader()) + k
    ensures Serve(dg, s, t, turns) == Got(Served(t, Written(Responses(dg, [], t, []))), Stream(k, "", false, false))
  {
    hide *;
    QuitRead(s, k);
    ServeAtQuit(dg, s, t, turns);
    WrittenFinish(dg, t);
  }

  lemma ServeAtQuit(dg: Digest, s: Stream, t: Table, turns: seq<Turn>)
    requires DecHeader(s).Got? && DecHeader(s).value == QuitHeader()
    ensures Serve(dg, s, t, turns) == Got(Served(t, Greeting(QuitHeader())), DecHeader(s).next)
  {
    hide DecHeader, DecTail, Greeting, Execute, Reply;
  }

  lemma WrittenFinish(dg: Digest, t: Table)
    ensures Written(Responses(dg, [], t, [])) == Greeting(QuitHeader())
  {
    hide EncResponse, Execute;
    var rs := Responses(dg, [], t, []);
    assert rs == [Response(None, 0, FINISH)] && rs[1..] == [];
    assert "" + EncResponse(0, FINISH) + "" == EncResponse(0, FINISH);
  }

  lemma QuitRead(s: Stream, k: string)
    requires Boundary(s) && s.net == EncHeader(QuitHeader()) + k
    ensures DecHeader(s) == Got(QuitHeader(), Stream(k, "", false, false))
  {
    hide DecHeader, EncHeader;
    HeaderExact(s, QuitHeader(), k);
  }

  lemma FirstAccepted(dg: Digest, t: Table, rs: seq<Request>, turns: seq<Turn>)
    requires |rs| == |turns| && rs != []
    ensures UpsertAll(t, Accepted(dg, rs[..1], turns[..1])) ==
            Execute(dg, t, turns[0].day, turns[0].engine, rs[0].head, rs[0].tail).0
  {
    assert rs[..1][..0] == [] && turns[..1][..0] == [];
    assert Accepted(dg, rs[..1], turns[..1]) ==
           if IsChange(rs[0].head.kind) && turns[0].engine
           then [EntryFor(dg, turns[0].day, rs[0].head, rs[0].tail)] else [];
    hide Upsert;
    var e := EntryFor(dg, turns[0].day, rs[0].head, rs[0].tail);
    assert [e][1..] == [];
    assert UpsertAll(t, [e]) == UpsertAll(Upsert(t, e), []);
  }

  lemma WrittenFront(dg: Digest, rs: seq<Request>, t: Table, turns: seq<Turn>)
    requires |rs| == |turns| && rs != [] && rs[0].head.kind != QUIT
    ensures var (t2, a) := Execute(dg, t, turns[0].day, turns[0].engine, rs[0].head, rs[0].tail);
            Written(Responses(dg, rs, t, turns)) ==
            Greeting(rs[0].head) + Reply(a) + Written(Responses(dg, rs[1..], t2, turns[1..]))
  {
    hide EncResponse, EncData, Execute;
    var (t2, a) := Execute(dg, t, turns[0].day, turns[0].engine, rs[0].head, rs[0].tail);
    var out, rest := Responses(dg, rs, t, turns), Responses(dg, rs[1..], t2, turns[1..]);
    assert out[1..][1..] == rest;
    assert Written(out[1..]) == Reply(a) + Written(rest);
    assert Written(out) == "" + EncResponse(rs[0].head.index, RECEIVED) + Written(out[1..]);
  }

  // ----- rows made from client messages -----

  /** A header as Client::send_action makes it. */
  ghost predicate ClientHeader(h: Header)
  {
    HeaderOk(h) &&
    (IsChange(h.kind) ==> NameOk(h.path)) &&
    (h.kind == READ_FILE || h.kind == CREATE_FOLDER ==> IntText(h.mtime) && IntText(h.perms))
  }

  /** Reachable-row well-formedness: whatever the day, a client's change is stored as a row that is a
      folder exactly when its hash is "dir", with a one-word hash and numeric metadata. */
  lemma ClientRowOk(dg: Digest, day: string, h: Header, tail: string)
    requires Sha256Like(dg) && ClientHeader(h) && IsChange(h.kind) && |tail| <= MAX_FILE_SIZE
    ensures var e := EntryFor(dg, day, h, tail);
            NameOk(e.name) && RowOk(e.row) && e.row.action == h.kind &&
            (e.row.action != DELETE_PATH ==> (e.row.hash == "dir" <==> h.kind == CREATE_FOLDER))
  {
    FileHashText(dg, tail);
  }

  // ----- the handler -----

  lemma SortedSnoc(names: seq<string>, k: string)
    requires Sorted(names) && k !in names && forall n :: n in names ==> Le(n, k)
    ensures Sorted(names + [k])
  {
    hide Le;
    var all := names + [k];
    forall i, j | 0 <= i < j < |all| ensures all[i] != all[j] && Le(all[i], all[j]) {
      assert all[i] == names[i] && names[i] in names;
    }
  }

  lemma EncFilesSnoc(fs: seq<File>, f: File)
    ensures EncFiles(fs + [f]) == EncFiles(fs) + EncFile(f)
    decreases fs
  {
    hide EncFile;
    if fs == [] {
      assert (fs + [f])[1..] == [];
      assert EncFile(f) + "" == EncFile(f);
    } else {
      assert (fs + [f])[0] == fs[0] && (fs + [f])[1..] == fs[1..] + [f];
      EncFilesSnoc(fs[1..], f);
    }
  }

  class ClientHandler {
    var inp: Stream
    // every byte written to the socket so far
    var out: string
    var username: string
    const db: SqliteDatabase
    const dg: Digest

    constructor (s: Stream, db: SqliteDatabase, dg: Digest)
      ensures inp == s && out == "" && username == "" && this.db == db && this.dg == dg
    {
      inp, out, username := s, "", "";
      this.db, this.dg := db, dg;
    }

    predicate LoggedOn()
      reads this, db
    {
      TableName(username) in db.tables
    }

    function Rows(): Table
      reads this, db
      requires LoggedOn()
    {
      db.tables[TableName(username)]
    }

    /** One password of the login dialogue. */
    method ReadPassword() returns (r: Option<string>)
      modifies this`inp
      ensures r.Some? <==> DecPassword(old(inp)).Got?
      ensures r.Some? ==> DecPassword(old(inp)) == Got(r.value, inp)
    {
      hide ReadNumber, ReadText;
      var length := ReadNumber(inp, INT_MIN, INT_MAX);
      if !length.Got? { return None; }
      inp := length.next;
      var t := ReadText(inp, length.value);
      if !t.Got? { return None; }
      inp := t.next;
      return Some(t.value);
    }

    /** The loop of login that asks for the password. */
    method Authenticate(actual: string) returns (ok: bool)
      modifies this`inp, this`out
      ensures ok <==> Check(old(inp), actual).Got?
      ensures ok ==> Check(old(inp), actual).next == inp && out == old(out) + Check(old(inp), actual).value
    {
      hide DecPassword, EncFlag, Check;
      ghost var flags := "";
      var authenticated := false;
      CheckStart(inp, actual);
      while !authenticated
        invariant out == old(out) + flags
        invariant Check(old(inp), actual) == CheckedOn(flags, if authenticated then Got("", inp) else Check(inp, actual))
        decreases !authenticated, |inp.net|
      {
        ghost var here := inp;
        var password := ReadPassword();
        if password.None? { CheckStops(here, actual); return false; }
        PasswordAdvances(here);
        authenticated := password.value == actual;
        out := out + EncFlag(authenticated);
        CheckGoesOn(flags, here, actual);
        flags := flags + EncFlag(authenticated);
      }
      assert flags + "" == flags;
      return true;
    }

    /** login: false stands for the exception of a user whose table name is taken, None for waiting or a
        failed read. */
    method Login() returns (ok: Option<bool>)
      modifies this`inp, this`out, this`username, db
      ensures ok.Some? <==> ServerLogin(old(inp), old(db.State())).Got?
      ensures ok == Some(false) ==>
                ServerLogin(old(inp), old(db.State())) == Got(Refused(username), inp) && db.State() == old(db.State())
      ensures ok == Some(true) ==>
                var o := ServerLogin(old(inp), old(db.State())).value;
                o.Session? && ServerLogin(old(inp), old(db.State())).next == inp &&
                username == o.name && db.State() == o.db && out == old(out) + o.written
    {
      hide ReadNumber, ReadWord, DecPassword, TableName, EncFlag, Check;
      var length := ReadNumber(inp, INT_MIN, INT_MAX);
      if !length.Got? { return None; }
      inp := length.next;
      var name := ReadWord(inp, length.value);
      if !name.Got? { return None; }
      inp := name.next;
      username := name.value;
      var stored := db.PasswordFromUsername(username);
      if stored.Some? {
        out := out + EncFlag(true);
        var known := Authenticate(stored.value);
        return if known then Some(true) else None;
      }
      out := out + EncFlag(false);
      var first := ReadPassword();
      if first.None? { return None; }
      var created := db.CreateNewUser(username, first.value);
      if !created { return Some(false); }
      var authenticated := Authenticate(first.value);
      return if authenticated then Some(true) else None;
    }

    /** send_file_hash: rows is what SQLite returns for the query. */
    method SendFileHash(rows: seq<Key>)
      requires LoggedOn() && InitRows(rows, Rows())
      modifies this`out
      ensures out == old(out) + EncInit(InitPairs(Rows()))
    {
      hide Current, Format, TextLines, Line, Le, InitRows, EncInit, InitLines, InitPairs, Pairs, TableName;
      var m := db.GetInitializationEntries(username, rows);
      RowNames(rows, Rows(), m);
      ghost var ps := SendRows(rows, m);
      ListedPairs(rows, Rows(), ps);
      InitLinesEnd(ps, Line(Format(0), ""));
      out := out + Line(Format(0), "");
      assert out == old(out) + (InitLines(ps, "") + Line(Format(0), ""));
    }

    /** The loop over the initial status, in key order. */
    method SendRows(rows: seq<Key>, m: map<string, string>) returns (ghost ps: seq<(string, string)>)
      requires forall i :: 0 <= i < |rows| ==> rows[i].0 in m
      modifies this`out
      ensures |ps| == |rows| && forall i :: 0 <= i < |rows| ==> ps[i] == (rows[i].0, m[rows[i].0])
      ensures out == old(out) + InitLines(ps, "")
    {
      hide TextLines;
      ps := [];
      for i := 0 to |rows|
        invariant |ps| == i && forall j :: 0 <= j < i ==> ps[j] == (rows[j].0, m[rows[j].0])
        invariant out == old(out) + InitLines(ps, "")
      {
        var name, hash := rows[i].0, m[rows[i].0];
        InitLinesSnoc(ps, (name, hash));
        out := out + TextLines(name, TextLines(hash, ""));
        ps := ps + [(name, hash)];
      }
    }

    method SendResponse(index: int, status: int)
      modifies this`out
      ensures out == old(out) + EncResponse(index, status)
    {
      hide Format, Line;
      ghost var second := Line(Format(status), "");
      LineCat(Format(index), "", second);
      assert "" + second == second;
      out := out + Line(Format(index), "");
      out := out + Line(Format(status), "");
      assert out == old(out) + (Line(Format(index), "") + second);
    }

    /** A length and the text it announces. */
    method ReadLengthAndText() returns (r: Option<string>)
      modifies this`inp
      ensures r.Some? <==> DecText(old(inp)).Got?
      ensures r.Some? ==> DecText(old(inp)) == Got(r.value, inp)
    {
      hide ReadNumber, ReadText;
      var n := ReadNumber(inp, 0, SIZE_MAX);
      if !n.Got? { return None; }
      inp := n.next;
      var t := ReadText(inp, n.value);
      if !t.Got? { return None; }
      inp := t.next;
      return Some(t.value);
    }

    method ReadHeader() returns (r: Option<Header>)
      modifies this`inp
      ensures r.Some? <==> DecHeader(old(inp)).Got?
      ensures r.Some? ==> DecHeader(old(inp)) == Got(r.value, inp)
    {
      hide ReadNumber, DecText;
      var kind := ReadNumber(inp, 0, SIZE_MAX);
      if !kind.Got? { return None; }
      inp := kind.next;
      var index := ReadNumber(inp, INT_MIN, INT_MAX);
      if !index.Got? { return None; }
      inp := index.next;
      var path := ReadLengthAndText();
      if path.None? { return None; }
      var mtime := ReadLengthAndText();
      if mtime.None? { return None; }
      var perms := ReadLengthAndText();
      if perms.None? { return None; }
      return Some(Header(kind.value, index.value, path.value, mtime.value, perms.value));
    }

    /** Reads what follows the header: the file, chunk by chunk, or the restore date. */
    method ReadTail(kind: int) returns (r: Option<string>)
      modifies this`inp
      ensures r.Some? <==> DecTail(old(inp), kind).Got?
      ensures r.Some? ==> DecTail(old(inp), kind) == Got(r.value, inp)
    {
      hide ReadNumber, Skip, ReadBytes, ReadWord;
      if kind == READ_FILE {
        var size := ReadNumber(inp, INT_MIN, INT_MAX);
        if !size.Got? { return None; }
        inp := size.next;
        var skipped := Skip(inp);
        if !skipped.Got? { return None; }
        inp := skipped.next;
        assert inp.Good() by { SkipIsGood(size.next); }
        var file := ReceiveChunks(inp, size.value);
        if !file.Got? { return None; }
        inp := file.next;
        return Some(file.value);
      } else if kind == RESTORE {
        var length := ReadNumber(inp, INT_MIN, INT_MAX);
        if !length.Got? { return None; }
        inp := length.next;
        var date := ReadWord(inp, length.value);
        if !date.Got? { return None; }
        inp := date.next;
        return Some(date.value);
      }
      return Some("");
    }

    /** Sends the view as of the date; rows is what SQLite returns for its query. False stands for the
        exception of a row whose metadata is no number: nothing has been written then. */
    method ActionRestore(index: int, date: string, rows: seq<Key>) returns (ok: bool)
      requires LoggedOn() && RestoreRows(rows, Rows(), date)
      modifies this`out
      ensures ok <==> RestoreList(Rows(), date).Some?
      ensures ok ==> out == old(out) + Reply(Answer(RESTORE, index, true, RestoreList(Rows(), date).value))
      ensures !ok ==> out == old(out)
    {
      hide Le, AsOf, ToFile, RestoreRows, EncFile, EncFiles, EncResponse, WholeFiles, OneByte, Reply, Line, Format, FilesOf, FirstWins, InKeyOrder, SortedKeys;
      ghost var before := out;
      var m := db.GetRestoreEntries(username, date, rows);
      if m.None? {
        return false;
      }
      out := out + Line(Format(|m.value|), "");
      SendEntries(m.value);
      SendResponse(index, COMPLETED);
      DataLines(before, InKeyOrder(m.value), index);
      return true;
    }

    /** The loop over the restore map, in key order. */
    method SendEntries(m: map<string, File>)
      modifies this`out
      ensures out == old(out) + EncFiles(InKeyOrder(m))
    {
      hide EncFile, Le, SortedKeys;
      var keys := m.Keys;
      ghost var names: seq<string>, fs: seq<File> := [], [];
      while keys != {}
        invariant keys <= m.Keys && |names| == |fs| && Sorted(names)
        invariant forall n :: n in names <==> n in m && n !in keys
        invariant forall i :: 0 <= i < |names| ==> fs[i] == m[names[i]]
        invariant forall n, k :: n in names && k in keys ==> Le(n, k)
        invariant out == old(out) + EncFiles(fs)
        decreases keys
      {
        ghost var least := LeastExists(keys);
        var k :| k in keys && forall j :: j in keys ==> Le(k, j);
        EncFilesSnoc(fs, m[k]);
        out := out + EncFile(m[k]);
        SortedSnoc(names, k);
        names, fs, keys := names + [k], fs + [m[k]], keys - {k};
      }
      SortedUnique(names, SortedKeys(m.Keys));
      assert fs == InKeyOrder(m);
    }

    /** read_action: one request from header to answer. more is false after quit; None means that the
        bytes it waits for are not all there. A failing addAction is answered only after the file's
        bytes have been consumed, so the input is at the next frame whichever way it goes. */
    method ReadAction(day: string, engine: bool, rows: string -> seq<Key>) returns (more: Option<bool>)
      requires LoggedOn() && forall d :: RestoreRows(rows(d), Rows(), d)
      modifies this`inp, this`out, db
      ensures LoggedOn()
      ensures !DecHeader(old(inp)).Got? ==> more.None? && out == old(out) && Rows() == old(Rows())
      ensures DecHeader(old(inp)).Got? ==>
                var h, s1 := DecHeader(old(inp)).value, DecHeader(old(inp)).next;
                if h.kind == QUIT then more == Some(false) && inp == s1 && out == old(out) + Greeting(h) && Rows() == old(Rows())
                else if !DecTail(s1, h.kind).Got? then more.None? && out == old(out) + Greeting(h) && Rows() == old(Rows())
                else
                  var tail, s2 := DecTail(s1, h.kind).value, DecTail(s1, h.kind).next;
                  var (t2, a) := Execute(dg, old(Rows()), day, engine, h, tail);
                  more == Some(true) && inp == s2 && Rows() == t2 && out == old(out) + Greeting(h) + Reply(a)
    {
      hide DecHeader, DecTail, RestoreList, TableOk, EncResponse, RestoreRows, TableName;
      var header := ReadHeader();
      if header.None? { return None; }
      var h := header.value;
      if h.kind == QUIT {
        SendResponse(0, FINISH);
        return Some(false);
      }
      SendResponse(h.index, RECEIVED);
      var tail := ReadTail(h.kind);
      if tail.None? { return None; }
      ghost var greeted := out;
      if h.kind == RESTORE {
        var ok := ActionRestore(h.index, tail.value, rows(tail.value));
        if !ok {
          SendResponse(h.index, ERROR);
          assert "" + EncResponse(h.index, ERROR) == EncResponse(h.index, ERROR);
        }
      } else if IsChange(h.kind) {
        var hash := "";
        if h.kind == READ_FILE {
          var digest := new Hash.FromBlob(tail.value, dg);
          hash := digest.GetHash();
        } else if h.kind == CREATE_FOLDER {
          hash := "dir";
        }
        var file := if h.kind == READ_FILE then tail.value else "";
        var ok := db.AddAction(username, h.path, day, Row(file, |file|, h.kind, hash, h.mtime, h.perms), engine);
        SendResponse(h.index, if ok then COMPLETED else ERROR);
        assert "" + EncResponse(h.index, if ok then COMPLETED else ERROR) == EncResponse(h.index, if ok then COMPLETED else ERROR);
      } else {
        SendResponse(h.index, ERROR);
        assert "" + EncResponse(h.index, ERROR) == EncResponse(h.index, ERROR);
      }
      return Some(true);
    }
  }

  // ----- the initial status -----

  function InitLines(ps: seq<(string, string)>, k: string): string
  {
    if ps == [] then k else TextLines(ps[0].0, TextLines(ps[0].1, InitLines(ps[1..], k)))
  }

  lemma {:induction false} InitLinesEnd(ps: seq<(string, string)>, k: string)
    ensures InitLines(ps, "") + k == InitLines(ps, k)
    ensures InitLines(ps, Line(Format(0), "")) == EncInit(ps)
    decreases ps
  {
    hide TextLines, Format, Line;
    if ps == [] {
      assert "" + k == k;
    } else {
      InitLinesEnd(ps[1..], k);
      TextLinesCat(ps[0].1, InitLines(ps[1..], ""), k);
      TextLinesCat(ps[0].0, TextLines(ps[0].1, InitLines(ps[1..], "")), k);
    }
  }

  lemma {:induction false} InitLinesSnoc(ps: seq<(string, string)>, p: (string, string))
    ensures InitLines(ps + [p], "") == InitLines(ps, "") + TextLines(p.0, TextLines(p.1, ""))
    decreases ps
  {
    hide TextLines;
    var k := TextLines(p.0, TextLines(p.1, ""));
    if ps == [] {
      assert (ps + [p])[1..] == [];
      assert "" + k == k;
    } else {
      assert (ps + [p])[0] == ps[0] && (ps + [p])[1..] == ps[1..] + [p];
      InitLinesSnoc(ps[1..], p);
      TextLinesCat(ps[0].1, InitLines(ps[1..], ""), k);
      TextLinesCat(ps[0].0, TextLines(ps[0].1, InitLines(ps[1..], "")), k);
    }
  }

  lemma RowNames(rows: seq<Key>, t: Table, m: map<string, string>)
    requires InitRows(rows, t) && m == Current(t)
    ensures forall i :: 0 <= i < |rows| ==> rows[i].0 in m
    ensures forall n :: n in m ==> exists i :: 0 <= i < |rows| && rows[i].0 == n
  {
    hide Le, Latest;
    forall i | 0 <= i < |rows| ensures rows[i].0 in m {
      assert rows[i] in rows;
    }
    forall n | n in m ensures exists i :: 0 <= i < |rows| && rows[i].0 == n {
      var k :| k in t && Latest(t, k) && t[k].action != DELETE_PATH && k.0 == n;
      assert k in rows;
    }
  }

  /** The rows in the order of the query are the initial status in key order. */
  lemma ListedPairs(rows: seq<Key>, t: Table, ps: seq<(string, string)>)
    requires InitRows(rows, t) && |ps| == |rows|
    requires forall i :: 0 <= i < |rows| ==> rows[i].0 in Current(t) && ps[i] == (rows[i].0, Current(t)[rows[i].0])
    ensures ps == InitPairs(t)
  {
    hide Le, Current, Latest, InitRows, Sorted, SortedKeys;
    var m := Current(t);
    RowNames(rows, t, m);
    var names := NamesOf(rows);
    NamesSorted(rows, t, names);
    NamesAre(rows, m, names);
    SortedUnique(names, SortedKeys(m.Keys));
    SamePairs(m, names, ps);
  }

  lemma SamePairs(m: map<string, string>, names: seq<string>, ps: seq<(string, string)>)
    requires |ps| == |names| && forall i :: 0 <= i < |names| ==> names[i] in m && ps[i] == (names[i], m[names[i]])
    ensures ps == Pairs(m, names)
  {
  }

  lemma NamesSorted(rows: seq<Key>, t: Table, names: seq<string>)
    requires InitRows(rows, t)
    requires |names| == |rows| && forall i :: 0 <= i < |rows| ==> names[i] == rows[i].0
    ensures Sorted(names)
  {
    hide Le, Latest;
  }

  lemma NamesAre(rows: seq<Key>, m: map<string, string>, names: seq<string>)
    requires |names| == |rows| && forall i :: 0 <= i < |rows| ==> names[i] == rows[i].0
    requires forall i :: 0 <= i < |rows| ==> rows[i].0 in m
    requires forall n :: n in m ==> exists i :: 0 <= i < |rows| && rows[i].0 == n
    ensures forall n :: n in names <==> n in m
  {
    forall n | n in m ensures n in names {
      var i :| 0 <= i < |rows| && rows[i].0 == n;
      assert names[i] == n;
    }
  }

  // ----- the login loop -----

  ghost function CheckedOn(flags: string, r: Read<string>): Read<string>
  {
    match r
    case Got(more, e) => Got(flags + more, e)
    case Blocked => Blocked
    case Broken => Broken
  }

  lemma CheckStart(s: Stream, actual: string)
    ensures Check(s, actual) == CheckedOn("", Check(s, actual))
  {
    match Check(s, actual)
    case Got(more, e) => assert "" + more == more;
    case _ =>
  }

  lemma CheckStops(s: Stream, actual: string)
    requires !DecPassword(s).Got?
    ensures !Check(s, actual).Got?
  {
  }

  lemma CheckGoesOn(flags: string, s: Stream, actual: string)
    requires DecPassword(s).Got?
    ensures CheckedOn(flags, Check(s, actual)) ==
              if DecPassword(s).value == actual then CheckedOn(flags + EncFlag(true), Got("", DecPassword(s).next))
              else CheckedOn(flags + EncFlag(false), Check(DecPassword(s).next, actual))
  {
    hide DecPassword, EncFlag;
    var next := DecPassword(s).next;
    if DecPassword(s).value == actual {
      assert flags + EncFlag(true) == flags + EncFlag(true) + "";
    } else {
      match Check(next, actual)
      case Got(more, e) => assert flags + (EncFlag(false) + more) == flags + EncFlag(false) + more;
      case _ =>
    }
  }

  lemma Regroup(a: string, b: string, c: string, d: string)
    ensures a + b + c + d == a + ((b + c) + d)
  {
  }

  lemma DataLines(before: string, fs: seq<File>, index: int)
    ensures before + Line(Format(|fs|), "") + EncFiles(fs) + EncResponse(index, COMPLETED)
            == before + Reply(Answer(RESTORE, index, true, fs))
  {
    hide EncResponse, Format, EncFiles, Line;
    LineCat(Format(|fs|), "", EncFiles(fs));
    assert "" + EncFiles(fs) == EncFiles(fs);
    Regroup(before, Line(Format(|fs|), ""), EncFiles(fs), EncResponse(index, COMPLETED));
  }

  lemma SkipIsGood(s: Stream)
    requires Skip(s).Got?
    ensures Skip(s).next.Good()
  {
  }
}
