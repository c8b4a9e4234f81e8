/** The login dialogue: the name, a first password from a user the server does not know, then passwords
    until one is right, each answered by a one-digit line. */
module Logins {
  import opened Text
  import opened Streams
  import opened Wire
  import opened Database

  function EncFlag(b: bool): string { if b then "1\n" else "0\n" }

  /** transfer_exactly(2); `>> flag`. */
  function DecFlag(s: Stream): Read<int>
  {
    var (_, s1) :- Transfer(s, 2);
    var (v, s2) := ExtractNumber(s1, INT_MIN, INT_MAX);
    Checked(v, s2)
  }

  function EncCredential(t: string): string { TextLines(t, "") }

  function DecName(s: Stream): Read<string>
  {
    var (n, s1) :- ReadNumber(s, INT_MIN, INT_MAX);
    ReadWord(s1, n)
  }

  function DecPassword(s: Stream): Read<string>
  {
    var (n, s1) :- ReadNumber(s, INT_MIN, INT_MAX);
    ReadText(s1, n)
  }

  lemma PasswordAdvances(s: Stream)
    requires DecPassword(s).Got?
    ensures |DecPassword(s).next.net| < |s.net|
  {
  }

  // ----- the server's side -----

  /** Passwords are read until one is the actual one; the flags are what has been answered. */
  function Check(s: Stream, actual: string): Read<string>
    decreases |s.net|
  {
    var r := DecPassword(s);
    if r.Got? && r.value != actual then
      PasswordAdvances(s);
      var (flags, e) :- Check(r.next, actual);
      Got(EncFlag(false) + flags, e)
    else if r.Got? then Got(EncFlag(true), r.next)
    else r.PropagateFailure()
  }

  /** How a login ends: with a session, or with the exception of a user whose table name is taken. */
  datatype Outcome = Session(name: string, db: Db, written: string) | Refused(name: string)

  function ServerLogin(s: Stream, db: Db): Read<Outcome>
  {
    var (name, s1) :- DecName(s);
    if name in db.users then
      var (flags, s2) :- Check(s1, db.users[name]);
      Got(Session(name, db, EncFlag(true) + flags), s2)
    else
      var (password, s2) :- DecPassword(s1);
      var db2 := ApplyOp(db, Register(name, password));
      if name !in db2.users then Got(Refused(name), s2)
      else
        var (flags, s3) :- Check(s2, password);
        Got(Session(name, db2, EncFlag(false) + flags), s3)
  }

  // ----- what the fields make of a text -----

  /** A name comes back, at a field boundary, exactly when it is one word. */
  lemma NameExact(s: Stream, name: string, k: string)
    requires Boundary(s) && s.net == EncCredential(name) + k && |name| < INT_MAX
    ensures DecName(s) == Got(name, Stream(k, "\n", false, false)) <==> name != "" && NoSpace(name)
    ensures !(name != "" && NoSpace(name)) ==> !DecName(s).Got? || DecName(s).value != name
  {
    hide ReadNumber, Format, Line, ReadWord;
    TextLinesCat(name, "", k);
    assert "" + k == k;
    NumberField(s, |name|, Line(name, k), INT_MIN, INT_MAX);
    var s1 := Stream(Line(name, k), "\n", false, false);
    if name != "" && NoSpace(name) { WordField(s1, name, k); }
    WordsAreWords(s1, |name|);
  }

  lemma WordsAreWords(s: Stream, n: int)
    ensures ReadWord(s, n).Got? ==> ReadWord(s, n).value != "" && NoSpace(ReadWord(s, n).value)
  {
  }

  /** A password comes back, in front of an empty buffer, exactly when it holds no newline. */
  lemma PasswordExact(s: Stream, p: string, k: string)
    requires Boundary(s) && s.net == EncCredential(p) + k && |p| < INT_MAX
    ensures DecPassword(s) == Got(p, Stream(k, "", false, false)) <==> '\n' !in p
  {
    hide ReadNumber, Format, Line, ReadText;
    TextLinesCat(p, "", k);
    assert "" + k == k;
    NumberField(s, |p|, Line(p, k), INT_MIN, INT_MAX);
    var s1 := Stream(Line(p, k), "\n", false, false);
    TextFieldExact(s1, p, k);
    if '\n' !in p { TextField(s1, p, k); }
  }

  // ----- authentication -----

  /** n passwords in a row. */
  function Passwords(s: Stream, n: nat): (r: Read<seq<string>>)
    ensures r.Got? ==> |r.value| == n
    decreases n
  {
    if n == 0 then Got([], s) else
      var (p, s1) :- DecPassword(s);
      var (ps, e) :- Passwords(s1, n - 1);
      Got([p] + ps, e)
  }

  /** Wrong passwords and then the actual one. */
  predicate Decisive(ps: seq<string>, actual: string)
  {
    ps != [] && ps[|ps| - 1] == actual && forall i :: 0 <= i < |ps| - 1 ==> ps[i] != actual
  }

  /** The answers to n wrong passwords and a right one. */
  function Flags(wrong: nat): string
  {
    if wrong == 0 then EncFlag(true) else EncFlag(false) + Flags(wrong - 1)
  }

  lemma FlagsApart(a: string, b: string)
    ensures EncFlag(false) + a != EncFlag(true)
    ensures EncFlag(false) + a == EncFlag(false) + b <==> a == b
  {
    assert (EncFlag(false) + a)[0] == '0';
    assert (EncFlag(false) + a)[2..] == a && (EncFlag(false) + b)[2..] == b;
  }

  lemma DecisiveFront(p: string, ps: seq<string>, actual: string)
    requires ps != []
    ensures Decisive([p] + ps, actual) <==> p != actual && Decisive(ps, actual)
  {
    var all := [p] + ps;
    assert all[|all| - 1] == ps[|ps| - 1];
    assert forall i :: 0 <= i < |ps| ==> all[i + 1] == ps[i];
    if Decisive(all, actual) {
      assert all[0] == p;
      forall i | 0 <= i < |ps| - 1 ensures ps[i] != actual { assert all[i + 1] != actual; }
    }
  }

  /** Only the right password ends the check: whatever bytes arrive, it ends, having answered wrong times
      no and once yes, exactly if the bytes hold that many other passwords and then the actual one. */
  lemma {:induction false} CheckExact(s: Stream, actual: string, wrong: nat, e: Stream)
    ensures Check(s, actual) == Got(Flags(wrong), e) <==>
              Passwords(s, wrong + 1).Got? && Passwords(s, wrong + 1).next == e &&
              Decisive(Passwords(s, wrong + 1).value, actual)
    decreases wrong
  {
    hide DecPassword, EncFlag, Decisive;
    var r := DecPassword(s);
    if r.Got? {
      var rest := Passwords(r.next, wrong);
      if wrong == 0 {
        DecisiveOne(r.value, actual);
      } else if rest.Got? {
        DecisiveFront(r.value, rest.value, actual);
      }
      if r.value != actual {
        var c := Check(r.next, actual);
        if c.Got? { FlagsApart(c.value, if wrong == 0 then "" else Flags(wrong - 1)); }
        if wrong > 0 { CheckExact(r.next, actual, wrong - 1, e); }
      } else if wrong > 0 {
        FlagsApart(Flags(wrong - 1), "");
      }
    }
  }

  lemma DecisiveOne(p: string, actual: string)
    ensures Decisive([p], actual) <==> p == actual
    ensures [p] + [] == [p]
  {
  }

  lemma {:induction false} CheckCounts(s: Stream, actual: string)
    requires Check(s, actual).Got?
    ensures exists wrong: nat :: Check(s, actual).value == Flags(wrong)
    decreases |s.net|
  {
    hide DecPassword;
    var r := DecPassword(s);
    if r.value == actual {
      assert Check(s, actual).value == Flags(0);
    } else {
      PasswordAdvances(s);
      CheckCounts(r.next, actual);
      var wrong: nat :| Check(r.next, actual).value == Flags(wrong);
      assert Check(s, actual).value == Flags(wrong + 1);
    }
  }

  // ----- the whole dialogue -----

  function EncCredentials(ps: seq<string>): string
  {
    if ps == [] then "" else EncCredential(ps[0]) + EncCredentials(ps[1..])
  }

  /** Everything the client sends to log in; first is the password a new user chooses. */
  function EncLogin(name: string, first: Option<string>, tries: seq<string>): string
  {
    EncCredential(name) + ((if first.Some? then EncCredential(first.value) else "") + EncCredentials(tries))
  }

  predicate PasswordOk(p: string) { '\n' !in p && |p| < INT_MAX }

  lemma {:induction false} CheckRoundTrip(s: Stream, ps: seq<string>, actual: string, k: string)
    requires Boundary(s) && s.net == EncCredentials(ps) + k
    requires Decisive(ps, actual) && forall i :: 0 <= i < |ps| ==> PasswordOk(ps[i])
    ensures Check(s, actual) == Got(Flags(|ps| - 1), Stream(k, "", false, false))
    decreases ps
  {
    hide DecPassword, EncCredential, EncFlag;
    var rest := EncCredentials(ps[1..]) + k;
    assert s.net == EncCredential(ps[0]) + rest;
    PasswordExact(s, ps[0], rest);
    if |ps| == 1 {
      assert rest == k;
    } else {
      CheckRoundTrip(Stream(rest, "", false, false), ps[1..], actual, k);
    }
  }

  /** Login: a known user with the stored password, or a new one whose table name is free, gets in however
      many wrong passwords come first; the answers tell whether the name was known and which try was right,
      and the server's stream ends with an empty buffer in front of the first request. A new user is
      registered, and turned away exactly when the table name is taken. */
  lemma LoginRoundTrip(s: Stream, db: Db, name: string, first: string, tries: seq<string>, k: string)
    requires Boundary(s) && name != "" && NoSpace(name) && |name| < INT_MAX && PasswordOk(first)
    requires Decisive(tries, if name in db.users then db.users[name] else first)
    requires forall i :: 0 <= i < |tries| ==> PasswordOk(tries[i])
    requires s.net == EncLogin(name, if name in db.users then None else Some(first), tries) + k
    ensures var known := name in db.users;
            if !known && TableName(name) in db.tables then
              ServerLogin(s, db) == Got(Refused(name), Stream(EncCredentials(tries) + k, "", false, false))
            else
              var db2 := if known then db else Db(db.users[name := first], db.tables[TableName(name) := map[]]);
              ServerLogin(s, db) == Got(Session(name, db2, EncFlag(known) + Flags(|tries| - 1)), Stream(k, "", false, false))
  {
    hide DecName, DecPassword, EncCredential, EncCredentials, Check, EncFlag, Flags, Decisive, TableName;
    var known, rest := name in db.users, EncCredentials(tries) + k;
    var after := if known then rest else EncCredential(first) + rest;
    assert s.net == EncCredential(name) + after by { LoginBytes(name, first, tries, k); }
    NameExact(s, name, after);
    var s1 := Stream(after, "\n", false, false);
    if known {
      CheckRoundTrip(s1, tries, db.users[name], k);
    } else {
      PasswordExact(s1, first, rest);
      CheckRoundTrip(Stream(rest, "", false, false), tries, first, k);
    }
  }

  /** Two sessions: whoever got an account with the password first gets in again with it, after whatever else was
      registered and stored in between. */
  lemma LoginAgain(ops: seq<DbOp>, name: string, first: string, tries: seq<string>, k: string, s: Stream,
                   more: seq<DbOp>, again: seq<string>, k2: string, s2: Stream)
    requires name != "" && NoSpace(name) && |name| < INT_MAX && PasswordOk(first)
    requires name !in RunDb(ops).users && TableName(name) !in RunDb(ops).tables
    requires Decisive(tries, first) && (forall i :: 0 <= i < |tries| ==> PasswordOk(tries[i]))
    requires Boundary(s) && s.net == EncLogin(name, Some(first), tries) + k
    requires Decisive(again, first) && (forall i :: 0 <= i < |again| ==> PasswordOk(again[i]))
    requires Boundary(s2) && s2.net == EncLogin(name, None, again) + k2
    ensures var db := RunDb(ops + [Register(name, first)]);
            ServerLogin(s, RunDb(ops)) == Got(Session(name, db, EncFlag(false) + Flags(|tries| - 1)), Stream(k, "", false, false))
    ensures var db := RunDb(ops + [Register(name, first)] + more);
            ServerLogin(s2, db) == Got(Session(name, db, EncFlag(true) + Flags(|again| - 1)), Stream(k2, "", false, false))
  {
    hide *;
    var one := ops + [Register(name, first)];
    assert one[..|one| - 1] == ops;
    RunStep(one);
    Registers(RunDb(ops), name, first);
    LoginRoundTrip(s, RunDb(ops), name, first, tries, k);
    AccountStays(ops, name, first, more);
    LoginRoundTrip(s2, RunDb(one + more), name, first, again, k2);
  }

  lemma Registers(db: Db, name: string, first: string)
    requires name !in db.users && TableName(name) !in db.tables
    ensures ApplyOp(db, Register(name, first)) == Db(db.users[name := first], db.tables[TableName(name) := map[]])
  {
    hide TableName;
  }

  lemma LoginBytes(name: string, first: string, tries: seq<string>, k: string)
    ensures EncLogin(name, None, tries) + k == EncCredential(name) + (EncCredentials(tries) + k)
    ensures EncLogin(name, Some(first), tries) + k == EncCredential(name) + (EncCredential(first) + (EncCredentials(tries) + k))
  {
    hide EncCredential, EncCredentials;
    assert "" + EncCredentials(tries) == EncCredentials(tries);
  }

  // ----- the client's side -----

  /** The client reads flags until one is not zero: how many were zero. */
  function AwaitYes(s: Stream): Read<nat>
    decreases |s.net|
  {
    var r := DecFlag(s);
    if r.Got? && r.value == 0 then
      FlagAdvances(s);
      var (n, e) :- AwaitYes(r.next);
      Got(n + 1, e)
    else if r.Got? then Got(0, r.next)
    else r.PropagateFailure()
  }

  lemma FlagAdvances(s: Stream)
    requires DecFlag(s).Got?
    ensures |DecFlag(s).next.net| < |s.net|
  {
  }

  lemma FlagRoundTrip(s: Stream, b: bool, k: string)
    requires Boundary(s) && s.net == EncFlag(b) + k
    ensures DecFlag(s) == Got(if b then 1 else 0, Stream(k, "\n", false, false))
  {
    hide ScanInt;
    var f := EncFlag(b);
    assert s.net[..2] == f && s.net[2..] == k;
    var d := f[..1];
    assert f == d + "\n" && AllDigits(d) && Value(d) == (if b then 1 else 0);
    if s.buf == "\n" { assert (s.buf + f)[1..] == f; } else { assert s.buf + f == f; }
    assert SkipSpace(s.buf + f) == f;
    ScanDigits(s.buf + f, d, "\n");
  }

  /** The client understands the answers, and its stream ends with one newline in front of the initial
      status. */
  lemma {:induction false} FlagsRoundTrip(s: Stream, wrong: nat, k: string)
    requires Boundary(s) && s.net == Flags(wrong) + k
    ensures AwaitYes(s) == Got(wrong, Stream(k, "\n", false, false))
    decreases wrong
  {
    hide EncFlag, DecFlag;
    if wrong == 0 {
      FlagRoundTrip(s, true, k);
    } else {
      var rest := Flags(wrong - 1) + k;
      assert s.net == EncFlag(false) + rest;
      FlagRoundTrip(s, false, rest);
      FlagsRoundTrip(Stream(rest, "\n", false, false), wrong - 1, k);
    }
  }
}
