/** The versioned table: one row per (name, day), the two "latest row per file" queries with the meaning
    SQL gives them, and the log of actions they have to agree with. */
module Store {
  import opened Text
  import opened Wire

  datatype Row = Row(file: string, size: int, action: int, hash: string, mtime: string, perms: string)

  /** Primary key (filename, timestamp). */
  type Key = (string, string)
  type Table = map<Key, Row>

  /** One call of addAction. */
  datatype Entry = Entry(name: string, day: string, row: Row)

  function Upsert(t: Table, e: Entry): Table { t[(e.name, e.day) := e.row] }

  /** The table left by a log of calls, oldest first. */
  function TableOf(log: seq<Entry>): Table
  {
    if log == [] then map[] else Upsert(TableOf(log[..|log| - 1]), log[|log| - 1])
  }

  // ----- the queries -----

  /** timestamp = (SELECT MAX(timestamp) ... WHERE the filename is the same AND timestamp <= date) */
  ghost predicate LatestUpTo(t: Table, k: Key, date: string)
  {
    k in t && Le(k.1, date) &&
    forall j :: j in t && j.0 == k.0 && Le(j.1, date) ==> Le(j.1, k.1)
  }

  /** timestamp = (SELECT MAX(timestamp) ... WHERE the filename is the same) */
  ghost predicate Latest(t: Table, k: Key)
  {
    k in t && forall j :: j in t && j.0 == k.0 ==> Le(j.1, k.1)
  }

  /** The rows getRestoreEntries selects, by file name. */
  ghost function AsOf(t: Table, date: string): map<string, Row>
  {
    LeOrder();
    map k | k in t.Keys && LatestUpTo(t, k, date) && t[k].action != DELETE_PATH :: k.0 := t[k]
  }

  /** The name and hash pairs getInitailizationEntries selects. */
  ghost function Current(t: Table): map<string, string>
  {
    LeOrder();
    map k | k in t.Keys && Latest(t, k) && t[k].action != DELETE_PATH :: k.0 := t[k].hash
  }

  /** The name and hash pairs of a view, in key order. */
  ghost function Pairs(m: map<string, string>, ks: seq<string>): (ps: seq<(string, string)>)
    requires forall k :: k in ks ==> k in m
    ensures |ps| == |ks| && forall i :: 0 <= i < |ks| ==> ps[i] == (ks[i], m[ks[i]])
  {
    seq(|ks|, i requires 0 <= i < |ks| => (ks[i], m[ks[i]]))
  }

  /** The initial status, in the order the server's map keeps it. */
  ghost function InitPairs(t: Table): seq<(string, string)>
  {
    Pairs(Current(t), SortedKeys(Current(t).Keys))
  }

  // ----- the log -----

  /** Running a log on the set of live files. */
  function Play(live: map<string, Row>, e: Entry): map<string, Row>
  {
    if e.row.action == DELETE_PATH then live - {e.name} else live[e.name := e.row]
  }

  function Replay(log: seq<Entry>): map<string, Row>
  {
    if log == [] then map[] else Play(Replay(log[..|log| - 1]), log[|log| - 1])
  }

  /** The entries dated up to a day, in log order. */
  function Cut(log: seq<Entry>, date: string): seq<Entry>
  {
    if log == [] then [] else
      var e := log[|log| - 1];
      Cut(log[..|log| - 1], date) + (if Le(e.day, date) then [e] else [])
  }

  ghost predicate ByDay(log: seq<Entry>)
  {
    forall i, j :: 0 <= i < j < |log| ==> Le(log[i].day, log[j].day)
  }

  /** Puts e behind every entry of the same or an earlier day. */
  function Place(log: seq<Entry>, e: Entry): (r: seq<Entry>)
  {
    if log == [] || Le(log[|log| - 1].day, e.day) then log + [e]
    else Place(log[..|log| - 1], e) + [log[|log| - 1]]
  }

  /** The log stably sorted by day. */
  function StableSort(log: seq<Entry>): seq<Entry>
  {
    if log == [] then [] else Place(StableSort(log[..|log| - 1]), log[|log| - 1])
  }

  /** The entries of one day, in order. */
  function OfDay(log: seq<Entry>, day: string): seq<Entry>
  {
    if log == [] then [] else
      var e := log[|log| - 1];
      OfDay(log[..|log| - 1], day) + (if e.day == day then [e] else [])
  }

  lemma {:induction false} PlaceSorted(log: seq<Entry>, e: Entry)
    requires ByDay(log)
    ensures ByDay(Place(log, e))
    ensures multiset(Place(log, e)) == multiset(log + [e])
    ensures forall x :: x in Place(log, e) <==> x in log || x == e
  {
    hide Le;
    LeOrder();
    if log == [] || Le(log[|log| - 1].day, e.day) {
    } else {
      var n := |log| - 1;
      PlaceSorted(log[..n], e);
      assert log == log[..n] + [log[n]];
      var p := Place(log[..n], e);
      forall i | 0 <= i < |p| ensures Le(p[i].day, log[n].day) {
        assert p[i] in p;
        assert p[i] in log[..n] || p[i] == e;
        LeTotal(log[n].day, e.day);
      }
    }
  }

  lemma OfDaySnoc(log: seq<Entry>, e: Entry, day: string)
    ensures OfDay(log + [e], day) == OfDay(log, day) + (if e.day == day then [e] else [])
  {
    assert (log + [e])[..|log|] == log;
  }

  lemma {:induction false} PlaceOfDay(log: seq<Entry>, e: Entry, day: string)
    requires ByDay(log)
    ensures OfDay(Place(log, e), day) == OfDay(log + [e], day)
  {
    hide Le, OfDay;
    if log == [] || Le(log[|log| - 1].day, e.day) {
    } else {
      var n := |log| - 1;
      var l := log[n];
      PlaceOfDay(log[..n], e, day);
      LeRefl(e.day);
      assert l.day != e.day;
      assert log == log[..n] + [l];
      OfDaySnoc(Place(log[..n], e), l, day);
      OfDaySnoc(log[..n], e, day);
      OfDaySnoc(log[..n], l, day);
      OfDaySnoc(log, e, day);
    }
  }

  /** StableSort is a stable sort: ordered by day, a permutation, and the entries of each day keep
      their order. */
  lemma {:induction false} StableSortCorrect(log: seq<Entry>, day: string)
    ensures ByDay(StableSort(log))
    ensures multiset(StableSort(log)) == multiset(log)
    ensures OfDay(StableSort(log), day) == OfDay(log, day)
    decreases log
  {
    hide *;
    if log == [] {
      SortNothing(day);
    } else {
      var n := |log| - 1;
      StableSortCorrect(log[..n], day);
      SortSnoc(log);
      assert log == log[..n] + [log[n]];
      PlaceCorrect(StableSort(log[..n]), log[..n], log[n], day);
    }
  }

  lemma SortNothing(day: string)
    ensures StableSort([]) == [] && ByDay([])
  {
  }

  /** One more entry, put in its place. */
  lemma PlaceCorrect(s: seq<Entry>, log: seq<Entry>, e: Entry, day: string)
    requires ByDay(s) && multiset(s) == multiset(log) && OfDay(s, day) == OfDay(log, day)
    ensures ByDay(Place(s, e)) && multiset(Place(s, e)) == multiset(log + [e])
    ensures OfDay(Place(s, e), day) == OfDay(log + [e], day)
  {
    hide *;
    PlaceSorted(s, e);
    PlaceOfDay(s, e, day);
    assert multiset(s + [e]) == multiset(s) + multiset([e]) && multiset(log + [e]) == multiset(log) + multiset([e]);
    OfDaySnoc(s, e, day);
    OfDaySnoc(log, e, day);
  }

  lemma SortSnoc(log: seq<Entry>)
    requires log != []
    ensures StableSort(log) == Place(StableSort(log[..|log| - 1]), log[|log| - 1])
  {
    hide Place;
  }

  lemma PlaceLast(log: seq<Entry>, e: Entry)
    requires log == [] || Le(log[|log| - 1].day, e.day)
    ensures Place(log, e) == log + [e]
  {
  }

  lemma ByDayFront(log: seq<Entry>)
    requires ByDay(log) && log != []
    ensures ByDay(log[..|log| - 1])
    ensures |log| > 1 ==> Le(log[|log| - 2].day, log[|log| - 1].day)
  {
    hide Le;
  }

  lemma {:induction false} SortedIsFixed(log: seq<Entry>)
    requires ByDay(log)
    ensures StableSort(log) == log
    decreases log
  {
    if log != [] {
      hide *;
      var n := |log| - 1;
      ByDayFront(log);
      SortedIsFixed(log[..n]);
      SortSnoc(log);
      assert n > 0 ==> log[..n][n - 1] == log[n - 1];
      PlaceLast(log[..n], log[n]);
      assert log == log[..n] + [log[n]];
    }
  }

  // ----- the table forgets the order of different days -----

  lemma TableSnoc(log: seq<Entry>, e: Entry)
    ensures TableOf(log + [e]) == Upsert(TableOf(log), e)
  {
    assert (log + [e])[..|log|] == log;
  }

  lemma {:induction false} PlaceTable(log: seq<Entry>, e: Entry)
    requires ByDay(log)
    ensures TableOf(Place(log, e)) == Upsert(TableOf(log), e)
  {
    hide Le, TableOf;
    if log == [] || Le(log[|log| - 1].day, e.day) {
      TableSnoc(log, e);
    } else {
      var n := |log| - 1;
      PlaceTable(log[..n], e);
      LeRefl(e.day);
      assert (log[n].name, log[n].day) != (e.name, e.day);
      assert log == log[..n] + [log[n]];
      TableSnoc(Place(log[..n], e), log[n]);
      TableSnoc(log[..n], log[n]);
    }
  }

  lemma {:induction false} SortTable(log: seq<Entry>)
    ensures TableOf(StableSort(log)) == TableOf(log)
  {
    if log != [] {
      var n := |log| - 1;
      SortTable(log[..n]);
      StableSortCorrect(log[..n], "");
      PlaceTable(StableSort(log[..n]), log[n]);
    }
  }

  // ----- what one upsert does to the queries -----

  /** Every row of e's file is dated at most e's day. */
  ghost predicate IsNewest(t: Table, e: Entry)
  {
    forall k :: k in t && k.0 == e.name ==> Le(k.1, e.day)
  }

  /** An action dated after D never shows in the view as of D. */
  lemma LaterIsInvisible(t: Table, e: Entry, date: string)
    requires !Le(e.day, date)
    ensures AsOf(Upsert(t, e), date) == AsOf(t, date)
  {
    hide AsOf, Le;
    var u := Upsert(t, e);
    forall k ensures LatestUpTo(u, k, date) <==> LatestUpTo(t, k, date) {
      if LatestUpTo(u, k, date) {
        forall j | j in t && j.0 == k.0 && Le(j.1, date) ensures Le(j.1, k.1) { assert j in u; }
      }
    }
    SameSelection(u, t, date);
  }

  lemma SameSelection(u: Table, t: Table, date: string)
    requires forall k :: LatestUpTo(u, k, date) <==> LatestUpTo(t, k, date)
    requires forall k :: LatestUpTo(t, k, date) ==> k in u && k in t && u[k] == t[k]
    ensures AsOf(u, date) == AsOf(t, date)
  {
    hide Le;
    var a, b := AsOf(u, date), AsOf(t, date);
    LeOrder();
    forall n ensures n in a <==> n in b {
      if n in a {
        var k :| k in u && LatestUpTo(u, k, date) && u[k].action != DELETE_PATH && k.0 == n;
        assert LatestUpTo(t, k, date);
      }
      if n in b {
        var k :| k in t && LatestUpTo(t, k, date) && t[k].action != DELETE_PATH && k.0 == n;
        assert LatestUpTo(u, k, date);
      }
    }
    forall n | n in a && n in b ensures a[n] == b[n] {
      var k :| k in u && LatestUpTo(u, k, date) && u[k].action != DELETE_PATH && k.0 == n && a[n] == u[k];
      assert LatestUpTo(t, k, date);
    }
  }

  lemma AsOfAt(t: Table, k: Key, date: string)
    requires LatestUpTo(t, k, date)
    ensures k.0 in AsOf(t, date) <==> t[k].action != DELETE_PATH
    ensures t[k].action != DELETE_PATH ==> AsOf(t, date)[k.0] == t[k]
  {
    LeOrder();
    var a := AsOf(t, date);
    if k.0 in a {
      var j :| j in t && LatestUpTo(t, j, date) && t[j].action != DELETE_PATH && j.0 == k.0 && a[k.0] == t[j];
      assert Le(j.1, k.1) && Le(k.1, j.1);
      assert j == k;
    }
  }

  lemma AsOfKey(t: Table, n: string, date: string) returns (k: Key)
    requires n in AsOf(t, date)
    ensures k in t && LatestUpTo(t, k, date) && k.0 == n && t[k].action != DELETE_PATH && AsOf(t, date)[n] == t[k]
  {
    k :| k in t && LatestUpTo(t, k, date) && t[k].action != DELETE_PATH && k.0 == n && AsOf(t, date)[n] == t[k];
  }

  /** An action on the newest day of its file, dated up to D, is played on the view as of D. */
  lemma NewestIsPlayed(t: Table, e: Entry, date: string)
    requires Le(e.day, date) && IsNewest(t, e)
    ensures AsOf(Upsert(t, e), date) == Play(AsOf(t, date), e)
  {
    hide Le, AsOf;
    var u, k := Upsert(t, e), (e.name, e.day);
    LeOrder();
    assert LatestUpTo(u, k, date);
    AsOfAt(u, k, date);
    var a, b := AsOf(u, date), Play(AsOf(t, date), e);
    forall n | n != e.name ensures (n in a <==> n in b) && (n in a && n in b ==> a[n] == b[n]) {
      if n in a {
        var j := AsOfKey(u, n, date);
        forall i | i in t && i.0 == j.0 && Le(i.1, date) ensures Le(i.1, j.1) { assert i in u; }
        assert LatestUpTo(t, j, date);
        AsOfAt(t, j, date);
      }
      if n in b {
        var j := AsOfKey(t, n, date);
        assert LatestUpTo(u, j, date);
        AsOfAt(u, j, date);
      }
    }
  }

  // ----- the view as of a date is replay of the log -----

  lemma {:induction false} TableDays(log: seq<Entry>)
    ensures forall k :: k in TableOf(log) ==> exists i :: 0 <= i < |log| && log[i].name == k.0 && log[i].day == k.1 && log[i].row == TableOf(log)[k]
  {
    if log != [] {
      var n := |log| - 1;
      TableDays(log[..n]);
      forall k | k in TableOf(log)
        ensures exists i :: 0 <= i < |log| && log[i].name == k.0 && log[i].day == k.1 && log[i].row == TableOf(log)[k]
      {
        if k == (log[n].name, log[n].day) {
          assert log[n].name == k.0;
        } else {
          var i :| 0 <= i < n && log[..n][i].name == k.0 && log[..n][i].day == k.1 && log[..n][i].row == TableOf(log[..n])[k];
          assert log[i].name == k.0;
        }
      }
    }
  }

  lemma LastIsNewest(log: seq<Entry>)
    requires log != [] && ByDay(log)
    ensures IsNewest(TableOf(log[..|log| - 1]), log[|log| - 1])
  {
    var n := |log| - 1;
    TableDays(log[..n]);
    forall k | k in TableOf(log[..n]) && k.0 == log[n].name ensures Le(k.1, log[n].day) {
      var i :| 0 <= i < n && log[..n][i].name == k.0 && log[..n][i].day == k.1;
      assert Le(log[i].day, log[n].day);
    }
  }

  /** With a clock that does not go backwards, the view as of D is plain replay of the log up to D. */
  lemma {:induction false} SortedLogRefines(log: seq<Entry>, date: string)
    requires ByDay(log)
    ensures AsOf(TableOf(log), date) == Replay(Cut(log, date))
  {
    hide Le;
    if log == [] {
      assert AsOf(TableOf(log), date) == map[];
    } else {
      hide AsOf;
      var n := |log| - 1;
      var e := log[n];
      SortedLogRefines(log[..n], date);
      if Le(e.day, date) {
        LastIsNewest(log);
        NewestIsPlayed(TableOf(log[..n]), e, date);
        assert (Cut(log[..n], date) + [e])[..|Cut(log[..n], date)|] == Cut(log[..n], date);
      } else {
        LaterIsInvisible(TableOf(log[..n]), e, date);
        assert Cut(log, date) == Cut(log[..n], date);
      }
    }
  }

  /** As-of-date refinement, for any log in any day order and any date: the query on the compacted
      table is the replay of the full log, stably sorted by day and cut at the date. */
  lemma AsOfRefinesReplay(log: seq<Entry>, date: string)
    ensures AsOf(TableOf(log), date) == Replay(Cut(StableSort(log), date))
  {
    StableSortCorrect(log, "");
    SortTable(log);
    SortedLogRefines(StableSort(log), date);
  }

  /** History is permanent: actions dated after D, however many and in whatever order, leave the view
      as of D unchanged. */
  lemma {:induction false} HistoryIsPermanent(log: seq<Entry>, more: seq<Entry>, date: string)
    requires forall i :: 0 <= i < |more| ==> !Le(more[i].day, date)
    ensures AsOf(TableOf(log + more), date) == AsOf(TableOf(log), date)
  {
    hide AsOf, Le;
    if more == [] {
      assert log + more == log;
    } else {
      var n := |more| - 1;
      HistoryIsPermanent(log, more[..n], date);
      assert (log + more)[..|log + more| - 1] == log + more[..n];
      LaterIsInvisible(TableOf(log + more[..n]), more[n], date);
    }
  }

  // ----- the initial status is the newest view -----

  function Hashes(m: map<string, Row>): map<string, string> { map n | n in m :: m[n].hash }

  /** getInitailizationEntries is the name and hash projection of getRestoreEntries at any date not
      before the newest row. */
  lemma CurrentIsAsOf(t: Table, date: string)
    requires forall k :: k in t ==> Le(k.1, date)
    ensures Current(t) == Hashes(AsOf(t, date))
  {
    hide Le, AsOf;
    LeOrder();
    assert forall k :: Latest(t, k) <==> LatestUpTo(t, k, date);
    var a, b := Current(t), Hashes(AsOf(t, date));
    forall n ensures n in a <==> n in b {
      if n in a {
        var k :| k in t && Latest(t, k) && t[k].action != DELETE_PATH && k.0 == n;
        AsOfAt(t, k, date);
      }
      if n in b {
        var k := AsOfKey(t, n, date);
        assert Latest(t, k);
      }
    }
    forall n | n in a && n in b ensures a[n] == b[n] {
      var k :| k in t && Latest(t, k) && t[k].action != DELETE_PATH && k.0 == n && a[n] == t[k].hash;
      AsOfAt(t, k, date);
    }
  }

  /** What one action does to the map of current hashes. */
  function PlayHash(live: map<string, string>, e: Entry): map<string, string>
  {
    if e.row.action == DELETE_PATH then live - {e.name} else live[e.name := e.row.hash]
  }

  lemma CurrentPlayed(t: Table, e: Entry)
    requires forall k :: k in t ==> Le(k.1, e.day)
    ensures Current(Upsert(t, e)) == PlayHash(Current(t), e)
  {
    hide Le, AsOf, Current;
    LeRefl(e.day);
    CurrentIsAsOf(t, e.day);
    CurrentIsAsOf(Upsert(t, e), e.day);
    NewestIsPlayed(t, e, e.day);
  }

  // ----- what a reachable row looks like -----

  const MAX_FILE_SIZE := 536870913

  ghost predicate NameOk(n: string)
  {
    n != "" && n[0] == '/' && '\n' !in n && |n| < INT_MAX && Ascii(n)
  }

  ghost predicate Ascii(n: string) { forall i :: 0 <= i < |n| ==> n[i] as int < 128 }

  ghost predicate IntText(t: string) { exists v :: 0 <= v <= INT_MAX && t == ToString(v) }

  /** Hash text as Hash::getHash prints it, so never the word "dir". */
  ghost predicate HashText(h: string)
  {
    h != "" && NoSpace(h) && |h| < INT_MAX && h != "dir"
  }

  ghost predicate RowOk(r: Row)
  {
    && r.action in {READ_FILE, CREATE_FOLDER, DELETE_PATH}
    && r.size == |r.file| && |r.file| <= MAX_FILE_SIZE
    && (r.action == READ_FILE ==> HashText(r.hash))
    && (r.action == CREATE_FOLDER ==> r.hash == "dir" && r.file == "")
    && (r.action != DELETE_PATH ==> IntText(r.mtime) && IntText(r.perms))
  }

  ghost predicate LogOk(log: seq<Entry>) { forall i :: 0 <= i < |log| ==> NameOk(log[i].name) && RowOk(log[i].row) }

  ghost predicate TableOk(t: Table) { forall k :: k in t ==> NameOk(k.0) && RowOk(t[k]) }

  lemma LogTableOk(log: seq<Entry>)
    requires LogOk(log)
    ensures TableOk(TableOf(log))
  {
    TableDays(log);
  }

  // ----- from a selected row to the struct File that travels -----

  predicate Continues(b: char) { 128 <= b as int < 192 }

  function SkipContinuations(n: string): (r: string)
    ensures |r| <= |n|
    ensures n != "" && Continues(n[0]) ==> |r| < |n|
    ensures n == "" || !Continues(n[0]) ==> r == n
  {
    if n != "" && Continues(n[0]) then SkipContinuations(n[1..]) else n
  }

  /** SQLite's length(): a byte from 0xC0 on takes the continuation bytes that follow it into one character;
      any other byte, also a stray continuation byte, is a character of its own. */
  function Characters(n: string): (c: nat)
    ensures c <= |n|
    decreases |n|
  {
    if n == "" then 0
    else 1 + Characters(if n[0] as int >= 192 then SkipContinuations(n[1..]) else n[1..])
  }

  /** Byte i continues a character: only continuation bytes stand between it and a byte from 0xC0 on. */
  ghost predicate Swallowed(n: string, i: nat)
    requires i < |n|
  {
    exists j :: 0 <= j < i && n[j] as int >= 192 && forall k :: j < k <= i ==> Continues(n[k])
  }

  lemma {:induction false} SkipIs(n: string) returns (p: nat)
    ensures p <= |n| && SkipContinuations(n) == n[p..]
    ensures (forall k :: 0 <= k < p ==> Continues(n[k])) && (p < |n| ==> !Continues(n[p]))
  {
    if n != "" && Continues(n[0]) {
      var q := SkipIs(n[1..]);
      p := q + 1;
      assert n[1..][q..] == n[p..];
      forall k | 0 <= k < p ensures Continues(n[k]) { if k > 0 { assert n[k] == n[1..][k - 1]; } }
    } else {
      p := 0;
    }
  }

  lemma {:induction false} SkipLonger(n: string, b: char)
    ensures SkipContinuations(n + [b]) ==
            if SkipContinuations(n) != "" then SkipContinuations(n) + [b] else if Continues(b) then "" else [b]
  {
    if n != "" && Continues(n[0]) {
      assert (n + [b])[1..] == n[1..] + [b];
      SkipLonger(n[1..], b);
    } else if n == "" {
      assert n + [b] == [b] && [b][1..] == "";
    }
  }

  /** A byte put in front, or a character of which nothing continues into the rest, changes nothing for the last byte. */
  lemma SwallowedLater(n: string, p: nat)
    requires 0 < p < |n| && (n[0] as int < 192 || !Continues(n[p])) && forall k :: 1 <= k < p ==> Continues(n[k])
    ensures Swallowed(n, |n| - 1) <==> Swallowed(n[p..], |n| - p - 1)
  {
    hide Continues;
    var m := n[p..];
    assert forall k :: 0 <= k < |m| ==> m[k] == n[k + p];
    if j :| 0 <= j < |m| - 1 && m[j] as int >= 192 && forall k :: j < k <= |m| - 1 ==> Continues(m[k]) {
      forall k | j + p < k <= |n| - 1 ensures Continues(n[k]) { assert n[k] == m[k - p]; }
      assert n[j + p] as int >= 192;
    }
    if j :| 0 <= j < |n| - 1 && n[j] as int >= 192 && forall k :: j < k <= |n| - 1 ==> Continues(n[k]) {
      SwallowerIsLater(n, p, j);
      assert m[j - p] as int >= 192;
      forall k | j - p < k <= |m| - 1 ensures Continues(m[k]) { assert m[k] == n[k + p]; }
    }
  }

  lemma SwallowerIsLater(n: string, p: nat, j: nat)
    requires 0 < p < |n| && (n[0] as int < 192 || !Continues(n[p])) && forall k :: 1 <= k < p ==> Continues(n[k])
    requires j < |n| - 1 && n[j] as int >= 192 && forall k :: j < k <= |n| - 1 ==> Continues(n[k])
    ensures j >= p
  {
  }

  /** The first character of n takes p bytes. */
  lemma FirstCharacter(n: string, b: char) returns (p: nat)
    requires n != ""
    ensures 0 < p <= |n| && (n[0] as int < 192 ==> p == 1) && forall k :: 1 <= k < p ==> Continues(n[k])
    ensures n[0] as int >= 192 && p < |n| ==> !Continues(n[p])
    ensures Characters(n) == 1 + Characters(n[p..])
    ensures n[0] as int < 192 || p < |n| ==> Characters(n + [b]) == 1 + Characters(n[p..] + [b])
    ensures n[0] as int >= 192 && p == |n| ==> Characters(n + [b]) == if Continues(b) then 1 else 2
  {
    var m := n[1..];
    assert (n + [b])[0] == n[0] && (n + [b])[1..] == m + [b];
    if n[0] as int < 192 { return 1; }
    var q := SkipIs(m);
    SkipLonger(m, b);
    p := q + 1;
    assert m[q..] == n[p..] && forall k :: 0 <= k < |m| ==> m[k] == n[k + 1];
    hide SkipContinuations, Continues;
    assert forall k :: 1 <= k < p ==> n[k] == m[k - 1];
    assert Characters([b]) == 1 by { assert [b][1..] == ""; SkipNothing(); }
  }

  lemma SkipNothing()
    ensures SkipContinuations("") == "" && Characters("") == 0
  {
  }

  /** The number of characters is that of the bytes that do not continue one. */
  lemma {:induction false} CharactersExact(n: string, b: char)
    ensures Characters("") == 0
    ensures Characters(n + [b]) == Characters(n) + if Swallowed(n + [b], |n|) then 0 else 1
    decreases |n|
  {
    var all := n + [b];
    if n == "" {
      assert all[1..] == "";
    } else {
      hide *;
      SkipNothing();
      var p := FirstCharacter(n, b);
      assert all[0] == n[0] && forall k :: 0 <= k < |n| ==> all[k] == n[k];
      if p < |n| || n[0] as int < 192 {
        CharactersExact(n[p..], b);
        assert all[p..] == n[p..] + [b];
        SwallowedLater(all, p);
      } else {
        assert n[p..] == "";
        AllSwallowed(n, b);
      }
    }
  }

  lemma AllSwallowed(n: string, b: char)
    requires n != "" && n[0] as int >= 192 && forall k :: 1 <= k < |n| ==> Continues(n[k])
    ensures Swallowed(n + [b], |n|) <==> Continues(b)
  {
    var all := n + [b];
    assert forall k :: 0 <= k < |n| ==> all[k] == n[k];
    assert all[|n|] == b;
    if Continues(b) { assert all[0] as int >= 192 && forall k :: 0 < k <= |n| ==> Continues(all[k]); }
  }

  /** std::string(column_text, length(filename)): cuts a name whose characters are not all one byte. */
  function CutName(n: string): string { n[..Characters(n)] }

  /** No byte from 0xC0 on is directly followed by a continuation byte. */
  ghost predicate OneByte(n: string)
  {
    forall i :: 0 <= i < |n| - 1 ==> !(n[i] as int >= 192 && Continues(n[i + 1]))
  }

  lemma {:induction false} CutNameExact(n: string)
    ensures CutName(n) == n <==> OneByte(n)
    ensures !OneByte(n) ==> |CutName(n)| < |n|
    decreases |n|
  {
    if n != "" {
      var m := n[1..];
      if n[0] as int >= 192 && m != "" && Continues(m[0]) {
        assert n[1] == m[0];
      } else {
        CutNameExact(m);
        assert Characters(n) == 1 + Characters(m);
        assert CutName(m) == m <==> Characters(m) == |m|;
        assert forall i :: 0 <= i < |m| ==> m[i] == n[i + 1];
        assert OneByte(n) <==> OneByte(m) by {
          if OneByte(m) {
            forall i | 0 <= i < |n| - 1 ensures !(n[i] as int >= 192 && Continues(n[i + 1])) {
              if i > 0 { assert !(m[i - 1] as int >= 192 && Continues(m[i])); }
            }
          }
          if OneByte(n) {
            forall i | 0 <= i < |m| - 1 ensures !(m[i] as int >= 192 && Continues(m[i + 1])) {
              assert !(n[i + 1] as int >= 192 && Continues(n[i + 2]));
            }
          }
        }
      }
    }
  }

  /** A name of ASCII characters has one byte for each. */
  lemma AsciiIsOneByte(n: string)
    requires Ascii(n)
    ensures OneByte(n) && CutName(n) == n
  {
    CutNameExact(n);
  }

  /** One row of getRestoreEntries; None stands for the exception std::stoi throws. */
  function ToFile(name: string, r: Row): Option<File>
  {
    match (Stoi(r.mtime), Stoi(r.perms))
    case (Some(m), Some(p)) =>
      if r.hash != "dir" then Some(File(CutName(name), m, p, false, if 0 <= r.size <= |r.file| then r.file[..r.size] else r.file))
      else Some(File(CutName(name), m, p, true, ""))
    case _ => None
  }

  /** A reachable live row converts without exception, is a folder exactly when it was stored as one,
      and keeps name, metadata and content. */
  lemma ReachableRowConverts(name: string, r: Row)
    requires NameOk(name) && RowOk(r) && r.action != DELETE_PATH
    ensures ToFile(name, r).Some?
    ensures var f := ToFile(name, r).value;
            FileOk(f) && f.name == name && (f.isDir <==> r.action == CREATE_FOLDER) && f.content == r.file &&
            ToString(f.mtime) == r.mtime && ToString(f.perms) == r.perms
  {
    AsciiIsOneByte(name);
    var m :| 0 <= m <= INT_MAX && r.mtime == ToString(m);
    var p :| 0 <= p <= INT_MAX && r.perms == ToString(p);
    StoiToString(m);
    StoiToString(p);
    assert r.file[..r.size] == r.file;
  }

  /** The list getRestoreEntries hands to the sender, in map order. */
  ghost function FilesOf(m: map<string, Row>, ks: seq<string>): Option<seq<File>>
    requires forall k :: k in ks ==> k in m
  {
    if ks == [] then Some([]) else
      match (ToFile(ks[0], m[ks[0]]), FilesOf(m, ks[1..]))
      case (Some(f), Some(fs)) => Some([f] + fs)
      case _ => None
  }

  /** result_map: of several files with one name, cut or not, the first is kept. */
  function FirstWins(fs: seq<File>): map<string, File>
    decreases fs
  {
    if fs == [] then map[] else
      var m, f := FirstWins(fs[..|fs| - 1]), fs[|fs| - 1];
      if f.name in m then m else m[f.name := f]
  }

  /** The order in which the map is sent. */
  ghost function InKeyOrder(m: map<string, File>): (fs: seq<File>)
    ensures |fs| == |m|
  {
    var ks := SortedKeys(m.Keys);
    assert |m.Keys| == |m|;
    seq(|ks|, i requires 0 <= i < |ks| => m[ks[i]])
  }

  /** What a restore sends; None stands for the exception std::stoi throws. */
  ghost function RestoreList(t: Table, date: string): Option<seq<File>>
  {
    match FilesOf(AsOf(t, date), SortedKeys(AsOf(t, date).Keys))
    case Some(fs) => Some(InKeyOrder(FirstWins(fs)))
    case None => None
  }

  lemma FirstWinsSnoc(fs: seq<File>, f: File)
    ensures FirstWins(fs + [f]) == if f.name in FirstWins(fs) then FirstWins(fs) else FirstWins(fs)[f.name := f]
  {
    assert (fs + [f])[..|fs|] == fs;
  }

  lemma {:induction false} FirstWinsKeys(fs: seq<File>)
    ensures forall j :: 0 <= j < |fs| ==> fs[j].name in FirstWins(fs)
    ensures forall n :: n in FirstWins(fs) ==> exists j :: IsFirst(fs, n, j) && FirstWins(fs)[n] == fs[j]
    decreases fs
  {
    if fs != [] {
      var n := |fs| - 1;
      var front := fs[..n];
      FirstWinsKeys(front);
      FirstWinsSnoc(front, fs[n]);
      assert fs == front + [fs[n]];
      hide FirstWins, IsFirst;
      forall k | k in FirstWins(fs) ensures exists j :: IsFirst(fs, k, j) && FirstWins(fs)[k] == fs[j] {
        if k in FirstWins(front) {
          var j :| IsFirst(front, k, j) && FirstWins(front)[k] == front[j];
          StillFirst(front, fs[n], k, j);
        } else {
          LastIsFirst(front, fs[n]);
        }
      }
    }
  }

  /** Entry j is the first of its name. */
  ghost predicate IsFirst(fs: seq<File>, n: string, j: int)
  {
    0 <= j < |fs| && fs[j].name == n && forall i :: 0 <= i < j ==> fs[i].name != n
  }

  lemma StillFirst(fs: seq<File>, f: File, n: string, j: int)
    requires IsFirst(fs, n, j)
    ensures IsFirst(fs + [f], n, j) && (fs + [f])[j] == fs[j]
  {
  }

  lemma LastIsFirst(fs: seq<File>, f: File)
    requires forall i :: 0 <= i < |fs| ==> fs[i].name != f.name
    ensures IsFirst(fs + [f], f.name, |fs|)
  {
  }

  /** A list that is in name order already is sent as it is. */
  lemma KeyOrderKeeps(fs: seq<File>)
    requires Sorted(Names(fs))
    ensures InKeyOrder(FirstWins(fs)) == fs
  {
    hide Le, SortedKeys, FirstWins;
    var m := FirstWins(fs);
    var ks := SortedKeys(m.Keys);
    FirstWinsKeys(fs);
    forall n ensures n in Names(fs) <==> n in ks {
      if n in Names(fs) {
        var j :| 0 <= j < |fs| && Names(fs)[j] == n;
        assert fs[j].name in m;
      }
      if n in m {
        var j :| 0 <= j < |fs| && fs[j].name == n;
        assert Names(fs)[j] == n;
      }
    }
    hide Sorted;
    SortedUnique(Names(fs), ks);
    forall i | 0 <= i < |ks| ensures m[ks[i]] == fs[i] { OnlyOne(fs, m, i); }
    assert |ks| == |fs|;
  }

  lemma OnlyOne(fs: seq<File>, m: map<string, File>, i: nat)
    requires Sorted(Names(fs)) && i < |fs| && fs[i].name in m
    requires exists j :: 0 <= j < |fs| && fs[j].name == fs[i].name && m[fs[i].name] == fs[j]
    ensures m[fs[i].name] == fs[i]
  {
    hide Le;
    var j :| 0 <= j < |fs| && fs[j].name == fs[i].name && m[fs[i].name] == fs[j];
    assert Names(fs)[j] == Names(fs)[i];
  }

  /** f is the faithful image of a live row. */
  ghost predicate Pictures(f: File, name: string, r: Row)
  {
    f.name == name && (f.isDir <==> r.action == CREATE_FOLDER) && f.content == r.file &&
    ToString(f.mtime) == r.mtime && ToString(f.perms) == r.perms
  }

  ghost predicate Depicts(fs: seq<File>, m: map<string, Row>)
  {
    && Sorted(Names(fs))
    && (forall n :: n in m <==> n in Names(fs))
    && forall i :: 0 <= i < |fs| ==> fs[i].name in m && Pictures(fs[i], fs[i].name, m[fs[i].name])
  }

  function Names(fs: seq<File>): (ns: seq<string>)
    ensures |ns| == |fs|
    ensures forall i :: 0 <= i < |fs| ==> ns[i] == fs[i].name
  {
    seq(|fs|, i requires 0 <= i < |fs| => fs[i].name)
  }

  lemma {:induction false} FilesOfRows(m: map<string, Row>, ks: seq<string>)
    requires forall k :: k in ks ==> k in m
    requires forall k :: k in m ==> NameOk(k) && RowOk(m[k]) && m[k].action != DELETE_PATH
    ensures FilesOf(m, ks).Some?
    ensures var fs := FilesOf(m, ks).value;
            |fs| == |ks| && forall i :: 0 <= i < |ks| ==> FileOk(fs[i]) && Pictures(fs[i], ks[i], m[ks[i]])
    decreases ks
  {
    hide ToString, NameOk, RowOk, FileOk, ToFile;
    if ks != [] {
      FilesOfRows(m, ks[1..]);
      ReachableRowConverts(ks[0], m[ks[0]]);
    }
  }

  lemma AsOfRows(t: Table, date: string)
    requires TableOk(t)
    ensures forall n :: n in AsOf(t, date) ==> NameOk(n) && RowOk(AsOf(t, date)[n]) && AsOf(t, date)[n].action != DELETE_PATH
  {
    forall n | n in AsOf(t, date) ensures NameOk(n) && RowOk(AsOf(t, date)[n]) && AsOf(t, date)[n].action != DELETE_PATH {
      var k := AsOfKey(t, n, date);
    }
  }

  /** On a reachable table the restore list is produced without exception and is exactly the view as of
      the date, in name order. */
  lemma RestoreListDepicts(t: Table, date: string)
    requires TableOk(t)
    ensures RestoreList(t, date).Some?
    ensures Depicts(RestoreList(t, date).value, AsOf(t, date))
    ensures forall i :: 0 <= i < |RestoreList(t, date).value| ==> FileOk(RestoreList(t, date).value[i])
    ensures |RestoreList(t, date).value| == |AsOf(t, date)|
  {
    hide *;
    var m := AsOf(t, date);
    var ks := SortedKeys(m.Keys);
    AsOfRows(t, date);
    FilesOfRows(m, ks);
    var fs := FilesOf(m, ks).value;
    FilesDepict(m, ks, fs);
    KeyOrderKeeps(fs);
    RestoreListIs(t, date, fs);
  }

  lemma FilesDepict(m: map<string, Row>, ks: seq<string>, fs: seq<File>)
    requires Sorted(ks) && |fs| == |ks| == |m| && forall k :: k in ks <==> k in m
    requires forall i :: 0 <= i < |ks| ==> FileOk(fs[i]) && Pictures(fs[i], ks[i], m[ks[i]])
    ensures Names(fs) == ks && Depicts(fs, m)
  {
    hide Sorted, FileOk, ToString;
    assert Names(fs) == ks;
  }

  lemma RestoreListIs(t: Table, date: string, fs: seq<File>)
    requires FilesOf(AsOf(t, date), SortedKeys(AsOf(t, date).Keys)) == Some(fs) && InKeyOrder(FirstWins(fs)) == fs
    ensures RestoreList(t, date) == Some(fs)
  {
    hide FilesOf, AsOf, SortedKeys, InKeyOrder, FirstWins;
  }
}
