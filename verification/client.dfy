/** The client's side of a session: printing requests, reading the initial status, the responses and
    the restore stream. */
module Client {
  import opened Text
  import opened Streams
  import opened Wire
  import opened Store
  import opened Actions
  import opened Watcher
  import opened Responses
  import opened Rebuild
  import opened Chunks

  predicate OccursAt(s: string, sub: string, i: int)
  {
    0 <= i <= |s| - |sub| && s[i..i + |sub|] == sub
  }

  /** std::string::find from a position: the first occurrence. */
  function Find(s: string, sub: string, from: nat): (r: Option<nat>)
    ensures r.Some? ==> from <= r.value && OccursAt(s, sub, r.value)
    ensures forall i :: from <= i && OccursAt(s, sub, i) ==> r.Some? && r.value <= i
    decreases |s| - from
  {
    if from + |sub| > |s| then None
    else if s[from..from + |sub|] == sub then Some(from)
    else Find(s, sub, from + 1)
  }

  /** The path with the first occurrence of main_path taken out; None stands for the exception thrown
      when there is none. */
  function CleanPath(main: string, p: string): (c: Option<string>)
    ensures main <= p ==> c == Some(p[|main|..])
    ensures c.None? <==> forall i :: !OccursAt(p, main, i)
    ensures c.Some? ==>
              exists i :: OccursAt(p, main, i) && c.value == p[..i] + p[i + |main|..] && forall j :: j < i ==> !OccursAt(p, main, j)
  {
    assert main <= p ==> OccursAt(p, main, 0) && p[..0] + p[0 + |main|..] == p[|main|..];
    match Find(p, main, 0)
    case Some(pos) =>
      assert OccursAt(p, main, pos) && forall j :: j < pos ==> !OccursAt(p, main, j);
      Some(p[..pos] + p[pos + |main|..])
    case None =>
      assert forall i :: !OccursAt(p, main, i);
      None
  }

  /** The header of an action; mt and pm are the mtime and permissions send_action has obtained. */
  function HeaderFor(cleaned: string, kind: int, index: int, mt: int, pm: int): Header
  {
    if kind == READ_FILE || kind == CREATE_FOLDER then Header(kind, index, cleaned, ToString(mt), ToString(pm))
    else Header(kind, index, cleaned, " ", " ")
  }

  predicate TooBig(t: Tree, a: Action)
  {
    a.Change? && a.kind == READ_FILE && a.path in t && t[a.path].Plain? && |t[a.path].content| > MAX_FILE_SIZE
  }

  /** The request that carries an action to the server; a restore's date follows later. None for an ignored
      action, an oversized file, a file that is gone and a path that is not below the watched folder. */
  function RequestFor(main: string, t: Tree, a: Action, i: int, mt: int, pm: int): Option<Request>
  {
    match a
    case Change(p, _, k) =>
      if k == IGNORE || TooBig(t, a) || (k == READ_FILE && !(p in t && t[p].Plain?)) then None
      else
        (match CleanPath(main, p)
         case Some(cleaned) => Some(Request(HeaderFor(cleaned, k, i, mt, pm), if k == READ_FILE then t[p].content else ""))
         case None => None)
    case Restoration(d, _) => Some(Request(HeaderFor(" ", RESTORE, i, mt, pm), d))
    case Blank => None
  }

  /** No file of at most 512 MB and one byte is turned down, and no larger one is accepted. */
  lemma AllowedSizes(main: string, t: Tree, p: string, st: FileStatus, i: int, mt: int, pm: int)
    requires p in t && t[p].Plain? && main <= p
    ensures RequestFor(main, t, Change(p, st, READ_FILE), i, mt, pm).Some? <==> |t[p].content| <= 512 * 1024 * 1024 + 1
    ensures TooBig(t, Change(p, st, READ_FILE)) <==> |t[p].content| > 512 * 1024 * 1024 + 1
  {
    hide CleanPath;
  }

  /** The bytes of a change's request are read by the server as this change: its kind, the pending action's
      index, the path below the watched folder, time and permissions of what was created or changed (blanks for a
      deletion), and the bytes of the file. */
  lemma ChangeArrives(main: string, t: Tree, a: Action, i: int, mt: int, pm: int, s: Stream, k: string)
    requires a.Change? && a.kind in {READ_FILE, CREATE_FOLDER, DELETE_PATH} && main <= a.path && NameOk(a.path[|main|..])
    requires a.kind == READ_FILE ==> a.path in t && t[a.path].Plain? && |t[a.path].content| <= 512 * 1024 * 1024 + 1
    requires 0 <= i <= INT_MAX && 0 <= mt <= INT_MAX && 0 <= pm <= INT_MAX && Boundary(s)
    ensures RequestFor(main, t, a, i, mt, pm).Some?
    ensures s.net == EncRequest(RequestFor(main, t, a, i, mt, pm).value) + k ==>
              && DecRequest(s).Got? && DecRequest(s).next.net == k
              && DecRequest(s).value.head.kind == a.kind && DecRequest(s).value.head.index == i
              && DecRequest(s).value.head.path == a.path[|main|..]
              && (a.kind == DELETE_PATH ==> DecRequest(s).value.head.mtime == " " && DecRequest(s).value.head.perms == " ")
              && (a.kind != DELETE_PATH ==>
                    Stoi(DecRequest(s).value.head.mtime) == Some(mt) && Stoi(DecRequest(s).value.head.perms) == Some(pm))
              && (a.kind == READ_FILE ==> DecRequest(s).value.tail == t[a.path].content)
  {
    hide CleanPath, ToString, Stoi, EncRequest, DecRequest;
    StoiToString(mt);
    StoiToString(pm);
    ToStringIsWord(mt);
    ToStringIsWord(pm);
    var r := RequestFor(main, t, a, i, mt, pm).value;
    if s.net == EncRequest(r) + k { RequestRoundTrip(s, r, k); }
  }

  /** The bytes of a restore's request, of which the date follows later, are read as this restore. */
  lemma RestorationArrives(main: string, t: Tree, a: Action, i: int, mt: int, pm: int, s: Stream, k: string)
    requires a.Restoration? && TailOk(RESTORE, a.date) && 0 <= i <= INT_MAX && Boundary(s)
    ensures RequestFor(main, t, a, i, mt, pm).Some?
    ensures s.net == EncRequest(RequestFor(main, t, a, i, mt, pm).value) + k ==>
              DecRequest(s) == Got(Request(Header(RESTORE, i, " ", " ", " "), a.date), Stream(k, "\n", false, false))
  {
    hide EncRequest, DecRequest;
    var r := RequestFor(main, t, a, i, mt, pm).value;
    if s.net == EncRequest(r) + k { RequestRoundTrip(s, r, k); }
  }

  /** The names of a listing get the watched folder's path in front. */
  function Prefixed(main: string, m: map<string, string>): (r: map<string, string>)
    ensures forall n :: n in m ==> main + n in r && r[main + n] == m[n]
    ensures forall p :: p in r ==> main <= p && p[|main|..] in m && r[p] == m[p[|main|..]]
  {
    assert forall a: string, b: string :: main + a == main + b ==> a == b by {
      forall a: string, b: string | main + a == main + b ensures a == b {
        assert a == (main + a)[|main|..] && b == (main + b)[|main|..];
      }
    }
    map n | n in m :: main + n := m[n]
  }

  /** The map get_init_file_from_server builds from the pairs it reads: the first insert wins. */
  function InitMap(main: string, ps: seq<(string, string)>): map<string, string>
    decreases ps
  {
    if ps == [] then map[] else
      var m := InitMap(main, ps[..|ps| - 1]);
      var p := main + ps[|ps| - 1].0;
      if p in m then m else m[p := ps[|ps| - 1].1]
  }

  /** Each listed name is in the map, with the hash of its first pair, and nothing else is. */
  lemma {:induction false} InitMapFirst(main: string, ps: seq<(string, string)>, p: string)
    ensures p in InitMap(main, ps) <==> exists j :: 0 <= j < |ps| && main + ps[j].0 == p
    ensures p in InitMap(main, ps) ==>
              exists j :: 0 <= j < |ps| && main + ps[j].0 == p && InitMap(main, ps)[p] == ps[j].1
                          && forall i :: 0 <= i < j ==> main + ps[i].0 != p
    decreases ps
  {
    if ps != [] {
      var n := |ps| - 1;
      var front := ps[..n];
      InitMapFirst(main, front, p);
      assert forall i :: 0 <= i < n ==> front[i] == ps[i];
      if p in InitMap(main, front) {
        var j :| 0 <= j < n && main + front[j].0 == p && InitMap(main, front)[p] == front[j].1
                 && forall i :: 0 <= i < j ==> main + front[i].0 != p;
        assert main + ps[j].0 == p && forall i :: 0 <= i < j ==> main + ps[i].0 != p;
      } else {
        forall i | 0 <= i < n ensures main + ps[i].0 != p { assert main + front[i].0 != p; }
      }
    }
  }

  lemma {:induction false} InitMapPrefix(main: string, m: map<string, string>, ks: seq<string>)
    requires Sorted(ks) && forall k :: k in ks ==> k in m
    ensures forall k :: k in ks ==> main + k in InitMap(main, Pairs(m, ks)) && InitMap(main, Pairs(m, ks))[main + k] == m[k]
    ensures forall p :: p in InitMap(main, Pairs(m, ks)) ==> main <= p && p[|main|..] in ks
    decreases ks
  {
    hide Le, InitMap;
    if ks == [] {
      InitMapNothing(main);
    } else {
      var n := |ks| - 1;
      InitMapPrefix(main, m, ks[..n]);
      assert Pairs(m, ks) == Pairs(m, ks[..n]) + [(ks[n], m[ks[n]])];
      InitMapSnoc(main, Pairs(m, ks[..n]), (ks[n], m[ks[n]]));
      assert ks == ks[..n] + [ks[n]];
      assert (main + ks[n])[|main|..] == ks[n];
      assert ks[n] !in ks[..n] by { assert forall i :: 0 <= i < n ==> ks[..n][i] == ks[i] != ks[n]; }
    }
  }

  lemma InitMapNothing(main: string)
    ensures InitMap(main, []) == map[]
  {
  }

  /** The initial status arrives whole: the client's map is the server's current view, each name under
      the watched folder's path. */
  lemma InitArrives(main: string, t: Table, s: Stream, k: string)
    requires TableOk(t) && Boundary(s) && s.net == EncInit(InitPairs(t)) + k
    ensures DecInit(s) == Got(InitPairs(t), Stream(k, "\n", false, false))
    ensures InitMap(main, InitPairs(t)) == Prefixed(main, Current(t))
  {
    hide DecInit, EncInit, Le, Current, InitMap, SortedKeys;
    var m := Current(t);
    var ks := SortedKeys(m.Keys);
    InitPairsOk(t);
    InitRoundTrip(s, InitPairs(t), k);
    InitMapPrefix(main, m, ks);
    var a, b := InitMap(main, InitPairs(t)), Prefixed(main, m);
    forall p ensures p in a <==> p in b {
      if p in a { assert p == main + p[|main|..]; }
      if p in b { assert p == main + p[|main|..]; }
    }
    forall p | p in a ensures a[p] == b[p] { assert p == main + p[|main|..]; }
  }

  lemma InitPairsOk(t: Table)
    requires TableOk(t)
    ensures InitOk(InitPairs(t))
  {
    hide Le, Current, SortedKeys, Pairs, TableOk, HashText, Sorted;
    var m := Current(t);
    var ks := SortedKeys(m.Keys);
    var ps := Pairs(m, ks);
    forall i | 0 <= i < |ps|
      ensures ps[i].0 != "" && '\n' !in ps[i].0 && |ps[i].0| < INT_MAX && ps[i].1 != "" && NoSpace(ps[i].1) && |ps[i].1| < INT_MAX
    {
      assert ks[i] in ks && ps[i] == (ks[i], m[ks[i]]);
      CurrentRow(t, ks[i]);
      CurrentTexts(ks[i], m[ks[i]]);
    }
  }

  lemma CurrentTexts(n: string, hash: string)
    requires NameOk(n) && (HashText(hash) || hash == "dir")
    ensures n != "" && '\n' !in n && |n| < INT_MAX && hash != "" && NoSpace(hash) && |hash| < INT_MAX
  {
  }

  lemma CurrentRow(t: Table, n: string)
    requires TableOk(t) && n in Current(t)
    ensures NameOk(n) && (HashText(Current(t)[n]) || Current(t)[n] == "dir")
  {
    hide Le;
    var k :| k in t && Latest(t, k) && t[k].action != DELETE_PATH && k.0 == n && Current(t)[n] == t[k].hash;
  }

  /** How action_restore ends: with a rebuilt tree, not yet, or with an exception. */
  datatype Ending = Rebuilt(tree: Built) | StillWaiting | Failed

  class Client {
    var inp: Stream
    // every byte written to the socket so far
    var out: string
    const main: string
    const responses: ResponseBuffer
    const watcher: FileWatcher

    constructor (s: Stream, main: string)
      ensures inp == s && out == "" && this.main == main
      ensures fresh(responses) && responses.responseMap == map[] && responses.currentIndex == 0
      ensures fresh(watcher) && watcher.paths == map[] && watcher.raised == [] && !watcher.pauseExecution
    {
      inp, out := s, "";
      this.main := main;
      responses := new ResponseBuffer();
      watcher := new FileWatcher();
    }

    /** send_file: the size, then the content in chunks. */
    method SendFile(content: string)
      modifies this`out
      ensures out == old(out) + EncBody(content)
    {
      hide Format, Line;
      LineCat(Format(|content|), "", content);
      assert "" + content == content;
      out := out + Line(Format(|content|), "");
      var written := SendChunks(content);
      out := out + written;
      assert old(out) + Line(Format(|content|), "") + content == old(out) + (Line(Format(|content|), "") + content);
    }

    /** send_action: a change's request is written whole, a restore's up to the date; false stands for the exceptions of std::string::erase, for a path without main_path, and
        of file_size. An ignored action is completed on the spot, an oversized file is marked as failed, and
        neither writes a byte. */
    method SendAction(a: Action, t: Tree, mt: int, pm: int) returns (ok: bool)
      requires a.Change? || a.Restoration?
      modifies this`out, responses
      ensures responses.currentIndex == old(responses.currentIndex) + 1
      ensures var i := old(responses.currentIndex);
              var added := old(responses.responseMap)[i := Pending(a, SENT)];
              match RequestFor(main, t, a, i, mt, pm)
              case Some(r) =>
                && ok && responses.responseMap == added
                && (r.head.kind != RESTORE ==> out == old(out) + EncRequest(r))
                && (r.head.kind == RESTORE ==> out + EncDate(r.tail) == old(out) + EncRequest(r))
              case None =>
                && out == old(out)
                && (ok <==> a.kind == IGNORE || (TooBig(t, a) && CleanPath(main, a.path).Some?))
                && responses.responseMap == (if !ok then added
                                             else Answered(added, i, if a.kind == IGNORE then COMPLETED else ERROR))
    {
      hide EncHeader, EncBody, EncDate, Format, CleanPath;
      var index := responses.Add(a);
      var cleaned := " ";
      var kind := RESTORE;
      if a.Change? {
        if a.kind == IGNORE {
          responses.Completed(index);
          return true;
        }
        var found := CleanPath(main, a.path);
        if found.None? {
          return false;
        }
        cleaned := found.value;
        kind := a.kind;
        if kind == READ_FILE {
          if a.path !in t || t[a.path].Folder? {
            return false;
          }
          if |t[a.path].content| > MAX_FILE_SIZE {
            var failed := responses.SignalError(index);
            return true;
          }
        }
      }
      ghost var r := RequestFor(main, t, a, index, mt, pm).value;
      out := out + EncHeader(HeaderFor(cleaned, kind, index, mt, pm));
      if kind == READ_FILE {
        SendFile(t[a.path].content);
      }
      assert r.head.kind != RESTORE ==> out == old(out) + EncRequest(r);
      assert r.head.kind == RESTORE ==> out + EncDate(r.tail) == old(out) + EncRequest(r);
      return true;
    }

    /** get_init_file_from_server. */
    method GetInit() returns (r: Option<map<string, string>>)
      modifies this`inp
      ensures r.Some? <==> DecInit(old(inp)).Got?
      ensures r.Some? ==> r.value == InitMap(main, DecInit(old(inp)).value) && inp == DecInit(old(inp)).next
    {
      hide ReadNumber, ReadText, ReadWord;
      ghost var all := DecInit(inp);
      ghost var seen: seq<(string, string)> := [];
      var m: map<string, string> := map[];
      InitContinues(all);
      while true
        invariant m == InitMap(main, seen)
        invariant all == Continued(seen, DecInit(inp))
        decreases |inp.net|
      {
        ghost var before := inp;
        var size := ReadNumber(inp, INT_MIN, INT_MAX);
        if !size.Got? { return None; }
        NumberAdvances(inp, INT_MIN, INT_MAX);
        inp := size.next;
        if size.value == 0 {
          assert seen + [] == seen;
          return Some(m);
        }
        var path := ReadText(inp, size.value);
        if !path.Got? { return None; }
        TextShortens(inp, size.value);
        inp := path.next;
        var length := ReadNumber(inp, INT_MIN, INT_MAX);
        if !length.Got? { return None; }
        NumberAdvances(inp, INT_MIN, INT_MAX);
        inp := length.next;
        var hash := ReadWord(inp, length.value);
        if !hash.Got? { return None; }
        WordShortens(inp, length.value);
        inp := hash.next;
        ContinuedStep(seen, before, (path.value, hash.value), inp);
        InitMapSnoc(main, seen, (path.value, hash.value));
        if main + path.value !in m {
          m := m[main + path.value := hash.value];
        }
        seen := seen + [(path.value, hash.value)];
      }
    }

    /** action_restore up to the rebuilt tree: the watcher is paused before the date is sent, entries are read
        and created one by one, and on every ending, also an exception, the watcher goes on. */
    method ActionRestore(date: string) returns (r: Ending)
      modifies this`inp, this`out, watcher`pauseExecution
      ensures out == old(out) + EncDate(date)
      ensures r.Rebuilt? <==> DecData(old(inp)).Got? && Build(DecData(old(inp)).value).Some?
      ensures r.Rebuilt? ==> inp == DecData(old(inp)).next && Build(DecData(old(inp)).value) == Some(r.tree)
      ensures r.StillWaiting? ==> DecData(old(inp)).Blocked?
      ensures watcher.pauseExecution <==> r.StillWaiting?
    {
      hide EncDate, DecData, Build;
      watcher.Pause();
      out := out + EncDate(date);
      r := ReceiveTree();
      if !r.StillWaiting? {
        watcher.Restart();
      }
    }

    /** The loop over the entries. */
    method ReceiveTree() returns (r: Ending)
      modifies this`inp
      ensures r.Rebuilt? <==> DecData(old(inp)).Got? && Build(DecData(old(inp)).value).Some?
      ensures r.Rebuilt? ==> inp == DecData(old(inp)).next && Build(DecData(old(inp)).value) == Some(r.tree)
      ensures r.StillWaiting? ==> DecData(old(inp)).Blocked?
    {
      hide ReadNumber, DecFile, DecFiles, Create, Build;
      var number := ReadNumber(inp, INT_MIN, INT_MAX);
      if !number.Got? { return if number.Blocked? then StillWaiting else Failed; }
      inp := number.next;
      ghost var start := inp;
      ghost var total: nat := if number.value < 0 then 0 else number.value;
      ghost var seen: seq<File> := [];
      var tree: Built := map[];
      BuildNothing();
      var i := 0;
      FilesStart(start, total);
      while i < number.value
        invariant 0 <= i <= total && Build(seen) == Some(tree)
        invariant DecFiles(start, total) == ContinuedFiles(seen, DecFiles(inp, total - i))
      {
        ghost var here := inp;
        var f := DecFile(inp);
        if !f.Got? {
          FilesStop(inp, total - i);
          return if f.Blocked? then StillWaiting else Failed;
        }
        inp := f.next;
        ContinuedFilesStep(seen, here, total - i, f.value, inp);
        var made := Create(tree, f.value);
        BuildSnoc(seen, f.value);
        if made.None? {
          BuildFails(start, total, seen + [f.value], inp, total - i - 1);
          return Failed;
        }
        tree := made.value;
        seen := seen + [f.value];
        i := i + 1;
      }
      FilesEnd(seen, inp);
      return Rebuilt(tree);
    }

    /** One round of the response consumer: an answer to an action, or the start of a restore, which is marked
        received once it has been fetched. None stands for waiting and for the exceptions of a failed read or
        restore. */
    method ReadResponse() returns (status: Option<int>, built: Option<Built>)
      modifies this`inp, this`out, responses`responseMap, watcher`pauseExecution
      ensures !DecResponse(old(inp)).Got? ==>
                status.None? && out == old(out) && responses.responseMap == old(responses.responseMap)
      ensures DecResponse(old(inp)).Got? ==>
                var ((i, st), rest) := (DecResponse(old(inp)).value, DecResponse(old(inp)).next);
                var m := old(responses.responseMap);
                if st == RECEIVED && At(m, i).action.Restoration? then
                  && out == old(out) + EncDate(At(m, i).action.date)
                  && (status.Some? <==> DecData(rest).Got? && Build(DecData(rest).value).Some?)
                  && (status.Some? ==> status == Some(st) && inp == DecData(rest).next && built == Build(DecData(rest).value))
                  && responses.responseMap == (if status.Some? then Answered(m, i, st) else m)
                else
                  && status == Some(st) && inp == rest && built.None? && out == old(out)
                  && responses.responseMap == Answered(m, i, st) && watcher.pauseExecution == old(watcher.pauseExecution)
    {
      hide ReadNumber, DecData, Build, EncDate;
      built := None;
      var first := ReadNumber(inp, INT_MIN, INT_MAX);
      if !first.Got? { return None, None; }
      inp := first.next;
      var index := first.value;
      var second := ReadNumber(inp, INT_MIN, INT_MAX);
      if !second.Got? { return None, None; }
      inp := second.next;
      var st := second.value;
      var a := responses.GetAction(index);
      if a.Some? && a.value.Restoration? && st == RECEIVED {
        var ending := ActionRestore(a.value.date);
        if !ending.Rebuilt? { return None, None; }
        built := Some(ending.tree);
      }
      if st == COMPLETED {
        responses.Completed(index);
      } else if st == RECEIVED {
        responses.Receive(index);
      } else if st == ERROR {
        var failed := responses.SignalError(index);
      }
      status := Some(st);
    }
  }

  // ----- loops over recursive readers -----

  ghost function Continued(seen: seq<(string, string)>, r: Read<seq<(string, string)>>): Read<seq<(string, string)>>
  {
    match r
    case Got(ps, s) => Got(seen + ps, s)
    case Blocked => Blocked
    case Broken => Broken
  }

  lemma InitContinues(r: Read<seq<(string, string)>>)
    ensures r == Continued([], r)
  {
    match r
    case Got(ps, s) => assert [] + ps == ps;
    case _ =>
  }

  lemma ContinuedStep(seen: seq<(string, string)>, s: Stream, p: (string, string), s4: Stream)
    requires DecInit(s) == match DecInit(s4) case Got(ps, e) => Got([p] + ps, e) case Blocked => Blocked case Broken => Broken
    ensures Continued(seen, DecInit(s)) == Continued(seen + [p], DecInit(s4))
  {
    match DecInit(s4)
    case Got(ps, e) => assert seen + ([p] + ps) == (seen + [p]) + ps;
    case _ =>
  }

  lemma InitMapSnoc(main: string, seen: seq<(string, string)>, p: (string, string))
    ensures InitMap(main, seen + [p]) ==
            if main + p.0 in InitMap(main, seen) then InitMap(main, seen) else InitMap(main, seen)[main + p.0 := p.1]
  {
    assert (seen + [p])[..|seen|] == seen;
  }

  lemma NumberAdvances(s: Stream, lo: int, hi: int)
    requires ReadNumber(s, lo, hi).Got?
    ensures |ReadNumber(s, lo, hi).next.net| == |s.net| - 11
  {
  }

  lemma TextShortens(s: Stream, n: int)
    requires ReadText(s, n).Got?
    ensures |ReadText(s, n).next.net| <= |s.net|
  {
  }

  lemma WordShortens(s: Stream, n: int)
    requires ReadWord(s, n).Got?
    ensures |ReadWord(s, n).next.net| <= |s.net|
  {
  }

  ghost function ContinuedFiles(seen: seq<File>, r: Read<seq<File>>): Read<seq<File>>
  {
    match r
    case Got(fs, s) => Got(seen + fs, s)
    case Blocked => Blocked
    case Broken => Broken
  }

  lemma FilesStart(s: Stream, n: nat)
    ensures DecFiles(s, n) == ContinuedFiles([], DecFiles(s, n))
  {
    hide DecFiles;
    match DecFiles(s, n)
    case Got(fs, e) => assert [] + fs == fs;
    case _ =>
  }

  lemma ContinuedFilesStep(seen: seq<File>, s: Stream, n: nat, f: File, next: Stream)
    requires n > 0 && DecFile(s) == Got(f, next)
    ensures ContinuedFiles(seen, DecFiles(s, n)) == ContinuedFiles(seen + [f], DecFiles(next, n - 1))
  {
    hide DecFile;
    match DecFiles(next, n - 1)
    case Got(fs, e) => assert seen + ([f] + fs) == (seen + [f]) + fs;
    case _ =>
  }

  lemma FilesStop(s: Stream, n: nat)
    requires n > 0 && !DecFile(s).Got?
    ensures !DecFiles(s, n).Got? && (DecFile(s).Blocked? ==> DecFiles(s, n).Blocked?)
  {
    hide DecFile;
  }

  lemma FilesEnd(seen: seq<File>, s: Stream)
    ensures ContinuedFiles(seen, DecFiles(s, 0)) == Got(seen, s)
  {
    assert seen + [] == seen;
  }

  lemma BuildNothing()
    ensures Build([]) == Some(map[])
  {
  }

  lemma BuildSnoc(fs: seq<File>, f: File)
    ensures Build(fs + [f]) == match Build(fs) case Some(b) => Create(b, f) case None => None
  {
    assert (fs + [f])[..|fs|] == fs;
  }

  lemma {:induction false} BuildStopped(fs: seq<File>, more: seq<File>)
    requires Build(fs).None?
    ensures Build(fs + more).None?
    decreases more
  {
    hide Create;
    if more == [] {
      assert fs + more == fs;
    } else {
      BuildSnoc(fs, more[0]);
      BuildStopped(fs + [more[0]], more[1..]);
      assert fs + more == fs + [more[0]] + more[1..];
    }
  }

  lemma BuildFails(start: Stream, total: nat, seen: seq<File>, cur: Stream, left: nat)
    requires DecFiles(start, total) == ContinuedFiles(seen, DecFiles(cur, left)) && Build(seen).None?
    ensures !(DecFiles(start, total).Got? && Build(DecFiles(start, total).value).Some?)
  {
    hide DecFiles, Build;
    match DecFiles(cur, left)
    case Got(fs, e) => BuildStopped(seen, fs);
    case _ =>
  }
}
