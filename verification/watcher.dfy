/** The watched folder, the two diffs of the file watcher, and what their events do to the server's
    view once they have been turned into actions. */
module Watcher {
  import opened Text
  import opened Wire
  import opened Digests
  import opened Actions

  datatype Node = Folder(mtime: int) | Plain(mtime: int, content: string)

  /** Everything below the watched folder, by full path. */
  type Tree = map<string, Node>

  datatype Event = Event(path: string, status: FileStatus)

  function NodeHash(dg: Digest, n: Node): string { if n.Folder? then "dir" else FileHash(dg, n.content) }

  /** "dir" for folders, the content hash for files. */
  function TreeView(dg: Digest, t: Tree): map<string, string> { map p | p in t :: NodeHash(dg, t[p]) }

  function Mtimes(t: Tree): map<string, int> { map p | p in t :: t[p].mtime }

  predicate IsFolder(t: Tree, p: string) { p in t && t[p].Folder? }

  // ----- effects of actions on a view -----

  datatype Op = Set(path: string, hash: string) | Del(path: string) | Nop

  function Apply(v: map<string, string>, op: Op): map<string, string>
  {
    match op
    case Set(p, h) => v[p := h]
    case Del(p) => v - {p}
    case Nop => v
  }

  function ApplyAll(v: map<string, string>, ops: seq<Op>): map<string, string>
    decreases ops
  {
    if ops == [] then v else ApplyAll(Apply(v, ops[0]), ops[1..])
  }

  /** What an action does to the server's view if it is carried out on the given tree. */
  function ActionOp(dg: Digest, t: Tree, a: Action): Op
  {
    match a
    case Change(p, _, k) =>
      if k == READ_FILE then (if p in t && t[p].Plain? then Set(p, FileHash(dg, t[p].content)) else Nop)
      else if k == CREATE_FOLDER then Set(p, "dir")
      else if k == DELETE_PATH then Del(p)
      else Nop
    case _ => Nop
  }

  /** The callback turns an event into an action when it is raised. */
  function ToAction(t: Tree, e: Event): Action { Classify(e.path, e.status, IsFolder(t, e.path)) }

  function EventOp(dg: Digest, t: Tree, e: Event): Op { ActionOp(dg, t, ToAction(t, e)) }

  function EventOps(dg: Digest, t: Tree, es: seq<Event>): (ops: seq<Op>)
    ensures |ops| == |es|
    ensures forall i :: 0 <= i < |es| ==> ops[i] == EventOp(dg, t, es[i])
  {
    seq(|es|, i requires 0 <= i < |es| => EventOp(dg, t, es[i]))
  }

  lemma {:induction false} ApplyCat(v: map<string, string>, a: seq<Op>, b: seq<Op>)
    ensures ApplyAll(v, a + b) == ApplyAll(ApplyAll(v, a), b)
    decreases a
  {
    if a == [] {
      assert a + b == b;
    } else {
      assert (a + b)[0] == a[0] && (a + b)[1..] == a[1..] + b;
      ApplyCat(Apply(v, a[0]), a[1..], b);
    }
  }

  // ----- diffs -----

  /** e reports one difference between the known paths and the tree. */
  predicate Reports(e: Event, known: set<string>, t: Tree, changed: set<string>)
  {
    match e.status
    case Created => e.path in t && e.path !in known
    case Modified => e.path in t && e.path in known && e.path in changed
    case Erased => e.path in known && e.path !in t
  }

  /** At most one event for each path. */
  ghost predicate OncePerPath(es: seq<Event>)
  {
    forall i, j :: 0 <= i < j < |es| ==> es[i].path != es[j].path
  }

  /** es reports every difference, nothing else, and each path at most once. */
  ghost predicate IsDiff(es: seq<Event>, known: set<string>, t: Tree, changed: set<string>)
  {
    OncePerPath(es) && forall e :: e in es <==> Reports(e, known, t, changed)
  }

  function Lookup(v: map<string, string>, p: string): Option<string> { if p in v then Some(v[p]) else None }

  predicate Touches(op: Op, p: string) { op != Nop && op.path == p }

  lemma {:induction false} Untouched(v: map<string, string>, ops: seq<Op>, p: string)
    requires forall i :: 0 <= i < |ops| ==> !Touches(ops[i], p)
    ensures Lookup(ApplyAll(v, ops), p) == Lookup(v, p)
    decreases ops
  {
    if ops != [] {
      assert !Touches(ops[0], p);
      Untouched(Apply(v, ops[0]), ops[1..], p);
    }
  }

  lemma {:induction false} TouchedOnce(v: map<string, string>, ops: seq<Op>, k: nat, p: string)
    requires k < |ops| && forall i :: 0 <= i < |ops| && i != k ==> !Touches(ops[i], p)
    ensures Lookup(ApplyAll(v, ops), p) == Lookup(Apply(v, ops[k]), p)
    decreases ops
  {
    if k == 0 {
      Untouched(Apply(v, ops[0]), ops[1..], p);
    } else {
      assert !Touches(ops[0], p);
      TouchedOnce(Apply(v, ops[0]), ops[1..], k - 1, p);
    }
  }

  /** The value a path ends with, given the one event that may concern it. */
  lemma DiffAt(dg: Digest, es: seq<Event>, v: map<string, string>, t: Tree, changed: set<string>, p: string)
    requires IsDiff(es, v.Keys, t, changed)
    ensures Lookup(ApplyAll(v, EventOps(dg, t, es)), p) ==
            if p in t && p !in v then Some(NodeHash(dg, t[p]))
            else if p !in t then None
            else if p in changed && t[p].Plain? then Some(NodeHash(dg, t[p]))
            else Some(v[p])
  {
    hide FileHash;
    var ops := EventOps(dg, t, es);
    assert p in t && p !in v ==> Event(p, Created) in es;
    assert p !in t && p in v ==> Event(p, Erased) in es;
    assert p in t && p in v && p in changed ==> Event(p, Modified) in es;
    if k :| 0 <= k < |es| && es[k].path == p {
      assert es[k] in es;
      TouchedOnce(v, ops, k, p);
    } else {
      Untouched(v, ops, p);
    }
  }

  /** The condition under which a diff is enough: what it calls unchanged is unchanged in the view, and
      no folder stands where the view has something else, for a modified folder is ignored. */
  ghost predicate Faithful(dg: Digest, v: map<string, string>, t: Tree, changed: set<string>)
  {
    forall p :: p in v && p in t ==>
      && (p !in changed ==> v[p] == NodeHash(dg, t[p]))
      && (p in changed && t[p].Folder? ==> v[p] == "dir")
  }

  /** Applying the actions of a diff turns the view into the tree's view exactly under that condition. */
  lemma DiffConverges(dg: Digest, es: seq<Event>, v: map<string, string>, t: Tree, changed: set<string>)
    requires IsDiff(es, v.Keys, t, changed)
    ensures ApplyAll(v, EventOps(dg, t, es)) == TreeView(dg, t) <==> Faithful(dg, v, t, changed)
  {
    hide EventOps, IsDiff, FileHash;
    var r, w := ApplyAll(v, EventOps(dg, t, es)), TreeView(dg, t);
    forall p ensures Lookup(r, p) ==
            if p in t && p !in v then Some(NodeHash(dg, t[p]))
            else if p !in t then None
            else if p in changed && t[p].Plain? then Some(NodeHash(dg, t[p]))
            else Some(v[p])
    {
      DiffAt(dg, es, v, t, changed, p);
    }
    if r == w {
      forall p | p in v && p in t
        ensures (p !in changed ==> v[p] == NodeHash(dg, t[p])) && (p in changed && t[p].Folder? ==> v[p] == "dir")
      {
        assert Lookup(r, p) == Lookup(w, p);
      }
    }
    if Faithful(dg, v, t, changed) {
      forall p ensures Lookup(r, p) == Lookup(w, p) {}
      assert forall p :: p in r <==> Lookup(r, p).Some?;
      assert forall p :: p in w <==> Lookup(w, p).Some?;
      assert forall p :: p in r && p in w ==> Lookup(r, p).value == Lookup(w, p).value;
    }
  }

  /** Paths whose hash on the server differs from the tree's. */
  ghost function HashChanged(dg: Digest, v: map<string, string>, t: Tree): set<string>
  {
    set p | p in v && p in t && v[p] != NodeHash(dg, t[p])
  }

  /** Paths whose mtime differs from the recorded one. */
  ghost function MtimeChanged(index: map<string, int>, t: Tree): set<string>
  {
    set p | p in index && p in t && index[p] != t[p].mtime
  }

  /** Start-up convergence: the start-up diff brings the server to the tree exactly when no path the
      server knows as a file is now a folder. */
  lemma StartUpConverges(dg: Digest, es: seq<Event>, v: map<string, string>, t: Tree)
    requires IsDiff(es, v.Keys, t, HashChanged(dg, v, t))
    ensures ApplyAll(v, EventOps(dg, t, es)) == TreeView(dg, t)
            <==> forall p :: p in v && p in t && t[p].Folder? ==> v[p] == "dir"
  {
    hide EventOps, IsDiff;
    DiffConverges(dg, es, v, t, HashChanged(dg, v, t));
  }

  /** Between two looks an equal mtime means an equal node, and no file becomes a folder. */
  ghost predicate Honest(before: Tree, after: Tree)
  {
    forall p :: p in before && p in after ==>
      && (before[p].mtime == after[p].mtime ==> before[p] == after[p])
      && (before[p].Plain? ==> after[p].Plain?)
  }

  /** Scan convergence: under those two hypotheses a scan's events turn the old tree's view into the
      new one's. */
  lemma ScanConverges(dg: Digest, es: seq<Event>, before: Tree, t: Tree)
    requires IsDiff(es, before.Keys, t, MtimeChanged(Mtimes(before), t)) && Honest(before, t)
    ensures ApplyAll(TreeView(dg, before), EventOps(dg, t, es)) == TreeView(dg, t)
  {
    hide EventOps, IsDiff;
    var v := TreeView(dg, before);
    assert v.Keys == before.Keys;
    DiffConverges(dg, es, v, t, MtimeChanged(Mtimes(before), t));
  }

  /** What is known raises nothing: at start-up a folder that is as the server has it, in a scan one whose paths
      and mtimes are those recorded. */
  lemma NothingToReport(dg: Digest, v: map<string, string>, index: map<string, int>, t: Tree, es: seq<Event>)
    ensures v == TreeView(dg, t) && IsDiff(es, v.Keys, t, HashChanged(dg, v, t)) ==> es == []
    ensures index.Keys == t.Keys && (forall p :: p in t ==> index[p] == t[p].mtime) && IsDiff(es, index.Keys, t, MtimeChanged(index, t)) ==>
              es == []
  {
    hide FileHash, OncePerPath;
    if es != [] {
      assert es[0] in es;
    }
  }

  /** A folder that takes a file's place is missed: the modification is raised, and ignored. */
  lemma FolderForFileIsMissed(dg: Digest, p: string, content: string)
    requires FileHash(dg, content) != "dir"
    ensures var before := map[p := Plain(1, content)];
            var after: Tree := map[p := Folder(2)];
            var es := [Event(p, Modified)];
            IsDiff(es, before.Keys, after, MtimeChanged(Mtimes(before), after)) &&
            ApplyAll(TreeView(dg, before), EventOps(dg, after, es)) != TreeView(dg, after)
  {
    hide FileHash;
    var before := map[p := Plain(1, content)];
    var after: Tree := map[p := Folder(2)];
    var es := [Event(p, Modified)];
    assert es[0] in es;
    assert p in MtimeChanged(Mtimes(before), after);
    DiffAt(dg, es, TreeView(dg, before), after, MtimeChanged(Mtimes(before), after), p);
    assert Lookup(TreeView(dg, after), p) == Some("dir");
  }

  // ----- the watcher -----

  /** An order in which recursive_directory_iterator lists the tree. */
  ghost predicate IsListing(order: seq<string>, t: Tree)
  {
    && (forall p :: p in order <==> p in t)
    && (forall i, j :: 0 <= i < j < |order| ==> order[i] != order[j])
  }

  /** es reports exactly the differences at the paths in done. */
  ghost predicate Reported(es: seq<Event>, done: set<string>, known: set<string>, t: Tree, changed: set<string>)
  {
    OncePerPath(es) && forall e :: e in es <==> e.path in done && Reports(e, known, t, changed)
  }

  lemma ReportOne(es: seq<Event>, done: set<string>, known: set<string>, t: Tree, changed: set<string>,
                  p: string, status: FileStatus)
    requires Reported(es, done, known, t, changed) && p !in done
    requires match status
             case Created => p in t && p !in known
             case Modified => p in t && p in known && p in changed
             case Erased => p in known && p !in t
    ensures Reported(es + [Event(p, status)], done + {p}, known, t, changed)
  {
    var e := Event(p, status);
    forall i | 0 <= i < |es| ensures es[i].path != p { assert es[i] in es; }
    forall x ensures x in es + [e] <==> x.path in done + {p} && Reports(x, known, t, changed) {
      if x.path == p && Reports(x, known, t, changed) { assert x.status == status; }
    }
  }

  lemma ReportNone(es: seq<Event>, done: set<string>, known: set<string>, t: Tree, changed: set<string>, p: string)
    requires Reported(es, done, known, t, changed)
    requires p in t && p in known && p !in changed
    ensures Reported(es, done + {p}, known, t, changed)
  {
  }

  /** One listed entry is dealt with. */
  lemma ReportEntry(es: seq<Event>, done: set<string>, known: set<string>, t: Tree, changed: set<string>, p: string, e: seq<Event>)
    requires Reported(es, done, known, t, changed) && p in t && p !in done
    requires e == if p !in known then [Event(p, Created)] else if p in changed then [Event(p, Modified)] else []
    ensures Reported(es + e, done + {p}, known, t, changed)
  {
    hide Reported, Reports;
    if p !in known {
      ReportOne(es, done, known, t, changed, p, Created);
    } else if p in changed {
      ReportOne(es, done, known, t, changed, p, Modified);
    } else {
      assert es + [] == es;
      ReportNone(es, done, known, t, changed, p);
    }
  }

  class FileWatcher {
    var paths: map<string, int>
    var pauseExecution: bool
    // the events handed to the callback so far
    var raised: seq<Event>

    constructor ()
      ensures paths == map[] && raised == [] && !pauseExecution
    {
      paths, raised, pauseExecution := map[], [], false;
    }

    method Pause()
      modifies this`pauseExecution
      ensures pauseExecution
    {
      pauseExecution := true;
    }

    method Restart()
      modifies this`pauseExecution
      ensures !pauseExecution
    {
      pauseExecution := false;
    }

    method Raise(path: string, status: FileStatus)
      modifies this`raised
      ensures raised == old(raised) + [Event(path, status)]
    {
      raised := raised + [Event(path, status)];
    }

    /** The start-up diff by hash against the server's map. */
    method InitStatus(t: Tree, order: seq<string>, initial: map<string, string>, dg: Digest) returns (ghost es: seq<Event>)
      requires paths == map[] && IsListing(order, t)
      modifies this`paths, this`raised
      ensures paths == Mtimes(t)
      ensures raised == old(raised) + es
      ensures IsDiff(es, initial.Keys, t, HashChanged(dg, initial, t))
    {
      hide FileHash, NodeHash, Reported, Reports;
      var status: map<string, string>;
      status, es := CompareListed(t, order, initial, dg);
      ghost var known, changed := initial.Keys, HashChanged(dg, initial, t);
      hide HashChanged;
      ghost var done := t.Keys;
      while status.Keys != {}
        invariant status.Keys <= known - done
        invariant t.Keys <= done && done + status.Keys == t.Keys + known
        invariant paths == Mtimes(t) && raised == old(raised) + es && Reported(es, done, known, t, changed)
        decreases status.Keys
      {
        var p :| p in status.Keys;
        ReportOne(es, done, known, t, changed, p, Erased);
        Raise(p, Erased);
        es := es + [Event(p, Erased)];
        status := status - {p};
        done := done + {p};
      }
      AllReported(es, done, known, t, changed);
    }

    /** The first loop of init_status; status is what is left of its copy of the server's map. */
    method CompareListed(t: Tree, order: seq<string>, initial: map<string, string>, dg: Digest)
      returns (status: map<string, string>, ghost es: seq<Event>)
      requires paths == map[] && IsListing(order, t)
      modifies this`paths, this`raised
      ensures paths == Mtimes(t) && raised == old(raised) + es
      ensures status.Keys == initial.Keys - t.Keys
      ensures Reported(es, t.Keys, initial.Keys, t, HashChanged(dg, initial, t))
    {
      hide FileHash, NodeHash, Reported, Reports, HashChanged, Mtimes;
      es, status := [], initial;
      ghost var known, changed := initial.Keys, HashChanged(dg, initial, t);
      ghost var done: set<string> := {};
      NothingReported(known, t, changed);
      var i := 0;
      while i < |order|
        invariant 0 <= i <= |order| && forall j :: 0 <= j < |order| ==> (order[j] in done <==> j < i)
        invariant done <= t.Keys && paths.Keys == done && forall p :: p in done ==> paths[p] == t[p].mtime
        invariant status.Keys == known - done && forall p :: p in status ==> status[p] == initial[p]
        invariant raised == old(raised) + es && Reported(es, done, known, t, changed)
      {
        var p := order[i];
        assert p in t && p !in done;
        ghost var e;
        status, e := CompareEntry(t, p, status, dg);
        InHashChanged(dg, initial, t, p);
        ReportEntry(es, done, known, t, changed, p, e);
        es := es + e;
        done := done + {p};
        i := i + 1;
      }
      assert done == t.Keys;
      MtimesAre(paths, t);
    }

    /** What is done about one listed entry. */
    method CompareEntry(t: Tree, p: string, known: map<string, string>, dg: Digest)
      returns (status: map<string, string>, ghost e: seq<Event>)
      requires p in t
      modifies this`paths, this`raised
      ensures paths == old(paths)[p := t[p].mtime] && raised == old(raised) + e && status == known - {p}
      ensures e == if p !in known then [Event(p, Created)] else if known[p] != NodeHash(dg, t[p]) then [Event(p, Modified)] else []
    {
      hide NodeHash;
      status, e := known, [];
      if p in status {
        var hash := NodeHash(dg, t[p]);
        paths := paths[p := t[p].mtime];
        if status[p] != hash {
          Raise(p, Modified);
          e := [Event(p, Modified)];
        }
        status := status - {p};
      } else {
        Raise(p, Created);
        e := [Event(p, Created)];
      }
      paths := paths[p := t[p].mtime];
    }

    /** One scan: the erase-while-iterating pass, then the pass over the folder. It has waited until the
        watcher is not paused. */
    method Scan(t: Tree, order: seq<string>) returns (ghost es: seq<Event>)
      requires IsListing(order, t) && !pauseExecution
      modifies this`paths, this`raised
      ensures paths == Mtimes(t)
      ensures raised == old(raised) + es
      ensures IsDiff(es, old(paths).Keys, t, MtimeChanged(old(paths), t))
    {
      hide Reported, Reports, MtimeChanged, Mtimes;
      ghost var known, changed := paths.Keys, MtimeChanged(paths, t);
      es := EraseVanished(t);
      ghost var listed: set<string> := {};
      assert known - t.Keys == known - t.Keys + listed;
      var i := 0;
      while i < |order|
        invariant 0 <= i <= |order| && forall j :: 0 <= j < |order| ==> (order[j] in listed <==> j < i)
        invariant listed <= t.Keys && paths.Keys == listed + known * t.Keys
        invariant forall p :: p in paths ==> paths[p] == if p in listed then t[p].mtime else old(paths)[p]
        invariant raised == old(raised) + es && Reported(es, known - t.Keys + listed, known, t, changed)
      {
        var p := order[i];
        assert p in t && p !in listed;
        InMtimeChanged(old(paths), t, p);
        ghost var done := known - t.Keys + listed;
        ghost var e := ScanEntry(t, p);
        ReportEntry(es, done, known, t, changed, p, e);
        es := es + e;
        listed := listed + {p};
        assert known - t.Keys + listed == done + {p};
        i := i + 1;
      }
      assert listed == t.Keys;
      MtimesAre(paths, t);
      AllReported(es, known - t.Keys + listed, known, t, changed);
    }

    /** What a scan does about one listed entry. */
    method ScanEntry(t: Tree, p: string) returns (ghost e: seq<Event>)
      requires p in t
      modifies this`paths, this`raised
      ensures paths == old(paths)[p := t[p].mtime] && raised == old(raised) + e
      ensures e == if p !in old(paths) then [Event(p, Created)]
                   else if old(paths)[p] != t[p].mtime then [Event(p, Modified)] else []
    {
      e := [];
      if p !in paths {
        paths := paths[p := t[p].mtime];
        Raise(p, Created);
        e := [Event(p, Created)];
      } else if paths[p] != t[p].mtime {
        paths := paths[p := t[p].mtime];
        Raise(p, Modified);
        e := [Event(p, Modified)];
      }
    }

    /** The first loop of a scan: it ends, and removes exactly the vanished paths. */
    method EraseVanished(t: Tree) returns (ghost es: seq<Event>)
      modifies this`paths, this`raised
      ensures paths == map p | p in old(paths) && p in t :: old(paths)[p]
      ensures raised == old(raised) + es
      ensures Reported(es, old(paths).Keys - t.Keys, old(paths).Keys, t, MtimeChanged(old(paths), t))
    {
      hide Reported, Reports, MtimeChanged;
      ghost var known, changed := paths.Keys, MtimeChanged(paths, t);
      NothingReported(known, t, changed);
      es := [];
      var it := paths.Keys;
      ghost var gone: set<string> := {};
      while it != {}
        invariant it <= known && gone == known - it - t.Keys
        invariant paths.Keys == it + known * t.Keys && forall p :: p in paths ==> paths[p] == old(paths)[p]
        invariant raised == old(raised) + es && Reported(es, gone, known, t, changed)
        decreases it
      {
        var p :| p in it;
        if p !in t {
          ReportOne(es, gone, known, t, changed, p, Erased);
          Raise(p, Erased);
          es := es + [Event(p, Erased)];
          paths := paths - {p};
          gone := gone + {p};
        }
        it := it - {p};
      }
      assert gone == known - t.Keys;
    }
  }

  lemma InHashChanged(dg: Digest, v: map<string, string>, t: Tree, p: string)
    ensures p in HashChanged(dg, v, t) <==> p in v && p in t && v[p] != NodeHash(dg, t[p])
  {
  }

  lemma InMtimeChanged(index: map<string, int>, t: Tree, p: string)
    ensures p in MtimeChanged(index, t) <==> p in index && p in t && index[p] != t[p].mtime
  {
  }

  lemma MtimesAre(paths: map<string, int>, t: Tree)
    requires paths.Keys == t.Keys && forall p :: p in t ==> paths[p] == t[p].mtime
    ensures paths == Mtimes(t)
  {
  }

  lemma NothingReported(known: set<string>, t: Tree, changed: set<string>)
    ensures Reported([], {}, known, t, changed)
    ensures forall s :: s == {} ==> Reported([], s, known, t, changed)
  {
  }

  lemma AllReported(es: seq<Event>, done: set<string>, known: set<string>, t: Tree, changed: set<string>)
    requires Reported(es, done, known, t, changed) && known + t.Keys <= done
    ensures IsDiff(es, known, t, changed)
  {
  }

  /** A diff always exists: the watcher's loops produce one. */
  lemma DiffExists(known: set<string>, t: Tree, changed: set<string>) returns (es: seq<Event>)
    ensures IsDiff(es, known, t, changed)
  {
    hide Reported, Reports;
    NothingReported(known, t, changed);
    es := [];
    var done, left: set<string> := {}, known + t.Keys;
    while left != {}
      invariant Reported(es, done, known, t, changed)
      invariant done !! left && done + left == known + t.Keys
      decreases left
    {
      var p :| p in left;
      if p in t && p in known && p !in changed {
        ReportNone(es, done, known, t, changed, p);
      } else {
        var status := if p !in t then Erased else if p !in known then Created else Modified;
        ReportOne(es, done, known, t, changed, p, status);
        es := es + [Event(p, status)];
      }
      done, left := done + {p}, left - {p};
    }
    AllReported(es, done, known, t, changed);
  }

  /** It has at most one event for each path there was or is. */
  lemma DiffSize(es: seq<Event>, known: set<string>, t: Tree, changed: set<string>)
    requires IsDiff(es, known, t, changed)
    ensures |es| <= |known + t.Keys|
  {
    forall i | 0 <= i < |es| ensures es[i].path in known + t.Keys {
      assert es[i] in es;
    }
    EventsFit(es, known + t.Keys);
  }

  lemma {:induction false} EventsFit(es: seq<Event>, s: set<string>)
    requires OncePerPath(es) && forall i :: 0 <= i < |es| ==> es[i].path in s
    ensures |es| <= |s|
    decreases es
  {
    if es != [] {
      var n := |es| - 1;
      EventsFit(es[..n], s - {es[n].path});
    }
  }
}
