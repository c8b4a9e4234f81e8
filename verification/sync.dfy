/** The central quantity of the system: the server's view, once everything still under way towards it has
    been carried out. */
module Sync {
  import opened Text
  import opened Wire
  import opened Store
  import opened Digests
  import opened Actions
  import opened Watcher
  import opened Handler
  import opened Client
  import opened System

  /** The server's current view, each name under main_path. */
  ghost function ServerView(c: Config, t: Table): map<string, string> { Prefixed(c.main, Current(t)) }

  /** What a request under way will do to that view. */
  function RequestOp(c: Config, r: Request): Op
  {
    if r.head.kind == READ_FILE then Set(c.main + r.head.path, FileHash(c.dg, r.tail))
    else if r.head.kind == CREATE_FOLDER then Set(c.main + r.head.path, "dir")
    else if r.head.kind == DELETE_PATH then Del(c.main + r.head.path)
    else Nop
  }

  function RequestOps(c: Config, rs: seq<Request>): (ops: seq<Op>)
    ensures |ops| == |rs| && forall i :: 0 <= i < |rs| ==> ops[i] == RequestOp(c, rs[i])
  {
    seq(|rs|, i requires 0 <= i < |rs| => RequestOp(c, rs[i]))
  }

  function RingOps(c: Config, t: Tree, ring: seq<Action>): (ops: seq<Op>)
    ensures |ops| == |ring| && forall i :: 0 <= i < |ring| ==> ops[i] == ActionOp(c.dg, t, ring[i])
  {
    seq(|ring|, i requires 0 <= i < |ring| => ActionOp(c.dg, t, ring[i]))
  }

  function HandOps(c: Config, t: Tree, hand: Hand): seq<Op>
  {
    if hand.Holding? || hand.Added? then [ActionOp(c.dg, t, hand.action)] else []
  }

  /** Everything under way, in the order in which it will take effect: requests, the consumer's action,
      the ring, the events of a running scan. */
  function Outstanding(c: Config, seen: Tree, rs: seq<Request>, hand: Hand, ring: seq<Action>, todo: seq<Event>): seq<Op>
  {
    RequestOps(c, rs) + HandOps(c, seen, hand) + RingOps(c, seen, ring) + EventOps(c.dg, seen, todo)
  }

  /** Unless an action was lost, carrying out what is under way leads to the goal: the view of the tree
      last scanned, or before the first scan the initial status. */
  ghost predicate Converging(c: Config, t: Table, goal: map<string, string>, ops: seq<Op>, lost: bool)
  {
    !lost ==> ApplyAll(ServerView(c, t), ops) == goal
  }

  lemma DropNop(v: map<string, string>, a: seq<Op>, b: seq<Op>)
    ensures ApplyAll(v, a + [Nop] + b) == ApplyAll(v, a + b)
  {
    ApplyCat(v, a + [Nop], b);
    ApplyCat(v, a, [Nop]);
    ApplyCat(v, a, b);
    var w := ApplyAll(v, a);
    assert [Nop][1..] == [];
    assert ApplyAll(w, [Nop]) == ApplyAll(Apply(w, Nop), []);
  }

  lemma FirstOp(v: map<string, string>, op: Op, rest: seq<Op>)
    ensures ApplyAll(v, [op] + rest) == ApplyAll(Apply(v, op), rest)
  {
    assert ([op] + rest)[1..] == rest;
  }

  /** The goal moves by exactly the events a scan raises. */
  lemma GoalMoves(v: map<string, string>, ops: seq<Op>, more: seq<Op>, goal: map<string, string>)
    requires ApplyAll(v, ops) == goal
    ensures ApplyAll(v, ops + more) == ApplyAll(goal, more)
  {
    ApplyCat(v, ops, more);
  }

  lemma PrefixSet(main: string, m: map<string, string>, n: string, h: string)
    ensures Prefixed(main, m[n := h]) == Prefixed(main, m)[main + n := h]
  {
    var a, b := Prefixed(main, m[n := h]), Prefixed(main, m)[main + n := h];
    hide Prefixed;
    assert (main + n)[|main|..] == n;
    forall p ensures p in a <==> p in b {
      if main <= p { assert p == main + p[|main|..]; }
    }
    forall p | p in a && p in b ensures a[p] == b[p] {
      assert p == main + p[|main|..];
    }
  }

  lemma PrefixDel(main: string, m: map<string, string>, n: string)
    ensures Prefixed(main, m - {n}) == Prefixed(main, m) - {main + n}
  {
    var a, b := Prefixed(main, m - {n}), Prefixed(main, m) - {main + n};
    hide Prefixed;
    assert (main + n)[|main|..] == n;
    forall p ensures p in a <==> p in b {
      if main <= p { assert p == main + p[|main|..]; }
    }
    forall p | p in a && p in b ensures a[p] == b[p] {
      assert p == main + p[|main|..];
    }
  }

  /** An accepted change does to the server's view what its request promised. */
  lemma AcceptedChange(c: Config, t: Table, day: string, r: Request)
    requires forall k :: k in t ==> Le(k.1, day)
    requires IsChange(r.head.kind)
    ensures ServerView(c, Upsert(t, EntryFor(c.dg, day, r.head, r.tail))) == Apply(ServerView(c, t), RequestOp(c, r))
  {
    hide Le, Current, Prefixed, FileHash, Upsert;
    var e := EntryFor(c.dg, day, r.head, r.tail);
    CurrentPlayed(t, e);
    if r.head.kind == DELETE_PATH {
      PrefixDel(c.main, Current(t), r.head.path);
    } else {
      PrefixSet(c.main, Current(t), r.head.path, e.row.hash);
    }
  }

  /** A written request promises what its action promised. */
  lemma RequestPromises(c: Config, t: Tree, a: Action, i: int, mt: int, pm: int)
    requires RequestFor(c.main, t, a, i, mt, pm).Some?
    requires a.Change? ==> c.main <= a.path && a.kind in {READ_FILE, CREATE_FOLDER, DELETE_PATH, IGNORE}
    ensures RequestOp(c, RequestFor(c.main, t, a, i, mt, pm).value) == ActionOp(c.dg, t, a)
    ensures RequestFor(c.main, t, a, i, mt, pm).value.head.index == i
    ensures RequestFor(c.main, t, a, i, mt, pm).value.head.kind == if a.Change? then a.kind else RESTORE
    ensures a.Change? ==> RequestFor(c.main, t, a, i, mt, pm).value.head.path == a.path[|c.main|..]
  {
    hide FileHash, CleanPath, ToString, TooBig;
    if a.Change? { assert c.main + a.path[|c.main|..] == a.path; }
  }

  /** The way of one change: what is stored of it, under its name and the day it came, and, for a file or folder,
      that a restore reads it with its name, metadata, kind and content. */
  lemma FileJourney(c: Config, t: Tree, a: Action, i: int, mt: int, pm: int, day: string)
    requires RequestFor(c.main, t, a, i, mt, pm).Some? && a.Change? && a.kind in {READ_FILE, CREATE_FOLDER, DELETE_PATH}
    requires PathOk(c, a.path) && 0 <= mt <= INT_MAX && 0 <= pm <= INT_MAX
    ensures var r := RequestFor(c.main, t, a, i, mt, pm).value;
            var e := EntryFor(c.dg, day, r.head, r.tail);
            && e.name == a.path[|c.main|..] && e.day == day
            && (a.kind == READ_FILE ==>
                  e.row == Row(t[a.path].content, |t[a.path].content|, READ_FILE, FileHash(c.dg, t[a.path].content), ToString(mt), ToString(pm)))
            && (a.kind == CREATE_FOLDER ==> e.row == Row("", 0, CREATE_FOLDER, "dir", ToString(mt), ToString(pm)))
            && (a.kind == DELETE_PATH ==> e.row == Row("", 0, DELETE_PATH, "", " ", " "))
            && (Sha256Like(c.dg) && a.kind != DELETE_PATH ==>
                  ToFile(e.name, e.row) == Some(File(e.name, mt, pm, a.kind == CREATE_FOLDER,
                                                     if a.kind == READ_FILE then t[a.path].content else "")))
  {
    hide CleanPath, ToString, Stoi, TooBig, FileHash, CutName;
    var name := a.path[|c.main|..];
    AsciiIsOneByte(name);
    StoiToString(mt);
    StoiToString(pm);
    if Sha256Like(c.dg) && a.kind == READ_FILE {
      FileHashText(c.dg, t[a.path].content);
      var text := t[a.path].content;
      assert text[..|text|] == text;
    }
  }

  // ----- how the queue of outstanding operations moves -----

  lemma PushedEvent(c: Config, seen: Tree, rs: seq<Request>, hand: Hand, ring: seq<Action>, todo: seq<Event>)
    requires todo != []
    ensures Outstanding(c, seen, rs, hand, ring + [ToAction(seen, todo[0])], todo[1..]) == Outstanding(c, seen, rs, hand, ring, todo)
  {
    hide ActionOp, RequestOp, RequestOps, HandOps, RingOps, EventOps, ToAction, EventOp;
    RingSnoc(c, seen, ring, todo[0]);
    EventsFirst(c, seen, todo);
    var x, y, z := RequestOps(c, rs) + HandOps(c, seen, hand), RingOps(c, seen, ring), EventOps(c.dg, seen, todo[1..]);
    var op := [EventOp(c.dg, seen, todo[0])];
    assert x + (y + op) + z == x + y + (op + z);
  }

  lemma RingSnoc(c: Config, seen: Tree, ring: seq<Action>, e: Event)
    ensures RingOps(c, seen, ring + [ToAction(seen, e)]) == RingOps(c, seen, ring) + [EventOp(c.dg, seen, e)]
  {
    hide ActionOp, ToAction;
  }

  lemma EventsFirst(c: Config, seen: Tree, todo: seq<Event>)
    requires todo != []
    ensures EventOps(c.dg, seen, todo) == [EventOp(c.dg, seen, todo[0])] + EventOps(c.dg, seen, todo[1..])
  {
    hide EventOp;
  }

  lemma Popped(c: Config, seen: Tree, rs: seq<Request>, hand: Hand, ring: seq<Action>, todo: seq<Event>)
    requires ring != [] && hand.Idle?
    ensures Outstanding(c, seen, rs, Holding(ring[0]), ring[1..], todo) == Outstanding(c, seen, rs, hand, ring, todo)
  {
    hide ActionOp, RequestOp, EventOps;
    assert RingOps(c, seen, ring) == [ActionOp(c.dg, seen, ring[0])] + RingOps(c, seen, ring[1..]);
  }

  lemma HeaderWritten(c: Config, seen: Tree, rs: seq<Request>, a: Action, i: int, r: Request, hand: Hand, ring: seq<Action>, todo: seq<Event>)
    requires RequestOp(c, r) == ActionOp(c.dg, seen, a) && (hand.Idle? || hand.Body?)
    ensures Outstanding(c, seen, rs + [r], hand, ring, todo) == Outstanding(c, seen, rs, Added(a, i), ring, todo)
  {
    hide ActionOp, RequestOp, EventOps, RingOps;
    assert RequestOps(c, rs + [r]) == RequestOps(c, rs) + [RequestOp(c, r)];
  }

  /** An operation without effect that leaves, or joins, the queue. */
  lemma NopDropped(c: Config, v: map<string, string>, seen: Tree, rs: seq<Request>, a: Action, i: int, ring: seq<Action>, todo: seq<Event>)
    requires ActionOp(c.dg, seen, a) == Nop
    ensures ApplyAll(v, Outstanding(c, seen, rs, Idle, ring, todo)) == ApplyAll(v, Outstanding(c, seen, rs, Added(a, i), ring, todo))
  {
    hide ActionOp, RequestOp, EventOps, RingOps, RequestOps, ApplyAll;
    var x, y, z := RequestOps(c, rs), RingOps(c, seen, ring), EventOps(c.dg, seen, todo);
    DropNop(v, x, y + z);
    assert x + [] + y + z == x + (y + z);
    assert x + [Nop] + y + z == x + [Nop] + (y + z);
  }

  lemma RestorePushed(c: Config, v: map<string, string>, seen: Tree, rs: seq<Request>, hand: Hand, ring: seq<Action>, todo: seq<Event>, a: Action)
    requires a.Restoration?
    ensures ApplyAll(v, Outstanding(c, seen, rs, hand, ring + [a], todo)) == ApplyAll(v, Outstanding(c, seen, rs, hand, ring, todo))
  {
    hide RequestOp, EventOps, RequestOps, HandOps, ApplyAll;
    var x, y, z := RequestOps(c, rs) + HandOps(c, seen, hand), RingOps(c, seen, ring), EventOps(c.dg, seen, todo);
    assert RingOps(c, seen, ring + [a]) == y + [Nop];
    DropNop(v, x + y, z);
    assert x + (y + [Nop]) + z == x + y + [Nop] + z;
  }

  lemma QuitWritten(c: Config, v: map<string, string>, seen: Tree, rs: seq<Request>, r: Request, hand: Hand, hand2: Hand, ring: seq<Action>, todo: seq<Event>)
    requires r.head.kind == QUIT && HandOps(c, seen, hand) == [] && HandOps(c, seen, hand2) == []
    ensures ApplyAll(v, Outstanding(c, seen, rs + [r], hand2, ring, todo)) == ApplyAll(v, Outstanding(c, seen, rs, hand, ring, todo))
  {
    hide EventOps, RingOps, ApplyAll;
    var x, y, z := RequestOps(c, rs), RingOps(c, seen, ring), EventOps(c.dg, seen, todo);
    assert RequestOps(c, rs + [r]) == x + [Nop];
    DropNop(v, x, y + z);
    assert x + [Nop] + [] + y + z == x + [Nop] + (y + z);
    assert x + [] + y + z == x + (y + z);
  }

  lemma FirstRequest(c: Config, v: map<string, string>, seen: Tree, rs: seq<Request>, hand: Hand, ring: seq<Action>, todo: seq<Event>)
    requires rs != []
    ensures ApplyAll(v, Outstanding(c, seen, rs, hand, ring, todo)) ==
            ApplyAll(Apply(v, RequestOp(c, rs[0])), Outstanding(c, seen, rs[1..], hand, ring, todo))
  {
    hide EventOps, RingOps, HandOps, ApplyAll, RequestOp;
    var x, h, y, z := RequestOps(c, rs[1..]), HandOps(c, seen, hand), RingOps(c, seen, ring), EventOps(c.dg, seen, todo);
    assert RequestOps(c, rs) == [RequestOp(c, rs[0])] + x;
    FirstOp(v, RequestOp(c, rs[0]), x + h + y + z);
    assert [RequestOp(c, rs[0])] + x + h + y + z == [RequestOp(c, rs[0])] + (x + h + y + z);
  }

  lemma ScanStarted(c: Config, seen: Tree, t: Tree, rs: seq<Request>, hand: Hand, ring: seq<Action>, es: seq<Event>)
    requires forall i :: 0 <= i < |ring| ==> ActionOp(c.dg, seen, ring[i]) == ActionOp(c.dg, t, ring[i])
    requires hand.Holding? || hand.Added? ==> ActionOp(c.dg, seen, hand.action) == ActionOp(c.dg, t, hand.action)
    ensures Outstanding(c, t, rs, hand, ring, es) == Outstanding(c, seen, rs, hand, ring, []) + EventOps(c.dg, t, es)
  {
    hide ActionOp, RequestOp;
    assert RingOps(c, seen, ring) == RingOps(c, t, ring);
    assert EventOps(c.dg, seen, []) == [];
  }

  lemma ConvergingScan(c: Config, table: Table, goal: map<string, string>, seen: Tree, t: Tree, rs: seq<Request>, hand: Hand,
                       ring: seq<Action>, es: seq<Event>, lost: bool)
    requires Converging(c, table, goal, Outstanding(c, seen, rs, hand, ring, []), lost)
    requires forall i :: 0 <= i < |ring| ==> ActionOp(c.dg, seen, ring[i]) == ActionOp(c.dg, t, ring[i])
    requires hand.Holding? || hand.Added? ==> ActionOp(c.dg, seen, hand.action) == ActionOp(c.dg, t, hand.action)
    requires ApplyAll(goal, EventOps(c.dg, t, es)) == TreeView(c.dg, t)
    ensures Converging(c, table, TreeView(c.dg, t), Outstanding(c, t, rs, hand, ring, es), lost)
  {
    hide Outstanding, ApplyAll, EventOps, TreeView, ServerView, ActionOp;
    ScanStarted(c, seen, t, rs, hand, ring, es);
    if !lost {
      GoalMoves(ServerView(c, table), Outstanding(c, seen, rs, hand, ring, []), EventOps(c.dg, t, es), goal);
    }
  }
}
