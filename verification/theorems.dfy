/** What holds in every run of the whole system. */
module Theorems {
  import opened Text
  import opened Streams
  import opened Wire
  import opened Store
  import opened Digests
  import opened Actions
  import opened Watcher
  import opened Responses
  import opened Rebuild
  import opened Handler
  import opened Client
  import opened System
  import opened Channels
  import opened PendingActions
  import opened Sync
  import opened Invariant
  import opened ConsumerSteps
  import opened ExchangeSteps

  /** Every step keeps the invariant. */
  lemma StepInv(c: Config, s: State, l: Label, s2: State)
    requires Inv(c, s) && Step(c, s, l) == Some(s2)
    ensures Inv(c, s2)
  {
    hide *;
    match l
    case ReadInitialStatus => AtHandshake(c, s, s2); InvReadInitialStatus(c, s);
    case ServeHead => ServerSteps(c, s, true); InvServeHead(c, s, s2);
    case ServeTail(engine) => ServerSteps(c, s, engine); InvServeTail(c, s, s2, engine);
    case ReadResponse => ReaderSteps(c, s); InvReadResponse(c, s, s2);
    case FetchRestore => ReaderSteps(c, s); InvFetch(c, s, s2);
    case WriteHeader(mt, pm) => HeaderStep(c, s, mt, pm); InvWriteHeader(c, s, s2, mt, pm);
    case Pop => ConsumerInv(c, s, l, s2);
    case AddPending => ConsumerInv(c, s, l, s2);
    case DropIgnored => ConsumerInv(c, s, l, s2);
    case RejectOversized => ConsumerInv(c, s, l, s2);
    case WriteBody => ConsumerInv(c, s, l, s2);
    case WriteQuit => ConsumerInv(c, s, l, s2);
    case NextDay(_) => WorldInv(c, s, l, s2);
    case TreeChange(_) => WorldInv(c, s, l, s2);
    case StartUp(_) => WorldInv(c, s, l, s2);
    case StartScan(_) => WorldInv(c, s, l, s2);
    case _ => ClientInv(c, s, l, s2);
  }

  lemma AtHandshake(c: Config, s: State, s2: State)
    requires Step(c, s, ReadInitialStatus) == Some(s2)
    ensures s.reader.Handshake?
  {
    hide DecInit, InitMap;
  }

  lemma ServerSteps(c: Config, s: State, engine: bool)
    ensures Step(c, s, ServeHead) == StepServeHead(s)
    ensures Step(c, s, ServeTail(engine)) == StepServeTail(c, s, engine)
  {
    hide StepServeHead, StepServeTail, StepReadResponse, StepFetch, StepWriteHeader;
  }

  lemma ReaderSteps(c: Config, s: State)
    ensures Step(c, s, ReadResponse) == StepReadResponse(s)
    ensures Step(c, s, FetchRestore) == StepFetch(s)
  {
    hide StepServeHead, StepServeTail, StepReadResponse, StepFetch, StepWriteHeader;
  }

  lemma HeaderStep(c: Config, s: State, mt: int, pm: int)
    ensures Step(c, s, WriteHeader(mt, pm)) == StepWriteHeader(c, s, mt, pm)
  {
    hide StepServeHead, StepServeTail, StepReadResponse, StepFetch, StepWriteHeader;
  }

  lemma ConsumerInv(c: Config, s: State, l: Label, s2: State)
    requires Inv(c, s) && Step(c, s, l) == Some(s2)
    requires l.Pop? || l.AddPending? || l.DropIgnored? || l.RejectOversized? || l.WriteBody? || l.WriteQuit?
    ensures Inv(c, s2)
  {
    hide Inv, Answered, TooBig, EncHeader, EncBody, Send, QuitHeader;
    match l
    case Pop => InvPop(c, s);
    case AddPending => InvAddPending(c, s);
    case DropIgnored => InvDropIgnored(c, s);
    case RejectOversized => InvRejectOversized(c, s);
    case WriteBody => InvWriteBody(c, s);
    case WriteQuit => TerminatedIsStarted(c, s); InvWriteQuit(c, s);
    case _ =>
  }

  lemma TerminatedIsStarted(c: Config, s: State)
    requires Inv(c, s) && s.terminated
    ensures !s.reader.Handshake?
  {
    hide *;
    if s.reader.Handshake? { ShutAfterHandshake(c, s); }
  }

  lemma WorldInv(c: Config, s: State, l: Label, s2: State)
    requires Inv(c, s) && Step(c, s, l) == Some(s2) && (l.NextDay? || l.TreeChange? || l.StartUp? || l.StartScan?)
    ensures Inv(c, s2)
  {
    hide Inv, Le, TreeOk, Quiet, NoFolderForFile, IsDiff, HashChanged, MtimeChanged, Mtimes, Honest;
    match l
    case NextDay(d) => InvNextDay(c, s, d);
    case TreeChange(t) => InvTreeChange(c, s, t);
    case StartUp(es) => InvStartUp(c, s, es);
    case StartScan(es) => InvStartScan(c, s, es);
    case _ =>
  }

  lemma ClientInv(c: Config, s: State, l: Label, s2: State)
    requires Inv(c, s) && Step(c, s, l) == Some(s2)
    requires l.PushEvent? || l.UserRestore? || l.UserQuit? || l.StopWatcher? || l.TerminateRing?
    ensures Inv(c, s2)
  {
    hide Inv, ToAction, DateOk;
    if s.reader.Handshake? { ShutAfterHandshake(c, s); }
    match l
    case PushEvent => InvPushEvent(c, s, ToAction(s.tree, s.todo[0]));
    case UserRestore(d, target) => InvUserRestore(c, s, Restoration(d, target));
    case UserQuit => StoppedOrder(c, s); InvShutdown(c, s, s2);
    case StopWatcher => StoppedOrder(c, s); InvShutdown(c, s, s2);
    case TerminateRing => StoppedOrder(c, s); InvShutdown(c, s, s2);
    case _ =>
  }

  lemma StoppedOrder(c: Config, s: State)
    requires Inv(c, s)
    ensures (s.stopped ==> s.asked && s.started && s.todo == []) && (s.terminated ==> s.stopped)
  {
    hide *;
    Open(c, s);
    ShutStopped(s);
  }

  lemma ShutStopped(s: State)
    requires ShutOk(s.todo, s.scanning, s.stopped, s.started, s.asked, s.terminated, s.hand, s.ring, s.reader.Fetching?)
    ensures (s.stopped ==> s.asked && s.started && s.todo == []) && (s.terminated ==> s.stopped)
    ensures s.hand.Quitted? ==> s.terminated && s.ring == []
    ensures s.scanning ==> s.todo != [] && s.started && !s.reader.Fetching?
  {
  }

  /** s is reached from a fresh session by some run. */
  ghost predicate Reached(c: Config, s0: State, ls: seq<Label>, s: State)
  {
    Initial(c, s0) && Run(c, s0, ls) == Some(s)
  }

  lemma {:induction false} RunInv(c: Config, s0: State, ls: seq<Label>, s: State)
    requires Reached(c, s0, ls, s)
    ensures Inv(c, s)
    decreases ls
  {
    hide Inv, Step, Initial;
    if ls == [] {
      InitialInv(c, s);
    } else {
      var n := |ls| - 1;
      var before := Run(c, s0, ls[..n]).value;
      RunInv(c, s0, ls[..n], before);
      StepInv(c, before, ls[n], s);
    }
  }

  /** End to end: in every run, whenever no scan is under way, the ring is empty, the consumer holds nothing
      and no action is pending, the server's current view is the folder last scanned: the same paths,
      "dir" for folders, the content hash for files. */
  lemma EndToEnd(c: Config, s0: State, ls: seq<Label>, s: State)
    requires Reached(c, s0, ls, s)
    requires s.started && s.todo == [] && s.ring == [] && (s.hand.Idle? || s.hand.Quitted?) && s.pending == map[]
    ensures ServerView(c, s.table) == TreeView(c.dg, s.seen)
  {
    hide Inv, TreeView, ServerView, Initial, Run;
    RunInv(c, s0, ls, s);
    QuietView(c, s);
  }

  lemma QuietView(c: Config, s: State)
    requires Inv(c, s)
    requires s.started && s.todo == [] && s.ring == [] && (s.hand.Idle? || s.hand.Quitted?) && s.pending == map[]
    ensures ServerView(c, s.table) == TreeView(c.dg, s.seen)
  {
    hide Inv, TreeView, ServerView, ApplyAll;
    NothingPending(c, s);
    StillConverging(c, s);
    OnlyNops(c, s);
    AllNop(ServerView(c, s.table), Outstanding(c, s.seen, s.requests, s.hand, s.ring, s.todo));
  }

  lemma StillConverging(c: Config, s: State)
    requires Inv(c, s) && s.started && !s.lost
    ensures ApplyAll(ServerView(c, s.table), Outstanding(c, s.seen, s.requests, s.hand, s.ring, s.todo)) == TreeView(c.dg, s.seen)
  {
    hide *;
    Open(c, s);
    ConvergingGoal(c, s.table, s.seen, s.initial, Outstanding(c, s.seen, s.requests, s.hand, s.ring, s.todo));
  }

  lemma ConvergingGoal(c: Config, t: Table, seen: Tree, initial: map<string, string>, ops: seq<Op>)
    requires Converging(c, t, Goal(c, true, seen, initial), ops, false)
    ensures ApplyAll(ServerView(c, t), ops) == TreeView(c.dg, seen)
  {
    hide ApplyAll, ServerView, TreeView;
  }

  lemma OnlyNops(c: Config, s: State)
    requires s.todo == [] && s.ring == [] && (s.hand.Idle? || s.hand.Quitted?)
    requires forall i :: 0 <= i < |s.requests| ==> s.requests[i].head.kind == QUIT
    ensures var ops := Outstanding(c, s.seen, s.requests, s.hand, s.ring, s.todo); forall i :: 0 <= i < |ops| ==> ops[i] == Nop
  {
    assert RingOps(c, s.seen, []) == [] && EventOps(c.dg, s.seen, []) == [];
    var ops := RequestOps(c, s.requests);
    assert ops + [] + [] + [] == ops;
  }

  lemma {:induction false} AllNop(v: map<string, string>, ops: seq<Op>)
    requires forall i :: 0 <= i < |ops| ==> ops[i] == Nop
    ensures ApplyAll(v, ops) == v
    decreases ops
  {
    if ops != [] { AllNop(v, ops[1..]); }
  }

  /** With no pending entry nothing was lost and at most quit is under way. */
  lemma NothingPending(c: Config, s: State)
    requires Inv(c, s) && s.pending == map[]
    ensures !s.lost
    ensures forall i :: 0 <= i < |s.requests| ==> s.requests[i].head.kind == QUIT
  {
    hide *;
    Open(c, s);
    NoEntry(s.lost, s.done, s.requests, s.next, s.hand, Mark(s.eaten, s.reader));
  }

  lemma NoEntry(lost: bool, ds: seq<Done>, rs: seq<Request>, next: int, hand: Hand, mark: int)
    requires PendOk(map[], next, Flight(ds, rs), hand, mark) && LostOk(lost, map[], ds) && DonesOk(ds)
    ensures !lost
    ensures forall i :: 0 <= i < |rs| ==> rs[i].head.kind == QUIT
  {
    hide Flight, Fits, RequestOk, FilesOk;
    FlightFirst(ds, rs);
    var flight := Flight(ds, rs);
    forall i | 0 <= i < |rs| ensures rs[i].head.kind == QUIT {
      assert flight[|ds| + i] == rs[i];
    }
    forall k | 0 <= k < |ds| ensures ds[k].answer.ok {
      assert flight[k] == ds[k].request;
      assert IsQuit(flight[k]);
    }
  }

  /** No extraction ever fails or reaches the end of its buffer: whatever a thread reads next, it either
      waits or gets a whole value, and between messages the buffer is empty or holds one newline. */
  lemma NothingBreaks(c: Config, s0: State, ls: seq<Label>, s: State)
    requires Reached(c, s0, ls, s)
    ensures Boundary(s.sin) && Boundary(s.cin)
    ensures s.phase.Waiting? ==> !DecHeader(s.sin).Broken?
    ensures s.phase.Running? ==> !DecTail(s.sin, s.phase.head.kind).Broken?
    ensures s.reader.Handshake? ==> DecInit(s.cin).Got?
    ensures s.reader.Listening? ==> !DecResponse(s.cin).Broken?
    ensures s.reader.Fetching? ==> !DecData(s.cin).Broken?
  {
    hide *;
    RunInv(c, s0, ls, s);
    Open(c, s);
    Boundaries(s);
    if s.phase.Waiting? { UpServeHead(s.sin, s.requests, s.hand.Body? || s.awaiting); }
    if s.phase.Running? { UpServeTail(s.sin, s.phase.head, s.phase.day, s.requests, s.hand.Body? || s.awaiting); }
    if s.reader.Handshake? {
      TableFine(c.dg, s.log, s.table, s.phase, s.day);
      FreshStatus(c, s);
    } else if s.reader.Listening? {
      if s.eaten.Nothing? { DownReadGreeting(s.cin, s.phase, s.done); } else { DownReadEnd(s.cin, s.phase, s.done, s.eaten); }
    } else if s.reader.Fetching? {
      FetchingIsGreeted(s.cin, s.phase, s.done, s.eaten);
      DownFetch(s.cin, s.phase, s.done);
    }
  }

  lemma Boundaries(s: State)
    requires UpOk(s.sin, s.phase, s.requests, s.hand.Body? || s.awaiting)
    requires !s.reader.Handshake? ==> DownOk(s.cin, s.phase, s.done, s.eaten, s.reader.Fetching?)
    requires HandshakeOk(s)
    ensures Boundary(s.sin) && Boundary(s.cin)
  {
    hide EncInit, InitPairs, WrittenUp, WrittenDown, EatenBytes, Consumed, AllOk, HeaderOk, DonesOk;
  }

  lemma FreshStatus(c: Config, s: State)
    requires HandshakeOk(s) && s.reader.Handshake? && TableOk(s.table)
    ensures DecInit(s.cin).Got?
  {
    hide EncInit, InitPairs, DecInit, TableOk, InitMap, Prefixed, Current;
    assert EncInit(InitPairs(s.table)) + "" == EncInit(InitPairs(s.table));
    InitArrives(c.main, s.table, s.cin, "");
  }

  /** Pending-map safety, what the map holds: an entry for each request under way and for the action in the
      consumer's hand, and otherwise only errors. */
  lemma PendingKeys(c: Config, s0: State, ls: seq<Label>, s: State, i: int)
    requires Reached(c, s0, ls, s)
    ensures i in s.pending && s.pending[i].st != ERROR <==> UnderWay(i, Flight(s.done, s.requests), s.hand)
    ensures i in s.pending ==> 0 <= i < s.next
  {
    hide *;
    RunInv(c, s0, ls, s);
    Open(c, s);
    KeysUnderWay(s.pending, s.next, Flight(s.done, s.requests), s.hand, Mark(s.eaten, s.reader), i);
  }

  lemma KeysUnderWay(m: PendingMap, next: int, flight: seq<Request>, hand: Hand, mark: int, i: int)
    requires PendOk(m, next, flight, hand, mark)
    ensures i in m && m[i].st != ERROR <==> UnderWay(i, flight, hand)
    ensures i in m ==> 0 <= i < next
  {
  }

  /** Pending-map safety, how it moves: every response names an entry that is there, so no lookup ever
      creates one, and each entry only moves forward. */
  lemma PendingMoves(c: Config, s0: State, ls: seq<Label>, s: State, l: Label, s2: State)
    requires Reached(c, s0, ls, s) && Step(c, s, l) == Some(s2)
    ensures MovesAllowed(s.pending, s2.pending, s.next)
    ensures s.reader.Listening? && DecResponse(s.cin).Got? && DecResponse(s.cin).value.1 != FINISH ==>
              DecResponse(s.cin).value.0 in s.pending
    ensures s.reader.Fetching? ==> s.reader.index in s.pending
  {
    hide Inv, Initial, Run, Step, DecResponse;
    RunInv(c, s0, ls, s);
    ResponseNamesEntry(c, s);
    match l
    case ReadResponse => ReadMoves(c, s, s2);
    case FetchRestore => FetchMoves(c, s, s2);
    case _ => OtherMoves(c, s, l, s2);
  }

  lemma PendingBelow(c: Config, s: State)
    requires Inv(c, s)
    ensures s.next !in s.pending
    ensures s.hand.Added? ==> s.hand.index in s.pending && s.pending[s.hand.index] == Pending(s.hand.action, SENT)
  {
    hide *;
    Open(c, s);
    PendBelow(s.pending, s.next, Flight(s.done, s.requests), s.hand, Mark(s.eaten, s.reader));
  }

  lemma OtherMoves(c: Config, s: State, l: Label, s2: State)
    requires Inv(c, s) && Step(c, s, l) == Some(s2) && !l.ReadResponse? && !l.FetchRestore?
    ensures MovesAllowed(s.pending, s2.pending, s.next)
  {
    hide Inv, Step, MovesAllowed;
    NoMove(s.pending, s.next);
    match l
    case AddPending => PendingBelow(c, s); ConsumerMoves(c, s, l, s2);
    case DropIgnored => PendingBelow(c, s); ConsumerMoves(c, s, l, s2);
    case RejectOversized => PendingBelow(c, s); ConsumerMoves(c, s, l, s2);
    case ServeHead => ServerSteps(c, s, true); ServeHeadKeeps(s, s2);
    case ServeTail(engine) => ServerSteps(c, s, engine); ServeTailKeeps(c, s, s2, engine);
    case _ =>
      if l.Pop? || l.WriteHeader? || l.WriteBody? || l.WriteQuit? {
        ConsumerKeeps(c, s, l, s2);
      } else if l.NextDay? || l.TreeChange? || l.ReadInitialStatus? || l.StartUp? || l.StartScan? {
        WatcherKeeps(c, s, l, s2);
      } else {
        InputKeeps(c, s, l, s2);
      }
  }

  lemma ConsumerMoves(c: Config, s: State, l: Label, s2: State)
    requires Step(c, s, l) == Some(s2) && (l.AddPending? || l.DropIgnored? || l.RejectOversized?) && s.next !in s.pending
    requires s.hand.Added? ==> s.hand.index in s.pending && s.pending[s.hand.index] == Pending(s.hand.action, SENT)
    ensures MovesAllowed(s.pending, s2.pending, s.next)
  {
    hide MovesAllowed, Answered, TooBig;
    match l
    case AddPending => AddMove(s.pending, s.next, s.hand.action);
    case DropIgnored => DropMove(s.pending, s.next, s.hand.action, s.hand.index);
    case RejectOversized => ErrorMove(s.pending, s.next, s.hand.action, s.hand.index);
    case _ =>
  }

  lemma ConsumerKeeps(c: Config, s: State, l: Label, s2: State)
    requires Step(c, s, l) == Some(s2) && (l.Pop? || l.WriteHeader? || l.WriteBody? || l.WriteQuit?)
    ensures MovesAllowed(s.pending, s2.pending, s.next)
  {
    hide MovesAllowed, EncHeader, EncBody, StepWriteHeader;
    NoMove(s.pending, s.next);
    if l.WriteHeader? { WriteHeaderIs(c, s, s2, l.mtime, l.perms); }
  }

  lemma ServeHeadKeeps(s: State, s2: State)
    requires StepServeHead(s) == Some(s2)
    ensures MovesAllowed(s.pending, s2.pending, s.next)
  {
    hide MovesAllowed, StepServeHead, DecHeader, Greeting;
    NoMove(s.pending, s.next);
    ServeHeadIs(s, s2);
  }

  lemma ServeTailKeeps(c: Config, s: State, s2: State, engine: bool)
    requires StepServeTail(c, s, engine) == Some(s2)
    ensures MovesAllowed(s.pending, s2.pending, s.next)
  {
    hide MovesAllowed, StepServeTail, DecTail, Reply, Execute, EntryFor, AsOf;
    NoMove(s.pending, s.next);
    var t2, a, more := ServeTailIs(c, s, s2, engine);
  }

  lemma WatcherKeeps(c: Config, s: State, l: Label, s2: State)
    requires Step(c, s, l) == Some(s2) && (l.NextDay? || l.TreeChange? || l.ReadInitialStatus? || l.StartUp? || l.StartScan?)
    ensures MovesAllowed(s.pending, s2.pending, s.next)
  {
    hide MovesAllowed, IsDiff, DecInit, Honest, NoFolderForFile, TreeOk, Mtimes, MtimeChanged, HashChanged, Quiet, InitMap, Le;
    NoMove(s.pending, s.next);
  }

  lemma InputKeeps(c: Config, s: State, l: Label, s2: State)
    requires Step(c, s, l) == Some(s2) && (l.PushEvent? || l.UserRestore? || l.UserQuit? || l.StopWatcher? || l.TerminateRing?)
    ensures MovesAllowed(s.pending, s2.pending, s.next)
  {
    hide MovesAllowed, ToAction, DateOk;
    NoMove(s.pending, s.next);
  }

  lemma NoMove(m: PendingMap, next: int)
    ensures MovesAllowed(m, m, next)
  {}

  lemma AddMove(m: PendingMap, next: int, a: Action)
    requires next !in m
    ensures MovesAllowed(m, m[next := Pending(a, SENT)], next)
  {}

  lemma DropMove(m: PendingMap, next: int, a: Action, i: int)
    requires i in m && m[i] == Pending(a, SENT) && a.Change? && a.kind == IGNORE
    ensures MovesAllowed(m, Answered(m, i, COMPLETED), next)
  {}

  lemma ErrorMove(m: PendingMap, next: int, a: Action, i: int)
    requires i in m && m[i] == Pending(a, SENT)
    ensures MovesAllowed(m, Answered(m, i, ERROR), next)
  {}

  /** Whatever response is there to be read names an entry that is there, in the state the response expects. */
  lemma ResponseNamesEntry(c: Config, s: State)
    requires Inv(c, s)
    ensures s.reader.Listening? && DecResponse(s.cin).Got? && DecResponse(s.cin).value.1 != FINISH ==>
              var (i, st) := DecResponse(s.cin).value;
              i in s.pending && s.pending[i].st == (if st == RECEIVED then SENT else RECEIVED) && st in {RECEIVED, COMPLETED, ERROR}
    ensures s.reader.Fetching? ==> s.reader.index in s.pending && s.pending[s.reader.index].st == SENT
  {
    hide *;
    Open(c, s);
    Statuses();
    Answers();
    MarkSent(s.eaten, s.reader);
    FlightFirst(s.done, s.requests);
    var flight := Flight(s.done, s.requests);
    if s.reader.Listening? && DecResponse(s.cin).Got? {
      if s.eaten.Nothing? {
        DownReadGreeting(s.cin, s.phase, s.done);
        if s.done == [] || s.done[0].request.head.kind != QUIT { GreetingNext(c, s); }
      } else {
        DownReadEnd(s.cin, s.phase, s.done, s.eaten);
        NotQuitHead(flight[0]);
        AnswerIndex(s.done);
        FirstEntry(s.pending, s.next, flight, s.hand, RECEIVED);
      }
    }
    if s.reader.Fetching? {
      FetchingFirst(s.reader, flight, s.phase, s.hand);
      FirstEntry(s.pending, s.next, flight, s.hand, SENT);
    }
  }

  lemma Answers()
    ensures RECEIVED in {RECEIVED, COMPLETED, ERROR} && COMPLETED in {RECEIVED, COMPLETED, ERROR} && ERROR in {RECEIVED, COMPLETED, ERROR}
  {
  }

  lemma ReadMoves(c: Config, s: State, s2: State)
    requires Inv(c, s) && Step(c, s, ReadResponse) == Some(s2)
    ensures MovesAllowed(s.pending, s2.pending, s.next)
  {
    hide Inv, DecResponse, StepReadResponse, MovesAllowed, Answered, EncDate;
    ResponseNamesEntry(c, s);
    assert StepReadResponse(s) == Some(s2);
    ReadEnabled(s);
    var (i, st) := DecResponse(s.cin).value;
    if st == RECEIVED && s.pending[i].action.Restoration? {
      ReadRestoreIs(s, s2, i);
      NoMove(s.pending, s.next);
    } else {
      ReadOtherIs(s, s2, i, st);
      AnswerMove(s.pending, s.next, i, st);
    }
  }

  lemma AnswerMove(m: PendingMap, next: int, i: int, st: int)
    requires st == FINISH || (i in m && m[i].st == (if st == RECEIVED then SENT else RECEIVED) && st in {RECEIVED, COMPLETED, ERROR})
    ensures MovesAllowed(m, Answered(m, i, st), next)
  {}

  lemma FetchMoves(c: Config, s: State, s2: State)
    requires Inv(c, s) && Step(c, s, FetchRestore) == Some(s2)
    ensures MovesAllowed(s.pending, s2.pending, s.next)
  {
    hide Inv, DecData, Build;
    ResponseNamesEntry(c, s);
    assert StepFetch(s) == Some(s2);
  }

  /** Order: at any time the actions pushed are those handled, then the one in hand, then the ring, and the
      ring never holds more than its capacity less one. */
  lemma PushOrder(c: Config, s0: State, ls: seq<Label>, s: State)
    requires Reached(c, s0, ls, s)
    ensures s.pushed == s.handled + InHand(s.hand) + s.ring && |s.ring| <= c.capacity - 1
  {
    hide *;
    RunInv(c, s0, ls, s);
    Open(c, s);
    OrderMeans(s.pushed, s.handled, s.hand, s.ring, c.capacity);
  }

  lemma OrderMeans(pushed: seq<Action>, handled: seq<Action>, hand: Hand, ring: seq<Action>, capacity: nat)
    requires OrderOk(pushed, handled, hand, ring, capacity)
    ensures pushed == handled + InHand(hand) + ring && |ring| <= capacity - 1
    ensures hand.Quitted? && ring == [] ==> pushed == handled
  {
    assert handled + [] + [] == handled;
  }

  /** A check of how the watcher's mutex is modelled: the guards of the two steps that take it exclude each other
      in every run, as the lock does. */
  lemma ScanExcludesRestore(c: Config, s0: State, ls: seq<Label>, s: State)
    requires Reached(c, s0, ls, s)
    ensures !(s.scanning && s.reader.Fetching?)
    ensures s.scanning ==> s.todo != []
  {
    hide *;
    RunInv(c, s0, ls, s);
    Open(c, s);
    ShutStopped(s);
  }

  /** Shutdown drains: once quit is written every pushed action has been handled, in push order; once the
      response consumer has finished, both directions are empty and only errors are pending. */
  lemma ShutdownDrains(c: Config, s0: State, ls: seq<Label>, s: State)
    requires Reached(c, s0, ls, s)
    ensures s.hand.Quitted? ==> s.handled == s.pushed && s.ring == [] && s.todo == [] && s.terminated
    ensures s.reader.Finished? ==>
              && s.hand.Quitted? && s.handled == s.pushed
              && s.requests == [] && s.done == [] && s.sin.net == "" && s.cin.net == ""
              && forall i :: i in s.pending ==> s.pending[i].st == ERROR
  {
    hide *;
    RunInv(c, s0, ls, s);
    Open(c, s);
    ShutStopped(s);
    OrderMeans(s.pushed, s.handled, s.hand, s.ring, c.capacity);
    if s.reader.Finished? {
      FinishedMeans(s.reader, Flight(s.done, s.requests), s.requests, s.phase, s.hand);
      FlightFirst(s.done, s.requests);
      ChannelsEmpty(s);
      forall i | i in s.pending ensures s.pending[i].st == ERROR {
        NothingUnderWay(s.pending, s.next, Flight(s.done, s.requests), s.hand, Mark(s.eaten, s.reader), i);
      }
    }
  }

  lemma FinishedMeans(reader: Reader, flight: seq<Request>, rs: seq<Request>, phase: Phase, hand: Hand)
    requires ReaderOk(reader, flight, phase, hand) && FlightOk(flight, rs, hand, phase) && reader.Finished?
    ensures flight == [] && phase.Closed? && hand.Quitted?
  {
    hide RequestFine;
  }

  lemma ChannelsEmpty(s: State)
    requires UpOk(s.sin, s.phase, s.requests, s.hand.Body? || s.awaiting) && s.requests == [] && s.done == [] && s.phase.Closed?
    requires DownOk(s.cin, s.phase, s.done, s.eaten, s.reader.Fetching?)
    ensures s.sin.net == "" && s.cin.net == ""
  {
    hide EncHeader, EncRequests, Greeting, Reply, EncData, AllOk, DonesOk, HeaderOk;
    EncDonesNone();
    EncRequestsNone();
    assert "" + s.sin.net == s.sin.net && "" + s.cin.net == s.cin.net && "" + "" == "";
  }

  lemma NothingUnderWay(m: PendingMap, next: int, flight: seq<Request>, hand: Hand, mark: int, i: int)
    requires PendOk(m, next, flight, hand, mark) && flight == [] && !hand.Added? && i in m
    ensures m[i].st == ERROR
  {
    assert !UnderWay(i, flight, hand);
  }

  /** Restores: what a finished restore received and built is, name by name, the replay of the server's log
      as it was when the restore was served, up to the date asked for; every built file's folder was there. */
  lemma RestoreIsReplay(c: Config, s0: State, ls: seq<Label>, s: State, k: nat)
    requires Reached(c, s0, ls, s) && k < |s.restored|
    ensures var r := s.restored[k];
            r.at <= |s.log| && Depicts(r.files, Replay(Cut(s.log[..r.at], r.date))) &&
            r.built == MapOf(r.files) && ParentClosed(r.built)
  {
    hide *;
    RunInv(c, s0, ls, s);
    Open(c, s);
    var r := s.restored[k];
    RestoredMeans(c.dg, s.log, s.done, s.restored, k);
    HistoryMeans(c.dg, s.log, s.table, s.phase, s.day);
    LogPrefix(s.log, r.at);
    ReplayNames(s.log[..r.at], r.date);
    DepictsNames(r.files, Replay(Cut(s.log[..r.at], r.date)));
    BuildExact(r.files);
  }

  lemma RestoredMeans(dg: Digest, log: seq<Entry>, ds: seq<Done>, restored: seq<Restored>, k: nat)
    requires RestoresOk(dg, log, ds, restored) && k < |restored|
    ensures restored[k].at <= |log| && Depicts(restored[k].files, Replay(Cut(log[..restored[k].at], restored[k].date)))
    ensures Build(restored[k].files) == Some(restored[k].built)
  {
    hide Depicts, Replay, Cut, Build;
  }

  lemma HistoryMeans(dg: Digest, log: seq<Entry>, table: Table, phase: Phase, day: string)
    requires HistoryOk(dg, log, table, phase, day)
    ensures LogOk(log) && HashesOk(dg, log) && ByDay(log) && table == TableOf(log)
    ensures forall i :: 0 <= i < |log| ==> Le(log[i].day, day)
  {
    hide Le, LogOk, HashesOk, ByDay, TableOf;
    forall i | 0 <= i < |log| ensures Le(log[i].day, day) { LeTrans(log[i].day, Clock(phase, day), day); }
  }

  lemma LogPrefix(log: seq<Entry>, n: nat)
    requires LogOk(log) && n <= |log|
    ensures LogOk(log[..n])
  {
    hide NameOk, RowOk;
  }

  lemma DepictsNames(fs: seq<File>, m: map<string, Row>)
    requires Depicts(fs, m)
    ensures Sorted(Names(fs)) && ("" in Names(fs) <==> "" in m)
  {
    hide Sorted, Pictures;
  }

  lemma ReplayNames(log: seq<Entry>, date: string)
    requires LogOk(log)
    ensures "" !in Replay(Cut(log, date))
  {
    CutEntries(log, date);
    PlayedNames(Cut(log, date));
  }

  lemma {:induction false} CutEntries(log: seq<Entry>, date: string)
    requires LogOk(log)
    ensures forall i :: 0 <= i < |Cut(log, date)| ==> Cut(log, date)[i].name != ""
    decreases log
  {
    hide RowOk, Le;
    if log != [] { CutEntries(log[..|log| - 1], date); }
  }

  lemma {:induction false} PlayedNames(log: seq<Entry>)
    requires forall i :: 0 <= i < |log| ==> log[i].name != ""
    ensures "" !in Replay(log)
    decreases log
  {
    if log != [] { PlayedNames(log[..|log| - 1]); }
  }

  /** The table is always the one left by the history of accepted actions, the server's view as of any date
      is the replay of that history, and the history is one a next session may start from. */
  lemma TableIsLog(c: Config, s0: State, ls: seq<Label>, s: State)
    requires Reached(c, s0, ls, s)
    ensures s.table == TableOf(s.log) && TableOk(s.table)
    ensures LogOk(s.log) && HashesOk(c.dg, s.log) && ByDay(s.log) && forall i :: 0 <= i < |s.log| ==> Le(s.log[i].day, s.day)
    ensures forall date :: AsOf(s.table, date) == Replay(Cut(s.log, date))
  {
    hide *;
    RunInv(c, s0, ls, s);
    Open(c, s);
    TableFine(c.dg, s.log, s.table, s.phase, s.day);
    HistoryMeans(c.dg, s.log, s.table, s.phase, s.day);
    forall date ensures AsOf(s.table, date) == Replay(Cut(s.log, date)) { SortedLogRefines(s.log, date); }
  }

  // ----- what a backup is for -----

  /** No stored file and no file of the folder share a digest without being equal. */
  ghost predicate NoCollision(dg: Digest, log: seq<Entry>, t: Tree)
  {
    forall i, p :: 0 <= i < |log| && log[i].row.action == READ_FILE && p in t && t[p].Plain? ==>
      dg(log[i].row.file) == dg(t[p].content) ==> log[i].row.file == t[p].content
  }

  /** b is the folder t: the same paths below main, the same kinds, the same contents. */
  ghost predicate Shows(main: string, b: Built, t: Tree)
  {
    && (forall p :: p in t ==> main <= p && p[|main|..] in b)
    && forall n :: n in b ==>
         main + n in t && (b[n].isDir <==> t[main + n].Folder?) && (!b[n].isDir ==> b[n].content == t[main + n].content)
  }

  /** The backup gives back the folder: in every run, when nothing is under way and nothing has failed, a
      restore that was served after the last accepted change, as of a date not before the newest row, has built
      exactly the folder last scanned. */
  lemma RestoreGivesTheFolder(c: Config, s0: State, ls: seq<Label>, s: State, k: nat)
    requires Reached(c, s0, ls, s) && k < |s.restored|
    requires s.started && s.todo == [] && s.ring == [] && (s.hand.Idle? || s.hand.Quitted?) && s.pending == map[]
    requires s.restored[k].at == |s.log| && forall i :: 0 <= i < |s.log| ==> Le(s.log[i].day, s.restored[k].date)
    requires NoCollision(c.dg, s.log, s.seen)
    ensures Shows(c.main, s.restored[k].built, s.seen)
  {
    hide *;
    var r := s.restored[k];
    RestoreIsReplay(c, s0, ls, s, k);
    TableIsLog(c, s0, ls, s);
    EndToEnd(c, s0, ls, s);
    RunInv(c, s0, ls, s);
    Open(c, s);
    Sha(c);
    SeenBelow(c, s.tree, s.seen, s.started, s.index, s.todo, s.ring, s.hand);
    assert s.log[..r.at] == s.log;
    NewestRows(s.log, s.table, r.date);
    CurrentIsAsOf(s.table, r.date);
    BuiltShows(c, s.log, s.table, r.date, r.files, s.seen);
  }

  lemma SeenBelow(c: Config, tree: Tree, seen: Tree, started: bool, index: map<string, int>, todo: seq<Event>,
                  ring: seq<Action>, hand: Hand)
    requires TreesOk(c, tree, seen, started, index, todo, ring, hand)
    ensures forall p :: p in seen ==> c.main <= p
  {
    hide NameOk, Mtimes, Quiet;
  }

  lemma NewestRows(log: seq<Entry>, t: Table, date: string)
    requires t == TableOf(log) && forall i :: 0 <= i < |log| ==> Le(log[i].day, date)
    ensures forall k :: k in t ==> Le(k.1, date)
  {
    TableDays(log);
    hide TableOf, Le;
    forall k | k in t ensures Le(k.1, date) {
      var i :| 0 <= i < |log| && log[i].name == k.0 && log[i].day == k.1;
    }
  }

  lemma BuiltShows(c: Config, log: seq<Entry>, t: Table, date: string, fs: seq<File>, seen: Tree)
    requires t == TableOf(log) && LogOk(log) && HashesOk(c.dg, log) && Sha256Like(c.dg) && NoCollision(c.dg, log, seen)
    requires Depicts(fs, AsOf(t, date)) && Current(t) == Hashes(AsOf(t, date))
    requires ServerView(c, t) == TreeView(c.dg, seen) && forall p :: p in seen ==> c.main <= p
    ensures Shows(c.main, MapOf(fs), seen)
  {
    hide *;
    var m, b := AsOf(t, date), MapOf(fs);
    MapOfKeys(fs);
    DepictsNames(fs, m);
    forall p | p in seen ensures c.main <= p && p[|c.main|..] in b {
      ViewAt(c, t, m, seen, p[|c.main|..]);
      assert c.main + p[|c.main|..] == p;
      DepictsAt(fs, m, p[|c.main|..]);
    }
    forall n | n in b
      ensures c.main + n in seen && (b[n].isDir <==> seen[c.main + n].Folder?) && (!b[n].isDir ==> b[n].content == seen[c.main + n].content)
    {
      DepictsAt(fs, m, n);
      ViewAt(c, t, m, seen, n);
      MapPictures(fs, m, n);
      var e := RowOfLog(log, t, date, n);
      SameNode(c.dg, log, e, b[n], n, seen, c.main + n);
    }
    ShowsWhen(c.main, b, seen);
  }

  lemma ShowsWhen(main: string, b: Built, t: Tree)
    requires forall p :: p in t ==> main <= p && p[|main|..] in b
    requires forall n :: n in b ==>
               main + n in t && (b[n].isDir <==> t[main + n].Folder?) && (!b[n].isDir ==> b[n].content == t[main + n].content)
    ensures Shows(main, b, t)
  {
  }

  lemma ViewAt(c: Config, t: Table, m: map<string, Row>, seen: Tree, n: string)
    requires ServerView(c, t) == TreeView(c.dg, seen) && Current(t) == Hashes(m)
    ensures n in m <==> c.main + n in seen
    ensures n in m ==> m[n].hash == NodeHash(c.dg, seen[c.main + n])
  {
    hide Current, NodeHash;
    assert (c.main + n)[|c.main|..] == n;
    assert c.main + n in seen <==> c.main + n in TreeView(c.dg, seen);
    assert n in Current(t) <==> n in m;
  }

  lemma DepictsAt(fs: seq<File>, m: map<string, Row>, n: string)
    requires Depicts(fs, m)
    ensures n in Names(fs) <==> n in m
  {
    hide Sorted, Pictures;
  }

  lemma MapPictures(fs: seq<File>, m: map<string, Row>, n: string)
    requires Depicts(fs, m) && n in Names(fs) && Sorted(Names(fs))
    ensures n in m && n in MapOf(fs) && Pictures(MapOf(fs)[n], n, m[n])
  {
    hide Sorted, Pictures, MapOf;
    var i :| 0 <= i < |Names(fs)| && Names(fs)[i] == n;
    MapOfAt(fs, i);
  }

  /** Every row a query returns was entered by some call. */
  lemma RowOfLog(log: seq<Entry>, t: Table, date: string, n: string) returns (i: nat)
    requires t == TableOf(log) && n in AsOf(t, date)
    ensures i < |log| && log[i].row == AsOf(t, date)[n] && log[i].row.action != DELETE_PATH
  {
    var k := AsOfKey(t, n, date);
    TableDays(log);
    hide AsOf, TableOf, Le;
    i :| 0 <= i < |log| && log[i].name == k.0 && log[i].day == k.1 && log[i].row == t[k];
  }

  /** Equal hashes mean equal nodes. */
  lemma SameNode(dg: Digest, log: seq<Entry>, i: nat, f: File, n: string, t: Tree, p: string)
    requires i < |log| && LogOk(log) && HashesOk(dg, log) && Sha256Like(dg) && NoCollision(dg, log, t)
    requires log[i].row.action != DELETE_PATH && p in t && log[i].row.hash == NodeHash(dg, t[p]) && Pictures(f, n, log[i].row)
    ensures f.isDir <==> t[p].Folder?
    ensures !f.isDir ==> f.content == t[p].content
  {
    hide NameOk, ToString, IntText, Sha256Like, FileHash;
    var row := log[i].row;
    assert RowOk(row);
    if t[p].Plain? {
      FileHashText(dg, t[p].content);
      SameDigest(dg, row.file, t[p].content);
    }
    if row.action == READ_FILE { FileHashText(dg, row.file); }
  }

  lemma SameDigest(dg: Digest, a: string, b: string)
    ensures FileHash(dg, a) == FileHash(dg, b) <==> dg(a) == dg(b)
  {
    HexInjective(dg(a), dg(b));
  }
}
