/** Left alone, the system settles: the states in which it can do nothing more within the hypotheses are
    characterised exactly, and the work it can do without a new impulse from the user, the clock or the folder
    is bounded. */
module Progress {
  import opened Text
  import opened Streams
  import opened Wire
  import opened Store
  import opened Actions
  import opened Watcher
  import opened Responses
  import opened Rebuild
  import opened Handler
  import opened Client
  import opened System
  import opened Channels
  import opened Sync
  import opened Invariant
  import opened ConsumerSteps
  import opened ExchangeSteps
  import opened StepForms
  import opened Theorems

  /** What the threads and the server do by themselves. The clock, the folder, the user and the next periodic
      scan come from outside. */
  predicate Internal(l: Label)
  {
    !(l.NextDay? || l.TreeChange? || l.StartScan? || l.UserRestore? || l.UserQuit?)
  }

  /** A step the system can take by itself within the hypotheses. A paused watcher is not relied on to end. */
  ghost predicate Moves(c: Config, s: State, l: Label)
  {
    Internal(l) && Step(c, s, l).Some? && !(l.StopWatcher? && s.reader.Fetching?)
  }

  ghost predicate AtRest(c: Config, s: State) { !exists l :: Moves(c, s, l) }

  /** Nothing is left to do: no event, action or request is under way, and if the user has asked to quit the
      response consumer has finished. */
  predicate Settled(s: State)
  {
    s.started && s.todo == [] && s.ring == [] && s.requests == [] && s.done == [] &&
    (if s.asked then s.reader.Finished? else s.hand.Idle?)
  }

  /** Actions the consumer gets rid of without writing. */
  predicate Silent(t: Tree, a: Action) { (a.Change? && a.kind == IGNORE) || TooBig(t, a) }

  /** Where the hypothesis on a restore header and its date cannot be kept: the response consumer, told of the
      restore, is in pause() for the end of a scan; the scan, with events left, waits for room in the ring; the
      server waits for the date. Only the action consumer, with an action to write, can go on, and its next
      header is what the hypothesis forbids. */
  predicate Cornered(c: Config, s: State)
  {
    && s.scanning && |s.ring| == c.capacity - 1
    && s.hand.Added? && !Silent(s.tree, s.hand.action)
    && s.awaiting && s.done == [] && |s.requests| == 1 && s.phase.Running?
  }

  /** Where the program throws: a restored entry's folder is missing or closed to its owner, a restore has more
      entries than an int counts, or the counter of actions has run out. */
  ghost predicate Throws(s: State)
  {
    || (s.reader.Fetching? && DecData(s.cin).Got? && Build(DecData(s.cin).value).None?)
    || (s.phase.Running? && s.phase.head.kind == RESTORE && DecTail(s.sin, RESTORE).Got? &&
        |AsOf(s.table, DecTail(s.sin, RESTORE).value)| > INT_MAX)
    || (s.hand.Holding? && s.next > INT_MAX)
  }

  /** The start the hypotheses exclude: a folder stands where the server knows a file. */
  ghost predicate Barred(s: State)
  {
    !s.reader.Handshake? && !s.started && !NoFolderForFile(s.initial, s.tree)
  }

  // ----- when a step is enabled -----

  lemma HeadReady(c: Config, s: State, open: bool)
    requires UpOk(s.sin, s.phase, s.requests, open) && s.phase.Waiting? && s.requests != []
    ensures Moves(c, s, ServeHead)
  {
    hide DecHeader, Greeting, UpOk;
    UpServeHead(s.sin, s.requests, open);
  }

  lemma TailReady(c: Config, s: State, open: bool)
    requires UpOk(s.sin, s.phase, s.requests, open) && s.phase.Running? && !(open && |s.requests| == 1) && !Throws(s)
    ensures Moves(c, s, ServeTail(true))
  {
    hide DecTail, DecData, Build, Reply, Execute, EntryFor, AsOf, UpOk;
    UpServeTail(s.sin, s.phase.head, s.phase.day, s.requests, open);
  }

  lemma ResponseReady(c: Config, s: State)
    requires s.reader.Listening? && DecResponse(s.cin).Got?
    requires s.scanning && DecResponse(s.cin).value.1 == RECEIVED ==> !At(s.pending, DecResponse(s.cin).value.0).action.Restoration?
    ensures Moves(c, s, ReadResponse)
  {
    hide DecResponse, Answered, EncDate;
  }

  lemma FetchReady(c: Config, s: State)
    requires s.reader.Fetching? && DecData(s.cin).Got? && !Throws(s)
    ensures Moves(c, s, FetchRestore)
  {
    hide DecData, Build, Answered, DecTail, AsOf;
  }

  lemma StatusReady(c: Config, s: State)
    requires Inv(c, s) && s.reader.Handshake?
    ensures Moves(c, s, ReadInitialStatus)
  {
    hide Inv, Step;
    InvReadInitialStatus(c, s);
  }

  lemma StartReady(c: Config, s: State) returns (es: seq<Event>)
    requires !s.reader.Handshake? && !s.started && !Barred(s)
    ensures Moves(c, s, StartUp(es))
  {
    es := DiffExists(s.initial.Keys, s.tree, HashChanged(c.dg, s.initial, s.tree));
    hide IsDiff, HashChanged, NoFolderForFile, Mtimes;
  }

  lemma BodyReady(c: Config, s: State)
    requires TreesOk(c, s.tree, s.seen, s.started, s.index, s.todo, s.ring, s.hand) && BodyOk(s.seen, s.hand, s.requests)
    requires s.hand.Body?
    ensures Moves(c, s, WriteBody)
  {
    hide EncBody, TreeOk, Mtimes;
  }

  lemma HoldingReady(c: Config, s: State)
    requires s.hand.Holding? && !Throws(s)
    ensures Moves(c, s, AddPending)
  {
    hide DecData, Build, DecTail, AsOf;
  }

  lemma SilentReady(c: Config, s: State)
    requires s.hand.Added? && Silent(s.tree, s.hand.action)
    ensures Moves(c, s, DropIgnored) || Moves(c, s, RejectOversized)
  {
    hide Answered, TooBig;
  }

  lemma PushReady(c: Config, s: State)
    requires s.todo != [] && |s.ring| < c.capacity - 1
    ensures Moves(c, s, PushEvent)
  {
    hide ToAction;
  }

  lemma PopReady(c: Config, s: State)
    requires s.hand.Idle? && s.ring != []
    ensures Moves(c, s, Pop)
  {
  }

  lemma HeaderReady(c: Config, s: State)
    requires TreesOk(c, s.tree, s.seen, s.started, s.index, s.todo, s.ring, s.hand) && WorkOk(c, s.seen, s.todo, s.ring, s.hand)
    requires s.hand.Added? && !s.awaiting && !Silent(s.tree, s.hand.action)
    ensures Moves(c, s, WriteHeader(0, 0))
  {
    hide EncHeader, TreeOk, Mtimes, Send;
    assert RequestFor(c.main, s.tree, s.hand.action, s.hand.index, 0, 0).Some?;
  }

  lemma EndReady(c: Config, s: State)
    requires s.hand.Idle? && s.ring == [] && s.todo == [] && !s.awaiting && s.started && s.asked && !s.reader.Fetching?
    ensures Moves(c, s, StopWatcher) || Moves(c, s, TerminateRing) || Moves(c, s, WriteQuit)
  {
    hide EncHeader, Send, QuitHeader;
    if s.terminated {
      assert Step(c, s, WriteQuit).Some?;
    } else if s.stopped {
      assert Step(c, s, TerminateRing).Some?;
    } else {
      assert Step(c, s, StopWatcher).Some?;
    }
  }

  // ----- one of them always is -----

  /** An answer that is written and not read off can be read on. */
  lemma UnreadReady(c: Config, s: State)
    requires Inv(c, s) && s.done != [] && !Throws(s)
    ensures exists l :: Moves(c, s, l)
  {
    hide *;
    Open(c, s);
    FlightFirst(s.done, s.requests);
    var flight := Flight(s.done, s.requests);
    ReaderOpen(s.reader, flight, s.phase, s.hand);
    if s.reader.Fetching? {
      FetchingIsGreeted(s.cin, s.phase, s.done, s.eaten);
      DownFetch(s.cin, s.phase, s.done);
      FetchReady(c, s);
    } else if s.eaten.Nothing? {
      DownReadGreeting(s.cin, s.phase, s.done);
      Statuses();
      AnsweredIsNoRestore(s.awaiting, flight, s.requests, s.hand, s.done);
      if s.done[0].request.head.kind != QUIT { GreetingNext(c, s); }
      ResponseReady(c, s);
    } else {
      DownReadEnd(s.cin, s.phase, s.done, s.eaten);
      Statuses();
      ResponseReady(c, s);
    }
  }

  lemma ReaderOpen(reader: Reader, flight: seq<Request>, phase: Phase, hand: Hand)
    requires ReaderOk(reader, flight, phase, hand)
    ensures flight != [] ==> !reader.Finished?
    ensures flight == [] ==> !reader.Fetching? && (hand.Quitted? ==> reader.Finished?)
    ensures reader.Finished? ==> phase.Closed?
  {
  }

  /** A restore is not answered before the client has been told of it. */
  lemma AnsweredIsNoRestore(awaiting: bool, flight: seq<Request>, rs: seq<Request>, hand: Hand, ds: seq<Done>)
    requires AwaitOk(awaiting, flight, rs, Nothing, hand) && flight == Flight(ds, rs) && ds != []
    ensures flight[0].head.kind != RESTORE
  {
    FlightFirst(ds, rs);
    hide Flight;
  }

  /** With no answer unread, the oldest request moves on: the server reads it, the client sends what it waits
      for, or the scan that holds up a restore moves on. */
  lemma RequestReady(c: Config, s: State)
    requires Inv(c, s) && s.done == [] && s.requests != [] && !Throws(s) && !Cornered(c, s)
    ensures exists l :: Moves(c, s, l)
  {
    hide *;
    Open(c, s);
    FirstUnanswered(s.done, s.requests);
    var open := s.hand.Body? || s.awaiting;
    Phases(s.sin, s.phase, s.requests, open);
    if s.hand.Body? {
      BodyReady(c, s);
    } else if s.phase.Waiting? {
      HeadReady(c, s, open);
    } else if s.awaiting && |s.requests| == 1 {
      AwaitedReady(c, s);
    } else {
      TailReady(c, s, open);
    }
  }

  lemma Phases(sin: Stream, phase: Phase, rs: seq<Request>, open: bool)
    requires UpOk(sin, phase, rs, open)
    ensures rs != [] ==> !phase.Closed?
    ensures phase.Running? ==> rs != []
  {
  }

  /** The server waits for a date: the client is told of the restore, unless a scan has to end before. */
  lemma AwaitedReady(c: Config, s: State)
    requires Inv(c, s) && s.done == [] && |s.requests| == 1 && s.awaiting && s.phase.Running? && !Throws(s) && !Cornered(c, s)
    ensures exists l :: Moves(c, s, l)
  {
    hide *;
    if s.scanning {
      ScanReady(c, s);
    } else {
      AwaitedGreeting(c, s);
      ResponseReady(c, s);
    }
  }

  lemma AwaitedGreeting(c: Config, s: State)
    requires Inv(c, s) && s.done == [] && |s.requests| == 1 && s.awaiting && s.phase.Running?
    ensures s.reader.Listening? && s.eaten.Nothing? && DecResponse(s.cin).Got? && !s.hand.Body?
    ensures var (i, st) := DecResponse(s.cin).value; st == RECEIVED && At(s.pending, i).action.Restoration?
  {
    hide *;
    Open(c, s);
    FirstUnanswered(s.done, s.requests);
    FlightFirst(s.done, s.requests);
    AwaitMeans(s.awaiting, Flight(s.done, s.requests), s.requests, s.eaten, s.hand);
    ReaderOpen(s.reader, Flight(s.done, s.requests), s.phase, s.hand);
    if s.reader.Fetching? { FetchingIsGreeted(s.cin, s.phase, s.done, s.eaten); }
    DownReadGreeting(s.cin, s.phase, s.done);
    GreetingNext(c, s);
  }

  lemma AwaitMeans(awaiting: bool, flight: seq<Request>, rs: seq<Request>, eaten: Eaten, hand: Hand)
    requires AwaitOk(awaiting, flight, rs, eaten, hand) && awaiting
    ensures !hand.Body? && rs != [] && rs[|rs| - 1].head.kind == RESTORE && (|flight| == 1 ==> eaten.Nothing?)
  {
  }

  lemma ScanReady(c: Config, s: State)
    requires Inv(c, s) && s.done == [] && |s.requests| == 1 && s.awaiting && s.phase.Running? && s.scanning
    requires !Throws(s) && !Cornered(c, s)
    ensures exists l :: Moves(c, s, l)
  {
    hide *;
    Open(c, s);
    ShutStopped(s);
    OrderMeans(s.pushed, s.handled, s.hand, s.ring, c.capacity);
    Capacity(c);
    AwaitMeans(s.awaiting, Flight(s.done, s.requests), s.requests, s.eaten, s.hand);
    match s.hand
    case Holding(_) => HoldingReady(c, s);
    case Added(_, _) =>
      if Silent(s.tree, s.hand.action) {
        SilentReady(c, s);
      } else {
        NotCornered(c, s);
        PushReady(c, s);
      }
    case Idle => if s.ring != [] { PopReady(c, s); } else { PushReady(c, s); }
    case Body(_) =>
    case Quitted => StoppedOrder(c, s);
  }

  lemma Capacity(c: Config)
    requires ConfigOk(c)
    ensures c.capacity >= 2
  {
  }

  lemma NotCornered(c: Config, s: State)
    requires s.scanning && s.hand.Added? && !Silent(s.tree, s.hand.action)
    requires s.awaiting && s.done == [] && |s.requests| == 1 && s.phase.Running? && !Cornered(c, s)
    ensures |s.ring| != c.capacity - 1
  {
  }

  /** With no request under way the consumer, the watcher and the shutdown move on. */
  lemma HandReady(c: Config, s: State)
    requires Inv(c, s) && s.started && s.done == [] && s.requests == [] && !Settled(s) && !Throws(s)
    ensures exists l :: Moves(c, s, l)
  {
    hide *;
    Open(c, s);
    StoppedOrder(c, s);
    ShutStopped(s);
    Capacity(c);
    FlightFirst(s.done, s.requests);
    ReaderOpen(s.reader, Flight(s.done, s.requests), s.phase, s.hand);
    HandMeans(s);
    NoAwait(s.awaiting, Flight(s.done, s.requests), s.requests, s.eaten, s.hand);
    match s.hand
    case Holding(_) => HoldingReady(c, s);
    case Added(_, _) => if Silent(s.tree, s.hand.action) { SilentReady(c, s); } else { HeaderReady(c, s); }
    case Idle =>
      if s.ring != [] {
        PopReady(c, s);
      } else if s.todo != [] {
        PushReady(c, s);
      } else {
        EndReady(c, s);
      }
    case Body(_) => BodyReady(c, s);
    case Quitted =>
  }

  lemma NoAwait(awaiting: bool, flight: seq<Request>, rs: seq<Request>, eaten: Eaten, hand: Hand)
    requires AwaitOk(awaiting, flight, rs, eaten, hand) && rs == []
    ensures !awaiting
  {
  }

  lemma HandMeans(s: State)
    requires s.started && s.done == [] && s.requests == [] && !Settled(s)
    ensures s.hand.Idle? && s.ring == [] && s.todo == [] ==> s.asked
    ensures s.hand.Quitted? && s.ring == [] && s.todo == [] && s.asked ==> !s.reader.Finished?
  {
  }

  /** A state either has a step of its own that keeps the hypotheses, or has settled, throws, is barred or
      cornered. */
  lemma StepOrRest(c: Config, s: State)
    requires Inv(c, s)
    ensures Settled(s) || Throws(s) || Barred(s) || Cornered(c, s) || exists l :: Moves(c, s, l)
  {
    hide *;
    if !Settled(s) && !Throws(s) && !Barred(s) && !Cornered(c, s) {
      if s.reader.Handshake? {
        StatusReady(c, s);
      } else if !s.started {
        var es := StartReady(c, s);
      } else if s.done != [] {
        UnreadReady(c, s);
      } else if s.requests != [] {
        RequestReady(c, s);
      } else {
        HandReady(c, s);
      }
    }
  }

  // ----- and none in those states -----

  /** What a settled or cornered state shows to every thread. */
  ghost predicate Blocked(s: State)
  {
    && s.started && !s.reader.Handshake? && !s.reader.Fetching? && !s.hand.Holding? && !s.hand.Body?
    && !DecHeader(s.sin).Got?
    && (s.phase.Running? ==> !DecTail(s.sin, s.phase.head.kind).Got?)
    && (s.reader.Listening? && DecResponse(s.cin).Got? ==>
          s.scanning && DecResponse(s.cin).value.1 == RECEIVED && At(s.pending, DecResponse(s.cin).value.0).action.Restoration?)
  }

  lemma NetworkRests(c: Config, s: State, engine: bool)
    requires Blocked(s)
    ensures !Moves(c, s, ServeHead) && !Moves(c, s, ServeTail(engine)) && !Moves(c, s, ReadResponse) && !Moves(c, s, FetchRestore)
  {
    hide *;
    ServerSteps(c, s, engine);
    ReaderSteps(c, s);
    HeadRests(s);
    TailRests(c, s, engine);
    ReadRests(s);
    StepOfMove(c, s, ServeHead);
    StepOfMove(c, s, ServeTail(engine));
    StepOfMove(c, s, ReadResponse);
    StepOfMove(c, s, FetchRestore);
  }

  lemma StepOfMove(c: Config, s: State, l: Label)
    ensures Moves(c, s, l) ==> Step(c, s, l).Some? && Internal(l)
  {
    hide Step;
  }

  lemma HeadRests(s: State)
    requires Blocked(s)
    ensures StepServeHead(s).None?
  {
    hide DecHeader, DecTail, DecResponse, Greeting;
  }

  lemma TailRests(c: Config, s: State, engine: bool)
    requires Blocked(s)
    ensures StepServeTail(c, s, engine).None?
  {
    hide DecHeader, DecTail, DecResponse, Reply, Execute, EntryFor, AsOf;
  }

  lemma ReadRests(s: State)
    requires Blocked(s)
    ensures StepReadResponse(s).None? && StepFetch(s).None?
  {
    hide DecHeader, DecTail, DecResponse, DecData, Build, Answered, EncDate;
  }

  /** The client's own threads, when nothing is in hand and nothing is left, or when the hand may not write. */
  lemma ClientRests(c: Config, s: State, l: Label)
    requires Blocked(s) && !(l.ServeHead? || l.ServeTail? || l.ReadResponse? || l.FetchRestore?)
    requires s.todo == [] || |s.ring| >= c.capacity - 1
    requires s.hand.Idle? ==> s.ring == [] && !s.terminated
    requires s.hand.Added? ==> s.awaiting && !Silent(s.tree, s.hand.action)
    requires (s.todo == [] ==> !s.asked || s.stopped) && (s.stopped ==> s.terminated)
    ensures !Moves(c, s, l)
  {
    hide DecHeader, DecTail, DecResponse, DecInit, StepServeHead, StepServeTail, StepReadResponse, StepFetch, TooBig, Answered, EncHeader, EncBody, Send, ToAction, NoFolderForFile, IsDiff, Mtimes, HashChanged;
  }

  lemma StateRests(c: Config, s: State, l: Label)
    requires Blocked(s)
    requires s.todo == [] || |s.ring| >= c.capacity - 1
    requires s.hand.Idle? ==> s.ring == [] && !s.terminated
    requires s.hand.Added? ==> s.awaiting && !Silent(s.tree, s.hand.action)
    requires (s.todo == [] ==> !s.asked || s.stopped) && (s.stopped ==> s.terminated)
    ensures !Moves(c, s, l)
  {
    hide *;
    match l
    case ServeHead => NetworkRests(c, s, true);
    case ServeTail(engine) => NetworkRests(c, s, engine);
    case ReadResponse => NetworkRests(c, s, true);
    case FetchRestore => NetworkRests(c, s, true);
    case _ => ClientRests(c, s, l);
  }

  lemma SettledRests(c: Config, s: State, l: Label)
    requires Inv(c, s) && Settled(s)
    ensures !Moves(c, s, l)
  {
    hide *;
    Open(c, s);
    StoppedOrder(c, s);
    ShutStopped(s);
    SettledMeans(s);
    FlightFirst(s.done, s.requests);
    var open := s.hand.Body? || s.awaiting;
    ReaderOpen(s.reader, Flight(s.done, s.requests), s.phase, s.hand);
    if s.reader.Finished? { FinishedMeans(s.reader, Flight(s.done, s.requests), s.requests, s.phase, s.hand); }
    Phases(s.sin, s.phase, s.requests, open);
    NothingEaten(s);
    DownReadGreeting(s.cin, s.phase, s.done);
    QuietHeader(s, open);
    BlockedWhen(s);
    StateRests(c, s, l);
  }

  lemma SettledMeans(s: State)
    requires Settled(s)
    ensures s.started && s.todo == [] && s.ring == [] && s.requests == [] && s.done == []
    ensures if s.asked then s.reader.Finished? else s.hand.Idle?
  {
  }

  /** Without a request to come no header can be read. */
  lemma QuietHeader(s: State, open: bool)
    requires UpOk(s.sin, s.phase, s.requests, open) && (s.requests == [] || (|s.requests| == 1 && open && s.phase.Running?))
    ensures !DecHeader(s.sin).Got?
  {
    hide EncHeader, EncRequests, AllOk, DecHeader;
    var n := |s.requests| - 1;
    if n == 0 {
      assert s.requests[..0] == [] && "" + EncHeader(s.requests[0].head) == EncHeader(s.requests[0].head);
      EncRequestsNone();
      SameRest(EncHeader(s.requests[0].head), s.sin.net, "") by { assert EncHeader(s.requests[0].head) + "" == EncHeader(s.requests[0].head); }
    } else {
      EncRequestsNone();
      assert "" + s.sin.net == s.sin.net;
    }
    NothingToRead(s.sin);
  }

  lemma BlockedWhen(s: State)
    requires s.started && !s.reader.Handshake? && !s.reader.Fetching? && !s.hand.Holding? && !s.hand.Body?
    requires !DecHeader(s.sin).Got?
    requires s.phase.Running? ==> !DecTail(s.sin, s.phase.head.kind).Got?
    requires s.reader.Listening? && DecResponse(s.cin).Got? ==>
               s.scanning && DecResponse(s.cin).value.1 == RECEIVED && At(s.pending, DecResponse(s.cin).value.0).action.Restoration?
    ensures Blocked(s)
  {
    hide DecHeader, DecTail, DecResponse;
  }

  lemma CorneredRests(c: Config, s: State, l: Label)
    requires Inv(c, s) && Cornered(c, s)
    ensures !Moves(c, s, l)
  {
    hide *;
    Open(c, s);
    CorneredMeans(c, s);
    StoppedOrder(c, s);
    ShutStopped(s);
    AwaitedGreeting(c, s);
    var open := s.hand.Body? || s.awaiting;
    UpServeTail(s.sin, s.phase.head, s.phase.day, s.requests, open);
    QuietHeader(s, open);
    BlockedWhen(s);
    StateRests(c, s, l);
  }

  lemma CorneredMeans(c: Config, s: State)
    requires Cornered(c, s)
    ensures s.scanning && |s.ring| == c.capacity - 1 && s.hand.Added? && !Silent(s.tree, s.hand.action)
    ensures s.awaiting && s.done == [] && |s.requests| == 1 && s.phase.Running?
  {
    hide Silent;
  }

  /** Where the system can do nothing more by itself within the hypotheses: exactly where it has settled or is
      cornered. */
  lemma RestExact(c: Config, s: State)
    requires Inv(c, s) && !Throws(s) && !Barred(s)
    ensures AtRest(c, s) <==> Settled(s) || Cornered(c, s)
    ensures !(Settled(s) && Cornered(c, s))
  {
    hide Inv, Moves, Throws, Barred, Silent;
    StepOrRest(c, s);
    if Settled(s) {
      forall l ensures !Moves(c, s, l) { SettledRests(c, s, l); }
    }
    if Cornered(c, s) {
      forall l ensures !Moves(c, s, l) { CorneredRests(c, s, l); }
    }
  }

  // ----- how much is left to do -----

  function HandWork(hand: Hand): int
  {
    match hand
    case Idle => 6
    case Holding(_) => 14
    case Added(_, _) => 13
    case Body(_) => 7
    case Quitted => 0
  }

  function EatenWork(eaten: Eaten): int { if eaten.Nothing? then 0 else if eaten.Greeted? then 1 else 2 }

  /** What the start-up diff may still bring: an event for each path the server or the folder has. */
  ghost function StartWork(c: Config, s: State): int
  {
    if s.started then 0
    else if s.reader.Handshake? then 2 + 10 * |ServerView(c, s.table).Keys + s.tree.Keys|
    else 1 + 10 * |s.initial.Keys + s.tree.Keys|
  }

  /** What is under way: each event passes through the ring, the consumer's hand, the server and the response
      consumer. */
  function FlowWork(s: State): int
  {
    10 * |s.todo| + 9 * |s.ring| + HandWork(s.hand) + 5 * |s.requests| + 3 * |s.done|
    - (if s.phase.Running? then 1 else 0) - EatenWork(s.eaten)
    + (if s.stopped then 0 else 1) + (if s.terminated then 0 else 1)
  }

  /** A bound on the steps left. */
  ghost function Work(c: Config, s: State): int { StartWork(c, s) + FlowWork(s) }

  lemma WorkIsLeft(c: Config, s: State)
    requires Inv(c, s)
    ensures Work(c, s) >= 0
  {
    hide *;
    Open(c, s);
    var open := s.hand.Body? || s.awaiting;
    Phases(s.sin, s.phase, s.requests, open);
    if !s.reader.Handshake? { EatenMeans(s.cin, s.phase, s.done, s.eaten, s.reader.Fetching?); }
    FlowIsLeft(c, s);
  }

  lemma EatenMeans(cin: Stream, phase: Phase, ds: seq<Done>, eaten: Eaten, fetching: bool)
    requires DownOk(cin, phase, ds, eaten, fetching)
    ensures !eaten.Nothing? ==> ds != [] || phase.Running?
  {
    hide WrittenDown, EatenBytes, DonesOk, HeaderOk;
  }

  lemma FlowIsLeft(c: Config, s: State)
    requires (s.phase.Running? ==> s.requests != []) && (!s.eaten.Nothing? ==> s.done != [] || s.phase.Running?)
    ensures Work(c, s) >= 0
  {
    hide ServerView;
  }

  /** Every step the system takes by itself uses up work. */
  lemma WorkShrinks(c: Config, s: State, l: Label, s2: State)
    requires Inv(c, s) && Step(c, s, l) == Some(s2) && Internal(l)
    ensures Work(c, s2) < Work(c, s) && s2.asked == s.asked
  {
    hide *;
    match l
    case ReadInitialStatus => StatusShrinks(c, s, s2);
    case StartUp(es) => StartShrinks(c, s, es, s2);
    case ServeHead => ServerSteps(c, s, true); ServeHeadShrinks(c, s, s2);
    case ServeTail(engine) => ServerSteps(c, s, engine); ServeTailShrinks(c, s, s2, engine);
    case ReadResponse => ReaderSteps(c, s); ResponseShrinks(c, s, s2);
    case FetchRestore => ReaderSteps(c, s); FetchShrinks(c, s, s2);
    case WriteHeader(mt, pm) => HeaderStep(c, s, mt, pm); HeaderShrinks(c, s, s2, mt, pm);
    case PushEvent => TakeShrinks(c, s, l, s2);
    case Pop => TakeShrinks(c, s, l, s2);
    case AddPending => TakeShrinks(c, s, l, s2);
    case DropIgnored => GiveShrinks(c, s, l, s2);
    case RejectOversized => GiveShrinks(c, s, l, s2);
    case WriteBody => GiveShrinks(c, s, l, s2);
    case WriteQuit => EndShrinks(c, s, l, s2);
    case StopWatcher => EndShrinks(c, s, l, s2);
    case TerminateRing => EndShrinks(c, s, l, s2);
    case _ => OutsideLabel(l);
  }

  lemma TakeShrinks(c: Config, s: State, l: Label, s2: State)
    requires Step(c, s, l) == Some(s2) && (l.PushEvent? || l.Pop? || l.AddPending?)
    ensures Work(c, s2) < Work(c, s) && s2.asked == s.asked
  {
    hide *;
    match l
    case PushEvent => PushIs(c, s, s2); ClientFlow(s, s2); SameStart(c, s, s2);
    case Pop => PopIs(c, s, s2); ClientFlow(s, s2); SameStart(c, s, s2);
    case AddPending => AddIs(c, s, s2); ClientFlow(s, s2); SameStart(c, s, s2);
  }

  lemma GiveShrinks(c: Config, s: State, l: Label, s2: State)
    requires Step(c, s, l) == Some(s2) && (l.DropIgnored? || l.RejectOversized? || l.WriteBody?)
    ensures Work(c, s2) < Work(c, s) && s2.asked == s.asked
  {
    hide *;
    match l
    case DropIgnored => DropIs(c, s, s2); ClientFlow(s, s2); SameStart(c, s, s2);
    case RejectOversized => RejectIs(c, s, s2); ClientFlow(s, s2); SameStart(c, s, s2);
    case WriteBody => BodyIs(c, s, s2); ClientFlow(s, s2); SameStart(c, s, s2);
  }

  lemma EndShrinks(c: Config, s: State, l: Label, s2: State)
    requires Step(c, s, l) == Some(s2) && (l.WriteQuit? || l.StopWatcher? || l.TerminateRing?)
    ensures Work(c, s2) < Work(c, s) && s2.asked == s.asked
  {
    hide *;
    match l
    case WriteQuit => QuitIs(c, s, s2); ClientFlow(s, s2); SameStart(c, s, s2);
    case StopWatcher => StopIs(c, s, s2); ClientFlow(s, s2); SameStart(c, s, s2);
    case TerminateRing => TerminateIs(c, s, s2); ClientFlow(s, s2); SameStart(c, s, s2);
  }

  lemma SameStart(c: Config, s: State, s2: State)
    requires FlowWork(s2) < FlowWork(s) && s2.started == s.started && s2.initial == s.initial && s2.tree == s.tree
    requires !s.started ==> s2.table == s.table || !s.reader.Handshake?
    requires s2.reader.Handshake? <==> s.reader.Handshake?
    ensures Work(c, s2) < Work(c, s)
  {
    hide FlowWork, ServerView;
  }

  lemma StatusShrinks(c: Config, s: State, s2: State)
    requires Inv(c, s) && Step(c, s, ReadInitialStatus) == Some(s2)
    ensures Work(c, s2) < Work(c, s) && s2.asked == s.asked
  {
    hide *;
    AtHandshake(c, s, s2);
    Open(c, s);
    InitialStatusIs(c, s);
    KnownShrinks(c, s, s2);
  }

  lemma KnownShrinks(c: Config, s: State, s2: State)
    requires s.reader.Handshake? && !s.started
    requires s2 == s.(cin := s2.cin, initial := ServerView(c, s.table), reader := Listening)
    ensures Work(c, s2) < Work(c, s)
  {
    hide ServerView;
  }

  lemma StartShrinks(c: Config, s: State, es: seq<Event>, s2: State)
    requires Inv(c, s) && Step(c, s, StartUp(es)) == Some(s2)
    ensures Work(c, s2) < Work(c, s) && s2.asked == s.asked
  {
    hide *;
    StartUpIs(c, s, es, s2);
    Open(c, s);
    BeforeStart(c, s);
    DiffSize(es, s.initial.Keys, s.tree, HashChanged(c.dg, s.initial, s.tree));
    EventsShrink(c, s, es, s2);
  }

  lemma EventsShrink(c: Config, s: State, es: seq<Event>, s2: State)
    requires s2 == s.(started := true, index := s2.index, todo := es, seen := s2.seen)
    requires !s.reader.Handshake? && !s.started && s.todo == [] && |es| <= |s.initial.Keys + s.tree.Keys|
    ensures Work(c, s2) < Work(c, s)
  {
    hide ServerView;
  }

  lemma HeaderShrinks(c: Config, s: State, s2: State, mt: int, pm: int)
    requires StepWriteHeader(c, s, mt, pm) == Some(s2)
    ensures Work(c, s2) < Work(c, s) && s2.asked == s.asked
  {
    hide *;
    WriteHeaderIs(c, s, s2, mt, pm);
    HeaderFlow(s, s2);
    SameStart(c, s, s2);
  }

  lemma HeaderFlow(s: State, s2: State)
    requires s.hand.Added? && (s2.hand.Body? || s2.hand.Idle?) && |s2.requests| == |s.requests| + 1
    requires s2 == s.(sin := s2.sin, requests := s2.requests, awaiting := s2.awaiting, hand := s2.hand, handled := s2.handled)
    ensures FlowWork(s2) < FlowWork(s)
  {
  }

  /** The client's threads, by what they take and give. */
  lemma ClientFlow(s: State, s2: State)
    requires s2.phase == s.phase && s2.eaten == s.eaten && s2.done == s.done
    requires s2.stopped == s.stopped || (s2.stopped && !s.stopped)
    requires s2.terminated == s.terminated || (s2.terminated && !s.terminated)
    requires || (|s2.todo| == |s.todo| - 1 && |s2.ring| == |s.ring| + 1 && s2.hand == s.hand && s2.requests == s.requests)
             || (s2.todo == s.todo && |s2.ring| == |s.ring| - 1 && s.hand.Idle? && s2.hand.Holding? && s2.requests == s.requests)
             || (s2.todo == s.todo && s2.ring == s.ring && s.hand.Holding? && s2.hand.Added? && s2.requests == s.requests)
             || (s2.todo == s.todo && s2.ring == s.ring && (s.hand.Added? || s.hand.Body?) && s2.hand.Idle? && s2.requests == s.requests)
             || (s2.todo == s.todo && s2.ring == s.ring && s.hand.Idle? && s2.hand.Quitted? && |s2.requests| == |s.requests| + 1)
             || (s2.todo == s.todo && s2.ring == s.ring && s.hand == s2.hand && s2.requests == s.requests &&
                 (s2.stopped != s.stopped || s2.terminated != s.terminated))
    ensures FlowWork(s2) < FlowWork(s)
  {
  }

  lemma OutsideLabel(l: Label)
    requires Internal(l)
    ensures !(l.NextDay? || l.TreeChange? || l.StartScan? || l.UserRestore? || l.UserQuit?)
  {
  }

  lemma ServeHeadShrinks(c: Config, s: State, s2: State)
    requires Inv(c, s) && StepServeHead(s) == Some(s2)
    ensures Work(c, s2) < Work(c, s) && s2.asked == s.asked
  {
    hide *;
    HeadCases(c, s, s2);
    HeadMeans(s, s2);
    HeadFlow(s, s2);
    SameStart(c, s, s2);
  }

  lemma HeadMeans(s: State, s2: State)
    requires HeadForm(s, s2)
    ensures s.phase.Waiting? && s.requests != [] && !s.reader.Handshake?
    ensures s2 == s.(sin := s2.sin, cin := s2.cin, phase := s2.phase, done := s2.done, requests := s2.requests)
    ensures (s2.phase.Running? && s2.done == s.done && s2.requests == s.requests) ||
            (s2.phase.Closed? && |s2.done| == |s.done| + 1 && |s2.requests| == |s.requests| - 1)
  {
  }

  lemma HeadFlow(s: State, s2: State)
    requires s.phase.Waiting? && s.requests != [] && s2 == s.(sin := s2.sin, cin := s2.cin, phase := s2.phase, done := s2.done, requests := s2.requests)
    requires (s2.phase.Running? && s2.done == s.done && s2.requests == s.requests) ||
             (s2.phase.Closed? && |s2.done| == |s.done| + 1 && |s2.requests| == |s.requests| - 1)
    ensures FlowWork(s2) < FlowWork(s)
  {
  }

  lemma ServeTailShrinks(c: Config, s: State, s2: State, engine: bool)
    requires Inv(c, s) && StepServeTail(c, s, engine) == Some(s2)
    ensures Work(c, s2) < Work(c, s) && s2.asked == s.asked
  {
    hide *;
    TailCases(c, s, s2, engine);
    TailFlow(s, s2);
    SameStart(c, s, s2);
  }

  lemma TailFlow(s: State, s2: State)
    requires s.phase.Running? && s2.phase.Waiting? && s.requests != [] && |s2.done| == |s.done| + 1 && |s2.requests| == |s.requests| - 1
    requires s2 == s.(sin := s2.sin, cin := s2.cin, phase := s2.phase, table := s2.table, log := s2.log, lost := s2.lost,
                      done := s2.done, requests := s2.requests)
    ensures FlowWork(s2) < FlowWork(s)
  {
  }

  lemma ResponseShrinks(c: Config, s: State, s2: State)
    requires Inv(c, s) && StepReadResponse(s) == Some(s2)
    ensures Work(c, s2) < Work(c, s) && s2.asked == s.asked
  {
    hide *;
    ReadCases(c, s, s2);
    ReadMeans(s, s2);
    ReadFlow(s, s2);
    SameStart(c, s, s2);
  }

  lemma ReadMeans(s: State, s2: State)
    requires ReadForm(s, s2)
    ensures s2 == s.(cin := s2.cin, sin := s2.sin, pending := s2.pending, reader := s2.reader, eaten := s2.eaten,
                     awaiting := s2.awaiting, done := s2.done)
    ensures !s.reader.Handshake? && !s2.reader.Handshake?
    ensures (s.eaten.Nothing? && s2.eaten.Greeted? && s2.done == s.done) || (s2.eaten.Nothing? && s.done != [] && s2.done == s.done[1..])
    ensures s2.awaiting == s.awaiting || (!s.scanning && !s2.awaiting)
  {
  }

  lemma ReadFlow(s: State, s2: State)
    requires s2 == s.(cin := s2.cin, sin := s2.sin, pending := s2.pending, reader := s2.reader, eaten := s2.eaten,
                      awaiting := s2.awaiting, done := s2.done)
    requires (s.eaten.Nothing? && s2.eaten.Greeted? && s2.done == s.done) || (s2.eaten.Nothing? && s.done != [] && s2.done == s.done[1..])
    ensures FlowWork(s2) < FlowWork(s)
  {
  }

  lemma FetchShrinks(c: Config, s: State, s2: State)
    requires Inv(c, s) && StepFetch(s) == Some(s2)
    ensures Work(c, s2) < Work(c, s) && s2.asked == s.asked
  {
    hide *;
    Open(c, s);
    FetchEnabled(s);
    FetchingIsGreeted(s.cin, s.phase, s.done, s.eaten);
    FetchKeeps(s, s2);
    FetchFlow(s, s2);
    SameStart(c, s, s2);
  }

  lemma FetchFlow(s: State, s2: State)
    requires s2 == s.(cin := s2.cin, reader := Listening, eaten := Fetched, pending := s2.pending, restored := s2.restored)
    requires s.eaten.Greeted?
    ensures FlowWork(s2) < FlowWork(s)
  {
  }

  // ----- what that means for runs -----

  ghost predicate AllInternal(ls: seq<Label>) { forall i :: 0 <= i < |ls| ==> Internal(ls[i]) }

  /** Left alone, the system takes no more steps than it has work. */
  lemma {:induction false} InternalRunsEnd(c: Config, s: State, ls: seq<Label>, s2: State)
    requires Inv(c, s) && AllInternal(ls) && Run(c, s, ls) == Some(s2)
    ensures Inv(c, s2) && |ls| <= Work(c, s) - Work(c, s2)
    ensures s2.asked == s.asked
    decreases ls
  {
    hide *;
    if ls == [] {
      RunNothing(c, s);
    } else {
      var n := |ls| - 1;
      RunLast(c, s, ls);
      InternalPrefix(ls);
      var before := Run(c, s, ls[..n]).value;
      InternalRunsEnd(c, s, ls[..n], before);
      StepInv(c, before, ls[n], s2);
      WorkShrinks(c, before, ls[n], s2);
    }
  }

  lemma InternalPrefix(ls: seq<Label>)
    requires AllInternal(ls) && ls != []
    ensures AllInternal(ls[..|ls| - 1]) && Internal(ls[|ls| - 1])
  {
    hide Internal;
  }

  lemma RunNothing(c: Config, s: State)
    ensures Run(c, s, []) == Some(s) && AllInternal([])
  {
  }

  lemma RunLast(c: Config, s: State, ls: seq<Label>)
    requires ls != []
    ensures Run(c, s, ls) == match Run(c, s, ls[..|ls| - 1]) case Some(m) => Step(c, m, ls[|ls| - 1]) case None => None
  {
    hide Step;
  }

  lemma {:induction false} RunFrom(c: Config, s: State, l: Label, s1: State, ls: seq<Label>)
    requires Step(c, s, l) == Some(s1)
    ensures Run(c, s, [l] + ls) == Run(c, s1, ls)
    decreases ls
  {
    hide *;
    var all := [l] + ls;
    RunLast(c, s, all);
    if ls == [] {
      assert all[..0] == [] && all[0] == l;
      RunNothing(c, s);
      RunNothing(c, s1);
    } else {
      assert all[..|all| - 1] == [l] + ls[..|ls| - 1] && all[|all| - 1] == ls[|ls| - 1];
      RunFrom(c, s, l, s1, ls[..|ls| - 1]);
      RunLast(c, s1, ls);
    }
  }

  /** From wherever it is, the system comes to rest by itself, or throws. */
  lemma {:induction false} Settles(c: Config, s: State) returns (ls: seq<Label>, s2: State)
    requires Inv(c, s)
    ensures AllInternal(ls) && Run(c, s, ls) == Some(s2) && |ls| <= Work(c, s)
    ensures Settled(s2) || Throws(s2) || Barred(s2) || Cornered(c, s2)
    decreases Work(c, s)
  {
    hide *;
    WorkIsLeft(c, s);
    if Settled(s) || Throws(s) || Barred(s) || Cornered(c, s) {
      RunNothing(c, s);
      return [], s;
    }
    var l, s1 := OneStep(c, s);
    var rest;
    rest, s2 := Settles(c, s1);
    RunFrom(c, s, l, s1, rest);
    FirstInternal(l, rest);
    ls := [l] + rest;
  }

  lemma OneStep(c: Config, s: State) returns (l: Label, s1: State)
    requires Inv(c, s) && !Settled(s) && !Throws(s) && !Barred(s) && !Cornered(c, s)
    ensures Internal(l) && Step(c, s, l) == Some(s1) && Inv(c, s1) && 0 <= Work(c, s1) < Work(c, s)
  {
    hide *;
    StepOrRest(c, s);
    l :| Moves(c, s, l);
    StepOfMove(c, s, l);
    s1 := Step(c, s, l).value;
    StepInv(c, s, l, s1);
    WorkIsLeft(c, s1);
    WorkShrinks(c, s, l, s1);
  }

  lemma FirstInternal(l: Label, rest: seq<Label>)
    requires Internal(l) && AllInternal(rest)
    ensures AllInternal([l] + rest)
  {
    hide Internal;
    var all := [l] + rest;
    forall i | 0 <= i < |all| ensures Internal(all[i]) {
      if i > 0 { assert all[i] == rest[i - 1]; }
    }
  }

  lemma SettledPending(c: Config, s: State)
    requires Inv(c, s) && Settled(s)
    ensures forall i :: i in s.pending ==> s.pending[i].st == ERROR
    ensures s.todo == [] && s.ring == [] && (s.hand.Idle? || s.hand.Quitted?) && s.started
  {
    hide *;
    Open(c, s);
    SettledMeans(s);
    FlightFirst(s.done, s.requests);
    if s.asked { FinishedMeans(s.reader, Flight(s.done, s.requests), s.requests, s.phase, s.hand); }
    forall i | i in s.pending ensures s.pending[i].st == ERROR {
      NothingUnderWay(s.pending, s.next, Flight(s.done, s.requests), s.hand, Mark(s.eaten, s.reader), i);
    }
  }

  /** Convergence: leave a session alone, in any reachable state and under any schedule of its threads, until
      it can do nothing more. It has then taken no more steps than it had work, and has settled, thrown, is
      barred by the hypothesis on the start, or cornered by the one on restores. Once settled it has only errors pending, and with none
      of those the server's current view is the folder last scanned. */
  lemma LeftAlone(c: Config, s0: State, ls: seq<Label>, s: State, more: seq<Label>, s2: State)
    requires Reached(c, s0, ls, s) && AllInternal(more) && Run(c, s, more) == Some(s2) && AtRest(c, s2)
    ensures |more| <= Work(c, s)
    ensures Settled(s2) || Throws(s2) || Barred(s2) || Cornered(c, s2)
    ensures Settled(s2) ==> forall i :: i in s2.pending ==> s2.pending[i].st == ERROR
    ensures Settled(s2) && s2.pending == map[] ==> ServerView(c, s2.table) == TreeView(c.dg, s2.seen)
  {
    hide *;
    RunInv(c, s0, ls, s);
    InternalRunsEnd(c, s, more, s2);
    WorkIsLeft(c, s2);
    Resting(c, s2);
    if Settled(s2) {
      SettledPending(c, s2);
      if s2.pending == map[] { QuietView(c, s2); }
    }
  }

  lemma Resting(c: Config, s: State)
    requires Inv(c, s) && AtRest(c, s)
    ensures Settled(s) || Throws(s) || Barred(s) || Cornered(c, s)
  {
    hide Inv, Moves, Settled, Throws, Barred, Cornered;
    StepOrRest(c, s);
  }

  /** Quitting ends: after the user has asked to quit, every run of the system's own steps that cannot go on
      has brought the response consumer to its end, or has thrown, is barred or cornered. */
  lemma QuitFinishes(c: Config, s0: State, ls: seq<Label>, s: State, more: seq<Label>, s2: State)
    requires Reached(c, s0, ls, s) && s.asked && AllInternal(more) && Run(c, s, more) == Some(s2) && AtRest(c, s2)
    ensures s2.reader.Finished? || Throws(s2) || Barred(s2) || Cornered(c, s2)
  {
    hide *;
    RunInv(c, s0, ls, s);
    InternalRunsEnd(c, s, more, s2);
    Resting(c, s2);
    if Settled(s2) { SettledMeans(s2); }
  }
}
