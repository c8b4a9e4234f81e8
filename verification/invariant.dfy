/** What every step of the system keeps. */
module Invariant {
  import opened Text
  import opened Streams
  import opened Wire
  import opened Store
  import opened Digests
  import opened Actions
  import opened Watcher
  import opened Responses
  import opened Rebuild
  import opened Handler
  import opened Client
  import opened System
  import opened Channels
  import opened PendingActions
  import opened Sync

  // ----- the parts, each over the fields it needs -----

  ghost predicate ConfigOk(c: Config) { c.capacity >= 2 && Sha256Like(c.dg) }

  /** paths_ indexes the tree last scanned; while something seen is unsent the tree holds still. */
  ghost predicate TreesOk(c: Config, tree: Tree, seen: Tree, started: bool, index: map<string, int>,
                          todo: seq<Event>, ring: seq<Action>, hand: Hand)
  {
    && TreeOk(c, tree) && TreeOk(c, seen)
    && (started ==> index == Mtimes(seen))
    && (!started ==> Quiet(todo, ring, hand))
    && (!Quiet(todo, ring, hand) ==> tree == seen)
  }

  ghost predicate ActionOk(c: Config, seen: Tree, a: Action)
  {
    match a
    case Change(p, _, k) =>
      && PathOk(c, p) && k in {READ_FILE, CREATE_FOLDER, DELETE_PATH, IGNORE}
      && (k == READ_FILE ==> p in seen && seen[p].Plain?)
    case Restoration(d, _) => DateOk(d)
    case Blank => false
  }

  ghost predicate EventOk(c: Config, seen: Tree, e: Event) { PathOk(c, e.path) && (e.status != Erased ==> e.path in seen) }

  ghost predicate WorkOk(c: Config, seen: Tree, todo: seq<Event>, ring: seq<Action>, hand: Hand)
  {
    && (forall i :: 0 <= i < |todo| ==> EventOk(c, seen, todo[i]))
    && (forall i :: 0 <= i < |ring| ==> ActionOk(c, seen, ring[i]))
    && (hand.Holding? || hand.Added? ==> ActionOk(c, seen, hand.action))
  }

  /** The file whose header is out is the last request. */
  ghost predicate BodyOk(seen: Tree, hand: Hand, rs: seq<Request>)
  {
    hand.Body? ==> rs != [] && rs[|rs| - 1].head.kind == READ_FILE &&
                   hand.path in seen && seen[hand.path].Plain? && rs[|rs| - 1].tail == seen[hand.path].content
  }

  /** The day the next entry of the log will be dated, if it comes before the clock moves. */
  function Clock(phase: Phase, day: string): string { if phase.Running? then phase.day else day }

  ghost predicate HistoryOk(dg: Digest, log: seq<Entry>, table: Table, phase: Phase, day: string)
  {
    && LogOk(log) && HashesOk(dg, log) && ByDay(log) && table == TableOf(log)
    && Le(Clock(phase, day), day) && forall i :: 0 <= i < |log| ==> Le(log[i].day, Clock(phase, day))
  }

  ghost predicate RequestFine(r: Request)
  {
    RequestOk(r) && ClientHeader(r.head) && (r.head.kind == READ_FILE ==> |r.tail| <= MAX_FILE_SIZE) &&
    r.head.kind in {READ_FILE, CREATE_FOLDER, DELETE_PATH, RESTORE, QUIT}
  }

  function DoneRequests(ds: seq<Done>): (rs: seq<Request>)
    ensures |rs| == |ds| && forall i :: 0 <= i < |ds| ==> rs[i] == ds[i].request
  {
    seq(|ds|, i requires 0 <= i < |ds| => ds[i].request)
  }

  /** The requests the client has not read the end of, oldest first. */
  function Flight(ds: seq<Done>, rs: seq<Request>): seq<Request> { DoneRequests(ds) + rs }

  /** Requests are well formed, quit is the last one ever, and the server is gone only after it. */
  ghost predicate FlightOk(flight: seq<Request>, rs: seq<Request>, hand: Hand, phase: Phase)
  {
    && (forall k :: 0 <= k < |flight| ==> RequestFine(flight[k]))
    && (forall k :: 0 <= k < |flight| && IsQuit(flight[k]) ==> k == |flight| - 1 && hand.Quitted?)
    && (hand.Quitted? ==> phase.Closed? || (rs != [] && IsQuit(rs[|rs| - 1])))
    && (phase.Closed? ==> rs == [] && hand.Quitted?)
  }

  /** The one restore whose date is not out is the last request, and the client has not been told of it. */
  ghost predicate AwaitOk(awaiting: bool, flight: seq<Request>, rs: seq<Request>, eaten: Eaten, hand: Hand)
  {
    && (awaiting ==> rs != [] && rs[|rs| - 1].head.kind == RESTORE && (|flight| == 1 ==> eaten.Nothing?))
    && (forall k :: 0 <= k < |flight| && flight[k].head.kind == RESTORE && (k > 0 || eaten.Nothing?) ==>
          awaiting && k == |flight| - 1)
    && (hand.Body? ==> !awaiting)
  }

  function Mark(eaten: Eaten, reader: Reader): int
  {
    if eaten.Nothing? || reader.Fetching? then SENT else RECEIVED
  }

  ghost predicate ReaderOk(reader: Reader, flight: seq<Request>, phase: Phase, hand: Hand)
  {
    && (reader.Fetching? ==> flight != [] && flight[0].head.kind == RESTORE && flight[0].head.index == reader.index)
    && (reader.Finished? ==> phase.Closed? && flight == [])
    && (hand.Quitted? ==> reader.Finished? || (flight != [] && IsQuit(flight[|flight| - 1])))
  }

  /** An action was lost exactly if the client can see it: by an error entry, or an error answer on its way. */
  ghost predicate LostOk(lost: bool, m: PendingMap, ds: seq<Done>)
  {
    lost <==> (exists i :: i in m && m[i].st == ERROR) || (exists k :: 0 <= k < |ds| && !ds[k].answer.ok)
  }

  function InHand(hand: Hand): seq<Action> { if hand.Holding? || hand.Added? then [hand.action] else [] }

  /** Pushed actions are handled in push order; what follows quit finds nothing left. */
  ghost predicate OrderOk(pushed: seq<Action>, handled: seq<Action>, hand: Hand, ring: seq<Action>, capacity: nat)
  {
    pushed == handled + InHand(hand) + ring && |ring| <= capacity - 1
  }

  /** The watcher ends after its last event, the ring after the watcher, the consumer after the ring; a scan
      has events left, and no restore is fetched while it holds the mutex. */
  ghost predicate ShutOk(todo: seq<Event>, scanning: bool, stopped: bool, started: bool, asked: bool, terminated: bool,
                         hand: Hand, ring: seq<Action>, fetching: bool)
  {
    && (stopped ==> asked && started && todo == [])
    && (terminated ==> stopped)
    && (hand.Quitted? ==> terminated && ring == [])
    && (scanning ==> todo != [] && started && !fetching)
  }

  /** Answers tell what has become of the log: entries made stand where they were made; restores, under way or
      finished, carry the replay of the log up to their date. */
  ghost predicate RestoresOk(dg: Digest, log: seq<Entry>, ds: seq<Done>, restored: seq<Restored>)
  {
    && (forall k :: 0 <= k < |ds| && ds[k].entered ==>
          ds[k].at < |log| && log[ds[k].at] == EntryFor(dg, log[ds[k].at].day, ds[k].request.head, ds[k].request.tail))
    && (forall k :: 0 <= k < |ds| && ds[k].request.head.kind == RESTORE ==>
          ds[k].at <= |log| && Depicts(ds[k].answer.files, Replay(Cut(log[..ds[k].at], ds[k].request.tail))))
    && (forall k :: 0 <= k < |restored| ==>
          restored[k].at <= |log| && Depicts(restored[k].files, Replay(Cut(log[..restored[k].at], restored[k].date))) &&
          Build(restored[k].files) == Some(restored[k].built))
  }

  /** Until the initial status has been read nothing else has happened. */
  ghost predicate HandshakeOk(s: State)
  {
    s.reader.Handshake? ==>
      && s.sin == Stream("", "", false, false) && s.phase.Waiting?
      && s.cin == Stream(EncInit(InitPairs(s.table)), "\n", false, false)
      && s.requests == [] && s.done == [] && s.hand.Idle? && s.ring == [] && s.todo == [] && s.eaten.Nothing?
      && !s.started && !s.asked && !s.awaiting && !s.lost && s.pending == map[] && s.next == 0 && s.restored == []
  }

  function Goal(c: Config, started: bool, seen: Tree, initial: map<string, string>): map<string, string>
  {
    if started then TreeView(c.dg, seen) else initial
  }

  ghost predicate InitialOk(c: Config, initial: map<string, string>) { forall p :: p in initial ==> PathOk(c, p) }

  ghost predicate Inv(c: Config, s: State)
  {
    && ConfigOk(c) && InitialOk(c, s.initial)
    && TreesOk(c, s.tree, s.seen, s.started, s.index, s.todo, s.ring, s.hand)
    && WorkOk(c, s.seen, s.todo, s.ring, s.hand)
    && BodyOk(s.seen, s.hand, s.requests)
    && HistoryOk(c.dg, s.log, s.table, s.phase, s.day)
    && UpOk(s.sin, s.phase, s.requests, s.hand.Body? || s.awaiting)
    && (!s.reader.Handshake? ==> DownOk(s.cin, s.phase, s.done, s.eaten, s.reader.Fetching?))
    && DonesOk(s.done)
    && FlightOk(Flight(s.done, s.requests), s.requests, s.hand, s.phase)
    && PendOk(s.pending, s.next, Flight(s.done, s.requests), s.hand, Mark(s.eaten, s.reader))
    && AwaitOk(s.awaiting, Flight(s.done, s.requests), s.requests, s.eaten, s.hand)
    && ReaderOk(s.reader, Flight(s.done, s.requests), s.phase, s.hand)
    && LostOk(s.lost, s.pending, s.done)
    && OrderOk(s.pushed, s.handled, s.hand, s.ring, c.capacity)
    && ShutOk(s.todo, s.scanning, s.stopped, s.started, s.asked, s.terminated, s.hand, s.ring, s.reader.Fetching?)
    && RestoresOk(c.dg, s.log, s.done, s.restored)
    && (!s.reader.Handshake? ==>
          Converging(c, s.table, Goal(c, s.started, s.seen, s.initial),
                     Outstanding(c, s.seen, s.requests, s.hand, s.ring, s.todo), s.lost))
    && HandshakeOk(s)
  }

  // ----- taking the invariant apart and putting it together -----

  lemma Open(c: Config, s: State)
    requires Inv(c, s)
    ensures ConfigOk(c) && InitialOk(c, s.initial)
    ensures TreesOk(c, s.tree, s.seen, s.started, s.index, s.todo, s.ring, s.hand)
    ensures WorkOk(c, s.seen, s.todo, s.ring, s.hand)
    ensures BodyOk(s.seen, s.hand, s.requests)
    ensures HistoryOk(c.dg, s.log, s.table, s.phase, s.day)
    ensures UpOk(s.sin, s.phase, s.requests, s.hand.Body? || s.awaiting)
    ensures !s.reader.Handshake? ==> DownOk(s.cin, s.phase, s.done, s.eaten, s.reader.Fetching?)
    ensures DonesOk(s.done)
    ensures FlightOk(Flight(s.done, s.requests), s.requests, s.hand, s.phase)
    ensures PendOk(s.pending, s.next, Flight(s.done, s.requests), s.hand, Mark(s.eaten, s.reader))
    ensures AwaitOk(s.awaiting, Flight(s.done, s.requests), s.requests, s.eaten, s.hand)
    ensures ReaderOk(s.reader, Flight(s.done, s.requests), s.phase, s.hand)
    ensures LostOk(s.lost, s.pending, s.done)
    ensures OrderOk(s.pushed, s.handled, s.hand, s.ring, c.capacity)
    ensures ShutOk(s.todo, s.scanning, s.stopped, s.started, s.asked, s.terminated, s.hand, s.ring, s.reader.Fetching?)
    ensures RestoresOk(c.dg, s.log, s.done, s.restored)
    ensures !s.reader.Handshake? ==>
        Converging(c, s.table, Goal(c, s.started, s.seen, s.initial),
                   Outstanding(c, s.seen, s.requests, s.hand, s.ring, s.todo), s.lost)
    ensures s.reader.Handshake? ==>
              s.sin == Stream("", "", false, false) && s.phase.Waiting? && s.requests == [] && s.done == [] && s.hand.Idle? &&
              s.ring == [] && s.todo == [] && s.eaten.Nothing? && !s.started && !s.asked && !s.awaiting && !s.lost
    ensures HandshakeOk(s)
  {
    hide ConfigOk, InitialOk, TreesOk, WorkOk, BodyOk, HistoryOk, UpOk, DownOk, DonesOk, FlightOk, PendOk, AwaitOk, ReaderOk, LostOk, OrderOk, ShutOk, RestoresOk, Converging, Flight, Outstanding, Goal, Mark, EncInit, InitPairs;
  }

  lemma Close(c: Config, s: State)
    requires ConfigOk(c) && InitialOk(c, s.initial)
    requires TreesOk(c, s.tree, s.seen, s.started, s.index, s.todo, s.ring, s.hand)
    requires WorkOk(c, s.seen, s.todo, s.ring, s.hand)
    requires BodyOk(s.seen, s.hand, s.requests)
    requires HistoryOk(c.dg, s.log, s.table, s.phase, s.day)
    requires UpOk(s.sin, s.phase, s.requests, s.hand.Body? || s.awaiting)
    requires !s.reader.Handshake? ==> DownOk(s.cin, s.phase, s.done, s.eaten, s.reader.Fetching?)
    requires DonesOk(s.done)
    requires FlightOk(Flight(s.done, s.requests), s.requests, s.hand, s.phase)
    requires PendOk(s.pending, s.next, Flight(s.done, s.requests), s.hand, Mark(s.eaten, s.reader))
    requires AwaitOk(s.awaiting, Flight(s.done, s.requests), s.requests, s.eaten, s.hand)
    requires ReaderOk(s.reader, Flight(s.done, s.requests), s.phase, s.hand)
    requires LostOk(s.lost, s.pending, s.done)
    requires OrderOk(s.pushed, s.handled, s.hand, s.ring, c.capacity)
    requires ShutOk(s.todo, s.scanning, s.stopped, s.started, s.asked, s.terminated, s.hand, s.ring, s.reader.Fetching?)
    requires RestoresOk(c.dg, s.log, s.done, s.restored)
    requires !s.reader.Handshake? ==>
        Converging(c, s.table, Goal(c, s.started, s.seen, s.initial),
                   Outstanding(c, s.seen, s.requests, s.hand, s.ring, s.todo), s.lost)
    requires HandshakeOk(s)
    ensures Inv(c, s)
  {
    hide ConfigOk, InitialOk, TreesOk, WorkOk, BodyOk, HistoryOk, UpOk, DownOk, DonesOk, FlightOk, PendOk, AwaitOk, ReaderOk, LostOk, OrderOk, ShutOk, RestoresOk, Converging, Flight, Outstanding, Goal, Mark, HandshakeOk;
  }

  lemma NoHandshake(s: State)
    requires !s.reader.Handshake?
    ensures HandshakeOk(s)
  {
  }

  // ----- the start -----

  lemma InitialInv(c: Config, s: State)
    requires Initial(c, s)
    ensures Inv(c, s)
  {
    InitialParts(c, s);
    hide *;
    Close(c, s);
  }

  lemma InitialParts(c: Config, s: State)
    requires Initial(c, s)
    ensures ConfigOk(c) && InitialOk(c, s.initial)
    ensures TreesOk(c, s.tree, s.seen, s.started, s.index, s.todo, s.ring, s.hand)
    ensures WorkOk(c, s.seen, s.todo, s.ring, s.hand)
    ensures BodyOk(s.seen, s.hand, s.requests)
    ensures HistoryOk(c.dg, s.log, s.table, s.phase, s.day)
    ensures UpOk(s.sin, s.phase, s.requests, s.hand.Body? || s.awaiting)
    ensures !s.reader.Handshake? ==> DownOk(s.cin, s.phase, s.done, s.eaten, s.reader.Fetching?)
    ensures DonesOk(s.done)
    ensures FlightOk(Flight(s.done, s.requests), s.requests, s.hand, s.phase)
    ensures PendOk(s.pending, s.next, Flight(s.done, s.requests), s.hand, Mark(s.eaten, s.reader))
    ensures AwaitOk(s.awaiting, Flight(s.done, s.requests), s.requests, s.eaten, s.hand)
    ensures ReaderOk(s.reader, Flight(s.done, s.requests), s.phase, s.hand)
    ensures LostOk(s.lost, s.pending, s.done)
    ensures OrderOk(s.pushed, s.handled, s.hand, s.ring, c.capacity)
    ensures ShutOk(s.todo, s.scanning, s.stopped, s.started, s.asked, s.terminated, s.hand, s.ring, s.reader.Fetching?)
    ensures RestoresOk(c.dg, s.log, s.done, s.restored)
    ensures !s.reader.Handshake? ==>
        Converging(c, s.table, Goal(c, s.started, s.seen, s.initial),
                   Outstanding(c, s.seen, s.requests, s.hand, s.ring, s.todo), s.lost)
    ensures HandshakeOk(s)
  {
    hide *;
    FreshLinks(c, s);
    FreshClient(c, s);
    FreshHistory(c, s);
  }

  lemma FreshHistory(c: Config, s: State)
    requires Initial(c, s)
    ensures ConfigOk(c) && InitialOk(c, s.initial) && BodyOk(s.seen, s.hand, s.requests)
    ensures HistoryOk(c.dg, s.log, s.table, s.phase, s.day) && RestoresOk(c.dg, s.log, s.done, s.restored)
    ensures HandshakeOk(s) && s.reader.Handshake?
  {
    hide EncInit, InitPairs, TableOf, Le, PathOk, LogOk, HashesOk, ByDay, Sha256Like, TreeOk, EntryFor, Depicts, AsOf;
    LeRefl(s.day);
  }

  lemma FreshLinks(c: Config, s: State)
    requires Initial(c, s)
    ensures UpOk(s.sin, s.phase, s.requests, s.hand.Body? || s.awaiting) && DonesOk(s.done)
    ensures FlightOk(Flight(s.done, s.requests), s.requests, s.hand, s.phase)
    ensures PendOk(s.pending, s.next, Flight(s.done, s.requests), s.hand, Mark(s.eaten, s.reader))
    ensures AwaitOk(s.awaiting, Flight(s.done, s.requests), s.requests, s.eaten, s.hand)
    ensures ReaderOk(s.reader, Flight(s.done, s.requests), s.phase, s.hand)
  {
    hide EncInit, InitPairs, TableOf, EncHeader, EncRequests, Le, PathOk, LogOk, HashesOk, ByDay, Sha256Like, TreeOk;
    assert DoneRequests([]) == [];
    EncRequestsNone();
    assert "" + "" == "";
  }

  lemma FreshClient(c: Config, s: State)
    requires Initial(c, s)
    ensures TreesOk(c, s.tree, s.seen, s.started, s.index, s.todo, s.ring, s.hand)
    ensures WorkOk(c, s.seen, s.todo, s.ring, s.hand) && LostOk(s.lost, s.pending, s.done)
    ensures OrderOk(s.pushed, s.handled, s.hand, s.ring, c.capacity)
    ensures ShutOk(s.todo, s.scanning, s.stopped, s.started, s.asked, s.terminated, s.hand, s.ring, s.reader.Fetching?)
  {
    hide EncInit, InitPairs, TableOf, Le, PathOk, LogOk, HashesOk, ByDay, Sha256Like;
  }

  // ----- steps of the world and of the watcher -----

  lemma InvNextDay(c: Config, s: State, d: string)
    requires Inv(c, s) && Le(s.day, d)
    ensures Inv(c, s.(day := d))
  {
    hide *;
    Open(c, s);
    var s2 := s.(day := d);
    HistoryNextDay(c.dg, s.log, s.table, s.phase, s.day, d);
    HandshakeKept(s, s2);
    Close(c, s2);
  }

  lemma HistoryNextDay(dg: Digest, log: seq<Entry>, table: Table, phase: Phase, day: string, d: string)
    requires HistoryOk(dg, log, table, phase, day) && Le(day, d)
    ensures HistoryOk(dg, log, table, phase, d)
  {
    hide Le, LogOk, HashesOk, ByDay, TableOf;
    LeRefl(d);
    LeRefl(Clock(phase, day));
    LeTrans(Clock(phase, day), day, d);
    forall i | 0 <= i < |log| ensures Le(log[i].day, Clock(phase, d)) { LeTrans(log[i].day, Clock(phase, day), Clock(phase, d)); }
  }

  lemma HandshakeKept(s: State, s2: State)
    requires HandshakeOk(s) && s2 == s.(day := s2.day, tree := s2.tree)
    ensures HandshakeOk(s2)
  {
    hide EncInit, InitPairs;
  }

  lemma InvTreeChange(c: Config, s: State, t: Tree)
    requires Inv(c, s) && TreeOk(c, t) && Quiet(s.todo, s.ring, s.hand)
    ensures Inv(c, s.(tree := t))
  {
    hide *;
    Open(c, s);
    var s2 := s.(tree := t);
    TreesChanged(c, s.tree, s.seen, s.started, s.index, s.todo, s.ring, s.hand, t);
    HandshakeKept(s, s2);
    Close(c, s2);
  }

  lemma TreesChanged(c: Config, tree: Tree, seen: Tree, started: bool, index: map<string, int>, todo: seq<Event>,
                     ring: seq<Action>, hand: Hand, t: Tree)
    requires TreesOk(c, tree, seen, started, index, todo, ring, hand) && TreeOk(c, t) && Quiet(todo, ring, hand)
    ensures TreesOk(c, t, seen, started, index, todo, ring, hand)
  {
    hide TreeOk, Quiet, Mtimes;
  }

  lemma InitialStatusIs(c: Config, s: State)
    requires s.reader.Handshake? && HandshakeOk(s) && HistoryOk(c.dg, s.log, s.table, s.phase, s.day)
    ensures Step(c, s, ReadInitialStatus) ==
              Some(s.(cin := Stream("", "\n", false, false), initial := ServerView(c, s.table), reader := Listening))
  {
    hide EncInit, InitPairs, DecInit, InitMap, HistoryOk, Prefixed, Current;
    assert EncInit(InitPairs(s.table)) + "" == EncInit(InitPairs(s.table));
    TableFine(c.dg, s.log, s.table, s.phase, s.day);
    InitArrives(c.main, s.table, s.cin, "");
  }

  lemma InvReadInitialStatus(c: Config, s: State)
    requires Inv(c, s) && s.reader.Handshake?
    ensures Step(c, s, ReadInitialStatus).Some? && Inv(c, Step(c, s, ReadInitialStatus).value)
    ensures Step(c, s, ReadInitialStatus).value.initial == ServerView(c, s.table)
  {
    hide *;
    Open(c, s);
    InitialStatusIs(c, s);
    var s2 := Step(c, s, ReadInitialStatus).value;
    TableFine(c.dg, s.log, s.table, s.phase, s.day);
    ViewPaths(c, s.table);
    DownFresh(s2);
    ReaderFresh(s, s2);
    ConvergingFresh(c, s2);
    NoHandshake(s2);
    Close(c, s2);
  }

  lemma DownFresh(s: State)
    requires s.cin == Stream("", "\n", false, false) && s.phase.Waiting? && s.done == [] && s.eaten.Nothing? && s.reader.Listening?
    ensures DownOk(s.cin, s.phase, s.done, s.eaten, false) && Flight(s.done, []) == []
  {
    EncDonesNone();
    assert DoneRequests([]) == [];
  }

  /** Going from the handshake to listening changes nothing of what is under way. */
  lemma ReaderFresh(s: State, s2: State)
    requires s.reader.Handshake? && s2.reader.Listening? && s.hand.Idle? && s.eaten.Nothing?
    requires ReaderOk(s.reader, Flight(s.done, s.requests), s.phase, s.hand)
    ensures ReaderOk(s2.reader, Flight(s.done, s.requests), s.phase, s.hand)
    ensures Mark(s.eaten, s.reader) == Mark(s.eaten, s2.reader)
  {
    hide Flight;
  }

  lemma ConvergingFresh(c: Config, s: State)
    requires !s.started && s.initial == ServerView(c, s.table) && TableOk(s.table)
    requires s.requests == [] && s.hand.Idle? && s.ring == [] && s.todo == []
    ensures Converging(c, s.table, Goal(c, s.started, s.seen, s.initial), Outstanding(c, s.seen, s.requests, s.hand, s.ring, s.todo), s.lost)
    ensures InitialOk(c, s.initial)
  {
    hide ServerView, TableOk, TreeView, PathOk;
    ViewPaths(c, s.table);
    assert Outstanding(c, s.seen, [], Idle, [], []) == [];
  }

  lemma TableFine(dg: Digest, log: seq<Entry>, table: Table, phase: Phase, day: string)
    requires HistoryOk(dg, log, table, phase, day)
    ensures TableOk(table)
    ensures forall k :: k in table ==> Le(k.1, Clock(phase, day))
  {
    hide Le, RowOk, NameOk, HashesOk, ByDay, Clock;
    LogTableOk(log);
    TableDays(log);
    hide TableOf;
    forall k | k in table ensures Le(k.1, Clock(phase, day)) {
      var i :| 0 <= i < |log| && log[i].name == k.0 && log[i].day == k.1;
    }
  }

  /** Whatever a diff reports is about a path below main_path that is there unless erased. */
  lemma DiffEvents(c: Config, es: seq<Event>, known: set<string>, t: Tree, changed: set<string>)
    requires IsDiff(es, known, t, changed) && TreeOk(c, t) && forall p :: p in known ==> PathOk(c, p)
    ensures forall i :: 0 <= i < |es| ==> EventOk(c, t, es[i])
  {
    hide PathOk;
    forall i | 0 <= i < |es| ensures EventOk(c, t, es[i]) {
      assert es[i] in es;
    }
  }

  lemma ViewPaths(c: Config, t: Table)
    requires TableOk(t)
    ensures forall p :: p in ServerView(c, t) ==> PathOk(c, p)
  {
    hide Current, NameOk;
    forall p | p in ServerView(c, t) ensures PathOk(c, p) {
      CurrentRow(t, p[|c.main|..]);
    }
  }

  /** Unsent work refers to one tree: with none of it a change, any tree gives it the same meaning. */
  lemma QuietWork(c: Config, seen: Tree, t: Tree, todo: seq<Event>, ring: seq<Action>, hand: Hand)
    requires WorkOk(c, seen, todo, ring, hand) && (!Quiet(todo, ring, hand) ==> t == seen) && todo == []
    ensures forall i :: 0 <= i < |ring| ==> ActionOp(c.dg, seen, ring[i]) == ActionOp(c.dg, t, ring[i])
    ensures hand.Holding? || hand.Added? ==> ActionOp(c.dg, seen, hand.action) == ActionOp(c.dg, t, hand.action)
    ensures WorkOk(c, t, todo, ring, hand)
  {
    hide FileHash;
  }

  lemma QuietBody(seen: Tree, t: Tree, todo: seq<Event>, ring: seq<Action>, hand: Hand, rs: seq<Request>)
    requires BodyOk(seen, hand, rs) && (!Quiet(todo, ring, hand) ==> t == seen)
    ensures BodyOk(t, hand, rs)
  {
  }

  /** The common end of the start-up diff and of a scan. */
  lemma InvScanned(c: Config, s: State, s2: State, es: seq<Event>)
    requires Inv(c, s) && !s.reader.Handshake? && s.todo == [] && !s.stopped
    requires s2 == s.(started := true, index := Mtimes(s.tree), todo := es, scanning := s2.scanning, seen := s.tree)
    requires s2.scanning ==> es != [] && !s.reader.Fetching?
    requires forall i :: 0 <= i < |es| ==> EventOk(c, s.tree, es[i])
    requires ApplyAll(Goal(c, s.started, s.seen, s.initial), EventOps(c.dg, s.tree, es)) == TreeView(c.dg, s.tree)
    ensures Inv(c, s2)
  {
    hide *;
    Open(c, s);
    WorkScanned(c, s, es);
    ConvergingScan(c, s.table, Goal(c, s.started, s.seen, s.initial), s.seen, s.tree, s.requests, s.hand, s.ring, es, s.lost);
    GoalScanned(c, s.tree, s.initial);
    ShutScanned(s, s2);
    NoHandshake(s2);
    Close(c, s2);
  }

  lemma WorkScanned(c: Config, s: State, es: seq<Event>)
    requires TreesOk(c, s.tree, s.seen, s.started, s.index, s.todo, s.ring, s.hand) && s.todo == []
    requires WorkOk(c, s.seen, s.todo, s.ring, s.hand) && BodyOk(s.seen, s.hand, s.requests)
    requires forall i :: 0 <= i < |es| ==> EventOk(c, s.tree, es[i])
    ensures TreesOk(c, s.tree, s.tree, true, Mtimes(s.tree), es, s.ring, s.hand)
    ensures WorkOk(c, s.tree, es, s.ring, s.hand) && BodyOk(s.tree, s.hand, s.requests)
    ensures forall i :: 0 <= i < |s.ring| ==> ActionOp(c.dg, s.seen, s.ring[i]) == ActionOp(c.dg, s.tree, s.ring[i])
    ensures s.hand.Holding? || s.hand.Added? ==> ActionOp(c.dg, s.seen, s.hand.action) == ActionOp(c.dg, s.tree, s.hand.action)
  {
    hide TreeOk, Quiet, EventOk, ActionOk, ActionOp, Mtimes, BodyOk;
    QuietWork(c, s.seen, s.tree, s.todo, s.ring, s.hand);
    QuietBody(s.seen, s.tree, s.todo, s.ring, s.hand, s.requests);
  }

  lemma GoalScanned(c: Config, tree: Tree, initial: map<string, string>)
    ensures Goal(c, true, tree, initial) == TreeView(c.dg, tree)
  {
  }

  lemma ShutScanned(s: State, s2: State)
    requires ShutOk(s.todo, s.scanning, s.stopped, s.started, s.asked, s.terminated, s.hand, s.ring, s.reader.Fetching?)
    requires !s.stopped && s2.started && (s2.scanning ==> s2.todo != [] && !s.reader.Fetching?)
    ensures ShutOk(s2.todo, s2.scanning, s.stopped, s2.started, s.asked, s.terminated, s.hand, s.ring, s.reader.Fetching?)
  {
  }

  lemma InvStartUp(c: Config, s: State, es: seq<Event>)
    requires Inv(c, s) && !s.reader.Handshake? && !s.started && NoFolderForFile(s.initial, s.tree)
    requires IsDiff(es, s.initial.Keys, s.tree, HashChanged(c.dg, s.initial, s.tree))
    ensures Inv(c, s.(started := true, index := Mtimes(s.tree), todo := es, seen := s.tree))
  {
    var s2 := s.(started := true, index := Mtimes(s.tree), todo := es, seen := s.tree);
    StartUpConverges(c.dg, es, s.initial, s.tree);
    hide *;
    Open(c, s);
    BeforeStart(c, s);
    DiffEvents(c, es, s.initial.Keys, s.tree, HashChanged(c.dg, s.initial, s.tree));
    InvScanned(c, s, s2, es);
  }

  lemma BeforeStart(c: Config, s: State)
    requires TreesOk(c, s.tree, s.seen, s.started, s.index, s.todo, s.ring, s.hand) && InitialOk(c, s.initial) && !s.started
    requires ShutOk(s.todo, s.scanning, s.stopped, s.started, s.asked, s.terminated, s.hand, s.ring, s.reader.Fetching?)
    ensures s.todo == [] && !s.stopped && !s.scanning && TreeOk(c, s.tree)
    ensures Goal(c, s.started, s.seen, s.initial) == s.initial
    ensures forall p :: p in s.initial.Keys ==> PathOk(c, p)
  {
    hide TreeOk, PathOk, Mtimes;
  }

  lemma InvStartScan(c: Config, s: State, es: seq<Event>)
    requires Inv(c, s) && s.started && !s.stopped && s.todo == [] && !s.reader.Fetching? && Honest(s.seen, s.tree)
    requires IsDiff(es, s.index.Keys, s.tree, MtimeChanged(s.index, s.tree))
    ensures Inv(c, s.(index := Mtimes(s.tree), todo := es, scanning := es != [], seen := s.tree))
  {
    hide *;
    var s2 := s.(index := Mtimes(s.tree), todo := es, scanning := es != [], seen := s.tree);
    Open(c, s);
    AfterStart(c, s);
    assert IsDiff(es, s.seen.Keys, s.tree, MtimeChanged(Mtimes(s.seen), s.tree));
    DiffEvents(c, es, s.index.Keys, s.tree, MtimeChanged(s.index, s.tree));
    ScanConverges(c.dg, es, s.seen, s.tree);
    InvScanned(c, s, s2, es);
  }

  lemma AfterStart(c: Config, s: State)
    requires TreesOk(c, s.tree, s.seen, s.started, s.index, s.todo, s.ring, s.hand) && s.started
    ensures s.index == Mtimes(s.seen) && TreeOk(c, s.tree) && Goal(c, s.started, s.seen, s.initial) == TreeView(c.dg, s.seen)
    ensures s.index.Keys == s.seen.Keys && forall p :: p in s.index.Keys ==> PathOk(c, p)
  {
    hide PathOk, Quiet, TreeView;
  }

  lemma InvPushEvent(c: Config, s: State, a: Action)
    requires Inv(c, s) && s.todo != [] && |s.ring| < c.capacity - 1 && a == ToAction(s.tree, s.todo[0])
    ensures Inv(c, s.(ring := s.ring + [a], pushed := s.pushed + [a], todo := s.todo[1..], scanning := s.scanning && |s.todo| > 1))
  {
    hide *;
    var s2 := s.(ring := s.ring + [a], pushed := s.pushed + [a], todo := s.todo[1..], scanning := s.scanning && |s.todo| > 1);
    Open(c, s);
    WorkPushed(c, s.tree, s.seen, s.started, s.index, s.todo, s.ring, s.hand);
    PushedEvent(c, s.seen, s.requests, s.hand, s.ring, s.todo);
    OrderPush(s.pushed, s.handled, s.hand, s.ring, c.capacity, a);
    ShutPushed(s, s2);
    NoHandshake(s2);
    Close(c, s2);
  }

  lemma WorkPushed(c: Config, tree: Tree, seen: Tree, started: bool, index: map<string, int>, todo: seq<Event>,
                   ring: seq<Action>, hand: Hand)
    requires TreesOk(c, tree, seen, started, index, todo, ring, hand) && WorkOk(c, seen, todo, ring, hand) && todo != []
    ensures tree == seen
    ensures var ring2 := ring + [ToAction(tree, todo[0])];
            TreesOk(c, tree, seen, started, index, todo[1..], ring2, hand) && WorkOk(c, seen, todo[1..], ring2, hand)
  {
    hide TreeOk, Mtimes, PathOk;
    var a := ToAction(tree, todo[0]);
    var ring2 := ring + [a];
    assert ring2[|ring|] == a && a.Change?;
    assert EventOk(c, seen, todo[0]);
    assert forall i :: 0 <= i < |ring| ==> ring2[i] == ring[i];
  }

  lemma OrderPush(pushed: seq<Action>, handled: seq<Action>, hand: Hand, ring: seq<Action>, capacity: nat, a: Action)
    requires OrderOk(pushed, handled, hand, ring, capacity) && |ring| < capacity - 1
    ensures OrderOk(pushed + [a], handled, hand, ring + [a], capacity)
  {
  }

  lemma ShutPushed(s: State, s2: State)
    requires ShutOk(s.todo, s.scanning, s.stopped, s.started, s.asked, s.terminated, s.hand, s.ring, s.reader.Fetching?)
    requires s.todo != [] && s2.todo == s.todo[1..] && s2.scanning == (s.scanning && |s.todo| > 1)
    ensures ShutOk(s2.todo, s2.scanning, s.stopped, s.started, s.asked, s.terminated, s.hand, s2.ring, s.reader.Fetching?)
  {
  }

  lemma InvUserRestore(c: Config, s: State, a: Action)
    requires Inv(c, s) && !s.reader.Handshake? && !s.asked && a.Restoration? && DateOk(a.date) && |s.ring| < c.capacity - 1
    ensures Inv(c, s.(ring := s.ring + [a], pushed := s.pushed + [a]))
  {
    hide *;
    var s2 := s.(ring := s.ring + [a], pushed := s.pushed + [a]);
    Open(c, s);
    WorkAsked(c, s.tree, s.seen, s.started, s.index, s.todo, s.ring, s.hand, a);
    RestorePushed(c, ServerView(c, s.table), s.seen, s.requests, s.hand, s.ring, s.todo, a);
    ConvergingSame(c, s.table, Goal(c, s.started, s.seen, s.initial),
                   Outstanding(c, s.seen, s.requests, s.hand, s.ring, s.todo),
                   Outstanding(c, s.seen, s.requests, s.hand, s2.ring, s.todo), s.lost);
    OrderPush(s.pushed, s.handled, s.hand, s.ring, c.capacity, a);
    ShutAsked(s, s2);
    NoHandshake(s2);
    Close(c, s2);
  }

  lemma WorkAsked(c: Config, tree: Tree, seen: Tree, started: bool, index: map<string, int>, todo: seq<Event>,
                  ring: seq<Action>, hand: Hand, a: Action)
    requires TreesOk(c, tree, seen, started, index, todo, ring, hand) && WorkOk(c, seen, todo, ring, hand)
    requires a.Restoration? && DateOk(a.date)
    ensures TreesOk(c, tree, seen, started, index, todo, ring + [a], hand) && WorkOk(c, seen, todo, ring + [a], hand)
  {
    hide TreeOk, Mtimes, EventOk, DateOk, PathOk;
    assert forall i :: 0 <= i < |ring| ==> (ring + [a])[i] == ring[i];
    assert Quiet(todo, ring + [a], hand) <==> Quiet(todo, ring, hand);
  }

  lemma ConvergingSame(c: Config, t: Table, goal: map<string, string>, ops: seq<Op>, ops2: seq<Op>, lost: bool)
    requires Converging(c, t, goal, ops, lost) && ApplyAll(ServerView(c, t), ops2) == ApplyAll(ServerView(c, t), ops)
    ensures Converging(c, t, goal, ops2, lost)
  {
    hide ApplyAll, ServerView;
  }

  lemma ShutAsked(s: State, s2: State)
    requires ShutOk(s.todo, s.scanning, s.stopped, s.started, s.asked, s.terminated, s.hand, s.ring, s.reader.Fetching?) && !s.asked
    ensures ShutOk(s.todo, s.scanning, s.stopped, s.started, s.asked, s.terminated, s.hand, s2.ring, s.reader.Fetching?)
  {
  }

  /** UserQuit, StopWatcher, TerminateRing. */
  lemma InvShutdown(c: Config, s: State, s2: State)
    requires Inv(c, s) && !s.reader.Handshake? && s2 == s.(asked := s2.asked, stopped := s2.stopped, terminated := s2.terminated)
    requires (s.asked ==> s2.asked) && (s.stopped ==> s2.stopped) && (s.terminated ==> s2.terminated)
    requires (s2.stopped ==> s2.asked && s.started && s.todo == []) && (s2.terminated ==> s2.stopped)
    ensures Inv(c, s2)
  {
    hide *;
    Open(c, s);
    ShutMore(s, s2);
    NoHandshake(s2);
    Close(c, s2);
  }

  lemma ShutMore(s: State, s2: State)
    requires ShutOk(s.todo, s.scanning, s.stopped, s.started, s.asked, s.terminated, s.hand, s.ring, s.reader.Fetching?)
    requires (s.terminated ==> s2.terminated) && (s2.terminated ==> s2.stopped)
    requires s2.stopped ==> s2.asked && s.started && s.todo == []
    ensures ShutOk(s.todo, s.scanning, s2.stopped, s.started, s2.asked, s2.terminated, s.hand, s.ring, s.reader.Fetching?)
  {
  }

  /** The watcher's shutdown begins only after the handshake. */
  lemma ShutAfterHandshake(c: Config, s: State)
    requires Inv(c, s) && s.reader.Handshake?
    ensures !s.started && !s.asked && !s.stopped && !s.terminated && s.todo == [] && s.ring == [] && s.hand.Idle? && s.requests == [] && s.done == []
  {
    hide *;
    Open(c, s);
    ShutHandshake(s);
  }

  lemma ShutHandshake(s: State)
    requires ShutOk(s.todo, s.scanning, s.stopped, s.started, s.asked, s.terminated, s.hand, s.ring, s.reader.Fetching?) && !s.started
    ensures !s.stopped && !s.terminated && !s.scanning
  {
  }
}
