/** The whole client and the server at work, as a step system. One label is one section under a lock, one
    write, or one read that had all its bytes; each TCP direction is a FIFO byte sequence, held as the
    net part of the reader's stream. */
module System {
  import opened Text
  import opened Streams
  import opened Wire
  import opened Store
  import opened Digests
  import opened Actions
  import opened Watcher
  import opened Responses
  import opened Rebuild
  import opened Handler
  import opened Client

  /** main_path, the ring's MAX_SIZE, and the digest. */
  datatype Config = Config(main: string, capacity: nat, dg: Digest)

  /** The action consumer: between pops, holding an action, having added it to the pending map, between a
      file's header and its bytes, or after writing quit. */
  datatype Hand = Idle | Holding(action: Action) | Added(action: Action, index: int) | Body(path: string) | Quitted

  /** The server: before a header, between header and answer, or gone after quit; the day of an action is
      taken right after its header has been read. */
  datatype Phase = Waiting | Running(head: Header, day: string) | Closed

  /** The response consumer: still reading the initial status, reading responses, reading a restore
      stream, or done. */
  datatype Reader = Handshake | Listening | Fetching(index: int) | Finished

  /** How much of the oldest unfinished request's answer the client has read. */
  datatype Eaten = Nothing | Greeted | Fetched

  /** A request the server has answered; at is the length of the log when it did, and entered whether an entry
      was made there. */
  datatype Done = Done(request: Request, answer: Answer, at: nat, entered: bool)

  /** A restore the client has finished: what it asked for, received and built. */
  datatype Restored = Restored(date: string, files: seq<File>, built: Built, at: nat)

  datatype State = State(
    // the world
    day: string, tree: Tree,
    // watcher thread: paths_, the events not pushed yet, and whether they are those of a scan, which holds
    // the watcher's mutex to its end, and not of init_status, which does not take it
    initial: map<string, string>, started: bool, index: map<string, int>, todo: seq<Event>, scanning: bool, stopped: bool,
    // input thread
    asked: bool,
    // ring buffer
    ring: seq<Action>, terminated: bool,
    // action consumer; awaiting: a restore header is out and its date is not
    hand: Hand, awaiting: bool,
    // pending actions
    pending: PendingMap, next: int,
    // server
    sin: Stream, phase: Phase, table: Table,
    // response consumer
    cin: Stream, reader: Reader, restored: seq<Restored>,
    // bookkeeping that no step's outcome depends on: the tree last scanned, the log of accepted actions,
    // the requests written and not yet answered, those answered and not yet read off, how much of the
    // oldest answer is read, whether an action was lost, and all actions pushed and handled
    seen: Tree, log: seq<Entry>, requests: seq<Request>, done: seq<Done>, eaten: Eaten, lost: bool,
    pushed: seq<Action>, handled: seq<Action>)

  datatype Label =
    | NextDay(day: string)
    | TreeChange(tree: Tree)
    | ReadInitialStatus
    | StartUp(events: seq<Event>)
    | StartScan(events: seq<Event>)
    | PushEvent
    | UserRestore(date: string, target: string)
    | UserQuit
    | StopWatcher
    | TerminateRing
    | Pop
    | AddPending
    | DropIgnored
    | RejectOversized
    | WriteHeader(mtime: int, perms: int)
    | WriteBody
    | WriteQuit
    | ServeHead
    | ServeTail(engine: bool)
    | ReadResponse
    | FetchRestore

  function Send(s: Stream, bytes: string): Stream { s.(net := s.net + bytes) }

  // ----- hypotheses, as guards -----

  /** Paths lie below main_path and are ASCII, without newline. */
  ghost predicate PathOk(c: Config, p: string) { c.main <= p && NameOk(p[|c.main|..]) }

  ghost predicate TreeOk(c: Config, t: Tree) { forall p :: p in t ==> PathOk(c, p) }

  ghost predicate DateOk(d: string) { TailOk(RESTORE, d) }

  /** Nothing the watcher has seen is still waiting to be sent, so the tree may move. */
  predicate Quiet(todo: seq<Event>, ring: seq<Action>, hand: Hand)
  {
    && todo == [] && !hand.Body? && !(hand.Holding? && hand.action.Change?)
    && !(hand.Added? && hand.action.Change?) && forall i :: 0 <= i < |ring| ==> !ring[i].Change?
  }

  /** No path the server knows as a file is a folder when the client starts. */
  ghost predicate NoFolderForFile(initial: map<string, string>, t: Tree)
  {
    forall p :: p in initial && p in t && t[p].Folder? ==> initial[p] == "dir"
  }

  // ----- steps -----

  /** Listening: one response. A restore's received starts the restore: pause() waits for the mutex, that is
      for the end of a scan, and only then is the date written. */
  ghost function StepReadResponse(s: State): Option<State>
  {
    if !s.reader.Listening? then None
    else
      match DecResponse(s.cin)
      case Got(r, c1) =>
        var (i, st) := r;
        if st == RECEIVED && At(s.pending, i).action.Restoration? then
          if s.scanning then None
          else Some(s.(cin := c1, reader := Fetching(i), eaten := Greeted, awaiting := false,
                       sin := Send(s.sin, EncDate(At(s.pending, i).action.date))))
        else
          Some(s.(cin := c1, pending := Answered(s.pending, i, st),
                  reader := if st == FINISH then Finished else Listening,
                  eaten := if st == RECEIVED then Greeted else Nothing,
                  done := if st == RECEIVED || s.done == [] then s.done else s.done[1..]))
      case _ => None
  }

  /** Fetching: the restore stream and the rebuild, then the pending entry is marked. */
  ghost function StepFetch(s: State): Option<State>
  {
    if !s.reader.Fetching? then None
    else
      match DecData(s.cin)
      case Got(fs, c1) =>
        if Build(fs).None? then None
        else
          var i := s.reader.index;
          var date := if At(s.pending, i).action.Restoration? then At(s.pending, i).action.date else "";
          Some(s.(cin := c1, reader := Listening, eaten := Fetched, pending := Answered(s.pending, i, RECEIVED),
                  restored := s.restored + [Restored(date, fs, Build(fs).value, if s.done == [] then 0 else s.done[0].at)]))
      case _ => None
  }

  /** The oldest request not yet answered gets its answer. */
  function DoneWith(done: seq<Done>, requests: seq<Request>, a: Answer, at: nat, entered: bool): seq<Done>
  {
    if requests == [] then done else done + [Done(requests[0], a, at, entered)]
  }

  function Unanswered(requests: seq<Request>): seq<Request> { if requests == [] then [] else requests[1..] }

  ghost function StepServeHead(s: State): Option<State>
  {
    if !s.phase.Waiting? then None
    else
      match DecHeader(s.sin)
      case Got(h, s1) =>
        if h.kind == QUIT then
          Some(s.(sin := s1, cin := Send(s.cin, Greeting(h)), phase := Closed,
                  done := DoneWith(s.done, s.requests, Answer(QUIT, 0, true, []), |s.log|, false),
                  requests := Unanswered(s.requests)))
        else Some(s.(sin := s1, cin := Send(s.cin, Greeting(h)), phase := Running(h, s.day)))
      case _ => None
  }

  /** The number of files of a restore has to fit the int it is read into. */
  ghost function StepServeTail(c: Config, s: State, engine: bool): Option<State>
  {
    if !s.phase.Running? then None
    else
      var (h, day) := (s.phase.head, s.phase.day);
      match DecTail(s.sin, h.kind)
      case Got(tail, s2) =>
        if h.kind == RESTORE && |AsOf(s.table, tail)| > INT_MAX then None
        else
          var (t2, a) := Execute(c.dg, s.table, day, engine, h, tail);
          Some(s.(sin := s2, cin := Send(s.cin, Reply(a)), phase := Waiting, table := t2,
                  log := if IsChange(h.kind) && engine then s.log + [EntryFor(c.dg, day, h, tail)] else s.log,
                  lost := s.lost || (IsChange(h.kind) && !engine),
                  done := DoneWith(s.done, s.requests, a, |s.log|, IsChange(h.kind) && engine), requests := Unanswered(s.requests)))
      case _ => None
  }

  /** The action consumer writes nothing while a restore header waits for its date. */
  ghost function StepWriteHeader(c: Config, s: State, mt: int, pm: int): Option<State>
  {
    if !s.hand.Added? || s.awaiting || !(0 <= mt <= INT_MAX) || !(0 <= pm <= INT_MAX) then None
    else
      match RequestFor(c.main, s.tree, s.hand.action, s.hand.index, mt, pm)
      case Some(r) =>
        Some(s.(sin := Send(s.sin, EncHeader(r.head)), requests := s.requests + [r],
                awaiting := r.head.kind == RESTORE,
                hand := if r.head.kind == READ_FILE then Body(s.hand.action.path) else Idle,
                handled := s.handled + [s.hand.action]))
      case None => None
  }

  ghost function Step(c: Config, s: State, l: Label): Option<State>
  {
    match l
    case NextDay(d) => if Le(s.day, d) then Some(s.(day := d)) else None
    case TreeChange(t) => if TreeOk(c, t) && Quiet(s.todo, s.ring, s.hand) then Some(s.(tree := t)) else None
    case ReadInitialStatus =>
      if !s.reader.Handshake? then None
      else
        (match DecInit(s.cin)
         case Got(ps, c1) => Some(s.(cin := c1, initial := InitMap(c.main, ps), reader := Listening))
         case _ => None)
    case StartUp(es) =>
      if !s.reader.Handshake? && !s.started && NoFolderForFile(s.initial, s.tree) &&
         IsDiff(es, s.initial.Keys, s.tree, HashChanged(c.dg, s.initial, s.tree))
      then Some(s.(started := true, index := Mtimes(s.tree), todo := es, seen := s.tree))
      else None
    case StartScan(es) =>
      if s.started && !s.stopped && s.todo == [] && !s.reader.Fetching? && Honest(s.seen, s.tree) &&
         IsDiff(es, s.index.Keys, s.tree, MtimeChanged(s.index, s.tree))
      then Some(s.(index := Mtimes(s.tree), todo := es, scanning := es != [], seen := s.tree))
      else None
    case PushEvent =>
      if s.todo != [] && |s.ring| < c.capacity - 1 then
        var a := ToAction(s.tree, s.todo[0]);
        Some(s.(ring := s.ring + [a], pushed := s.pushed + [a], todo := s.todo[1..],
                     scanning := s.scanning && |s.todo| > 1))
      else None
    case UserRestore(d, target) =>
      if !s.reader.Handshake? && !s.asked && DateOk(d) && |s.ring| < c.capacity - 1 then
        Some(s.(ring := s.ring + [Restoration(d, target)], pushed := s.pushed + [Restoration(d, target)]))
      else None
    case UserQuit => if !s.reader.Handshake? && !s.asked then Some(s.(asked := true)) else None
    case StopWatcher => if s.asked && s.started && !s.stopped && s.todo == [] then Some(s.(stopped := true)) else None
    case TerminateRing => if s.stopped && !s.terminated then Some(s.(terminated := true)) else None
    case Pop =>
      if s.hand.Idle? && s.ring != [] then Some(s.(hand := Holding(s.ring[0]), ring := s.ring[1..])) else None
    case AddPending =>
      if s.hand.Holding? && s.next <= INT_MAX then
        Some(s.(hand := Added(s.hand.action, s.next), pending := s.pending[s.next := Pending(s.hand.action, SENT)], next := s.next + 1))
      else None
    case DropIgnored =>
      if s.hand.Added? && s.hand.action.Change? && s.hand.action.kind == IGNORE then
        Some(s.(hand := Idle, pending := Answered(s.pending, s.hand.index, COMPLETED), handled := s.handled + [s.hand.action]))
      else None
    case RejectOversized =>
      if s.hand.Added? && TooBig(s.tree, s.hand.action) then
        Some(s.(hand := Idle, pending := Answered(s.pending, s.hand.index, ERROR), lost := true,
                handled := s.handled + [s.hand.action]))
      else None
    case WriteHeader(mt, pm) => StepWriteHeader(c, s, mt, pm)
    case WriteBody =>
      if s.hand.Body? && s.hand.path in s.tree && s.tree[s.hand.path].Plain? then
        Some(s.(hand := Idle, sin := Send(s.sin, EncBody(s.tree[s.hand.path].content))))
      else None
    case WriteQuit =>
      if s.hand.Idle? && s.ring == [] && s.terminated && !s.awaiting then
        Some(s.(hand := Quitted, sin := Send(s.sin, EncHeader(QuitHeader())), requests := s.requests + [Request(QuitHeader(), "")]))
      else None
    case ServeHead => StepServeHead(s)
    case ServeTail(engine) => StepServeTail(c, s, engine)
    case ReadResponse => StepReadResponse(s)
    case FetchRestore => StepFetch(s)
  }

  // ----- runs -----

  /** The hash of a stored file is the digest of its bytes. */
  ghost predicate HashesOk(dg: Digest, log: seq<Entry>)
  {
    forall i :: 0 <= i < |log| && log[i].row.action == READ_FILE ==> log[i].row.hash == FileHash(dg, log[i].row.file)
  }

  /** A session right after login: the server has written the initial status of a table left by earlier
      sessions, and both streams hold what the login reads left in them. */
  ghost predicate Initial(c: Config, s: State)
  {
    && c.capacity >= 2 && Sha256Like(c.dg) && TreeOk(c, s.tree)
    && LogOk(s.log) && HashesOk(c.dg, s.log) && ByDay(s.log) && (forall i :: 0 <= i < |s.log| ==> Le(s.log[i].day, s.day))
    && s.table == TableOf(s.log)
    && s.initial == map[] && !s.started && s.index == map[] && s.todo == [] && !s.scanning && !s.stopped
    && !s.asked && s.ring == [] && !s.terminated && s.hand == Idle && !s.awaiting
    && s.pending == map[] && s.next == 0
    && s.sin == Stream("", "", false, false) && s.phase == Waiting
    && s.cin == Stream(EncInit(InitPairs(s.table)), "\n", false, false) && s.reader == Handshake && s.restored == []
    && s.seen == map[] && s.requests == [] && s.done == [] && s.eaten == Nothing && !s.lost
    && s.pushed == [] && s.handled == []
  }

  /** The state after a sequence of labels, each enabled when its turn comes. */
  ghost function Run(c: Config, s0: State, ls: seq<Label>): Option<State>
    decreases ls
  {
    if ls == [] then Some(s0) else
      match Run(c, s0, ls[..|ls| - 1])
      case Some(s) => Step(c, s, ls[|ls| - 1])
      case None => None
  }
}
