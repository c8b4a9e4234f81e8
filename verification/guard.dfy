/** The hypothesis that nothing is written between a restore header and its date: when the threads can keep it,
    and that they cannot always. */
module Guards {
  import opened Text
  import opened Streams
  import opened Wire
  import opened Store
  import opened Digests
  import opened Actions
  import opened Watcher
  import opened Responses
  import opened Rebuild
  import opened Client
  import opened System
  import opened Channels
  import opened Sync
  import opened Invariant
  import opened ConsumerSteps
  import opened ExchangeSteps
  import opened StepForms
  import opened Theorems
  import opened Progress
  import opened Sessions

  /** The actions of the events still to be pushed. */
  function Raised(t: Tree, es: seq<Event>): (acts: seq<Action>)
    ensures |acts| == |es| && forall i :: 0 <= i < |es| ==> acts[i] == ToAction(t, es[i])
  {
    seq(|es|, i requires 0 <= i < |es| => ToAction(t, es[i]))
  }

  /** What stands in front of the action consumer, oldest first. */
  function Queue(s: State): seq<Action> { InHand(s.hand) + s.ring + Raised(s.tree, s.todo) }

  /** What is left of it when the actions that need no writing are taken from its front. */
  function Heavy(t: Tree, acts: seq<Action>): seq<Action>
    decreases acts
  {
    if acts != [] && Silent(t, acts[0]) then Heavy(t, acts[1..]) else acts
  }

  /** A restore waits for its date, a scan holds the mutex, and what the consumer will meet from its first
      action to write on fits neither its hand nor the ring: the scan cannot end before the consumer writes. */
  predicate Doomed(c: Config, s: State)
  {
    s.awaiting && s.scanning && |Heavy(s.tree, Queue(s))| > c.capacity
  }

  /** No further restore is waiting to be written. */
  ghost predicate NoMoreRestores(s: State)
  {
    forall i :: 0 <= i < |InHand(s.hand) + s.ring| ==> (InHand(s.hand) + s.ring)[i].Change?
  }

  /** How far the counter of actions can get. */
  function Indices(s: State): int
  {
    s.next + (if s.hand.Holding? then 1 else 0) + |s.ring| + |s.todo|
  }

  lemma {:induction false} HeavyShort(t: Tree, acts: seq<Action>)
    ensures |Heavy(t, acts)| <= |acts|
    decreases acts
  {
    hide Silent;
    if acts != [] { HeavyShort(t, acts[1..]); }
  }

  lemma HeavyFirst(t: Tree, a: Action, acts: seq<Action>)
    ensures Silent(t, a) ==> Heavy(t, [a] + acts) == Heavy(t, acts)
    ensures !Silent(t, a) ==> Heavy(t, [a] + acts) == [a] + acts
  {
    hide Silent;
    assert ([a] + acts)[1..] == acts;
  }

  // ----- what an own step does to the queue -----

  ghost predicate QueueForm(c: Config, s: State, s2: State)
  {
    && (s.awaiting && s.scanning ==> Heavy(s2.tree, Queue(s2)) == Heavy(s.tree, Queue(s)))
    && (s2.scanning ==> s.scanning)
    && (s.scanning && !s2.scanning ==> |Queue(s)| <= c.capacity)
    && (s2.awaiting && !s.awaiting ==> s.hand.Added? && s.hand.action.Restoration?)
    && (s.awaiting && s.scanning ==> s2.awaiting)
    && (NoMoreRestores(s) ==> NoMoreRestores(s2))
    && (s.started ==> s2.started && Indices(s2) <= Indices(s))
  }

  /** A step that leaves the client's queue alone. */
  lemma SameQueue(c: Config, s: State, s2: State)
    requires s2.hand == s.hand && s2.ring == s.ring && s2.todo == s.todo && s2.tree == s.tree && s2.next == s.next
    requires s2.scanning == s.scanning && s2.started == s.started
    requires s2.awaiting == s.awaiting || (!s.scanning && !s2.awaiting)
    ensures QueueForm(c, s, s2)
  {
    hide Heavy, Raised;
  }

  lemma PushQueue(c: Config, s: State, s2: State)
    requires Step(c, s, PushEvent) == Some(s2)
    ensures QueueForm(c, s, s2)
  {
    hide Step, Heavy;
    PushIs(c, s, s2);
    var a := ToAction(s.tree, s.todo[0]);
    assert Raised(s.tree, s.todo) == [a] + Raised(s.tree, s.todo[1..]);
    assert Queue(s2) == Queue(s);
    var before, after := InHand(s.hand) + s.ring, InHand(s2.hand) + s2.ring;
    assert after == before + [a];
    assert NoMoreRestores(s) ==> forall i :: 0 <= i < |before| ==> after[i] == before[i];
  }

  lemma PopQueue(c: Config, s: State, s2: State)
    requires Step(c, s, Pop) == Some(s2)
    ensures QueueForm(c, s, s2)
  {
    hide Step, Heavy, Raised;
    PopIs(c, s, s2);
    assert InHand(s2.hand) + s2.ring == InHand(s.hand) + s.ring;
    assert Queue(s2) == Queue(s);
  }

  lemma AddQueue(c: Config, s: State, s2: State)
    requires Step(c, s, AddPending) == Some(s2)
    ensures QueueForm(c, s, s2)
  {
    hide Step, Heavy, Raised;
    AddIs(c, s, s2);
    assert InHand(s2.hand) == InHand(s.hand);
    assert Queue(s2) == Queue(s);
  }

  /** The consumer gets rid of an action, with or without writing. */
  lemma LeaveQueue(c: Config, s: State, s2: State)
    requires s.hand.Added? && !s2.hand.Holding? && !s2.hand.Added? && s2.ring == s.ring && s2.todo == s.todo && s2.tree == s.tree
    requires s2.next == s.next && s2.scanning == s.scanning && s2.started == s.started
    requires s.awaiting ==> s2.awaiting && Silent(s.tree, s.hand.action)
    requires s2.awaiting && !s.awaiting ==> s.hand.action.Restoration?
    ensures QueueForm(c, s, s2)
  {
    hide Heavy, Raised, Silent;
    var a, rest := s.hand.action, s.ring + Raised(s.tree, s.todo);
    assert Queue(s) == [a] + rest && Queue(s2) == rest;
    HeavyFirst(s.tree, a, rest);
    FewerRestores(s, s2);
    hide NoMoreRestores;
  }

  lemma FewerRestores(s: State, s2: State)
    requires s.hand.Added? && !s2.hand.Holding? && !s2.hand.Added? && s2.ring == s.ring
    ensures NoMoreRestores(s) ==> NoMoreRestores(s2)
  {
    var before, after := InHand(s.hand) + s.ring, InHand(s2.hand) + s2.ring;
    if NoMoreRestores(s) {
      forall i | 0 <= i < |after| ensures after[i].Change? {
        assert before[i + 1] == after[i];
      }
    }
  }

  lemma DropQueue(c: Config, s: State, s2: State)
    requires Step(c, s, DropIgnored) == Some(s2)
    ensures QueueForm(c, s, s2)
  {
    hide Step, QueueForm, Answered, TooBig;
    DropIs(c, s, s2);
    LeaveQueue(c, s, s2);
  }

  lemma RejectQueue(c: Config, s: State, s2: State)
    requires Step(c, s, RejectOversized) == Some(s2)
    ensures QueueForm(c, s, s2)
  {
    hide Step, QueueForm, Answered, TooBig;
    RejectIs(c, s, s2);
    LeaveQueue(c, s, s2);
  }

  lemma HeaderQueue(c: Config, s: State, s2: State, mt: int, pm: int)
    requires Inv(c, s) && StepWriteHeader(c, s, mt, pm) == Some(s2)
    ensures QueueForm(c, s, s2)
  {
    hide *;
    WriteHeaderIs(c, s, s2, mt, pm);
    Open(c, s);
    HeldIsOk(c, s.seen, s.todo, s.ring, s.hand);
    ActionKinds(c, s.seen, s.hand.action);
    RequestPromises(c, s.tree, s.hand.action, s.hand.index, mt, pm);
    ChangeKinds(s.hand.action);
    LeaveQueue(c, s, s2);
  }

  lemma ChangeKinds(a: Action)
    requires a.Change? || a.Restoration?
    ensures a.Change? && a.kind in {READ_FILE, CREATE_FOLDER, DELETE_PATH, IGNORE} ==> a.kind != RESTORE
  {
  }

  /** The consumer's last writings, when no restore waits. */
  lemma EmptyHandQueue(c: Config, s: State, s2: State)
    requires !s.hand.Holding? && !s.hand.Added? && !s2.hand.Holding? && !s2.hand.Added?
    requires s2.ring == s.ring && s2.todo == s.todo && s2.tree == s.tree && s2.next == s.next
    requires s2.scanning == s.scanning && s2.started == s.started && s2.awaiting == s.awaiting
    ensures QueueForm(c, s, s2)
  {
    hide Heavy, Raised;
    assert InHand(s2.hand) == InHand(s.hand) == [];
    assert Queue(s2) == Queue(s);
  }

  lemma StartQueue(c: Config, s: State, es: seq<Event>, s2: State)
    requires Inv(c, s) && Step(c, s, StartUp(es)) == Some(s2)
    ensures QueueForm(c, s, s2)
  {
    hide *;
    StartUpIs(c, s, es, s2);
    Open(c, s);
    BeforeStart(c, s);
    UnstartedAwait(c, s, s2, es);
  }

  lemma UnstartedAwait(c: Config, s: State, s2: State, es: seq<Event>)
    requires !s.started && !s.scanning && s.todo == []
    requires s2 == s.(started := true, index := s2.index, todo := es, seen := s2.seen)
    ensures QueueForm(c, s, s2)
  {
    hide Heavy, Raised, Queue;
    assert NoMoreRestores(s) ==> NoMoreRestores(s2);
  }

  /** Steps at the ends of the connection. */
  lemma LinkQueue(c: Config, s: State, l: Label, s2: State)
    requires Inv(c, s) && Step(c, s, l) == Some(s2)
    requires l.ReadInitialStatus? || l.ServeHead? || l.ServeTail? || l.ReadResponse? || l.FetchRestore?
    ensures QueueForm(c, s, s2)
  {
    hide *;
    match l
    case ReadInitialStatus => AtHandshake(c, s, s2); Open(c, s); InitialStatusIs(c, s); SameQueue(c, s, s2);
    case ServeHead => ServerSteps(c, s, true); HeadCases(c, s, s2); HeadMeans(s, s2); SameQueue(c, s, s2);
    case ServeTail(engine) => ServerSteps(c, s, engine); TailCases(c, s, s2, engine); SameQueue(c, s, s2);
    case ReadResponse => ReaderSteps(c, s); ReadCases(c, s, s2); ReadMeans(s, s2); SameQueue(c, s, s2);
    case FetchRestore => ReaderSteps(c, s); FetchKeeps(s, s2); SameQueue(c, s, s2);
  }

  lemma EndQueue(c: Config, s: State, l: Label, s2: State)
    requires Step(c, s, l) == Some(s2) && (l.WriteBody? || l.WriteQuit? || l.StopWatcher? || l.TerminateRing?)
    ensures QueueForm(c, s, s2)
  {
    hide *;
    match l
    case WriteBody => BodyIs(c, s, s2); EmptyHandQueue(c, s, s2);
    case WriteQuit => QuitIs(c, s, s2); EmptyHandQueue(c, s, s2);
    case StopWatcher => StopIs(c, s, s2); SameQueue(c, s, s2);
    case TerminateRing => TerminateIs(c, s, s2); SameQueue(c, s, s2);
  }

  lemma OwnQueue(c: Config, s: State, l: Label, s2: State)
    requires Inv(c, s) && Step(c, s, l) == Some(s2) && Internal(l)
    ensures QueueForm(c, s, s2)
  {
    hide *;
    match l
    case ReadInitialStatus => LinkQueue(c, s, l, s2);
    case StartUp(es) => StartQueue(c, s, es, s2);
    case ServeHead => LinkQueue(c, s, l, s2);
    case ServeTail(_) => LinkQueue(c, s, l, s2);
    case ReadResponse => LinkQueue(c, s, l, s2);
    case FetchRestore => LinkQueue(c, s, l, s2);
    case WriteHeader(mt, pm) => HeaderStep(c, s, mt, pm); HeaderQueue(c, s, s2, mt, pm);
    case PushEvent => PushQueue(c, s, s2);
    case Pop => PopQueue(c, s, s2);
    case AddPending => AddQueue(c, s, s2);
    case DropIgnored => DropQueue(c, s, s2);
    case RejectOversized => RejectQueue(c, s, s2);
    case WriteBody => EndQueue(c, s, l, s2);
    case WriteQuit => EndQueue(c, s, l, s2);
    case StopWatcher => EndQueue(c, s, l, s2);
    case TerminateRing => EndQueue(c, s, l, s2);
    case _ => OutsideLabel(l);
  }

  // ----- when the hypothesis can be kept -----

  /** The step at which a restore header is written decides, by the ring and the events left, whether the
      state after it is doomed. */
  lemma DoomAtHeader(c: Config, s: State, s2: State, mt: int, pm: int)
    requires Inv(c, s) && StepWriteHeader(c, s, mt, pm) == Some(s2) && s.hand.Added? && s.hand.action.Restoration?
    ensures Doomed(c, s2) <==> s.scanning && |Heavy(s.tree, s.ring + Raised(s.tree, s.todo))| > c.capacity
  {
    hide *;
    WriteHeaderIs(c, s, s2, mt, pm);
    RestoreWritten(c, s, s2, mt, pm);
  }

  lemma RestoreWritten(c: Config, s: State, s2: State, mt: int, pm: int)
    requires s.hand.Added? && s.hand.action.Restoration? && RequestFor(c.main, s.tree, s.hand.action, s.hand.index, mt, pm).Some?
    requires var r := RequestFor(c.main, s.tree, s.hand.action, s.hand.index, mt, pm).value;
             s2 == s.(sin := s2.sin, requests := s2.requests, awaiting := r.head.kind == RESTORE,
                      hand := if r.head.kind == READ_FILE then Body(s.hand.action.path) else Idle, handled := s2.handled)
    ensures Doomed(c, s2) <==> s.scanning && |Heavy(s.tree, s.ring + Raised(s.tree, s.todo))| > c.capacity
  {
    hide Heavy, Raised;
    assert Queue(s2) == s.ring + Raised(s.tree, s.todo);
  }

  /** Nothing the system does by itself within the hypothesis undoes a doomed state. */
  lemma DoomKept(c: Config, s: State, s2: State)
    requires QueueForm(c, s, s2) && Doomed(c, s)
    ensures Doomed(c, s2)
  {
    hide Heavy, Queue;
    HeavyShort(s.tree, Queue(s));
  }

  /** Nor does it bring one about, unless it writes another restore header. */
  lemma SafeKept(c: Config, s: State, s2: State)
    requires QueueForm(c, s, s2) && !Doomed(c, s) && NoMoreRestores(s)
    ensures !Doomed(c, s2) && NoMoreRestores(s2)
  {
    hide Heavy, Queue;
    if s.hand.Added? && s.hand.action.Restoration? {
      assert (InHand(s.hand) + s.ring)[0] == s.hand.action;
    }
  }

  lemma {:induction false} DoomRuns(c: Config, s: State, ls: seq<Label>, s2: State)
    requires Inv(c, s) && AllInternal(ls) && Run(c, s, ls) == Some(s2)
    ensures Doomed(c, s) ==> Doomed(c, s2)
    ensures !Doomed(c, s) && NoMoreRestores(s) ==> !Doomed(c, s2) && NoMoreRestores(s2)
    ensures s.started ==> s2.started && Indices(s2) <= Indices(s)
    decreases ls
  {
    hide *;
    if ls == [] {
      RunNothing(c, s);
    } else {
      var n := |ls| - 1;
      RunLast(c, s, ls);
      InternalPrefix(ls);
      var before := Run(c, s, ls[..n]).value;
      DoomRuns(c, s, ls[..n], before);
      InternalRunsEnd(c, s, ls[..n], before);
      OwnQueue(c, before, ls[n], s2);
      IndicesKept(c, before, s2);
      if Doomed(c, s) { DoomKept(c, before, s2); } else if NoMoreRestores(s) { SafeKept(c, before, s2); }
    }
  }

  lemma IndicesKept(c: Config, s: State, s2: State)
    requires QueueForm(c, s, s2)
    ensures s.started ==> s2.started && Indices(s2) <= Indices(s)
  {
    hide Heavy, Queue, Indices;
  }

  /** A cornered state is a doomed one. */
  lemma CornerIsDoom(c: Config, s: State)
    requires Inv(c, s) && Cornered(c, s)
    ensures Doomed(c, s)
  {
    hide *;
    Open(c, s);
    ShutStopped(s);
    CorneredMeans(c, s);
    HeldQueue(c, s);
  }

  lemma HeldQueue(c: Config, s: State)
    requires s.scanning && s.todo != [] && |s.ring| == c.capacity - 1 && s.awaiting
    requires s.hand.Added? && !Silent(s.tree, s.hand.action)
    ensures Doomed(c, s)
  {
    hide Heavy, Raised, Silent;
    var a, rest := s.hand.action, s.ring + Raised(s.tree, s.todo);
    assert Queue(s) == [a] + rest;
    HeavyFirst(s.tree, a, rest);
  }

  /** A doomed state that can do nothing more within the hypothesis, and does not throw, is cornered. */
  lemma DoomAtRest(c: Config, s: State)
    requires Inv(c, s) && Doomed(c, s) && !Throws(s) && (Settled(s) || Barred(s) || Cornered(c, s))
    ensures Cornered(c, s)
  {
    hide *;
    Open(c, s);
    DoomMeans(c, s);
    ShutStopped(s);
    AwaitMeans(s.awaiting, Flight(s.done, s.requests), s.requests, s.eaten, s.hand);
    if Settled(s) { SettledMeans(s); }
    if Barred(s) { BarredMeans(s); }
  }

  lemma DoomMeans(c: Config, s: State)
    requires Doomed(c, s)
    ensures s.awaiting && s.scanning
  {
    hide Heavy, Queue;
  }

  lemma BarredMeans(s: State)
    requires Barred(s)
    ensures !s.started
  {
    hide NoFolderForFile;
  }

  /** Keeping the hypothesis, exactly: left alone in a state in which no further restore is waiting to be
      written, and as long as it does not throw, the system can keep the hypothesis to the end if and only if the
      state is not doomed; from a doomed one it comes to where only a write breaks it. */
  lemma KeepingExact(c: Config, s: State, ls: seq<Label>, s2: State)
    requires Inv(c, s) && NoMoreRestores(s) && AllInternal(ls) && Run(c, s, ls) == Some(s2) && AtRest(c, s2)
    requires !Throws(s2) && !Barred(s2)
    ensures Cornered(c, s2) <==> Doomed(c, s)
    ensures Settled(s2) <==> !Doomed(c, s)
  {
    hide *;
    InternalRunsEnd(c, s, ls, s2);
    DoomRuns(c, s, ls, s2);
    RestExact(c, s2);
    if Doomed(c, s) {
      DoomAtRest(c, s2);
    } else if Cornered(c, s2) {
      CornerIsDoom(c, s2);
    }
  }

  /** At the step that writes a restore header, with no other restore waiting, the scan under way, the ring and
      the events left decide whether the hypothesis can be kept to the end. */
  lemma HeaderDecides(c: Config, s: State, s1: State, mt: int, pm: int, ls: seq<Label>, s2: State)
    requires Inv(c, s) && StepWriteHeader(c, s, mt, pm) == Some(s1) && s.hand.Added? && s.hand.action.Restoration?
    requires NoMoreRestores(s1) && AllInternal(ls) && Run(c, s1, ls) == Some(s2) && AtRest(c, s2)
    requires !Throws(s2) && !Barred(s2)
    ensures Settled(s2) <==> !(s.scanning && |Heavy(s.tree, s.ring + Raised(s.tree, s.todo))| > c.capacity)
  {
    hide *;
    InvWriteHeader(c, s, s1, mt, pm);
    DoomAtHeader(c, s, s1, mt, pm);
    KeepingExact(c, s1, ls, s2);
  }

  // ----- it cannot always be kept -----

  /** A doomed state throws only if the counter of actions runs out. */
  lemma DoomThrows(c: Config, s: State)
    requires Inv(c, s) && Doomed(c, s) && Indices(s) <= INT_MAX + 1
    ensures !Throws(s)
  {
    hide *;
    Open(c, s);
    DoomMeans(c, s);
    ShutStopped(s);
    var flight, open := Flight(s.done, s.requests), s.hand.Body? || s.awaiting;
    FlightFirst(s.done, s.requests);
    Phases(s.sin, s.phase, s.requests, open);
    if s.phase.Running? && s.phase.head.kind == RESTORE {
      UpServeTail(s.sin, s.phase.head, s.phase.day, s.requests, open);
      RunningFirst(s.sin, s.phase, s.requests, open);
      if !s.reader.Handshake? { EatenFirst(s.cin, s.phase, s.done, s.eaten, s.reader.Fetching?); }
      LastRestore(s.awaiting, flight, s.requests, s.eaten, s.hand, |s.done|);
    }
    CounterLasts(s);
  }

  lemma EatenFirst(cin: Stream, phase: Phase, ds: seq<Done>, eaten: Eaten, fetching: bool)
    requires DownOk(cin, phase, ds, eaten, fetching) && phase.Running? && phase.head.kind == RESTORE && !fetching
    ensures ds == [] ==> eaten.Nothing?
  {
    hide WrittenDown, EatenBytes, DonesOk, HeaderOk;
  }

  lemma LastRestore(awaiting: bool, flight: seq<Request>, rs: seq<Request>, eaten: Eaten, hand: Hand, k: nat)
    requires AwaitOk(awaiting, flight, rs, eaten, hand) && k < |flight| && flight[k].head.kind == RESTORE && (k > 0 || eaten.Nothing?)
    ensures awaiting && k == |flight| - 1
  {
  }

  lemma CounterLasts(s: State)
    requires Indices(s) <= INT_MAX + 1 && !s.reader.Fetching?
    requires s.phase.Running? && s.phase.head.kind == RESTORE ==> !DecTail(s.sin, RESTORE).Got?
    ensures !Throws(s)
  {
    hide DecData, Build, DecTail, AsOf;
  }

  /** From a doomed state the system comes to a cornered one. */
  lemma DoomCorners(c: Config, s: State) returns (ls: seq<Label>, s2: State)
    requires Inv(c, s) && Doomed(c, s) && Indices(s) <= INT_MAX + 1
    ensures AllInternal(ls) && Run(c, s, ls) == Some(s2) && Cornered(c, s2)
  {
    hide *;
    Open(c, s);
    DoomMeans(c, s);
    ShutStopped(s);
    ls, s2 := Settles(c, s);
    InternalRunsEnd(c, s, ls, s2);
    DoomRuns(c, s, ls, s2);
    DoomThrows(c, s2);
    DoomAtRest(c, s2);
  }

  /** A fresh session of a user without history, with an empty folder. */
  ghost function Fresh(): State
  {
    Opened(Stream("", "", false, false), Stream(EncInit(InitPairs(TableOf([]))), "\n", false, false), [], map[], "")
  }

  function Name(k: nat): (n: string)
    ensures |n| == k + 2 && n[0] == '/' && '\n' !in n && Ascii(n)
  {
    if k == 0 then "/a" else Name(k - 1) + "a"
  }

  function Below(main: string, k: nat): (p: string)
    ensures main <= p && p[|main|..] == Name(k) && |p| == |main| + k + 2
  {
    main + Name(k)
  }

  /** n folders below the watched one, and the events that report them. */
  ghost function Folders(main: string, n: nat): (t: Tree)
    ensures forall k: nat :: k < n ==> Below(main, k) in t
    ensures forall p :: p in t ==> t[p] == Folder(1) && exists k: nat :: k < n && p == Below(main, k)
  {
    var ps := set k: nat | k < n :: Below(main, k);
    map p | p in ps :: Folder(1)
  }

  function Creations(main: string, n: nat): (es: seq<Event>)
    ensures |es| == n && forall k: nat :: k < n ==> es[k] == Event(Below(main, k), Created)
  {
    seq(n, k requires 0 <= k < n => Event(Below(main, k), Created))
  }

  lemma CreationsAreTheDiff(main: string, n: nat)
    ensures IsDiff(Creations(main, n), {}, Folders(main, n), MtimeChanged(map[], Folders(main, n)))
  {
    hide Name, Below, Folders, Creations;
    var es, t := Creations(main, n), Folders(main, n);
    forall i, j | 0 <= i < j < n ensures es[i].path != es[j].path {
      assert es[i].path == Below(main, i) && es[j].path == Below(main, j);
    }
    forall e ensures e in es <==> Reports(e, {}, t, MtimeChanged(map[], t)) {
      if e in es {
        var k: nat :| k < n && es[k] == e;
        assert e.path == Below(main, k);
      }
      if Reports(e, {}, t, MtimeChanged(map[], t)) {
        var k: nat :| k < n && e.path == Below(main, k);
        assert es[k] == e;
      }
    }
  }

  lemma FoldersBelow(c: Config, n: nat)
    requires n < INT_MAX - 2
    ensures TreeOk(c, Folders(c.main, n))
  {
    hide Name, Below, Folders;
    var t := Folders(c.main, n);
    forall p | p in t ensures PathOk(c, p) {
      var k: nat :| k < n && p == Below(c.main, k);
      assert p[|c.main|..] == Name(k);
    }
  }

  lemma FreshInitial(c: Config)
    requires c.capacity >= 2 && Sha256Like(c.dg)
    ensures Initial(c, Fresh())
    ensures Fresh().reader.Handshake? && Fresh().tree == map[] && Fresh().table == map[]
  {
    hide EncInit, InitPairs, Sha256Like;
    OpenedIsInitial(c, [], map[], "");
  }

  lemma NothingKnown(c: Config)
    ensures ServerView(c, map[]) == map[]
  {
    assert Current(map[]) == map[];
  }

  /** The folder is empty, the watcher starts, and the user asks for a restore. */
  lemma AskRestore(c: Config, s1: State) returns (ls: seq<Label>, s: State)
    requires c.capacity >= 2 && s1 == Fresh().(cin := s1.cin, initial := map[], reader := Listening)
    ensures Run(c, s1, ls) == Some(s)
    ensures s == s1.(started := true, hand := Added(Restoration("1", ""), 0), next := 1, pending := s.pending, pushed := s.pushed)
  {
    hide *;
    var s2 := s1.(started := true);
    FreshStarts(c, s1, s2);
    var s3 := RestoreAsked(c, s1, s2);
    var s4;
    s4, s := RestoreTaken(c, s1, s3);
    ls := [StartUp([]), UserRestore("1", ""), Pop, AddPending];
    RunFour(c, s1, ls, s2, s3, s4, s);
  }

  lemma FreshStarts(c: Config, s1: State, s2: State)
    requires s1 == Fresh().(cin := s1.cin, initial := map[], reader := Listening) && s2 == s1.(started := true)
    ensures Step(c, s1, StartUp([])) == Some(s2)
  {
    hide EncInit, InitPairs;
    assert IsDiff([], {}, map[], HashChanged(c.dg, map[], map[]));
    assert Mtimes(map[]) == map[];
  }

  lemma RestoreAsked(c: Config, s1: State, s2: State) returns (s3: State)
    requires c.capacity >= 2 && s1 == Fresh().(cin := s1.cin, initial := map[], reader := Listening) && s2 == s1.(started := true)
    ensures Step(c, s2, UserRestore("1", "")) == Some(s3)
    ensures s3 == s1.(started := true, ring := [Restoration("1", "")], pushed := s3.pushed)
  {
    hide EncInit, InitPairs;
    var a := Restoration("1", "");
    assert DateOk("1");
    s3 := s2.(ring := [] + [a], pushed := [] + [a]);
  }

  lemma RestoreTaken(c: Config, s1: State, s3: State) returns (s4: State, s: State)
    requires s1 == Fresh().(cin := s1.cin, initial := map[], reader := Listening)
    requires s3 == s1.(started := true, ring := [Restoration("1", "")], pushed := s3.pushed)
    ensures Step(c, s3, Pop) == Some(s4) && Step(c, s4, AddPending) == Some(s)
    ensures s == s1.(started := true, hand := Added(Restoration("1", ""), 0), next := 1, pending := s.pending, pushed := s.pushed)
  {
    hide EncInit, InitPairs;
    var a := Restoration("1", "");
    s4 := s3.(hand := Holding(a), ring := s3.ring[1..]);
    s := s4.(hand := Added(a, 0), pending := s4.pending[0 := Pending(a, SENT)], next := 1);
  }

  lemma RunFour(c: Config, s: State, ls: seq<Label>, s1: State, s2: State, s3: State, s4: State)
    requires |ls| == 4 && Step(c, s, ls[0]) == Some(s1) && Step(c, s1, ls[1]) == Some(s2)
    requires Step(c, s2, ls[2]) == Some(s3) && Step(c, s3, ls[3]) == Some(s4)
    ensures Run(c, s, ls) == Some(s4)
  {
    hide *;
    RunLast(c, s, ls);
    RunLast(c, s, ls[..3]);
    RunLast(c, s, ls[..2]);
    RunLast(c, s, ls[..1]);
    RunNothing(c, s);
    assert ls[..3][..2] == ls[..2] && ls[..2][..1] == ls[..1] && ls[..1][..0] == [];
  }

  /** New folders appear, one more than the ring holds and the consumer has in hand; a scan finds them; then
      the restore header is written. */
  lemma ScanAndWrite(c: Config, s: State) returns (ls: seq<Label>, s2: State)
    requires Inv(c, s) && s.hand == Added(Restoration("1", ""), 0) && s.started && !s.stopped && !s.awaiting
    requires s.todo == [] && s.ring == [] && s.index == map[] && s.seen == map[] && !s.reader.Fetching? && s.next == 1
    requires 2 <= c.capacity < INT_MAX - 3
    ensures Run(c, s, ls) == Some(s2) && Inv(c, s2) && Doomed(c, s2) && Indices(s2) <= INT_MAX + 1
  {
    hide *;
    var n := c.capacity + 1;
    var t, es := Folders(c.main, n), Creations(c.main, n);
    FoldersBelow(c, n);
    CreationsAreTheDiff(c.main, n);
    var s1, s3;
    s1, s3, s2 := ScanSteps(c, s, t, es);
    ls := [TreeChange(t), StartScan(es), WriteHeader(0, 0)];
    RunLast(c, s, ls);
    RunLast(c, s, ls[..2]);
    RunLast(c, s, ls[..1]);
    RunNothing(c, s);
    assert ls[..2][..1] == ls[..1] && ls[..1][..0] == [];
    StepInv(c, s, ls[0], s1);
    StepInv(c, s1, ls[1], s3);
    StepInv(c, s3, ls[2], s2);
    ManyFolders(c, s2, t, es);
  }

  lemma ScanSteps(c: Config, s: State, t: Tree, es: seq<Event>) returns (s1: State, s2: State, s3: State)
    requires s.hand == Added(Restoration("1", ""), 0) && s.started && !s.stopped && !s.awaiting && es != []
    requires s.todo == [] && s.ring == [] && s.index == map[] && s.seen == map[] && !s.reader.Fetching?
    requires TreeOk(c, t) && IsDiff(es, {}, t, MtimeChanged(map[], t))
    ensures Step(c, s, TreeChange(t)) == Some(s1) && Step(c, s1, StartScan(es)) == Some(s2)
    ensures Step(c, s2, WriteHeader(0, 0)) == Some(s3)
    ensures s3 == s.(tree := t, index := s3.index, todo := es, scanning := true, seen := t, hand := Idle, awaiting := true,
                     sin := s3.sin, requests := s3.requests, handled := s3.handled)
  {
    hide TreeOk, IsDiff, MtimeChanged, Mtimes, EncHeader, Send;
    s1 := s.(tree := t);
    s2 := s1.(index := Mtimes(t), todo := es, scanning := true, seen := t);
    var empty: map<string, int> := map[];
    assert empty.Keys == {};
    s3 := Step(c, s2, WriteHeader(0, 0)).value;
  }

  lemma ManyFolders(c: Config, s: State, t: Tree, es: seq<Event>)
    requires s.tree == t && s.todo == es && s.ring == [] && s.hand.Idle? && s.scanning && s.awaiting && s.next == 1
    requires t == Folders(c.main, c.capacity + 1) && es == Creations(c.main, c.capacity + 1) && c.capacity < INT_MAX - 3
    ensures Doomed(c, s) && Indices(s) <= INT_MAX + 1
  {
    hide Folders, Creations, Name, Below;
    var acts := Raised(t, es);
    assert Queue(s) == acts;
    assert es[0] == Event(Below(c.main, 0), Created) && es[0].path in t;
    assert acts[0] == ToAction(t, es[0]) && !Silent(t, acts[0]);
  }

  /** Sessions that cannot keep the hypothesis exist for every digest, watched folder and capacity: a session of a
      user without history, one restore, and one scan that finds enough new folders. */
  lemma CornerReachable(c: Config) returns (s0: State, ls: seq<Label>, s: State)
    requires 2 <= c.capacity < INT_MAX - 3 && Sha256Like(c.dg)
    ensures Reached(c, s0, ls, s) && Cornered(c, s) && AtRest(c, s) && !Settled(s)
  {
    hide *;
    s0 := Fresh();
    FreshInitial(c);
    InitialInv(c, s0);
    Open(c, s0);
    NothingKnown(c);
    InitialStatusIs(c, s0);
    var s1 := Step(c, s0, ReadInitialStatus).value;
    StepInv(c, s0, ReadInitialStatus, s1);
    FreshFields(c);
    var l1, s2 := AskRestore(c, s1);
    FreshAsked(c, s1, s2);
    RunsInv(c, s1, l1, s2);
    var l2, s3 := ScanAndWrite(c, s2);
    var l3;
    l3, s := DoomCorners(c, s3);
    RunFrom(c, s0, ReadInitialStatus, s1, l1);
    RunCat(c, s0, [ReadInitialStatus] + l1, s2, l2);
    RunCat(c, s0, [ReadInitialStatus] + l1 + l2, s3, l3);
    ls := [ReadInitialStatus] + l1 + l2 + l3;
    ReachedBy(c, s0, ls, s);
    RunInv(c, s0, ls, s);
    CorneredAtRest(c, s);
  }

  lemma FreshFields(c: Config)
    ensures Fresh().initial == map[] && Fresh().reader == Handshake
  {
    hide EncInit, InitPairs;
  }

  lemma FreshAsked(c: Config, s1: State, s: State)
    requires s1 == Fresh().(cin := s1.cin, initial := map[], reader := Listening)
    requires s == s1.(started := true, hand := Added(Restoration("1", ""), 0), next := 1, pending := s.pending, pushed := s.pushed)
    ensures s.started && !s.stopped && !s.awaiting && s.todo == [] && s.ring == [] && s.index == map[] && s.seen == map[]
    ensures !s.reader.Fetching? && s.next == 1
  {
    hide EncInit, InitPairs;
  }

  lemma {:induction false} RunsInv(c: Config, s: State, ls: seq<Label>, s2: State)
    requires Inv(c, s) && Run(c, s, ls) == Some(s2)
    ensures Inv(c, s2)
    decreases ls
  {
    hide *;
    if ls == [] {
      RunNothing(c, s);
    } else {
      RunLast(c, s, ls);
      var before := Run(c, s, ls[..|ls| - 1]).value;
      RunsInv(c, s, ls[..|ls| - 1], before);
      StepInv(c, before, ls[|ls| - 1], s2);
    }
  }

  lemma {:induction false} RunCat(c: Config, s: State, a: seq<Label>, s1: State, b: seq<Label>)
    requires Run(c, s, a) == Some(s1)
    ensures Run(c, s, a + b) == Run(c, s1, b)
    decreases b
  {
    hide *;
    if b == [] {
      assert a + b == a;
      RunNothing(c, s1);
    } else {
      var n := |b| - 1;
      assert (a + b)[..|a + b| - 1] == a + b[..n] && (a + b)[|a + b| - 1] == b[n];
      RunCat(c, s, a, s1, b[..n]);
      RunLast(c, s, a + b);
      RunLast(c, s1, b);
    }
  }

  lemma ReachedBy(c: Config, s0: State, ls: seq<Label>, s: State)
    requires Initial(c, s0) && Run(c, s0, ls) == Some(s)
    ensures Reached(c, s0, ls, s)
  {
    hide Initial, Run;
  }

  lemma CorneredAtRest(c: Config, s: State)
    requires Inv(c, s) && Cornered(c, s)
    ensures AtRest(c, s) && !Settled(s)
  {
    hide Inv, Moves, Silent;
    forall l ensures !Moves(c, s, l) { CorneredRests(c, s, l); }
  }
}
