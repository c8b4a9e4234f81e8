/** The server's and the response consumer's steps keep the invariant. */
module ExchangeSteps {
  import opened Text
  import opened Streams
  import opened Wire
  import opened Store
  import opened Digests
  import opened Watcher
  import opened Responses
  import opened Rebuild
  import opened Handler
  import opened System
  import opened Channels
  import opened PendingActions
  import opened Sync
  import opened Invariant
  import opened ConsumerSteps

  /** An answered request moves from one list to the other and stays where it was in the flight. */
  lemma FlightMoves(ds: seq<Done>, rs: seq<Request>, d: Done)
    requires rs != [] && d.request == rs[0]
    ensures Flight(ds + [d], rs[1..]) == Flight(ds, rs)
    ensures |Flight(ds, rs)| == |ds| + |rs| && Flight(ds, rs)[|ds|] == rs[0]
  {
    assert DoneRequests(ds + [d]) == DoneRequests(ds) + [rs[0]];
    assert rs == [rs[0]] + rs[1..];
  }

  lemma FlightFirst(ds: seq<Done>, rs: seq<Request>)
    ensures |Flight(ds, rs)| == |ds| + |rs|
    ensures ds != [] ==> Flight(ds, rs)[0] == ds[0].request && Flight(ds, rs)[1..] == Flight(ds[1..], rs)
    ensures ds == [] ==> Flight(ds, rs) == rs
    ensures forall k :: 0 <= k < |ds| ==> Flight(ds, rs)[k] == ds[k].request
    ensures forall k :: 0 <= k < |rs| ==> Flight(ds, rs)[|ds| + k] == rs[k]
  {
    if ds != [] {
      assert DoneRequests(ds)[1..] == DoneRequests(ds[1..]);
    }
  }

  /** Quit is answered last, so before that no answer is one to quit. */
  lemma NoQuitYet(ds: seq<Done>, rs: seq<Request>, hand: Hand, phase: Phase)
    requires FlightOk(Flight(ds, rs), rs, hand, phase) && rs != []
    ensures forall k :: 0 <= k < |ds| ==> ds[k].request.head.kind != QUIT
    ensures rs[0].head.kind == QUIT ==> |rs| == 1
    ensures RequestFine(rs[0]) && RequestOk(rs[0]) && HeaderOk(rs[0].head)
  {
    FlightFirst(ds, rs);
    hide Flight, RequestOk, HeaderOk;
    assert RequestFine(Flight(ds, rs)[|ds|]);
    forall k | 0 <= k < |ds| ensures ds[k].request.head.kind != QUIT {
      assert Flight(ds, rs)[k] == ds[k].request;
    }
    FineHeader(rs[0]);
  }

  lemma FineHeader(r: Request)
    requires RequestFine(r)
    ensures RequestOk(r) && HeaderOk(r.head)
  {
  }

  // ----- the server -----

  lemma ServeHeadIs(s: State, s2: State)
    requires StepServeHead(s) == Some(s2)
    ensures s.phase.Waiting? && DecHeader(s.sin).Got?
    ensures var h, s1 := DecHeader(s.sin).value, DecHeader(s.sin).next;
            && (h.kind == QUIT ==>
                  s2 == s.(sin := s1, cin := Send(s.cin, Greeting(h)), phase := Closed,
                           done := DoneWith(s.done, s.requests, Answer(QUIT, 0, true, []), |s.log|, false), requests := Unanswered(s.requests)))
            && (h.kind != QUIT ==> s2 == s.(sin := s1, cin := Send(s.cin, Greeting(h)), phase := Running(h, s.day)))
  {
    hide DecHeader, Greeting;
  }

  lemma ServeHeadEnabled(s: State)
    requires StepServeHead(s).Some?
    ensures s.phase.Waiting? && DecHeader(s.sin).Got?
  {
    hide DecHeader, Greeting;
  }

  lemma InvServeHead(c: Config, s: State, s2: State)
    requires Inv(c, s) && StepServeHead(s) == Some(s2)
    ensures Inv(c, s2)
  {
    hide *;
    Open(c, s);
    ServeHeadEnabled(s);
    UpServeHead(s.sin, s.requests, s.hand.Body? || s.awaiting);
    ServeHeadIs(s, s2);
    NoQuitYet(s.done, s.requests, s.hand, s.phase);
    var r := s.requests[0];
    if r.head.kind == QUIT {
      InvServeQuit(c, s, s2);
    } else {
      DownGreet(s.cin, s.done, s.eaten, s.reader.Fetching?, r.head, s.day);
      FlightPhase(Flight(s.done, s.requests), s.requests, s.hand, s.phase, s2.phase);
      ReaderPhase(s.reader, Flight(s.done, s.requests), s.phase, s2.phase, s.hand);
      HistoryPhase(c.dg, s.log, s.table, s.phase, s2.phase, s.day);
      NotFresh(c, s);
      CloseServed(c, s, s2);
    }
  }

  /** The clock of the log is the server's day, whether or not it has just been taken down. */
  lemma HistoryPhase(dg: Digest, log: seq<Entry>, table: Table, phase: Phase, phase2: Phase, day: string)
    requires HistoryOk(dg, log, table, phase, day)
    requires (phase2.Running? ==> phase2.day == day) && (phase.Running? ==> !phase2.Running?)
    ensures HistoryOk(dg, log, table, phase2, day)
  {
    hide Le, LogOk, HashesOk, TableOf;
    LeRefl(day);
    forall i | 0 <= i < |log| ensures Le(log[i].day, Clock(phase2, day)) { LeTrans(log[i].day, Clock(phase, day), day); }
  }

  lemma FlightPhase(flight: seq<Request>, rs: seq<Request>, hand: Hand, phase: Phase, phase2: Phase)
    requires FlightOk(flight, rs, hand, phase) && !phase.Closed? && !phase2.Closed?
    ensures FlightOk(flight, rs, hand, phase2)
  {
    hide RequestFine;
  }

  lemma ReaderPhase(reader: Reader, flight: seq<Request>, phase: Phase, phase2: Phase, hand: Hand)
    requires ReaderOk(reader, flight, phase, hand) && !phase.Closed?
    ensures ReaderOk(reader, flight, phase2, hand)
  {
  }

  /** The requests part of the state after the server has answered the first one. */
  lemma AnsweredParts(s: State, d: Done, phase2: Phase)
    requires s.requests != [] && d.request == s.requests[0]
    requires FlightOk(Flight(s.done, s.requests), s.requests, s.hand, s.phase) && !s.phase.Closed?
    requires phase2.Closed? <==> d.request.head.kind == QUIT
    requires AwaitOk(s.awaiting, Flight(s.done, s.requests), s.requests, s.eaten, s.hand)
    requires s.awaiting ==> |s.requests| > 1
    requires BodyOk(s.seen, s.hand, s.requests) && (s.hand.Body? ==> |s.requests| > 1)
    requires ReaderOk(s.reader, Flight(s.done, s.requests), s.phase, s.hand)
    ensures FlightOk(Flight(s.done + [d], s.requests[1..]), s.requests[1..], s.hand, phase2)
    ensures AwaitOk(s.awaiting, Flight(s.done + [d], s.requests[1..]), s.requests[1..], s.eaten, s.hand)
    ensures BodyOk(s.seen, s.hand, s.requests[1..])
    ensures ReaderOk(s.reader, Flight(s.done + [d], s.requests[1..]), phase2, s.hand)
  {
    hide *;
    var flight := Flight(s.done, s.requests);
    FlightMoves(s.done, s.requests, d);
    NotQuitHead(s.requests[0]);
    QuitClears(flight, s.requests, |s.done|, s.hand, s.phase);
    FlightAnswered(flight, s.requests, s.hand, s.phase, phase2);
    AwaitAnswered(s.awaiting, flight, s.requests, s.eaten, s.hand);
    BodyAnswered(s.seen, s.hand, s.requests);
    ReaderPhase(s.reader, flight, s.phase, phase2, s.hand);
  }

  lemma QuitClears(flight: seq<Request>, rs: seq<Request>, k: nat, hand: Hand, phase: Phase)
    requires FlightOk(flight, rs, hand, phase) && rs != [] && k + |rs| == |flight| && flight[k] == rs[0]
    ensures IsQuit(rs[0]) ==> rs[1..] == [] && hand.Quitted?
  {
    hide RequestFine;
  }

  lemma FlightAnswered(flight: seq<Request>, rs: seq<Request>, hand: Hand, phase: Phase, phase2: Phase)
    requires FlightOk(flight, rs, hand, phase) && rs != [] && (IsQuit(rs[0]) ==> rs[1..] == [] && hand.Quitted?)
    requires phase2.Closed? <==> IsQuit(rs[0])
    ensures FlightOk(flight, rs[1..], hand, phase2)
  {
    hide RequestFine;
    assert |rs| > 1 ==> rs[1..][|rs| - 2] == rs[|rs| - 1];
  }

  lemma AwaitAnswered(awaiting: bool, flight: seq<Request>, rs: seq<Request>, eaten: Eaten, hand: Hand)
    requires AwaitOk(awaiting, flight, rs, eaten, hand) && rs != [] && (awaiting ==> |rs| > 1)
    ensures AwaitOk(awaiting, flight, rs[1..], eaten, hand)
  {
    if awaiting { assert rs[1..][|rs| - 2] == rs[|rs| - 1]; }
  }

  lemma BodyAnswered(seen: Tree, hand: Hand, rs: seq<Request>)
    requires BodyOk(seen, hand, rs) && rs != [] && (hand.Body? ==> |rs| > 1)
    ensures BodyOk(seen, hand, rs[1..])
  {
    if hand.Body? { assert rs[1..][|rs| - 2] == rs[|rs| - 1]; }
  }

  lemma DonesSnoc(ds: seq<Done>, d: Done)
    requires DonesOk(ds) && DoneOk(d) && forall i :: 0 <= i < |ds| ==> ds[i].request.head.kind != QUIT
    ensures DonesOk(ds + [d])
  {
    hide DoneOk;
  }

  lemma InvServeQuit(c: Config, s: State, s2: State)
    requires Inv(c, s) && StepServeHead(s) == Some(s2) && s.requests != [] && s.requests[0].head.kind == QUIT
    ensures Inv(c, s2)
  {
    hide *;
    Open(c, s);
    ServeHeadEnabled(s);
    NoQuitYet(s.done, s.requests, s.hand, s.phase);
    var open := s.hand.Body? || s.awaiting;
    UpServeHead(s.sin, s.requests, open);
    ServeHeadIs(s, s2);
    var d := Done(s.requests[0], Answer(QUIT, 0, true, []), |s.log|, false);
    MovedOn(s.done, s.requests, d.answer, |s.log|, false);
    assert s.requests[1..] == [] && s.requests == [] + [s.requests[0]];
    QuitDone(d);
    DownQuit(s.cin, s.done, s.eaten, s.reader.Fetching?, d);
    DonesSnoc(s.done, d);
    FlightMoves(s.done, s.requests, d);
    AnsweredParts(s, d, Closed);
    LostKept(s.lost, s.pending, s.pending, s.done, s2.done);
    HistoryPhase(c.dg, s.log, s.table, s.phase, Closed, s.day);
    RestoresQuit(c.dg, s.log, s.done, d, s.restored);
    QuitHand(s.done, s.requests, s.hand, s.phase);
    NoHandOps(c, s.seen, s.hand);
    QuitWritten(c, ServerView(c, s.table), s.seen, [], s.requests[0], s.hand, s.hand, s.ring, s.todo);
    ConvergingSame(c, s.table, Goal(c, s.started, s.seen, s.initial),
                   Outstanding(c, s.seen, s.requests, s.hand, s.ring, s.todo),
                   Outstanding(c, s.seen, [], s.hand, s.ring, s.todo), s.lost);
    NotFresh(c, s);
    CloseServed(c, s, s2);
  }

  lemma MovedOn(ds: seq<Done>, rs: seq<Request>, a: Answer, at: nat, entered: bool)
    requires rs != []
    ensures DoneWith(ds, rs, a, at, entered) == ds + [Done(rs[0], a, at, entered)] && Unanswered(rs) == rs[1..]
  {
  }

  lemma QuitDone(d: Done)
    requires RequestOk(d.request) && d.request.head.kind == QUIT && d.answer == Answer(QUIT, 0, true, [])
    ensures DoneOk(d)
  {
    hide RequestOk, FilesOk;
  }

  lemma RestoresQuit(dg: Digest, log: seq<Entry>, ds: seq<Done>, d: Done, restored: seq<Restored>)
    requires RestoresOk(dg, log, ds, restored) && d.request.head.kind == QUIT && !d.entered
    ensures RestoresOk(dg, log, ds + [d], restored)
  {
    hide Depicts, Build, Replay, Cut, EntryFor;
    assert forall k :: 0 <= k < |ds| ==> (ds + [d])[k] == ds[k];
  }

  lemma QuitHand(ds: seq<Done>, rs: seq<Request>, hand: Hand, phase: Phase)
    requires FlightOk(Flight(ds, rs), rs, hand, phase) && rs != [] && rs[0].head.kind == QUIT
    ensures hand.Quitted?
  {
    FlightFirst(ds, rs);
    hide Flight, RequestFine;
    assert IsQuit(Flight(ds, rs)[|ds|]);
  }

  lemma ServeTailIs(c: Config, s: State, s2: State, engine: bool) returns (t2: Table, a: Answer, more: seq<Entry>)
    requires StepServeTail(c, s, engine) == Some(s2)
    ensures s.phase.Running? && DecTail(s.sin, s.phase.head.kind).Got?
    ensures var h, tail := s.phase.head, DecTail(s.sin, s.phase.head.kind).value;
            && (t2, a) == Execute(c.dg, s.table, s.phase.day, engine, h, tail)
            && (h.kind == RESTORE ==> |AsOf(s.table, tail)| <= INT_MAX)
            && more == (if IsChange(h.kind) && engine then [EntryFor(c.dg, s.phase.day, h, tail)] else [])
            && s2 == s.(sin := DecTail(s.sin, h.kind).next, cin := Send(s.cin, Reply(a)), phase := Waiting, table := t2,
                        log := s.log + more, lost := s.lost || (IsChange(h.kind) && !engine),
                        done := DoneWith(s.done, s.requests, a, |s.log|, IsChange(h.kind) && engine), requests := Unanswered(s.requests))
  {
    hide DecTail, Reply, Execute, EntryFor, AsOf;
    var h, tail := s.phase.head, DecTail(s.sin, s.phase.head.kind).value;
    var r := Execute(c.dg, s.table, s.phase.day, engine, h, tail);
    t2, a := r.0, r.1;
    more := if IsChange(h.kind) && engine then [EntryFor(c.dg, s.phase.day, h, tail)] else [];
    assert s.log + [] == s.log;
  }

  /** A log that grows keeps the views of its earlier stages. */
  lemma RestoresGrow(dg: Digest, log: seq<Entry>, more: seq<Entry>, ds: seq<Done>, d: Done, restored: seq<Restored>)
    requires RestoresOk(dg, log, ds, restored) && d.at <= |log|
    requires d.request.head.kind == RESTORE ==> Depicts(d.answer.files, Replay(Cut(log[..d.at], d.request.tail)))
    requires d.entered ==> d.at == |log| && |more| == 1 && more[0] == EntryFor(dg, more[0].day, d.request.head, d.request.tail)
    ensures RestoresOk(dg, log + more, ds + [d], restored)
  {
    hide Depicts, Replay, Cut, Build, EntryFor;
    var l2 := log + more;
    forall n: nat | n <= |log| ensures l2[..n] == log[..n] {}
  }

  /** The server's step on the history: an accepted change is entered under the day taken with its header. */
  lemma HistoryServed(c: Config, log: seq<Entry>, table: Table, phase: Phase, day: string, r: Request, engine: bool,
                      more: seq<Entry>, t2: Table)
    requires HistoryOk(c.dg, log, table, phase, day) && phase.Running? && Sha256Like(c.dg) && RequestFine(r)
    requires more == if IsChange(r.head.kind) && engine then [EntryFor(c.dg, phase.day, r.head, r.tail)] else []
    requires t2 == if IsChange(r.head.kind) && engine then Upsert(table, EntryFor(c.dg, phase.day, r.head, r.tail)) else table
    ensures HistoryOk(c.dg, log + more, t2, Waiting, day)
  {
    assert Request(r.head, r.tail) == r;
    hide *;
    if IsChange(r.head.kind) && engine {
      HistoryGrows(c, log, table, phase, day, r.head, r.tail);
      HistoryPhase(c.dg, log + more, t2, phase, Waiting, day);
    } else {
      assert log + more == log;
      HistoryPhase(c.dg, log, table, phase, Waiting, day);
    }
  }

  lemma HistoryGrows(c: Config, log: seq<Entry>, table: Table, phase: Phase, day: string, h: Header, tail: string)
    requires HistoryOk(c.dg, log, table, phase, day) && phase.Running? && Sha256Like(c.dg)
    requires RequestFine(Request(h, tail)) && IsChange(h.kind)
    ensures var e := EntryFor(c.dg, phase.day, h, tail); HistoryOk(c.dg, log + [e], Upsert(table, e), phase, day)
  {
    hide Le, TableOf, NameOk, RowOk, HeaderOk, RequestOk, FileHash, Upsert;
    var e := EntryFor(c.dg, phase.day, h, tail);
    FineTail(Request(h, tail));
    ClientRowOk(c.dg, phase.day, h, tail);
    TableSnoc(log, e);
    LeRefl(phase.day);
  }

  lemma FineTail(r: Request)
    requires RequestFine(r)
    ensures IsChange(r.head.kind) ==> ClientHeader(r.head) && |r.tail| <= MAX_FILE_SIZE
  {
  }

  /** What a finished restore carries. */
  lemma RestoreAnswer(log: seq<Entry>, table: Table, phase: Phase, day: string, dg: Digest, engine: bool, r: Request)
    requires HistoryOk(dg, log, table, phase, day) && phase.Running? && r.head.kind == RESTORE && |AsOf(table, r.tail)| <= INT_MAX
    ensures var a := Execute(dg, table, phase.day, engine, r.head, r.tail).1;
            a.ok && a.kind == RESTORE && a.index == r.head.index && FilesOk(a.files) &&
            Depicts(a.files, Replay(Cut(log[..|log|], r.tail)))
    ensures Execute(dg, table, phase.day, engine, r.head, r.tail).0 == table
  {
    hide Le, AsOf, RestoreList, Depicts, FileOk, TableOf, Replay, Cut, LogOk, HashesOk;
    TableFine(dg, log, table, phase, day);
    RestoreListDepicts(table, r.tail);
    SortedLogRefines(log, r.tail);
    assert log[..|log|] == log;
  }

  lemma ConvergingServed(c: Config, s: State, engine: bool, t2: Table, goal: map<string, string>)
    requires s.requests != [] && HistoryOk(c.dg, s.log, s.table, s.phase, s.day) && s.phase.Running?
    requires t2 == if IsChange(s.requests[0].head.kind) && engine
                   then Upsert(s.table, EntryFor(c.dg, s.phase.day, s.requests[0].head, s.requests[0].tail)) else s.table
    requires Converging(c, s.table, goal, Outstanding(c, s.seen, s.requests, s.hand, s.ring, s.todo), s.lost)
    ensures Converging(c, t2, goal, Outstanding(c, s.seen, s.requests[1..], s.hand, s.ring, s.todo),
                       s.lost || (IsChange(s.requests[0].head.kind) && !engine))
  {
    hide Outstanding, ApplyAll, ServerView, Le, EntryFor, Upsert, TreeView, HistoryOk;
    var r := s.requests[0];
    TableFine(c.dg, s.log, s.table, s.phase, s.day);
    FirstRequest(c, ServerView(c, s.table), s.seen, s.requests, s.hand, s.ring, s.todo);
    if IsChange(r.head.kind) && engine {
      AcceptedChange(c, s.table, s.phase.day, r);
    } else if !IsChange(r.head.kind) {
      assert RequestOp(c, r) == Nop;
    }
  }

  lemma InvServeTail(c: Config, s: State, s2: State, engine: bool)
    requires Inv(c, s) && StepServeTail(c, s, engine) == Some(s2)
    ensures Inv(c, s2)
  {
    hide *;
    var d, more := ServedOne(c, s, s2, engine);
    ServedLinks(c, s, s2, d);
    ServedStore(c, s, s2, d, more, engine);
    NotFresh(c, s);
    CloseServed(c, s, s2);
  }

  /** What serving the first request does to the state. */
  lemma ServedOne(c: Config, s: State, s2: State, engine: bool) returns (d: Done, more: seq<Entry>)
    requires Inv(c, s) && StepServeTail(c, s, engine) == Some(s2)
    ensures s.phase.Running? && s.requests != [] && s.phase.head == s.requests[0].head && DecTail(s.sin, s.phase.head.kind).Got?
    ensures d == Done(s.requests[0], d.answer, |s.log|, IsChange(s.requests[0].head.kind) && engine) && RequestFine(d.request) && d.request.head.kind != QUIT
    ensures IsChange(d.request.head.kind) && engine ==> more == [EntryFor(c.dg, s.phase.day, d.request.head, d.request.tail)]
    ensures !(IsChange(d.request.head.kind) && engine) ==> more == []
    ensures IsChange(d.request.head.kind) && engine ==>
              s2.table == Upsert(s.table, EntryFor(c.dg, s.phase.day, d.request.head, d.request.tail))
    ensures !(IsChange(d.request.head.kind) && engine) ==> s2.table == s.table
    ensures DoneOk(d) && (!d.answer.ok <==> IsChange(d.request.head.kind) && !engine)
    ensures d.request.head.kind == RESTORE ==> Depicts(d.answer.files, Replay(Cut(s.log[..|s.log|], d.request.tail)))
    ensures s2 == s.(sin := DecTail(s.sin, s.phase.head.kind).next, cin := Send(s.cin, Reply(d.answer)), phase := Waiting,
                     table := s2.table, log := s.log + more, lost := s.lost || (IsChange(d.request.head.kind) && !engine),
                     done := s.done + [d], requests := s.requests[1..])
  {
    hide *;
    Open(c, s);
    ServeTailEnabled(c, s, engine);
    RunningFirst(s.sin, s.phase, s.requests, s.hand.Body? || s.awaiting);
    UpServeTail(s.sin, s.phase.head, s.phase.day, s.requests, s.hand.Body? || s.awaiting);
    NoQuitYet(s.done, s.requests, s.hand, s.phase);
    var t2, a;
    t2, a, more := ServeTailIs(c, s, s2, engine);
    d := Done(s.requests[0], a, |s.log|, IsChange(s.requests[0].head.kind) && engine);
    MovedOn(s.done, s.requests, a, |s.log|, d.entered);
    AnswerIsOk(c, s, engine);
  }

  lemma ServedLinks(c: Config, s: State, s2: State, d: Done)
    requires Inv(c, s) && s.phase.Running? && s.requests != [] && DecTail(s.sin, s.phase.head.kind).Got?
    requires d.request == s.requests[0] && d.request.head.kind != QUIT && DoneOk(d) && s.phase.head == d.request.head
    requires s2 == s.(sin := DecTail(s.sin, s.phase.head.kind).next, cin := Send(s.cin, Reply(d.answer)), phase := Waiting,
                      table := s2.table, log := s2.log, lost := s2.lost, done := s.done + [d], requests := s.requests[1..])
    ensures UpOk(s2.sin, s2.phase, s2.requests, s2.hand.Body? || s2.awaiting)
    ensures DownOk(s2.cin, s2.phase, s2.done, s2.eaten, s2.reader.Fetching?) && DonesOk(s2.done)
    ensures Flight(s2.done, s2.requests) == Flight(s.done, s.requests) && BodyOk(s2.seen, s2.hand, s2.requests)
    ensures FlightOk(Flight(s2.done, s2.requests), s2.requests, s2.hand, s2.phase)
    ensures AwaitOk(s2.awaiting, Flight(s2.done, s2.requests), s2.requests, s2.eaten, s2.hand)
    ensures ReaderOk(s2.reader, Flight(s2.done, s2.requests), s2.phase, s2.hand)
  {
    hide *;
    Open(c, s);
    NotFresh(c, s);
    UpServeTail(s.sin, s.phase.head, s.phase.day, s.requests, s.hand.Body? || s.awaiting);
    NoQuitYet(s.done, s.requests, s.hand, s.phase);
    DownReply(s.cin, s.done, s.eaten, s.reader.Fetching?, d, s.phase.day);
    DonesSnoc(s.done, d);
    FlightMoves(s.done, s.requests, d);
    LastStays(s);
    AnsweredParts(s, d, Waiting);
  }

  lemma ServedStore(c: Config, s: State, s2: State, d: Done, more: seq<Entry>, engine: bool)
    requires Inv(c, s) && s.phase.Running? && s.requests != [] && d == Done(s.requests[0], d.answer, |s.log|, IsChange(s.requests[0].head.kind) && engine)
    requires RequestFine(d.request) && (!d.answer.ok <==> IsChange(d.request.head.kind) && !engine)
    requires d.request.head.kind == RESTORE ==> Depicts(d.answer.files, Replay(Cut(s.log[..|s.log|], d.request.tail)))
    requires IsChange(d.request.head.kind) && engine ==> more == [EntryFor(c.dg, s.phase.day, d.request.head, d.request.tail)]
    requires !(IsChange(d.request.head.kind) && engine) ==> more == []
    requires IsChange(d.request.head.kind) && engine ==>
               s2.table == Upsert(s.table, EntryFor(c.dg, s.phase.day, d.request.head, d.request.tail))
    requires !(IsChange(d.request.head.kind) && engine) ==> s2.table == s.table
    requires s2 == s.(sin := s2.sin, cin := s2.cin, phase := Waiting, table := s2.table, log := s.log + more,
                      lost := s.lost || (IsChange(d.request.head.kind) && !engine), done := s.done + [d], requests := s.requests[1..])
    ensures HistoryOk(c.dg, s2.log, s2.table, s2.phase, s2.day) && RestoresOk(c.dg, s2.log, s2.done, s2.restored)
    ensures LostOk(s2.lost, s2.pending, s2.done)
    ensures Converging(c, s2.table, Goal(c, s2.started, s2.seen, s2.initial),
                       Outstanding(c, s2.seen, s2.requests, s2.hand, s2.ring, s2.todo), s2.lost)
  {
    hide *;
    Open(c, s);
    NotFresh(c, s);
    Sha(c);
    ConvergingServed(c, s, engine, s2.table, Goal(c, s.started, s.seen, s.initial));
    EntryDay(c.dg, s.phase.day, d.request);
    RestoresGrow(c.dg, s.log, more, s.done, d, s.restored);
    HistoryServed(c, s.log, s.table, s.phase, s.day, d.request, engine, more, s2.table);
    LostServed(s.lost, s.pending, s.done, d, s2.lost);
  }

  lemma EntryDay(dg: Digest, day: string, r: Request)
    ensures EntryFor(dg, day, r.head, r.tail).day == day
  {
  }

  lemma Sha(c: Config)
    requires ConfigOk(c)
    ensures Sha256Like(c.dg)
  {
  }

  /** A tail that is still to come belongs to a later request than one whose tail has been read. */
  lemma LastStays(s: State)
    requires UpOk(s.sin, s.phase, s.requests, s.hand.Body? || s.awaiting) && s.phase.Running?
    requires DecTail(s.sin, s.phase.head.kind).Got?
    ensures s.awaiting || s.hand.Body? ==> |s.requests| > 1
  {
    hide *;
    UpServeTail(s.sin, s.phase.head, s.phase.day, s.requests, s.hand.Body? || s.awaiting);
    RunningFirst(s.sin, s.phase, s.requests, s.hand.Body? || s.awaiting);
  }

  /** The parts of the invariant that a served request changes suffice for the whole. */
  lemma CloseServed(c: Config, s: State, s2: State)
    requires Inv(c, s) && !s.reader.Handshake?
    requires s2 == s.(sin := s2.sin, cin := s2.cin, phase := s2.phase, table := s2.table, log := s2.log, lost := s2.lost,
                      done := s2.done, requests := s2.requests)
    requires Flight(s2.done, s2.requests) == Flight(s.done, s.requests)
    requires UpOk(s2.sin, s2.phase, s2.requests, s2.hand.Body? || s2.awaiting)
    requires DownOk(s2.cin, s2.phase, s2.done, s2.eaten, s2.reader.Fetching?) && DonesOk(s2.done)
    requires HistoryOk(c.dg, s2.log, s2.table, s2.phase, s2.day) && BodyOk(s2.seen, s2.hand, s2.requests)
    requires FlightOk(Flight(s2.done, s2.requests), s2.requests, s2.hand, s2.phase)
    requires AwaitOk(s2.awaiting, Flight(s2.done, s2.requests), s2.requests, s2.eaten, s2.hand)
    requires ReaderOk(s2.reader, Flight(s2.done, s2.requests), s2.phase, s2.hand)
    requires LostOk(s2.lost, s2.pending, s2.done) && RestoresOk(c.dg, s2.log, s2.done, s2.restored)
    requires Converging(c, s2.table, Goal(c, s2.started, s2.seen, s2.initial),
                        Outstanding(c, s2.seen, s2.requests, s2.hand, s2.ring, s2.todo), s2.lost)
    ensures Inv(c, s2)
  {
    hide *;
    Open(c, s);
    NoHandshake(s2);
    Close(c, s2);
  }

  lemma NotFresh(c: Config, s: State)
    requires Inv(c, s) && s.requests != []
    ensures !s.reader.Handshake?
  {
    hide *;
    Open(c, s);
  }

  lemma ServeTailEnabled(c: Config, s: State, engine: bool)
    requires StepServeTail(c, s, engine).Some?
    ensures s.phase.Running?
  {
    hide DecTail, Reply, Execute, EntryFor, AsOf;
  }

  lemma RunningFirst(sin: Stream, phase: Phase, rs: seq<Request>, open: bool)
    requires UpOk(sin, phase, rs, open) && phase.Running?
    ensures rs != [] && phase.head == rs[0].head && phase.head.kind != QUIT
  {
  }

  lemma LostServed(lost: bool, m: PendingMap, ds: seq<Done>, d: Done, lost2: bool)
    requires LostOk(lost, m, ds) && (lost2 <==> lost || !d.answer.ok)
    ensures LostOk(lost2, m, ds + [d])
  {
    var more := ds + [d];
    assert more[|ds|] == d && forall k :: 0 <= k < |ds| ==> more[k] == ds[k];
    if exists k :: 0 <= k < |ds| && !ds[k].answer.ok {
      var k :| 0 <= k < |ds| && !ds[k].answer.ok;
      assert !more[k].answer.ok;
    }
  }

  /** The answer to a well-formed request fits it. */
  lemma AnswerIsOk(c: Config, s: State, engine: bool)
    requires HistoryOk(c.dg, s.log, s.table, s.phase, s.day) && s.phase.Running? && s.requests != [] && RequestFine(s.requests[0])
    requires s.requests[0].head.kind != QUIT
    requires s.requests[0].head.kind == RESTORE ==> |AsOf(s.table, s.requests[0].tail)| <= INT_MAX
    ensures var r := s.requests[0];
            var (t2, a) := Execute(c.dg, s.table, s.phase.day, engine, r.head, r.tail);
            DoneOk(Done(r, a, |s.log|, IsChange(r.head.kind) && engine)) &&
            (r.head.kind == RESTORE ==> Depicts(a.files, Replay(Cut(s.log[..|s.log|], r.tail)))) &&
            (!a.ok <==> IsChange(r.head.kind) && !engine) &&
            t2 == if IsChange(r.head.kind) && engine then Upsert(s.table, EntryFor(c.dg, s.phase.day, r.head, r.tail)) else s.table
  {
    hide HistoryOk, AsOf, Depicts, FilesOk, EntryFor, Upsert, Replay, Cut;
    FineHeader(s.requests[0]);
    if s.requests[0].head.kind == RESTORE {
      RestoreAnswer(s.log, s.table, s.phase, s.day, c.dg, engine, s.requests[0]);
    }
  }

  // ----- the response consumer -----

  lemma ReadRestoreIs(s: State, s2: State, i: int)
    requires StepReadResponse(s) == Some(s2) && DecResponse(s.cin).Got? && DecResponse(s.cin).value == (i, RECEIVED)
    requires i in s.pending && s.pending[i].action.Restoration?
    ensures !s.scanning
    ensures s2 == s.(cin := DecResponse(s.cin).next, reader := Fetching(i), eaten := Greeted, awaiting := false,
                     sin := Send(s.sin, EncDate(s.pending[i].action.date)))
  {
    hide DecResponse, EncDate, Answered;
  }

  lemma ReadOtherIs(s: State, s2: State, i: int, st: int)
    requires StepReadResponse(s) == Some(s2) && DecResponse(s.cin).Got? && DecResponse(s.cin).value == (i, st)
    requires st != RECEIVED || !At(s.pending, i).action.Restoration?
    ensures s2 == s.(cin := DecResponse(s.cin).next, pending := Answered(s.pending, i, st),
                     reader := if st == FINISH then Finished else Listening,
                     eaten := if st == RECEIVED then Greeted else Nothing,
                     done := if st == RECEIVED || s.done == [] then s.done else s.done[1..])
  {
    hide DecResponse, EncDate, Answered;
  }

  /** A greeting: the entry is marked. */
  lemma ReadMarkIs(s: State, s2: State, i: int)
    requires StepReadResponse(s) == Some(s2) && DecResponse(s.cin).Got? && DecResponse(s.cin).value == (i, RECEIVED)
    requires !At(s.pending, i).action.Restoration?
    ensures s2 == s.(cin := DecResponse(s.cin).next, pending := Answered(s.pending, i, RECEIVED), reader := Listening, eaten := Greeted)
  {
    hide DecResponse, EncDate, Answered;
    ReadOtherIs(s, s2, i, RECEIVED);
  }

  /** An end of an answer: the entry is settled and the answer is done with. */
  lemma ReadEndIs(s: State, s2: State, i: int, st: int)
    requires StepReadResponse(s) == Some(s2) && DecResponse(s.cin).Got? && DecResponse(s.cin).value == (i, st)
    requires st != RECEIVED && st != FINISH && s.done != []
    ensures s2 == s.(cin := DecResponse(s.cin).next, pending := Answered(s.pending, i, st), reader := Listening,
                     eaten := Nothing, done := s.done[1..])
  {
    hide DecResponse, EncDate, Answered;
    ReadOtherIs(s, s2, i, st);
  }

  lemma ReadEnabled(s: State)
    requires StepReadResponse(s).Some?
    ensures s.reader.Listening? && DecResponse(s.cin).Got?
  {
    hide DecResponse, EncDate, Answered;
  }

  lemma InvReadResponse(c: Config, s: State, s2: State)
    requires Inv(c, s) && StepReadResponse(s) == Some(s2)
    ensures Inv(c, s2)
  {
    hide *;
    Open(c, s);
    ReadEnabled(s);
    if s.eaten.Nothing? {
      DownReadGreeting(s.cin, s.phase, s.done);
      if s.done != [] && s.done[0].request.head.kind == QUIT {
        InvReadFinish(c, s, s2);
      } else {
        GreetingNext(c, s);
        if Flight(s.done, s.requests)[0].head.kind == RESTORE { InvReadRestore(c, s, s2); } else { InvReadGreeting(c, s, s2); }
      }
    } else {
      InvReadEnd(c, s, s2);
    }
  }

  /** The request the server greets is the oldest in flight. */
  lemma GreetedIsFirst(s: State)
    requires UpOk(s.sin, s.phase, s.requests, s.hand.Body? || s.awaiting)
    requires s.done != [] || s.phase.Running?
    ensures Flight(s.done, s.requests) != []
    ensures Flight(s.done, s.requests)[0].head == if s.done != [] then s.done[0].request.head else s.phase.head
    ensures s.done == [] ==> s.requests != [] && Flight(s.done, s.requests) == s.requests
  {
    FlightFirst(s.done, s.requests);
    hide Flight, WrittenUp, Consumed, AllOk;
  }

  /** The response to come is the greeting of the oldest request in flight, which has an entry marked sent. */
  lemma GreetingNext(c: Config, s: State)
    requires Inv(c, s) && s.eaten.Nothing? && s.reader.Listening? && DecResponse(s.cin).Got?
    requires s.done != [] ==> s.done[0].request.head.kind != QUIT
    ensures Flight(s.done, s.requests) != []
    ensures var r := Flight(s.done, s.requests)[0];
            && !IsQuit(r) && DecResponse(s.cin).value == (r.head.index, RECEIVED)
            && DownOk(DecResponse(s.cin).next, s.phase, s.done, Greeted, r.head.kind == RESTORE)
            && r.head.index in s.pending && s.pending[r.head.index].st == SENT && Fits(s.pending[r.head.index].action, r)
            && (s.pending[r.head.index].action.Restoration? <==> r.head.kind == RESTORE)
            && (r.head.kind == RESTORE ==> s.pending[r.head.index].action.date == r.tail)
            && At(s.pending, r.head.index) == s.pending[r.head.index]
    ensures s.done == [] ==> s.requests != [] && Flight(s.done, s.requests) == s.requests
  {
    hide *;
    Open(c, s);
    DownReadGreeting(s.cin, s.phase, s.done);
    GreetedIsFirst(s);
    DownPhase(s.cin, s.phase, s.done, s.eaten);
    NotQuitHead(Flight(s.done, s.requests)[0]);
    MarkSent(s.eaten, s.reader);
    FirstEntry(s.pending, s.next, Flight(s.done, s.requests), s.hand, SENT);
  }

  lemma NotQuitHead(r: Request)
    ensures IsQuit(r) <==> r.head.kind == QUIT
  {
  }

  lemma MarkSent(eaten: Eaten, reader: Reader)
    ensures eaten.Nothing? || reader.Fetching? ==> Mark(eaten, reader) == SENT
    ensures !eaten.Nothing? && !reader.Fetching? ==> Mark(eaten, reader) == RECEIVED
  {
  }

  lemma InvReadRestore(c: Config, s: State, s2: State)
    requires Inv(c, s) && StepReadResponse(s) == Some(s2) && s.eaten.Nothing?
    requires DecResponse(s.cin).Got? && s.reader.Listening?
    requires s.done != [] ==> s.done[0].request.head.kind != QUIT
    requires Flight(s.done, s.requests) != [] && Flight(s.done, s.requests)[0].head.kind == RESTORE
    ensures Inv(c, s2)
  {
    hide *;
    Open(c, s);
    GreetingNext(c, s);
    var flight := Flight(s.done, s.requests);
    ReadRestoreIs(s, s2, flight[0].head.index);
    AwaitGreeted(s.awaiting, flight, s.requests, s.hand, s.done);
    FirstUnanswered(s.done, s.requests);
    UpTail(s.sin, s.phase, s.requests);
    DateTail(s.requests[|s.requests| - 1]);
    MarkSent(s.eaten, s.reader);
    MarkSent(s2.eaten, s2.reader);
    ReaderFetching(s.reader, flight, s.phase, s.hand, flight[0].head.index);
    ShutFetching(s);
    NoHandshake(s2);
    Close(c, s2);
  }

  lemma ReaderFetching(reader: Reader, flight: seq<Request>, phase: Phase, hand: Hand, i: int)
    requires ReaderOk(reader, flight, phase, hand) && !reader.Finished?
    requires flight != [] && flight[0].head.kind == RESTORE && flight[0].head.index == i
    ensures ReaderOk(Fetching(i), flight, phase, hand)
  {
  }

  lemma ShutFetching(s: State)
    requires ShutOk(s.todo, s.scanning, s.stopped, s.started, s.asked, s.terminated, s.hand, s.ring, s.reader.Fetching?)
    ensures !s.scanning ==> ShutOk(s.todo, s.scanning, s.stopped, s.started, s.asked, s.terminated, s.hand, s.ring, true)
    ensures ShutOk(s.todo, s.scanning, s.stopped, s.started, s.asked, s.terminated, s.hand, s.ring, false)
  {
  }

  lemma ReaderListening(reader: Reader, flight: seq<Request>, phase: Phase, hand: Hand)
    requires ReaderOk(reader, flight, phase, hand) && !reader.Finished?
    ensures ReaderOk(Listening, flight, phase, hand)
  {
  }

  lemma InvReadGreeting(c: Config, s: State, s2: State)
    requires Inv(c, s) && StepReadResponse(s) == Some(s2) && s.eaten.Nothing?
    requires DecResponse(s.cin).Got? && s.reader.Listening?
    requires s.done != [] ==> s.done[0].request.head.kind != QUIT
    requires Flight(s.done, s.requests) != [] && Flight(s.done, s.requests)[0].head.kind != RESTORE
    ensures Inv(c, s2)
  {
    hide *;
    Open(c, s);
    GreetingNext(c, s);
    var flight := Flight(s.done, s.requests);
    var r := flight[0];
    Statuses();
    ReadMarkIs(s, s2, r.head.index);
    MarkSent(s.eaten, s.reader);
    MarkSent(s2.eaten, s2.reader);
    PendMark(s.pending, s.next, flight, s.hand);
    AwaitKept(s.awaiting, s.done, s.requests, s.hand);
    MarkKeepsErrors(s.pending, r.head.index, RECEIVED);
    LostKept(s.lost, s.pending, s2.pending, s.done, s.done);
    CloseMarked(c, s, s2);
  }

  /** The parts of the invariant that a mark on the oldest entry changes suffice for the whole. */
  lemma CloseMarked(c: Config, s: State, s2: State)
    requires Inv(c, s) && s.reader.Listening? && s2.reader.Listening?
    requires s2 == s.(cin := s2.cin, pending := s2.pending, eaten := s2.eaten)
    requires DownOk(s2.cin, s.phase, s.done, s2.eaten, false)
    requires PendOk(s2.pending, s.next, Flight(s.done, s.requests), s.hand, Mark(s2.eaten, s2.reader))
    requires AwaitOk(s.awaiting, Flight(s.done, s.requests), s.requests, s2.eaten, s.hand)
    requires LostOk(s.lost, s2.pending, s.done)
    ensures Inv(c, s2)
  {
    hide *;
    Open(c, s);
    NoHandshake(s2);
    Close(c, s2);
  }

  lemma Statuses()
    ensures SENT != ERROR && RECEIVED != ERROR && RECEIVED != FINISH && COMPLETED != FINISH && ERROR != FINISH
    ensures COMPLETED != RECEIVED && COMPLETED != ERROR && FINISH != RECEIVED
  {
  }

  lemma DateTail(r: Request)
    requires r.head.kind == RESTORE
    ensures EncTail(r.head.kind, r.tail) == EncDate(r.tail)
  {
  }

  lemma DownPhase(cin: Stream, phase: Phase, ds: seq<Done>, eaten: Eaten)
    requires DownOk(cin, phase, ds, eaten, false)
    ensures phase.Running? ==> phase.head.kind != QUIT
  {
  }

  lemma FirstEntry(m: PendingMap, next: int, flight: seq<Request>, hand: Hand, mark: int)
    requires PendOk(m, next, flight, hand, mark) && flight != [] && !IsQuit(flight[0])
    ensures flight[0].head.index in m && m[flight[0].head.index].st == mark && Fits(m[flight[0].head.index].action, flight[0])
    ensures m[flight[0].head.index].action.Restoration? <==> flight[0].head.kind == RESTORE
    ensures flight[0].head.kind == RESTORE ==> m[flight[0].head.index].action.date == flight[0].tail
    ensures At(m, flight[0].head.index) == m[flight[0].head.index]
  {
  }

  lemma MarkKeepsErrors(m: PendingMap, i: int, st: int)
    requires i in m && m[i].st != ERROR
    ensures forall j :: j in m && m[j].st == ERROR ==> j in Answered(m, i, st) && Answered(m, i, st)[j].st == ERROR
    ensures forall j :: j in Answered(m, i, st) && Answered(m, i, st)[j].st == ERROR ==> (j in m && m[j].st == ERROR) || (j == i && st == ERROR)
  {
  }

  /** A restore the client is told of is the one that waits for its date, and nothing else is under way. */
  lemma AwaitGreeted(awaiting: bool, flight: seq<Request>, rs: seq<Request>, hand: Hand, ds: seq<Done>)
    requires AwaitOk(awaiting, flight, rs, Nothing, hand) && flight == Flight(ds, rs) && flight != []
    requires flight[0].head.kind == RESTORE
    ensures awaiting && |flight| == 1 && |rs| == 1 && ds == [] && !hand.Body?
    ensures AwaitOk(false, flight, rs, Greeted, hand)
  {
    FlightFirst(ds, rs);
    hide Flight;
    assert awaiting && 0 == |flight| - 1;
  }

  lemma FirstUnanswered(ds: seq<Done>, rs: seq<Request>)
    requires ds == []
    ensures Flight(ds, rs) == rs
  {
    FlightFirst(ds, rs);
  }

  lemma AwaitKept(awaiting: bool, ds: seq<Done>, rs: seq<Request>, hand: Hand)
    requires AwaitOk(awaiting, Flight(ds, rs), rs, Nothing, hand)
    requires Flight(ds, rs) != [] && Flight(ds, rs)[0].head.kind != RESTORE
    ensures AwaitOk(awaiting, Flight(ds, rs), rs, Greeted, hand)
  {
    FlightFirst(ds, rs);
    hide Flight;
  }

  lemma InvReadFinish(c: Config, s: State, s2: State)
    requires Inv(c, s) && StepReadResponse(s) == Some(s2) && s.eaten.Nothing? && s.reader.Listening?
    requires s.done != [] && s.done[0].request.head.kind == QUIT
    ensures Inv(c, s2)
  {
    hide *;
    Open(c, s);
    var flight := Flight(s.done, s.requests);
    FlightFirst(s.done, s.requests);
    NotQuitHead(flight[0]);
    LastIsQuit(flight, s.requests, s.hand, s.phase);
    DownReadGreeting(s.cin, s.phase, s.done);
    Statuses();
    ReadOtherIs(s, s2, 0, FINISH);
    FinishKeeps(s.pending, 0);
    MarkSent(s.eaten, s.reader);
    MarkSent(s2.eaten, s2.reader);
    PendGone(s.pending, s.next, flight[0], s.hand, SENT);
    assert s.done[1..] == [] && s.requests == [];
    QuitIsOk(s.done);
    LostFirst(s.lost, s.pending, s.pending, s.done);
    DonesTail(s.done);
    FlightTail(flight, s.requests, s.hand, s.phase);
    AwaitTail(s.awaiting, flight, s.requests, s.eaten, s.hand);
    RestoresTail(c.dg, s.log, s.done, s.restored);
    FinishedIsLast(s2, s.hand);
    NoHandshake(s2);
    Close(c, s2);
  }

  /** Quit is the last request ever, and once it is answered the server is gone. */
  lemma LastIsQuit(flight: seq<Request>, rs: seq<Request>, hand: Hand, phase: Phase)
    requires FlightOk(flight, rs, hand, phase) && flight != [] && IsQuit(flight[0]) && |rs| < |flight|
    ensures flight == [flight[0]] && rs == []
    ensures phase.Closed?
  {
    hide RequestFine;
  }

  lemma FinishKeeps(m: PendingMap, i: int)
    ensures Answered(m, i, FINISH) == m
  {
  }

  lemma FinishedIsLast(s: State, hand: Hand)
    requires s.reader.Finished? && s.phase.Closed? && Flight(s.done, s.requests) == []
    ensures ReaderOk(s.reader, Flight(s.done, s.requests), s.phase, hand)
  {
    hide Flight;
  }

  lemma QuitIsOk(ds: seq<Done>)
    requires DonesOk(ds) && ds != [] && ds[0].request.head.kind == QUIT
    ensures ds[0].answer.ok
  {
    hide RequestOk, FilesOk;
  }

  lemma DonesTail(ds: seq<Done>)
    requires DonesOk(ds) && ds != []
    ensures DonesOk(ds[1..])
  {
    hide DoneOk;
    assert forall i :: 0 <= i < |ds[1..]| ==> ds[1..][i] == ds[i + 1];
  }

  lemma LostFirst(lost: bool, m: PendingMap, m2: PendingMap, ds: seq<Done>)
    requires LostOk(lost, m, ds) && ds != []
    requires forall i :: i in m && m[i].st == ERROR ==> i in m2 && m2[i].st == ERROR
    requires ds[0].answer.ok ==> forall i :: i in m2 && m2[i].st == ERROR ==> i in m && m[i].st == ERROR
    requires ds[0].answer.ok || exists i :: i in m2 && m2[i].st == ERROR
    ensures LostOk(lost, m2, ds[1..])
  {
    assert forall k :: 0 <= k < |ds[1..]| ==> ds[1..][k] == ds[k + 1];
    if lost && !(exists i :: i in m2 && m2[i].st == ERROR) {
      var k :| 0 <= k < |ds| && !ds[k].answer.ok;
      assert ds[1..][k - 1] == ds[k];
    }
  }

  lemma InvReadEnd(c: Config, s: State, s2: State)
    requires Inv(c, s) && StepReadResponse(s) == Some(s2) && !s.eaten.Nothing? && s.reader.Listening?
    requires DecResponse(s.cin).Got?
    ensures Inv(c, s2)
  {
    hide *;
    Open(c, s);
    var flight := Flight(s.done, s.requests);
    FlightFirst(s.done, s.requests);
    DownReadEnd(s.cin, s.phase, s.done, s.eaten);
    var d := s.done[0];
    var st := if d.answer.ok then COMPLETED else ERROR;
    Statuses();
    NotQuitHead(flight[0]);
    AnswerIndex(s.done);
    ReadEndIs(s, s2, d.answer.index, st);
    MarkSent(s.eaten, s.reader);
    MarkSent(s2.eaten, s2.reader);
    PendFinish(s.pending, s.next, flight, s.hand, RECEIVED, st);
    FirstEntry(s.pending, s.next, flight, s.hand, RECEIVED);
    MarkKeepsErrors(s.pending, d.answer.index, st);
    ErrorIsMarked(s.pending, d.answer.index);
    LostFirst(s.lost, s.pending, s2.pending, s.done);
    DonesTail(s.done);
    FlightTail(flight, s.requests, s.hand, s.phase);
    AwaitTail(s.awaiting, flight, s.requests, s.eaten, s.hand);
    RestoresTail(c.dg, s.log, s.done, s.restored);
    ReaderTail(flight, s.phase, s.hand);
    NoHandshake(s2);
    Close(c, s2);
  }

  /** The oldest request ends and is not quit, so quit, if written, is still under way. */
  lemma ReaderTail(flight: seq<Request>, phase: Phase, hand: Hand)
    requires ReaderOk(Listening, flight, phase, hand) && flight != [] && !IsQuit(flight[0])
    ensures ReaderOk(Listening, flight[1..], phase, hand)
  {
    if |flight| > 1 { assert flight[1..][|flight| - 2] == flight[|flight| - 1]; }
  }

  lemma ErrorIsMarked(m: PendingMap, i: int)
    ensures i in Answered(m, i, ERROR) && Answered(m, i, ERROR)[i].st == ERROR
  {
  }

  lemma AnswerIndex(ds: seq<Done>)
    requires DonesOk(ds) && ds != [] && ds[0].request.head.kind != QUIT
    ensures ds[0].answer.index == ds[0].request.head.index
  {
    hide RequestOk, FilesOk;
  }

  lemma FlightTail(flight: seq<Request>, rs: seq<Request>, hand: Hand, phase: Phase)
    requires FlightOk(flight, rs, hand, phase) && flight != []
    ensures FlightOk(flight[1..], rs, hand, phase)
  {
    hide RequestFine;
    assert forall k :: 0 <= k < |flight[1..]| ==> flight[1..][k] == flight[k + 1];
  }

  lemma AwaitTail(awaiting: bool, flight: seq<Request>, rs: seq<Request>, eaten: Eaten, hand: Hand)
    requires AwaitOk(awaiting, flight, rs, eaten, hand) && flight != []
    ensures AwaitOk(awaiting, flight[1..], rs, Nothing, hand)
  {
    assert forall k :: 0 <= k < |flight[1..]| ==> flight[1..][k] == flight[k + 1];
  }

  lemma RestoresTail(dg: Digest, log: seq<Entry>, ds: seq<Done>, restored: seq<Restored>)
    requires RestoresOk(dg, log, ds, restored) && ds != []
    ensures RestoresOk(dg, log, ds[1..], restored)
  {
    hide Depicts, Build, Replay, Cut, EntryFor;
    assert forall k :: 0 <= k < |ds[1..]| ==> ds[1..][k] == ds[k + 1];
  }

  lemma FetchIs(s: State, s2: State)
    requires StepFetch(s) == Some(s2) && s.done != [] && At(s.pending, s.reader.index).action.Restoration?
    ensures s.reader.Fetching? && DecData(s.cin).Got? && Build(DecData(s.cin).value).Some?
    ensures s2 == s.(cin := DecData(s.cin).next, reader := Listening, eaten := Fetched,
                     pending := Answered(s.pending, s.reader.index, RECEIVED),
                     restored := s.restored + [Restored(At(s.pending, s.reader.index).action.date, DecData(s.cin).value,
                                                        Build(DecData(s.cin).value).value, s.done[0].at)])
  {
    hide DecData, Build, Answered;
  }

  lemma FetchEnabled(s: State)
    requires StepFetch(s).Some?
    ensures s.reader.Fetching? && DecData(s.cin).Got?
  {
    hide DecData, Build, Answered;
  }

  lemma InvFetch(c: Config, s: State, s2: State)
    requires Inv(c, s) && StepFetch(s) == Some(s2)
    ensures Inv(c, s2)
  {
    hide *;
    Open(c, s);
    FetchEnabled(s);
    FetchingIsGreeted(s.cin, s.phase, s.done, s.eaten);
    DownFetch(s.cin, s.phase, s.done);
    var flight := Flight(s.done, s.requests);
    FlightFirst(s.done, s.requests);
    FetchingFirst(s.reader, flight, s.phase, s.hand);
    MarkSent(s.eaten, s.reader);
    FirstEntry(s.pending, s.next, flight, s.hand, SENT);
    FetchIs(s, s2);
    MarkSent(s2.eaten, s2.reader);
    Statuses();
    PendMark(s.pending, s.next, flight, s.hand);
    MarkKeepsErrors(s.pending, s.reader.index, RECEIVED);
    LostKept(s.lost, s.pending, s2.pending, s.done, s.done);
    AwaitFetched(s.awaiting, flight, s.requests, s.hand);
    RestoresAdd(c.dg, s.log, s.done, s.restored, s2.restored[|s.restored|]);
    ReaderListening(s.reader, flight, s.phase, s.hand);
    ShutFetching(s);
    NoHandshake(s2);
    Close(c, s2);
  }

  lemma FetchingFirst(reader: Reader, flight: seq<Request>, phase: Phase, hand: Hand)
    requires ReaderOk(reader, flight, phase, hand) && reader.Fetching?
    ensures flight != [] && flight[0].head.kind == RESTORE && flight[0].head.index == reader.index && !IsQuit(flight[0])
  {
  }

  lemma FetchingIsGreeted(cin: Stream, phase: Phase, ds: seq<Done>, eaten: Eaten)
    requires DownOk(cin, phase, ds, eaten, true)
    ensures eaten.Greeted?
  {
  }

  lemma AwaitFetched(awaiting: bool, flight: seq<Request>, rs: seq<Request>, hand: Hand)
    requires AwaitOk(awaiting, flight, rs, Greeted, hand)
    ensures AwaitOk(awaiting, flight, rs, Fetched, hand)
  {
  }

  lemma RestoresAdd(dg: Digest, log: seq<Entry>, ds: seq<Done>, restored: seq<Restored>, x: Restored)
    requires RestoresOk(dg, log, ds, restored) && ds != [] && ds[0].request.head.kind == RESTORE
    requires x.date == ds[0].request.tail && x.files == ds[0].answer.files && x.at == ds[0].at && Build(x.files) == Some(x.built)
    ensures RestoresOk(dg, log, ds, restored + [x])
  {
    hide Depicts, Build, Replay, Cut, EntryFor;
  }
}
