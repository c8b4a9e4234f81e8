/** The action consumer's steps keep the invariant. */
module ConsumerSteps {
  import opened Text
  import opened Wire
  import opened Actions
  import opened Watcher
  import opened Responses
  import opened Handler
  import opened Client
  import opened System
  import opened Channels
  import opened PendingActions
  import opened Sync
  import opened Invariant

  // ----- what a new hand leaves alone -----

  lemma FlightHand(flight: seq<Request>, rs: seq<Request>, hand: Hand, hand2: Hand, phase: Phase)
    requires FlightOk(flight, rs, hand, phase) && !hand.Quitted? && !hand2.Quitted?
    ensures FlightOk(flight, rs, hand2, phase) && !phase.Closed?
  {
    hide RequestFine;
  }

  lemma ReaderHand(reader: Reader, flight: seq<Request>, phase: Phase, hand: Hand, hand2: Hand)
    requires ReaderOk(reader, flight, phase, hand) && !hand2.Quitted?
    ensures ReaderOk(reader, flight, phase, hand2)
  {
  }

  lemma AwaitHand(awaiting: bool, flight: seq<Request>, rs: seq<Request>, eaten: Eaten, hand: Hand, hand2: Hand)
    requires AwaitOk(awaiting, flight, rs, eaten, hand) && !hand2.Body?
    ensures AwaitOk(awaiting, flight, rs, eaten, hand2)
  {
  }

  lemma BodyHand(seen: Tree, hand: Hand, rs: seq<Request>)
    requires !hand.Body?
    ensures BodyOk(seen, hand, rs)
  {
  }

  lemma ShutHand(s: State, s2: State)
    requires ShutOk(s.todo, s.scanning, s.stopped, s.started, s.asked, s.terminated, s.hand, s.ring, s.reader.Fetching?)
    requires s2.ring == s.ring || (s.ring != [] && s2.ring == s.ring[1..])
    requires s2.hand.Quitted? ==> s.terminated && s2.ring == []
    ensures ShutOk(s.todo, s.scanning, s.stopped, s.started, s.asked, s.terminated, s2.hand, s2.ring, s.reader.Fetching?)
  {
  }

  /** The parts that speak of the hand, for steps between idle, holding and added. */
  lemma HandParts(c: Config, s: State, s2: State)
    requires Inv(c, s) && !s.hand.Quitted? && !s.hand.Body? && !s2.hand.Quitted? && !s2.hand.Body?
    requires s2.ring == s.ring || (s.ring != [] && s2.ring == s.ring[1..])
    ensures FlightOk(Flight(s.done, s.requests), s.requests, s2.hand, s.phase)
    ensures ReaderOk(s.reader, Flight(s.done, s.requests), s.phase, s2.hand)
    ensures AwaitOk(s.awaiting, Flight(s.done, s.requests), s.requests, s.eaten, s2.hand)
    ensures BodyOk(s.seen, s2.hand, s.requests)
    ensures ShutOk(s.todo, s.scanning, s.stopped, s.started, s.asked, s.terminated, s2.hand, s2.ring, s.reader.Fetching?)
  {
    hide *;
    Open(c, s);
    FlightHand(Flight(s.done, s.requests), s.requests, s.hand, s2.hand, s.phase);
    ReaderHand(s.reader, Flight(s.done, s.requests), s.phase, s.hand, s2.hand);
    AwaitHand(s.awaiting, Flight(s.done, s.requests), s.requests, s.eaten, s.hand, s2.hand);
    BodyHand(s.seen, s2.hand, s.requests);
    ShutHand(s, s2);
  }

  // ----- taking and dropping actions -----

  lemma InvPop(c: Config, s: State)
    requires Inv(c, s) && s.hand.Idle? && s.ring != []
    ensures Inv(c, s.(hand := Holding(s.ring[0]), ring := s.ring[1..]))
  {
    hide *;
    var s2 := s.(hand := Holding(s.ring[0]), ring := s.ring[1..]);
    Open(c, s);
    HandParts(c, s, s2);
    PendHand(s.pending, s.next, Flight(s.done, s.requests), s.hand, s2.hand, Mark(s.eaten, s.reader));
    Popped(c, s.seen, s.requests, s.hand, s.ring, s.todo);
    OrderPop(s.pushed, s.handled, s.hand, s.ring, c.capacity);
    WorkPop(c, s);
    NoHandshake(s2);
    Close(c, s2);
  }

  lemma OrderPop(pushed: seq<Action>, handled: seq<Action>, hand: Hand, ring: seq<Action>, capacity: nat)
    requires OrderOk(pushed, handled, hand, ring, capacity) && hand.Idle? && ring != []
    ensures OrderOk(pushed, handled, Holding(ring[0]), ring[1..], capacity)
  {
    assert ring == [ring[0]] + ring[1..];
    assert handled + [] + ring == handled + [ring[0]] + ring[1..];
  }

  lemma WorkPop(c: Config, s: State)
    requires TreesOk(c, s.tree, s.seen, s.started, s.index, s.todo, s.ring, s.hand) && s.hand.Idle? && s.ring != []
    requires WorkOk(c, s.seen, s.todo, s.ring, s.hand)
    ensures TreesOk(c, s.tree, s.seen, s.started, s.index, s.todo, s.ring[1..], Holding(s.ring[0]))
    ensures WorkOk(c, s.seen, s.todo, s.ring[1..], Holding(s.ring[0]))
  {
    hide TreeOk, Mtimes, EventOk, ActionOk;
    assert s.ring == [s.ring[0]] + s.ring[1..];
    assert Quiet(s.todo, s.ring, s.hand) <==> Quiet(s.todo, s.ring[1..], Holding(s.ring[0]));
  }

  lemma InvAddPending(c: Config, s: State)
    requires Inv(c, s) && s.hand.Holding? && s.next <= INT_MAX
    ensures Inv(c, s.(hand := Added(s.hand.action, s.next), pending := s.pending[s.next := Pending(s.hand.action, SENT)], next := s.next + 1))
  {
    hide *;
    var s2 := s.(hand := Added(s.hand.action, s.next), pending := s.pending[s.next := Pending(s.hand.action, SENT)], next := s.next + 1);
    Open(c, s);
    HandParts(c, s, s2);
    PendAdd(s.pending, s.next, Flight(s.done, s.requests), s.hand.action, Mark(s.eaten, s.reader));
    PendBelow(s.pending, s.next, Flight(s.done, s.requests), s.hand, Mark(s.eaten, s.reader));
    SentIsNoError(s.pending, s.next, s.hand.action);
    LostKept(s.lost, s.pending, s2.pending, s.done, s.done);
    AddedSame(c, s, s2.hand);
    NoHandshake(s2);
    Close(c, s2);
  }

  lemma SentIsNoError(m: PendingMap, i: int, a: Action)
    requires i !in m
    ensures forall j :: j in m && m[j].st == ERROR <==> j in m[i := Pending(a, SENT)] && m[i := Pending(a, SENT)][j].st == ERROR
  {
  }

  lemma AddedSame(c: Config, s: State, hand2: Hand)
    requires s.hand.Holding? && hand2.Added? && hand2.action == s.hand.action
    requires TreesOk(c, s.tree, s.seen, s.started, s.index, s.todo, s.ring, s.hand) && WorkOk(c, s.seen, s.todo, s.ring, s.hand)
    requires OrderOk(s.pushed, s.handled, s.hand, s.ring, c.capacity)
    ensures TreesOk(c, s.tree, s.seen, s.started, s.index, s.todo, s.ring, hand2) && WorkOk(c, s.seen, s.todo, s.ring, hand2)
    ensures OrderOk(s.pushed, s.handled, hand2, s.ring, c.capacity)
    ensures Outstanding(c, s.seen, s.requests, hand2, s.ring, s.todo) == Outstanding(c, s.seen, s.requests, s.hand, s.ring, s.todo)
  {
    hide TreeOk, Mtimes, EventOk, ActionOk, RequestOps, RingOps, EventOps, ActionOp;
    assert Quiet(s.todo, s.ring, s.hand) <==> Quiet(s.todo, s.ring, hand2);
  }

  lemma PendBelow(m: PendingMap, next: int, flight: seq<Request>, hand: Hand, mark: int)
    requires PendOk(m, next, flight, hand, mark)
    ensures forall i :: i in m ==> 0 <= i < next
    ensures hand.Added? ==> hand.index in m && m[hand.index] == Pending(hand.action, SENT) && 0 <= hand.index <= INT_MAX
  {
  }

  /** Evidence of a loss stays where it is, and none comes. */
  lemma LostKept(lost: bool, m: PendingMap, m2: PendingMap, ds: seq<Done>, ds2: seq<Done>)
    requires LostOk(lost, m, ds)
    requires forall i :: i in m && m[i].st == ERROR <==> i in m2 && m2[i].st == ERROR
    requires |ds| <= |ds2| && (forall k :: 0 <= k < |ds| ==> ds2[k] == ds[k]) && forall k :: |ds| <= k < |ds2| ==> ds2[k].answer.ok
    ensures LostOk(lost, m2, ds2)
  {
    if lost {
      if i :| i in m && m[i].st == ERROR {
        assert m2[i].st == ERROR;
      } else {
        var k :| 0 <= k < |ds| && !ds[k].answer.ok;
        assert !ds2[k].answer.ok;
      }
    }
    assert forall k :: 0 <= k < |ds2| && !ds2[k].answer.ok ==> k < |ds| && !ds[k].answer.ok;
  }

  /** What dropping the action in hand leaves of the client's parts. */
  lemma Dropped(c: Config, s: State)
    requires s.hand.Added?
    requires TreesOk(c, s.tree, s.seen, s.started, s.index, s.todo, s.ring, s.hand) && WorkOk(c, s.seen, s.todo, s.ring, s.hand)
    requires OrderOk(s.pushed, s.handled, s.hand, s.ring, c.capacity)
    ensures TreesOk(c, s.tree, s.seen, s.started, s.index, s.todo, s.ring, Idle) && WorkOk(c, s.seen, s.todo, s.ring, Idle)
    ensures OrderOk(s.pushed, s.handled + [s.hand.action], Idle, s.ring, c.capacity)
  {
    hide TreeOk, Mtimes, EventOk, ActionOk;
    assert s.handled + [s.hand.action] + s.ring == (s.handled + [s.hand.action]) + [] + s.ring;
    assert Quiet(s.todo, s.ring, s.hand) ==> Quiet(s.todo, s.ring, Idle);
  }

  lemma InvDropIgnored(c: Config, s: State)
    requires Inv(c, s) && s.hand.Added? && s.hand.action.Change? && s.hand.action.kind == IGNORE
    ensures Inv(c, s.(hand := Idle, pending := Answered(s.pending, s.hand.index, COMPLETED), handled := s.handled + [s.hand.action]))
  {
    hide *;
    var s2 := s.(hand := Idle, pending := Answered(s.pending, s.hand.index, COMPLETED), handled := s.handled + [s.hand.action]);
    var a := s.hand.action;
    Open(c, s);
    HandParts(c, s, s2);
    PendDrop(s.pending, s.next, Flight(s.done, s.requests), a, s.hand.index, Mark(s.eaten, s.reader));
    PendBelow(s.pending, s.next, Flight(s.done, s.requests), s.hand, Mark(s.eaten, s.reader));
    DropKeepsErrors(s.pending, s.hand.index, a);
    LostKept(s.lost, s.pending, s2.pending, s.done, s.done);
    Dropped(c, s);
    IgnoredIsNop(c, s.seen, a);
    NopDropped(c, ServerView(c, s.table), s.seen, s.requests, a, s.hand.index, s.ring, s.todo);
    ConvergingSame(c, s.table, Goal(c, s.started, s.seen, s.initial),
                   Outstanding(c, s.seen, s.requests, s.hand, s.ring, s.todo),
                   Outstanding(c, s.seen, s.requests, Idle, s.ring, s.todo), s.lost);
    NoHandshake(s2);
    Close(c, s2);
  }

  lemma IgnoredIsNop(c: Config, t: Tree, a: Action)
    requires a.Change? && a.kind == IGNORE
    ensures ActionOp(c.dg, t, a) == Nop
  {
  }

  lemma DropKeepsErrors(m: PendingMap, i: int, a: Action)
    requires i in m && m[i] == Pending(a, SENT)
    ensures forall j :: j in m && m[j].st == ERROR <==> j in Answered(m, i, COMPLETED) && Answered(m, i, COMPLETED)[j].st == ERROR
    ensures i in Answered(m, i, ERROR) && Answered(m, i, ERROR)[i].st == ERROR
  {
  }

  lemma InvRejectOversized(c: Config, s: State)
    requires Inv(c, s) && s.hand.Added?
    ensures Inv(c, s.(hand := Idle, pending := Answered(s.pending, s.hand.index, ERROR), lost := true, handled := s.handled + [s.hand.action]))
  {
    hide *;
    var s2 := s.(hand := Idle, pending := Answered(s.pending, s.hand.index, ERROR), lost := true, handled := s.handled + [s.hand.action]);
    Open(c, s);
    HandParts(c, s, s2);
    PendDrop(s.pending, s.next, Flight(s.done, s.requests), s.hand.action, s.hand.index, Mark(s.eaten, s.reader));
    PendBelow(s.pending, s.next, Flight(s.done, s.requests), s.hand, Mark(s.eaten, s.reader));
    DropKeepsErrors(s.pending, s.hand.index, s.hand.action);
    Dropped(c, s);
    LostNow(c, s2, s.hand.index);
    NoHandshake(s2);
    Close(c, s2);
  }

  lemma LostNow(c: Config, s: State, i: int)
    requires s.lost && i in s.pending && s.pending[i].st == ERROR
    ensures LostOk(s.lost, s.pending, s.done)
    ensures Converging(c, s.table, Goal(c, s.started, s.seen, s.initial), Outstanding(c, s.seen, s.requests, s.hand, s.ring, s.todo), s.lost)
  {
    hide Goal, Outstanding, ServerView, ApplyAll;
  }

  // ----- writing -----

  /** Whatever send_action writes for a watcher's or user's action is a well-formed request. */
  lemma WrittenIsFine(c: Config, t: Tree, a: Action, i: int, mt: int, pm: int)
    requires ActionOk(c, t, a) && 0 <= i <= INT_MAX && 0 <= mt <= INT_MAX && 0 <= pm <= INT_MAX
    requires RequestFor(c.main, t, a, i, mt, pm).Some?
    ensures var r := RequestFor(c.main, t, a, i, mt, pm).value;
            RequestFine(r) && Fits(a, r) && !IsQuit(r) && (r.head.kind == READ_FILE ==> a.Change? && a.path in t && r.tail == ContentAt(t, a.path))
  {
    hide CleanPath, ToString;
    ToStringIsWord(mt);
    ToStringIsWord(pm);
  }

  function ContentAt(t: Tree, p: string): string { if p in t && t[p].Plain? then t[p].content else "" }

  lemma FlightSnoc(ds: seq<Done>, rs: seq<Request>, r: Request)
    ensures Flight(ds, rs + [r]) == Flight(ds, rs) + [r]
  {
    assert DoneRequests(ds) + (rs + [r]) == (DoneRequests(ds) + rs) + [r];
  }

  /** With nothing under way the client has read every answer to its end. */
  lemma NothingEaten(s: State)
    requires DownOk(s.cin, s.phase, s.done, s.eaten, s.reader.Fetching?)
    requires UpOk(s.sin, s.phase, s.requests, s.hand.Body? || s.awaiting)
    requires Flight(s.done, s.requests) == []
    ensures s.eaten.Nothing?
  {
    hide EatenBytes, WrittenDown, WrittenUp, Consumed, AllOk, DonesOk, HeaderOk;
    assert |Flight(s.done, s.requests)| == |s.done| + |s.requests|;
  }

  lemma AwaitWrite(awaiting: bool, flight: seq<Request>, rs: seq<Request>, eaten: Eaten, hand: Hand, r: Request, hand2: Hand)
    requires AwaitOk(awaiting, flight, rs, eaten, hand) && !awaiting
    requires flight == [] ==> eaten.Nothing?
    requires hand2.Body? ==> r.head.kind != RESTORE
    ensures AwaitOk(r.head.kind == RESTORE, flight + [r], rs + [r], eaten, hand2)
  {
    var f := flight + [r];
    assert forall k :: 0 <= k < |flight| ==> f[k] == flight[k];
  }

  lemma FlightWrite(flight: seq<Request>, rs: seq<Request>, hand: Hand, phase: Phase, r: Request, hand2: Hand)
    requires FlightOk(flight, rs, hand, phase) && !hand.Quitted? && RequestFine(r)
    requires IsQuit(r) <==> hand2.Quitted?
    ensures FlightOk(flight + [r], rs + [r], hand2, phase)
  {
    hide RequestFine;
    var f := flight + [r];
    forall k | 0 <= k < |f| ensures RequestFine(f[k]) && (IsQuit(f[k]) ==> k == |f| - 1 && hand2.Quitted?) {
      if k < |flight| { assert f[k] == flight[k]; }
    }
  }

  lemma ReaderWrite(reader: Reader, flight: seq<Request>, phase: Phase, hand: Hand, r: Request, hand2: Hand)
    requires ReaderOk(reader, flight, phase, hand) && !phase.Closed? && (hand2.Quitted? ==> IsQuit(r))
    ensures ReaderOk(reader, flight + [r], phase, hand2)
  {
  }

  lemma WriteHeaderIs(c: Config, s: State, s2: State, mt: int, pm: int)
    requires StepWriteHeader(c, s, mt, pm) == Some(s2)
    ensures s.hand.Added? && !s.awaiting && 0 <= mt <= INT_MAX && 0 <= pm <= INT_MAX
    ensures RequestFor(c.main, s.tree, s.hand.action, s.hand.index, mt, pm).Some?
    ensures var r := RequestFor(c.main, s.tree, s.hand.action, s.hand.index, mt, pm).value;
            s2 == s.(sin := Send(s.sin, EncHeader(r.head)), requests := s.requests + [r], awaiting := r.head.kind == RESTORE,
                     hand := if r.head.kind == READ_FILE then Body(s.hand.action.path) else Idle,
                     handled := s.handled + [s.hand.action])
  {
    hide RequestFor, EncHeader;
  }

  /** Before its header is written an action is understood against the tree it was seen in. */
  lemma SameRequest(c: Config, s: State, mt: int, pm: int)
    requires TreesOk(c, s.tree, s.seen, s.started, s.index, s.todo, s.ring, s.hand) && s.hand.Added?
    ensures RequestFor(c.main, s.tree, s.hand.action, s.hand.index, mt, pm) == RequestFor(c.main, s.seen, s.hand.action, s.hand.index, mt, pm)
  {
    hide CleanPath, HeaderFor;
  }

  /** The channel, flight and waiting parts after the consumer has written r. */
  lemma LinksWritten(s: State, r: Request, hand2: Hand)
    requires UpOk(s.sin, s.phase, s.requests, s.hand.Body? || s.awaiting) && !s.hand.Body? && !s.awaiting
    requires !s.reader.Handshake? && DownOk(s.cin, s.phase, s.done, s.eaten, s.reader.Fetching?)
    requires FlightOk(Flight(s.done, s.requests), s.requests, s.hand, s.phase) && !s.hand.Quitted?
    requires AwaitOk(s.awaiting, Flight(s.done, s.requests), s.requests, s.eaten, s.hand)
    requires ReaderOk(s.reader, Flight(s.done, s.requests), s.phase, s.hand)
    requires RequestFine(r) && RequestOk(r) && (IsQuit(r) <==> hand2.Quitted?) && (hand2.Body? <==> r.head.kind == READ_FILE)
    ensures Flight(s.done, s.requests + [r]) == Flight(s.done, s.requests) + [r]
    ensures UpOk(Send(s.sin, EncHeader(r.head)), s.phase, s.requests + [r], hand2.Body? || r.head.kind == RESTORE)
    ensures FlightOk(Flight(s.done, s.requests + [r]), s.requests + [r], hand2, s.phase)
    ensures AwaitOk(r.head.kind == RESTORE, Flight(s.done, s.requests + [r]), s.requests + [r], s.eaten, hand2)
    ensures ReaderOk(s.reader, Flight(s.done, s.requests + [r]), s.phase, hand2)
  {
    hide *;
    var flight := Flight(s.done, s.requests);
    FlightSnoc(s.done, s.requests, r);
    NotClosed(flight, s.requests, s.hand, s.phase);
    UpHeader(s.sin, s.phase, s.requests, r);
    TailKinds(r.head.kind);
    if flight == [] { NothingEaten(s); }
    BodyKind(r, hand2);
    AwaitWrite(s.awaiting, flight, s.requests, s.eaten, s.hand, r, hand2);
    FlightWrite(flight, s.requests, s.hand, s.phase, r, hand2);
    ReaderWrite(s.reader, flight, s.phase, s.hand, r, hand2);
  }

  lemma TailKinds(kind: int)
    ensures HasTail(kind) <==> kind == READ_FILE || kind == RESTORE
  {
  }

  lemma BodyKind(r: Request, hand: Hand)
    requires hand.Body? <==> r.head.kind == READ_FILE
    ensures hand.Body? ==> r.head.kind != RESTORE
  {
  }

  lemma InvWriteHeader(c: Config, s: State, s2: State, mt: int, pm: int)
    requires Inv(c, s) && StepWriteHeader(c, s, mt, pm) == Some(s2)
    ensures Inv(c, s2)
  {
    hide *;
    WriteHeaderIs(c, s, s2, mt, pm);
    Open(c, s);
    SameRequest(c, s, mt, pm);
    var a, i, flight := s.hand.action, s.hand.index, Flight(s.done, s.requests);
    var r := RequestFor(c.main, s.seen, a, i, mt, pm).value;
    PendBelow(s.pending, s.next, flight, s.hand, Mark(s.eaten, s.reader));
    HeldIsOk(c, s.seen, s.todo, s.ring, s.hand);
    WrittenIsFine(c, s.seen, a, i, mt, pm);
    ActionKinds(c, s.seen, a);
    RequestPromises(c, s.seen, a, i, mt, pm);
    FineIsOk(r);
    NotQuit(r, s2.hand);
    LinksWritten(s, r, s2.hand);
    PendWrite(s.pending, s.next, flight, a, i, Mark(s.eaten, s.reader), r, s2.hand);
    HeaderWritten(c, s.seen, s.requests, a, i, r, s2.hand, s.ring, s.todo);
    ClientWritten(c, s, s2, r);
    ShutHand(s, s2);
    NoHandshake(s2);
    Close(c, s2);
  }

  lemma NotQuit(r: Request, hand: Hand)
    requires !IsQuit(r) && (hand.Idle? || hand.Body?)
    ensures IsQuit(r) <==> hand.Quitted?
  {
  }

  lemma HeldIsOk(c: Config, seen: Tree, todo: seq<Event>, ring: seq<Action>, hand: Hand)
    requires WorkOk(c, seen, todo, ring, hand) && (hand.Holding? || hand.Added?)
    ensures ActionOk(c, seen, hand.action)
  {
    hide ActionOk, EventOk;
  }

  /** The client's own parts after a header has been written. */
  lemma ClientWritten(c: Config, s: State, s2: State, r: Request)
    requires s.hand.Added?
    requires TreesOk(c, s.tree, s.seen, s.started, s.index, s.todo, s.ring, s.hand) && WorkOk(c, s.seen, s.todo, s.ring, s.hand)
    requires OrderOk(s.pushed, s.handled, s.hand, s.ring, c.capacity)
    requires ActionOk(c, s.seen, s.hand.action)
    requires r.head.kind == (if s.hand.action.Change? then s.hand.action.kind else RESTORE)
    requires r.head.kind == READ_FILE ==> s.hand.action.Change? && s.hand.action.path in s.seen && r.tail == ContentAt(s.seen, s.hand.action.path)
    requires s2.hand == (if r.head.kind == READ_FILE then Body(s.hand.action.path) else Idle)
    ensures TreesOk(c, s.tree, s.seen, s.started, s.index, s.todo, s.ring, s2.hand) && WorkOk(c, s.seen, s.todo, s.ring, s2.hand)
    ensures OrderOk(s.pushed, s.handled + [s.hand.action], s2.hand, s.ring, c.capacity)
    ensures BodyOk(s.seen, s2.hand, s.requests + [r])
  {
    hide TreeOk, Mtimes, EventOk, PathOk;
    assert s.handled + [s.hand.action] + s.ring == (s.handled + [s.hand.action]) + [] + s.ring;
    assert !Quiet(s.todo, s.ring, s2.hand) ==> !Quiet(s.todo, s.ring, s.hand);
  }

  lemma ActionKinds(c: Config, t: Tree, a: Action)
    requires ActionOk(c, t, a)
    ensures a.Change? || a.Restoration?
    ensures a.Change? ==> c.main <= a.path && a.kind in {READ_FILE, CREATE_FOLDER, DELETE_PATH, IGNORE}
  {
  }

  lemma FineIsOk(r: Request)
    requires RequestFine(r)
    ensures RequestOk(r)
  {
  }

  lemma NotClosed(flight: seq<Request>, rs: seq<Request>, hand: Hand, phase: Phase)
    requires FlightOk(flight, rs, hand, phase) && !hand.Quitted?
    ensures !phase.Closed?
  {
  }

  lemma InvWriteBody(c: Config, s: State)
    requires Inv(c, s) && s.hand.Body? && s.hand.path in s.tree && s.tree[s.hand.path].Plain?
    ensures Inv(c, s.(hand := Idle, sin := Send(s.sin, EncBody(s.tree[s.hand.path].content))))
  {
    hide *;
    var s2 := s.(hand := Idle, sin := Send(s.sin, EncBody(s.tree[s.hand.path].content)));
    Open(c, s);
    BodySent(c, s);
    UpTail(s.sin, s.phase, s.requests);
    FlightHand(Flight(s.done, s.requests), s.requests, s.hand, Idle, s.phase);
    ReaderHand(s.reader, Flight(s.done, s.requests), s.phase, s.hand, Idle);
    AwaitHand(s.awaiting, Flight(s.done, s.requests), s.requests, s.eaten, s.hand, Idle);
    PendHand(s.pending, s.next, Flight(s.done, s.requests), s.hand, Idle, Mark(s.eaten, s.reader));
    BodyHand(s.seen, Idle, s.requests);
    ShutHand(s, s2);
    NoHandshake(s2);
    Close(c, s2);
  }

  /** What is sent is the tail of the request whose header is out. */
  lemma BodySent(c: Config, s: State)
    requires s.hand.Body? && s.hand.path in s.tree && s.tree[s.hand.path].Plain?
    requires TreesOk(c, s.tree, s.seen, s.started, s.index, s.todo, s.ring, s.hand) && WorkOk(c, s.seen, s.todo, s.ring, s.hand)
    requires OrderOk(s.pushed, s.handled, s.hand, s.ring, c.capacity) && BodyOk(s.seen, s.hand, s.requests)
    requires AwaitOk(s.awaiting, Flight(s.done, s.requests), s.requests, s.eaten, s.hand)
    ensures s.requests != [] && !s.awaiting
    ensures var r := s.requests[|s.requests| - 1]; EncTail(r.head.kind, r.tail) == EncBody(s.tree[s.hand.path].content)
    ensures TreesOk(c, s.tree, s.seen, s.started, s.index, s.todo, s.ring, Idle) && WorkOk(c, s.seen, s.todo, s.ring, Idle)
    ensures OrderOk(s.pushed, s.handled, Idle, s.ring, c.capacity)
    ensures Outstanding(c, s.seen, s.requests, Idle, s.ring, s.todo) == Outstanding(c, s.seen, s.requests, s.hand, s.ring, s.todo)
  {
    hide TreeOk, Mtimes, EventOk, ActionOk, EncBody, RequestOps, RingOps, EventOps, Flight;
  }

  lemma QuitFine()
    ensures RequestFine(Request(QuitHeader(), "")) && IsQuit(Request(QuitHeader(), "")) && !HasTail(QUIT)
    ensures QuitHeader().kind != READ_FILE && QuitHeader().kind != RESTORE
  {
  }

  lemma InvWriteQuit(c: Config, s: State)
    requires Inv(c, s) && s.hand.Idle? && s.ring == [] && s.terminated && !s.awaiting && !s.reader.Handshake?
    ensures Inv(c, s.(hand := Quitted, sin := Send(s.sin, EncHeader(QuitHeader())), requests := s.requests + [Request(QuitHeader(), "")]))
  {
    hide *;
    var r := Request(QuitHeader(), "");
    var s2 := s.(hand := Quitted, sin := Send(s.sin, EncHeader(QuitHeader())), requests := s.requests + [r]);
    Open(c, s);
    QuitFine();
    FineIsOk(r);
    LinksWritten(s, r, Quitted);
    PendQuit(s.pending, s.next, Flight(s.done, s.requests), Mark(s.eaten, s.reader), r);
    NoHandOps(c, s.seen, s.hand);
    NoHandOps(c, s.seen, Quitted);
    QuitWritten(c, ServerView(c, s.table), s.seen, s.requests, r, s.hand, Quitted, s.ring, s.todo);
    ConvergingSame(c, s.table, Goal(c, s.started, s.seen, s.initial),
                   Outstanding(c, s.seen, s.requests, s.hand, s.ring, s.todo),
                   Outstanding(c, s.seen, s.requests + [r], Quitted, s.ring, s.todo), s.lost);
    QuitClient(c, s);
    BodyHand(s.seen, Quitted, s.requests + [r]);
    ShutHand(s, s2);
    NoHandshake(s2);
    Close(c, s2);
  }

  lemma NoHandOps(c: Config, t: Tree, hand: Hand)
    requires !hand.Holding? && !hand.Added?
    ensures HandOps(c, t, hand) == []
  {
  }

  lemma QuitClient(c: Config, s: State)
    requires s.hand.Idle?
    requires TreesOk(c, s.tree, s.seen, s.started, s.index, s.todo, s.ring, s.hand) && WorkOk(c, s.seen, s.todo, s.ring, s.hand)
    requires OrderOk(s.pushed, s.handled, s.hand, s.ring, c.capacity)
    ensures TreesOk(c, s.tree, s.seen, s.started, s.index, s.todo, s.ring, Quitted) && WorkOk(c, s.seen, s.todo, s.ring, Quitted)
    ensures OrderOk(s.pushed, s.handled, Quitted, s.ring, c.capacity)
  {
    hide TreeOk, Mtimes, EventOk, ActionOk;
  }
}
