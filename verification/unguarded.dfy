/** The code itself, which nothing keeps from writing between a restore header and its date: it never stops in
    the middle of its work, but what it writes there takes the place of the date. */
module Unguarded {
  import opened Text
  import opened Streams
  import opened Wire
  import opened Store
  import opened Dates
  import opened Digests
  import opened Actions
  import opened Handler
  import opened Client
  import opened System
  import opened Channels
  import opened Invariant
  import opened ConsumerSteps
  import opened ExchangeSteps
  import opened StepForms
  import opened Theorems
  import opened Progress
  import opened Guards

  // ----- what the server reads where it expects a date -----

  /** The text date_string holds after the reads, whether or not the stream is still good. */
  function TakenForDate(s: Stream): Option<string>
  {
    match Transfer(s, 11)
    case Got(_, s1) =>
      var (n, s2) := ExtractNumber(s1, INT_MIN, INT_MAX);
      (match Transfer(s2, n + 1)
       case Got(_, s3) => Some(ExtractWord(s3).0)
       case _ => None)
    case _ => None
  }

  /** A header where a date is expected: its kind passes for the length, the first digits of its index for the
      date, and the extraction runs into the end of the buffer. */
  lemma HeaderForDate(s: Stream, h: Header, k: string)
    requires s.Good() && s.buf == "" && s.net == EncHeader(h) + k && HeaderFits(h)
    ensures DecDate(s).Broken?
    ensures TakenForDate(s) == Some(Format(h.index)[..h.kind + 1])
  {
    hide *;
    var rest := TextLines(h.path, TextLines(h.mtime, TextLines(h.perms, k)));
    var digits := Format(h.index);
    HeaderLinesAre(h, k);
    Kinds(h);
    EmptyIsBoundary(s);
    NumberField(s, h.kind, Line(digits, rest), INT_MIN, INT_MAX);
    FormatShape(h.index);
    DigitsForWord(Line(digits, rest), digits, rest, h.kind + 1);
    NumberThenWord(s, h.kind, Stream(Line(digits, rest), "\n", false, false));
  }

  lemma HeaderLinesAre(h: Header, k: string)
    ensures EncHeader(h) + k ==
            Line(Format(h.kind), Line(Format(h.index), TextLines(h.path, TextLines(h.mtime, TextLines(h.perms, k)))))
  {
    hide EncHeader, Line, Format, TextLines;
    HeaderCat(h, k);
  }

  lemma Kinds(h: Header)
    requires HeaderFits(h)
    ensures 0 <= h.kind <= 5 && 0 <= h.index < 10000000000 && INT_MIN <= h.kind <= INT_MAX
  {
  }

  lemma NumberThenWord(s: Stream, n: int, s1: Stream)
    requires ReadNumber(s, INT_MIN, INT_MAX) == Got(n, s1) && Transfer(s1, n + 1).Got?
    ensures ReadWord(s1, n).Broken? ==> DecDate(s).Broken?
    ensures TakenForDate(s) == Some(ExtractWord(Transfer(s1, n + 1).next).0)
  {
    hide ExtractNumber, ExtractWord;
    NumberSteps(s);
  }

  /** ReadNumber taken apart. */
  lemma NumberSteps(s: Stream)
    requires ReadNumber(s, INT_MIN, INT_MAX).Got?
    ensures Transfer(s, 11).Got?
    ensures ExtractNumber(Transfer(s, 11).next, INT_MIN, INT_MAX) ==
            (ReadNumber(s, INT_MIN, INT_MAX).value, ReadNumber(s, INT_MIN, INT_MAX).next)
  {
    hide ExtractNumber;
  }

  lemma DigitsForWord(net: string, digits: string, rest: string, n: nat)
    requires net == Line(digits, rest) && AllDigits(digits) && 0 < n <= |digits|
    ensures ReadWord(Stream(net, "\n", false, false), n - 1).Broken?
    ensures Transfer(Stream(net, "\n", false, false), n).Got?
    ensures ExtractWord(Transfer(Stream(net, "\n", false, false), n).next).0 == digits[..n]
  {
    var d := digits[..n];
    assert net[..n] == d;
    var b := "\n" + d;
    assert b[1..] == d && IsDigit(d[0]);
    assert SkipSpace(b) == d;
    var m := SpanWord(d);
    assert m < n ==> IsDigit(d[m]);
    assert d[..n] == d && d[n..] == "";
  }

  /** The restore's date, exactly: with the bytes of the requests rs written between the header and the date, the
      last of them perhaps without its file, the server reads the date if and only if there are none. Otherwise
      its stream breaks, and what it takes for the date are digits of the first one's index. */
  lemma DateExact(s: Stream, rs: seq<Request>, open: bool, d: string, k: string)
    requires s.Good() && s.buf == "" && s.net == WrittenUp(rs, open) + (EncDate(d) + k)
    requires AllOk(rs) && (open && rs != [] ==> HasTail(rs[|rs| - 1].head.kind))
    requires d != "" && NoSpace(d) && |d| < INT_MAX
    ensures DecDate(s) == Got(d, Stream(k, "\n", false, false)) <==> rs == []
    ensures rs != [] ==> DecDate(s).Broken? && TakenForDate(s) == Some(Format(rs[0].head.index)[..rs[0].head.kind + 1])
  {
    hide *;
    if rs == [] {
      WrittenNone(open);
      assert "" + (EncDate(d) + k) == EncDate(d) + k;
      EmptyIsBoundary(s);
      DateRoundTrip(s, d, k);
    } else {
      RequestForDate(s, rs, open, EncDate(d) + k);
    }
  }

  lemma RequestForDate(s: Stream, rs: seq<Request>, open: bool, k: string)
    requires s.Good() && s.buf == "" && rs != [] && s.net == WrittenUp(rs, open) + k
    requires AllOk(rs) && (open ==> HasTail(rs[|rs| - 1].head.kind))
    ensures DecDate(s).Broken? && TakenForDate(s) == Some(Format(rs[0].head.index)[..rs[0].head.kind + 1])
  {
    hide *;
    WrittenFirst(rs, open);
    FirstHeaderOk(rs);
    FitsHeader(rs[0].head);
    var head := EncHeader(rs[0].head);
    var more := if open && |rs| == 1 then "" else EncTail(rs[0].head.kind, rs[0].tail) + WrittenUp(rs[1..], open);
    assert head + "" == head && (head + more) + k == head + (more + k);
    HeaderForDate(s, rs[0].head, more + k);
  }

  lemma FitsHeader(h: Header)
    requires HeaderOk(h)
    ensures HeaderFits(h)
  {
  }

  lemma EmptyIsBoundary(s: Stream)
    requires s.Good() && s.buf == ""
    ensures Boundary(s)
  {
  }

  /** Whose day is a calendar day, none of a table's rows is dated up to such digits: the restore that follows is
      one of nothing. */
  lemma EmptyRestore(t: Table, index: int, kind: nat)
    requires 0 <= index < 1000000000 && kind <= IGNORE
    requires forall k :: k in t ==> exists d :: Valid(d) && k.1 == Iso(d)
    ensures |Format(index)| == 10 && AsOf(t, Format(index)[..kind + 1]) == map[]
  {
    FormatShape(index);
    ShortStartsWithZero(index);
    hide Format, Iso;
    var text := Format(index)[..kind + 1];
    forall k | k in t ensures !Le(k.1, text) {
      var d :| Valid(d) && k.1 == Iso(d);
      YearsStartHigher(d);
    }
  }

  lemma ShortStartsWithZero(n: int)
    requires 0 <= n < 1000000000
    ensures Format(n) != "" && Format(n)[0] == '0'
  {
    DecLength(n, 9);
    assert Pow10(9) == 1000000000;
    hide Dec;
  }

  lemma YearsStartHigher(d: Date)
    requires Valid(d)
    ensures Iso(d) != "" && Iso(d)[0] > '0'
  {
    var n := d.year / 10 / 10 / 10;
    assert Padded(n, 1) == Padded(n / 10, 0) + [Digit(n % 10)] == [Digit(n)];
    assert Padded(d.year / 10 / 10, 2)[0] == Digit(n);
    assert Padded(d.year / 10, 3)[0] == Digit(n);
    assert Padded(d.year, 4)[0] == Digit(n);
  }

  // ----- steps of the code -----

  predicate Writes(l: Label) { l.WriteHeader? || l.WriteQuit? }

  /** A step of the code: the consumer does not ask whether a restore waits for its date. */
  ghost function FreeStep(c: Config, s: State, l: Label): Option<State>
  {
    if s.awaiting && Writes(l) then
      match Step(c, s.(awaiting := false), l)
      case Some(s2) => Some(s2.(awaiting := true))
      case None => None
    else Step(c, s, l)
  }

  ghost function FreeRun(c: Config, s0: State, ls: seq<Label>): Option<State>
    decreases ls
  {
    if ls == [] then Some(s0) else
      match FreeRun(c, s0, ls[..|ls| - 1])
      case Some(s) => FreeStep(c, s, ls[|ls| - 1])
      case None => None
  }

  ghost predicate FreeMoves(c: Config, s: State, l: Label)
  {
    Internal(l) && FreeStep(c, s, l).Some? && !(l.StopWatcher? && s.reader.Fetching?)
  }

  /** A step within the hypothesis is a step of the code. */
  lemma StepIsFree(c: Config, s: State, l: Label)
    requires Step(c, s, l).Some?
    ensures FreeStep(c, s, l) == Step(c, s, l)
  {
    hide Step;
    if s.awaiting && l.WriteHeader? { HeaderWaits(c, s, l); }
    if s.awaiting && l.WriteQuit? { QuitIs(c, s, Step(c, s, l).value); }
  }

  lemma HeaderWaits(c: Config, s: State, l: Label)
    requires l.WriteHeader? && Step(c, s, l).Some?
    ensures !s.awaiting
  {
    hide Step, StepWriteHeader;
    HeaderStep(c, s, l.mtime, l.perms);
    WriteHeaderIs(c, s, Step(c, s, l).value, l.mtime, l.perms);
  }

  /** Where the hypothesis cannot be kept the consumer's next header can be written, whatever its metadata, and
      nothing else can happen. */
  lemma CorneredWrites(c: Config, s: State, l: Label)
    requires Inv(c, s) && Cornered(c, s)
    ensures FreeMoves(c, s, WriteHeader(0, 0))
    ensures FreeMoves(c, s, l) ==> l.WriteHeader?
  {
    hide *;
    CorneredMeans(c, s);
    Open(c, s);
    var s1 := s.(awaiting := false);
    HeaderReady(c, s1);
    StepOfMove(c, s1, WriteHeader(0, 0));
    FreeHeader(c, s, s1);
    CorneredRests(c, s, l);
    FreeOther(c, s, l);
  }

  lemma FreeHeader(c: Config, s: State, s1: State)
    requires s1 == s.(awaiting := false) && s.awaiting && Step(c, s1, WriteHeader(0, 0)).Some?
    ensures FreeMoves(c, s, WriteHeader(0, 0))
  {
    hide Step;
  }

  lemma FreeOther(c: Config, s: State, l: Label)
    requires s.hand.Added? && !Moves(c, s, l)
    ensures FreeMoves(c, s, l) ==> l.WriteHeader?
  {
    hide Step;
    if l.WriteQuit? { NoQuitInHand(c, s.(awaiting := false)); NoQuitInHand(c, s); }
  }

  lemma NoQuitInHand(c: Config, s: State)
    requires s.hand.Added?
    ensures Step(c, s, WriteQuit).None?
  {
  }

  /** No deadlock: the program, in any state that its hypotheses have led to, has settled, throws, is barred by
      the hypothesis on the start, or has a step of its own. */
  lemma NoDeadlock(c: Config, s: State)
    requires Inv(c, s)
    ensures Settled(s) || Throws(s) || Barred(s) || exists l :: FreeMoves(c, s, l)
  {
    hide *;
    StepOrRest(c, s);
    if Cornered(c, s) {
      CorneredWrites(c, s, WriteHeader(0, 0));
    } else if l :| Moves(c, s, l) {
      MoveIsFree(c, s, l);
    }
  }

  lemma MoveIsFree(c: Config, s: State, l: Label)
    requires Moves(c, s, l)
    ensures FreeMoves(c, s, l)
  {
    hide Step, FreeStep;
    StepIsFree(c, s, l);
  }

  // ----- what a write does to a date -----

  /** Once the server waits for a restore's date, whatever the consumer writes breaks it. */
  lemma WriteBreaksDate(c: Config, s: State, l: Label, s2: State)
    requires Inv(c, s) && s.awaiting && s.phase.Running? && |s.requests| == 1 && Writes(l) && FreeStep(c, s, l) == Some(s2)
    ensures s2.phase == s.phase && s.phase.head.kind == RESTORE && DecTail(s2.sin, RESTORE).Broken?
    ensures s2.awaiting
  {
    hide *;
    Open(c, s);
    AwaitMeans(s.awaiting, Flight(s.done, s.requests), s.requests, s.eaten, s.hand);
    RunningFirst(s.sin, s.phase, s.requests, s.hand.Body? || s.awaiting);
    NothingAhead(s);
    FreeWrites(l);
    FreeWriteIs(c, s, l, s2);
    var s1 := s.(awaiting := false);
    if l.WriteHeader? {
      HeaderWritten(c, s, s1, l, s2);
    } else {
      QuitWrittenFree(c, s, s1, s2);
    }
  }

  lemma FreeWrites(l: Label)
    requires Writes(l)
    ensures l.WriteHeader? || l.WriteQuit?
  {
  }

  lemma FreeWriteIs(c: Config, s: State, l: Label, s2: State)
    requires s.awaiting && Writes(l) && FreeStep(c, s, l) == Some(s2)
    ensures Step(c, s.(awaiting := false), l).Some?
    ensures s2 == Step(c, s.(awaiting := false), l).value.(awaiting := true)
  {
    hide Step;
  }

  /** The server has read all there is. */
  lemma NothingAhead(s: State)
    requires UpOk(s.sin, s.phase, s.requests, s.hand.Body? || s.awaiting) && s.phase.Running? && |s.requests| == 1 && s.awaiting
    ensures s.sin == Stream("", "", false, false)
  {
    hide EncHeader, EncRequests, AllOk, HasTail;
    var head := EncHeader(s.phase.head);
    assert s.requests[..0] == [];
    EncRequestsNone();
    assert "" + head == head && head + "" == head;
    SameRest(head, s.sin.net, "");
  }

  lemma HeaderWritten(c: Config, s: State, s1: State, l: Label, s2: State)
    requires Inv(c, s) && s1 == s.(awaiting := false) && s.sin == Stream("", "", false, false) && s.awaiting
    requires l.WriteHeader? && Step(c, s1, l).Some? && s2 == Step(c, s1, l).value.(awaiting := true)
    ensures s2.phase == s.phase && DecTail(s2.sin, RESTORE).Broken?
  {
    hide *;
    Open(c, s);
    HeaderStep(c, s1, l.mtime, l.perms);
    var s3 := Step(c, s1, l).value;
    WriteHeaderIs(c, s1, s3, l.mtime, l.perms);
    SameRequest(c, s, l.mtime, l.perms);
    HeldIsOk(c, s.seen, s.todo, s.ring, s.hand);
    PendBelow(s.pending, s.next, Flight(s.done, s.requests), s.hand, Mark(s.eaten, s.reader));
    WrittenIsFine(c, s.seen, s.hand.action, s.hand.index, l.mtime, l.perms);
    var r := RequestFor(c.main, s.seen, s.hand.action, s.hand.index, l.mtime, l.perms).value;
    FineIsOk(r);
    BrokenTail(s2.sin, r);
  }

  lemma QuitWrittenFree(c: Config, s: State, s1: State, s2: State)
    requires s1 == s.(awaiting := false) && s.sin == Stream("", "", false, false)
    requires Step(c, s1, WriteQuit).Some? && s2 == Step(c, s1, WriteQuit).value.(awaiting := true)
    ensures s2.phase == s.phase && DecTail(s2.sin, RESTORE).Broken?
  {
    hide *;
    QuitSends(c, s1);
    QuitIs(c, s1, Step(c, s1, WriteQuit).value);
    QuitFine();
    FineIsOk(Request(QuitHeader(), ""));
    BrokenTail(s2.sin, Request(QuitHeader(), ""));
  }

  lemma QuitSends(c: Config, s: State)
    requires Step(c, s, WriteQuit).Some?
    ensures Step(c, s, WriteQuit).value.sin == Send(s.sin, EncHeader(QuitHeader()))
  {
    hide EncHeader, QuitHeader;
  }

  lemma BrokenTail(s: Stream, r: Request)
    requires RequestOk(r) && s == Send(Stream("", "", false, false), EncHeader(r.head))
    ensures DecTail(s, RESTORE).Broken?
  {
    hide EncHeader, DecDate, TakenForDate;
    assert "" + EncHeader(r.head) == EncHeader(r.head) && EncHeader(r.head) + "" == EncHeader(r.head);
    HeaderForDate(s, r.head, "");
  }

  // ----- what a doomed state leads to -----

  ghost predicate NoWrite(ls: seq<Label>) { forall i :: 0 <= i < |ls| ==> !Writes(ls[i]) }

  /** A run of the code without a write is a run within the hypothesis. */
  lemma {:induction false} QuietRun(c: Config, s: State, ls: seq<Label>)
    requires NoWrite(ls)
    ensures FreeRun(c, s, ls) == Run(c, s, ls)
    decreases ls
  {
    hide Step;
    if ls != [] {
      var n := |ls| - 1;
      QuietRun(c, s, ls[..n]);
      assert !Writes(ls[n]);
    }
  }

  /** From a doomed state every schedule makes the consumer write before the date: a run of the system's own
      steps in which it has not written has not sent the date, has taken no more steps than there was work, and
      can go on; and where it can go on only by writing, what is written breaks the date. */
  lemma DoomedWrites(c: Config, s: State, ls: seq<Label>, s2: State)
    requires Inv(c, s) && Doomed(c, s) && Indices(s) <= INT_MAX + 1
    requires AllInternal(ls) && NoWrite(ls) && FreeRun(c, s, ls) == Some(s2)
    ensures s2.awaiting && |ls| <= Work(c, s)
    ensures (exists l :: Moves(c, s2, l)) || Cornered(c, s2)
    ensures Cornered(c, s2) ==> FreeMoves(c, s2, WriteHeader(0, 0)) && forall l :: FreeMoves(c, s2, l) ==>
              l.WriteHeader? && DecTail(FreeStep(c, s2, l).value.sin, RESTORE).Broken?
  {
    hide *;
    QuietRun(c, s, ls);
    InternalRunsEnd(c, s, ls, s2);
    WorkIsLeft(c, s2);
    DoomRuns(c, s, ls, s2);
    DoomMeans(c, s2);
    Open(c, s);
    DoomMeans(c, s);
    ShutStopped(s);
    DoomThrows(c, s2);
    StepOrRest(c, s2);
    if Settled(s2) || Barred(s2) { DoomAtRest(c, s2); }
    if Cornered(c, s2) {
      CorneredMeans(c, s2);
      CorneredWrites(c, s2, WriteHeader(0, 0));
      forall l | FreeMoves(c, s2, l) ensures FreeStep(c, s2, l).Some? && l.WriteHeader? && DecTail(FreeStep(c, s2, l).value.sin, RESTORE).Broken? {
        CorneredWrites(c, s2, l);
        FreeMoveIs(c, s2, l);
        WriteBreaksDate(c, s2, l, FreeStep(c, s2, l).value);
      }
    }
  }

  lemma FreeMoveIs(c: Config, s: State, l: Label)
    requires FreeMoves(c, s, l)
    ensures FreeStep(c, s, l).Some? && (l.WriteHeader? ==> Writes(l))
  {
    hide FreeStep;
  }

  // ----- a session that breaks -----

  /** Restore, then quit: from a fresh session the code, asked for a restore and then to quit, can write quit
      between the restore's header and its date, and the server's read of the date breaks. No scan, no change of
      the folder and no particular capacity is needed. */
  lemma QuitBreaksDate(c: Config) returns (s0: State, ls: seq<Label>, s: State)
    requires c.capacity >= 2 && Sha256Like(c.dg)
    ensures Initial(c, s0) && FreeRun(c, s0, ls) == Some(s)
    ensures s.phase.Running? && s.phase.head.kind == RESTORE && DecTail(s.sin, RESTORE).Broken?
  {
    hide *;
    s0 := Fresh();
    FreshInitial(c);
    InitialInv(c, s0);
    Open(c, s0);
    NothingKnown(c);
    InitialStatusIs(c, s0);
    var s1 := Step(c, s0, ReadInitialStatus).value;
    StepInv(c, s0, ReadInitialStatus, s1);
    FreshFields(c);
    var l1, s2 := AskRestore(c, s1);
    FreshAsked(c, s1, s2);
    FreshUnasked(c, s1, s2);
    RunsInv(c, s1, l1, s2);
    var l2, s3 := QuitAsked(c, s2);
    RunsInv(c, s2, l2, s3);
    var s4 := HeadServed(c, s3);
    StepInv(c, s3, ServeHead, s4);
    var guarded := [ReadInitialStatus] + l1 + l2 + [ServeHead];
    RunFrom(c, s0, ReadInitialStatus, s1, l1);
    RunCat(c, s0, [ReadInitialStatus] + l1, s2, l2);
    RunOne(c, s3, ServeHead, s4);
    RunCat(c, s0, [ReadInitialStatus] + l1 + l2, s3, [ServeHead]);
    RunIsFree(c, s0, guarded, s4);
    s := QuitFree(c, s4);
    ls := guarded + [WriteQuit];
    FreeSnoc(c, s0, guarded, s4, WriteQuit, s);
    QuitIsWrite();
    WriteBreaksDate(c, s4, WriteQuit, s);
  }

  lemma FreshUnasked(c: Config, s1: State, s: State)
    requires s1 == Fresh().(cin := s1.cin, initial := map[], reader := Listening)
    requires s == s1.(started := true, hand := Added(Restoration("1", ""), 0), next := 1, pending := s.pending, pushed := s.pushed)
    ensures !s.asked && !s.terminated && s.phase.Waiting? && s.requests == [] && s.done == [] && s.reader.Listening?
  {
    hide EncInit, InitPairs;
  }

  /** The user asks to quit, the watcher and the ring end, and only then does the consumer write the restore's
      header. */
  lemma QuitAsked(c: Config, s: State) returns (ls: seq<Label>, s2: State)
    requires s.hand == Added(Restoration("1", ""), 0) && s.started && !s.asked && !s.stopped && !s.terminated && !s.awaiting
    requires s.todo == [] && s.ring == [] && s.reader.Listening? && s.requests == []
    ensures Run(c, s, ls) == Some(s2) && |s2.requests| == 1 && s2.requests[0].head.kind == RESTORE
    ensures s2 == s.(asked := true, stopped := true, terminated := true, hand := Idle, awaiting := true, sin := s2.sin,
                     requests := s2.requests, handled := s2.handled)
  {
    var s3, s4, s5 := s.(asked := true), s.(asked := true, stopped := true), s.(asked := true, stopped := true, terminated := true);
    s2 := RestoreHeader(c, s5);
    ls := [UserQuit, StopWatcher, TerminateRing, WriteHeader(0, 0)];
    hide StepWriteHeader;
    assert Step(c, s, UserQuit) == Some(s3) && Step(c, s3, StopWatcher) == Some(s4) && Step(c, s4, TerminateRing) == Some(s5);
    hide Step;
    RunFour(c, s, ls, s3, s4, s5, s2);
  }

  lemma RestoreHeader(c: Config, s: State) returns (s2: State)
    requires s.hand == Added(Restoration("1", ""), 0) && !s.awaiting && s.requests == []
    ensures Step(c, s, WriteHeader(0, 0)) == Some(s2) && |s2.requests| == 1 && s2.requests[0].head.kind == RESTORE
    ensures s2 == s.(hand := Idle, awaiting := true, sin := s2.sin, requests := s2.requests, handled := s2.handled)
  {
    hide EncHeader, Send;
    s2 := Step(c, s, WriteHeader(0, 0)).value;
  }

  lemma HeadServed(c: Config, s: State) returns (s2: State)
    requires Inv(c, s) && s.phase.Waiting? && |s.requests| == 1 && s.requests[0].head.kind == RESTORE
    ensures Step(c, s, ServeHead) == Some(s2) && s2.phase.Running? && s2.phase.head.kind == RESTORE
    ensures s2 == s.(sin := s2.sin, cin := s2.cin, phase := s2.phase)
  {
    hide *;
    Open(c, s);
    HeadReady(c, s, s.hand.Body? || s.awaiting);
    StepOfMove(c, s, ServeHead);
    s2 := Step(c, s, ServeHead).value;
    ServerSteps(c, s, true);
    UpServeHead(s.sin, s.requests, s.hand.Body? || s.awaiting);
    RestoreIsNotQuit();
    HeadRunIs(s, s2);
    HeadTaken(s, s2);
  }

  lemma RestoreIsNotQuit()
    ensures RESTORE != QUIT
  {
  }

  lemma HeadTaken(s: State, s2: State)
    requires StepServeHead(s) == Some(s2) && DecHeader(s.sin).Got? && DecHeader(s.sin).value.kind != QUIT
    ensures s2.phase.Running? && s2.phase.head == DecHeader(s.sin).value
  {
    hide StepServeHead, DecHeader;
    ServeHeadIs(s, s2);
  }

  lemma RunOne(c: Config, s: State, l: Label, s2: State)
    requires Step(c, s, l) == Some(s2)
    ensures Run(c, s, [l]) == Some(s2)
  {
    hide *;
    RunLast(c, s, [l]);
    RunNothing(c, s);
    assert [l][..0] == [];
  }

  lemma {:induction false} RunIsFree(c: Config, s: State, ls: seq<Label>, s2: State)
    requires Run(c, s, ls) == Some(s2)
    ensures FreeRun(c, s, ls) == Some(s2)
    decreases ls
  {
    hide Step, FreeStep;
    if ls != [] {
      var n := |ls| - 1;
      var before := Run(c, s, ls[..n]).value;
      RunIsFree(c, s, ls[..n], before);
      StepIsFree(c, before, ls[n]);
    }
  }

  lemma FreeSnoc(c: Config, s: State, ls: seq<Label>, s1: State, l: Label, s2: State)
    requires FreeRun(c, s, ls) == Some(s1) && FreeStep(c, s1, l) == Some(s2)
    ensures FreeRun(c, s, ls + [l]) == Some(s2)
  {
    hide FreeStep;
    assert (ls + [l])[..|ls|] == ls;
  }

  lemma QuitFree(c: Config, s: State) returns (s2: State)
    requires s.hand.Idle? && s.ring == [] && s.terminated && s.awaiting
    ensures FreeStep(c, s, WriteQuit) == Some(s2)
  {
    hide EncHeader, QuitHeader, Send;
    assert Step(c, s.(awaiting := false), WriteQuit).Some?;
    s2 := FreeStep(c, s, WriteQuit).value;
  }

  lemma QuitIsWrite()
    ensures Writes(WriteQuit)
  {
  }
}
