/** What each step of the client's threads changes, field by field. */
module StepForms {
  import opened Text
  import opened Streams
  import opened Wire
  import opened Actions
  import opened Watcher
  import opened Responses
  import opened Rebuild
  import opened Handler
  import opened Client
  import opened System
  import opened Channels
  import opened Invariant
  import opened ConsumerSteps
  import opened ExchangeSteps

  lemma StartUpIs(c: Config, s: State, es: seq<Event>, s2: State)
    requires Step(c, s, StartUp(es)) == Some(s2)
    ensures s2 == s.(started := true, index := Mtimes(s.tree), todo := es, seen := s.tree)
    ensures !s.reader.Handshake? && !s.started && IsDiff(es, s.initial.Keys, s.tree, HashChanged(c.dg, s.initial, s.tree))
  {
    hide IsDiff, HashChanged, Mtimes, NoFolderForFile;
  }

  lemma PushIs(c: Config, s: State, s2: State)
    requires Step(c, s, PushEvent) == Some(s2)
    ensures s.todo != [] && |s.ring| < c.capacity - 1
    ensures s2 == s.(ring := s.ring + [ToAction(s.tree, s.todo[0])], pushed := s.pushed + [ToAction(s.tree, s.todo[0])],
                     todo := s.todo[1..], scanning := s.scanning && |s.todo| > 1)
  {
    hide ToAction;
  }

  lemma PopIs(c: Config, s: State, s2: State)
    requires Step(c, s, Pop) == Some(s2)
    ensures s.hand.Idle? && s.ring != [] && s2 == s.(hand := Holding(s.ring[0]), ring := s.ring[1..])
  {
  }

  lemma AddIs(c: Config, s: State, s2: State)
    requires Step(c, s, AddPending) == Some(s2)
    ensures s.hand.Holding? && s.next <= INT_MAX
    ensures s2 == s.(hand := Added(s.hand.action, s.next), pending := s.pending[s.next := Pending(s.hand.action, SENT)], next := s.next + 1)
  {
  }

  lemma DropIs(c: Config, s: State, s2: State)
    requires Step(c, s, DropIgnored) == Some(s2)
    ensures s.hand.Added? && s.hand.action.Change? && s.hand.action.kind == IGNORE
    ensures s2 == s.(hand := Idle, pending := Answered(s.pending, s.hand.index, COMPLETED), handled := s.handled + [s.hand.action])
  {
    hide Answered;
  }

  lemma RejectIs(c: Config, s: State, s2: State)
    requires Step(c, s, RejectOversized) == Some(s2)
    ensures s.hand.Added? && TooBig(s.tree, s.hand.action)
    ensures s2 == s.(hand := Idle, pending := Answered(s.pending, s.hand.index, ERROR), lost := true, handled := s.handled + [s.hand.action])
  {
    hide Answered, TooBig;
  }

  lemma BodyIs(c: Config, s: State, s2: State)
    requires Step(c, s, WriteBody) == Some(s2)
    ensures s.hand.Body? && s2 == s.(hand := Idle, sin := s2.sin)
  {
    hide EncBody;
  }

  lemma QuitIs(c: Config, s: State, s2: State)
    requires Step(c, s, WriteQuit) == Some(s2)
    ensures s.hand.Idle? && s.ring == [] && s.terminated && !s.awaiting
    ensures s2 == s.(hand := Quitted, sin := s2.sin, requests := s.requests + [Request(QuitHeader(), "")])
  {
    hide EncHeader, QuitHeader;
  }

  lemma StopIs(c: Config, s: State, s2: State)
    requires Step(c, s, StopWatcher) == Some(s2)
    ensures s.asked && s.started && !s.stopped && s.todo == [] && s2 == s.(stopped := true)
  {
  }

  lemma TerminateIs(c: Config, s: State, s2: State)
    requires Step(c, s, TerminateRing) == Some(s2)
    ensures s.stopped && !s.terminated && s2 == s.(terminated := true)
  {
  }

  /** The response consumer's step touches its own stream and marks, and sends a date only when no scan holds
      the mutex. */
  ghost predicate ReadForm(s: State, s2: State)
  {
    && s2 == s.(cin := s2.cin, sin := s2.sin, pending := s2.pending, reader := s2.reader, eaten := s2.eaten,
                awaiting := s2.awaiting, done := s2.done)
    && !s.reader.Handshake? && !s2.reader.Handshake?
    && ((s.eaten.Nothing? && s2.eaten.Greeted? && s2.done == s.done) || (s2.eaten.Nothing? && s.done != [] && s2.done == s.done[1..]))
    && (s2.awaiting == s.awaiting || (!s.scanning && !s2.awaiting))
  }

  lemma ReadCases(c: Config, s: State, s2: State)
    requires Inv(c, s) && StepReadResponse(s) == Some(s2)
    ensures ReadForm(s, s2)
  {
    hide *;
    Open(c, s);
    ReadEnabled(s);
    if s.eaten.Nothing? {
      DownReadGreeting(s.cin, s.phase, s.done);
      DownPhase(s.cin, s.phase, s.done, s.eaten);
      if s.done != [] && s.done[0].request.head.kind == QUIT {
        FinishForm(s, s2, 0);
      } else {
        GreetingNext(c, s);
        MarkForm(s, s2, DecResponse(s.cin).value.0);
      }
    } else {
      DownReadEnd(s.cin, s.phase, s.done, s.eaten);
      EndStatus(s.done[0].answer.ok);
      EndForm(s, s2, DecResponse(s.cin).value.0, DecResponse(s.cin).value.1);
    }
  }

  lemma FinishForm(s: State, s2: State, i: int)
    requires StepReadResponse(s) == Some(s2) && DecResponse(s.cin).Got? && DecResponse(s.cin).value == (i, FINISH)
    requires s.reader.Listening? && s.done != []
    ensures ReadForm(s, s2)
  {
    hide DecResponse, StepReadResponse, Answered;
    ReadFinishIs(s, s2, i);
  }

  lemma MarkForm(s: State, s2: State, i: int)
    requires StepReadResponse(s) == Some(s2) && DecResponse(s.cin).Got? && DecResponse(s.cin).value == (i, RECEIVED)
    requires s.reader.Listening? && s.eaten.Nothing? && i in s.pending && At(s.pending, i) == s.pending[i]
    ensures ReadForm(s, s2)
  {
    hide DecResponse, StepReadResponse, Answered, At, EncDate, Send;
    if At(s.pending, i).action.Restoration? { ReadRestoreIs(s, s2, i); } else { ReadMarkIs(s, s2, i); }
  }

  lemma EndStatus(ok: bool)
    ensures (if ok then COMPLETED else ERROR) in {COMPLETED, ERROR}
  {
  }

  lemma EndForm(s: State, s2: State, i: int, st: int)
    requires StepReadResponse(s) == Some(s2) && DecResponse(s.cin).Got? && DecResponse(s.cin).value == (i, st)
    requires s.reader.Listening? && s.done != [] && st in {COMPLETED, ERROR}
    ensures ReadForm(s, s2)
  {
    hide DecResponse, StepReadResponse, Answered;
    ReadEndIs(s, s2, i, st);
  }

  lemma ReadFinishIs(s: State, s2: State, i: int)
    requires StepReadResponse(s) == Some(s2) && DecResponse(s.cin).Got? && DecResponse(s.cin).value == (i, FINISH) && s.done != []
    ensures s2 == s.(cin := DecResponse(s.cin).next, pending := Answered(s.pending, i, FINISH), reader := Finished,
                     eaten := Nothing, done := s.done[1..])
  {
    hide DecResponse, EncDate, Answered;
    Statuses();
    ReadOtherIs(s, s2, i, FINISH);
  }

  lemma FetchKeeps(s: State, s2: State)
    requires StepFetch(s) == Some(s2)
    ensures s2 == s.(cin := s2.cin, reader := Listening, eaten := Fetched, pending := s2.pending, restored := s2.restored)
  {
    hide DecData, Build, Answered;
  }

  /** The server's first step: the header is taken, and quit ends the server. */
  ghost predicate HeadForm(s: State, s2: State)
  {
    && s.phase.Waiting? && s.requests != [] && !s.reader.Handshake?
    && s2 == s.(sin := s2.sin, cin := s2.cin, phase := s2.phase, done := s2.done, requests := s2.requests)
    && ((s2.phase.Running? && s2.done == s.done && s2.requests == s.requests) ||
        (s2.phase.Closed? && |s2.done| == |s.done| + 1 && |s2.requests| == |s.requests| - 1))
  }

  lemma HeadCases(c: Config, s: State, s2: State)
    requires Inv(c, s) && StepServeHead(s) == Some(s2)
    ensures HeadForm(s, s2)
  {
    hide *;
    Open(c, s);
    ServeHeadEnabled(s);
    UpServeHead(s.sin, s.requests, s.hand.Body? || s.awaiting);
    NotFresh(c, s);
    if s.requests[0].head.kind == QUIT { QuitForm(s, s2); } else { RunForm(s, s2); }
  }

  lemma QuitForm(s: State, s2: State)
    requires StepServeHead(s) == Some(s2) && s.requests != [] && s.phase.Waiting? && !s.reader.Handshake?
    requires DecHeader(s.sin).Got? && DecHeader(s.sin).value.kind == QUIT
    ensures HeadForm(s, s2)
  {
    hide StepServeHead, DecHeader;
    HeadQuitIs(s, s2);
  }

  lemma RunForm(s: State, s2: State)
    requires StepServeHead(s) == Some(s2) && s.requests != [] && s.phase.Waiting? && !s.reader.Handshake?
    requires DecHeader(s.sin).Got? && DecHeader(s.sin).value.kind != QUIT
    ensures HeadForm(s, s2)
  {
    hide StepServeHead, DecHeader;
    HeadRunIs(s, s2);
  }

  lemma HeadQuitIs(s: State, s2: State)
    requires StepServeHead(s) == Some(s2) && s.requests != [] && DecHeader(s.sin).Got? && DecHeader(s.sin).value.kind == QUIT
    ensures s2 == s.(sin := s2.sin, cin := s2.cin, phase := Closed, done := s2.done, requests := s.requests[1..])
    ensures |s2.done| == |s.done| + 1
  {
    hide *;
    ServeHeadIs(s, s2);
    MovedOn(s.done, s.requests, Answer(QUIT, 0, true, []), |s.log|, false);
  }

  lemma HeadRunIs(s: State, s2: State)
    requires StepServeHead(s) == Some(s2) && DecHeader(s.sin).Got? && DecHeader(s.sin).value.kind != QUIT
    ensures s2 == s.(sin := s2.sin, cin := s2.cin, phase := s2.phase) && s2.phase.Running?
  {
    hide *;
    ServeHeadIs(s, s2);
  }

  lemma TailCases(c: Config, s: State, s2: State, engine: bool)
    requires Inv(c, s) && StepServeTail(c, s, engine) == Some(s2)
    ensures s.phase.Running? && s2.phase.Waiting? && s.requests != [] && !s.reader.Handshake?
    ensures |s2.done| == |s.done| + 1 && |s2.requests| == |s.requests| - 1
    ensures s2 == s.(sin := s2.sin, cin := s2.cin, phase := s2.phase, table := s2.table, log := s2.log, lost := s2.lost,
                     done := s2.done, requests := s2.requests)
  {
    hide *;
    Open(c, s);
    var d, more := ServedOne(c, s, s2, engine);
    NotFresh(c, s);
  }

  // ----- the bytes of an action -----

  /** The two steps of a change write, together, the bytes send_action writes: its request. */
  lemma ChangeSteps(c: Config, s: State, s1: State, s2: State, s3: State, mt: int, pm: int)
    requires s.hand.Added? && s.hand.action.Change? && s.hand.action.kind != RESTORE && StepWriteHeader(c, s, mt, pm) == Some(s1)
    ensures var r := RequestFor(c.main, s.tree, s.hand.action, s.hand.index, mt, pm);
            && r.Some? && s1.requests == s.requests + [r.value]
            && (s1.hand.Body? <==> s.hand.action.kind == READ_FILE)
            && (!s1.hand.Body? ==> s1.sin.net == s.sin.net + EncRequest(r.value))
            && (s1.hand.Body? && s2.hand == s1.hand && s2.tree == s.tree ==> Step(c, s2, WriteBody).Some?)
            && (s1.hand.Body? && s2.hand == s1.hand && s2.tree == s.tree && Step(c, s2, WriteBody) == Some(s3) ==>
                  && s.sin.net <= s1.sin.net && s2.sin.net <= s3.sin.net
                  && s1.sin.net[|s.sin.net|..] + s3.sin.net[|s2.sin.net|..] == EncRequest(r.value))
  {
    hide *;
    WriteHeaderIs(c, s, s1, mt, pm);
    var a, r := s.hand.action, RequestFor(c.main, s.tree, s.hand.action, s.hand.index, mt, pm).value;
    ChangeParts(c.main, s.tree, a, s.hand.index, mt, pm);
    Appended(s.sin, EncHeader(r.head));
    if s1.hand.Body? && s2.hand == s1.hand && s2.tree == s.tree {
      BodyWrites(c, s2);
      Appended(s2.sin, EncBody(r.tail));
    }
  }

  lemma Appended(s: Stream, b: string)
    ensures Send(s, b).net == s.net + b && s.net <= Send(s, b).net && Send(s, b).net[|s.net|..] == b
  {
  }

  lemma ChangeParts(main: string, t: Tree, a: Action, i: int, mt: int, pm: int)
    requires a.Change? && a.kind != RESTORE && RequestFor(main, t, a, i, mt, pm).Some?
    ensures var r := RequestFor(main, t, a, i, mt, pm).value;
            && r.head.kind == a.kind
            && (a.kind == READ_FILE ==> a.path in t && t[a.path].Plain? && r.tail == t[a.path].content)
            && EncRequest(r) == EncHeader(r.head) + (if a.kind == READ_FILE then EncBody(r.tail) else "")
            && (a.kind != READ_FILE ==> EncRequest(r) == EncHeader(r.head))
  {
    hide EncHeader, EncBody, EncDate, CleanPath, ToString;
  }

  lemma BodyWrites(c: Config, s: State)
    requires s.hand.Body? && s.hand.path in s.tree && s.tree[s.hand.path].Plain?
    ensures Step(c, s, WriteBody).Some?
    ensures Step(c, s, WriteBody).value.sin == Send(s.sin, EncBody(s.tree[s.hand.path].content))
  {
    hide EncBody;
  }

  /** The header of a restore and the date its received calls for are, together, its request. */
  lemma RestorationSteps(c: Config, s: State, s1: State, s2: State, s3: State, mt: int, pm: int)
    requires s.hand.Added? && s.hand.action.Restoration? && StepWriteHeader(c, s, mt, pm) == Some(s1)
    requires s.hand.index in s2.pending && s2.pending[s.hand.index].action == s.hand.action
    requires DecResponse(s2.cin).Got? && DecResponse(s2.cin).value == (s.hand.index, RECEIVED) && StepReadResponse(s2) == Some(s3)
    ensures var r := RequestFor(c.main, s.tree, s.hand.action, s.hand.index, mt, pm);
            && r.Some? && s1.requests == s.requests + [r.value]
            && s.sin.net <= s1.sin.net && s2.sin.net <= s3.sin.net
            && s1.sin.net[|s.sin.net|..] + s3.sin.net[|s2.sin.net|..] == EncRequest(r.value)
  {
    hide *;
    WriteHeaderIs(c, s, s1, mt, pm);
    var r := RequestFor(c.main, s.tree, s.hand.action, s.hand.index, mt, pm).value;
    RestorationParts(c.main, s.tree, s.hand.action, s.hand.index, mt, pm);
    Appended(s.sin, EncHeader(r.head));
    ReadRestoreIs(s2, s3, s.hand.index);
    Appended(s2.sin, EncDate(r.tail));
  }

  lemma RestorationParts(main: string, t: Tree, a: Action, i: int, mt: int, pm: int)
    requires a.Restoration? && RequestFor(main, t, a, i, mt, pm).Some?
    ensures var r := RequestFor(main, t, a, i, mt, pm).value;
            r.tail == a.date && EncRequest(r) == EncHeader(r.head) + EncDate(a.date)
  {
    hide EncHeader, EncBody, EncDate;
  }
}
