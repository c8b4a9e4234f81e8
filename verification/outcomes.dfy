/** What becomes of an action: answers tell the truth about the log, entries turn into errors or go away only
    for the reason that has come, and where nothing has failed nothing stays pending. */
module Outcomes {
  import opened Text
  import opened Wire
  import opened Store
  import opened Watcher
  import opened Responses
  import opened Handler
  import opened Client
  import opened System
  import opened Channels
  import opened Sync
  import opened Invariant
  import opened ConsumerSteps
  import opened ExchangeSteps
  import opened StepForms
  import opened Theorems
  import opened Progress

  // ----- answers and the log -----

  /** In every run a change that has been answered was answered completed exactly if an entry was made for it,
      and that entry stands in the log, under the name and with the row of the request. */
  lemma AnswersTell(c: Config, s0: State, ls: seq<Label>, s: State, k: nat)
    requires Reached(c, s0, ls, s) && k < |s.done| && IsChange(s.done[k].request.head.kind)
    ensures var d := s.done[k];
            && (d.answer.ok <==> d.entered)
            && (d.entered ==> d.at < |s.log| && s.log[d.at] == EntryFor(c.dg, s.log[d.at].day, d.request.head, d.request.tail))
  {
    hide *;
    RunInv(c, s0, ls, s);
    Open(c, s);
    DoneMeans(s.done, k);
    EnteredMeans(c, s.log, s.done, s.restored, k);
  }

  lemma DoneMeans(ds: seq<Done>, k: nat)
    requires DonesOk(ds) && k < |ds|
    ensures IsChange(ds[k].request.head.kind) ==> (ds[k].answer.ok <==> ds[k].entered)
  {
    hide RequestOk, FilesOk;
    assert DoneOk(ds[k]);
  }

  lemma EnteredMeans(c: Config, log: seq<Entry>, ds: seq<Done>, restored: seq<Restored>, k: nat)
    requires RestoresOk(c.dg, log, ds, restored) && k < |ds|
    ensures ds[k].entered ==>
              ds[k].at < |log| && log[ds[k].at] == EntryFor(c.dg, log[ds[k].at].day, ds[k].request.head, ds[k].request.tail)
  {
    hide EntryFor;
  }

  /** The step that answers a change: completed, and one entry in the log under the day taken with its header, or
      error, and log and table as they were. */
  lemma AnswerAndEntry(c: Config, s0: State, ls: seq<Label>, s: State, engine: bool, s2: State)
    requires Reached(c, s0, ls, s) && Step(c, s, ServeTail(engine)) == Some(s2)
    ensures s.phase.Running? && s.requests != [] && s2.done != []
    ensures var d := s2.done[|s2.done| - 1];
            && s2.done == s.done + [d] && d.request == s.requests[0] && d.at == |s.log|
            && (IsChange(d.request.head.kind) ==> (d.answer.ok <==> engine) && (d.entered <==> engine))
            && s2.log == s.log + (if d.entered then [EntryFor(c.dg, s.phase.day, d.request.head, d.request.tail)] else [])
            && (!d.entered ==> s2.table == s.table)
  {
    hide *;
    RunInv(c, s0, ls, s);
    ServerSteps(c, s, engine);
    var d, more := ServedOne(c, s, s2, engine);
  }

  // ----- entries -----

  /** What the step l can do to entry i: it becomes an error because the server said so or because the file is
      too big, and it goes because the server said completed or because the action is ignored; and whatever the
      server says of it is done. */
  ghost predicate EntryForm(s: State, l: Label, s2: State, i: int)
  {
    && (i in s2.pending && s2.pending[i].st == ERROR && !(i in s.pending && s.pending[i].st == ERROR) ==>
          || (l.RejectOversized? && s.hand.Added? && s.hand.index == i && TooBig(s.tree, s.hand.action))
          || (l.ReadResponse? && DecResponse(s.cin).Got? && DecResponse(s.cin).value == (i, ERROR)))
    && (i in s.pending && i !in s2.pending ==>
          || (l.DropIgnored? && s.hand.Added? && s.hand.index == i && s.hand.action.Change? && s.hand.action.kind == IGNORE)
          || (l.ReadResponse? && DecResponse(s.cin).Got? && DecResponse(s.cin).value == (i, COMPLETED)))
    && (l.ReadResponse? && DecResponse(s.cin).Got? && DecResponse(s.cin).value == (i, COMPLETED) ==> i !in s2.pending)
    && (l.ReadResponse? && DecResponse(s.cin).Got? && DecResponse(s.cin).value == (i, ERROR) ==>
          i in s2.pending && s2.pending[i].st == ERROR)
    && (l.DropIgnored? && s.hand.Added? && s.hand.index == i ==> i !in s2.pending)
    && (l.RejectOversized? && s.hand.Added? && s.hand.index == i ==> i in s2.pending && s2.pending[i].st == ERROR)
  }

  /** An action is lost only by the server refusing it or by its size. */
  ghost predicate LossForm(s: State, l: Label, s2: State)
  {
    s2.lost <==> s.lost || l.RejectOversized? || (l.ServeTail? && !l.engine && s.phase.Running? && IsChange(s.phase.head.kind))
  }

  lemma SameEntries(s: State, l: Label, s2: State, i: int)
    requires s2.pending == s.pending && !l.ReadResponse? && !l.DropIgnored? && !l.RejectOversized?
    ensures EntryForm(s, l, s2, i)
  {
    hide DecResponse, TooBig;
  }

  lemma SameLoss(s: State, l: Label, s2: State)
    requires s2.lost == s.lost && !l.RejectOversized? && !l.ServeTail?
    ensures LossForm(s, l, s2)
  {
  }

  /** The world, the user and the watcher leave what is pending, and whether something is lost, alone. */
  lemma OutsideIs(c: Config, s: State, l: Label, s2: State)
    requires Step(c, s, l) == Some(s2) && (l.NextDay? || l.TreeChange? || l.StartScan? || l.UserRestore? || l.UserQuit?)
    ensures s2 == s.(day := s2.day, tree := s2.tree, index := s2.index, todo := s2.todo, scanning := s2.scanning, seen := s2.seen,
                     ring := s2.ring, pushed := s2.pushed, asked := s2.asked)
  {
    hide Le, TreeOk, Quiet, IsDiff, MtimeChanged, Mtimes, Honest, DateOk;
  }

  lemma ClientForms(c: Config, s: State, l: Label, s2: State, i: int)
    requires Step(c, s, l) == Some(s2)
    requires l.NextDay? || l.TreeChange? || l.StartScan? || l.UserRestore? || l.UserQuit? || l.PushEvent? || l.Pop?
    ensures EntryForm(s, l, s2, i) && LossForm(s, l, s2)
  {
    hide *;
    match l
    case PushEvent => PushIs(c, s, s2); SameEntries(s, l, s2, i); SameLoss(s, l, s2);
    case Pop => PopIs(c, s, s2); SameEntries(s, l, s2, i); SameLoss(s, l, s2);
    case _ => OutsideIs(c, s, l, s2); SameEntries(s, l, s2, i); SameLoss(s, l, s2);
  }

  lemma EndForms(c: Config, s: State, l: Label, s2: State, i: int)
    requires Step(c, s, l) == Some(s2) && (l.WriteBody? || l.WriteQuit? || l.StopWatcher? || l.TerminateRing?)
    ensures EntryForm(s, l, s2, i) && LossForm(s, l, s2)
  {
    hide *;
    match l
    case WriteBody => BodyIs(c, s, s2); SameEntries(s, l, s2, i); SameLoss(s, l, s2);
    case WriteQuit => QuitIs(c, s, s2); SameEntries(s, l, s2, i); SameLoss(s, l, s2);
    case StopWatcher => StopIs(c, s, s2); SameEntries(s, l, s2, i); SameLoss(s, l, s2);
    case TerminateRing => TerminateIs(c, s, s2); SameEntries(s, l, s2, i); SameLoss(s, l, s2);
  }

  lemma HandForms(c: Config, s: State, l: Label, s2: State, i: int)
    requires Inv(c, s) && Step(c, s, l) == Some(s2) && (l.AddPending? || l.DropIgnored? || l.RejectOversized?)
    ensures EntryForm(s, l, s2, i) && LossForm(s, l, s2)
  {
    hide *;
    PendingBelow(c, s);
    match l
    case AddPending => AddIs(c, s, s2); AddedForm(s, s2, i); SameLoss(s, l, s2);
    case DropIgnored => DropIs(c, s, s2); DroppedForm(s, s2, i); SameLoss(s, l, s2);
    case RejectOversized => RejectIs(c, s, s2); RejectedForm(s, s2, i);
  }

  lemma AddedForm(s: State, s2: State, i: int)
    requires s.hand.Holding? && s2.pending == s.pending[s.next := Pending(s.hand.action, SENT)]
    ensures EntryForm(s, AddPending, s2, i)
  {
    hide DecResponse, TooBig;
  }

  lemma DroppedForm(s: State, s2: State, i: int)
    requires s.hand.Added? && s.hand.action.Change? && s.hand.action.kind == IGNORE
    requires s2.pending == Answered(s.pending, s.hand.index, COMPLETED)
    ensures EntryForm(s, DropIgnored, s2, i)
  {
    hide DecResponse, TooBig;
  }

  lemma RejectedForm(s: State, s2: State, i: int)
    requires s.hand.Added? && TooBig(s.tree, s.hand.action) && s2.lost
    requires s2.pending == Answered(s.pending, s.hand.index, ERROR)
    ensures EntryForm(s, RejectOversized, s2, i) && LossForm(s, RejectOversized, s2)
  {
    hide DecResponse, TooBig;
  }

  lemma LinkForms(c: Config, s: State, l: Label, s2: State, i: int)
    requires Inv(c, s) && Step(c, s, l) == Some(s2)
    requires l.ReadInitialStatus? || l.StartUp? || l.WriteHeader? || l.ServeHead? || l.ServeTail?
    ensures EntryForm(s, l, s2, i) && LossForm(s, l, s2)
  {
    hide *;
    match l
    case ReadInitialStatus => AtHandshake(c, s, s2); Open(c, s); InitialStatusIs(c, s); SameEntries(s, l, s2, i); SameLoss(s, l, s2);
    case StartUp(es) => StartUpIs(c, s, es, s2); SameEntries(s, l, s2, i); SameLoss(s, l, s2);
    case WriteHeader(mt, pm) =>
      HeaderStep(c, s, mt, pm); WriteHeaderIs(c, s, s2, mt, pm); SameEntries(s, l, s2, i); SameLoss(s, l, s2);
    case ServeHead => ServerSteps(c, s, true); HeadCases(c, s, s2); HeadMeans(s, s2); SameEntries(s, l, s2, i); SameLoss(s, l, s2);
    case ServeTail(engine) =>
      ServerSteps(c, s, engine);
      var d, more := ServedOne(c, s, s2, engine);
      SameEntries(s, l, s2, i);
      ServedLoss(s, s2, engine);
  }

  lemma ServedLoss(s: State, s2: State, engine: bool)
    requires s.phase.Running? && s.requests != [] && s.phase.head == s.requests[0].head
    requires s2.lost == (s.lost || (IsChange(s.requests[0].head.kind) && !engine))
    ensures LossForm(s, ServeTail(engine), s2)
  {
  }

  lemma ReadForms(c: Config, s: State, s2: State, i: int)
    requires Inv(c, s) && StepReadResponse(s) == Some(s2)
    ensures EntryForm(s, ReadResponse, s2, i) && LossForm(s, ReadResponse, s2)
  {
    hide *;
    Open(c, s);
    ReadEnabled(s);
    ReadLoss(c, s, s2);
    if s.eaten.Nothing? {
      DownReadGreeting(s.cin, s.phase, s.done);
      DownPhase(s.cin, s.phase, s.done, s.eaten);
      if s.done != [] && s.done[0].request.head.kind == QUIT {
        FinishForms(s, s2, 0, i);
      } else {
        GreetingNext(c, s);
        MarkForms(s, s2, DecResponse(s.cin).value.0, i);
      }
    } else {
      DownReadEnd(s.cin, s.phase, s.done, s.eaten);
      EndStatus(s.done[0].answer.ok);
      EndingForms(s, s2, DecResponse(s.cin).value.0, DecResponse(s.cin).value.1, i);
    }
  }

  lemma ReadLoss(c: Config, s: State, s2: State)
    requires Inv(c, s) && StepReadResponse(s) == Some(s2)
    ensures LossForm(s, ReadResponse, s2)
  {
    hide *;
    ReadCases(c, s, s2);
    ReadMeans(s, s2);
    SameLoss(s, ReadResponse, s2);
  }

  lemma FinishForms(s: State, s2: State, j: int, i: int)
    requires StepReadResponse(s) == Some(s2) && DecResponse(s.cin).Got? && DecResponse(s.cin).value == (j, FINISH) && s.done != []
    ensures EntryForm(s, ReadResponse, s2, i)
  {
    hide DecResponse, TooBig, StepReadResponse;
    ReadFinishIs(s, s2, j);
  }

  lemma MarkForms(s: State, s2: State, j: int, i: int)
    requires StepReadResponse(s) == Some(s2) && DecResponse(s.cin).Got? && DecResponse(s.cin).value == (j, RECEIVED)
    requires j in s.pending && At(s.pending, j) == s.pending[j]
    ensures EntryForm(s, ReadResponse, s2, i)
  {
    hide DecResponse, TooBig, StepReadResponse, EncDate, Send;
    if At(s.pending, j).action.Restoration? { ReadRestoreIs(s, s2, j); } else { ReadMarkIs(s, s2, j); }
  }

  lemma EndingForms(s: State, s2: State, j: int, st: int, i: int)
    requires StepReadResponse(s) == Some(s2) && DecResponse(s.cin).Got? && DecResponse(s.cin).value == (j, st)
    requires s.done != [] && st in {COMPLETED, ERROR}
    ensures EntryForm(s, ReadResponse, s2, i)
  {
    hide DecResponse, TooBig, StepReadResponse;
    ReadEndIs(s, s2, j, st);
  }

  lemma FetchForms(c: Config, s: State, s2: State, i: int)
    requires Inv(c, s) && StepFetch(s) == Some(s2)
    ensures EntryForm(s, FetchRestore, s2, i) && LossForm(s, FetchRestore, s2)
  {
    hide *;
    Open(c, s);
    FetchEnabled(s);
    FetchingIsGreeted(s.cin, s.phase, s.done, s.eaten);
    DownFetch(s.cin, s.phase, s.done);
    FlightFirst(s.done, s.requests);
    FetchingFirst(s.reader, Flight(s.done, s.requests), s.phase, s.hand);
    MarkSent(s.eaten, s.reader);
    FirstEntry(s.pending, s.next, Flight(s.done, s.requests), s.hand, SENT);
    FetchIs(s, s2);
    FetchedForm(s, s2, i);
    SameLoss(s, FetchRestore, s2);
  }

  lemma FetchedForm(s: State, s2: State, i: int)
    requires s.reader.Fetching? && s.reader.index in s.pending && s.pending[s.reader.index].st == SENT
    requires s2.pending == Answered(s.pending, s.reader.index, RECEIVED)
    ensures EntryForm(s, FetchRestore, s2, i)
  {
    hide DecResponse, TooBig;
  }

  lemma AllForms(c: Config, s: State, l: Label, s2: State, i: int)
    requires Inv(c, s) && Step(c, s, l) == Some(s2)
    ensures EntryForm(s, l, s2, i) && LossForm(s, l, s2)
  {
    hide *;
    match l
    case ReadResponse => ReaderSteps(c, s); ReadForms(c, s, s2, i);
    case FetchRestore => ReaderSteps(c, s); FetchForms(c, s, s2, i);
    case AddPending => HandForms(c, s, l, s2, i);
    case DropIgnored => HandForms(c, s, l, s2, i);
    case RejectOversized => HandForms(c, s, l, s2, i);
    case ReadInitialStatus => LinkForms(c, s, l, s2, i);
    case StartUp(_) => LinkForms(c, s, l, s2, i);
    case WriteHeader(_, _) => LinkForms(c, s, l, s2, i);
    case ServeHead => LinkForms(c, s, l, s2, i);
    case ServeTail(_) => LinkForms(c, s, l, s2, i);
    case WriteBody => EndForms(c, s, l, s2, i);
    case WriteQuit => EndForms(c, s, l, s2, i);
    case StopWatcher => EndForms(c, s, l, s2, i);
    case TerminateRing => EndForms(c, s, l, s2, i);
    case _ => ClientForms(c, s, l, s2, i);
  }

  /** Why an entry becomes an error or goes away, in every run. */
  lemma PendingCauses(c: Config, s0: State, ls: seq<Label>, s: State, l: Label, s2: State, i: int)
    requires Reached(c, s0, ls, s) && Step(c, s, l) == Some(s2)
    ensures EntryForm(s, l, s2, i)
  {
    hide *;
    RunInv(c, s0, ls, s);
    AllForms(c, s, l, s2, i);
  }

  // ----- nothing failed, nothing pending -----

  /** No file was oversized and no statement failed. */
  ghost predicate Clean(ls: seq<Label>)
  {
    forall i :: 0 <= i < |ls| ==> !ls[i].RejectOversized? && ls[i] != ServeTail(false)
  }

  lemma {:induction false} CleanLosesNothing(c: Config, s0: State, ls: seq<Label>, s: State)
    requires Reached(c, s0, ls, s) && Clean(ls)
    ensures !s.lost
    decreases ls
  {
    hide *;
    ReachedMeans(c, s0, ls, s);
    if ls == [] {
      RunNothing(c, s0);
      NothingLostYet(c, s0);
    } else {
      var n := |ls| - 1;
      RunLast(c, s0, ls);
      var before := Run(c, s0, ls[..n]).value;
      IsReached(c, s0, ls[..n], before);
      CleanFront(ls);
      CleanLosesNothing(c, s0, ls[..n], before);
      RunInv(c, s0, ls[..n], before);
      AllForms(c, before, ls[n], s, 0);
      CleanStep(before, ls[n], s);
    }
  }

  lemma ReachedMeans(c: Config, s0: State, ls: seq<Label>, s: State)
    requires Reached(c, s0, ls, s)
    ensures Initial(c, s0) && Run(c, s0, ls) == Some(s)
  {
    hide Initial, Run;
  }

  lemma IsReached(c: Config, s0: State, ls: seq<Label>, s: State)
    requires Initial(c, s0) && Run(c, s0, ls) == Some(s)
    ensures Reached(c, s0, ls, s)
  {
    hide Initial, Run;
  }

  lemma NothingLostYet(c: Config, s: State)
    requires Initial(c, s)
    ensures !s.lost
  {
  }

  lemma CleanFront(ls: seq<Label>)
    requires Clean(ls) && ls != []
    ensures Clean(ls[..|ls| - 1]) && !ls[|ls| - 1].RejectOversized? && ls[|ls| - 1] != ServeTail(false)
  {
  }

  lemma CleanStep(s: State, l: Label, s2: State)
    requires LossForm(s, l, s2) && !s.lost && !l.RejectOversized? && l != ServeTail(false)
    ensures !s2.lost
  {
  }

  /** A run in which no file was oversized and no statement failed, once settled, has nothing pending at all, and
      the server's view is the folder last scanned. */
  lemma CleanSettles(c: Config, s0: State, ls: seq<Label>, s: State)
    requires Reached(c, s0, ls, s) && Clean(ls) && Settled(s)
    ensures s.pending == map[]
    ensures ServerView(c, s.table) == TreeView(c.dg, s.seen)
  {
    hide *;
    RunInv(c, s0, ls, s);
    CleanLosesNothing(c, s0, ls, s);
    Open(c, s);
    SettledPending(c, s);
    NoErrors(s.pending, s.done);
    QuietView(c, s);
  }

  lemma NoErrors(m: PendingMap, ds: seq<Done>)
    requires LostOk(false, m, ds) && forall i :: i in m ==> m[i].st == ERROR
    ensures m == map[]
  {
    assert forall i :: i !in m;
  }
}
