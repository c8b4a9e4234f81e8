/** The pending-action map against the requests under way. */
module PendingActions {
  import opened Text
  import opened Wire
  import opened Actions
  import opened Responses
  import opened System

  /** The action kept for a request: a restore's carries the date the request waits for. */
  predicate Fits(a: Action, r: Request)
  {
    if r.head.kind == RESTORE then a.Restoration? && a.date == r.tail else a.Change?
  }

  predicate IsQuit(r: Request) { r.head.kind == QUIT }

  /** Requests under way, oldest first, have increasing fresh indices and an entry each: the oldest with
      the given mark, the others sent; the consumer's own action has an entry marked sent; every other
      entry is an error. */
  ghost predicate PendOk(m: PendingMap, next: int, flight: seq<Request>, hand: Hand, mark: int)
  {
    && mark in {SENT, RECEIVED} && (flight == [] ==> mark == SENT) && 0 <= next <= INT_MAX + 1
    && (forall k :: 0 <= k < |flight| && !IsQuit(flight[k]) ==>
          var i := flight[k].head.index;
          0 <= i < next && i in m && m[i].st == (if k == 0 then mark else SENT) && Fits(m[i].action, flight[k]))
    && (forall j, k :: 0 <= j < k < |flight| && !IsQuit(flight[j]) && !IsQuit(flight[k]) ==>
          flight[j].head.index < flight[k].head.index)
    && (hand.Added? ==> 0 <= hand.index < next && hand.index in m && m[hand.index] == Pending(hand.action, SENT))
    && (hand.Added? ==> forall k :: 0 <= k < |flight| && !IsQuit(flight[k]) ==> flight[k].head.index < hand.index)
    && (forall i :: i in m ==> 0 <= i < next)
    && (forall i :: i in m && m[i].st != ERROR ==> UnderWay(i, flight, hand))
  }

  ghost predicate UnderWay(i: int, flight: seq<Request>, hand: Hand)
  {
    (hand.Added? && hand.index == i) || exists k :: 0 <= k < |flight| && !IsQuit(flight[k]) && flight[k].head.index == i
  }

  lemma PendAdd(m: PendingMap, next: int, flight: seq<Request>, a: Action, mark: int)
    requires PendOk(m, next, flight, Holding(a), mark) && next <= INT_MAX
    ensures PendOk(m[next := Pending(a, SENT)], next + 1, flight, Added(a, next), mark)
  {
    forall i | i in m && m[i].st != ERROR ensures UnderWay(i, flight, Added(a, next)) {
      assert UnderWay(i, flight, Holding(a));
    }
  }

  lemma PendDrop(m: PendingMap, next: int, flight: seq<Request>, a: Action, i: int, mark: int)
    requires PendOk(m, next, flight, Added(a, i), mark)
    ensures PendOk(Answered(m, i, COMPLETED), next, flight, Idle, mark)
    ensures PendOk(Answered(m, i, ERROR), next, flight, Idle, mark)
  {
    forall j | j in m && m[j].st != ERROR && j != i ensures UnderWay(j, flight, Idle) {
      assert UnderWay(j, flight, Added(a, i));
    }
  }

  lemma PendWrite(m: PendingMap, next: int, flight: seq<Request>, a: Action, i: int, mark: int, r: Request, hand: Hand)
    requires PendOk(m, next, flight, Added(a, i), mark) && !hand.Added?
    requires r.head.index == i && !IsQuit(r) && Fits(a, r)
    ensures PendOk(m, next, flight + [r], hand, mark)
  {
    var f := flight + [r];
    forall j | j in m && m[j].st != ERROR ensures UnderWay(j, f, hand) {
      assert UnderWay(j, flight, Added(a, i));
      if j == i {
        assert f[|flight|] == r;
      } else {
        var k :| 0 <= k < |flight| && !IsQuit(flight[k]) && flight[k].head.index == j;
        assert f[k] == flight[k];
      }
    }
  }

  lemma PendQuit(m: PendingMap, next: int, flight: seq<Request>, mark: int, r: Request)
    requires PendOk(m, next, flight, Idle, mark) && IsQuit(r)
    ensures PendOk(m, next, flight + [r], Quitted, mark)
  {
    var f := flight + [r];
    forall j | j in m && m[j].st != ERROR ensures UnderWay(j, f, Quitted) {
      assert UnderWay(j, flight, Idle);
      var k :| 0 <= k < |flight| && !IsQuit(flight[k]) && flight[k].head.index == j;
      assert f[k] == flight[k];
    }
  }

  lemma PendHand(m: PendingMap, next: int, flight: seq<Request>, hand: Hand, hand2: Hand, mark: int)
    requires PendOk(m, next, flight, hand, mark) && !hand.Added? && !hand2.Added?
    ensures PendOk(m, next, flight, hand2, mark)
  {
    forall j | j in m && m[j].st != ERROR ensures UnderWay(j, flight, hand2) {
      assert UnderWay(j, flight, hand);
    }
  }

  /** Sent becomes received. */
  lemma PendMark(m: PendingMap, next: int, flight: seq<Request>, hand: Hand)
    requires PendOk(m, next, flight, hand, SENT) && flight != [] && !IsQuit(flight[0])
    ensures PendOk(Answered(m, flight[0].head.index, RECEIVED), next, flight, hand, RECEIVED)
  {
    var i := flight[0].head.index;
    var n := Answered(m, i, RECEIVED);
    assert n == m[i := Pending(m[i].action, RECEIVED)];
    forall j | j in n && n[j].st != ERROR ensures UnderWay(j, flight, hand) {
      if j != i { assert UnderWay(j, flight, hand); }
    }
  }

  /** The oldest request ends: its entry goes away or turns into an error. */
  lemma PendFinish(m: PendingMap, next: int, flight: seq<Request>, hand: Hand, mark: int, st: int)
    requires PendOk(m, next, flight, hand, mark) && flight != [] && !IsQuit(flight[0]) && st in {COMPLETED, ERROR}
    ensures PendOk(Answered(m, flight[0].head.index, st), next, flight[1..], hand, SENT)
  {
    var i := flight[0].head.index;
    var n := Answered(m, i, st);
    forall k | 0 <= k < |flight[1..]| ensures flight[1..][k] == flight[k + 1] {}
    forall j | j in n && n[j].st != ERROR ensures UnderWay(j, flight[1..], hand) {
      assert j != i && UnderWay(j, flight, hand);
      if !(hand.Added? && hand.index == j) {
        var k :| 0 <= k < |flight| && !IsQuit(flight[k]) && flight[k].head.index == j;
        assert flight[1..][k - 1] == flight[k];
      }
    }
  }

  lemma PendGone(m: PendingMap, next: int, r: Request, hand: Hand, mark: int)
    requires PendOk(m, next, [r], hand, mark) && IsQuit(r)
    ensures PendOk(m, next, [], hand, SENT)
  {
    forall j | j in m && m[j].st != ERROR ensures UnderWay(j, [], hand) {
      assert UnderWay(j, [r], hand);
    }
  }

  /** An entry's life: it appears as sent; sent may become received or error; received may become error
      or go; sent may go only if it was never written (an ignored action); error stays. */
  ghost predicate MovesAllowed(m: PendingMap, m2: PendingMap, next: int)
  {
    forall i ::
      && (i in m2 && i !in m ==> i == next && m2[i].st == SENT)
      && (i in m && i in m2 && m[i] != m2[i] ==>
            m2[i].action == m[i].action &&
            ((m[i].st == SENT && m2[i].st in {RECEIVED, ERROR}) || (m[i].st == RECEIVED && m2[i].st == ERROR)))
      && (i in m && i !in m2 ==> m[i].st == RECEIVED || (m[i].st == SENT && m[i].action.Change? && m[i].action.kind == IGNORE))
  }
}
