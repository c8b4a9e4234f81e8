/** What the two TCP directions hold, byte for byte, in terms of the requests and answers under way. */
module Channels {
  import opened Text
  import opened Streams
  import opened Wire
  import opened Handler
  import opened System

  // ----- client to server -----

  /** The bytes written for rs; open means that the last request's tail is still to come. */
  function WrittenUp(rs: seq<Request>, open: bool): string
  {
    if rs == [] then ""
    else if open then EncRequests(rs[..|rs| - 1]) + EncHeader(rs[|rs| - 1].head)
    else EncRequests(rs)
  }

  /** What the server has consumed of the first of them. */
  function Consumed(phase: Phase): string { if phase.Running? then EncHeader(phase.head) else "" }

  ghost predicate UpOk(sin: Stream, phase: Phase, rs: seq<Request>, open: bool)
  {
    && AllOk(rs)
    && (open ==> rs != [] && HasTail(rs[|rs| - 1].head.kind))
    && (phase.Running? ==> rs != [] && phase.head == rs[0].head && phase.head.kind != QUIT && sin.buf == "")
    && (phase.Closed? ==> rs == [])
    && Boundary(sin)
    && Consumed(phase) + sin.net == WrittenUp(rs, open)
  }

  /** Everything written for a non-empty list starts with the first header; after its tail comes what is
      written for the others. */
  lemma WrittenFirst(rs: seq<Request>, open: bool)
    requires rs != [] && (open ==> HasTail(rs[|rs| - 1].head.kind))
    ensures WrittenUp(rs, open) ==
            if open && |rs| == 1 then EncHeader(rs[0].head)
            else EncHeader(rs[0].head) + (EncTail(rs[0].head.kind, rs[0].tail) + WrittenUp(rs[1..], open))
  {
    hide EncHeader, EncTail;
    var n := |rs| - 1;
    if open && n == 0 {
      assert rs[..0] == [];
      assert "" + EncHeader(rs[0].head) == EncHeader(rs[0].head);
    } else if open {
      assert rs[..n][0] == rs[0] && rs[..n][1..] == rs[1..][..n - 1] && rs[1..][n - 1] == rs[n];
      var mid := EncRequests(rs[1..][..n - 1]);
      assert EncRequests(rs[..n]) == EncRequest(rs[0]) + mid;
      assert WrittenUp(rs[1..], open) == mid + EncHeader(rs[n].head);
      assert (EncHeader(rs[0].head) + EncTail(rs[0].head.kind, rs[0].tail) + mid) + EncHeader(rs[n].head) ==
             EncHeader(rs[0].head) + (EncTail(rs[0].head.kind, rs[0].tail) + (mid + EncHeader(rs[n].head)));
    } else {
      assert (EncHeader(rs[0].head) + EncTail(rs[0].head.kind, rs[0].tail)) + EncRequests(rs[1..]) ==
             EncHeader(rs[0].head) + (EncTail(rs[0].head.kind, rs[0].tail) + EncRequests(rs[1..]));
    }
  }

  lemma UpHeader(sin: Stream, phase: Phase, rs: seq<Request>, r: Request)
    requires UpOk(sin, phase, rs, false) && RequestOk(r) && !phase.Closed?
    ensures UpOk(Send(sin, EncHeader(r.head)), phase, rs + [r], HasTail(r.head.kind))
  {
    hide EncHeader, RequestOk, EncRequests;
    var up := rs + [r];
    assert up[..|up| - 1] == rs;
    EncRequestsSnoc(rs, r);
    EncRequestsNone();
    if !HasTail(r.head.kind) { assert EncHeader(r.head) + "" == EncHeader(r.head); }
    assert Consumed(phase) + (sin.net + EncHeader(r.head)) == (Consumed(phase) + sin.net) + EncHeader(r.head);
  }

  lemma EncRequestsNone()
    ensures EncRequests([]) == ""
  {
  }

  lemma UpTail(sin: Stream, phase: Phase, rs: seq<Request>)
    requires UpOk(sin, phase, rs, true)
    ensures UpOk(Send(sin, EncTail(rs[|rs| - 1].head.kind, rs[|rs| - 1].tail)), phase, rs, false)
  {
    hide EncHeader, RequestOk, EncTail, EncRequests;
    var n := |rs| - 1;
    var tail := EncTail(rs[n].head.kind, rs[n].tail);
    EncRequestsSnoc(rs[..n], rs[n]);
    assert rs == rs[..n] + [rs[n]];
    assert Consumed(phase) + (sin.net + tail) == (Consumed(phase) + sin.net) + tail;
    assert EncRequests(rs[..n]) + (EncHeader(rs[n].head) + tail) == (EncRequests(rs[..n]) + EncHeader(rs[n].head)) + tail;
  }

  /** A header read is the first request's header, whole; nothing to read means waiting, not failing. */
  lemma UpServeHead(sin: Stream, rs: seq<Request>, open: bool)
    requires UpOk(sin, Waiting, rs, open)
    ensures !DecHeader(sin).Broken?
    ensures DecHeader(sin).Got? <==> rs != []
    ensures rs != [] ==> DecHeader(sin).value == rs[0].head
    ensures rs != [] && rs[0].head.kind != QUIT ==> forall day :: UpOk(DecHeader(sin).next, Running(rs[0].head, day), rs, open)
    ensures rs != [] && rs[0].head.kind == QUIT && |rs| == 1 ==> UpOk(DecHeader(sin).next, Closed, [], false) && !open
  {
    hide DecHeader, EncHeader, EncTail, RequestOk, WrittenUp, EncRequests, HasTail;
    assert "" + sin.net == sin.net;
    WrittenNone(open);
    if rs == [] {
      NothingToRead(sin);
    } else {
      var k := if open && |rs| == 1 then "" else EncTail(rs[0].head.kind, rs[0].tail) + WrittenUp(rs[1..], open);
      WrittenFirst(rs, open);
      assert EncHeader(rs[0].head) + "" == EncHeader(rs[0].head);
      FirstHeaderOk(rs);
      HeaderExact(sin, rs[0].head, k);
      if rs[0].head.kind == QUIT && |rs| == 1 {
        QuitHasNoTail(rs[0]);
        assert rs[1..] == [] && "" + "" == "";
      }
    }
  }

  lemma WrittenNone(open: bool)
    ensures WrittenUp([], open) == ""
  {
  }

  lemma FirstHeaderOk(rs: seq<Request>)
    requires AllOk(rs) && rs != []
    ensures HeaderOk(rs[0].head) && RequestOk(rs[0])
  {
  }

  lemma QuitHasNoTail(r: Request)
    requires RequestOk(r) && r.head.kind == QUIT
    ensures EncTail(r.head.kind, r.tail) == "" && !HasTail(r.head.kind)
  {
  }

  lemma NothingToRead(s: Stream)
    requires s.net == ""
    ensures DecHeader(s) == Blocked && DecBody(s) == Blocked && DecDate(s) == Blocked && DecResponse(s) == Blocked && DecData(s) == Blocked
  {
    hide ExtractNumber;
    assert Transfer(s, 11) == Blocked;
  }

  /** A tail read is the first request's tail, whole. */
  lemma UpServeTail(sin: Stream, h: Header, day: string, rs: seq<Request>, open: bool)
    requires UpOk(sin, Running(h, day), rs, open)
    ensures !DecTail(sin, h.kind).Broken?
    ensures DecTail(sin, h.kind).Got? <==> !(open && |rs| == 1)
    ensures DecTail(sin, h.kind).Got? ==> DecTail(sin, h.kind).value == rs[0].tail && UpOk(DecTail(sin, h.kind).next, Waiting, rs[1..], open)
  {
    hide EncHeader, EncTail, DecTail, RequestOk;
    WrittenFirst(rs, open);
    if open && |rs| == 1 {
      assert sin.net == "" by { assert EncHeader(h) + sin.net == EncHeader(h) + ""; }
      WaitForTail(sin, h.kind);
    } else {
      var k := WrittenUp(rs[1..], open);
      SameRest(EncHeader(h), sin.net, EncTail(h.kind, rs[0].tail) + k);
      FirstHeaderOk(rs);
      TailOfRequest(rs[0]);
      TailRoundTrip(sin, h.kind, rs[0].tail, k);
      assert "" + k == k;
      if open { assert rs[1..][|rs| - 2] == rs[|rs| - 1]; }
    }
  }

  lemma TailOfRequest(r: Request)
    requires RequestOk(r)
    ensures TailOk(r.head.kind, r.tail)
  {
  }

  lemma WaitForTail(s: Stream, kind: int)
    requires s.net == "" && HasTail(kind)
    ensures DecTail(s, kind) == Blocked
  {
    NothingToRead(s);
  }

  lemma SameRest(a: string, b: string, c: string)
    requires a + b == a + c
    ensures b == c
  {
    assert (a + b)[|a|..] == b && (a + c)[|a|..] == c;
  }

  // ----- server to client -----

  function EncDone(d: Done): string
  {
    Greeting(d.request.head) + (if d.request.head.kind == QUIT then "" else Reply(d.answer))
  }

  function EncDones(ds: seq<Done>): string
    decreases ds
  {
    if ds == [] then "" else EncDone(ds[0]) + EncDones(ds[1..])
  }

  /** What the server has written for everything the client has not read off yet. */
  function WrittenDown(ds: seq<Done>, phase: Phase): string
  {
    EncDones(ds) + (if phase.Running? then Greeting(phase.head) else "")
  }

  /** What the client has read of the first answer. */
  function EatenBytes(ds: seq<Done>, phase: Phase, eaten: Eaten): string
  {
    if eaten.Nothing? then ""
    else if ds == [] then (if phase.Running? then Greeting(phase.head) else "")
    else Greeting(ds[0].request.head) +
         (if eaten.Fetched? && ds[0].answer.kind == RESTORE && ds[0].answer.ok then EncData(ds[0].answer.files) else "")
  }

  /** An answer fits its request; a restore is answered with its files. */
  ghost predicate DoneOk(d: Done)
  {
    && RequestOk(d.request) && d.answer.kind == d.request.head.kind
    && (d.request.head.kind != QUIT ==> d.answer.index == d.request.head.index)
    && (d.request.head.kind == RESTORE ==> d.answer.ok && FilesOk(d.answer.files))
    && (IsChange(d.request.head.kind) ==> (d.answer.ok <==> d.entered))
    && (d.request.head.kind == QUIT ==> d.answer.ok)
  }

  ghost predicate DonesOk(ds: seq<Done>)
  {
    && (forall i :: 0 <= i < |ds| ==> DoneOk(ds[i]))
    && (forall i :: 0 <= i < |ds| && ds[i].request.head.kind == QUIT ==> i == |ds| - 1)
  }

  /** Is the oldest unfinished request, if the client has been told of it, a restore? */
  predicate FirstIsRestore(ds: seq<Done>, phase: Phase)
  {
    if ds != [] then ds[0].request.head.kind == RESTORE else phase.Running? && phase.head.kind == RESTORE
  }

  ghost predicate DownOk(cin: Stream, phase: Phase, ds: seq<Done>, eaten: Eaten, fetching: bool)
  {
    && DonesOk(ds) && Boundary(cin)
    && (phase.Running? ==> HeaderOk(phase.head) && phase.head.kind != QUIT)
    && (!eaten.Nothing? ==> if ds == [] then phase.Running? else ds[0].request.head.kind != QUIT)
    && (eaten.Fetched? ==> ds != [] && ds[0].request.head.kind == RESTORE)
    && (fetching <==> eaten.Greeted? && FirstIsRestore(ds, phase))
    && EatenBytes(ds, phase, eaten) + cin.net == WrittenDown(ds, phase)
  }

  lemma {:induction false} EncDonesSnoc(ds: seq<Done>, d: Done)
    ensures EncDones(ds + [d]) == EncDones(ds) + EncDone(d)
    decreases ds
  {
    hide EncDone;
    if ds == [] {
      assert (ds + [d])[1..] == [] && ds + [d] == [d];
      assert EncDone(d) + "" == EncDone(d) && "" + EncDone(d) == EncDone(d);
    } else {
      assert (ds + [d])[0] == ds[0] && (ds + [d])[1..] == ds[1..] + [d];
      EncDonesSnoc(ds[1..], d);
    }
  }

  /** The server greets the request it starts on. */
  lemma DownGreet(cin: Stream, ds: seq<Done>, eaten: Eaten, fetching: bool, h: Header, day: string)
    requires DownOk(cin, Waiting, ds, eaten, fetching) && HeaderOk(h) && h.kind != QUIT
    ensures DownOk(Send(cin, Greeting(h)), Running(h, day), ds, eaten, fetching)
  {
    hide Greeting, Reply, EncData, EncDones, DonesOk, HeaderOk;
    var e := EatenBytes(ds, Waiting, eaten);
    assert EncDones(ds) + "" == EncDones(ds);
    assert e + (cin.net + Greeting(h)) == (e + cin.net) + Greeting(h);
  }

  /** The server says goodbye. */
  lemma DownQuit(cin: Stream, ds: seq<Done>, eaten: Eaten, fetching: bool, d: Done)
    requires DownOk(cin, Waiting, ds, eaten, fetching) && DoneOk(d) && d.request.head.kind == QUIT
    requires forall i :: 0 <= i < |ds| ==> ds[i].request.head.kind != QUIT
    ensures DownOk(Send(cin, Greeting(d.request.head)), Closed, ds + [d], eaten, fetching)
  {
    hide Greeting, Reply, EncData, EncDones, DoneOk;
    var e := EatenBytes(ds, Waiting, eaten);
    EncDonesSnoc(ds, d);
    EncDonesNone();
    assert EncDones(ds) + "" == EncDones(ds) && Greeting(d.request.head) + "" == Greeting(d.request.head);
    assert e + (cin.net + Greeting(d.request.head)) == (e + cin.net) + Greeting(d.request.head);
  }

  lemma EncDonesNone()
    ensures EncDones([]) == ""
  {
  }

  /** The server finishes the request it runs. */
  lemma DownReply(cin: Stream, ds: seq<Done>, eaten: Eaten, fetching: bool, d: Done, day: string)
    requires DownOk(cin, Running(d.request.head, day), ds, eaten, fetching) && DoneOk(d) && d.request.head.kind != QUIT
    requires forall i :: 0 <= i < |ds| ==> ds[i].request.head.kind != QUIT
    ensures DownOk(Send(cin, Reply(d.answer)), Waiting, ds + [d], eaten, fetching)
  {
    hide Greeting, Reply, EncData, EncDones, DoneOk;
    var e := EatenBytes(ds, Running(d.request.head, day), eaten);
    EncDonesSnoc(ds, d);
    EncDonesNone();
    assert EncDones(ds + [d]) + "" == EncDones(ds + [d]);
    assert EncDones(ds) + (Greeting(d.request.head) + Reply(d.answer)) == (EncDones(ds) + Greeting(d.request.head)) + Reply(d.answer);
    assert e + (cin.net + Reply(d.answer)) == (e + cin.net) + Reply(d.answer);
    assert Greeting(d.request.head) + "" == Greeting(d.request.head);
  }

  lemma GreetingRoundTrip(s: Stream, h: Header, k: string)
    requires Boundary(s) && HeaderOk(h) && s.net == Greeting(h) + k
    ensures DecResponse(s) == Got(if h.kind == QUIT then (0, FINISH) else (h.index, RECEIVED), Stream(k, "\n", false, false))
  {
    hide DecResponse, EncResponse;
    ResponseRoundTrip(s, if h.kind == QUIT then 0 else h.index, if h.kind == QUIT then FINISH else RECEIVED, k);
  }

  /** Nothing of the oldest answer read yet: the next response greets it. */
  lemma DownReadGreeting(cin: Stream, phase: Phase, ds: seq<Done>)
    requires DownOk(cin, phase, ds, Nothing, false)
    ensures !DecResponse(cin).Broken?
    ensures DecResponse(cin).Got? <==> ds != [] || phase.Running?
    ensures DecResponse(cin).Got? ==>
              var h := if ds != [] then ds[0].request.head else phase.head;
              if h.kind == QUIT then
                DecResponse(cin).value == (0, FINISH) &&
                (!phase.Running? ==> DownOk(DecResponse(cin).next, phase, ds[1..], Nothing, false))
              else
                DecResponse(cin).value == (h.index, RECEIVED) &&
                DownOk(DecResponse(cin).next, phase, ds, Greeted, h.kind == RESTORE)
  {
    hide Greeting, Reply, EncData, EncDones, DecResponse, RequestOk, HeaderOk, FilesOk;
    assert "" + cin.net == cin.net;
    EncDonesNone();
    if ds != [] {
      var d := ds[0];
      EncDonesFirst(ds);
      var run := if phase.Running? then Greeting(phase.head) else "";
      var k := (if d.request.head.kind == QUIT then "" else Reply(d.answer)) + EncDones(ds[1..]) + run;
      assert cin.net == Greeting(d.request.head) + k;
      OkHeader(d.request);
      GreetingRoundTrip(cin, d.request.head, k);
      assert Greeting(d.request.head) + "" == Greeting(d.request.head);
      if d.request.head.kind == QUIT {
        assert ds[1..] == [];
        assert k == "" + "" + run && "" + k == k;
      }
    } else if phase.Running? {
      assert cin.net == Greeting(phase.head) + "";
      GreetingRoundTrip(cin, phase.head, "");
      assert Greeting(phase.head) + "" == Greeting(phase.head);
    } else {
      NothingToRead(cin);
    }
  }

  lemma OkHeader(r: Request)
    requires RequestOk(r)
    ensures HeaderOk(r.head)
  {
  }

  lemma EncDonesFirst(ds: seq<Done>)
    requires ds != []
    ensures EncDones(ds) == Greeting(ds[0].request.head) +
                            (if ds[0].request.head.kind == QUIT then "" else Reply(ds[0].answer)) + EncDones(ds[1..])
  {
    hide Greeting, Reply;
  }

  /** The oldest answer read up to its end: the next response finishes it, or has not been written. */
  lemma DownReadEnd(cin: Stream, phase: Phase, ds: seq<Done>, eaten: Eaten)
    requires DownOk(cin, phase, ds, eaten, false) && !eaten.Nothing?
    ensures !DecResponse(cin).Broken?
    ensures DecResponse(cin).Got? <==> ds != []
    ensures ds != [] ==>
              && ds[0].request.head.kind != QUIT
              && DecResponse(cin).value == (ds[0].answer.index, if ds[0].answer.ok then COMPLETED else ERROR)
              && DownOk(DecResponse(cin).next, phase, ds[1..], Nothing, false)
  {
    hide Greeting, EncResponse, EncData, EncDones, DecResponse, RequestOk, HeaderOk, FilesOk;
    if ds == [] {
      EncDonesNone();
      assert "" + Greeting(phase.head) == Greeting(phase.head);
      assert cin.net == "" by { SameRest(Greeting(phase.head), cin.net, ""); assert Greeting(phase.head) + "" == Greeting(phase.head); }
      NothingToRead(cin);
    } else {
      var d := ds[0];
      EncDonesFirst(ds);
      var run := if phase.Running? then Greeting(phase.head) else "";
      var last := EncResponse(d.answer.index, if d.answer.ok then COMPLETED else ERROR);
      var data := if d.answer.kind == RESTORE && d.answer.ok then EncData(d.answer.files) else "";
      var k := EncDones(ds[1..]) + run;
      EndIsLeft(cin.net, Greeting(d.request.head), data, last, EncDones(ds[1..]), run);
      OkHeader(d.request);
      IndexFits(d.request.head);
      ResponseRoundTrip(cin, d.answer.index, if d.answer.ok then COMPLETED else ERROR, k);
      assert "" + k == k;
    }
  }

  lemma IndexFits(h: Header)
    requires HeaderOk(h)
    ensures 0 <= h.index <= INT_MAX
  {
  }

  lemma EndIsLeft(net: string, g: string, data: string, last: string, more: string, run: string)
    requires g + data + net == g + (data + last) + more + run
    ensures net == last + (more + run)
  {
    assert g + (data + last) + more + run == (g + data) + (last + (more + run));
    SameRest(g + data, net, last + (more + run));
  }

  /** A greeted restore: the data that was listed arrives whole, or has not been written. */
  lemma DownFetch(cin: Stream, phase: Phase, ds: seq<Done>)
    requires DownOk(cin, phase, ds, Greeted, true)
    ensures !DecData(cin).Broken?
    ensures DecData(cin).Got? <==> ds != []
    ensures ds != [] ==>
              DecData(cin).value == ds[0].answer.files && DownOk(DecData(cin).next, phase, ds, Fetched, false)
  {
    hide Greeting, EncResponse, EncData, EncDones, DecData, RequestOk, HeaderOk, FilesOk;
    if ds == [] {
      EncDonesNone();
      assert "" + Greeting(phase.head) == Greeting(phase.head);
      assert cin.net == "" by { SameRest(Greeting(phase.head), cin.net, ""); assert Greeting(phase.head) + "" == Greeting(phase.head); }
      NothingToRead(cin);
    } else {
      var d := ds[0];
      EncDonesFirst(ds);
      var g := Greeting(d.request.head);
      var run := if phase.Running? then Greeting(phase.head) else "";
      var last := EncResponse(d.answer.index, COMPLETED);
      var data := EncData(d.answer.files);
      var k := last + (EncDones(ds[1..]) + run);
      assert g + "" == g;
      DataIsLeft(cin.net, g, data, last, EncDones(ds[1..]), run);
      DataRoundTrip(cin, d.answer.files, k);
      assert (g + data) + k == WrittenDown(ds, phase) by {
        assert (g + data) + (last + (EncDones(ds[1..]) + run)) == g + (data + last) + EncDones(ds[1..]) + run;
      }
    }
  }

  lemma DataIsLeft(net: string, g: string, data: string, last: string, more: string, run: string)
    requires g + net == g + (data + last) + more + run
    ensures net == data + (last + (more + run))
  {
    assert g + (data + last) + more + run == g + (data + (last + (more + run)));
    SameRest(g, net, data + (last + (more + run)));
  }
}
