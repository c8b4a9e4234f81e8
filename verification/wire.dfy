/** Every message of the protocol: what the sender prints, what the receiver's reads make of it, and
    the round trips. Numbers travel as zero-padded lines, texts as a length line and a line, file
    contents as a length line and raw bytes. */
module Wire {
  import opened Text
  import opened Streams

  // enum ActionType
  const READ_FILE := 0
  const CREATE_FOLDER := 1
  const DELETE_PATH := 2
  const RESTORE := 3
  const QUIT := 4
  const IGNORE := 5

  // enum ActionStatus
  const SENT := 1
  const RECEIVED := 2
  const COMPLETED := 3
  const ERROR := 4
  const FINISH := 5

  const FIELD_LIMIT := 10000000000

  function TextLines(t: string, k: string): string
  {
    Line(Format(|t|), Line(t, k))
  }

  lemma TextLinesCat(t: string, k: string, more: string)
    ensures TextLines(t, k) + more == TextLines(t, k + more)
  {
    LineCat(t, k, more);
    LineCat(Format(|t|), Line(t, k), more);
  }

  // ----- an action header -----

  datatype Header = Header(kind: int, index: int, path: string, mtime: string, perms: string)

  function HeaderLines(h: Header, k: string): string
  {
    Line(Format(h.kind), Line(Format(h.index), TextLines(h.path, TextLines(h.mtime, TextLines(h.perms, k)))))
  }

  function EncHeader(h: Header): string { HeaderLines(h, "") }

  lemma HeaderCat(h: Header, k: string)
    ensures EncHeader(h) + k == HeaderLines(h, k)
  {
    TextLinesCat(h.perms, "", k);
    TextLinesCat(h.mtime, TextLines(h.perms, ""), k);
    TextLinesCat(h.path, TextLines(h.mtime, TextLines(h.perms, "")), k);
    LineCat(Format(h.index), TextLines(h.path, TextLines(h.mtime, TextLines(h.perms, ""))), k);
    LineCat(Format(h.kind), Line(Format(h.index), TextLines(h.path, TextLines(h.mtime, TextLines(h.perms, "")))), k);
    assert "" + k == k;
  }

  /** A length line, then the text it announces. */
  function DecText(s: Stream): Read<string>
  {
    var (n, s1) :- ReadNumber(s, 0, SIZE_MAX);
    ReadText(s1, n)
  }

  function DecHeader(s: Stream): Read<Header>
  {
    var (kind, s1) :- ReadNumber(s, 0, SIZE_MAX);
    var (index, s2) :- ReadNumber(s1, INT_MIN, INT_MAX);
    var (path, s3) :- DecText(s2);
    var (mtime, s4) :- DecText(s3);
    var (perms, s5) :- DecText(s4);
    Got(Header(kind, index, path, mtime, perms), s5)
  }

  predicate HeaderFits(h: Header)
  {
    0 <= h.kind <= IGNORE && 0 <= h.index <= INT_MAX &&
    |h.path| < FIELD_LIMIT && |h.mtime| < FIELD_LIMIT && |h.perms| < FIELD_LIMIT
  }

  predicate HeaderOk(h: Header)
  {
    HeaderFits(h) && '\n' !in h.path && '\n' !in h.mtime && '\n' !in h.perms
  }

  lemma TextLinesExact(s: Stream, t: string, k: string)
    requires Boundary(s) && s.net == TextLines(t, k) && |t| < FIELD_LIMIT
    ensures '\n' !in t ==> DecText(s) == Got(t, Stream(k, "", false, false))
    ensures '\n' in t ==> !DecText(s).Got? || DecText(s).value != t
  {
    hide ReadNumber, ReadText, Format, Line;
    NumberField(s, |t|, Line(t, k), 0, SIZE_MAX);
    TextFieldExact(Stream(Line(t, k), "\n", false, false), t, k);
    if '\n' !in t { TextField(Stream(Line(t, k), "\n", false, false), t, k); }
  }

  /** The header comes back, with the buffer empty and the stream good, exactly when none of its
      texts holds a newline. */
  lemma HeaderExact(s: Stream, h: Header, k: string)
    requires Boundary(s) && s.net == EncHeader(h) + k && HeaderFits(h)
    ensures DecHeader(s) == Got(h, Stream(k, "", false, false)) <==> HeaderOk(h)
  {
    hide ReadNumber, DecText, Format, TextLines, Line, EncHeader;
    HeaderCat(h, k);
    var k5 := k;
    var k4 := TextLines(h.perms, k5);
    var k3 := TextLines(h.mtime, k4);
    var k2 := TextLines(h.path, k3);
    NumberField(s, h.kind, Line(Format(h.index), k2), 0, SIZE_MAX);
    NumberField(Stream(Line(Format(h.index), k2), "\n", false, false), h.index, k2, INT_MIN, INT_MAX);
    TextLinesExact(Stream(k2, "\n", false, false), h.path, k3);
    if '\n' !in h.path {
      TextLinesExact(Stream(k3, "", false, false), h.mtime, k4);
      if '\n' !in h.mtime {
        TextLinesExact(Stream(k4, "", false, false), h.perms, k5);
      }
    }
  }

  // ----- what follows a header -----

  /** A file: its size, then its bytes (Client::send_file). */
  function EncBody(c: string): string { Line(Format(|c|), c) }

  /** A restore date: its length, then the date (Client::action_restore). */
  function EncDate(d: string): string { TextLines(d, "") }

  function DecBody(s: Stream): Read<string>
  {
    var (n, s1) :- ReadNumber(s, INT_MIN, INT_MAX);
    var (_, s2) :- Skip(s1);
    ReadBytes(s2, if n < 0 then 0 else n)
  }

  function DecDate(s: Stream): Read<string>
  {
    var (n, s1) :- ReadNumber(s, INT_MIN, INT_MAX);
    ReadWord(s1, n)
  }

  lemma BodyRoundTrip(s: Stream, c: string, k: string)
    requires Boundary(s) && s.net == EncBody(c) + k && |c| <= INT_MAX
    ensures DecBody(s) == Got(c, Stream(k, "", false, false))
  {
    hide ReadNumber, Format, Line, ReadBytes, Skip;
    LineCat(Format(|c|), c, k);
    NumberField(s, |c|, c + k, INT_MIN, INT_MAX);
    SkipField(c + k);
    BytesField(Stream(c + k, "", false, false), c, k);
  }

  lemma DateRoundTrip(s: Stream, d: string, k: string)
    requires Boundary(s) && s.net == EncDate(d) + k && d != "" && NoSpace(d) && |d| < INT_MAX
    ensures DecDate(s) == Got(d, Stream(k, "\n", false, false))
  {
    hide ReadNumber, Format, Line, ReadWord;
    TextLinesCat(d, "", k);
    assert "" + k == k;
    NumberField(s, |d|, Line(d, k), INT_MIN, INT_MAX);
    WordField(Stream(Line(d, k), "\n", false, false), d, k);
  }

  /** A whole request: for READ_FILE tail is the file's bytes, for RESTORE the date. */
  datatype Request = Request(head: Header, tail: string)

  predicate HasTail(kind: int) { kind == READ_FILE || kind == RESTORE }

  function EncTail(kind: int, tail: string): string
  {
    if kind == READ_FILE then EncBody(tail) else if kind == RESTORE then EncDate(tail) else ""
  }

  function DecTail(s: Stream, kind: int): Read<string>
  {
    if kind == READ_FILE then DecBody(s) else if kind == RESTORE then DecDate(s) else Got("", s)
  }

  predicate TailOk(kind: int, tail: string)
  {
    && (kind == READ_FILE ==> |tail| <= INT_MAX)
    && (kind == RESTORE ==> tail != "" && |tail| < INT_MAX && forall i :: 0 <= i < |tail| ==> !Space(tail[i]))
    && (!HasTail(kind) ==> tail == "")
  }

  predicate RequestOk(r: Request) { HeaderOk(r.head) && TailOk(r.head.kind, r.tail) }

  /** The residue a request leaves: a date is read with `>>`, everything else ends in an empty buffer. */
  function Residue(kind: int): string { if kind == RESTORE then "\n" else "" }

  lemma TailRoundTrip(s: Stream, kind: int, tail: string, k: string)
    requires s.Good() && s.buf == "" && s.net == EncTail(kind, tail) + k && TailOk(kind, tail)
    ensures DecTail(s, kind) == Got(tail, Stream(k, Residue(kind), false, false))
  {
    hide DecBody, DecDate, EncBody, EncDate;
    if kind == READ_FILE {
      BodyRoundTrip(s, tail, k);
    } else if kind == RESTORE {
      DateRoundTrip(s, tail, k);
    } else {
      assert "" + k == k;
    }
  }

  // ----- a whole session, as the server reads it -----

  function EncRequest(r: Request): string { EncHeader(r.head) + EncTail(r.head.kind, r.tail) }

  function EncRequests(rs: seq<Request>): string
  {
    if rs == [] then "" else EncRequest(rs[0]) + EncRequests(rs[1..])
  }

  function DecRequest(s: Stream): Read<Request>
  {
    var (h, s1) :- DecHeader(s);
    var (t, s2) :- DecTail(s1, h.kind);
    Got(Request(h, t), s2)
  }

  function DecRequests(s: Stream, n: nat): Read<seq<Request>>
    decreases n
  {
    if n == 0 then Got([], s) else
      hide DecRequest;
      var (r, s1) :- DecRequest(s);
      var (rs, s2) :- DecRequests(s1, n - 1);
      Got([r] + rs, s2)
  }

  ghost predicate AllOk(rs: seq<Request>) { forall i :: 0 <= i < |rs| ==> RequestOk(rs[i]) }

  lemma RequestRoundTrip(s: Stream, r: Request, k: string)
    requires Boundary(s) && RequestOk(r) && s.net == EncRequest(r) + k
    ensures DecRequest(s) == Got(r, Stream(k, Residue(r.head.kind), false, false))
  {
    hide DecHeader, DecTail, EncHeader, EncTail, TailOk;
    var t := EncTail(r.head.kind, r.tail);
    assert s.net == EncHeader(r.head) + (t + k);
    HeaderExact(s, r.head, t + k);
    TailRoundTrip(Stream(t + k, "", false, false), r.head.kind, r.tail, k);
  }

  /** Whole-session round trip: every sequence of requests comes back as sent, no extraction fails or
      reaches the end of the buffer, and the session ends at a field boundary. */
  lemma {:induction false} SessionRoundTrip(s: Stream, rs: seq<Request>, k: string)
    requires Boundary(s) && AllOk(rs) && s.net == EncRequests(rs) + k
    ensures DecRequests(s, |rs|).Got?
    ensures DecRequests(s, |rs|).value == rs
    ensures DecRequests(s, |rs|).next.net == k && Boundary(DecRequests(s, |rs|).next)
    decreases rs
  {
    hide DecRequest, EncRequest, RequestOk;
    if rs == [] {
      assert "" + k == k;
    } else {
      var rest := EncRequests(rs[1..]) + k;
      assert s.net == EncRequest(rs[0]) + rest;
      RequestRoundTrip(s, rs[0], rest);
      SessionRoundTrip(Stream(rest, Residue(rs[0].head.kind), false, false), rs[1..], k);
      assert rs == [rs[0]] + rs[1..];
    }
  }

  lemma {:induction false} EncRequestsSnoc(rs: seq<Request>, r: Request)
    ensures EncRequests(rs + [r]) == EncRequests(rs) + EncRequest(r)
  {
    hide EncRequest;
    if rs == [] {
      assert [r][1..] == [];
      assert rs + [r] == [r];
      assert EncRequests([r]) == EncRequest(r) + "";
    } else {
      assert (rs + [r])[0] == rs[0] && (rs + [r])[1..] == rs[1..] + [r];
      EncRequestsSnoc(rs[1..], r);
    }
  }

  // ----- responses -----

  function EncResponse(index: int, status: int): string
  {
    Line(Format(index), Line(Format(status), ""))
  }

  function DecResponse(s: Stream): Read<(int, int)>
  {
    var (i, s1) :- ReadNumber(s, INT_MIN, INT_MAX);
    var (st, s2) :- ReadNumber(s1, INT_MIN, INT_MAX);
    Got((i, st), s2)
  }

  lemma ResponseRoundTrip(s: Stream, i: int, st: int, k: string)
    requires Boundary(s) && s.net == EncResponse(i, st) + k && 0 <= i <= INT_MAX && 0 <= st <= FINISH
    ensures DecResponse(s) == Got((i, st), Stream(k, "\n", false, false))
  {
    hide ReadNumber, Format, Line;
    LineCat(Format(st), "", k);
    LineCat(Format(i), Line(Format(st), ""), k);
    assert "" + k == k;
    NumberField(s, i, Line(Format(st), k), INT_MIN, INT_MAX);
    NumberField(Stream(Line(Format(st), k), "\n", false, false), st, k, INT_MIN, INT_MAX);
  }

  // ----- the restore stream -----

  /** struct File as it travels; size is not kept apart from the content it counts. */
  datatype File = File(name: string, mtime: int, perms: int, isDir: bool, content: string)

  function FileLines(f: File, k: string): string
  {
    TextLines(f.name, Line(Format(f.mtime), Line(Format(f.perms),
      if f.isDir then Line(Format(1), k) else Line(Format(0), Line(Format(|f.content|), f.content + k)))))
  }

  function EncFile(f: File): string { FileLines(f, "") }

  function EncFiles(fs: seq<File>): string
  {
    if fs == [] then "" else EncFile(fs[0]) + EncFiles(fs[1..])
  }

  /** Number of entries, then the entries. */
  function EncData(fs: seq<File>): string { Line(Format(|fs|), EncFiles(fs)) }

  predicate FileOk(f: File)
  {
    |f.name| < INT_MAX && '\n' !in f.name && 0 <= f.mtime <= INT_MAX && 0 <= f.perms <= INT_MAX &&
    |f.content| <= INT_MAX && (f.isDir ==> f.content == "")
  }

  function DecIntText(s: Stream): Read<string>
  {
    var (n, s1) :- ReadNumber(s, INT_MIN, INT_MAX);
    ReadText(s1, n)
  }

  function DecFile(s: Stream): Read<File>
  {
    var (name, s1) :- DecIntText(s);
    var (mtime, s2) :- ReadNumber(s1, INT_MIN, INT_MAX);
    var (perms, s3) :- ReadNumber(s2, INT_MIN, INT_MAX);
    var (dir, s4) :- ReadNumber(s3, INT_MIN, INT_MAX);
    if dir == 1 then Got(File(name, mtime, perms, true, ""), s4)
    else
      var (c, s5) :- DecBody(s4);
      Got(File(name, mtime, perms, false, c), s5)
  }

  function DecFiles(s: Stream, n: nat): Read<seq<File>>
    decreases n
  {
    if n == 0 then Got([], s) else
      hide DecFile;
      var (f, s1) :- DecFile(s);
      var (fs, s2) :- DecFiles(s1, n - 1);
      Got([f] + fs, s2)
  }

  function DecData(s: Stream): Read<seq<File>>
  {
    var (n, s1) :- ReadNumber(s, INT_MIN, INT_MAX);
    DecFiles(s1, if n < 0 then 0 else n)
  }

  lemma FileCat(f: File, k: string)
    ensures EncFile(f) + k == FileLines(f, k)
  {
    var last := if f.isDir then Line(Format(1), "") else Line(Format(0), Line(Format(|f.content|), f.content + ""));
    var lastK := if f.isDir then Line(Format(1), k) else Line(Format(0), Line(Format(|f.content|), f.content + k));
    assert last + k == lastK by {
      assert f.content + "" == f.content && "" + k == k;
      LineCat(Format(|f.content|), f.content, k);
      LineCat(Format(0), Line(Format(|f.content|), f.content), k);
      LineCat(Format(1), "", k);
    }
    LineCat(Format(f.perms), last, k);
    LineCat(Format(f.mtime), Line(Format(f.perms), last), k);
    TextLinesCat(f.name, Line(Format(f.mtime), Line(Format(f.perms), last)), k);
  }

  lemma FileRoundTrip(s: Stream, f: File, k: string)
    requires Boundary(s) && FileOk(f) && s.net == EncFile(f) + k
    ensures DecFile(s).Got? && DecFile(s).value == f
    ensures DecFile(s).next.net == k && Boundary(DecFile(s).next)
  {
    hide ReadNumber, Format, Line, ReadText, DecBody, EncFile;
    FileCat(f, k);
    var k3 := if f.isDir then Line(Format(1), k) else Line(Format(0), Line(Format(|f.content|), f.content + k));
    var k2 := Line(Format(f.perms), k3);
    var k1 := Line(Format(f.mtime), k2);
    NumberField(s, |f.name|, Line(f.name, k1), INT_MIN, INT_MAX);
    TextField(Stream(Line(f.name, k1), "\n", false, false), f.name, k1);
    NumberField(Stream(k1, "", false, false), f.mtime, k2, INT_MIN, INT_MAX);
    NumberField(Stream(k2, "\n", false, false), f.perms, k3, INT_MIN, INT_MAX);
    if f.isDir {
      NumberField(Stream(k3, "\n", false, false), 1, k, INT_MIN, INT_MAX);
    } else {
      var k4 := Line(Format(|f.content|), f.content + k);
      NumberField(Stream(k3, "\n", false, false), 0, k4, INT_MIN, INT_MAX);
      LineCat(Format(|f.content|), f.content, k);
      BodyRoundTrip(Stream(k4, "\n", false, false), f.content, k);
    }
  }

  ghost predicate FilesOk(fs: seq<File>) { |fs| <= INT_MAX && forall i :: 0 <= i < |fs| ==> FileOk(fs[i]) }

  lemma {:induction false} FilesRoundTrip(s: Stream, fs: seq<File>, k: string)
    requires Boundary(s) && FilesOk(fs) && s.net == EncFiles(fs) + k
    ensures DecFiles(s, |fs|).Got? && DecFiles(s, |fs|).value == fs
    ensures DecFiles(s, |fs|).next.net == k && Boundary(DecFiles(s, |fs|).next)
    decreases fs
  {
    hide DecFile, EncFile, FileOk;
    if fs == [] {
      assert "" + k == k;
    } else {
      var rest := EncFiles(fs[1..]) + k;
      assert s.net == EncFile(fs[0]) + rest;
      FileRoundTrip(s, fs[0], rest);
      FilesRoundTrip(DecFile(s).next, fs[1..], k);
      assert fs == [fs[0]] + fs[1..];
    }
  }

  /** Restore stream round trip: folders, empty files and files of arbitrary bytes, in any mix, come
      back with the same names, metadata, kinds and contents, and the reader stops at a boundary in
      front of whatever follows. */
  lemma DataRoundTrip(s: Stream, fs: seq<File>, k: string)
    requires Boundary(s) && FilesOk(fs) && s.net == EncData(fs) + k
    ensures DecData(s).Got? && DecData(s).value == fs
    ensures DecData(s).next.net == k && Boundary(DecData(s).next)
  {
    hide ReadNumber, Format, Line, DecFiles, EncFiles;
    LineCat(Format(|fs|), EncFiles(fs), k);
    NumberField(s, |fs|, EncFiles(fs) + k, INT_MIN, INT_MAX);
    FilesRoundTrip(Stream(EncFiles(fs) + k, "\n", false, false), fs, k);
  }

  // ----- the initial status -----

  /** Name and hash of every current path, closed by a zero length (ClientHandler::send_file_hash). */
  function EncInit(ps: seq<(string, string)>): string
  {
    if ps == [] then Line(Format(0), "")
    else TextLines(ps[0].0, TextLines(ps[0].1, EncInit(ps[1..])))
  }

  function DecInit(s: Stream): (r: Read<seq<(string, string)>>)
    decreases |s.net|
  {
    var (n, s1) :- ReadNumber(s, INT_MIN, INT_MAX);
    if n == 0 then Got([], s1) else
      var (path, s2) :- ReadText(s1, n);
      var (m, s3) :- ReadNumber(s2, INT_MIN, INT_MAX);
      var (hash, s4) :- ReadWord(s3, m);
      var (ps, s5) :- DecInit(s4);
      Got([(path, hash)] + ps, s5)
  }

  ghost predicate InitOk(ps: seq<(string, string)>)
  {
    forall i :: 0 <= i < |ps| ==>
      ps[i].0 != "" && '\n' !in ps[i].0 && |ps[i].0| < INT_MAX &&
      ps[i].1 != "" && NoSpace(ps[i].1) && |ps[i].1| < INT_MAX
  }

  lemma {:induction false} InitRoundTrip(s: Stream, ps: seq<(string, string)>, k: string)
    requires Boundary(s) && InitOk(ps) && s.net == EncInit(ps) + k
    ensures DecInit(s) == Got(ps, Stream(k, "\n", false, false))
    decreases ps
  {
    hide ReadNumber, ReadText, ReadWord, Format;
    if ps == [] {
      LineCat(Format(0), "", k);
      assert "" + k == k;
      NumberField(s, 0, k, INT_MIN, INT_MAX);
    } else {
      var p, h := ps[0].0, ps[0].1;
      var rest := EncInit(ps[1..]);
      TextLinesCat(h, rest, k);
      TextLinesCat(p, TextLines(h, rest), k);
      var k1 := TextLines(h, rest + k);
      NumberField(s, |p|, Line(p, k1), INT_MIN, INT_MAX);
      TextField(Stream(Line(p, k1), "\n", false, false), p, k1);
      NumberField(Stream(k1, "", false, false), |h|, Line(h, rest + k), INT_MIN, INT_MAX);
      WordField(Stream(Line(h, rest + k), "\n", false, false), h, rest + k);
      InitRoundTrip(Stream(rest + k, "\n", false, false), ps[1..], k);
      assert ps == [(p, h)] + ps[1..];
    }
  }

  // ----- the messages as bytes -----

  lemma Front(p: string, t: string, k: string)
    ensures p + Line(t, k) == p + t + "\n" + k
  {
  }

  /** A header on the wire, field by field; FormatShape describes the numbers. */
  lemma HeaderBytes(h: Header)
    ensures EncHeader(h) ==
              Format(h.kind) + "\n" + Format(h.index) + "\n" + Format(|h.path|) + "\n" + h.path + "\n" +
              Format(|h.mtime|) + "\n" + h.mtime + "\n" + Format(|h.perms|) + "\n" + h.perms + "\n"
  {
    hide Format, Line;
    var k2 := TextLines(h.perms, "");
    var k1 := TextLines(h.mtime, k2);
    Front("", Format(h.kind), Line(Format(h.index), TextLines(h.path, k1)));
    assert "" + Format(h.kind) == Format(h.kind) && "" + EncHeader(h) == EncHeader(h);
    var p := Format(h.kind) + "\n";
    Front(p, Format(h.index), TextLines(h.path, k1));
    p := p + Format(h.index) + "\n";
    Front(p, Format(|h.path|), Line(h.path, k1));
    p := p + Format(|h.path|) + "\n";
    Front(p, h.path, k1);
    p := p + h.path + "\n";
    Front(p, Format(|h.mtime|), Line(h.mtime, k2));
    p := p + Format(|h.mtime|) + "\n";
    Front(p, h.mtime, k2);
    p := p + h.mtime + "\n";
    Front(p, Format(|h.perms|), Line(h.perms, ""));
    p := p + Format(|h.perms|) + "\n";
    Front(p, h.perms, "");
    p := p + h.perms + "\n";
    assert p + "" == p;
  }

  /** An entry of a restore on the wire: a folder ends in a one, a file in a zero, its size and its bytes. */
  lemma FileBytes(f: File)
    ensures EncFile(f) ==
              Format(|f.name|) + "\n" + f.name + "\n" + Format(f.mtime) + "\n" + Format(f.perms) + "\n" +
              (if f.isDir then "0000000001\n" else "0000000000\n" + EncBody(f.content))
  {
    assert Format(0) == "0000000000" && Format(1) == "0000000001";
    var last := if f.isDir then Line(Format(1), "") else Line(Format(0), Line(Format(|f.content|), f.content + ""));
    assert last == if f.isDir then "0000000001\n" else "0000000000\n" + EncBody(f.content) by {
      assert f.content + "" == f.content && "0000000001" + "\n" == "0000000001\n" && "0000000000" + "\n" == "0000000000\n";
    }
    hide Format, Line;
    var k2 := Line(Format(f.mtime), Line(Format(f.perms), last));
    Front("", Format(|f.name|), Line(f.name, k2));
    assert "" + Format(|f.name|) == Format(|f.name|) && "" + EncFile(f) == EncFile(f);
    var p := Format(|f.name|) + "\n";
    Front(p, f.name, k2);
    p := p + f.name + "\n";
    Front(p, Format(f.mtime), Line(Format(f.perms), last));
    p := p + Format(f.mtime) + "\n";
    Front(p, Format(f.perms), last);
  }

  /** The first line of a header by the kind of action. */
  lemma KindLine(h: Header)
    ensures h.kind == READ_FILE ==> "0000000000" <= EncHeader(h)
    ensures h.kind == CREATE_FOLDER ==> "0000000001" <= EncHeader(h)
    ensures h.kind == DELETE_PATH ==> "0000000002" <= EncHeader(h)
    ensures h.kind == RESTORE ==> "0000000003" <= EncHeader(h)
    ensures h.kind == QUIT ==> "0000000004" <= EncHeader(h)
  {
    assert EncHeader(h)[..|Format(h.kind)|] == Format(h.kind);
    OneDigit(h.kind);
    hide EncHeader;
  }

  lemma OneDigit(n: int)
    ensures 0 <= n < 10 ==> Format(n) == "000000000" + [Digit(n)]
  {
  }

  /** A response on the wire by its status. */
  lemma ResponseBytes(i: int)
    ensures EncResponse(i, RECEIVED) == Format(i) + "\n" + "0000000002\n"
    ensures EncResponse(i, COMPLETED) == Format(i) + "\n" + "0000000003\n"
    ensures EncResponse(i, ERROR) == Format(i) + "\n" + "0000000004\n"
    ensures EncResponse(i, FINISH) == Format(i) + "\n" + "0000000005\n"
  {
    OneDigit(RECEIVED);
    OneDigit(COMPLETED);
    OneDigit(ERROR);
    OneDigit(FINISH);
    hide Format;
    StatusLine(i, RECEIVED);
    StatusLine(i, COMPLETED);
    StatusLine(i, ERROR);
    StatusLine(i, FINISH);
  }

  lemma StatusLine(i: int, st: int)
    ensures EncResponse(i, st) == Format(i) + "\n" + (Format(st) + "\n")
  {
    hide Format;
    assert Format(st) + "\n" + "" == Format(st) + "\n";
  }

  /** The initial status on the wire: name and hash of each pair, and a zero. */
  lemma InitBytes(ps: seq<(string, string)>, name: string, hash: string)
    ensures EncInit([]) == "0000000000\n"
    ensures EncInit([(name, hash)] + ps) ==
              Format(|name|) + "\n" + name + "\n" + Format(|hash|) + "\n" + hash + "\n" + EncInit(ps)
  {
    hide *;
    InitEnds();
    InitFirst(ps, name, hash);
    TextBytes("", name, TextLines(hash, EncInit(ps)));
    TextBytes(Format(|name|) + "\n" + name + "\n", hash, EncInit(ps));
    assert "" + Format(|name|) == Format(|name|) && "" + EncInit([(name, hash)] + ps) == EncInit([(name, hash)] + ps);
  }

  lemma InitEnds()
    ensures EncInit([]) == "0000000000\n"
  {
    OneDigit(0);
    hide Format;
    assert "0000000000" + "\n" + "" == "0000000000\n";
  }

  lemma InitFirst(ps: seq<(string, string)>, name: string, hash: string)
    ensures EncInit([(name, hash)] + ps) == TextLines(name, TextLines(hash, EncInit(ps)))
  {
    hide TextLines, Format;
    assert ([(name, hash)] + ps)[1..] == ps;
  }

  lemma TextBytes(p: string, t: string, k: string)
    ensures p + TextLines(t, k) == p + Format(|t|) + "\n" + t + "\n" + k
  {
    hide Format, Line;
    Front(p, Format(|t|), Line(t, k));
    Front(p + Format(|t|) + "\n", t, k);
  }
}
