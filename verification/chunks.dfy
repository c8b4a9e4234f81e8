/** The chunk loops around sockets and files. */
module Chunks {
  import opened Streams

  const MAX_MSG_SIZE := 1024

  /** What a chunk loop has achieved: with got taken and left bytes to go it stands where the one-shot
      read of all size bytes stands. */
  ghost predicate OnTheWay(s: Stream, size: nat, got: string, cur: Stream, left: nat)
  {
    cur.Good() &&
    ReadBytes(s, size) ==
    match ReadBytes(cur, left)
    case Got(t, n) => Got(got + t, n)
    case Blocked => Blocked
    case Broken => Broken
  }

  lemma OnTheWayStart(s: Stream, size: nat)
    requires s.Good()
    ensures OnTheWay(s, size, "", s, size)
  {
    match ReadBytes(s, size)
    case Got(t, n) => assert "" + t == t;
    case _ =>
  }

  lemma OnTheWayStep(s: Stream, size: nat, got: string, cur: Stream, left: nat, a: nat)
    requires OnTheWay(s, size, got, cur, left) && a <= left && ReadBytes(cur, a).Got?
    ensures OnTheWay(s, size, got + ReadBytes(cur, a).value, ReadBytes(cur, a).next, left - a)
  {
    ReadBytesSplit(cur, a, left - a);
    hide ReadBytes;
    match ReadBytes(ReadBytes(cur, a).next, left - a)
    case Got(t, n) => assert got + (ReadBytes(cur, a).value + t) == (got + ReadBytes(cur, a).value) + t;
    case _ =>
  }

  lemma OnTheWayBlocked(s: Stream, size: nat, got: string, cur: Stream, left: nat, a: nat)
    requires OnTheWay(s, size, got, cur, left) && a <= left && !ReadBytes(cur, a).Got?
    ensures ReadBytes(s, size) == Blocked && ReadBytes(cur, a) == Blocked
  {
    ReadBytesNeverBroken(cur, a);
    ReadBytesNeverBroken(cur, left);
  }

  lemma OnTheWayEnd(s: Stream, size: nat, got: string, cur: Stream)
    requires OnTheWay(s, size, got, cur, 0)
    ensures ReadBytes(s, size) == Got(got, cur)
  {
    assert cur.buf + cur.net[..0] == cur.buf && cur.net[0..] == cur.net;
    assert ReadBytes(cur, 0) == Got("", cur) by { assert cur.buf[..0] == "" && cur.buf[0..] == cur.buf; }
    assert got + "" == got;
  }

  /** The receive loops of ClientHandler::action_read_file and Client::action_restore: whatever the
      size, they take what one read of the whole would take. */
  method ReceiveChunks(s: Stream, size: int) returns (r: Read<string>)
    requires s.Good()
    ensures r == ReadBytes(s, if size < 0 then 0 else size)
  {
    hide ReadBytes, OnTheWay;
    ghost var total: nat := if size < 0 then 0 else size;
    var left := size;
    var cur := s;
    var file := "";
    OnTheWayStart(s, total);
    while left > 0
      invariant left == size || 0 <= left <= size
      invariant OnTheWay(s, total, file, cur, if left < 0 then 0 else left)
    {
      var chunk := if left > MAX_MSG_SIZE then MAX_MSG_SIZE else left;
      var piece := ReadBytes(cur, chunk);
      if !piece.Got? {
        OnTheWayBlocked(s, total, file, cur, left, chunk);
        return Blocked;
      }
      OnTheWayStep(s, total, file, cur, left, chunk);
      file := file + piece.value;
      cur := piece.next;
      left := left - chunk;
    }
    OnTheWayEnd(s, total, file, cur);
    return Got(file, cur);
  }

  /** The send loop of Client::send_file, driven by the end of the file: the chunks it writes, put end
      to end, are the content. */
  method SendChunks(content: string) returns (written: string)
    ensures written == content
  {
    written := "";
    var pos := 0;
    var eof := false;
    while !eof
      invariant 0 <= pos <= |content| && written == content[..pos]
      invariant eof ==> pos == |content|
      decreases !eof, |content| - pos
    {
      var count := if |content| - pos < MAX_MSG_SIZE then |content| - pos else MAX_MSG_SIZE;
      eof := count < MAX_MSG_SIZE;
      if count == 0 {
        break;
      }
      written := written + content[pos..pos + count];
      pos := pos + count;
    }
    assert content[..|content|] == content;
  }
}
