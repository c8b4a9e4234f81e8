/** The bounded buffer between the watcher and input threads and the action consumer (Buffer.h).
    A method body is one section under the lock; its precondition is what cv.wait has waited for. */
module Rings {
  import opened Text

  /** The array position after i. */
  function Next(i: nat, n: nat): (r: nat)
    requires i < n
    ensures r == if i + 1 < n then i + 1 else 0
  {
    (i + 1) % n
  }

  /** The items between head and curr, oldest first. */
  function Window<T>(b: seq<T>, head: nat, curr: nat): (s: seq<T>)
    requires head <= |b| && curr <= |b|
  {
    if head <= curr then b[head..curr] else b[head..] + b[..curr]
  }

  lemma WindowLength<T>(b: seq<T>, head: nat, curr: nat)
    requires |b| >= 2 && head < |b| && curr < |b|
    ensures |Window(b, head, curr)| < |b|
    ensures Window(b, head, curr) == [] <==> head == curr
    ensures |Window(b, head, curr)| == |b| - 1 <==> head == Next(curr, |b|)
  {
  }

  lemma WindowPush<T>(b: seq<T>, head: nat, curr: nat, x: T)
    requires |b| >= 2 && head < |b| && curr < |b| && head != Next(curr, |b|)
    ensures Window(b[curr := x], head, Next(curr, |b|)) == Window(b, head, curr) + [x]
  {
    hide Next;
    var c := b[curr := x];
    if curr + 1 < |b| {
      if head <= curr {
        assert c[head..curr + 1] == b[head..curr] + [x];
      } else {
        assert c[head..] == b[head..] && c[..curr + 1] == b[..curr] + [x];
      }
    } else {
      assert c[head..] == b[head..curr] + [x];
    }
  }

  lemma WindowPop<T>(b: seq<T>, head: nat, curr: nat)
    requires |b| >= 2 && head < |b| && curr < |b| && head != curr
    ensures Window(b, head, curr) == [b[head]] + Window(b, Next(head, |b|), curr)
  {
    hide Next;
    if head < curr {
      assert b[head..curr] == [b[head]] + b[head + 1..curr];
    } else if head + 1 < |b| {
      assert b[head..] == [b[head]] + b[head + 1..];
      assert ([b[head]] + b[head + 1..]) + b[..curr] == [b[head]] + (b[head + 1..] + b[..curr]);
    } else {
      assert b[head..] == [b[head]];
      assert b[0..curr] == b[..curr];
    }
  }

  class Buffer<T(0)> {
    var buf: array<T>
    var head: nat
    var curr: nat
    var isTerminated: bool
    // everything ever pushed and popped, in order
    ghost var pushed: seq<T>
    ghost var popped: seq<T>

    ghost predicate Valid()
      reads this, buf
    {
      buf.Length >= 2 && head < buf.Length && curr < buf.Length && pushed == popped + Contents()
    }

    ghost function Contents(): seq<T>
      reads this, buf
      requires head <= buf.Length && curr <= buf.Length
    {
      Window(buf[..], head, curr)
    }

    constructor (capacity: nat)
      requires capacity >= 2
      ensures Valid() && fresh(buf) && buf.Length == capacity
      ensures Contents() == [] && pushed == [] && popped == [] && !isTerminated
    {
      buf := new T[capacity];
      head, curr, isTerminated := 0, 0, false;
      pushed, popped := [], [];
    }

    predicate Full()
      reads this, buf
      requires curr < buf.Length
    {
      head == Next(curr, buf.Length)
    }

    method Push(item: T)
      requires Valid() && !Full()
      modifies this`curr, this`pushed, buf
      ensures Valid() && buf == old(buf) && isTerminated == old(isTerminated)
      ensures Contents() == old(Contents()) + [item] && |Contents()| <= buf.Length - 1
      ensures pushed == old(pushed) + [item] && popped == old(popped)
    {
      hide Window, Next;
      WindowPush(buf[..], head, curr, item);
      ghost var before := buf[..];
      buf[curr] := item;
      assert buf[..] == before[curr := item];
      curr := Next(curr, buf.Length);
      pushed := pushed + [item];
      WindowLength(buf[..], head, curr);
    }

    method Pop() returns (r: Option<T>)
      requires Valid() && (head != curr || isTerminated)
      modifies this`head, this`popped
      ensures Valid() && pushed == old(pushed) && isTerminated == old(isTerminated)
      ensures r.None? <==> old(isTerminated) && old(Contents()) == []
      ensures r.None? ==> Contents() == [] && popped == old(popped)
      ensures r.Some? ==> old(Contents()) == [r.value] + Contents() && popped == old(popped) + [r.value]
    {
      hide Window, Next;
      WindowLength(buf[..], head, curr);
      if isTerminated && head == curr {
        return None;
      }
      WindowPop(buf[..], head, curr);
      var tmp := buf[head];
      head := Next(head, buf.Length);
      popped := popped + [tmp];
      return Some(tmp);
    }

    method Terminate()
      requires Valid()
      modifies this`isTerminated
      ensures Valid() && isTerminated && Contents() == old(Contents())
      ensures pushed == old(pushed) && popped == old(popped)
    {
      isTerminated := true;
    }
  }
}
