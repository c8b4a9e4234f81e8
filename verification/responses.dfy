/** The map of pending actions, keyed by a fresh counter (ResponseBuffer). */
module Responses {
  import opened Text
  import opened Wire
  import opened Actions

  datatype Pending = Pending(action: Action, st: int)
  type PendingMap = map<int, Pending>

  /** `responseMap[index]`: a missing index yields, and leaves behind, a default action. */
  function At(m: PendingMap, i: int): Pending { if i in m then m[i] else Pending(Blank, 0) }

  function WithStatus(m: PendingMap, i: int, st: int): PendingMap { m[i := At(m, i).(st := st)] }

  /** What the response consumer does with a status. */
  function Answered(m: PendingMap, i: int, st: int): PendingMap
  {
    if st == COMPLETED then m - {i}
    else if st == RECEIVED then WithStatus(m, i, RECEIVED)
    else if st == ERROR then WithStatus(m, i, ERROR)
    else m
  }

  /** Only completed takes an entry away, only received and error mark one, and no other status does anything. */
  lemma AnsweredExact(m: PendingMap, i: int, st: int, j: int)
    ensures j in Answered(m, i, st) <==> (j in m && !(j == i && st == COMPLETED)) || (j == i && st in {RECEIVED, ERROR})
    ensures j in m && (j != i || st !in {RECEIVED, COMPLETED, ERROR}) ==> Answered(m, i, st)[j] == m[j]
    ensures st in {RECEIVED, ERROR} ==> Answered(m, i, st)[i] == Pending(if i in m then m[i].action else Blank, st)
  {
  }

  class ResponseBuffer {
    var responseMap: PendingMap
    var currentIndex: int

    constructor ()
      ensures responseMap == map[] && currentIndex == 0
    {
      responseMap, currentIndex := map[], 0;
    }

    method Add(item: Action) returns (index: int)
      modifies this
      ensures index == old(currentIndex) && currentIndex == index + 1
      ensures responseMap == old(responseMap)[index := Pending(item, SENT)]
    {
      index := currentIndex;
      currentIndex := currentIndex + 1;
      responseMap := responseMap[index := Pending(item, SENT)];
    }

    method Receive(index: int)
      modifies this`responseMap
      ensures responseMap == Answered(old(responseMap), index, RECEIVED)
      ensures responseMap.Keys == old(responseMap).Keys + {index} && responseMap[index].st == RECEIVED
      ensures index in old(responseMap) ==> responseMap[index].action == old(responseMap)[index].action
      ensures forall i :: i in old(responseMap) && i != index ==> responseMap[i] == old(responseMap)[i]
    {
      responseMap := WithStatus(responseMap, index, RECEIVED);
    }

    method SignalError(index: int) returns (m: Action)
      modifies this`responseMap
      ensures responseMap == Answered(old(responseMap), index, ERROR)
      ensures m == At(old(responseMap), index).action
      ensures responseMap.Keys == old(responseMap).Keys + {index} && responseMap[index] == Pending(m, ERROR)
      ensures index in old(responseMap) ==> m == old(responseMap)[index].action
      ensures forall i :: i in old(responseMap) && i != index ==> responseMap[i] == old(responseMap)[i]
    {
      responseMap := WithStatus(responseMap, index, ERROR);
      m := responseMap[index].action;
    }

    method Completed(index: int)
      modifies this`responseMap
      ensures responseMap == Answered(old(responseMap), index, COMPLETED)
      ensures responseMap.Keys == old(responseMap).Keys - {index}
      ensures forall i :: i in responseMap ==> responseMap[i] == old(responseMap)[i]
    {
      responseMap := responseMap - {index};
    }

    method GetAction(index: int) returns (r: Option<Action>)
      ensures r == if index in responseMap then Some(responseMap[index].action) else None
    {
      r := if index in responseMap then Some(responseMap[index].action) else None;
    }

    /** All pending actions, oldest index first. */
    method GetAll() returns (result: seq<Pending>)
      ensures exists order :: Lists(responseMap, order, result)
    {
      var keys := responseMap.Keys;
      ghost var order: seq<int> := [];
      result := [];
      while |keys| > 0
        invariant keys <= responseMap.Keys && |order| == |result| == |responseMap| - |keys|
        invariant forall i, j :: 0 <= i < j < |order| ==> order[i] < order[j]
        invariant forall i :: 0 <= i < |order| ==> order[i] in responseMap && result[i] == responseMap[order[i]]
        invariant forall i, k :: 0 <= i < |order| && k in keys ==> order[i] < k
      {
        ghost var least := LeastIndex(keys);
        var k :| k in keys && forall j :: j in keys ==> k <= j;
        result, order, keys := result + [responseMap[k]], order + [k], keys - {k};
      }
      assert Lists(responseMap, order, result);
    }
  }

  /** result holds every entry of m once, by increasing index. */
  ghost predicate Lists(m: PendingMap, order: seq<int>, result: seq<Pending>)
  {
    && |order| == |result| == |m|
    && (forall i, j :: 0 <= i < j < |order| ==> order[i] < order[j])
    && forall i :: 0 <= i < |order| ==> order[i] in m && result[i] == m[order[i]]
  }

  lemma Member<T>(s: set<T>) returns (e: T)
    requires s != {}
    ensures e in s
  {
    e :| e in s;
  }

  lemma LeastIndex(s: set<int>) returns (x: int)
    requires |s| > 0
    ensures x in s && forall y :: y in s ==> x <= y
    decreases |s|
  {
    var e := Member(s);
    x := e;
    if |s - {e}| > 0 {
      var r := LeastIndex(s - {e});
      x := if e < r then e else r;
    }
    forall y | y in s ensures x <= y {
      if y != e { assert y in s - {e}; }
    }
  }
}
