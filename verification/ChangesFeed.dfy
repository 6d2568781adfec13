/** A changes feed: a log of changes in which a change is listed until its document changes again. */
module ChangesFeed {

  /** One change. A position in the feed is the number of changes in front of it. */
  datatype Row<+T> = Row(id: string, value: T)

  type Feed<+T> = seq<Row<T>>

  predicate Current<T>(feed: Feed<T>, i: nat)
    requires i < |feed|
  {
    forall j | i < j < |feed| :: feed[j].id != feed[i].id
  }

  /** The position of the next change that is listed. */
  function NextRow<T>(feed: Feed<T>, from: nat): (i: nat)
    requires from <= |feed|
    ensures from <= i <= |feed| && (i < |feed| ==> Current(feed, i))
    ensures forall k | from <= k < i :: !Current(feed, k)
    decreases |feed| - from
  {
    if from == |feed| || Current(feed, from) then from else NextRow(feed, from + 1)
  }

  function CountCurrent<T>(feed: Feed<T>, from: nat): (n: nat)
    requires from <= |feed|
    ensures n == 0 <==> forall k | from <= k < |feed| :: !Current(feed, k)
    decreases |feed| - from
  {
    if from == |feed| then 0 else (if Current(feed, from) then 1 else 0) + CountCurrent(feed, from + 1)
  }

  /** A change that is listed in a longer feed was listed before. */
  lemma CurrentBefore<T>(feed: Feed<T>, feed': Feed<T>, i: nat)
    requires feed <= feed' && i < |feed| && Current(feed', i)
    ensures Current(feed, i)
  {
    forall j | i < j < |feed|
      ensures feed[j].id != feed[i].id
    {
      assert feed'[j] == feed[j];
    }
  }

  /** The position behind the first `limit` changes listed from a position on. */
  function BatchEnd<T>(feed: Feed<T>, from: nat, limit: nat): (end: nat)
    requires from <= |feed|
    ensures from <= end <= |feed|
    decreases limit
  {
    var next := NextRow(feed, from);
    if limit == 0 || next == |feed| then from else BatchEnd(feed, next + 1, limit - 1)
  }
}
