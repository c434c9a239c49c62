/**
 The per-key promise chain that the page uses wherever tasks of one key must not interleave:
 each call hangs its task behind the key's current tail, whether that tail succeeds or fails, and
 a settled task takes the tail away only while the tail is still its own.

 A promise is its position in `links`, so positions are in call order.
 */
module SerialQueue {
  import opened Wrappers

  datatype Phase = Waiting | Running | Settled(ok: bool)

  datatype Link<K> = Link(key: K, previous: Option<nat>, phase: Phase)

  datatype Chain<K> = Chain(links: seq<Link<K>>, tails: map<K, nat>)

  function Empty<K>(): Chain<K> {
    Chain([], map[])
  }

  /** `previous = tails.get(key) ?? resolved`, then the new promise becomes the tail. */
  function Call<K>(c: Chain<K>, key: K): Chain<K> {
    Chain(c.links + [Link(key, Get(c.tails, key), Waiting)], c.tails[key := |c.links|])
  }

  predicate CanStart<K>(c: Chain<K>, i: nat) {
    && i < |c.links|
    && c.links[i].phase == Waiting
    && match c.links[i].previous {
         case None => true
         case Some(p) => p < |c.links| && c.links[p].phase.Settled?
       }
  }

  predicate IsRunning<K>(c: Chain<K>, i: nat) {
    i < |c.links| && c.links[i].phase == Running
  }

  predicate IsSettled<K>(c: Chain<K>, i: nat) {
    i < |c.links| && c.links[i].phase.Settled?
  }

  function Start<K>(c: Chain<K>, i: nat): Chain<K>
    requires CanStart(c, i)
  {
    c.(links := c.links[i := c.links[i].(phase := Running)])
  }

  function Settle<K>(c: Chain<K>, i: nat, ok: bool): Chain<K>
    requires IsRunning(c, i)
  {
    c.(links := c.links[i := c.links[i].(phase := Settled(ok))])
  }

  /** The `finally` of a settled task: the tail goes only when it is still this task's. */
  function Cleanup<K>(c: Chain<K>, i: nat): Chain<K>
    requires IsSettled(c, i)
  {
    var key := c.links[i].key;
    if Get(c.tails, key) == Some(i) then c.(tails := c.tails - {key}) else c
  }

  /** Call `i` comes after `j`, of the same key. */
  ghost predicate Follows<K>(links: seq<Link<K>>, j: int, i: int) {
    0 <= j < i < |links| && links[j].key == links[i].key
  }

  /** A task starts only once every earlier call of its key is settled. */
  ghost predicate InOrder<K>(links: seq<Link<K>>) {
    forall i, j | Follows(links, j, i) ::
      links[i].phase == Waiting || links[j].phase.Settled?
  }

  ghost predicate PreviousIsEarlier<K>(links: seq<Link<K>>, i: nat)
    requires i < |links|
  {
    links[i].previous.Some? ==> Follows(links, links[i].previous.value, i)
  }

  /** No open call of the key lies between a call and the promise it hangs on. */
  ghost predicate Linked<K>(links: seq<Link<K>>) {
    && (forall i | 0 <= i < |links| :: PreviousIsEarlier(links, i))
    && (forall i, j | Follows(links, j, i) ::
          links[j].phase.Settled? || (links[i].previous.Some? && j <= links[i].previous.value))
  }

  /** The tail is a call of its key, and no open call of the key lies after it. */
  ghost predicate TailsCover<K(!new)>(c: Chain<K>) {
    && (forall k | k in c.tails :: c.tails[k] < |c.links| && c.links[c.tails[k]].key == k)
    && (forall i | 0 <= i < |c.links| ::
          c.links[i].phase.Settled? || (c.links[i].key in c.tails && i <= c.tails[c.links[i].key]))
  }

  ghost predicate Valid<K(!new)>(c: Chain<K>) {
    InOrder(c.links) && Linked(c.links) && TailsCover(c)
  }

  /** The calls of one key that are not settled yet, in call order: the queue a reader sees. */
  function Unsettled<K(==)>(links: seq<Link<K>>, key: K): seq<nat> {
    if links == [] then []
    else
      var n := |links| - 1;
      Unsettled(links[..n], key)
      + (if links[n].key == key && !links[n].phase.Settled? then [n] else [])
  }

  lemma EmptyIsValid<K(!new)>()
    ensures Valid(Empty<K>())
  {
  }

  lemma CallKeepsValid<K(!new)>(c: Chain<K>, key: K)
    requires Valid(c)
    ensures Valid(Call(c, key))
  {
    var after := Call(c, key);
    forall i, j | Follows(after.links, j, i)
      ensures after.links[i].phase == Waiting || after.links[j].phase.Settled?
      ensures after.links[j].phase.Settled?
              || (after.links[i].previous.Some? && j <= after.links[i].previous.value)
    {
      assert i < |c.links| ==> Follows(c.links, j, i);
    }
    forall i | 0 <= i < |after.links|
      ensures PreviousIsEarlier(after.links, i)
    {
      assert i < |c.links| ==> PreviousIsEarlier(c.links, i);
    }
  }

  lemma EarlierSettled<K(!new)>(c: Chain<K>, i: nat, j: nat)
    requires Valid(c) && (CanStart(c, i) || IsRunning(c, i)) && Follows(c.links, j, i)
    ensures c.links[j].phase.Settled?
  {
    assert PreviousIsEarlier(c.links, i);
    if c.links[i].phase == Waiting && c.links[i].previous.Some? {
      var p := c.links[i].previous.value;
      assert j < p ==> Follows(c.links, j, p);
    }
  }

  /** Moving one task from waiting to running, or from running to settled, keeps the chain valid. */
  lemma AdvanceKeepsValid<K(!new)>(c: Chain<K>, i: nat, phase: Phase)
    requires Valid(c) && (CanStart(c, i) || IsRunning(c, i)) && phase != Waiting
    ensures Valid(c.(links := c.links[i := c.links[i].(phase := phase)]))
  {
    var after := c.links[i := c.links[i].(phase := phase)];
    forall m, j | Follows(after, j, m)
      ensures after[m].phase == Waiting || after[j].phase.Settled?
      ensures after[j].phase.Settled? || (after[m].previous.Some? && j <= after[m].previous.value)
    {
      assert Follows(c.links, j, m);
      if m == i {
        EarlierSettled(c, i, j);
      }
    }
    forall m | 0 <= m < |after|
      ensures PreviousIsEarlier(after, m)
    {
      assert PreviousIsEarlier(c.links, m);
    }
  }

  /** Taking the tail away is safe: when it is still this task's, no task of the key is open. */
  lemma CleanupKeepsValid<K(!new)>(c: Chain<K>, i: nat)
    requires Valid(c) && IsSettled(c, i)
    ensures Valid(Cleanup(c, i))
  {
    var key := c.links[i].key;
    if Get(c.tails, key) == Some(i) {
      forall j | 0 <= j < |c.links| && c.links[j].key == key
        ensures c.links[j].phase.Settled?
      {
        assert j < i ==> Follows(c.links, j, i);
      }
    }
  }

  /** A position is in the queue exactly when it is an open call of the key. */
  lemma {:induction false} UnsettledMembers<K>(links: seq<Link<K>>, key: K, i: nat)
    ensures i in Unsettled(links, key)
            <==> i < |links| && links[i].key == key && !links[i].phase.Settled?
  {
    if links != [] {
      UnsettledMembers(links[..|links| - 1], key, i);
    }
  }

  /** The queue is in call order. */
  lemma {:induction false} UnsettledIncreases<K>(links: seq<Link<K>>, key: K)
    ensures forall a, b :: 0 <= a < b < |Unsettled(links, key)| ==>
              Unsettled(links, key)[a] < Unsettled(links, key)[b]
  {
    if links != [] {
      var front := links[..|links| - 1];
      UnsettledIncreases(front, key);
      forall a | 0 <= a < |Unsettled(front, key)|
        ensures Unsettled(front, key)[a] < |links| - 1
      {
        UnsettledMembers(front, key, Unsettled(front, key)[a]);
      }
    }
  }

  /** Only the head of a key's queue runs or can start, and the head always can: a failed
      predecessor blocks nobody, and no later call overtakes an open one. */
  lemma HeadAloneProceeds<K(!new)>(c: Chain<K>, key: K, i: nat)
    requires Valid(c) && i in Unsettled(c.links, key)
    ensures IsRunning(c, i) || CanStart(c, i) <==> i == Unsettled(c.links, key)[0]
  {
    var q := Unsettled(c.links, key);
    UnsettledMembers(c.links, key, i);
    UnsettledMembers(c.links, key, q[0]);
    UnsettledIncreases(c.links, key);
    if i == q[0] {
      if c.links[i].phase == Waiting && c.links[i].previous.Some? {
        var p := c.links[i].previous.value;
        assert PreviousIsEarlier(c.links, i);
        UnsettledMembers(c.links, key, p);
      }
    } else {
      assert Follows(c.links, q[0], i);
      if CanStart(c, i) || IsRunning(c, i) {
        EarlierSettled(c, i, q[0]);
      }
    }
  }

  lemma {:induction false} SettledLeavesQueue<K>(links: seq<Link<K>>, i: nat, ok: bool, key: K)
    requires i < |links| && !links[i].phase.Settled?
    requires forall j | Follows(links, j, i) :: links[j].phase.Settled?
    ensures var after := links[i := links[i].(phase := Settled(ok))];
            Unsettled(links, key) == (if key == links[i].key then [i] else []) + Unsettled(after, key)
  {
    var n := |links| - 1;
    var after := links[i := links[i].(phase := Settled(ok))];
    if i == n {
      assert after[..n] == links[..n];
      if key == links[i].key {
        forall j | 0 <= j < n && links[j].key == key ensures links[j].phase.Settled? {
          assert Follows(links, j, i);
        }
        NoneOpen(links[..n], key);
      }
    } else {
      assert after[..n] == links[..n][i := links[..n][i].(phase := Settled(ok))];
      forall j | Follows(links[..n], j, i) ensures links[j].phase.Settled? {
        assert Follows(links, j, i);
      }
      SettledLeavesQueue(links[..n], i, ok, key);
    }
  }

  lemma {:induction false} NoneOpen<K>(links: seq<Link<K>>, key: K)
    requires forall j :: 0 <= j < |links| && links[j].key == key ==> links[j].phase.Settled?
    ensures Unsettled(links, key) == []
  {
    if links != [] {
      NoneOpen(links[..|links| - 1], key);
    }
  }

  lemma {:induction false} StartedStaysQueued<K>(links: seq<Link<K>>, i: nat, key: K)
    requires i < |links| && links[i].phase == Waiting
    ensures Unsettled(links[i := links[i].(phase := Running)], key) == Unsettled(links, key)
  {
    var n := |links| - 1;
    var after := links[i := links[i].(phase := Running)];
    if i == n {
      assert after[..n] == links[..n];
    } else {
      assert after[..n] == links[..n][i := links[..n][i].(phase := Running)];
      StartedStaysQueued(links[..n], i, key);
    }
  }

  /** The chain refines one first-in first-out queue per key: a call appends to its own key's
      queue, starting and cleaning up change no queue, and settling takes the head. */
  lemma ChainRefinesQueues<K(!new)>(c: Chain<K>, i: nat, ok: bool, called: K, key: K)
    requires Valid(c)
    ensures Unsettled(Call(c, called).links, key)
            == Unsettled(c.links, key) + if called == key then [|c.links|] else []
    ensures CanStart(c, i) ==> Unsettled(Start(c, i).links, key) == Unsettled(c.links, key)
    ensures IsSettled(c, i) ==> Unsettled(Cleanup(c, i).links, key) == Unsettled(c.links, key)
    ensures IsRunning(c, i) && c.links[i].key == key ==>
              Unsettled(c.links, key) == [i] + Unsettled(Settle(c, i, ok).links, key)
    ensures IsRunning(c, i) && c.links[i].key != key ==>
              Unsettled(c.links, key) == Unsettled(Settle(c, i, ok).links, key)
  {
    assert Call(c, called).links[..|c.links|] == c.links;
    if CanStart(c, i) {
      StartedStaysQueued(c.links, i, key);
    }
    if IsRunning(c, i) {
      forall j | Follows(c.links, j, i) ensures c.links[j].phase.Settled? {
        EarlierSettled(c, i, j);
      }
      SettledLeavesQueue(c.links, i, ok, key);
    }
  }

  /** No two tasks of one key overlap. */
  lemma OneRunningPerKey<K(!new)>(c: Chain<K>, i: nat, j: nat)
    requires Valid(c) && IsRunning(c, i) && IsRunning(c, j)
    requires c.links[i].key == c.links[j].key
    ensures i == j
  {
    assert i < j ==> Follows(c.links, i, j);
    assert j < i ==> Follows(c.links, j, i);
  }
}
