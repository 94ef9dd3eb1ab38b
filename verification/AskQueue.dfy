/**
  One question at a time in each chat: a chain of promises for every chat.

  Every question is a link: it starts once the question it found in the map is over, however
  that one ended, and its tail cleans the map up unless a later question took its place. The
  order in which the event loop starts questions, ends them and runs the clean-ups is
  arbitrary; the class takes one such event at a time.
*/
module AskQueue {
  import opened Options

  /** A chat of an account. */
  type Key = string

  datatype Status = Waiting | Running | Over(answered: bool)

  /** A question: its chat, the question whose tail it waits for, and how far it is. */
  datatype Question = Question(key: Key, before: Option<nat>, status: Status)

  /** What the event loop may do next. */
  datatype Event = Issue(key: Key) | Start(ask: nat) | Finish(ended: nat, answered: bool) | CleanUp(tail: nat)

  // ---------------------------------------------------------------------------------------
  // What every state keeps
  // ---------------------------------------------------------------------------------------

  /** A question waits for the one before it in its chat, or found the chat with nothing pending. */
  ghost predicate Linked(asks: seq<Question>, i: nat)
    requires i < |asks|
  {
    match asks[i].before
    case None => forall j :: 0 <= j < i && asks[j].key == asks[i].key ==> asks[j].status.Over?
    case Some(p) =>
      && p < i && asks[p].key == asks[i].key
      && (forall j :: p < j < i ==> asks[j].key != asks[i].key)
      && (!asks[i].status.Waiting? ==> asks[p].status.Over?)
  }

  /** The map names the last question of each chat it has, and a chat it does not have is idle. */
  ghost predicate Mapped(asks: seq<Question>, asking: map<Key, nat>) {
    && (forall key <- asking ::
      asking[key] < |asks| && asks[asking[key]].key == key && forall j :: asking[key] < j < |asks| ==> asks[j].key != key)
    && (forall i :: 0 <= i < |asks| && asks[i].key !in asking ==> asks[i].status.Over?)
  }

  ghost predicate Inv(asks: seq<Question>, asking: map<Key, nat>) {
    && (forall i :: 0 <= i < |asks| ==> Linked(asks, i))
    && Mapped(asks, asking)
  }

  /** The questions sent are those that no longer wait. */
  ghost predicate Sent(asks: seq<Question>, started: seq<nat>) {
    forall i :: 0 <= i < |asks| ==> (i in started <==> !asks[i].status.Waiting?)
  }

  predicate Enabled(asks: seq<Question>, e: Event) {
    match e
    case Issue(_) => true
    case Start(i) =>
      && i < |asks| && asks[i].status.Waiting?
      && (asks[i].before.Some? ==> asks[i].before.value < |asks| && asks[asks[i].before.value].status.Over?)
    case Finish(i, _) => i < |asks| && asks[i].status.Running?
    case CleanUp(i) => i < |asks| && asks[i].status.Over?
  }

  // ---------------------------------------------------------------------------------------
  // The queue
  // ---------------------------------------------------------------------------------------

  lemma AskKeeps(asks: seq<Question>, asking: map<Key, nat>, key: Key)
    requires Inv(asks, asking)
    ensures var before := if key in asking then Some(asking[key]) else None;
      Inv(asks + [Question(key, before, Waiting)], asking[key := |asks|])
  {
    var more := asks + [Question(key, if key in asking then Some(asking[key]) else None, Waiting)];
    assert forall j :: 0 <= j < |asks| ==> Linked(asks, j) && more[j] == asks[j];
    assert forall j :: 0 <= j < |more| ==> Linked(more, j);
  }

  class Sessions {
    var asks: seq<Question>
    var asking: map<Key, nat>
    /** The questions in the order in which they were sent. */
    ghost var started: seq<nat>

    ghost predicate Valid()
      reads this
    {
      && Inv(asks, asking)
      && Sent(asks, started)
      && InOrder(asks, started)
    }

    constructor ()
      ensures Valid() && asks == [] && asking == map[] && started == []
    {
      asks, asking, started := [], map[], [];
    }

    /** A question is asked: its turn comes after the one the map has for its chat. */
    method Ask(key: Key) returns (i: nat)
      requires Valid()
      modifies this
      ensures Valid() && i == |old(asks)| && started == old(started)
      ensures asks == old(asks) + [Question(key, if key in old(asking) then Some(old(asking)[key]) else None, Waiting)]
      ensures asking == old(asking)[key := i]
    {
      var before := if key in asking then Some(asking[key]) else None;
      i := |asks|;
      AskKeeps(asks, asking, key);
      asks := asks + [Question(key, before, Waiting)];
      asking := asking[key := i];
    }

    /** The question before it is over, answered or not: this one is sent. */
    method Begin(i: nat)
      requires Valid() && Enabled(asks, Start(i))
      modifies this`asks, this`started
      ensures Valid() && asks == old(asks)[i := old(asks)[i].(status := Running)] && started == old(started) + [i]
    {
      StartsInOrder(asks, asking, started, i);
      asks := asks[i := asks[i].(status := Running)];
      started := started + [i];
      StatusKept(old(asks), asks, asking, i);
      assert forall j :: j in started <==> j == i || j in old(started);
    }

    method End(i: nat, answered: bool)
      requires Valid() && Enabled(asks, Finish(i, answered))
      modifies this`asks
      ensures Valid() && asks == old(asks)[i := old(asks)[i].(status := Over(answered))]
    {
      asks := asks[i := asks[i].(status := Over(answered))];
      StatusKept(old(asks), asks, asking, i);
    }

    /** The tail of a question that is over takes its chat off the map, unless a later one is there. */
    method Tail(i: nat)
      requires Valid() && Enabled(asks, CleanUp(i))
      modifies this`asking
      ensures Valid()
      ensures asking == if asks[i].key in old(asking) && old(asking)[asks[i].key] == i then old(asking) - {asks[i].key} else old(asking)
    {
      if asks[i].key in asking && asking[asks[i].key] == i {
        ChainOver(asks, asking, i);
        asking := asking - {asks[i].key};
      }
    }

    /** Any events in any order; one that cannot happen now does not. */
    method Run(events: seq<Event>)
      requires Valid()
      modifies this
      ensures Valid()
    {
      for e := 0 to |events|
        invariant Valid()
      {
        var event := events[e];
        if Enabled(asks, event) {
          match event
          case Issue(key) =>
            var i := Ask(key);
          case Start(i) => Begin(i);
          case Finish(i, answered) => End(i, answered);
          case CleanUp(i) => Tail(i);
        }
      }
    }
  }

  // ---------------------------------------------------------------------------------------
  // Theorems
  // ---------------------------------------------------------------------------------------

  /** The questions of a chat were sent in the order in which they were asked. */
  ghost predicate InOrder(asks: seq<Question>, started: seq<nat>) {
    && (forall a :: 0 <= a < |started| ==> started[a] < |asks|)
    && forall a, b :: 0 <= a < b < |started| && asks[started[a]].key == asks[started[b]].key ==> started[a] < started[b]
  }

  /** Once a question has been sent, every earlier one of its chat is over. */
  lemma {:induction false} EarlierAreOver(asks: seq<Question>, asking: map<Key, nat>, i: nat, j: nat)
    requires Inv(asks, asking) && i < j < |asks| && asks[i].key == asks[j].key && !asks[j].status.Waiting?
    ensures asks[i].status.Over?
    decreases j
  {
    assert Linked(asks, j);
    if asks[j].before.Some? && i != asks[j].before.value {
      EarlierAreOver(asks, asking, i, asks[j].before.value);
    }
  }

  /** At most one question runs in a chat. */
  lemma OneAtATime(asks: seq<Question>, asking: map<Key, nat>, i: nat, j: nat)
    requires Inv(asks, asking) && i < |asks| && j < |asks| && asks[i].key == asks[j].key
    requires asks[i].status.Running? && asks[j].status.Running?
    ensures i == j
  {
    if i < j {
      EarlierAreOver(asks, asking, i, j);
    } else if j < i {
      EarlierAreOver(asks, asking, j, i);
    }
  }

  /** A chat that is not on the map has nothing pending. */
  lemma MissingMeansIdle(asks: seq<Question>, asking: map<Key, nat>, key: Key)
    requires Inv(asks, asking) && key !in asking
    ensures forall i :: 0 <= i < |asks| && asks[i].key == key ==> asks[i].status.Over?
  {
  }

  /** No question blocks the next: in a chat with something pending, the first question not over
      is running or can be sent now, whether the ones before it were answered or failed. */
  lemma NeverBlocked(asks: seq<Question>, asking: map<Key, nat>, i: nat)
    requires Inv(asks, asking) && i < |asks| && !asks[i].status.Over?
    requires forall j :: 0 <= j < i && asks[j].key == asks[i].key ==> asks[j].status.Over?
    ensures asks[i].status.Running? || Enabled(asks, Start(i))
    ensures asks[i].key in asking
  {
    assert Linked(asks, i);
  }

  /** The tail of a question on the map can clean up only when its whole chat is over. */
  lemma ChainOver(asks: seq<Question>, asking: map<Key, nat>, i: nat)
    requires Inv(asks, asking) && i < |asks| && asks[i].status.Over?
    requires asks[i].key in asking && asking[asks[i].key] == i
    ensures forall j :: 0 <= j < |asks| && asks[j].key == asks[i].key ==> asks[j].status.Over?
  {
    forall j | 0 <= j < |asks| && asks[j].key == asks[i].key ensures asks[j].status.Over? {
      if j < i {
        EarlierAreOver(asks, asking, j, i);
      }
    }
  }

  lemma StartsInOrder(asks: seq<Question>, asking: map<Key, nat>, started: seq<nat>, i: nat)
    requires Inv(asks, asking) && InOrder(asks, started) && i < |asks| && asks[i].status.Waiting?
    requires Sent(asks, started)
    ensures InOrder(asks, started + [i])
  {
    forall a | 0 <= a < |started| ensures asks[started[a]].key == asks[i].key ==> started[a] < i {
      assert started[a] in started;
      if asks[started[a]].key == asks[i].key && i < started[a] {
        EarlierAreOver(asks, asking, i, started[a]);
      }
    }
  }

  /** A question that moves on, waiting to running to over, breaks no link. */
  lemma StatusKept(asks: seq<Question>, asks': seq<Question>, asking: map<Key, nat>, i: nat)
    requires Inv(asks, asking) && i < |asks|
    requires |asks'| == |asks| && asks' == asks[i := asks[i].(status := asks'[i].status)]
    requires (Enabled(asks, Start(i)) && asks'[i].status.Running?) || (asks[i].status.Running? && asks'[i].status.Over?)
    ensures Inv(asks', asking)
  {
    forall j | 0 <= j < |asks'| ensures Linked(asks', j) {
      assert Linked(asks, j);
    }
  }
}
