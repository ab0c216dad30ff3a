/** The reminder scheduler: sorted sets of (uid, timestamp), one per interval key, from which a
    batch run pops what is due, mails it, and puts back what it could not mail. */
module Reminders {
  import opened Results

  /** A sorted set: its members with their scores. */
  type Queue = map<string, int>

  /** The sorted sets of one reminder family, by interval key. */
  type Sets = map<string, Queue>

  datatype Reminder = Reminder(uid: string, timestamp: int)

  function QueueAt(sets: Sets, key: string): Queue {
    if key in sets then sets[key] else map[]
  }

  function Look(sets: Sets, key: string, uid: string): Option<int> {
    if uid in QueueAt(sets, key) then Some(QueueAt(sets, key)[uid]) else None
  }

  predicate Distinct(keys: seq<string>) {
    forall i, j :: 0 <= i < j < |keys| ==> keys[i] != keys[j]
  }

  // ---- The flat list that Redis returns ----

  /** A reply element: members and scores alternate. */
  datatype Item = Member(uid: string) | Score(n: int)

  function Flat(reminders: seq<Reminder>): seq<Item> {
    if reminders == [] then []
    else
      var init, last := reminders[..|reminders| - 1], reminders[|reminders| - 1];
      Flat(init) + [Member(last.uid), Score(last.timestamp)]
  }

  lemma {:induction false} FlatAt(reminders: seq<Reminder>)
    ensures |Flat(reminders)| == 2 * |reminders|
    ensures forall i :: 0 <= i < |reminders| ==>
              Flat(reminders)[2 * i] == Member(reminders[i].uid)
                  && Flat(reminders)[2 * i + 1] == Score(reminders[i].timestamp)
  {
    if reminders != [] {
      FlatAt(reminders[..|reminders| - 1]);
    }
  }

  /** The decoding loop: an even position starts a reminder, an odd one completes it. */
  method Decode(items: seq<Item>, ghost popped: seq<Reminder>) returns (reminders: seq<Reminder>)
    requires items == Flat(popped)
    ensures reminders == popped
  {
    FlatAt(popped);
    reminders := [];
    for index := 0 to |items|
      invariant |reminders| == (index + 1) / 2
      invariant forall i :: 0 <= i < index / 2 ==> reminders[i] == popped[i]
      invariant index % 2 == 1 ==> reminders[index / 2].uid == popped[index / 2].uid
    {
      if index % 2 == 0 {
        assert items[2 * (index / 2)].Member?;
        reminders := reminders + [Reminder(items[index].uid, 0)];
      } else {
        assert items[2 * ((index - 1) / 2) + 1].Score?;
        reminders := reminders[(index - 1) / 2 := reminders[(index - 1) / 2].(timestamp := items[index].n)];
      }
    }
  }

  // ---- Popping what is due ----

  function Uids(list: seq<Reminder>): set<string> {
    set r <- list :: r.uid
  }

  ghost predicate DistinctUids(list: seq<Reminder>) {
    forall i, j :: 0 <= i < j < |list| ==> list[i].uid != list[j].uid
  }

  function InRange(queue: Queue, cutoff: int): set<string> {
    set uid <- queue | 0 <= queue[uid] <= cutoff
  }

  /** The list enumerates, each once and with its score, the members scored from 0 to `cutoff`. */
  ghost predicate Due(queue: Queue, cutoff: int, list: seq<Reminder>) {
    DistinctUids(list) && Scored(queue, list) && Uids(list) == InRange(queue, cutoff)
  }

  ghost predicate Scored(queue: Queue, list: seq<Reminder>) {
    forall r <- list :: r.uid in queue && queue[r.uid] == r.timestamp
  }

  /** `zpoprangebyscore`: read and remove a range of scores in one transaction. */
  method ZPopRangeByScore(queue: Queue, cutoff: int) returns (items: seq<Item>, rest: Queue, ghost list: seq<Reminder>)
    ensures rest == queue - InRange(queue, cutoff)
    ensures items == Flat(list) && Due(queue, cutoff, list) && rest == queue - Uids(list)
  {
    hide Uids, DistinctUids, Scored, Flat;
    items, rest, list := [], queue, [];
    var due := InRange(queue, cutoff);
    NothingListed(queue);
    while due != {}
      invariant due + Uids(list) == InRange(queue, cutoff) && due !! Uids(list)
      invariant items == Flat(list) && DistinctUids(list) && Scored(queue, list)
      invariant rest == queue - Uids(list)
      decreases |due|
    {
      var uid :| uid in due;
      assert uid in InRange(queue, cutoff);
      items, rest, due := items + [Member(uid), Score(queue[uid])], rest - {uid}, due - {uid};
      FlatExtends(list, Reminder(uid, queue[uid]));
      UidsExtend(list, Reminder(uid, queue[uid]));
      list := list + [Reminder(uid, queue[uid])];
      ScoredExtends(queue, list);
    }
  }

  lemma NothingListed(queue: Queue)
    ensures Uids([]) == {} && DistinctUids([]) && Scored(queue, []) && Flat([]) == []
  {
  }

  lemma ScoredExtends(queue: Queue, list: seq<Reminder>)
    requires list != [] && Scored(queue, list[..|list| - 1])
    requires list[|list| - 1].uid in queue && queue[list[|list| - 1].uid] == list[|list| - 1].timestamp
    ensures Scored(queue, list)
  {
    assert list == list[..|list| - 1] + [list[|list| - 1]];
  }

  lemma FlatExtends(list: seq<Reminder>, r: Reminder)
    ensures Flat(list + [r]) == Flat(list) + [Member(r.uid), Score(r.timestamp)]
  {
    assert (list + [r])[..|list|] == list;
  }

  lemma UidsExtend(list: seq<Reminder>, r: Reminder)
    ensures Uids(list + [r]) == Uids(list) + {r.uid}
    ensures DistinctUids(list) && r.uid !in Uids(list) ==> DistinctUids(list + [r])
  {
    forall uid | uid in Uids(list) ensures uid in Uids(list + [r]) {
      var s :| s in list && s.uid == uid;
      assert s in list + [r];
    }
    assert r in list + [r];
    assert forall i :: 0 <= i < |list| ==> list[i] in list;
  }

  // ---- The stored sets ----

  /** Removal of a uid from the sets of all keys but those whose `zrem` fails. */
  function Removed(sets: Sets, keys: seq<string>, failing: set<string>, uid: string): Sets {
    map key <- sets :: if key in keys && key !in failing then sets[key] - {uid} else sets[key]
  }

  function Put(sets: Sets, key: string, r: Reminder): Sets {
    sets[key := QueueAt(sets, key)[r.uid := r.timestamp]]
  }

  function Added(sets: Sets, keys: seq<string>, r: Reminder): Sets {
    if keys == [] then sets else Put(Added(sets, keys[..|keys| - 1], r), keys[|keys| - 1], r)
  }

  function Reinstated(sets: Sets, key: string, list: seq<Reminder>): Sets {
    if list == [] then sets else Put(Reinstated(sets, key, list[..|list| - 1]), key, list[|list| - 1])
  }

  function PoppedFrom(sets: Sets, key: string, list: seq<Reminder>): Sets {
    sets[key := QueueAt(sets, key) - Uids(list)]
  }

  lemma LookRemoved(sets: Sets, keys: seq<string>, failing: set<string>, uid: string, k: string, u: string)
    ensures Look(Removed(sets, keys, failing, uid), k, u) ==
              if k in keys && k !in failing && u == uid then None else Look(sets, k, u)
  {
  }

  lemma LookPut(sets: Sets, key: string, r: Reminder, k: string, u: string)
    ensures Look(Put(sets, key, r), k, u) == if k == key && u == r.uid then Some(r.timestamp) else Look(sets, k, u)
  {
  }

  lemma {:induction false} LookAdded(sets: Sets, keys: seq<string>, r: Reminder, k: string, u: string)
    ensures Look(Added(sets, keys, r), k, u) == if k in keys && u == r.uid then Some(r.timestamp) else Look(sets, k, u)
  {
    hide Look, Put;
    if keys != [] {
      LookAdded(sets, keys[..|keys| - 1], r, k, u);
      LookPut(Added(sets, keys[..|keys| - 1], r), keys[|keys| - 1], r, k, u);
      assert keys == keys[..|keys| - 1] + [keys[|keys| - 1]];
    }
  }

  /** Reinstating puts every listed uid back under the key and touches nothing else. */
  lemma {:induction false} LookReinstated(sets: Sets, key: string, list: seq<Reminder>, k: string, u: string)
    requires forall i, j :: 0 <= i < j < |list| ==> list[i].uid != list[j].uid
    ensures k != key || u !in Uids(list) ==> Look(Reinstated(sets, key, list), k, u) == Look(sets, k, u)
    ensures forall i :: 0 <= i < |list| && k == key && list[i].uid == u ==>
              Look(Reinstated(sets, key, list), k, u) == Some(list[i].timestamp)
  {
    hide Look, Put;
    if list != [] {
      var init, last := list[..|list| - 1], list[|list| - 1];
      LookReinstated(sets, key, init, k, u);
      LookPut(Reinstated(sets, key, init), key, last, k, u);
      assert list == init + [last];
      UidsExtend(init, last);
      forall i | 0 <= i < |list| && k == key && list[i].uid == u
               ensures Look(Reinstated(sets, key, list), k, u) == Some(list[i].timestamp) {
        assert i < |init| ==> init[i] == list[i];
      }
    }
  }

  lemma LookPopped(sets: Sets, key: string, list: seq<Reminder>, k: string, u: string)
    ensures Look(PoppedFrom(sets, key, list), k, u) == if k == key && u in Uids(list) then None else Look(sets, k, u)
  {
  }

  /** Put back everything that was popped, key by key. */
  function ReinstatedAll(sets: Sets, keys: seq<string>, batch: map<string, seq<Reminder>>, n: nat): Sets
    requires n <= |keys| && forall key <- keys :: key in batch
  {
    if n == 0 then sets else Reinstated(ReinstatedAll(sets, keys, batch, n - 1), keys[n - 1], batch[keys[n - 1]])
  }

  /** Processing and then reinstating everything is the identity: each key that has been reinstated
      holds what it held before, whenever the process call was and whatever was due. */
  lemma {:induction false} ProcessThenReinstate(before: Sets, after: Sets, keys: seq<string>,
                                                intervals: map<string, int>, now: int,
                                                batch: map<string, seq<Reminder>>, n: nat, k: string, u: string)
    requires n <= |keys| && Distinct(keys)
    requires forall key <- keys :: key in intervals && key in batch
               && Due(QueueAt(before, key), now - intervals[key], batch[key])
    requires Look(after, k, u) == if k in keys && u in Uids(batch[k]) then None else Look(before, k, u)
    ensures Look(ReinstatedAll(after, keys, batch, n), k, u) ==
              if k in keys[..n] then Look(before, k, u) else Look(after, k, u)
  {
    hide Reinstated, Uids, InRange;
    if n > 0 {
      var key := keys[n - 1];
      var was := ReinstatedAll(after, keys, batch, n - 1);
      ProcessThenReinstate(before, after, keys, intervals, now, batch, n - 1, k, u);
      LookReinstated(was, key, batch[key], k, u);
      assert keys[..n] == keys[..n - 1] + [key];
      if k == key && u in Uids(batch[key]) {
        var i := UidAt(batch[key], u);
        assert batch[key][i] in batch[key];
      }
    }
  }

  lemma UidAt(list: seq<Reminder>, uid: string) returns (i: nat)
    requires uid in Uids(list)
    ensures i < |list| && list[i].uid == uid
  {
    var r :| r in list && r.uid == uid;
    i :| 0 <= i < |list| && list[i] == r;
  }

  // ---- The operations of a reminder module ----

  class ReminderModule {
    const keys: seq<string>
    const intervals: map<string, int>
    var sets: Sets

    ghost predicate Valid()
      reads this
    {
      Distinct(keys) && forall key <- keys :: key in intervals
    }

    constructor (keys: seq<string>, intervals: map<string, int>)
      requires Distinct(keys) && forall key <- keys :: key in intervals
      ensures Valid() && sets == map[] && this.keys == keys && this.intervals == intervals
    {
      this.keys, this.intervals := keys, intervals;
      sets := map[];
    }

    /** `rolledOut` is the outcome of the rollout lottery. */
    method Create(uid: string, now: int, rolledOut: bool)
      modifies this
      ensures sets == if rolledOut then Added(old(sets), keys, Reminder(uid, now)) else old(sets)
    {
      if rolledOut {
        for i := 0 to |keys|
          invariant sets == Added(old(sets), keys[..i], Reminder(uid, now))
        {
          assert keys[..i + 1][..i] == keys[..i];
          sets := sets[keys[i] := QueueAt(sets, keys[i])[uid := now]];
        }
        assert keys[..|keys|] == keys;
      }
    }

    /** All removals are issued, and those of the `failing` keys are rejected. */
    method Delete(uid: string, failing: set<string>)
      modifies this
      ensures forall k, u :: Look(sets, k, u) ==
                if k in keys && k !in failing && u == uid then None else Look(old(sets), k, u)
    {
      hide QueueAt;
      ghost var before := sets;
      for i := 0 to |keys|
        invariant forall k, u :: Look(sets, k, u) ==
                    if k in keys[..i] && k !in failing && u == uid then None else Look(before, k, u)
      {
        ghost var was := sets;
        if keys[i] !in failing {
          sets := sets[keys[i] := QueueAt(sets, keys[i]) - {uid}];
        }
        forall k, u
          ensures Look(sets, k, u) ==
                    if k in keys[..i + 1] && k !in failing && u == uid then None else Look(before, k, u)
        {
          LookZrem(was, keys[i], uid, k, u);
          assert keys[..i + 1] == keys[..i] + [keys[i]];
        }
      }
      assert keys[..|keys|] == keys;
    }

    /** Pop, for every interval key, what has been waiting longer than the interval. */
    method Process(now: int) returns (batch: map<string, seq<Reminder>>)
      requires Valid()
      modifies this
      ensures forall key <- keys :: key in batch && Due(QueueAt(old(sets), key), now - intervals[key], batch[key])
      ensures forall k, u :: Look(sets, k, u) ==
                if k in keys && u in Uids(batch[k]) then None else Look(old(sets), k, u)
    {
      hide Look, Due, Uids, Flat;
      batch := map[];
      ghost var before := sets;
      for i := 0 to |keys|
        invariant forall j :: 0 <= j < i ==>
                    keys[j] in batch && Due(QueueAt(before, keys[j]), now - intervals[keys[j]], batch[keys[j]])
        invariant forall j :: i <= j < |keys| ==>
                    keys[j] !in batch && QueueAt(sets, keys[j]) == QueueAt(before, keys[j])
        invariant forall k, u :: Look(sets, k, u) ==
                    if k in batch && u in Uids(batch[k]) then None else Look(before, k, u)
        invariant forall k <- batch :: k in keys
      {
        var key := keys[i];
        var items, rest, list := ZPopRangeByScore(QueueAt(sets, key), now - intervals[key]);
        var reminders := Decode(items, list);
        ghost var was, had := sets, batch;
        sets, batch := sets[key := rest], batch[key := reminders];
        forall k, u ensures Look(sets, k, u) == if k in batch && u in Uids(batch[k]) then None else Look(before, k, u) {
          LookPopped(was, key, list, k, u);
          assert Look(was, k, u) == if k in had && u in Uids(had[k]) then None else Look(before, k, u);
        }
      }
    }

    method Reinstate(key: string, reminders: seq<Reminder>)
      modifies this
      ensures sets == Reinstated(old(sets), key, reminders)
    {
      for i := 0 to |reminders|
        invariant sets == Reinstated(old(sets), key, reminders[..i])
      {
        assert reminders[..i + 1][..i] == reminders[..i];
        sets := sets[key := QueueAt(sets, key)[reminders[i].uid := reminders[i].timestamp]];
      }
      assert reminders[..|reminders|] == reminders;
    }
  }

  lemma LookZrem(sets: Sets, key: string, uid: string, k: string, u: string)
    ensures Look(sets[key := QueueAt(sets, key) - {uid}], k, u) ==
              if k == key && u == uid then None else Look(sets, k, u)
  {
  }
}
