/** The loops of the batch script, proved to do what the fold of `ReminderRun` does although they
    hold failures back and reinstate them only after a whole key has been served. */
module ReminderScript {

  import opened Reminders
  import opened Results
  import opened ReminderRun
  import opened ReminderRound

  /** Two stores that hold the same members with the same scores. */
  ghost predicate Same(a: Sets, b: Sets) {
    forall k, u :: Look(a, k, u) == Look(b, k, u)
  }

  // ---- One key ----

  /** What the store will hold once the failures gathered so far have been reinstated. */
  function Settled(f: Family, sets: Sets, key: string, failed: seq<Reminder>): Sets {
    if f.reinstates then Reinstated(sets, key, failed) else sets
  }

  /** Holding a failure back or putting it straight back comes to the same. */
  lemma FailureSettles(f: Family, spec: Sets, sets: Sets, key: string, failed: seq<Reminder>, r: Reminder)
    requires Same(spec, Settled(f, sets, key, failed))
    ensures Same(if f.reinstates then Put(spec, key, r) else spec, Settled(f, sets, key, failed + [r]))
  {
    assert (failed + [r])[..|failed|] == failed;
    if f.reinstates {
      var settled := Reinstated(sets, key, failed);
      assert Reinstated(sets, key, failed + [r]) == Put(settled, key, r);
      forall k, u ensures Look(Put(spec, key, r), k, u) == Look(Put(settled, key, r), k, u) {
        hide Look, Put;
        LookPut(spec, key, r, k, u);
        LookPut(settled, key, r, k, u);
        assert Look(spec, k, u) == Look(settled, k, u);
      }
    }
  }

  /** Deleting an account commutes with reinstating the failures of other accounts. */
  lemma DeletionSettles(f: Family, spec: Sets, sets: Sets, trimmed: Sets, key: string, failed: seq<Reminder>,
                        uid: string, failing: set<string>)
    requires Same(spec, Settled(f, sets, key, failed)) && DistinctUids(failed) && uid !in Uids(failed)
    requires forall k, u :: Look(trimmed, k, u) == if k in f.keys && k !in failing
               && u == uid then None else Look(sets, k, u)
    ensures Same(Removed(spec, f.keys, failing, uid), Settled(f, trimmed, key, failed))
  {
    forall k, u ensures Look(Removed(spec, f.keys, failing, uid), k, u) ==
             Look(Settled(f, trimmed, key, failed), k, u) {
      hide Look, Removed, Reinstated;
      LookRemoved(spec, f.keys, failing, uid, k, u);
      assert Look(spec, k, u) == Look(Settled(f, sets, key, failed), k, u);
      LookReinstated(sets, key, failed, k, u);
      LookReinstated(trimmed, key, failed, k, u);
      if k == key && u in Uids(failed) {
        var r :| r in failed && r.uid == u;
        var i :| 0 <= i < |failed| && failed[i] == r;
      }
    }
  }

  /** Serve one key: mail what can be mailed, then reinstate the rest. */
  method MailKey(m: ReminderModule, f: Family, post: Post, key: string, reminders: seq<Reminder>,
                 sent: set<string>, mails: seq<Task>, ghost p: Progress)
    returns (sent': set<string>, mails': seq<Task>, ghost q: Progress)
    requires f.keys == m.keys && DistinctUids(reminders)
    requires Same(p.sets, m.sets) && p.sent == sent && MailedTasks(p.log) == mails
    modifies m
    ensures q == Work(f, post, p, KeyTasks(key, reminders), |reminders|)
    ensures Same(q.sets, m.sets) && q.sent == sent' && MailedTasks(q.log) == mails'
  {
    hide Same, Uids, DistinctUids, Put, Removed, Reinstated, Look, MailedTasks;
    var failed := [];
    sent', mails', q := sent, mails, p;
    NothingSettles(f, m.sets, key);
    for i := 0 to |reminders|
      invariant q == Work(f, post, p, KeyTasks(key, reminders), i)
      invariant q.sent == sent' && MailedTasks(q.log) == mails' && Same(q.sets, Settled(f, m.sets, key, failed))
      invariant DistinctUids(failed) && Uids(failed) <= Uids(reminders[..i])
    {
      var reminder := reminders[i];
      UidIsNew(reminders, i);
      UidsExtend(failed, reminder);
      FailureSettles(f, q.sets, m.sets, key, failed, reminder);
      ghost var was := q;
      MailedExtends(q.log, Entry(Task(key, reminder), FateOf(f, post, q.sent, Task(key, reminder))));
      q := Step(f, post, q, Task(key, reminder));
      if reminder.uid in sent' {
        failed := failed + [reminder];
      } else {
        match post(key, reminder.uid) {
          case Sent =>
            sent', mails' := sent' + {reminder.uid}, mails' + [Task(key, reminder)];
          case Gone(failing) =>
            ghost var sets := m.sets;
            m.Delete(reminder.uid, failing);
            DeletionSettles(f, was.sets, sets, m.sets, key, failed, reminder.uid, failing);
          case Failed =>
            failed := failed + [reminder];
        }
      }
    }
    if f.reinstates && |failed| > 0 {
      m.Reinstate(key, failed);
    } else {
      NothingSettles(f, m.sets, key);
    }
  }

  lemma NothingSettles(f: Family, sets: Sets, key: string)
    ensures Settled(f, sets, key, []) == sets && Uids([]) == {} && DistinctUids([])
  {
  }

  lemma UidIsNew(list: seq<Reminder>, i: nat)
    requires i < |list| && DistinctUids(list)
    ensures list[i].uid !in Uids(list[..i]) && Uids(list[..i + 1]) == Uids(list[..i]) + {list[i].uid}
  {
    assert list[..i + 1] == list[..i] + [list[i]];
    UidsExtend(list[..i], list[i]);
  }

  // ---- One module ----

  method MailModule(m: ReminderModule, f: Family, post: Post, batch: map<string, seq<Reminder>>, sent: set<string>)
    returns (sent': set<string>, mails: seq<Task>, ghost q: Progress)
    requires f.keys == m.keys
    requires forall key <- m.keys :: key in batch && DistinctUids(batch[key])
    modifies m
    ensures var tasks := TasksOf(m.keys, batch, |m.keys|);
            q == Work(f, post, Progress(old(m.sets), sent, []), tasks, |tasks|)
    ensures Same(q.sets, m.sets) && q.sent == sent' && MailedTasks(q.log) == mails
  {
    hide Look, DistinctUids, Step;
    ghost var p := Progress(m.sets, sent, []);
    sent', mails, q := sent, [], p;
    for i := 0 to |m.keys|
      invariant var tasks := TasksOf(m.keys, batch, i); q == Work(f, post, p, tasks, |tasks|)
      invariant Same(q.sets, m.sets) && q.sent == sent' && MailedTasks(q.log) == mails
    {
      WorkConcat(f, post, p, TasksOf(m.keys, batch, i), KeyTasks(m.keys[i], batch[m.keys[i]]), |batch[m.keys[i]]|);
      sent', mails, q := MailKey(m, f, post, m.keys[i], batch[m.keys[i]], sent', mails, q);
    }
  }

  // ---- The whole run ----

  /** The tasks are the batch: every record of every key once. */
  lemma {:induction false} TasksAreBatch(keys: seq<string>, batch: map<string, seq<Reminder>>, n: nat, k: string,
                                         u: string)
    requires n <= |keys| && forall key <- keys :: key in batch
    ensures Pending(TasksOf(keys, batch, n), 0, k, u) <==> k in keys[..n] && u in Uids(batch[k])
  {
    if n > 0 {
      var init, last := TasksOf(keys, batch, n - 1), KeyTasks(keys[n - 1], batch[keys[n - 1]]);
      TasksAreBatch(keys, batch, n - 1, k, u);
      PendingConcat(init, last, k, u);
      PendingKey(keys[n - 1], batch[keys[n - 1]], k, u);
      assert keys[..n] == keys[..n - 1] + [keys[n - 1]];
    }
  }

  lemma PendingConcat(a: seq<Task>, b: seq<Task>, k: string, u: string)
    ensures Pending(a + b, 0, k, u) <==> Pending(a, 0, k, u) || Pending(b, 0, k, u)
  {
    if Pending(a, 0, k, u) {
      var i :| 0 <= i < |a| && a[i].key == k && a[i].reminder.uid == u;
      assert (a + b)[i] == a[i];
    }
    if Pending(b, 0, k, u) {
      var i :| 0 <= i < |b| && b[i].key == k && b[i].reminder.uid == u;
      assert (a + b)[|a| + i] == b[i];
    }
  }

  lemma PendingKey(key: string, list: seq<Reminder>, k: string, u: string)
    ensures Pending(KeyTasks(key, list), 0, k, u) <==> k == key && u in Uids(list)
  {
    if k == key && u in Uids(list) {
      var r :| r in list && r.uid == u;
      var i :| 0 <= i < |list| && list[i] == r;
      assert KeyTasks(key, list)[i].reminder == r;
    }
  }

  lemma {:induction false} TasksDistinct(keys: seq<string>, batch: map<string, seq<Reminder>>, n: nat)
    requires n <= |keys| && Distinct(keys) && forall key <- keys :: key in batch && DistinctUids(batch[key])
    ensures var tasks := TasksOf(keys, batch, n);
            && (forall t <- tasks :: t.key in keys[..n] && t.reminder in batch[t.key])
            && (forall i, j :: 0 <= i < j < |tasks| ==>
                 tasks[i].key != tasks[j].key || tasks[i].reminder.uid != tasks[j].reminder.uid)
  {
    if n > 0 {
      TasksDistinct(keys, batch, n - 1);
      var init, last := TasksOf(keys, batch, n - 1), KeyTasks(keys[n - 1], batch[keys[n - 1]]);
      assert forall i :: 0 <= i < |init| ==> init[i] in init;
      assert keys[..n] == keys[..n - 1] + [keys[n - 1]];
    }
  }

  ghost predicate Named(log: seq<Entry>, k: string, u: string) {
    exists i :: 0 <= i < |log| && log[i].task.key == k && log[i].task.reminder.uid == u
  }

  /** A module after its share of a run: the log names exactly the records that were due, each once, and every
      record, due or not, is where it was unless the log says that it is gone. */
  ghost predicate Accounted(f: Family, intervals: map<string, int>, now: int, before: Sets, final: Sets,
                            log: seq<Entry>)
    requires forall key <- f.keys :: key in intervals
  {
    && (forall k, u :: Named(log, k, u) <==> k in f.keys && u in InRange(QueueAt(before, k), now - intervals[k]))
    && (forall k, u ::
          Look(final, k, u) == if Lost(f.keys, log, |log|, k, u) then None else Look(before, k, u))
    && (forall e <- log :: e.fate != if f.reinstates then Discarded else PutBack)
    && (forall i, j :: 0 <= i < j < |log| ==>
          log[i].task.key != log[j].task.key || log[i].task.reminder.uid != log[j].task.reminder.uid)
  }

  /** What a module popped and what became of it account for everything that was in the module. */
  lemma ShareAccounts(f: Family, post: Post, intervals: map<string, int>, now: int, before: Sets, p: Progress,
                      batch: map<string, seq<Reminder>>)
    requires Distinct(f.keys) && p.log == []
    requires forall key <- f.keys :: key in intervals && key in batch
               && Due(QueueAt(before, key), now - intervals[key], batch[key])
    requires forall k, u :: Look(p.sets, k, u) ==
               if k in f.keys && u in Uids(batch[k]) then None else Look(before, k, u)
    ensures var tasks := TasksOf(f.keys, batch, |f.keys|);
            var q := Work(f, post, p, tasks, |tasks|);
            Popped(before, p.sets, tasks) && Accounted(f, intervals, now, before, q.sets, q.log)
  {
    hide Work, Lost, Uids, InRange, TasksOf, Pending;
    var tasks := TasksOf(f.keys, batch, |f.keys|);
    var q := Work(f, post, p, tasks, |tasks|);
    assert f.keys[..|f.keys|] == f.keys;
    TasksDistinct(f.keys, batch, |f.keys|);
    forall k, u ensures Pending(tasks, 0, k, u) <==> k in f.keys && u in Uids(batch[k]) {
      TasksAreBatch(f.keys, batch, |f.keys|, k, u);
    }
    assert Popped(before, p.sets, tasks);
    LogIsTasks(f, post, p, tasks, |tasks|);
    forall k, u ensures Named(q.log, k, u) <==> k in f.keys && u in InRange(QueueAt(before, k), now - intervals[k]) {
      NamedIsPending(tasks, q.log, k, u);
    }
    forall k, u ensures Look(q.sets, k, u) == if Lost(f.keys, q.log, |q.log|, k, u) then None else Look(before, k, u) {
      RunKeepsOrExplains(f, post, before, p, tasks, k, u);
    }
  }

  lemma NamedIsPending(tasks: seq<Task>, log: seq<Entry>, k: string, u: string)
    requires |log| == |tasks| && forall i :: 0 <= i < |log| ==> log[i].task == tasks[i]
    ensures Named(log, k, u) <==> Pending(tasks, 0, k, u)
  {
  }

  /** Only the members and scores of the final sets matter. */
  lemma SameFinal(r: Round, sent: set<string>, a: Sets, b: Sets, log: seq<Entry>, mails: seq<Task>)
    requires (forall key <- r.f.keys :: key in r.intervals) && Same(a, b)
    requires Accounted(r.f, r.intervals, r.now, r.before, a, log) && Delivers(r, sent, a, mails)
    ensures Accounted(r.f, r.intervals, r.now, r.before, b, log) && Delivers(r, sent, b, mails)
  {
    hide Look, Named, Lost, InRange, Round.Mails, Round.Leaves;
    assert forall k, u :: Look(a, k, u) == Look(b, k, u);
  }

  lemma BatchPops(r: Round, batch: map<string, seq<Reminder>>, after: Sets)
    requires Distinct(r.f.keys)
    requires forall key <- r.f.keys :: key in r.intervals && key in batch
               && Due(QueueAt(r.before, key), r.now - r.intervals[key], batch[key])
    requires forall k, u :: Look(after, k, u) ==
               if k in r.f.keys && u in Uids(batch[k]) then None else Look(r.before, k, u)
    ensures r.Pops(batch, after)
  {
    hide Look, Uids, InRange;
  }

  /** One module's share of the script: `mails` are the mails sent, in order. */
  method Serve(m: ReminderModule, f: Family, post: Post, now: int, batch: map<string, seq<Reminder>>, sent: set<string>,
               ghost before: Sets)
    returns (sent': set<string>, mails: seq<Task>, ghost log: seq<Entry>)
    requires m.Valid() && f.keys == m.keys
    requires forall key <- m.keys :: key in batch && Due(QueueAt(before, key), now - m.intervals[key], batch[key])
    requires forall k, u :: Look(m.sets, k, u) ==
               if k in m.keys && u in Uids(batch[k]) then None else Look(before, k, u)
    modifies m
    ensures Accounted(f, m.intervals, now, before, m.sets, log)
    ensures Truthful(f, post, sent, log) && sent' == SentBy(sent, log, |log|) && mails == MailedTasks(log)
    ensures OneMailEach(log) && MailedBetween(log, sent, sent')
    ensures var r := Round(f, m.intervals, now, before, post);
            && Delivers(r, sent, m.sets, mails) && (forall u :: u in sent' <==> u in sent || r.Takes(|m.keys|, u))
  {
    hide Look, Work, Uids, TasksOf, OneMailEach, MailedBetween, Named, Lost, InRange, Truthful, MailedTasks, SentBy,
         Accounted, Delivers, Same, Round.Pops, Round.Takes;
    ghost var r := Round(f, m.intervals, now, before, post);
    BatchPops(r, batch, m.sets);
    RoundDelivers(r, batch, Progress(m.sets, sent, []));
    ghost var p := Progress(m.sets, sent, []);
    ghost var q;
    ShareAccounts(f, post, m.intervals, now, before, p, batch);
    ghost var tasks := TasksOf(m.keys, batch, |m.keys|);
    WorkMailsOnce(f, post, p, tasks, |tasks|);
    WorkIsTruthful(f, post, p, tasks, |tasks|);
    sent', mails, q := MailModule(m, f, post, batch, sent);
    log := q.log;
    SameFinal(r, sent, q.sets, m.sets, log, mails);
  }

  /** The script: pop from all three modules, then serve them one after the other. The mails sent are
      exactly those the logs name as mailed, and no two of them go to the same account. */
  method Run(verification: ReminderModule, subscription: ReminderModule, cad: ReminderModule,
             verifyAt: int, subscribeAt: int, cadAt: int, toVerify: Post, toSubscribe: Post, toCad: Post)
    returns (mails: seq<Task>, ghost verifyLog: seq<Entry>, ghost subscribeLog: seq<Entry>, ghost cadLog: seq<Entry>)
    requires verification != subscription && verification != cad && subscription != cad
    requires verification.Valid() && subscription.Valid() && cad.Valid()
    modifies verification, subscription, cad
    ensures OneEach(mails)
    ensures mails == MailedTasks(verifyLog) + MailedTasks(subscribeLog) + MailedTasks(cadLog)
    ensures var verified := SentBy({}, verifyLog, |verifyLog|);
            && Truthful(Family(verification.keys, true), toVerify, {}, verifyLog)
            && Truthful(Family(subscription.keys, true), toSubscribe, verified, subscribeLog)
            && Truthful(Family(cad.keys, false), toCad, SentBy(verified, subscribeLog, |subscribeLog|), cadLog)
    ensures Accounted(Family(verification.keys, true), verification.intervals, verifyAt,
                      old(verification.sets), verification.sets, verifyLog)
    ensures Accounted(Family(subscription.keys, true), subscription.intervals, subscribeAt,
                      old(subscription.sets), subscription.sets, subscribeLog)
    ensures Accounted(Family(cad.keys, false), cad.intervals, cadAt, old(cad.sets), cad.sets, cadLog)
    ensures var verify := Round(Family(verification.keys, true), verification.intervals, verifyAt,
                                old(verification.sets), toVerify);
            var subscribe := Round(Family(subscription.keys, true), subscription.intervals, subscribeAt,
                                   old(subscription.sets), toSubscribe);
            var connect := Round(Family(cad.keys, false), cad.intervals, cadAt, old(cad.sets), toCad);
            var (first, second) := (MailedTasks(verifyLog), MailedTasks(subscribeLog));
            && Delivers(verify, {}, verification.sets, first)
            && Delivers(subscribe, Accounts(first), subscription.sets, second)
            && Delivers(connect, Accounts(first) + Accounts(second), cad.sets, MailedTasks(cadLog))
            && (forall u :: u in Accounts(mails) <==>
                  || verify.Takes(|verification.keys|, u) || subscribe.Takes(|subscription.keys|, u)
                  || connect.Takes(|cad.keys|, u))
  {
    hide Look, Due, Work, Uids, TasksOf, Accounted, OneMailEach, MailedBetween, Same, Truthful, MailedTasks, OneEach,
         SentBy, Delivers, Round.Takes, Accounts;
    var vBatch := verification.Process(verifyAt);
    var sBatch := subscription.Process(subscribeAt);
    var cBatch := cad.Process(cadAt);
    var sent, v, s, c := {}, [], [], [];
    sent, v, verifyLog := Serve(verification, Family(verification.keys, true), toVerify, verifyAt, vBatch, sent,
        old(verification.sets));
    ghost var afterVerify := sent;
    sent, s, subscribeLog := Serve(subscription, Family(subscription.keys, true), toSubscribe, subscribeAt, sBatch,
        sent, old(subscription.sets));
    ghost var afterSubscribe := sent;
    sent, c, cadLog := Serve(cad, Family(cad.keys, false), toCad, cadAt, cBatch, sent, old(cad.sets));
    mails := v + s + c;
    OneMailJoin(verifyLog, subscribeLog, {}, afterVerify, afterSubscribe);
    OneMailJoin(verifyLog + subscribeLog, cadLog, {}, afterSubscribe, sent);
    MailedConcat(verifyLog, subscribeLog);
    MailedConcat(verifyLog + subscribeLog, cadLog);
    MailsAreDistinct(verifyLog + subscribeLog + cadLog);
    SentIsMailed({}, verifyLog);
    SentIsMailed(afterVerify, subscribeLog);
    SentIsMailed(afterSubscribe, cadLog);
    AccountsJoin(v, s);
    AccountsJoin(v + s, c);
    assert afterVerify == Accounts(v) && afterSubscribe == Accounts(v) + Accounts(s);
  }
}
