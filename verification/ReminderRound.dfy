/** What one reminder module's share of a run does to one account, told from the records that are
    due and the mailer's answers alone. */
module ReminderRound {

  import opened Reminders
  import opened Results
  import opened ReminderRun

  // ---- The order of serving ----

  function KeyTasks(key: string, list: seq<Reminder>): seq<Task> {
    seq(|list|, i requires 0 <= i < |list| => Task(key, list[i]))
  }

  function TasksOf(keys: seq<string>, batch: map<string, seq<Reminder>>, n: nat): seq<Task>
    requires n <= |keys| && forall key <- keys :: key in batch
  {
    if n == 0 then [] else TasksOf(keys, batch, n - 1) + KeyTasks(keys[n - 1], batch[keys[n - 1]])
  }

  lemma {:induction false} WorkConcat(f: Family, post: Post, p: Progress, a: seq<Task>, b: seq<Task>, n: nat)
    requires n <= |b|
    ensures Work(f, post, Work(f, post, p, a, |a|), b, n) == Work(f, post, p, a + b, |a| + n)
  {
    if n == 0 {
      WorkPrefix(f, post, p, a, b, |a|);
    } else {
      WorkConcat(f, post, p, a, b, n - 1);
    }
  }

  lemma {:induction false} WorkPrefix(f: Family, post: Post, p: Progress, a: seq<Task>, b: seq<Task>, n: nat)
    requires n <= |a|
    ensures Work(f, post, p, a, n) == Work(f, post, p, a + b, n)
  {
    if n > 0 {
      WorkPrefix(f, post, p, a, b, n - 1);
    }
  }

  // ---- The mailer's answers decide ----

  /** One module with the time, its sets before the run, and what its mailer answers. */
  datatype Round = Round(f: Family, intervals: map<string, int>, now: int, before: Sets, post: Post) {

    predicate IsDue(k: string, u: string) {
      k in f.keys && k in intervals && u in InRange(QueueAt(before, k), now - intervals[k])
    }

    /** The mailer takes a mail to `u` for one of the first `n` keys. */
    ghost predicate Takes(n: int, u: string) {
      exists i :: 0 <= i < n && i < |f.keys| && IsDue(f.keys[i], u) && post(f.keys[i], u) == Sent
    }

    /** The record of `u` under key number `i` is due and its account has not been mailed by then. */
    ghost predicate Tried(sent: set<string>, i: int, u: string) {
      0 <= i < |f.keys| && IsDue(f.keys[i], u) && u !in sent && !Takes(i, u)
    }

    /** At key number `i` the account turns out to be gone, which deletes its record under `k`. */
    ghost predicate Deletes(sent: set<string>, i: int, k: string, u: string) {
      Tried(sent, i, u) && post(f.keys[i], u).Gone? && k in f.keys && k !in post(f.keys[i], u).failing
    }

    /** A due record whose turn is still to come when key number `i` is served. */
    ghost predicate Waits(i: int, k: string, u: string) {
      IsDue(k, u) && exists j :: 0 <= j < |f.keys| && i < j && f.keys[j] == k
    }

    /** Key number `i` takes the record of `u` under `k` away for good. */
    ghost predicate Ends(sent: set<string>, i: int, k: string, u: string) {
      && 0 <= i < |f.keys|
      && (|| (f.keys[i] == k && IsDue(k, u) && (!f.reinstates || (Tried(sent, i, u) && !post(k, u).Failed?)))
          || (Deletes(sent, i, k, u) && !Waits(i, k, u)))
    }

    ghost predicate Leaves(sent: set<string>, n: int, k: string, u: string) {
      exists i :: 0 <= i < n && Ends(sent, i, k, u)
    }

    /** The mail for the record of `u` under `k` is sent while the first `n` keys are served. */
    ghost predicate Mails(sent: set<string>, n: int, k: string, u: string) {
      exists i :: 0 <= i < n && Tried(sent, i, u) && f.keys[i] == k && post(k, u) == Sent
    }

    ghost predicate MailsTask(sent: set<string>, n: int, t: Task) {
      Mails(sent, n, t.key, t.reminder.uid) && Look(before, t.key, t.reminder.uid) == Some(t.reminder.timestamp)
    }

    /** The batch is what was due and `after` is what was left. */
    ghost predicate Pops(batch: map<string, seq<Reminder>>, after: Sets) {
      && Distinct(f.keys)
      && (forall key <- f.keys ::
            key in intervals && key in batch && Due(QueueAt(before, key), now - intervals[key], batch[key]))
      && (forall k, u :: Look(after, k, u) == if IsDue(k, u) then None else Look(before, k, u))
    }
  }

  // ---- The fold as one account sees it ----

  /** The two states agree on the account. */
  ghost predicate Alike(a: Progress, b: Progress, u: string) {
    && (u in a.sent <==> u in b.sent)
    && (forall k :: Look(a.sets, k, u) == Look(b.sets, k, u))
    && (forall t: Task :: t.reminder.uid == u ==> (t in MailedTasks(a.log) <==> t in MailedTasks(b.log)))
  }

  lemma OtherStep(f: Family, post: Post, p: Progress, t: Task, u: string)
    requires t.reminder.uid != u
    ensures Alike(p, Step(f, post, p, t), u)
  {
    hide Look, Step, FateOf, MailedTasks;
    StepFields(f, post, p, t);
    forall k ensures Look(p.sets, k, u) == Look(Step(f, post, p, t).sets, k, u) {
      LookStep(f, post, p, t, k, u);
    }
  }

  lemma StepFields(f: Family, post: Post, p: Progress, t: Task)
    ensures var q, fate := Step(f, post, p, t), FateOf(f, post, p.sent, t);
            && q.sent == p.sent + (if fate == Mailed then {t.reminder.uid} else {})
            && MailedTasks(q.log) == MailedTasks(p.log) + (if fate == Mailed then [t] else [])
  {
    hide FateOf, MailedTasks, Put, Removed;
    MailedExtends(p.log, Entry(t, FateOf(f, post, p.sent, t)));
  }

  lemma OwnStep(f: Family, post: Post, a: Progress, b: Progress, t: Task, u: string)
    requires t.reminder.uid == u && Alike(a, b, u)
    ensures Alike(Step(f, post, a, t), Step(f, post, b, t), u)
  {
    hide Look, Step, MailedTasks;
    StepFields(f, post, a, t);
    StepFields(f, post, b, t);
    forall k ensures Look(Step(f, post, a, t).sets, k, u) == Look(Step(f, post, b, t).sets, k, u) {
      LookStep(f, post, a, t, k, u);
      LookStep(f, post, b, t, k, u);
    }
  }

  lemma AlikeChain(a: Progress, b: Progress, c: Progress, u: string)
    requires Alike(a, b, u) && Alike(b, c, u)
    ensures Alike(a, c, u)
  {
    hide Look, MailedTasks;
  }

  /** Serving a key comes, for one account, to serving its record there, if any. */
  lemma {:induction false} KeyWork(f: Family, post: Post, p: Progress, key: string, list: seq<Reminder>, n: nat,
                                   u: string)
    requires n <= |list| && DistinctUids(list)
    ensures var q := Work(f, post, p, KeyTasks(key, list), n);
            && (u !in Uids(list[..n]) ==> Alike(p, q, u))
            && (forall i :: 0 <= i < n && list[i].uid == u ==> Alike(Step(f, post, p, Task(key, list[i])), q, u))
  {
    hide Alike, Step, Uids;
    if n == 0 {
      AlikeSelf(p, u);
    } else {
      var q, t := Work(f, post, p, KeyTasks(key, list), n - 1), Task(key, list[n - 1]);
      KeyWork(f, post, p, key, list, n - 1, u);
      assert list[..n] == list[..n - 1] + [list[n - 1]];
      UidsExtend(list[..n - 1], list[n - 1]);
      if t.reminder.uid == u {
        NotYetListed(list, n - 1);
        OwnStep(f, post, p, q, t, u);
      } else {
        OtherStep(f, post, q, t, u);
        forall i | 0 <= i < n && list[i].uid == u
          ensures Alike(Step(f, post, p, Task(key, list[i])), Step(f, post, q, t), u)
        {
          AlikeChain(Step(f, post, p, Task(key, list[i])), q, Step(f, post, q, t), u);
        }
        if u !in Uids(list[..n]) {
          AlikeChain(p, q, Step(f, post, q, t), u);
        }
      }
    }
  }

  lemma AlikeSelf(p: Progress, u: string)
    ensures Alike(p, p, u)
  {
  }

  lemma NotYetListed(list: seq<Reminder>, n: nat)
    requires n < |list| && DistinctUids(list)
    ensures list[n].uid !in Uids(list[..n])
  {
  }

  /** The record of `u` that is due under key number `n`. */
  function TaskAt(r: Round, n: nat, u: string): Task
    requires n < |r.f.keys| && r.IsDue(r.f.keys[n], u)
  {
    Task(r.f.keys[n], Reminder(u, QueueAt(r.before, r.f.keys[n])[u]))
  }

  ghost function Reached(r: Round, batch: map<string, seq<Reminder>>, p: Progress, n: nat): Progress
    requires n <= |r.f.keys| && r.Pops(batch, p.sets)
  {
    var tasks := TasksOf(r.f.keys, batch, n);
    Work(r.f, r.post, p, tasks, |tasks|)
  }

  lemma RoundStep(r: Round, batch: map<string, seq<Reminder>>, p: Progress, n: nat, u: string)
    requires n < |r.f.keys| && r.Pops(batch, p.sets)
    ensures var q, q' := Reached(r, batch, p, n), Reached(r, batch, p, n + 1);
            if r.IsDue(r.f.keys[n], u) then Alike(Step(r.f, r.post, q, TaskAt(r, n, u)), q', u) else Alike(q, q', u)
  {
    hide Alike, Step, Look, InRange, Uids;
    var key := r.f.keys[n];
    var tasks, list := TasksOf(r.f.keys, batch, n), batch[key];
    var q := Reached(r, batch, p, n);
    WorkConcat(r.f, r.post, p, tasks, KeyTasks(key, list), |list|);
    KeyWork(r.f, r.post, q, key, list, |list|, u);
    assert list[..|list|] == list;
    if r.IsDue(key, u) {
      var i := UidAt(list, u);
      assert list[i] in list;
      assert list[i] == TaskAt(r, n, u).reminder;
    }
  }

  lemma {:induction false} SentAfter(r: Round, batch: map<string, seq<Reminder>>, p: Progress, n: nat, u: string)
    requires n <= |r.f.keys| && r.Pops(batch, p.sets)
    ensures u in Reached(r, batch, p, n).sent <==> u in p.sent || r.Takes(n, u)
  {
    hide Round.Pops, Round.IsDue, Look, MailedTasks;
    if n > 0 {
      SentAfter(r, batch, p, n - 1, u);
      RoundStep(r, batch, p, n - 1, u);
      if r.IsDue(r.f.keys[n - 1], u) {
        StepFields(r.f, r.post, Reached(r, batch, p, n - 1), TaskAt(r, n - 1, u));
      }
    }
  }

  lemma {:induction false} MailsAfter(r: Round, batch: map<string, seq<Reminder>>, p: Progress, n: nat, t: Task)
    requires n <= |r.f.keys| && r.Pops(batch, p.sets) && p.log == []
    ensures t in MailedTasks(Reached(r, batch, p, n).log) <==> r.MailsTask(p.sent, n, t)
  {
    hide Round.Pops, Look, MailedTasks, Step, Round.Takes;
    var k, u := t.key, t.reminder.uid;
    if n == 0 {
      NothingMailed();
    } else {
      var q := Reached(r, batch, p, n - 1);
      MailsAfter(r, batch, p, n - 1, t);
      RoundStep(r, batch, p, n - 1, u);
      SentAfter(r, batch, p, n - 1, u);
      if r.IsDue(r.f.keys[n - 1], u) {
        StepFields(r.f, r.post, q, TaskAt(r, n - 1, u));
        DueLook(r, r.f.keys[n - 1], u);
      }
    }
  }

  lemma NothingMailed()
    ensures MailedTasks([]) == []
  {
  }

  lemma DueLook(r: Round, k: string, u: string)
    requires r.IsDue(k, u)
    ensures Look(r.before, k, u) == Some(QueueAt(r.before, k)[u])
  {
  }

  lemma {:induction false} LookAfter(r: Round, batch: map<string, seq<Reminder>>, p: Progress, n: nat, k: string,
                                     u: string)
    requires n <= |r.f.keys| && r.Pops(batch, p.sets)
    ensures Look(Reached(r, batch, p, n).sets, k, u) ==
              if r.Leaves(p.sent, n, k, u) || r.Waits(n - 1, k, u) then None else Look(r.before, k, u)
  {
    hide Look, MailedTasks, Step, Round.Takes, Round.IsDue, Round.Ends, Round.Waits;
    if n == 0 {
      StillWaiting(r, k, u);
    } else {
      var q := Reached(r, batch, p, n - 1);
      LookAfter(r, batch, p, n - 1, k, u);
      RoundStep(r, batch, p, n - 1, u);
      SentAfter(r, batch, p, n - 1, u);
      if r.IsDue(r.f.keys[n - 1], u) {
        LookStep(r.f, r.post, q, TaskAt(r, n - 1, u), k, u);
        DueLook(r, r.f.keys[n - 1], u);
        if r.f.keys[n - 1] == k {
          OwnTurn(r, p.sent, n - 1, u);
        } else {
          OthersTurn(r, p.sent, n - 1, k, u);
        }
      } else {
        NoTurn(r, p.sent, n - 1, k, u);
      }
    }
  }

  lemma StillWaiting(r: Round, k: string, u: string)
    ensures r.Waits(-1, k, u) <==> r.IsDue(k, u)
  {
    if r.IsDue(k, u) {
      var j :| 0 <= j < |r.f.keys| && r.f.keys[j] == k;
    }
  }

  lemma NoTurn(r: Round, sent: set<string>, n: nat, k: string, u: string)
    requires n < |r.f.keys| && !r.IsDue(r.f.keys[n], u)
    ensures !r.Ends(sent, n, k, u) && (r.Waits(n, k, u) <==> r.Waits(n - 1, k, u))
  {
    hide Round.IsDue;
  }

  /** At the turn of the record itself. */
  lemma OwnTurn(r: Round, sent: set<string>, n: nat, u: string)
    requires n < |r.f.keys| && Distinct(r.f.keys) && r.IsDue(r.f.keys[n], u)
    ensures var k := r.f.keys[n];
            && r.Waits(n - 1, k, u) && !r.Waits(n, k, u) && !r.Leaves(sent, n, k, u)
            && (r.Ends(sent, n, k, u) <==> !r.f.reinstates || (r.Tried(sent, n, u) && !r.post(k, u).Failed?))
  {
    hide Round.IsDue, Round.Takes;
    var k := r.f.keys[n];
    forall i | 0 <= i < n ensures !r.Ends(sent, i, k, u) {
      assert r.Waits(i, k, u);
    }
  }

  /** At the turn of another record of the same account. */
  lemma OthersTurn(r: Round, sent: set<string>, n: nat, k: string, u: string)
    requires n < |r.f.keys| && r.f.keys[n] != k
    ensures r.Waits(n - 1, k, u) <==> r.Waits(n, k, u)
    ensures r.Ends(sent, n, k, u) <==> r.Deletes(sent, n, k, u) && !r.Waits(n, k, u)
  {
    hide Round.IsDue, Round.Takes;
  }

  // ---- A whole round ----

  /** The accounts these mails go to. */
  function Accounts(mails: seq<Task>): set<string> {
    set t <- mails :: t.reminder.uid
  }

  /** A round that starts with `sent` already mailed sends exactly the mails the mailer takes at their
      turn, and leaves every record where it was unless its round ends it. */
  ghost predicate Delivers(r: Round, sent: set<string>, final: Sets, mails: seq<Task>) {
    var n := |r.f.keys|;
    && (forall t: Task :: t in mails <==> r.MailsTask(sent, n, t))
    && (forall k, u :: Look(final, k, u) == if r.Leaves(sent, n, k, u) then None else Look(r.before, k, u))
  }

  lemma RoundDelivers(r: Round, batch: map<string, seq<Reminder>>, p: Progress)
    requires r.Pops(batch, p.sets) && p.log == []
    ensures var q := Reached(r, batch, p, |r.f.keys|);
            && Delivers(r, p.sent, q.sets, MailedTasks(q.log))
            && (forall u :: u in q.sent <==> u in p.sent || r.Takes(|r.f.keys|, u))
  {
    hide Round.Pops, Round.MailsTask, Round.Leaves, Look, Reached, MailedTasks, Round.Takes;
    var n := |r.f.keys|;
    var q := Reached(r, batch, p, n);
    forall t: Task ensures t in MailedTasks(q.log) <==> r.MailsTask(p.sent, n, t) {
      MailsAfter(r, batch, p, n, t);
    }
    forall k, u ensures Look(q.sets, k, u) == if r.Leaves(p.sent, n, k, u) then None else Look(r.before, k, u) {
      LookAfter(r, batch, p, n, k, u);
    }
    forall u ensures u in q.sent <==> u in p.sent || r.Takes(n, u) {
      SentAfter(r, batch, p, n, u);
    }
  }

  /** Who has been mailed is who the mails went to. */
  lemma {:induction false} SentIsMailed(sent: set<string>, log: seq<Entry>)
    ensures SentBy(sent, log, |log|) == sent + Accounts(MailedTasks(log))
  {
    if log != [] {
      var init, last := log[..|log| - 1], log[|log| - 1];
      SentIsMailed(sent, init);
      SentByExtends(sent, init, last, |init|);
      assert log == init + [last];
      AccountsJoin(MailedTasks(init), [last.task]);
    }
  }

  lemma AccountsJoin(a: seq<Task>, b: seq<Task>)
    ensures Accounts(a + b) == Accounts(a) + Accounts(b)
    ensures |b| == 1 ==> Accounts(b) == {b[0].reminder.uid}
  {
    forall u | u in Accounts(a) ensures u in Accounts(a + b) {
      var t :| t in a && t.reminder.uid == u;
      assert t in a + b;
    }
    forall u | u in Accounts(b) ensures u in Accounts(a + b) {
      var t :| t in b && t.reminder.uid == u;
      assert t in a + b;
    }
  }

  /** The fate of a due record of a module that reinstates, from the answers alone: it is back with its
      old timestamp if it was not tried or failed and no later turn deletes it; it is gone if it was
      mailed or its account was gone at its turn, or if a later turn deletes it. */
  lemma DueRecordFate(r: Round, sent: set<string>, final: Sets, mails: seq<Task>, i: nat, u: string)
    requires Delivers(r, sent, final, mails) && Distinct(r.f.keys) && r.f.reinstates
    requires i < |r.f.keys| && r.IsDue(r.f.keys[i], u)
    ensures var k := r.f.keys[i];
            && (Look(final, k, u).None? || Look(final, k, u) == Look(r.before, k, u))
            && (Look(final, k, u).None? <==>
                  || (r.Tried(sent, i, u) && !r.post(k, u).Failed?)
                  || exists j :: i < j && r.Deletes(sent, j, k, u))
  {
    hide Round.IsDue, Round.Takes, Look, Round.Mails;
    var k, n := r.f.keys[i], |r.f.keys|;
    DueLook(r, k, u);
    if r.Leaves(sent, n, k, u) {
      var j :| 0 <= j < n && r.Ends(sent, j, k, u);
      assert j < i ==> r.Waits(j, k, u);
    }
    if r.Tried(sent, i, u) && !r.post(k, u).Failed? {
      assert r.Ends(sent, i, k, u);
    }
    if j :| i < j && r.Deletes(sent, j, k, u) {
      assert !r.Waits(j, k, u);
      assert r.Ends(sent, j, k, u);
    }
  }
}
