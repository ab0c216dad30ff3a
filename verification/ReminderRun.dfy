/** The batch script: every reminder module is emptied of what is due, then each popped record is
    mailed, dropped or put back, key by key and module by module. */
module ReminderRun {

  import opened Reminders
  import opened Results

  /** What the attempt to mail one record came to; after a missing account or a bounce the account's
      records are deleted, and failures to do so, for some of the keys or all, are ignored. */
  datatype Outcome = Sent | Gone(failing: set<string>) | Failed

  datatype Task = Task(key: string, reminder: Reminder)

  datatype Fate = Mailed | Dropped(failing: set<string>) | PutBack | Discarded

  datatype Entry = Entry(task: Task, fate: Fate)

  /** A reminder module as the script sees it; one of the three never reinstates. */
  datatype Family = Family(keys: seq<string>, reinstates: bool)

  datatype Progress = Progress(sets: Sets, sent: set<string>, log: seq<Entry>)

  type Post = (string, string) -> Outcome

  // ---- The run as a fold over the popped records ----

  function FateOf(f: Family, post: Post, sent: set<string>, t: Task): Fate {
    var back := if f.reinstates then PutBack else Discarded;
    if t.reminder.uid in sent then back
    else match post(t.key, t.reminder.uid)
      case Sent => Mailed
      case Gone(failing) => Dropped(failing)
      case Failed => back
  }

  function Step(f: Family, post: Post, p: Progress, t: Task): Progress {
    var fate := FateOf(f, post, p.sent, t);
    Progress(
      if fate == PutBack then Put(p.sets, t.key, t.reminder)
      else if fate.Dropped? then Removed(p.sets, f.keys, fate.failing, t.reminder.uid)
      else p.sets,
      if fate == Mailed then p.sent + {t.reminder.uid} else p.sent,
      p.log + [Entry(t, fate)])
  }

  function Work(f: Family, post: Post, p: Progress, tasks: seq<Task>, n: nat): Progress
    requires n <= |tasks|
  {
    if n == 0 then p else Step(f, post, Work(f, post, p, tasks, n - 1), tasks[n - 1])
  }

  /** Whether a record for `u` under `k` is among the tasks from position `n` on. */
  ghost predicate Pending(tasks: seq<Task>, n: nat, k: string, u: string) {
    exists i :: n <= i < |tasks| && tasks[i].key == k && tasks[i].reminder.uid == u
  }

  /** The tasks are what was taken out of `before`, leaving `after`. */
  ghost predicate Popped(before: Sets, after: Sets, tasks: seq<Task>) {
    && (forall i, j :: 0 <= i < j < |tasks| ==>
         tasks[i].key != tasks[j].key || tasks[i].reminder.uid != tasks[j].reminder.uid)
    && (forall t <- tasks :: Look(before, t.key, t.reminder.uid) == Some(t.reminder.timestamp))
    && (forall k, u :: Look(after, k, u) == if Pending(tasks, 0, k, u) then None else Look(before, k, u))
  }

  // ---- Where a record is after the run ----

  /** The last word the log has on the record of `u` under `k`: it is gone once it was mailed, dropped
      or discarded, or once any drop of `u` deleted it, unless it was put back later. */
  ghost predicate Lost(keys: seq<string>, log: seq<Entry>, n: nat, k: string, u: string)
    requires n <= |log|
  {
    n > 0 &&
    var e := log[n - 1];
    if e.task.reminder.uid != u then Lost(keys, log, n - 1, k, u)
    else if e.task.key == k then e.fate != PutBack
    else (e.fate.Dropped? && k in keys && k !in e.fate.failing) || Lost(keys, log, n - 1, k, u)
  }

  lemma {:induction false} LostExtends(keys: seq<string>, log: seq<Entry>, e: Entry, n: nat, k: string, u: string)
    requires n <= |log|
    ensures Lost(keys, log + [e], n, k, u) == Lost(keys, log, n, k, u)
  {
    if n > 0 {
      LostExtends(keys, log, e, n - 1, k, u);
    }
  }

  lemma LookStep(f: Family, post: Post, p: Progress, t: Task, k: string, u: string)
    ensures var fate := FateOf(f, post, p.sent, t); var q := Step(f, post, p, t);
            Look(q.sets, k, u) ==
              if u != t.reminder.uid then Look(p.sets, k, u)
              else if fate == PutBack && k == t.key then Some(t.reminder.timestamp)
              else if fate.Dropped? && k in f.keys && k !in fate.failing then None
              else Look(p.sets, k, u)
  {
    hide Look, Put, Removed;
    LookPut(p.sets, t.key, t.reminder, k, u);
    var fate := FateOf(f, post, p.sent, t);
    if fate.Dropped? {
      LookRemoved(p.sets, f.keys, fate.failing, t.reminder.uid, k, u);
    }
  }

  lemma PendingStep(tasks: seq<Task>, n: nat, k: string, u: string)
    requires n < |tasks|
    ensures Pending(tasks, n, k, u) == (Pending(tasks, n + 1, k, u)
              || (tasks[n].key == k && tasks[n].reminder.uid == u))
  {
  }

  /** The log names every popped record exactly once, in order; a failure is put back or discarded
      as the module has it. */
  lemma {:induction false} LogIsTasks(f: Family, post: Post, p: Progress, tasks: seq<Task>, n: nat)
    requires n <= |tasks| && p.log == []
    ensures var q := Work(f, post, p, tasks, n);
            && |q.log| == n
            && forall i :: 0 <= i < n ==>
                 q.log[i].task == tasks[i] && q.log[i].fate != if f.reinstates then Discarded else PutBack
  {
    if n > 0 {
      LogIsTasks(f, post, p, tasks, n - 1);
    }
  }

  /** At every point of the run a record is where it was before, waiting in the batch, or lost. */
  lemma {:induction false} WorkBalance(f: Family, post: Post, before: Sets, p: Progress, tasks: seq<Task>, n: nat,
                                       k: string, u: string)
    requires n <= |tasks| && p.log == [] && Popped(before, p.sets, tasks)
    ensures var q := Work(f, post, p, tasks, n);
            && |q.log| == n
            && Look(q.sets, k, u) ==
                 if Pending(tasks, n, k, u) || Lost(f.keys, q.log, n, k, u) then None else Look(before, k, u)
  {
    hide Look, FateOf, Pending, Popped;
    PendingIsStored(before, p.sets, tasks, k, u);
    if n > 0 {
      var q := Work(f, post, p, tasks, n - 1);
      var t := tasks[n - 1];
      var e := Entry(t, FateOf(f, post, q.sent, t));
      WorkBalance(f, post, before, p, tasks, n - 1, k, u);
      LookStep(f, post, q, t, k, u);
      PendingStep(tasks, n - 1, k, u);
      LostExtends(f.keys, q.log, e, n - 1, k, u);
      if t.key == k && t.reminder.uid == u {
        PendingOnce(before, p.sets, tasks, n - 1);
      }
    }
  }

  lemma PendingIsStored(before: Sets, after: Sets, tasks: seq<Task>, k: string, u: string)
    requires Popped(before, after, tasks)
    ensures Look(after, k, u) == if Pending(tasks, 0, k, u) then None else Look(before, k, u)
    ensures Pending(tasks, 0, k, u) ==> Look(before, k, u).Some?
  {
  }

  lemma PendingOnce(before: Sets, after: Sets, tasks: seq<Task>, n: nat)
    requires n < |tasks| && Popped(before, after, tasks)
    ensures !Pending(tasks, n + 1, tasks[n].key, tasks[n].reminder.uid)
    ensures Look(before, tasks[n].key, tasks[n].reminder.uid) == Some(tasks[n].reminder.timestamp)
  {
  }

  /** After a run a record is in its set with its original timestamp, or the log says why not. */
  lemma RunKeepsOrExplains(f: Family, post: Post, before: Sets, p: Progress, tasks: seq<Task>, k: string, u: string)
    requires p.log == [] && Popped(before, p.sets, tasks)
    ensures var q := Work(f, post, p, tasks, |tasks|);
            && |q.log| == |tasks|
            && Look(q.sets, k, u) == if Lost(f.keys, q.log, |tasks|, k, u) then None else Look(before, k, u)
  {
    WorkBalance(f, post, before, p, tasks, |tasks|, k, u);
  }

  ghost predicate WasMailed(log: seq<Entry>, k: string, u: string) {
    exists e <- log :: e.task.key == k && e.task.reminder.uid == u && e.fate == Mailed
  }

  ghost predicate NeverDropped(log: seq<Entry>, u: string) {
    forall e <- log :: e.task.reminder.uid == u ==> !e.fate.Dropped? && !e.fate.Discarded?
  }

  /** While no mail to the account bounces and the account exists, exactly the mailed records leave. */
  lemma OnlyMailedLeave(f: Family, post: Post, before: Sets, p: Progress, tasks: seq<Task>, k: string, u: string)
    requires p.log == [] && Popped(before, p.sets, tasks)
    requires NeverDropped(Work(f, post, p, tasks, |tasks|).log, u)
    ensures var q := Work(f, post, p, tasks, |tasks|);
            Look(q.sets, k, u) == if WasMailed(q.log, k, u) then None else Look(before, k, u)
  {
    hide Look, Work, Lost;
    var q := Work(f, post, p, tasks, |tasks|);
    RunKeepsOrExplains(f, post, before, p, tasks, k, u);
    LogIsTasks(f, post, p, tasks, |tasks|);
    LostIsMailed(f.keys, q.log, |tasks|, k, u);
    assert q.log[..|tasks|] == q.log;
  }

  lemma {:induction false} LostIsMailed(keys: seq<string>, log: seq<Entry>, n: nat, k: string, u: string)
    requires n <= |log| && NeverDropped(log, u)
    requires forall i, j :: 0 <= i < j < |log| ==>
               log[i].task.key != log[j].task.key || log[i].task.reminder.uid != log[j].task.reminder.uid
    ensures Lost(keys, log, n, k, u) <==> WasMailed(log[..n], k, u)
  {
    if n > 0 {
      LostIsMailed(keys, log, n - 1, k, u);
      assert log[n - 1] in log;
      assert log[..n] == log[..n - 1] + [log[n - 1]];
      assert forall e <- log[..n - 1] :: e.task.key != log[n - 1].task.key
               || e.task.reminder.uid != log[n - 1].task.reminder.uid;
    }
  }

  // ---- How often an account is mailed ----

  function Mails(log: seq<Entry>, n: nat, k: string, u: string): nat
    requires n <= |log|
  {
    if n == 0 then 0
    else Mails(log, n - 1, k, u) + if log[n - 1].task.key == k && log[n - 1].task.reminder.uid == u
           && log[n - 1].fate == Mailed then 1 else 0
  }

  lemma {:induction false} MailsExtend(log: seq<Entry>, e: Entry, n: nat, k: string, u: string)
    requires n <= |log|
    ensures Mails(log + [e], n, k, u) == Mails(log, n, k, u)
  {
    if n > 0 {
      MailsExtend(log, e, n - 1, k, u);
    }
  }

  function Has(sets: Sets, k: string, u: string): nat {
    if Look(sets, k, u).Some? then 1 else 0
  }

  /** Every mail uses up a stored record, which the run does not store again. */
  lemma {:induction false} MailsBalance(f: Family, post: Post, before: Sets, p: Progress, tasks: seq<Task>, n: nat,
                                        k: string, u: string)
    requires n <= |tasks| && p.log == [] && Popped(before, p.sets, tasks)
    ensures var q := Work(f, post, p, tasks, n);
            && |q.log| == n
            && Mails(q.log, n, k, u) + Has(q.sets, k, u) + (if Pending(tasks, n, k, u) then 1 else 0)
               <= Has(before, k, u)
  {
    hide Look, FateOf, Pending, Popped;
    PendingIsStored(before, p.sets, tasks, k, u);
    if n > 0 {
      var q := Work(f, post, p, tasks, n - 1);
      var t := tasks[n - 1];
      MailsBalance(f, post, before, p, tasks, n - 1, k, u);
      LookStep(f, post, q, t, k, u);
      PendingStep(tasks, n - 1, k, u);
      MailsExtend(q.log, Entry(t, FateOf(f, post, q.sent, t)), n - 1, k, u);
      if t.key == k && t.reminder.uid == u {
        PendingOnce(before, p.sets, tasks, n - 1);
      }
    }
  }

  /** No two of the mails in the log go to the same account. */
  ghost predicate OneMailEach(log: seq<Entry>) {
    forall i, j :: 0 <= i < j < |log| && log[i].fate == log[j].fate == Mailed ==>
             log[i].task.reminder.uid != log[j].task.reminder.uid
  }

  /** The mails in the log went to accounts of `now` that were not yet in `past`. */
  ghost predicate MailedBetween(log: seq<Entry>, past: set<string>, now: set<string>) {
    past <= now && forall e <- log :: e.fate == Mailed ==> e.task.reminder.uid in now - past
  }

  lemma {:induction false} WorkMailsOnce(f: Family, post: Post, p: Progress, tasks: seq<Task>, n: nat)
    requires n <= |tasks| && p.log == []
    ensures var q := Work(f, post, p, tasks, n); OneMailEach(q.log) && MailedBetween(q.log, p.sent, q.sent)
  {
    if n > 0 {
      WorkMailsOnce(f, post, p, tasks, n - 1);
      var q := Work(f, post, p, tasks, n - 1);
      hide Put, Removed;
      assert forall i :: 0 <= i < |q.log| ==> q.log[i] in q.log;
    }
  }

  /** Who has been mailed after the first `n` entries. */
  function SentBy(sent: set<string>, log: seq<Entry>, n: nat): set<string>
    requires n <= |log|
  {
    if n == 0 then sent
    else SentBy(sent, log, n - 1) + if log[n - 1].fate == Mailed then {log[n - 1].task.reminder.uid} else {}
  }

  lemma {:induction false} SentByExtends(sent: set<string>, log: seq<Entry>, e: Entry, n: nat)
    requires n <= |log|
    ensures SentBy(sent, log + [e], n) == SentBy(sent, log, n)
  {
    if n > 0 {
      SentByExtends(sent, log, e, n - 1);
    }
  }

  /** Every fate in the log is the one the mailer's answer and the mails before it call for. */
  ghost predicate Truthful(f: Family, post: Post, sent: set<string>, log: seq<Entry>) {
    forall i :: 0 <= i < |log| ==> log[i].fate == FateOf(f, post, SentBy(sent, log, i), log[i].task)
  }

  lemma {:induction false} WorkIsTruthful(f: Family, post: Post, p: Progress, tasks: seq<Task>, n: nat)
    requires n <= |tasks| && p.log == []
    ensures var q := Work(f, post, p, tasks, n);
            |q.log| == n && q.sent == SentBy(p.sent, q.log, n) && Truthful(f, post, p.sent, q.log)
  {
    hide FateOf, Put, Removed, SentBy, Truthful;
    if n == 0 {
      NothingSent(f, post, p.sent);
    } else {
      WorkIsTruthful(f, post, p, tasks, n - 1);
      var q, t := Work(f, post, p, tasks, n - 1), tasks[n - 1];
      TruthExtends(f, post, p.sent, q.log, Entry(t, FateOf(f, post, q.sent, t)));
    }
  }

  lemma NothingSent(f: Family, post: Post, sent: set<string>)
    ensures SentBy(sent, [], 0) == sent && Truthful(f, post, sent, [])
  {
  }

  lemma TruthExtends(f: Family, post: Post, sent: set<string>, log: seq<Entry>, e: Entry)
    requires Truthful(f, post, sent, log) && e.fate == FateOf(f, post, SentBy(sent, log, |log|), e.task)
    ensures Truthful(f, post, sent, log + [e])
    ensures SentBy(sent, log + [e], |log| + 1) ==
              SentBy(sent, log, |log|) + if e.fate == Mailed then {e.task.reminder.uid} else {}
  {
    hide FateOf, SentBy;
    var log' := log + [e];
    SentByLast(sent, log');
    SentByExtends(sent, log, e, |log|);
    forall i | 0 <= i < |log'| ensures log'[i].fate == FateOf(f, post, SentBy(sent, log', i), log'[i].task) {
      SentByExtends(sent, log, e, i);
    }
  }

  lemma SentByLast(sent: set<string>, log: seq<Entry>)
    requires log != []
    ensures var last := log[|log| - 1];
            SentBy(sent, log, |log|) ==
              SentBy(sent, log, |log| - 1) + if last.fate == Mailed then {last.task.reminder.uid} else {}
  {
  }

  /** The records that were mailed, in order. */
  function MailedTasks(log: seq<Entry>): seq<Task> {
    if log == [] then []
    else
      var init, last := log[..|log| - 1], log[|log| - 1];
      MailedTasks(init) + if last.fate == Mailed then [last.task] else []
  }

  lemma MailedExtends(log: seq<Entry>, e: Entry)
    ensures MailedTasks(log + [e]) == MailedTasks(log) + if e.fate == Mailed then [e.task] else []
  {
    assert (log + [e])[..|log|] == log;
  }

  lemma {:induction false} MailedConcat(a: seq<Entry>, b: seq<Entry>)
    ensures MailedTasks(a + b) == MailedTasks(a) + MailedTasks(b)
  {
    if b == [] {
      assert a + b == a && MailedTasks(a) + [] == MailedTasks(a);
    } else {
      var init, last := b[..|b| - 1], b[|b| - 1];
      MailedConcat(a, init);
      assert a + b == a + init + [last];
      MailedExtends(a + init, last);
    }
  }

  /** No two of these mails go to the same account. */
  ghost predicate OneEach(mails: seq<Task>) {
    forall i, j :: 0 <= i < j < |mails| ==> mails[i].reminder.uid != mails[j].reminder.uid
  }

  lemma {:induction false} MailsAreDistinct(log: seq<Entry>)
    requires OneMailEach(log)
    ensures OneEach(MailedTasks(log))
    ensures forall t <- MailedTasks(log) :: exists i :: 0 <= i < |log| && log[i] == Entry(t, Mailed)
  {
    if log != [] {
      var init, last := log[..|log| - 1], log[|log| - 1];
      MailsAreDistinct(init);
      var mails := MailedTasks(init);
      forall t <- mails ensures exists i :: 0 <= i < |log| - 1 && log[i] == Entry(t, Mailed) {
        var i :| 0 <= i < |init| && init[i] == Entry(t, Mailed);
        assert log[i] == Entry(t, Mailed);
      }
      assert last.fate == Mailed ==> log[|log| - 1] == Entry(last.task, Mailed);
      assert forall i :: 0 <= i < |mails| ==> mails[i] in mails;
    }
  }

  lemma OneMailJoin(a: seq<Entry>, b: seq<Entry>, past: set<string>, mid: set<string>, now: set<string>)
    requires OneMailEach(a) && MailedBetween(a, past, mid)
    requires OneMailEach(b) && MailedBetween(b, mid, now)
    ensures OneMailEach(a + b) && MailedBetween(a + b, past, now)
  {
    assert forall i :: 0 <= i < |a| ==> a[i] in a;
    assert forall i :: 0 <= i < |b| ==> b[i] in b;
  }

  /** One module's share of a run. */
  datatype Share = Share(f: Family, post: Post, after: Sets, tasks: seq<Task>)

  /** The modules are served in turn and share the record of who has been mailed. */
  function Served(shares: seq<Share>, n: nat): Progress
    requires n <= |shares|
  {
    if n == 0 then Progress(map[], {}, [])
    else
      var past, s := Served(shares, n - 1), shares[n - 1];
      var q := Work(s.f, s.post, Progress(s.after, past.sent, []), s.tasks, |s.tasks|);
      Progress(q.sets, q.sent, past.log + q.log)
  }

  /** One run mails an account at most once, whatever is due for it in how many modules. */
  lemma {:induction false} OneMailPerAccount(shares: seq<Share>, n: nat)
    requires n <= |shares|
    ensures OneMailEach(Served(shares, n).log)
    ensures MailedBetween(Served(shares, n).log, {}, Served(shares, n).sent)
  {
    if n > 0 {
      OneMailPerAccount(shares, n - 1);
      var past, s := Served(shares, n - 1), shares[n - 1];
      var q := Work(s.f, s.post, Progress(s.after, past.sent, []), s.tasks, |s.tasks|);
      WorkMailsOnce(s.f, s.post, Progress(s.after, past.sent, []), s.tasks, |s.tasks|);
      OneMailJoin(past.log, q.log, {}, past.sent, q.sent);
    }
  }

  // ---- A module's whole life ----

  datatype Event =
    | Create(uid: string, now: int, rolledOut: bool)
    | Delete(uid: string, failing: set<string>)
    | Batch(after: Sets, tasks: seq<Task>, sent: set<string>, post: Post)

  function Next(f: Family, sets: Sets, e: Event): Sets {
    match e
    case Create(uid, now, rolledOut) => if rolledOut then Added(sets, f.keys, Reminder(uid, now)) else sets
    case Delete(uid, failing) => Removed(sets, f.keys, failing, uid)
    case Batch(after, tasks, sent, post) => Work(f, post, Progress(after, sent, []), tasks, |tasks|).sets
  }

  function After(f: Family, events: seq<Event>, n: nat): Sets
    requires n <= |events|
  {
    if n == 0 then map[] else Next(f, After(f, events, n - 1), events[n - 1])
  }

  /** Every batch starts from what was popped out of the sets as they were. */
  ghost predicate Feasible(f: Family, events: seq<Event>) {
    forall i :: 0 <= i < |events| && events[i].Batch? ==> Popped(After(f, events, i), events[i].after, events[i].tasks)
  }

  /** A registration of the account that won the rollout lottery. */
  predicate IsCreate(e: Event, u: string) {
    e.Create? && e.uid == u && e.rolledOut
  }

  function Creates(events: seq<Event>, n: nat, u: string): nat
    requires n <= |events|
  {
    if n == 0 then 0 else Creates(events, n - 1, u) + if IsCreate(events[n - 1], u) then 1 else 0
  }

  function MailsOf(f: Family, e: Event, k: string, u: string): nat {
    if e.Batch? then
      var log := Work(f, e.post, Progress(e.after, e.sent, []), e.tasks, |e.tasks|).log;
      Mails(log, |log|, k, u)
    else 0
  }

  function TotalMails(f: Family, events: seq<Event>, n: nat, k: string, u: string): nat
    requires n <= |events|
  {
    if n == 0 then 0 else TotalMails(f, events, n - 1, k, u) + MailsOf(f, events[n - 1], k, u)
  }

  lemma NextBalance(f: Family, sets: Sets, e: Event, k: string, u: string)
    requires e.Batch? ==> Popped(sets, e.after, e.tasks)
    ensures MailsOf(f, e, k, u) + Has(Next(f, sets, e), k, u) <= Has(sets, k, u) + if IsCreate(e, u) then 1 else 0
  {
    hide Look, Added, Removed, Popped, Work, Mails;
    match e {
      case Create(uid, now, rolledOut) => LookAdded(sets, f.keys, Reminder(uid, now), k, u);
      case Delete(uid, failing) => LookRemoved(sets, f.keys, failing, uid, k, u);
      case Batch(after, tasks, sent, post) =>
          MailsBalance(f, post, sets, Progress(after, sent, []), tasks, |tasks|, k, u);
    }
  }

  /** Over any life of a module, an account gets at most one mail of each kind per registration that
      the rollout lottery picked. */
  lemma {:induction false} MailsBounded(f: Family, events: seq<Event>, n: nat, k: string, u: string)
    requires n <= |events| && Feasible(f, events)
    ensures TotalMails(f, events, n, k, u) + Has(After(f, events, n), k, u) <= Creates(events, n, u)
  {
    hide Next, MailsOf;
    if n > 0 {
      MailsBounded(f, events, n - 1, k, u);
      NextBalance(f, After(f, events, n - 1), events[n - 1], k, u);
    }
  }
}
