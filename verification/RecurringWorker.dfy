/** One pass of the recurring transfer worker. */
module RecurringWorker {
  import opened Wrappers
  import opened LedgerBook
  import opened Schedule
  import Ledger

  datatype TaskStatus = Active | Ended | Cancelled

  datatype Task = Task(sender: UserId, to: Email, amount: int, interval: Interval, nextRunAt: int,
                       endDate: Option<int>, status: TaskStatus)

  predicate Due(t: Task, users: set<UserId>, now: int) {
    t.status == Active && t.nextRunAt <= now && t.sender in users
  }

  predicate Over(t: Task, now: int) {
    t.endDate.Some? && now >= t.endDate.value
  }

  /** `next` is the first run after the missed one that lies strictly after `now`. */
  ghost predicate CaughtUp(t: Task, now: int, next: int) {
    exists k: nat :: k >= 1 && next == Nth(t.interval, t.nextRunAt, k) && next > now
      && forall j :: 1 <= j < k ==> Nth(t.interval, t.nextRunAt, j) <= now
  }

  /** What a pass may do to a task. */
  ghost predicate Processed(t: Task, t': Task, users: set<UserId>, now: int) {
    if !Due(t, users, now) then t' == t
    else if Over(t, now) then t' == t.(status := Ended)
    else if t.amount <= 0 then t' == t
    else CaughtUp(t, now, t'.nextRunAt) && t' == t.(nextRunAt := t'.nextRunAt)
  }

  function OpOf(t: Task): Op {
    Recurring(t.sender, t.to, t.amount)
  }

  function OpsOf(tasks: map<nat, Task>, ids: seq<nat>): seq<Op>
    requires forall i :: i in ids ==> i in tasks
  {
    seq(|ids|, i requires 0 <= i < |ids| => OpOf(tasks[ids[i]]))
  }

  lemma LeftAlone(t: Task, users: set<UserId>, now: int)
    requires !Due(t, users, now)
    ensures Processed(t, t, users, now)
  {
  }

  lemma EmptyRun(b: Book, hash: Email -> Hash, tasks: map<nat, Task>)
    ensures Run(b, hash, OpsOf(tasks, [])) == b
  {
  }

  lemma OneMore(b: Book, hash: Email -> Hash, tasks: map<nat, Task>, sent: seq<nat>, id: nat)
    requires (forall i :: i in sent ==> i in tasks) && id in tasks
    ensures Run(b, hash, OpsOf(tasks, sent + [id])) == Commit(Run(b, hash, OpsOf(tasks, sent)), hash, OpOf(tasks[id]))
  {
    hide Run, Commit;
    assert OpsOf(tasks, sent + [id]) == OpsOf(tasks, sent) + [OpOf(tasks[id])];
    RunThen(b, hash, OpsOf(tasks, sent), OpOf(tasks[id]));
  }

  /** In the middle of a pass: `due` is still to do, `sent` has sent. */
  ghost predicate PassInv(tasks0: map<nat, Task>, tasks: map<nat, Task>, due: set<nat>, sent: seq<nat>,
                          users: set<UserId>, now: int)
  {
    && tasks.Keys == tasks0.Keys
    && (forall i :: i in due ==> i in tasks && tasks[i] == tasks0[i] && Due(tasks[i], users, now) && i !in sent)
    && (forall i :: i in tasks && i !in due ==> Processed(tasks0[i], tasks[i], users, now))
    && (forall i, j :: 0 <= i < j < |sent| ==> sent[i] != sent[j])
    && (forall i :: i in sent ==> i in tasks0 && Due(tasks0[i], users, now) && !Over(tasks0[i], now))
  }

  lemma PassPick(tasks0: map<nat, Task>, tasks: map<nat, Task>, due: set<nat>, sent: seq<nat>,
                 users: set<UserId>, now: int, id: nat)
    requires PassInv(tasks0, tasks, due, sent, users, now) && id in due
    ensures id in tasks && id in tasks0 && Due(tasks[id], users, now) && tasks[id] == tasks0[id]
    ensures forall i :: i in sent ==> i in tasks0
  {
  }

  lemma PassStep(tasks0: map<nat, Task>, before: map<nat, Task>, tasks: map<nat, Task>, due: set<nat>, sent: seq<nat>,
                 users: set<UserId>, now: int, id: nat, done: bool)
    requires PassInv(tasks0, before, due, sent, users, now) && id in due
    requires tasks.Keys == before.Keys && (forall i :: i in tasks && i != id ==> tasks[i] == before[i])
    requires Processed(before[id], tasks[id], users, now) && (done ==> !Over(before[id], now))
    ensures PassInv(tasks0, tasks, due - {id}, if done then sent + [id] else sent, users, now)
  {
    hide Processed, Over, Due;
  }

  /** The k-th send takes the amount from its sender and puts it into a confirmed escrow. */
  ghost predicate SentAt(b: Book, hash: Email -> Hash, tasks: map<nat, Task>, sent: seq<nat>, k: nat) {
    && k < |sent| && (forall i :: i in sent ==> i in tasks)
    && var t, b1, b2 := tasks[sent[k]], Run(b, hash, OpsOf(tasks, sent[..k])), Run(b, hash, OpsOf(tasks, sent[..k + 1]));
       Pays(b1, b2, t.sender, hash(t.to), None, t.amount, Confirmed)
  }

  /** A task that should send now. */
  predicate Owing(t: Task, users: set<UserId>, now: int) {
    && t.status == Active && t.sender in users && t.nextRunAt <= now && t.amount > 0
    && (t.endDate.None? || now < t.endDate.value)
  }

  /** Every send so far was owed and moved its money. */
  ghost predicate AllSent(b: Book, hash: Email -> Hash, tasks: map<nat, Task>, sent: seq<nat>, users: set<UserId>, now: int) {
    && (forall i :: i in sent ==> i in tasks && Owing(tasks[i], users, now))
    && (forall k: nat :: k < |sent| ==> SentAt(b, hash, tasks, sent, k))
  }

  lemma NothingSent(b: Book, hash: Email -> Hash, tasks: map<nat, Task>, users: set<UserId>, now: int)
    ensures AllSent(b, hash, tasks, [], users, now)
  {
  }

  lemma SentMore(b: Book, hash: Email -> Hash, tasks: map<nat, Task>, sent: seq<nat>, users: set<UserId>, now: int,
                 id: nat, b1: Book, b2: Book)
    requires AllSent(b, hash, tasks, sent, users, now) && id in tasks && Owing(tasks[id], users, now)
    requires b1 == Run(b, hash, OpsOf(tasks, sent)) && b2 == Run(b, hash, OpsOf(tasks, sent + [id]))
    requires Pays(b1, b2, tasks[id].sender, hash(tasks[id].to), None, tasks[id].amount, Confirmed)
    ensures AllSent(b, hash, tasks, sent + [id], users, now)
  {
    hide Run, OpsOf, Pays, Owing;
    forall k: nat | k < |sent + [id]| ensures SentAt(b, hash, tasks, sent + [id], k) {
      assert (sent + [id])[..k] == sent[..k];
      if k < |sent| {
        assert SentAt(b, hash, tasks, sent, k) && (sent + [id])[..k + 1] == sent[..k + 1];
      } else {
        assert sent[..k] == sent && (sent + [id])[..k + 1] == sent + [id];
      }
    }
  }

  /** Whoever should have sent by now and has not cannot pay it. */
  ghost predicate OthersShort(tasks: map<nat, Task>, due: set<nat>, sent: seq<nat>, now: int, balances: map<UserId, int>) {
    forall i :: i in tasks && i !in due && i !in sent && Owing(tasks[i], balances.Keys, now)
      ==> balances[tasks[i].sender] < tasks[i].amount
  }

  /** A pass never credits a balance. */
  lemma OnlyLess(b: Book, b': Book, sent: bool, t: Task, hash: Email -> Hash)
    requires if sent then Pays(b, b', t.sender, hash(t.to), None, t.amount, Confirmed) else b' == b
    ensures b'.balances.Keys == b.balances.Keys
    ensures forall u :: u in b.balances ==> b'.balances[u] <= b.balances[u]
  {
  }

  lemma ShortStep(tasks: map<nat, Task>, due: set<nat>, sent: seq<nat>, now: int, before: map<UserId, int>,
                  balances: map<UserId, int>, id: nat, done: bool)
    requires OthersShort(tasks, due, sent, now, before) && id in due && id in tasks
    requires balances.Keys == before.Keys && forall u :: u in balances ==> balances[u] <= before[u]
    requires !done && Owing(tasks[id], balances.Keys, now) ==> balances[tasks[id].sender] < tasks[id].amount
    ensures OthersShort(tasks, due - {id}, if done then sent + [id] else sent, now, balances)
  {
  }

  lemma NobodyShort(tasks: map<nat, Task>, due: set<nat>, users: set<UserId>, now: int, balances: map<UserId, int>)
    requires balances.Keys == users && forall i :: i in tasks && Due(tasks[i], users, now) ==> i in due
    ensures OthersShort(tasks, due, [], now, balances)
  {
  }

  /** A task that was caught up has no run left to make until later. */
  lemma NothingLeft(t: Task, t': Task, users: set<UserId>, now: int)
    requires Processed(t, t', users, now)
    ensures !Owing(t', users, now)
  {
  }

  lemma NothingLeftAtAll(tasks0: map<nat, Task>, tasks: map<nat, Task>, users: set<UserId>, now: int)
    requires tasks.Keys == tasks0.Keys && forall i :: i in tasks ==> Processed(tasks0[i], tasks[i], users, now)
    ensures forall i :: i in tasks ==> !Owing(tasks[i], users, now)
  {
    hide Processed, Owing;
    forall i | i in tasks ensures !Owing(tasks[i], users, now) { NothingLeft(tasks0[i], tasks[i], users, now); }
  }

  class Worker {
    const db: Ledger.Database
    var tasks: map<nat, Task>

    constructor (db: Ledger.Database, tasks: map<nat, Task>)
      ensures this.db == db && this.tasks == tasks
    {
      this.db := db;
      this.tasks := tasks;
    }

    /** The loop body for one selected task. `seenBalance` is the sender's balance as the
        pass read it at the start; the debit looks at the current one. */
    method ProcessTask(id: nat, seenBalance: int, now: int) returns (sent: bool)
      requires id in tasks && Due(tasks[id], db.balances.Keys, now) && seenBalance >= 0
      modifies this, db
      ensures db.balances.Keys == old(db.balances).Keys
      ensures tasks.Keys == old(tasks).Keys
      ensures forall i :: i in tasks && i != id ==> tasks[i] == old(tasks)[i]
      ensures Processed(old(tasks)[id], tasks[id], old(db.balances).Keys, now)
      ensures db.Contents() == if sent then old(Commit(db.Contents(), db.hashEmail, OpOf(tasks[id]))) else old(db.Contents())
      ensures sent ==> !Over(old(tasks)[id], now) && old(Apply(db.Contents(), db.hashEmail, OpOf(tasks[id]))).Ok?
      ensures sent <==>
                && Owing(old(tasks)[id], old(db.balances).Keys, now) && seenBalance >= old(tasks)[id].amount
                && old(db.balances)[old(tasks)[id].sender] >= old(tasks)[id].amount
      ensures sent ==>
                var t := old(tasks)[id];
                Pays(old(db.Contents()), db.Contents(), t.sender, db.hashEmail(t.to), None, t.amount, Confirmed)
    {
      var task := tasks[id];
      if Over(task, now) {
        tasks := tasks[id := task.(status := Ended)];
        return false;
      }
      ghost var k;
      var nextRunAt;
      nextRunAt, k := CatchUp(task.interval, task.nextRunAt, now);
      assert CaughtUp(task, now, nextRunAt);
      if seenBalance < task.amount {
        tasks := tasks[id := task.(nextRunAt := nextRunAt)];
        return false;
      }
      var error := db.TransferTx(task.sender, db.hashEmail(task.to), None, task.amount, Confirmed);
      if error == Some(InvalidAmount) { return false; }  // logged, and tried again on the next pass
      tasks := tasks[id := task.(nextRunAt := nextRunAt)];
      return error.None?;
    }

    /** One pass over the due tasks. `sent` lists the tasks that sent, without repeats. */
    method ProcessRecurringTransfers(now: int) returns (ghost sent: seq<nat>)
      requires Valid(db.Contents())
      modifies this, db
      ensures tasks.Keys == old(tasks).Keys
      ensures forall i :: i in tasks ==> Processed(old(tasks)[i], tasks[i], old(db.balances).Keys, now)
      ensures forall i, j :: 0 <= i < j < |sent| ==> sent[i] != sent[j]
      ensures forall i :: i in sent ==> i in old(tasks) && Due(old(tasks)[i], old(db.balances).Keys, now) && !Over(old(tasks)[i], now)
      ensures db.Contents() == old(Run(db.Contents(), db.hashEmail, OpsOf(tasks, sent)))
      ensures Valid(db.Contents()) && Worth(db.Contents()) == old(Worth(db.Contents()))
      ensures AllSent(old(db.Contents()), db.hashEmail, old(tasks), sent, old(db.balances).Keys, now)
      ensures OthersShort(old(tasks), {}, sent, now, db.balances)
      ensures forall i :: i in tasks ==> !Owing(tasks[i], db.balances.Keys, now)
    {
      hide Run, Commit, Apply, Processed, Worth, Over, OpsOf, Owing, AllSent, OthersShort, Pays;
      ghost var b0, tasks0 := db.Contents(), tasks;
      var users, balances := db.balances.Keys, db.balances;
      assert forall u :: u in balances ==> balances[u] >= 0;
      EmptyRun(b0, db.hashEmail, tasks0);
      var due := set i | i in tasks && Due(tasks[i], users, now);
      forall i | i in tasks && i !in due { LeftAlone(tasks[i], users, now); }
      sent := [];
      NothingSent(b0, db.hashEmail, tasks0, users, now);
      NobodyShort(tasks0, due, users, now, db.balances);
      while due != {}
        invariant db.balances.Keys == users && PassInv(tasks0, tasks, due, sent, users, now)
        invariant db.Contents() == Run(b0, db.hashEmail, OpsOf(tasks0, sent))
        invariant AllSent(b0, db.hashEmail, tasks0, sent, users, now)
        invariant forall u :: u in users ==> db.balances[u] <= balances[u]
        invariant OthersShort(tasks0, due, sent, now, db.balances)
        decreases |due|
      {
        hide PassInv;
        var id :| id in due;
        ghost var before, b := tasks, db.Contents();
        PassPick(tasks0, tasks, due, sent, users, now, id);
        var done := ProcessTask(id, balances[tasks[id].sender], now);
        PassStep(tasks0, before, tasks, due, sent, users, now, id, done);
        OnlyLess(b, db.Contents(), done, before[id], db.hashEmail);
        ShortStep(tasks0, due, sent, now, b.balances, db.balances, id, done);
        due := due - {id};
        if done {
          OneMore(b0, db.hashEmail, tasks0, sent, id);
          SentMore(b0, db.hashEmail, tasks0, sent, users, now, id, b, db.Contents());
          sent := sent + [id];
        }
      }
      Conservation(b0, db.hashEmail, OpsOf(tasks0, sent));
      NothingLeftAtAll(tasks0, tasks, users, now);
    }
  }
}
