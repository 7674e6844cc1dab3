/** Crediting of on-chain deposits by the deposit indexer, the Circle webhook and the
    Arc worker, which race on one table.

    Every SELECT and every transaction is one atomic step. A handler keeps what it
    read, so it may act on a row that has changed since. Handlers of all kinds are
    started in any number and order, and may stop at any point.
 */
module DepositRace {
  import opened Wrappers
  import opened MapSums

  // identifiers are only ever compared
  type CircleId = nat
  type TxHash = nat

  /** What is fixed per Circle transaction. */
  datatype Facts = Facts(userOf: CircleId -> nat, amountOf: CircleId -> nat, hashOf: CircleId -> TxHash)

  /** Circle ids and on-chain hashes are one-to-one. */
  ghost predicate OneToOne(f: Facts) {
    forall a, b :: f.hashOf(a) == f.hashOf(b) ==> a == b
  }

  datatype RowStatus = Pending | Completed

  /** `ref` stands for the deposit reference "circle-{id}". */
  datatype Row = Row(ref: CircleId, hash: Option<TxHash>, status: RowStatus, user: nat, amount: nat)

  datatype Kind = Indexer | Webhook | Arc

  /** Where a handler stands. `Finished`: it returned on its own; `LostInsert`: its
      insert of a completed row hit a unique index and it returned without crediting;
      `Stopped`: the server died or the statement threw. */
  datatype Pc =
    | ReadHash | PromoteByHash(row: nat)
    | ReadRef | PromoteByRef(row: nat, seenHash: Option<TxHash>) | Patch(row: nat)
    | Insert
    | Finished | LostInsert | Stopped

  /** One handler for one notification. `complete`: the notification says COMPLETE, so
      the balance is to be credited. `late`: the table already had a row when it started. */
  datatype Agent = Agent(kind: Kind, id: CircleId, hash: Option<TxHash>, complete: bool, late: bool, pc: Pc)

  datatype State = State(
    rows: map<nat, Row>,
    nextRow: nat,
    credited: map<nat, int>,        // per user, what these paths added to the balance
    credits: map<CircleId, nat>,    // per deposit, how often it was credited
    agents: seq<Agent>)

  datatype Action =
    | Start(kind: Kind, id: CircleId, withHash: bool, complete: bool)
    | Advance(agent: nat)
    | Stop(agent: nat)

  predicate Init(s: State) {
    s.rows == map[] && s.nextRow == 0 && s.credited == map[] && s.credits == map[] && s.agents == []
  }

  function Credited(s: State, user: nat): int {
    if user in s.credited then s.credited[user] else 0
  }

  function Credits(s: State, id: CircleId): nat {
    if id in s.credits then s.credits[id] else 0
  }

  predicate HasRef(rows: map<nat, Row>, id: CircleId) {
    exists r :: r in rows && rows[r].ref == id
  }

  predicate HasHash(rows: map<nat, Row>, h: TxHash) {
    exists r :: r in rows && rows[r].hash == Some(h)
  }

  /** Would an insert or update trip one of the two partial unique indexes? */
  predicate Conflicts(rows: map<nat, Row>, id: CircleId, hash: Option<TxHash>) {
    HasRef(rows, id) || (hash.Some? && HasHash(rows, hash.value))
  }

  function Credit(s: State, f: Facts, id: CircleId): State {
    s.(credited := s.credited[f.userOf(id) := Credited(s, f.userOf(id)) + f.amountOf(id)],
       credits := s.credits[id := Credits(s, id) + 1])
  }

  function Go(s: State, k: nat, pc: Pc): State
    requires k < |s.agents|
  {
    s.(agents := s.agents[k := s.agents[k].(pc := pc)])
  }

  function First(kind: Kind): Pc {
    match kind
    case Indexer => ReadHash
    case Webhook => ReadRef
    case Arc => Insert
  }

  /** UPDATE ... WHERE id = row AND status = 'pending', and the credit, in one transaction. */
  function Promote(s: State, f: Facts, k: nat, row: nat, hash: Option<TxHash>): (t: State)
    requires k < |s.agents|
    ensures t.agents == Go(s, k, Finished).agents || t.agents == Go(s, k, Stopped).agents
  {
    if row in s.rows && s.rows[row].status == Pending then
      if hash.Some? && HasHash(s.rows - {row}, hash.value) then Go(s, k, Stopped)
      else Go(Credit(s, f, s.agents[k].id).(rows := s.rows[row := s.rows[row].(status := Completed, hash := hash)]),
        k, Finished)
    else Go(s, k, Finished)
  }

  /** Step 1 of the indexer, and the last check of the webhook: SELECT by hash. */
  ghost function AfterReadHash(rows: map<nat, Row>, a: Agent): Pc {
    if a.hash.None? || !HasHash(rows, a.hash.value) then (if a.kind == Indexer then ReadRef else Insert) else
      var r :| r in rows && rows[r].hash == a.hash;
      if rows[r].status == Completed || !a.complete then Finished else PromoteByHash(r)
  }

  /** SELECT by deposit reference. */
  ghost function AfterReadRef(rows: map<nat, Row>, a: Agent): Pc {
    if !HasRef(rows, a.id) then (if a.kind == Webhook then ReadHash else Insert) else
      var r :| r in rows && rows[r].ref == a.id;
      if rows[r].status == Pending && a.complete then PromoteByRef(r, rows[r].hash)
      else if rows[r].hash.None? && a.hash.Some? then Patch(r)
      else Finished
  }

  /** INSERT ... ON CONFLICT DO NOTHING, with the credit in the same transaction. */
  function StepInsert(s: State, f: Facts, k: nat): (t: State)
    requires k < |s.agents|
    ensures t.agents == Go(s, k, Finished).agents || t.agents == Go(s, k, LostInsert).agents
  {
    var a := s.agents[k];
    if Conflicts(s.rows, a.id, a.hash) then Go(s, k, if a.complete then LostInsert else Finished) else
      var row := Row(a.id, a.hash, if a.complete then Completed else Pending, f.userOf(a.id), f.amountOf(a.id));
      var t := s.(rows := s.rows[s.nextRow := row], nextRow := s.nextRow + 1);
      Go(if a.complete then Credit(t, f, a.id) else t, k, Finished)
  }

  function StepPatch(s: State, k: nat, r: nat): (t: State)
    requires k < |s.agents|
    ensures t.agents == Go(s, k, Finished).agents || t.agents == Go(s, k, Stopped).agents
  {
    var a := s.agents[k];
    if r !in s.rows || a.hash.None? then Go(s, k, Finished)
    else if HasHash(s.rows - {r}, a.hash.value) then Go(s, k, Stopped)
    else Go(s.(rows := s.rows[r := s.rows[r].(hash := a.hash)]), k, Finished)
  }

  /** A handler's next statement. It only ever loses by its insert. */
  ghost function Step(s: State, f: Facts, k: nat): (t: State)
    requires k < |s.agents|
    ensures |t.agents| == |s.agents| && t.agents[k] == s.agents[k].(pc := t.agents[k].pc)
    ensures t.agents[k].pc == LostInsert ==> s.agents[k].pc in {Insert, LostInsert}
  {
    var a := s.agents[k];
    match a.pc
    case ReadHash => Go(s, k, AfterReadHash(s.rows, a))
    case ReadRef => Go(s, k, AfterReadRef(s.rows, a))
    // the indexer writes the hash it was told; the webhook leaves the hash alone
    case PromoteByHash(r) =>
      Promote(s, f, k, r, if a.kind == Webhook && r in s.rows then s.rows[r].hash else a.hash)
    case PromoteByRef(r, seen) => Promote(s, f, k, r, if a.hash.Some? then a.hash else seen)
    case Patch(r) => StepPatch(s, k, r)
    case Insert => StepInsert(s, f, k)
    case Finished | LostInsert | Stopped => s
  }

  /** The indexer and the Arc worker only handle transactions that have a hash. */
  predicate Can(s: State, a: Action) {
    match a
    case Start(kind, _, withHash, complete) => (kind != Webhook ==> withHash) && (kind == Arc ==> complete)
    case Advance(k) => k < |s.agents|
    case Stop(k) => k < |s.agents|
  }

  ghost function Do(s: State, f: Facts, a: Action): State
    requires Can(s, a)
  {
    match a
    case Start(kind, id, withHash, complete) =>
      var hash := if withHash then Some(f.hashOf(id)) else None;
      s.(agents := s.agents + [Agent(kind, id, hash, complete, HasRef(s.rows, id), First(kind))])
    case Advance(k) => Step(s, f, k)
    case Stop(k) => Go(s, k, Stopped)
  }

  ghost predicate Runs(s: State, f: Facts, acts: seq<Action>)
    decreases |acts|
  {
    acts == [] || (Can(s, acts[0]) && Runs(Do(s, f, acts[0]), f, acts[1..]))
  }

  ghost function After(s: State, f: Facts, acts: seq<Action>): State
    requires Runs(s, f, acts)
    decreases |acts|
  {
    if acts == [] then s else After(Do(s, f, acts[0]), f, acts[1..])
  }

  // ── Invariant ─────────────────────────────────────────────────────────────

  function Weight(row: Row, user: nat): int {
    if row.status == Completed && row.user == user then row.amount else 0
  }

  /** What the completed rows of a user add up to. */
  ghost function CompletedTotal(rows: map<nat, Row>, user: nat): int {
    Sum(Weights(rows, user))
  }

  function Weights(rows: map<nat, Row>, user: nat): map<nat, int> {
    map r | r in rows :: Weight(rows[r], user)
  }

  ghost predicate IsCompleted(rows: map<nat, Row>, id: CircleId) {
    exists r :: r in rows && rows[r].ref == id && rows[r].status == Completed
  }

  ghost predicate RowsInv(s: State, f: Facts) {
    && (forall r :: r in s.rows ==> r < s.nextRow)
    && (forall r :: r in s.rows ==> s.rows[r].user == f.userOf(s.rows[r].ref))
    && (forall r :: r in s.rows ==> s.rows[r].amount == f.amountOf(s.rows[r].ref))
    && (forall r :: r in s.rows && s.rows[r].hash.Some? ==> s.rows[r].hash.value == f.hashOf(s.rows[r].ref))
    // what the two unique indexes guarantee
    && (forall p, q :: p in s.rows && q in s.rows && s.rows[p].ref == s.rows[q].ref ==> p == q)
  }

  ghost predicate CreditInv(s: State, f: Facts) {
    && (forall id :: Credits(s, id) == if IsCompleted(s.rows, id) then 1 else 0)
    && (forall user :: Credited(s, user) == CompletedTotal(s.rows, user))
  }

  ghost predicate AgentInv(s: State, f: Facts, a: Agent) {
    && (a.hash.Some? ==> a.hash.value == f.hashOf(a.id)) && (a.kind != Webhook ==> a.hash.Some?)
    && (a.kind == Arc ==> a.pc in {Insert, Finished, LostInsert, Stopped})
    && (a.pc.PromoteByHash? || a.pc.PromoteByRef? ==> a.complete)
    && (a.pc.PromoteByHash? || a.pc.PromoteByRef? || a.pc.Patch? ==>
          a.pc.row in s.rows && s.rows[a.pc.row].ref == a.id)
    && (a.pc.PromoteByRef? && a.pc.seenHash.Some? ==> a.pc.seenHash.value == f.hashOf(a.id))
    && (a.pc.Patch? && a.complete ==> IsCompleted(s.rows, a.id))
    && (a.pc == LostInsert ==> a.complete && HasRef(s.rows, a.id))
    && (a.pc == Finished && a.complete ==> IsCompleted(s.rows, a.id))
    && (a.late ==> HasRef(s.rows, a.id))
    && (a.late && a.kind != Arc ==> !a.pc.Insert? && !a.pc.LostInsert? && (a.pc == ReadHash ==> a.kind == Indexer))
  }

  ghost predicate Inv(s: State, f: Facts) {
    && RowsInv(s, f) && CreditInv(s, f)
    && (forall k :: 0 <= k < |s.agents| ==> AgentInv(s, f, s.agents[k]))
  }

  /** Rows stay, keep their reference, and never leave "completed". */
  ghost predicate Grows(rows: map<nat, Row>, rows': map<nat, Row>) {
    forall r :: r in rows ==>
      r in rows' && rows'[r].ref == rows[r].ref && (rows[r].status == Completed ==> rows'[r].status == Completed)
  }

  lemma AgentFrame(s: State, t: State, f: Facts, a: Agent)
    requires AgentInv(s, f, a) && Grows(s.rows, t.rows)
    ensures AgentInv(t, f, a)
  {
  }

  lemma PutTotal(rows: map<nat, Row>, r: nat, row: Row, user: nat)
    ensures CompletedTotal(rows[r := row], user) ==
            CompletedTotal(rows, user) - (if r in rows then Weight(rows[r], user) else 0) + Weight(row, user)
  {
    SumPut(Weights(rows, user), r, Weight(row, user));
    assert Weights(rows[r := row], user) == Weights(rows, user)[r := Weight(row, user)];
  }

  /** Whether writing `row` over row `r` makes a deposit completed. */
  predicate Completes(rows: map<nat, Row>, r: nat, row: Row) {
    row.status == Completed && !(r in rows && rows[r].status == Completed)
  }

  /** The tables after writing row `r`, crediting the user as it becomes completed. */
  function Write(s: State, f: Facts, r: nat, row: Row): State {
    (if Completes(s.rows, r, row) then Credit(s, f, row.ref) else s)
      .(rows := s.rows[r := row], nextRow := if r < s.nextRow then s.nextRow else r + 1)
  }

  /** A row that may be written over row `r`, or as a new one. */
  ghost predicate Writable(s: State, f: Facts, r: nat, row: Row) {
    && row.user == f.userOf(row.ref) && row.amount == f.amountOf(row.ref)
    && (row.hash.Some? ==> row.hash.value == f.hashOf(row.ref))
    && (if r in s.rows then s.rows[r].ref == row.ref && (s.rows[r].status == Completed ==> row.status == Completed)
        else !HasRef(s.rows, row.ref))
  }

  lemma WriteKeepsRows(s: State, f: Facts, r: nat, row: Row)
    requires RowsInv(s, f) && Writable(s, f, r, row)
    ensures RowsInv(Write(s, f, r, row), f) && Grows(s.rows, s.rows[r := row])
  {
  }

  lemma WriteKeepsTotals(s: State, f: Facts, r: nat, row: Row, user: nat)
    requires RowsInv(s, f) && Writable(s, f, r, row) && Credited(s, user) == CompletedTotal(s.rows, user)
    ensures Credited(Write(s, f, r, row), user) == CompletedTotal(s.rows[r := row], user)
  {
    PutTotal(s.rows, r, row, user);
  }

  lemma WriteKeepsCredits(s: State, f: Facts, r: nat, row: Row, id: CircleId)
    requires RowsInv(s, f) && Writable(s, f, r, row)
    requires forall i :: Credits(s, i) == if IsCompleted(s.rows, i) then 1 else 0
    ensures Credits(Write(s, f, r, row), id) == if IsCompleted(s.rows[r := row], id) then 1 else 0
  {
    var rows' := s.rows[r := row];
    assert rows'[r] == row;
    if IsCompleted(s.rows, id) {
      var q :| q in s.rows && s.rows[q].ref == id && s.rows[q].status == Completed;
      assert rows'[q].ref == id && rows'[q].status == Completed;
    }
  }

  lemma WriteRow(s: State, f: Facts, r: nat, row: Row)
    requires RowsInv(s, f) && CreditInv(s, f) && Writable(s, f, r, row)
    ensures RowsInv(Write(s, f, r, row), f) && CreditInv(Write(s, f, r, row), f) && Grows(s.rows, s.rows[r := row])
  {
    WriteKeepsRows(s, f, r, row);
    forall user { WriteKeepsTotals(s, f, r, row, user); }
    forall id { WriteKeepsCredits(s, f, r, row, id); }
  }

  /** A handler moves on to `pc` after the tables changed from `s` to `t`. */
  lemma MovesOn(s: State, t: State, f: Facts, k: nat, pc: Pc)
    requires Inv(s, f) && k < |s.agents| && t.agents == s.agents
    requires RowsInv(t, f) && CreditInv(t, f) && Grows(s.rows, t.rows)
    requires AgentInv(t, f, s.agents[k].(pc := pc))
    ensures Inv(Go(t, k, pc), f)
  {
    var u := Go(t, k, pc);
    assert CreditInv(u, f) by {
      assert forall id :: Credits(u, id) == Credits(t, id);
      assert forall user :: Credited(u, user) == Credited(t, user);
    }
    forall j | 0 <= j < |u.agents| ensures AgentInv(u, f, u.agents[j]) {
      if j != k { AgentFrame(s, u, f, s.agents[j]); }
    }
  }

  /** No other row can hold the deposit's hash, so the unique index is never tripped. */
  lemma HashIsFree(s: State, f: Facts, r: nat)
    requires OneToOne(f) && RowsInv(s, f) && r in s.rows
    ensures !HasHash(s.rows - {r}, f.hashOf(s.rows[r].ref))
  {
  }

  lemma PromoteInv(s: State, f: Facts, k: nat, r: nat, hash: Option<TxHash>)
    requires OneToOne(f) && Inv(s, f) && k < |s.agents| && s.agents[k].kind != Arc
    requires r in s.rows && s.rows[r].ref == s.agents[k].id
    requires hash.Some? ==> hash.value == f.hashOf(s.agents[k].id)
    ensures var t := Promote(s, f, k, r, hash);
      Inv(t, f) && t.agents[k].pc == Finished && IsCompleted(t.rows, s.agents[k].id)
  {
    hide CreditInv;
    if s.rows[r].status == Completed {
      MovesOn(s, s, f, k, Finished);
    } else {
      HashIsFree(s, f, r);
      var row := s.rows[r].(status := Completed, hash := hash);
      WriteRow(s, f, r, row);
      var t := Write(s, f, r, row);
      assert t.rows[r] == row;
      MovesOn(s, t, f, k, Finished);
      assert Promote(s, f, k, r, hash) == Go(t, k, Finished);
    }
  }

  lemma ConflictHasRef(s: State, f: Facts, id: CircleId)
    requires OneToOne(f) && RowsInv(s, f) && Conflicts(s.rows, id, Some(f.hashOf(id)))
    ensures HasRef(s.rows, id)
  {
    if HasHash(s.rows, f.hashOf(id)) {
      var r :| r in s.rows && s.rows[r].hash == Some(f.hashOf(id));
      assert s.rows[r].ref == id;
    }
  }

  lemma InsertLoses(s: State, f: Facts, k: nat)
    requires OneToOne(f) && Inv(s, f) && k < |s.agents| && s.agents[k].pc == Insert
    requires Conflicts(s.rows, s.agents[k].id, s.agents[k].hash)
    ensures Inv(StepInsert(s, f, k), f) && HasRef(s.rows, s.agents[k].id)
  {
    var a := s.agents[k];
    if !HasRef(s.rows, a.id) { ConflictHasRef(s, f, a.id); }
    MovesOn(s, s, f, k, if a.complete then LostInsert else Finished);
  }

  lemma InsertWins(s: State, f: Facts, k: nat)
    requires OneToOne(f) && Inv(s, f) && k < |s.agents| && s.agents[k].pc == Insert
    requires !Conflicts(s.rows, s.agents[k].id, s.agents[k].hash)
    ensures Inv(StepInsert(s, f, k), f)
    ensures s.agents[k].complete ==> IsCompleted(StepInsert(s, f, k).rows, s.agents[k].id)
  {
    hide CreditInv;
    var a := s.agents[k];
    var row := Row(a.id, a.hash, if a.complete then Completed else Pending, f.userOf(a.id), f.amountOf(a.id));
    assert s.nextRow !in s.rows;
    WriteRow(s, f, s.nextRow, row);
    var t := Write(s, f, s.nextRow, row);
    assert t.rows[s.nextRow] == row;
    assert StepInsert(s, f, k) == Go(t, k, Finished);
    AgentFrame(s, t, f, a);
    MovesOn(s, t, f, k, Finished);
  }

  lemma PatchInv(s: State, f: Facts, k: nat, r: nat)
    requires OneToOne(f) && Inv(s, f) && k < |s.agents| && s.agents[k].pc == Patch(r)
    ensures Inv(StepPatch(s, k, r), f) && StepPatch(s, k, r).agents[k].pc == Finished
  {
    var a := s.agents[k];
    if a.hash.None? {
      MovesOn(s, s, f, k, Finished);
    } else {
      HashIsFree(s, f, r);
      var row := s.rows[r].(hash := a.hash);
      WriteRow(s, f, r, row);
      var t := Write(s, f, r, row);
      AgentFrame(s, t, f, a);
      MovesOn(s, t, f, k, Finished);
      assert StepPatch(s, k, r) == Go(t, k, Finished);
    }
  }

  lemma ReadHashAgent(s: State, f: Facts, a: Agent)
    requires OneToOne(f) && RowsInv(s, f) && AgentInv(s, f, a) && a.pc == ReadHash
    ensures AgentInv(s, f, a.(pc := AfterReadHash(s.rows, a)))
  {
    if a.hash.Some? && HasHash(s.rows, a.hash.value) {
      assert forall r :: r in s.rows && s.rows[r].hash == a.hash ==> s.rows[r].ref == a.id;
    }
  }

  lemma ReadRefAgent(s: State, f: Facts, a: Agent)
    requires RowsInv(s, f) && AgentInv(s, f, a) && a.pc == ReadRef
    ensures AgentInv(s, f, a.(pc := AfterReadRef(s.rows, a)))
  {
  }

  lemma StepInv(s: State, f: Facts, a: Action)
    requires OneToOne(f) && Inv(s, f) && Can(s, a)
    ensures Inv(Do(s, f, a), f)
  {
    match a
    case Start(kind, id, withHash, complete) =>
      var t := Do(s, f, a);
      assert forall user :: Credited(t, user) == Credited(s, user);
      assert forall i :: Credits(t, i) == Credits(s, i);
      forall j | 0 <= j < |t.agents| ensures AgentInv(t, f, t.agents[j]) {
        if j < |s.agents| { AgentFrame(s, t, f, s.agents[j]); }
      }
    case Stop(k) => MovesOn(s, s, f, k, Stopped);
    case Advance(k) =>
      var g := s.agents[k];
      match g.pc
      case ReadHash =>
        ReadHashAgent(s, f, g);
        MovesOn(s, s, f, k, AfterReadHash(s.rows, g));
      case ReadRef =>
        ReadRefAgent(s, f, g);
        MovesOn(s, s, f, k, AfterReadRef(s.rows, g));
      case PromoteByHash(r) =>
        PromoteInv(s, f, k, r, if g.kind == Webhook then s.rows[r].hash else g.hash);
      case PromoteByRef(r, seen) => PromoteInv(s, f, k, r, if g.hash.Some? then g.hash else seen);
      case Patch(r) => PatchInv(s, f, k, r);
      case Insert =>
        if Conflicts(s.rows, g.id, g.hash) { InsertLoses(s, f, k); } else { InsertWins(s, f, k); }
      case Finished | LostInsert | Stopped =>
  }

  /** Before any handler has started. */
  const EMPTY := State(map[], 0, map[], map[], [])

  lemma InitInv(f: Facts)
    ensures Init(EMPTY) && Inv(EMPTY, f)
  {
  }

  lemma {:induction false} InvRuns(s: State, f: Facts, acts: seq<Action>)
    requires OneToOne(f) && Inv(s, f) && Runs(s, f, acts)
    ensures Inv(After(s, f, acts), f)
    decreases |acts|
  {
    hide Inv, Do, OneToOne;
    if acts != [] {
      StepInv(s, f, acts[0]);
      InvRuns(Do(s, f, acts[0]), f, acts[1..]);
    }
  }

  /** For every number, order, duplication and interleaving of handlers: a deposit is
      credited once if it has a completed row and otherwise not at all, and each user's
      credited total is the sum of their completed rows. */
  lemma {:induction false} CreditedAtMostOnce(f: Facts, acts: seq<Action>)
    requires OneToOne(f) && Runs(EMPTY, f, acts)
    ensures var t := After(EMPTY, f, acts);
      && (forall id :: Credits(t, id) == if IsCompleted(t.rows, id) then 1 else 0)
      && (forall user :: Credited(t, user) == CompletedTotal(t.rows, user))
  {
    InitInv(f);
    InvRuns(EMPTY, f, acts);
  }

  /** When the indexer or the webhook works through a COMPLETE to its end, the deposit
      is credited exactly once, unless its insert lost to a row that is still pending:
      then it returns without crediting. The guard is exact. */
  lemma CompleteCredits(f: Facts, acts: seq<Action>, k: nat)
    requires OneToOne(f) && Runs(EMPTY, f, acts)
    requires var s := After(EMPTY, f, acts);
      && k < |s.agents| && s.agents[k].complete && s.agents[k].pc !in {Finished, LostInsert}
      && Step(s, f, k).agents[k].pc in {Finished, LostInsert}
    ensures var s := After(EMPTY, f, acts);
      Credits(Step(s, f, k), s.agents[k].id) == if LosesToPending(s, s.agents[k]) then 0 else 1
  {
    InitInv(f);
    InvRuns(EMPTY, f, acts);
    CompleteStep(After(EMPTY, f, acts), f, k);
  }

  lemma CompleteStep(s: State, f: Facts, k: nat)
    requires OneToOne(f) && Inv(s, f) && k < |s.agents| && s.agents[k].complete
    requires s.agents[k].pc !in {Finished, LostInsert} && Step(s, f, k).agents[k].pc in {Finished, LostInsert}
    ensures Credits(Step(s, f, k), s.agents[k].id) == if LosesToPending(s, s.agents[k]) then 0 else 1
  {
    var a, t := s.agents[k], Step(s, f, k);
    StepInv(s, f, Advance(k));
    CreditsOf(t, f, a.id);
    if a.pc != Insert {
      FinishedIsCompleted(t, f, k);
    } else if Conflicts(s.rows, a.id, a.hash) {
      InsertLoses(s, f, k);
      assert t.rows == s.rows;
    } else {
      InsertWins(s, f, k);
    }
  }

  ghost predicate LosesToPending(s: State, a: Agent) {
    a.pc == Insert && HasRef(s.rows, a.id) && !IsCompleted(s.rows, a.id)
  }

  lemma CreditsOf(s: State, f: Facts, id: CircleId)
    requires Inv(s, f)
    ensures Credits(s, id) == if IsCompleted(s.rows, id) then 1 else 0
  {
  }

  lemma FinishedIsCompleted(s: State, f: Facts, k: nat)
    requires Inv(s, f) && k < |s.agents| && s.agents[k].pc == Finished && s.agents[k].complete
    ensures IsCompleted(s.rows, s.agents[k].id)
  {
    assert AgentInv(s, f, s.agents[k]);
  }

  /** A COMPLETE that starts once the table has a row for the deposit cannot lose. */
  lemma LateCompleteCredits(f: Facts, acts: seq<Action>, k: nat)
    requires OneToOne(f) && Runs(EMPTY, f, acts)
    requires var s := After(EMPTY, f, acts);
      && k < |s.agents| && s.agents[k].late && s.agents[k].complete
      && s.agents[k].kind != Arc && s.agents[k].pc in {Finished, LostInsert}
    ensures var s := After(EMPTY, f, acts); Credits(s, s.agents[k].id) == 1
  {
    InitInv(f);
    InvRuns(EMPTY, f, acts);
    var s := After(EMPTY, f, acts);
    assert AgentInv(s, f, s.agents[k]);
  }

  lemma {:induction false} Prolong(s: State, f: Facts, acts: seq<Action>, a: Action)
    requires Runs(s, f, acts) && Can(After(s, f, acts), a)
    ensures Runs(s, f, acts + [a]) && After(s, f, acts + [a]) == Do(After(s, f, acts), f, a)
    decreases |acts|
  {
    if acts == [] {
      assert [a][1..] == [];
    } else {
      Prolong(Do(s, f, acts[0]), f, acts[1..], a);
      assert (acts + [a])[1..] == acts[1..] + [a];
    }
  }

  lemma Then(s: State, f: Facts, acts: seq<Action>, t: State, a: Action) returns (acts': seq<Action>, t': State)
    requires Runs(s, f, acts) && After(s, f, acts) == t && Can(t, a)
    ensures Runs(s, f, acts') && After(s, f, acts') == t' == Do(t, f, a)
  {
    Prolong(s, f, acts, a);
    acts', t' := acts + [a], Do(t, f, a);
  }

  /** The indexer's COMPLETE pass and a PENDING webhook both find nothing ... */
  lemma BothFindNothing(f: Facts, id: CircleId) returns (acts: seq<Action>, t: State)
    ensures Runs(EMPTY, f, acts) && After(EMPTY, f, acts) == t
    ensures t == EMPTY.(agents := [Agent(Indexer, id, Some(f.hashOf(id)), true, false, Insert),
                                   Agent(Webhook, id, None, false, false, Insert)])
  {
    t := EMPTY;
    acts := [];
    acts, t := Then(EMPTY, f, acts, t, Start(Indexer, id, true, true));
    acts, t := Then(EMPTY, f, acts, t, Start(Webhook, id, false, false));
    var a, b := t.agents[0], t.agents[1];
    acts, t := Then(EMPTY, f, acts, t, Advance(0));
    assert t == EMPTY.(agents := [a.(pc := ReadRef), b]);
    acts, t := Then(EMPTY, f, acts, t, Advance(0));
    assert t == EMPTY.(agents := [a.(pc := Insert), b]);
    acts, t := Then(EMPTY, f, acts, t, Advance(1));
    assert t == EMPTY.(agents := [a.(pc := Insert), b.(pc := ReadHash)]);
    acts, t := Then(EMPTY, f, acts, t, Advance(1));
  }

  /** ... the webhook inserts its pending row, the indexer's insert hits the unique
      index, both return normally, and nothing is credited. */
  lemma CompleteCanLose(f: Facts, id: CircleId) returns (acts: seq<Action>, t: State)
    ensures Init(EMPTY) && Runs(EMPTY, f, acts) && After(EMPTY, f, acts) == t
    ensures t.agents == [Agent(Indexer, id, Some(f.hashOf(id)), true, false, LostInsert),
                         Agent(Webhook, id, None, false, false, Finished)]
    ensures Credits(t, id) == 0
  {
    acts, t := BothFindNothing(f, id);
    acts, t := Then(EMPTY, f, acts, t, Advance(1));
    assert t.rows == map[0 := Row(id, None, Pending, f.userOf(id), f.amountOf(id))];
    assert t.rows[0].ref == id;
    acts, t := Then(EMPTY, f, acts, t, Advance(0));
  }
}
