/** The results about concurrent posting: one-at-a-time behaviour, safety, and freedom from deadlock. */
module LedgerTheorems {
  import opened Wrappers
  import opened Text
  import opened Postings
  import opened Ledger
  import opened LedgerSafety
  import opened LedgerRun
  import opened Sums

  lemma {:induction false} RunRecords(run: seq<State>, steps: seq<Step>, i: nat)
    requires IsRun(run, steps) && i < |run|
    ensures Recorded(run[i])
  {
    if i > 0 {
      RunRecords(run, steps, i - 1);
      StepRecords(run[i - 1], steps[i - 1]);
    }
  }

  lemma StepRecords(s: State, step: Step)
    requires Recorded(s) && Enabled(s, step)
    ensures Recorded(Do(s, step))
  {
    var s' := Do(s, step);
    forall u | u in s'.txs && s'.txs[u].phase.Finished?
      ensures Answered(s'.txs[u].call, s'.txs[u].phase.reply) in s'.log
    {
      if u in s.txs && s.txs[u] == s'.txs[u] {
        assert Answered(s.txs[u].call, s.txs[u].phase.reply) in s.log;
      } else {
        assert s'.log[|s.log|] == Answered(s'.txs[u].call, s'.txs[u].phase.reply);
      }
    }
  }

  /**
   * Refinement: in every reachable state the committed ledger is the one that results from running the
   * logged calls one after another - indeed only the first accepted call per key - and every answer any
   * caller received is in that log and is the one-at-a-time answer - or "in progress", for a call whose
   * reference is carried by another key's journal.
   */
  lemma ConcurrentRunIsSequential(s: State)
    requires Reachable(s)
    ensures s.db == Replayed(s.log) == Replayed(Effective(s.log))
    ensures WellFormed(s.log) && Faithful(s.log)
    ensures forall t :: t in s.txs && s.txs[t].phase.Finished? ==>
      Answered(s.txs[t].call, s.txs[t].phase.reply) in s.log &&
      (s.txs[t].phase.reply == Refused(IdempotencyInProgress) ==> ReferenceHeld(s.db, s.txs[t].call))
  {
    var run, steps :| IsRun(run, steps) && run[|run| - 1] == s;
    RunKeepsInv(run, steps, |run| - 1);
    RunRecords(run, steps, |run| - 1);
    OnlyEffectiveMatters(s.log);
    forall t | t in s.txs && s.txs[t].phase.Finished?
      ensures s.txs[t].phase.reply == Refused(IdempotencyInProgress) ==> ReferenceHeld(s.db, s.txs[t].call)
    {
      assert TxOk(s.db, s.txs[t]);
    }
  }

  // ---------- when a caller is told "in progress" ----------

  /** Transaction t tried, at step j, to insert a journal whose reference another key's journal carried. */
  ghost predicate ClashedAt(run: seq<State>, steps: seq<Step>, j: nat, t: nat)
    requires IsRun(run, steps) && j < |steps|
  {
    steps[j] == Insert(t, false) && ReferenceHeld(run[j].db, run[j].txs[t].call)
  }

  /** The transaction has clashed, or was told "in progress". */
  predicate Unlucky(tx: Tx) {
    tx.phase.Clashed? || tx.phase == Finished(Refused(IdempotencyInProgress))
  }

  /**
   * A caller is told "in progress" only if its own insert, earlier in the run, met a reference that another
   * key's journal carried, in an error that did not name the table.
   */
  lemma {:induction false} InProgressMeansClash(run: seq<State>, steps: seq<Step>, i: nat, t: nat)
    requires IsRun(run, steps) && i < |run| && t in run[i].txs && Unlucky(run[i].txs[t])
    ensures exists j: nat :: j < i && ClashedAt(run, steps, j, t)
  {
    hide Inv, Do, Enabled;
    assert i > 0 by { StartHasNone(run[0]); }
    RunKeepsInv(run, steps, i - 1);
    var s, step := run[i - 1], steps[i - 1];
    if t in s.txs && Unlucky(s.txs[t]) {
      InProgressMeansClash(run, steps, i - 1, t);
    } else {
      BecomesUnlucky(s, step, t);
      assert ClashedAt(run, steps, i - 1, t);
    }
  }

  lemma StartHasNone(s: State)
    ensures s == START ==> s.txs == map[]
  {
  }

  lemma BecomesUnlucky(s: State, step: Step, t: nat)
    requires Inv(s) && Enabled(s, step) && t in Do(s, step).txs && Unlucky(Do(s, step).txs[t])
    requires t in s.txs ==> !Unlucky(s.txs[t])
    ensures step == Insert(t, false) && ReferenceHeld(s.db, s.txs[t].call)
  {
    hide Exclusive, Linear, Written, Blocked, Balanced, DistinctIds, Locked, ResultOf, ReferenceHeld, Existing;
    if t in s.txs { assert TxOk(s.db, s.txs[t]); }
    if step.PreCheck? || step.Lookup? || step.Insert? { LedgerIsSafe(s); }
    match step
    case PreCheck(u) => if s.txs[u].call.key in s.db.records { RecordsSettled(s.db, s.txs[u].call); }
    case Lookup(u) => if s.txs[u].call.key in s.db.records { RecordsSettled(s.db, s.txs[u].call); }
    case Insert(u, _) =>
      if ReferenceExists(s.db.journals, s.txs[u].call.ReferenceUsed()) {
        assert TxOk(s.db, s.txs[u]);
        ClashIsAnothers(s.db, s.txs[u].call);
      }
    case _ =>
  }

  lemma LedgerIsSafe(s: State)
    requires Inv(s)
    ensures Safe(s.db)
  {
    EveryLedgerSafe(s.log);
  }

  /**
   * At its insert, a call whose error will not name the table goes on to be told "in progress" by the lookup that
   * follows if and only if its reference is carried by another key's journal.
   */
  lemma ToldInProgressIff(s: State, t: nat)
    requires Reachable(s) && Enabled(s, Insert(t, false))
    ensures
      var s1 := Do(s, Insert(t, false));
      ReferenceHeld(s.db, s.txs[t].call) <==>
        Enabled(s1, Lookup(t)) && Do(s1, Lookup(t)).txs[t].phase == Finished(Refused(IdempotencyInProgress))
  {
    ReachableInv(s);
    LedgerIsSafe(s);
    assert s.txs[t].call.key !in s.db.records by { assert TxOk(s.db, s.txs[t]); }
    HeldIffExists(s.db, s.txs[t].call);
    hide Inv, Safe, ReferenceHeld, Do, Enabled, Reachable;
    InsertOutcome(s, t);
    if ReferenceExists(s.db.journals, s.txs[t].call.ReferenceUsed()) { ClashedOutcome(Do(s, Insert(t, false)), t); }
  }

  lemma InsertOutcome(s: State, t: nat)
    requires Enabled(s, Insert(t, false))
    ensures t in s.txs
    ensures ReferenceExists(s.db.journals, s.txs[t].call.ReferenceUsed()) ==> Do(s, Insert(t, false)) == Move(s, t, Clashed)
    ensures !ReferenceExists(s.db.journals, s.txs[t].call.ReferenceUsed()) ==>
      !Enabled(Do(s, Insert(t, false)), Lookup(t))
  {
    hide ReferenceExists, Blocked;
  }

  lemma ClashedOutcome(s: State, t: nat)
    requires t in s.txs && s.txs[t].phase == Clashed && s.txs[t].call.key !in s.db.records
    ensures Enabled(s, Lookup(t)) && Do(s, Lookup(t)).txs[t].phase == Finished(Refused(IdempotencyInProgress))
  {
  }

  lemma HeldIffExists(db: Db, call: Call)
    requires Safe(db) && call.key !in db.records
    ensures ReferenceHeld(db, call) <==> ReferenceExists(db.journals, call.ReferenceUsed())
  {
    if ReferenceExists(db.journals, call.ReferenceUsed()) { ClashIsAnothers(db, call); }
  }

  /**
   * In every reachable state: no update is lost (each projected total is the sum of the committed postings),
   * each journal balances, each currency's debits equal its credits, and no account without an overdraft
   * allowance is negative.
   */
  lemma ReachableLedgerSafe(s: State, currency: string)
    requires Reachable(s)
    ensures ProjectionsExact(s.db) && JournalsGood(s.db) && AllSolvent(s.db) && KeysExact(s.db)
    ensures CurrencyTotal(s.db, currency, Debit) == CurrencyTotal(s.db, currency, Credit)
  {
    ReachableInv(s);
    EveryLedgerSafe(s.log);
    Conservation(s.db, currency);
  }

  // ---------- deadlock ----------

  /** The order in which every transaction takes its resources. */
  predicate Before(r: Resource, q: Resource) {
    match (r, q)
    case (KeyLock(_), RowLock(_)) => true
    case (KeyLock(_), RefLock(_)) => true
    case (RowLock(_), RefLock(_)) => true
    case (RowLock(a), RowLock(b)) => Less(a, b)
    case _ => false
  }

  lemma BeforeOrders(r: Resource, q: Resource, p: Resource)
    ensures !Before(r, r)
    ensures Before(r, q) && Before(q, p) ==> Before(r, p)
  {
    if r.RowLock? { LessIrreflexive(r.id); }
    if r.RowLock? && q.RowLock? && p.RowLock? && Less(r.id, q.id) && Less(q.id, p.id) {
      LessTransitive(r.id, q.id, p.id);
    }
  }

  /** Whoever holds what t wants is itself waiting, if at all, for something later in the order. */
  lemma WaitsClimb(s: State, t: nat, u: nat)
    requires Inv(s) && WaitsFor(s, t, u) && Wanted(s.txs[u]).Some?
    ensures Before(Wanted(s.txs[t]).value, Wanted(s.txs[u]).value)
  {
    assert TxOk(s.db, s.txs[u]);
    var w := Wanted(s.txs[t]).value;
    if w.RowLock? && s.txs[u].phase.Locking? {
      var rows, held := s.txs[u].phase.rows, s.txs[u].phase.held;
      var i :| 0 <= i < |rows[..held]| && rows[..held][i] == w.id;
      assert Less(rows[i], rows[held]);
    }
  }

  ghost predicate Link(s: State, path: seq<nat>, i: nat) {
    i + 1 < |path| && WaitsFor(s, path[i], path[i + 1])
  }

  /** Each transaction on the path waits for the next. */
  ghost predicate WaitPath(s: State, path: seq<nat>) {
    |path| >= 2 && forall i: nat :: i < |path| - 1 ==> Link(s, path, i)
  }

  /** The waits-for relation of any reachable state has no cycle. */
  lemma NoWaitCycle(s: State, path: seq<nat>)
    requires Reachable(s) && WaitPath(s, path)
    ensures path[0] != path[|path| - 1]
  {
    ReachableInv(s);
    assert Link(s, path, 0);
    if path[0] == path[|path| - 1] {
      PathClimbs(s, path, |path| - 1);
      BeforeOrders(Wanted(s.txs[path[0]]).value, Wanted(s.txs[path[0]]).value, Wanted(s.txs[path[0]]).value);
    }
  }

  lemma {:induction false} PathClimbs(s: State, path: seq<nat>, k: nat)
    requires Inv(s) && WaitPath(s, path) && 0 < k < |path|
    ensures path[0] in s.txs && path[k] in s.txs && Wanted(s.txs[path[0]]).Some?
    ensures Wanted(s.txs[path[k]]).Some? ==>
      Before(Wanted(s.txs[path[0]]).value, Wanted(s.txs[path[k]]).value)
  {
    assert Link(s, path, k - 1);
    if Wanted(s.txs[path[k]]).Some? {
      WaitsClimb(s, path[k - 1], path[k]);
    }
    if k > 1 {
      PathClimbs(s, path, k - 1);
      if Wanted(s.txs[path[k]]).Some? {
        BeforeOrders(Wanted(s.txs[path[0]]).value, Wanted(s.txs[path[k - 1]]).value, Wanted(s.txs[path[k]]).value);
      }
    }
  }

  /** The transactions waiting for something later than t does. */
  function WaitingAbove(s: State, t: nat): set<nat>
    requires t in s.txs && Wanted(s.txs[t]).Some?
  {
    set v | v in s.txs && Wanted(s.txs[v]).Some? && Before(Wanted(s.txs[t]).value, Wanted(s.txs[v]).value)
  }

  lemma {:induction false} SomeoneUnblocked(s: State, t: nat) returns (u: nat)
    requires Inv(s) && t in s.txs && s.txs[t].Open()
    ensures u in s.txs && s.txs[u].Open() && !Blocked(s, u)
    decreases if Wanted(s.txs[t]).None? then 0 else 1 + |WaitingAbove(s, t)|
  {
    if !Blocked(s, t) {
      u := t;
    } else {
      var v :| v in s.txs && WaitsFor(s, t, v);
      if Wanted(s.txs[v]).Some? {
        WaitsClimb(s, t, v);
        forall x | x in WaitingAbove(s, v) ensures x in WaitingAbove(s, t) {
          BeforeOrders(Wanted(s.txs[t]).value, Wanted(s.txs[v]).value, Wanted(s.txs[x]).value);
        }
        BeforeOrders(Wanted(s.txs[v]).value, Wanted(s.txs[v]).value, Wanted(s.txs[v]).value);
        assert v in WaitingAbove(s, t) && v !in WaitingAbove(s, v);
        assert WaitingAbove(s, v) < WaitingAbove(s, t);
        SmallerSet(WaitingAbove(s, v), WaitingAbove(s, t));
      }
      u := SomeoneUnblocked(s, v);
    }
  }

  lemma SmallerSet<T>(a: set<T>, b: set<T>)
    requires a < b
    ensures |a| < |b|
  {
    assert b == a + (b - a);
  }

  /** How many steps of its own a transaction still has before it, at most. */
  function Work(tx: Tx): nat {
    match tx.phase
    case Checking => |tx.call.Accounts()| + 6
    case Reserving => |tx.call.Accounts()| + 5
    case Locking(rows, held) => if held <= |rows| then |rows| - held + 3 else 3
    case Inserting(_) => 2
    case Writing(_) => 1
    case Conflicted => 1
    case Clashed => 1
    case Finished(_) => 0
    case Aborted => 0
  }

  ghost function TotalWork(s: State): int {
    SumOver(s.txs.Keys, t => if t in s.txs then Work(s.txs[t]) else 0)
  }

  /** The step an unblocked open transaction takes next; it is enabled and shortens its work. */
  function NextStep(s: State, t: nat, named: bool): Step
    requires t in s.txs
  {
    match s.txs[t].phase
    case Checking => PreCheck(t)
    case Reserving => Reserve(t)
    case Locking(rows, held) => if held < |rows| then LockRow(t) else Check(t)
    case Inserting(_) => Insert(t, named)
    case Writing(_) => Commit(t)
    case _ => Lookup(t)
  }

  lemma NextStepShortens(s: State, t: nat, named: bool)
    requires Inv(s) && t in s.txs && s.txs[t].Open() && !Blocked(s, t)
    ensures Enabled(s, NextStep(s, t, named))
    ensures
      var s' := Do(s, NextStep(s, t, named));
      s'.txs.Keys == s.txs.Keys && Work(s'.txs[t]) < Work(s.txs[t]) &&
      forall u :: u in s.txs && u != t ==> s'.txs[u] == s.txs[u]
  {
    hide Verdict, Replay, Written, ReferenceExists, Exclusive, Linear, Balanced, DistinctIds, ResultOf, Locked;
    var tx := s.txs[t];
    assert TxOk(s.db, tx);
    if tx.phase.Locking? && tx.phase.held < |tx.phase.rows| {
      assert tx.phase.rows[tx.phase.held] in tx.phase.rows;
    }
    if tx.phase.Reserving? && tx.call.key !in s.db.records {
      ExistingShorter(tx.call.Accounts(), s.db.accounts);
    }
  }

  lemma {:induction false} ExistingShorter(ids: seq<string>, accounts: map<string, Account>)
    ensures |Existing(ids, accounts)| <= |ids|
  {
    if |ids| > 0 { ExistingShorter(ids[1..], accounts); }
  }

  /**
   * Freedom from deadlock and livelock: while any transaction of a reachable state is open, some open
   * transaction can take its next step, and that step makes the total remaining work smaller.
   */
  lemma SomeoneAlwaysMoves(s: State, t: nat, named: bool) returns (u: nat)
    requires Reachable(s) && t in s.txs && s.txs[t].Open()
    ensures u in s.txs && s.txs[u].Open() && Enabled(s, NextStep(s, u, named))
    ensures 0 <= TotalWork(Do(s, NextStep(s, u, named))) < TotalWork(s)
  {
    ReachableInv(s);
    u := SomeoneUnblocked(s, t);
    NextStepShortens(s, u, named);
    var s' := Do(s, NextStep(s, u, named));
    var f := x => if x in s.txs then Work(s.txs[x]) else 0;
    var g := x => if x in s'.txs then Work(s'.txs[x]) else 0;
    SumTake(s.txs.Keys, f, u);
    SumTake(s.txs.Keys, g, u);
    SumSame(s.txs.Keys - {u}, f, g);
    SumZero(s'.txs.Keys, x => 0);
    SumAtMost(s'.txs.Keys, x => 0, g);
  }
}
