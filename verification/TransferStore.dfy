/**
 * The Payments tables and the methods that write them (transfers.service.ts), in the source's own step-by-step
 * form and each run alone; every method is matched to the protocol steps that it takes.
 */
module TransferStore {
  import opened Wrappers
  import opened Sums
  import opened Ledger
  import opened Payments
  import opened ExactlyOnce

  ghost predicate UniqueKeys(ts: Rows) {
    forall id, jd :: id in ts && jd in ts && id != jd ==> ts[id].sender != ts[jd].sender || ts[id].key != ts[jd].key
  }

  /** The tables as a protocol state with one confirm, c = 0, in the given phase. */
  function Alone(cfg: Config, now: int, intents: Intents, transfers: Rows, k: Confirm): State {
    State(cfg, now, map[], map[], EMPTY, intents, {}, transfers, map[0 := k], map[])
  }

  /** A step that is taken if it can be; once the confirm is answered, none of its steps can. */
  ghost function Then(s: State, step: Step): State {
    if Enabled(s, step) then Do(s, step) else s
  }

  /** The steps of a confirm's transaction one after the other, with nobody else about. */
  ghost function Transaction(s: State, id: string, reference: string): State {
    Then(Then(Then(Then(Then(s, ConfirmRead(0)), ConfirmLock(0)), ConfirmCheck(0)), ConfirmSum(0)),
      ConfirmCommit(0, id, reference))
  }

  /** The transaction ends with these tables and this answer. */
  ghost predicate Ends(s: State, id: string, reference: string, intents: Intents, transfers: Rows, r: Outcome) {
    var s' := Transaction(s, id, reference);
    s'.intents == intents && s'.transfers == transfers && 0 in s'.confirms && s'.confirms[0].phase == Over(Some(r))
  }

  /** The recovery claims of a batch of rows. */
  function ClaimAll(cfg: Config, ts: Rows, ids: seq<string>): Rows {
    map id | id in ts :: if id in ids then ClaimedRow(cfg, ts[id]) else ts[id]
  }

  predicate Exhausted(cfg: Config, row: Transfer) { row.attempts + 1 >= cfg.maxAttempts }

  function ClaimedRow(cfg: Config, row: Transfer): Transfer {
    if Exhausted(cfg, row) then row.(status := RequiresReview, attempts := row.attempts + 1)
    else row.(attempts := row.attempts + 1, owed := row.owed + 1)
  }

  /** What the query selects: distinct PROCESSING rows. */
  ghost predicate Claimable(ts: Rows, ids: seq<string>) {
    && (forall i :: 0 <= i < |ids| ==> ids[i] in ts && ts[ids[i]].status == Processing)
    && (forall i, j :: 0 <= i < j < |ids| ==> ids[i] != ids[j])
  }

  ghost predicate Authorizable(intents: Intents, ts: Rows, sender: string, token: string, now: int) {
    && token in intents && intents[token].sender == sender
    && if intents[token].consumed then exists id :: id in ts && ts[id].intentId == token && ts[id].sender == sender
       else intents[token].expiresAt > now
  }

  /** The recovery step that the protocol takes for a row. */
  function ClaimStep(s: State, id: string): Step
    requires id in s.transfers
  {
    if Exhausted(s.cfg, s.transfers[id]) then ClaimReview(id) else ClaimRetry(id)
  }

  /** The protocol's recovery steps for a batch, one row after the other. */
  ghost function ClaimSteps(s: State, ids: seq<string>): State {
    if |ids| == 0 then s
    else
      var before, id := ClaimSteps(s, ids[..|ids| - 1]), ids[|ids| - 1];
      if id in before.transfers then Then(before, ClaimStep(before, id)) else before
  }

  class TransferStore {
    const cfg: Config
    var intents: Intents
    var transfers: Rows

    constructor (cfg: Config)
      ensures this.cfg == cfg && intents == map[] && transfers == map[]
    {
      this.cfg := cfg;
      intents, transfers := map[], map[];
    }

    /** The unique (sender, key) lookup. */
    method FindByKey(sender: string, key: string) returns (r: Option<string>)
      ensures r.None? <==> !HasKey(transfers, sender, key)
      ensures r.Some? ==> r.value in transfers && transfers[r.value].sender == sender && transfers[r.value].key == key
    {
      var todo := transfers.Keys;
      while todo != {}
        invariant todo <= transfers.Keys
        invariant forall id :: id in transfers && id !in todo ==> transfers[id].sender != sender || transfers[id].key != key
        decreases |todo|
      {
        var id :| id in todo;
        if transfers[id].sender == sender && transfers[id].key == key {
          return Some(id);
        }
        todo := todo - {id};
      }
      r := None;
    }

    /** The unique intent reference, checked by the insert. */
    method IntentTaken(token: string) returns (taken: bool)
      ensures taken <==> IntentUsed(transfers, token)
    {
      var todo := transfers.Keys;
      while todo != {}
        invariant todo <= transfers.Keys
        invariant forall id :: id in transfers && id !in todo ==> transfers[id].intentId != token
        decreases |todo|
      {
        var id :| id in todo;
        if transfers[id].intentId == token {
          return true;
        }
        todo := todo - {id};
      }
      taken := false;
    }

    /** The aggregate over the sender's counting rows of the day and later. */
    method Reserved(sender: string, day: int) returns (sum: int)
      ensures sum == ReservedSince(transfers, sender, day)
    {
      var ts := transfers;
      ghost var f: string -> int := id => if id in ts then WeightSince(ts[id], sender, day) else 0;
      sum := 0;
      var seen: set<string> := {};
      var todo := ts.Keys;
      while todo != {}
        invariant todo !! seen && todo + seen == ts.Keys
        invariant sum == SumOver(seen, f)
        decreases |todo|
      {
        var id :| id in todo;
        SumInsert(seen, f, id);
        sum := sum + WeightSince(ts[id], sender, day);
        todo, seen := todo - {id}, seen + {id};
      }
      assert seen == ts.Keys;
      SumSame(seen, f, id => if id in ts then WeightSince(ts[id], sender, day) else 0);
    }

    /** `authorize`: a consumed intent is fine if its transfer is the sender's; otherwise it must still be live. */
    method Authorize(sender: string, token: string, now: int) returns (refused: bool)
      modifies this
      ensures transfers == old(transfers)
      ensures refused <==> !Authorizable(old(intents), transfers, sender, token, now)
      ensures intents == if refused || old(intents)[token].consumed then old(intents)
                         else old(intents)[token := old(intents)[token].(authorized := true)]
      ensures forall s: State :: s.intents == old(intents) && s.now == now ==>
        (intents != old(intents) ==> Enabled(s, AuthorizeRead(token, sender)))
        && (Enabled(s, AuthorizeRead(token, sender)) ==> !refused && token in intents && intents[token].authorized)
    {
      if token !in intents || intents[token].sender != sender {
        return true;
      }
      if intents[token].consumed {
        var todo := transfers.Keys;
        while todo != {}
          invariant todo <= transfers.Keys
          invariant forall id :: id in transfers && id !in todo ==>
            transfers[id].intentId != token || transfers[id].sender != sender
          decreases |todo|
        {
          var id :| id in todo;
          if transfers[id].intentId == token && transfers[id].sender == sender {
            return false;
          }
          todo := todo - {id};
        }
        return true;
      }
      if intents[token].expiresAt <= now {
        return true;
      }
      intents := intents[token := intents[token].(authorized := true)];
      return false;
    }

    /** The checks of `confirm` before its transaction; None goes on to the risk gate. */
    method Preflight(sender: string, key: string, token: string) returns (r: Option<Outcome>)
      requires UniqueKeys(transfers)
      ensures PreflightPhase(Alone(cfg, 0, intents, transfers, Confirm(sender, key, token, 0, Gate)), sender, key, token) ==
        if r.None? then Gate else Over(r)
    {
      if token !in intents || intents[token].sender != sender || !intents[token].authorized {
        return Some(Refusal(AuthorizationFailed));
      }
      var existing := FindByKey(sender, key);
      if existing.None? {
        return None;
      }
      assert HasKey(transfers, sender, key) && WithKey(transfers, sender, key) == existing.value;
      var i := intents[token];
      if transfers[existing.value].hash
         != ConfirmHash(i.sender, token, i.sourceAccount, i.recipientAccount, i.amount, i.currency) {
        return Some(Refusal(ConfirmConflict));
      }
      r := Some(Existing(existing.value));
    }

    /** The transaction of `confirm`, from reading the intent to consuming it. */
    method ConfirmTransaction(k: Confirm, now: int, id: string, reference: string) returns (r: Outcome)
      requires k.phase.Reading? && UniqueKeys(transfers) && id !in transfers
      modifies this
      ensures Ends(Alone(cfg, now, old(intents), old(transfers), k), id, reference, intents, transfers, r)
    {
      ghost var s := Alone(cfg, now, intents, transfers, k);
      hide Ends, ReservedSince, HasKey, IntentUsed, UniqueKeys, NewRow, HashOf;
      if k.token !in intents || intents[k.token].sender != k.sender {
        UnknownIntent(s, k, id, reference);
        return Refusal(IntentExpired);
      }
      var i := intents[k.token];
      var existing := FindByKey(k.sender, k.key);
      if existing.Some? {
        Replays(s, k, i, existing.value, id, reference);
        if transfers[existing.value].hash != HashOf(k.token, i) {
          return Refusal(ConfirmConflict);
        }
        return Existing(existing.value);
      }
      if i.expiresAt <= now || i.consumed || !i.authorized {
        DeadIntent(s, k, i, id, reference);
        return Refusal(IntentExpired);
      }
      var reserved := Reserved(k.sender, k.day);
      if reserved + i.amount > cfg.dailyLimit {
        OverLimit(s, k, i, id, reference);
        return Refusal(LimitExceeded);
      }
      var taken := IntentTaken(k.token);
      Creates(s, k, i, id, reference);
      if taken {
        return Refusal(UniqueViolation);
      }
      transfers := transfers[id := NewRow(k.(phase := Summed(i, now, reserved)), reference)];
      intents := intents[k.token := i.(consumed := true)];
      r := Created(id);
    }

    /** What `settle` writes once the call has ended: the answer, or nothing when the channel failed. */
    method RecordAnswer(id: string, answer: Answer)
      requires id in transfers
      modifies this
      ensures transfers == old(transfers)[id := SettledRow(old(transfers)[id], answer)] && intents == old(intents)
    {
      if answer.Success? {
        transfers := transfers[id := transfers[id].(
          status := Status.Completed, journalId := Some(answer.result.journalId))];
      } else if answer.status < 500 {
        transfers := transfers[id := transfers[id].(status := Failed, failure := Some(SafeFailure(answer.code)))];
      }
    }

    /** The claiming transaction of `recover`, over the batch its query locked; answers the rows to settle again. */
    method ClaimBatch(ids: seq<string>) returns (retry: seq<string>)
      requires Claimable(transfers, ids)
      modifies this
      ensures transfers == ClaimAll(cfg, old(transfers), ids) && intents == old(intents)
      ensures forall s: State :: s.cfg == cfg && s.transfers == old(transfers) ==>
        ClaimSteps(s, ids) == s.(transfers := transfers)
      ensures forall id :: id in retry <==> id in ids && !Exhausted(cfg, old(transfers)[id])
      ensures |retry| <= |ids|
    {
      retry := [];
      for n := 0 to |ids|
        invariant transfers == ClaimAll(cfg, old(transfers), ids[..n]) && intents == old(intents)
        invariant forall id :: id in retry <==> id in ids[..n] && !Exhausted(cfg, old(transfers)[id])
        invariant |retry| <= n
      {
        var id := ids[n];
        assert ids[..n + 1] == ids[..n] + [id];
        assert id !in ids[..n];
        var current := transfers[id];
        assert current == old(transfers)[id];
        ClaimOneMore(cfg, old(transfers), ids[..n], id);
        if current.attempts + 1 >= cfg.maxAttempts {
          transfers := transfers[id := current.(status := RequiresReview, attempts := current.attempts + 1)];
        } else {
          transfers := transfers[id := current.(attempts := current.attempts + 1, owed := current.owed + 1)];
          retry := retry + [id];
        }
      }
      assert ids[..|ids|] == ids;
      forall s: State | s.cfg == cfg && s.transfers == old(transfers)
        ensures ClaimSteps(s, ids) == s.(transfers := transfers)
      {
        BatchIsSteps(s, ids);
      }
    }
  }

  lemma ClaimOneMore(cfg: Config, ts: Rows, ids: seq<string>, id: string)
    requires id in ts
    ensures ClaimAll(cfg, ts, ids + [id]) == ClaimAll(cfg, ts, ids)[id := ClaimedRow(cfg, ts[id])]
  {
  }

  // ---------- the branches of the transaction, step by step ----------

  lemma UnknownIntent(s: State, k: Confirm, id: string, reference: string)
    requires s.confirms == map[0 := k] && k.phase.Reading? && id !in s.transfers
    requires k.token !in s.intents || s.intents[k.token].sender != k.sender
    ensures Ends(s, id, reference, s.intents, s.transfers, Refusal(IntentExpired))
  {
    ReadFails(s, k);
    hide Then;
    var s1 := ConfirmTo(s, 0, Over(Some(Refusal(IntentExpired))));
    AnsweredStays(s1, ConfirmLock(0));
    AnsweredStays(s1, ConfirmCheck(0));
    StaysAnswered(s1, id, reference);
  }

  lemma ReadFails(s: State, k: Confirm)
    requires s.confirms == map[0 := k] && k.phase.Reading?
    requires k.token !in s.intents || s.intents[k.token].sender != k.sender
    ensures Then(s, ConfirmRead(0)) == ConfirmTo(s, 0, Over(Some(Refusal(IntentExpired))))
  {
  }

  /** Reading and locking, alone. */
  lemma Locks(s: State, k: Confirm, i: Intent)
    requires s.confirms == map[0 := k] && k.phase.Reading? && k.token in s.intents
    requires s.intents[k.token] == i && i.sender == k.sender
    ensures Then(Then(s, ConfirmRead(0)), ConfirmLock(0)) == ConfirmTo(s, 0, HavingLock(i))
  {
    var s1 := ConfirmTo(s, 0, AwaitingLock(i));
    assert Then(s, ConfirmRead(0)) == s1 by { Reads(s, k, i); }
    LocksAlone(s1, i);
    hide Then;
    Overwrites(s, AwaitingLock(i), HavingLock(i));
  }

  lemma Reads(s: State, k: Confirm, i: Intent)
    requires s.confirms == map[0 := k] && k.phase.Reading? && k.token in s.intents
    requires s.intents[k.token] == i && i.sender == k.sender
    ensures Then(s, ConfirmRead(0)) == ConfirmTo(s, 0, AwaitingLock(i))
  {
  }

  lemma LocksAlone(s: State, i: Intent)
    requires s.confirms.Keys == {0} && s.confirms[0].phase == AwaitingLock(i)
    ensures Then(s, ConfirmLock(0)) == ConfirmTo(s, 0, HavingLock(i))
  {
  }

  /** An answered confirm takes no further step. */
  lemma AnsweredStays(s: State, step: Step)
    requires 0 in s.confirms && s.confirms[0].phase.Over?
    requires step.ConfirmRead? || step.ConfirmLock? || step.ConfirmCheck? || step.ConfirmSum? || step.ConfirmCommit?
    requires step.c == 0
    ensures Then(s, step) == s
  {
  }

  lemma StaysAnswered(s: State, id: string, reference: string)
    requires 0 in s.confirms && s.confirms[0].phase.Over?
    ensures Then(Then(s, ConfirmSum(0)), ConfirmCommit(0, id, reference)) == s
  {
    hide Then;
    AnsweredStays(s, ConfirmSum(0));
    AnsweredStays(s, ConfirmCommit(0, id, reference));
  }

  lemma Checks(s: State, k: Confirm, i: Intent)
    requires s.confirms == map[0 := k]
    ensures Then(ConfirmTo(s, 0, HavingLock(i)), ConfirmCheck(0)) ==
      ConfirmTo(s, 0, CheckPhase(s, k.(phase := HavingLock(i))))
  {
    hide CheckPhase;
    var s2, k2 := ConfirmTo(s, 0, HavingLock(i)), k.(phase := HavingLock(i));
    CheckReadsTables(s2, s, k2);
    ChecksAlone(s2, k2);
    hide Then;
    Overwrites(s, HavingLock(i), CheckPhase(s, k2));
  }

  lemma ChecksAlone(s: State, k: Confirm)
    requires 0 in s.confirms && s.confirms[0] == k && k.phase.HavingLock?
    ensures Then(s, ConfirmCheck(0)) == ConfirmTo(s, 0, CheckPhase(s, k))
  {
    hide CheckPhase;
  }

  lemma CheckReadsTables(s: State, t: State, k: Confirm)
    requires k.phase.HavingLock? && s.transfers == t.transfers && s.now == t.now
    ensures CheckPhase(s, k) == CheckPhase(t, k)
  {
  }

  lemma Replays(s: State, k: Confirm, i: Intent, found: string, id: string, reference: string)
    requires s.confirms == map[0 := k] && k.phase.Reading? && k.token in s.intents && id !in s.transfers
    requires s.intents[k.token] == i && i.sender == k.sender && UniqueKeys(s.transfers)
    requires found in s.transfers && s.transfers[found].sender == k.sender && s.transfers[found].key == k.key
    ensures Ends(s, id, reference, s.intents, s.transfers,
      if s.transfers[found].hash != HashOf(k.token, i) then Refusal(ConfirmConflict) else Existing(found))
  {
    assert HasKey(s.transfers, k.sender, k.key) && WithKey(s.transfers, k.sender, k.key) == found;
    hide Then;
    Locks(s, k, i);
    Checks(s, k, i);
    StaysAnswered(ConfirmTo(s, 0, CheckPhase(s, k.(phase := HavingLock(i)))), id, reference);
  }

  lemma DeadIntent(s: State, k: Confirm, i: Intent, id: string, reference: string)
    requires s.confirms == map[0 := k] && k.phase.Reading? && k.token in s.intents && id !in s.transfers
    requires s.intents[k.token] == i && i.sender == k.sender && !HasKey(s.transfers, k.sender, k.key)
    requires i.expiresAt <= s.now || i.consumed || !i.authorized
    ensures Ends(s, id, reference, s.intents, s.transfers, Refusal(IntentExpired))
  {
    hide Then;
    Locks(s, k, i);
    Checks(s, k, i);
    StaysAnswered(ConfirmTo(s, 0, Over(Some(Refusal(IntentExpired)))), id, reference);
  }

  lemma Overwrites(s: State, p: ConfirmPhase, q: ConfirmPhase)
    requires 0 in s.confirms
    ensures ConfirmTo(ConfirmTo(s, 0, p), 0, q) == ConfirmTo(s, 0, q)
  {
    assert ConfirmTo(ConfirmTo(s, 0, p), 0, q).confirms == ConfirmTo(s, 0, q).confirms;
  }

  /** Up to the aggregate, for a live intent and a fresh key. */
  lemma ReadsAggregate(s: State, k: Confirm, i: Intent)
    requires s.confirms == map[0 := k]
    ensures
      var reserved := ReservedSince(s.transfers, k.sender, k.day);
      Then(ConfirmTo(s, 0, Checked(i, s.now)), ConfirmSum(0)) == ConfirmTo(s, 0,
        if reserved + i.amount > s.cfg.dailyLimit then Over(Some(Refusal(LimitExceeded))) else Summed(i, s.now, reserved))
  {
    var s3 := ConfirmTo(s, 0, Checked(i, s.now));
    var reserved := ReservedSince(s.transfers, k.sender, k.day);
    var phase := if reserved + i.amount > s.cfg.dailyLimit then Over(Some(Refusal(LimitExceeded))) else Summed(i, s.now, reserved);
    assert Then(s3, ConfirmSum(0)) == ConfirmTo(s3, 0, phase) by { SumsAlone(s3, k, i); }
    Overwrites(s, Checked(i, s.now), phase);
  }

  lemma SumsAlone(s3: State, k: Confirm, i: Intent)
    requires 0 in s3.confirms && s3.confirms[0] == k.(phase := Checked(i, s3.now))
    ensures
      var reserved := ReservedSince(s3.transfers, k.sender, k.day);
      Then(s3, ConfirmSum(0)) == ConfirmTo(s3, 0,
        if reserved + i.amount > s3.cfg.dailyLimit then Over(Some(Refusal(LimitExceeded))) else Summed(i, s3.now, reserved))
  {
    hide ReservedSince;
  }

  ghost predicate Live(s: State, k: Confirm, i: Intent) {
    && s.confirms == map[0 := k] && k.phase.Reading? && k.token in s.intents
    && s.intents[k.token] == i && i.sender == k.sender && !HasKey(s.transfers, k.sender, k.key)
    && i.expiresAt > s.now && !i.consumed && i.authorized
  }

  lemma OverLimit(s: State, k: Confirm, i: Intent, id: string, reference: string)
    requires Live(s, k, i) && id !in s.transfers
    requires ReservedSince(s.transfers, k.sender, k.day) + i.amount > s.cfg.dailyLimit
    ensures Ends(s, id, reference, s.intents, s.transfers, Refusal(LimitExceeded))
  {
    hide ReservedSince, Then;
    Locks(s, k, i);
    Checks(s, k, i);
    ReadsAggregate(s, k, i);
    AnsweredStays(ConfirmTo(s, 0, Over(Some(Refusal(LimitExceeded)))), ConfirmCommit(0, id, reference));
  }

  lemma Creates(s: State, k: Confirm, i: Intent, id: string, reference: string)
    requires Live(s, k, i) && id !in s.transfers
    requires ReservedSince(s.transfers, k.sender, k.day) + i.amount <= s.cfg.dailyLimit
    ensures
      var row := NewRow(k.(phase := Summed(i, s.now, ReservedSince(s.transfers, k.sender, k.day))), reference);
      if IntentUsed(s.transfers, k.token) then Ends(s, id, reference, s.intents, s.transfers, Refusal(UniqueViolation))
      else Ends(s, id, reference, s.intents[k.token := i.(consumed := true)], s.transfers[id := row], Created(id))
  {
    hide ReservedSince, Then, IntentUsed, HasKey;
    Locks(s, k, i);
    Checks(s, k, i);
    ReadsAggregate(s, k, i);
    Inserts(s, k, i, ReservedSince(s.transfers, k.sender, k.day), id, reference);
  }

  lemma Inserts(s: State, k: Confirm, i: Intent, reserved: int, id: string, reference: string)
    requires Live(s, k, i) && id !in s.transfers
    ensures
      var s4 := ConfirmTo(s, 0, Summed(i, s.now, reserved));
      var row := NewRow(k.(phase := Summed(i, s.now, reserved)), reference);
      Then(s4, ConfirmCommit(0, id, reference)) ==
        if IntentUsed(s.transfers, k.token) then ConfirmTo(s, 0, Over(Some(Refusal(UniqueViolation))))
        else ConfirmTo(SetRow(s, id, row), 0, Over(Some(Created(id)))).(intents := s.intents[k.token := i.(consumed := true)])
  {
    hide IntentUsed, HasKey, Then;
    var p := Summed(i, s.now, reserved);
    var s4 := ConfirmTo(s, 0, p);
    InsertsAlone(s4, k, i, reserved, id, reference);
    Overwrites(s, p, Over(Some(Refusal(UniqueViolation))));
    Overwrites(SetRow(s, id, NewRow(k.(phase := p), reference)), p, Over(Some(Created(id))));
  }

  lemma InsertsAlone(s4: State, k: Confirm, i: Intent, reserved: int, id: string, reference: string)
    requires 0 in s4.confirms && s4.confirms[0] == k.(phase := Summed(i, s4.now, reserved)) && id !in s4.transfers
    requires k.token in s4.intents && s4.intents[k.token] == i && !HasKey(s4.transfers, k.sender, k.key)
    ensures
      var row := NewRow(k.(phase := Summed(i, s4.now, reserved)), reference);
      Then(s4, ConfirmCommit(0, id, reference)) ==
        if IntentUsed(s4.transfers, k.token) then ConfirmTo(s4, 0, Over(Some(Refusal(UniqueViolation))))
        else ConfirmTo(SetRow(s4, id, row), 0, Over(Some(Created(id)))).(intents := s4.intents[k.token := i.(consumed := true)])
  {
    hide IntentUsed, HasKey, NewRow;
  }

  // ---------- the batch as steps ----------

  /** Claiming a row of a batch is exactly its recovery step, which the protocol enables. */
  lemma ClaimIsStep(s: State, id: string)
    requires id in s.transfers && s.transfers[id].status == Processing
    ensures Enabled(s, ClaimStep(s, id))
    ensures Then(s, ClaimStep(s, id)) == SetRow(s, id, ClaimedRow(s.cfg, s.transfers[id]))
  {
  }

  /** What the loop does to the batch is what the protocol's steps do, one after the other. */
  lemma {:induction false} BatchIsSteps(s: State, ids: seq<string>)
    requires Claimable(s.transfers, ids)
    ensures ClaimSteps(s, ids) == s.(transfers := ClaimAll(s.cfg, s.transfers, ids))
  {
    if |ids| == 0 {
      assert ClaimAll(s.cfg, s.transfers, ids) == s.transfers;
    } else {
      var init, id := ids[..|ids| - 1], ids[|ids| - 1];
      BatchIsSteps(s, init);
      var before := ClaimSteps(s, init);
      assert id !in init && ids == init + [id];
      assert before.transfers[id] == s.transfers[id];
      hide Then, ClaimedRow;
      ClaimIsStep(before, id);
      ClaimOneMore(s.cfg, s.transfers, init, id);
    }
  }
}
