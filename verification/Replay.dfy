/** Replay stability: every completed response ever returned for one row is the same, and it is what the
    one stored worker call produced, under the deployment that stored it. */
module Replay {
  import opened Outcomes
  import opened RequestTable
  import opened RowLaws
  import opened Gateway
  import opened GatewayInvariant

  /** From one state to the next, a row moves along an edge of its life cycle, or it was just inserted. */
  ghost predicate RowsMove(s: State, s': State) {
    && (forall id :: id in s'.rows && id in s'.born ==>
          || (id in s.rows && id in s.born && s'.born[id] == s.born[id] && Moves(s.rows[id], s'.rows[id]))
          || (s'.born[id] == |s.log| && s'.rows[id].status == Reserved))
    && (forall id :: id in s.rows && id !in s'.rows ==> Tombstone(s.rows[id].status))
  }

  /** A response has its origin in one stored call. */
  ghost predicate HasOrigin(log: seq<Event>, row: nat, r: Response) {
    exists a: nat, i: nat, j: nat, k: nat :: IsOrigin(log, row, r, a, i, j, k)
  }

  /** Attempt a was called for the row, produced the content, and its result was then stored. */
  predicate IsOrigin(log: seq<Event>, row: nat, r: Response, a: nat, i: nat, j: nat, k: nat) {
    && i < j < k < |log|
    && log[i].Called? && log[i].row == row && log[i].attempt == a
    && log[j] == Ended(a, Produced(r.mediaType, r.content))
    && log[k].Stored? && log[k].row == row && log[k].attempt == a
    && log[k].release == Provenance(r.deployment, r.policyVersion)
  }

  ghost predicate CompletedInv(s: State) {
    forall id :: id in s.rows && id in s.born && s.rows[id].status == Completed ==> CompletedOk(s, id)
  }

  ghost predicate ConsistentInv(s: State) {
    forall i, id :: 0 <= i < |s.log| && Keeps(s.log[i]) && RowBorn(s, id, s.log[i].row) ==> Consistent(s, s.log[i], id)
  }

  /** The events that fix what a row's result is. */
  predicate Keeps(e: Event) {
    e.Answered? || e.Stored?
  }

  predicate RowBorn(s: State, id: string, row: nat) {
    id in s.rows && id in s.born && s.born[id] == row
  }

  ghost predicate OriginInv(log: seq<Event>) {
    forall i :: 0 <= i < |log| && log[i].Answered? ==> HasOrigin(log, log[i].row, log[i].response)
  }

  /** All responses read back for one row are equal. */
  ghost predicate SameAnswers(log: seq<Event>) {
    forall i, j :: 0 <= i < |log| && 0 <= j < |log| && log[i].Answered? && log[j].Answered? && log[i].row == log[j].row ==>
      log[i].response == log[j].response
  }

  /** A result is stored at most once for one row. */
  ghost predicate StoredOnce(log: seq<Event>) {
    forall i, j :: 0 <= i < |log| && 0 <= j < |log| && log[i].Stored? && log[j].Stored? && log[i].row == log[j].row ==> i == j
  }

  ghost predicate KeptInv(log: seq<Event>) {
    && OriginInv(log) && SameAnswers(log) && StoredOnce(log)
    && forall i :: 0 <= i < |log| && Keeps(log[i]) ==> log[i].row < |log|
  }

  ghost predicate ReplayInv(s: State) {
    TableOk(s.rows) && CompletedInv(s) && ConsistentInv(s) && KeptInv(s.log)
  }

  /** A completed row can be read back, and what it holds has its origin in the log. */
  ghost predicate CompletedOk(s: State, id: string)
    requires id in s.rows && id in s.born
  {
    && ExistingResponse(id, s.rows[id]).Some?
    && ExistingResponse(id, s.rows[id]).value.Answer?
    && HasOrigin(s.log, s.born[id], ExistingResponse(id, s.rows[id]).value.response)
  }

  /** A row whose result was stored or read back is completed with that result, or a tombstone. */
  ghost predicate Consistent(s: State, e: Event, id: string)
    requires id in s.rows
  {
    var row := s.rows[id];
    && (row.status == Completed || Tombstone(row.status))
    && (e.Answered? && row.status == Completed ==> ExistingResponse(id, row) == Some(Answer(e.response)))
  }

  /** Nothing is completed, stored or read back. */
  ghost predicate Calm(s: State, s': State) {
    && RowsMove(s, s')
    && TableOk(s'.rows)
    && (forall id :: id in s'.rows && s'.rows[id].status == Completed ==> id in s.rows && s'.rows[id] == s.rows[id])
    && s.log <= s'.log
    && (forall i :: |s.log| <= i < |s'.log| ==> !Keeps(s'.log[i]))
  }

  lemma OriginGrows(log: seq<Event>, log': seq<Event>, row: nat, r: Response)
    requires log <= log' && HasOrigin(log, row, r)
    ensures HasOrigin(log', row, r)
  {
    var a: nat, i: nat, j: nat, k: nat :| IsOrigin(log, row, r, a, i, j, k);
    assert IsOrigin(log', row, r, a, i, j, k);
  }

  lemma OriginsGrow(log: seq<Event>, log': seq<Event>)
    requires log <= log' && OriginInv(log)
    requires forall i :: |log| <= i < |log'| && log'[i].Answered? ==> HasOrigin(log, log'[i].row, log'[i].response)
    ensures OriginInv(log')
  {
    forall i | 0 <= i < |log'| && log'[i].Answered? ensures HasOrigin(log', log'[i].row, log'[i].response) {
      if i < |log| { assert log'[i] == log[i]; }
      OriginGrows(log, log', log'[i].row, log'[i].response);
    }
  }

  lemma CompletedGrows(s: State, s': State, id: string)
    requires id in s.rows && id in s.born && CompletedOk(s, id) && s.log <= s'.log
    requires id in s'.rows && id in s'.born && s'.rows[id] == s.rows[id] && s'.born[id] == s.born[id]
    ensures CompletedOk(s', id)
  {
    OriginGrows(s.log, s'.log, s.born[id], ExistingResponse(id, s.rows[id]).value.response);
  }

  lemma CalmKeepsConsistent(s: State, s': State)
    requires Rooted(s) && ConsistentInv(s) && KeptInv(s.log) && Calm(s, s')
    ensures ConsistentInv(s')
  {
    forall i, id | 0 <= i < |s'.log| && Keeps(s'.log[i]) && RowBorn(s', id, s'.log[i].row)
      ensures Consistent(s', s'.log[i], id)
    {
      assert s'.log[i] == s.log[i];
      assert RowBorn(s, id, s.log[i].row);
      assert Consistent(s, s.log[i], id);
    }
  }

  lemma CalmKeepsReplay(s: State, s': State)
    requires Rooted(s) && ReplayInv(s) && Calm(s, s')
    ensures ReplayInv(s')
  {
    CalmKeepsConsistent(s, s');
    OriginsGrow(s.log, s'.log);
    forall id | id in s'.rows && id in s'.born && s'.rows[id].status == Completed ensures CompletedOk(s', id) {
      CompletedGrows(s, s', id);
    }
    assert forall i :: 0 <= i < |s'.log| && Keeps(s'.log[i]) ==> i < |s.log| && s'.log[i] == s.log[i];
  }

  lemma OneMoreEntry(log: seq<Event>, e: Event)
    requires SameAnswers(log) && StoredOnce(log)
    requires e.Answered? ==>
               forall i :: 0 <= i < |log| && log[i].Answered? && log[i].row == e.row ==> log[i].response == e.response
    requires e.Stored? ==> forall i :: 0 <= i < |log| && log[i].Stored? ==> log[i].row != e.row
    ensures SameAnswers(log + [e]) && StoredOnce(log + [e])
  {
    assert forall i :: 0 <= i < |log| ==> (log + [e])[i] == log[i];
  }

  lemma AnswerKeepsLog(log: seq<Event>, row: nat, r: Response, at: int)
    requires KeptInv(log) && HasOrigin(log, row, r) && row < |log|
    requires forall i :: 0 <= i < |log| && log[i].Answered? && log[i].row == row ==> log[i].response == r
    ensures KeptInv(log + [Answered(row, r, at)])
  {
    OneMoreEntry(log, Answered(row, r, at));
    OriginsGrow(log, log + [Answered(row, r, at)]);
  }

  /** One more entry for the row of a completed id, which agrees with what the row holds. */
  lemma EntryKeepsConsistent(m: State, id: string, e: Event)
    requires Rooted(m) && ConsistentInv(m) && id in m.rows && Keeps(e) && id in m.born && e.row == m.born[id]
    requires Consistent(m, e, id)
    ensures ConsistentInv(m.(log := m.log + [e]))
  {
    var s' := m.(log := m.log + [e]);
    forall i, x | 0 <= i < |s'.log| && Keeps(s'.log[i]) && RowBorn(s', x, s'.log[i].row)
      ensures Consistent(s', s'.log[i], x)
    {
      if i < |m.log| {
        assert s'.log[i] == m.log[i] && RowBorn(m, x, m.log[i].row) && Consistent(m, m.log[i], x);
      } else {
      }
    }
  }

  lemma AnswersAgree(m: State, id: string, r: Response)
    requires ReplayInv(m) && id in m.rows && id in m.born && m.rows[id].status == Completed
    requires ExistingResponse(id, m.rows[id]) == Some(Answer(r))
    ensures forall i :: 0 <= i < |m.log| && m.log[i].Answered? && m.log[i].row == m.born[id] ==> m.log[i].response == r
  {
    forall i | 0 <= i < |m.log| && m.log[i].Answered? && m.log[i].row == m.born[id] ensures m.log[i].response == r {
      assert RowBorn(m, id, m.log[i].row) && Consistent(m, m.log[i], id);
    }
  }

  /** Reading back a completed row adds the same response as every earlier reading. */
  lemma RecordKeepsReplay(m: State, id: string, reply: Reply, now: Instant)
    requires Rooted(m) && ReplayInv(m)
    requires reply.Answer? ==> id in m.rows && m.rows[id].status == Completed && ExistingResponse(id, m.rows[id]) == Some(reply)
    ensures ReplayInv(Record(m, id, reply, now))
  {
    if reply.Answer? {
      var s' := Record(m, id, reply, now);
      assert CompletedOk(m, id);
      AnswersAgree(m, id, reply.response);
      AnswerKeepsLog(m.log, m.born[id], reply.response, Seconds(now));
      EntryKeepsConsistent(m, id, Answered(m.born[id], reply.response, Seconds(now)));
      forall x | x in m.rows && x in m.born && m.rows[x].status == Completed ensures CompletedOk(s', x) {
        CompletedGrows(m, s', x);
      }
    }
  }

  /** A thread whose worker call returned finds the call and its end in the log. */
  ghost predicate TrailInv(s: State) {
    forall tid :: tid in s.threads ==> Trail(s.log, s.threads[tid].pc)
  }

  ghost predicate Trail(log: seq<Event>, pc: Pc) {
    && (pc.Calling? ==> exists i :: 0 <= i < |log| && IsCall(log[i], pc.row, pc.attempt))
    && (pc.Returned? ==> exists i, j :: 0 <= i < j < |log| && IsCall(log[i], pc.row, pc.attempt) && log[j] == Ended(pc.attempt, pc.outcome))
  }

  predicate IsCall(e: Event, row: nat, attempt: nat) {
    e.Called? && e.row == row && e.attempt == attempt
  }

  lemma TrailGrows(log: seq<Event>, log': seq<Event>, pc: Pc)
    requires Trail(log, pc) && log <= log'
    ensures Trail(log', pc)
  {
    if pc.Calling? {
      var i :| 0 <= i < |log| && IsCall(log[i], pc.row, pc.attempt);
      assert IsCall(log'[i], pc.row, pc.attempt);
    }
    if pc.Returned? {
      var i, j :| 0 <= i < j < |log| && IsCall(log[i], pc.row, pc.attempt) && log[j] == Ended(pc.attempt, pc.outcome);
      assert IsCall(log'[i], pc.row, pc.attempt) && log'[j] == log[j];
    }
  }

  /** Nothing was stored or read back for a row that is in progress. */
  lemma NothingKeptYet(s: State, id: string)
    requires ConsistentInv(s) && id in s.rows && id in s.born && s.rows[id].status == InProgress
    ensures forall k :: 0 <= k < |s.log| && Keeps(s.log[k]) ==> s.log[k].row != s.born[id]
  {
    assert forall k :: 0 <= k < |s.log| && Keeps(s.log[k]) && s.log[k].row == s.born[id] ==> RowBorn(s, id, s.log[k].row);
  }

  lemma StoreKeepsLog(log: seq<Event>, row: nat, a: nat, release: Provenance, at: int)
    requires KeptInv(log) && row < |log| && forall k :: 0 <= k < |log| && Keeps(log[k]) ==> log[k].row != row
    ensures KeptInv(log + [Stored(row, a, release, at)])
  {
    OneMoreEntry(log, Stored(row, a, release, at));
    OriginsGrow(log, log + [Stored(row, a, release, at)]);
  }

  /** Rows of the table after a store: the completed one, and otherwise only what cleanup leaves. */
  ghost predicate StoredTable(s: State, t: Table, id: string) {
    && id in t && id in s.rows && s.rows[id].status == InProgress && t[id].status == Completed && RowOk(id, t[id])
    && forall x :: x in t && x != id ==> x in s.rows && RowOk(x, t[x]) && (t[x] == s.rows[x] || t[x].status == Expired)
  }

  lemma StoreKeepsConsistent(s: State, t: Table, id: string)
    requires Rooted(s) && ConsistentInv(s) && StoredTable(s, t, id)
    ensures ConsistentInv(s.(rows := t))
  {
    var m := s.(rows := t);
    NothingKeptYet(s, id);
    forall k, x | 0 <= k < |m.log| && Keeps(m.log[k]) && RowBorn(m, x, m.log[k].row) ensures Consistent(m, m.log[k], x) {
      assert RowBorn(s, x, s.log[k].row) && Consistent(s, s.log[k], x);
    }
  }

  lemma StoredHasOrigin(log: seq<Event>, row: nat, a: nat, r: Response, at: int)
    requires Trail(log, Returned(a, row, Produced(r.mediaType, r.content)))
    ensures HasOrigin(log + [Stored(row, a, Provenance(r.deployment, r.policyVersion), at)], row, r)
  {
    var log' := log + [Stored(row, a, Provenance(r.deployment, r.policyVersion), at)];
    var i, j :| 0 <= i < j < |log| && IsCall(log[i], row, a) && log[j] == Ended(a, Produced(r.mediaType, r.content));
    assert IsOrigin(log', row, r, a, i, j, |log|);
  }

  /** Storing the result of the one accepted call. */
  lemma StoreKeepsReplay(s: State, t: Table, id: string, a: nat, r: Response, at: int)
    requires Rooted(s) && ReplayInv(s) && StoredTable(s, t, id) && id in s.born
    requires ExistingResponse(id, t[id]) == Some(Answer(r))
    requires Trail(s.log, Returned(a, s.born[id], Produced(r.mediaType, r.content)))
    ensures ReplayInv(s.(rows := t, log := s.log + [Stored(s.born[id], a, Provenance(r.deployment, r.policyVersion), at)]))
  {
    var m := s.(rows := t);
    var e := Stored(s.born[id], a, Provenance(r.deployment, r.policyVersion), at);
    var s' := m.(log := s.log + [e]);
    NothingKeptYet(s, id);
    StoreKeepsLog(s.log, s.born[id], a, Provenance(r.deployment, r.policyVersion), at);
    StoreKeepsConsistent(s, t, id);
    EntryKeepsConsistent(m, id, e);
    StoredHasOrigin(s.log, s.born[id], a, r, at);
    StoreKeepsCompleted(s, s', id);
  }

  lemma StoreKeepsCompleted(s: State, s': State, id: string)
    requires CompletedInv(s) && StoredTable(s, s'.rows, id) && s'.born == s.born && s.log <= s'.log
    requires id in s.born && CompletedOk(s', id)
    ensures CompletedInv(s')
  {
    forall x | x in s'.rows && x in s'.born && s'.rows[x].status == Completed ensures CompletedOk(s', x) {
      if x != id { CompletedGrows(s, s', x); }
    }
  }

  /** A step that only changes the table along the edges, and neither completes nor stores. */
  ghost predicate CalmTable(t: Table, t': Table) {
    Evolves(t, t') && TableOk(t') && forall id :: id in t' && t'[id].status == Completed ==> id in t && t'[id] == t[id]
  }

  lemma CalmCleanup(t: Table, now: Instant, retention: nat)
    requires TableOk(t)
    ensures CalmTable(t, Cleanup(t, now, retention))
  {
    CleanupEvolves(t, now, retention);
  }

  lemma CalmGetOwned(limits: Limits, t: Table, id: string, owner: string, digest: Option<Digest>, now: Instant)
    requires TableOk(t)
    ensures CalmTable(t, GetOwned(limits, t, id, owner, digest, now).0)
  {
    CalmCleanup(t, now, limits.retention);
  }

  lemma CalmAcknowledge(limits: Limits, t: Table, id: string, owner: string, disposition: Disposition, now: Instant)
    requires TableOk(t)
    ensures CalmTable(t, Acknowledge(limits, t, id, owner, disposition, now).0)
  {
    AcknowledgeEvolves(limits, t, id, owner, disposition, now);
    AcknowledgeCompletesNothing(limits, t, id, owner, disposition, now);
  }

  lemma AcknowledgeCompletesNothing(limits: Limits, t: Table, id: string, owner: string, disposition: Disposition, now: Instant)
    ensures var t' := Acknowledge(limits, t, id, owner, disposition, now).0;
            forall x :: x in t' && t'[x].status == Completed ==> x in t && t'[x] == t[x]
  {
    CleanupEvolves(t, now, limits.retention);
  }

  lemma CalmMark(limits: Limits, t: Table, id: string, attempt: nat, now: Instant)
    requires TableOk(t)
    ensures CalmTable(t, MarkInProgress(limits, t, id, attempt, now).0)
  {
    CalmCleanup(t, now, limits.retention);
    MarkInProgressEvolves(limits, t, id, attempt, now);
  }

  lemma CalmFault(t: Table, id: string, attempt: nat, outcome: Outcome, now: Instant)
    requires TableOk(t)
    ensures CalmTable(t, FaultTable(t, id, attempt, outcome, now))
  {
    match outcome
    case Unavailable => ResetEvolves(t, id, attempt, now);
    case Invalid => FailedEvolves(t, id, attempt, RowError("invalid_worker_output", false, None), now);
    case _ => AmbiguousEvolves(t, id, attempt, now);
  }

  lemma CalmComplete(limits: Limits, t: Table, id: string, attempt: nat, output: Output, nonce: nat, now: Instant)
    requires TableOk(t) && Complete(limits, t, id, attempt, output, nonce, now).1 != Ok(true)
    ensures CalmTable(t, Complete(limits, t, id, attempt, output, nonce, now).0)
  {
    CalmCleanup(t, now, limits.retention);
  }

  lemma CalmInitialize(limits: Limits, t: Table, now: Instant)
    requires TableOk(t)
    ensures CalmTable(t, Initialize(limits, t, now))
  {
    var interrupted: Table := map id | id in t :: Interrupt(t[id], now);
    CleanupEvolves(interrupted, now, limits.retention);
    InitializeEvolves(limits, t, now);
  }

  lemma CalmTableIsCalm(s: State, s': State)
    requires Rooted(s) && CalmTable(s.rows, s'.rows) && s'.born == s.born && s.log <= s'.log
    requires forall i :: |s.log| <= i < |s'.log| ==> !Keeps(s'.log[i])
    ensures Calm(s, s')
  {
  }

  /** Reading a row back gives the answer that the row holds. */
  lemma ReadKeepsReplay(s: State, t: Table, tid: nat, pc: Pc, id: string, reply: Reply, now: Instant)
    requires Rooted(s) && ReplayInv(s) && tid in s.threads && CalmTable(s.rows, t)
    requires reply.Answer? ==> id in t && t[id].status == Completed && ExistingResponse(id, t[id]) == Some(reply)
    ensures ReplayInv(Record(Move(s.(rows := t), tid, pc), id, reply, now))
  {
    var m := Move(s.(rows := t), tid, pc);
    CalmTableIsCalm(s, m);
    CalmKeepsReplay(s, m);
    RecordKeepsReplay(m, id, reply, now);
  }

  lemma ReloadKeepsReplay(cfg: Config, s: State, tid: nat, now: Instant)
    requires Rooted(s) && ReplayInv(s) && tid in s.threads && s.threads[tid].pc.Reloading?
    ensures ReplayInv(DoReload(cfg, s, tid, now))
  {
    var th := s.threads[tid];
    CalmGetOwned(cfg.limits, s.rows, th.request.id, th.owner, Some(th.request.digest), now);
    var (t, result) := GetOwned(cfg.limits, s.rows, th.request.id, th.owner, Some(th.request.digest), now);
    var pc, reply := ReloadCases(cfg, s, tid, now);
    if result.Ok? {
      ReadKeepsReplay(s, t, tid, pc, th.request.id, reply, now);
    } else {
      MovesKeepReplay(s, s.rows, tid, pc);
    }
  }

  /** What reading the row back leads to. */
  ghost predicate ReadsBack(cfg: Config, s: State, s': State, tid: nat, now: Instant, pc: Pc, reply: Reply)
    requires tid in s.threads
  {
    var th := s.threads[tid];
    var (t, result) := GetOwned(cfg.limits, s.rows, th.request.id, th.owner, Some(th.request.digest), now);
    if result.Err? then s' == Move(s.(rows := s.rows), tid, pc)
    else
      && s' == Record(Move(s.(rows := t), tid, pc), th.request.id, reply, now)
      && (reply.Answer? ==>
            th.request.id in t && t[th.request.id].status == Completed && ExistingResponse(th.request.id, t[th.request.id]) == Some(reply))
  }

  lemma ReloadCases(cfg: Config, s: State, tid: nat, now: Instant) returns (pc: Pc, reply: Reply)
    requires tid in s.threads && s.threads[tid].pc.Reloading?
    ensures pc.Finished? && ReadsBack(cfg, s, DoReload(cfg, s, tid, now), tid, now, pc, reply)
  {
    pc := DoReload(cfg, s, tid, now).threads[tid].pc;
    reply := pc.reply;
  }

  lemma CollectCases(cfg: Config, s: State, tid: nat, now: Instant) returns (pc: Pc, reply: Reply)
    requires tid in s.threads && s.threads[tid].pc.Collecting?
    ensures (pc.Recovering? || pc.Releasing?) && ReadsBack(cfg, s, DoCollect(cfg, s, tid, now), tid, now, pc, reply)
  {
    pc := DoCollect(cfg, s, tid, now).threads[tid].pc;
    reply := if pc.Releasing? then pc.reply else TooLate;
  }

  lemma CollectKeepsReplay(cfg: Config, s: State, tid: nat, now: Instant)
    requires Rooted(s) && ReplayInv(s) && tid in s.threads && s.threads[tid].pc.Collecting?
    ensures ReplayInv(DoCollect(cfg, s, tid, now))
  {
    var th := s.threads[tid];
    CalmGetOwned(cfg.limits, s.rows, th.request.id, th.owner, Some(th.request.digest), now);
    var (t, result) := GetOwned(cfg.limits, s.rows, th.request.id, th.owner, Some(th.request.digest), now);
    var pc, reply := CollectCases(cfg, s, tid, now);
    if result.Ok? {
      ReadKeepsReplay(s, t, tid, pc, th.request.id, reply, now);
    } else {
      MovesKeepReplay(s, s.rows, tid, pc);
    }
  }

  lemma InsertIsCalm(cfg: Config, s: State, tid: nat, owner: string, request: Request, now: Instant)
    requires Rooted(s) && TableOk(s.rows) && request.id !in Cleanup(s.rows, now, cfg.limits.retention)
    ensures var m := Insertion(s, Cleanup(s.rows, now, cfg.limits.retention), tid, owner, request, now);
            Calm(s, m) && Rooted(m)
  {
    var c := Cleanup(s.rows, now, cfg.limits.retention);
    var m := Insertion(s, c, tid, owner, request, now);
    CalmCleanup(s.rows, now, cfg.limits.retention);
    InsertMoves(s, c, tid, owner, request, now);
    InsertKeepsRoots(s, c, tid, owner, request, now);
    assert forall i :: |s.log| <= i < |m.log| ==> m.log[i].Inserted?;
  }

  lemma InsertMoves(s: State, c: Table, tid: nat, owner: string, request: Request, now: Instant)
    requires s.rows.Keys <= s.born.Keys && CalmTable(s.rows, c) && request.id !in c
    ensures var m := Insertion(s, c, tid, owner, request, now);
            RowsMove(s, m) && TableOk(m.rows)
  {
  }

  lemma InsertKeepsRoots(s: State, c: Table, tid: nat, owner: string, request: Request, now: Instant)
    requires Rooted(s) && c.Keys <= s.rows.Keys
    ensures Rooted(Insertion(s, c, tid, owner, request, now))
  {
  }

  lemma ProceedKeepsReplay(cfg: Config, m: State, tid: nat, id: string, row: Row, now: Instant)
    requires Rooted(m) && ReplayInv(m) && tid in m.threads && id in m.rows && m.rows[id] == row
    ensures ReplayInv(Proceed(cfg, m, tid, id, row, now))
  {
    var s' := Proceed(cfg, m, tid, id, row, now);
    var existing := ExistingResponse(id, row);
    if existing.Some? {
      var moved := Move(m, tid, Finished(existing.value));
      CalmTableIsCalm(m, moved);
      CalmKeepsReplay(m, moved);
      RecordKeepsReplay(moved, id, existing.value, now);
    } else {
      CalmTableIsCalm(m, s');
      CalmKeepsReplay(m, s');
    }
  }

  lemma SubmitKeepsReplay(cfg: Config, s: State, tid: nat, owner: string, request: Request, now: Instant)
    requires Rooted(s) && ReplayInv(s) && tid !in s.threads
    ensures ReplayInv(DoSubmit(cfg, s, tid, owner, request, now))
  {
    var s' := DoSubmit(cfg, s, tid, owner, request, now);
    var c := Cleanup(s.rows, now, cfg.limits.retention);
    SubmitCases(cfg, s, tid, owner, request, now);
    if TurnedAway(s, s', tid, owner, request) {
      CalmTableIsCalm(s, s');
      CalmKeepsReplay(s, s');
    } else if request.id in c {
      var m := Arrival(s, c, tid, owner, request);
      CalmCleanup(s.rows, now, cfg.limits.retention);
      CalmTableIsCalm(s, m);
      CalmKeepsReplay(s, m);
      ProceedKeepsReplay(cfg, m, tid, request.id, c[request.id], now);
    } else {
      var m := Insertion(s, c, tid, owner, request, now);
      InsertIsCalm(cfg, s, tid, owner, request, now);
      CalmKeepsReplay(s, m);
      ProceedKeepsReplay(cfg, m, tid, request.id, FreshRow(request, owner, now), now);
    }
  }

  lemma CompletedReads(row: Row, id: string, output: Output, nonce: nat, now: Instant)
    ensures var done := CompletedRow(row, id, output, nonce, now);
            ExistingResponse(id, done)
            == Some(Answer(Response(id, output.mediaType, output.content, output.policyVersion, output.deployment)))
  {
  }

  lemma CompleteStores(limits: Limits, t: Table, id: string, a: nat, output: Output, nonce: nat, now: Instant, s: State)
    requires TableOk(t) && s.rows == t && Complete(limits, t, id, a, output, nonce, now).1 == Ok(true)
    ensures var t' := Complete(limits, t, id, a, output, nonce, now).0;
            && StoredTable(s, t', id) && OwnedBy(t, id, a)
            && ExistingResponse(id, t'[id])
               == Some(Answer(Response(id, output.mediaType, output.content, output.policyVersion, output.deployment)))
  {
    CleanupEvolves(t, now, limits.retention);
    CompletedReads(Cleanup(t, now, limits.retention)[id], id, output, nonce, now);
  }

  lemma StoredKeepsReplay(cfg: Config, s: State, tid: nat, nonce: nat, now: Instant, output: Output)
    requires LaneInv(s) && HoldInv(s) && Rooted(s) && ReplayInv(s) && TrailInv(s) && tid in s.threads && s.threads[tid].pc.Returned?
    requires s.threads[tid].pc.outcome == Produced(output.mediaType, output.content)
    requires s.release == Provenance(output.deployment, output.policyVersion)
    requires Complete(cfg.limits, s.rows, s.threads[tid].request.id, s.threads[tid].pc.attempt, output, nonce, now).1 == Ok(true)
    ensures var th := s.threads[tid];
            var t := Complete(cfg.limits, s.rows, th.request.id, th.pc.attempt, output, nonce, now).0;
            ReplayInv(s.(rows := t, log := s.log + [Stored(th.pc.row, th.pc.attempt, s.release, Seconds(now))]))
  {
    var th := s.threads[tid];
    var id, a := th.request.id, th.pc.attempt;
    CompleteStores(cfg.limits, s.rows, id, a, output, nonce, now, s);
    assert Held(s, id) && Trail(s.log, th.pc);
    var t := Complete(cfg.limits, s.rows, id, a, output, nonce, now).0;
    StoreKeepsReplay(s, t, id, a, Response(id, output.mediaType, output.content, output.policyVersion, output.deployment), Seconds(now));
  }

  lemma SettleKeepsReplay(cfg: Config, s: State, tid: nat, nonce: nat, now: Instant)
    requires LaneInv(s) && HoldInv(s) && Rooted(s) && ReplayInv(s) && TrailInv(s) && tid in s.threads && s.threads[tid].pc.Returned?
    ensures ReplayInv(DoSettle(cfg, s, tid, nonce, now))
  {
    var th := s.threads[tid];
    var id, a := th.request.id, th.pc.attempt;
    if !th.pc.outcome.Produced? {
      CalmFault(s.rows, id, a, th.pc.outcome, now);
      MovesKeepReplay(s, FaultTable(s.rows, id, a, th.pc.outcome, now), tid, Releasing(a, FaultReply(cfg, th.pc.outcome)));
    } else {
      var output := Output(th.pc.outcome.mediaType, th.pc.outcome.content, s.release.deployment, s.release.policyVersion);
      var (t, result) := Complete(cfg.limits, s.rows, id, a, output, nonce, now);
      if result == Ok(true) {
        StoredKeepsReplay(cfg, s, tid, nonce, now, output);
        var m := s.(rows := t, log := s.log + [Stored(th.pc.row, a, s.release, Seconds(now))]);
        ReplayIgnoresThreads(m, Move(m, tid, Collecting(a, th.pc.row)));
      } else {
        CalmComplete(cfg.limits, s.rows, id, a, output, nonce, now);
        MovesKeepReplay(s, t, tid, if result.Err? then Recovering(a) else Releasing(a, TooLate));
      }
    }
  }

  lemma MovesKeepReplay(s: State, t: Table, tid: nat, pc: Pc)
    requires Rooted(s) && ReplayInv(s) && tid in s.threads && CalmTable(s.rows, t)
    ensures ReplayInv(Move(s.(rows := t), tid, pc))
  {
    CalmTableIsCalm(s, Move(s.(rows := t), tid, pc));
    CalmKeepsReplay(s, Move(s.(rows := t), tid, pc));
  }

  lemma ReplayIgnoresThreads(s: State, s': State)
    requires ReplayInv(s) && s'.rows == s.rows && s'.born == s.born && s'.log == s.log
    ensures ReplayInv(s')
  {
    forall id | id in s'.rows && id in s'.born && s'.rows[id].status == Completed ensures CompletedOk(s', id) {
      assert CompletedOk(s, id);
    }
    forall i, id | 0 <= i < |s'.log| && Keeps(s'.log[i]) && RowBorn(s', id, s'.log[i].row)
      ensures Consistent(s', s'.log[i], id)
    {
      assert RowBorn(s, id, s.log[i].row) && Consistent(s, s.log[i], id);
    }
  }

  /** Steps that neither read a result back nor store one. */
  ghost predicate CalmStep(s: State, s': State) {
    CalmTable(s.rows, s'.rows) && s'.born == s.born && s.log <= s'.log
    && forall i :: |s.log| <= i < |s'.log| ==> !Keeps(s'.log[i])
  }

  lemma OwnerIsCalm(cfg: Config, s: State, tid: nat, now: Instant)
    requires TableOk(s.rows)
    ensures CalmStep(s, DoPrepare(cfg, s, tid, now))
    ensures CalmStep(s, DoDispatch(cfg, s, tid, now))
  {
    if tid in s.threads && s.threads[tid].pc.Preparing? { PrepareIsCalm(cfg, s, tid, now); }
    if tid in s.threads && s.threads[tid].pc.Marked? { WithdrawIsCalm(cfg, s, tid, s.threads[tid].pc.attempt, now); }
  }

  lemma OthersAreCalm(cfg: Config, s: State, step: Step)
    requires TableOk(s.rows)
    requires step.Recover? || step.Maintain? || step.Ack? || step.Restart? || step.Return?
    ensures CalmStep(s, Next(cfg, s, step))
  {
    match step
    case Recover(tid, now) =>
      if tid in s.threads && s.threads[tid].pc.Recovering? {
        CalmFault(s.rows, s.threads[tid].request.id, s.threads[tid].pc.attempt, OtherFault, now);
      }
    case Maintain(now) => CalmCleanup(s.rows, now, cfg.limits.retention);
    case Ack(owner, id, disposition, now) => CalmAcknowledge(cfg.limits, s.rows, id, owner, disposition, now);
    case Restart(_, now) => CalmInitialize(cfg.limits, s.rows, now);
    case Return(_, _) =>
  }

  lemma WithdrawIsCalm(cfg: Config, s: State, tid: nat, attempt: nat, now: Instant)
    requires TableOk(s.rows) && tid in s.threads
    ensures var s' := Withdraw(cfg, s, tid, attempt, now);
            CalmTable(s.rows, s'.rows) && s'.born == s.born && s'.log == s.log
  {
    var th := s.threads[tid];
    CalmGetOwned(cfg.limits, s.rows, th.request.id, th.owner, Some(th.request.digest), now);
  }

  lemma PrepareIsCalm(cfg: Config, s: State, tid: nat, now: Instant)
    requires TableOk(s.rows) && tid in s.threads && s.threads[tid].pc.Preparing?
    ensures var s' := DoPrepare(cfg, s, tid, now);
            CalmTable(s.rows, s'.rows) && s'.born == s.born && s'.log == s.log
  {
    var th := s.threads[tid];
    WithdrawIsCalm(cfg, s, tid, th.pc.attempt, now);
    CalmMark(cfg.limits, s.rows, th.request.id, th.pc.attempt, now);
  }

  /** Only the given thread changes, it neither calls nor returns from a call, and it wakes only from an
      attempt that has finished. */
  ghost predicate OthersStay(s: State, s': State, tid: nat) {
    && s.log <= s'.log
    && s.finished <= s'.finished
    && s.threads.Keys <= s'.threads.Keys
    && (forall a :: a in s'.issued && a !in s.issued ==> tid in s'.threads && s'.threads[tid].pc == Preparing(a))
    && (forall t :: t in s'.threads && t != tid ==> t in s.threads && s'.threads[t] == s.threads[t])
    && (tid in s'.threads ==> (tid in s.threads && s'.threads[tid] == s.threads[tid])
                              || (!s'.threads[tid].pc.Calling? && !s'.threads[tid].pc.Returned? && Woken(s', s'.threads[tid].pc)))
  }

  predicate Woken(s: State, pc: Pc) {
    pc.Reloading? && pc.woken.Some? ==> pc.woken.value in s.finished
  }

  lemma StayKeepsTrail(s: State, s': State, tid: nat)
    requires TrailInv(s) && OthersStay(s, s', tid)
    ensures TrailInv(s')
  {
    forall t | t in s'.threads ensures Trail(s'.log, s'.threads[t].pc) {
      if t in s.threads { TrailGrows(s.log, s'.log, s.threads[t].pc); }
    }
  }

  lemma CallKeepsTrail(cfg: Config, s: State, tid: nat, outcome: Outcome, now: Instant)
    requires TrailInv(s)
    ensures TrailInv(DoDispatch(cfg, s, tid, now))
    ensures TrailInv(DoReturn(s, tid, outcome))
  {
    if tid in s.threads && s.threads[tid].pc.Marked? {
      var th := s.threads[tid];
      var s' := DoDispatch(cfg, s, tid, now);
      if s'.threads[tid].pc.Calling? {
        assert IsCall(s'.log[|s.log|], th.pc.row, th.pc.attempt);
      }
      forall t | t in s'.threads && t != tid ensures Trail(s'.log, s'.threads[t].pc) {
        TrailGrows(s.log, s'.log, s.threads[t].pc);
      }
    }
    if tid in s.threads && s.threads[tid].pc.Calling? {
      var pc := s.threads[tid].pc;
      var s' := DoReturn(s, tid, outcome);
      var i :| 0 <= i < |s.log| && IsCall(s.log[i], pc.row, pc.attempt);
      assert IsCall(s'.log[i], pc.row, pc.attempt) && s'.log[|s.log|] == Ended(pc.attempt, outcome);
      forall t | t in s'.threads && t != tid ensures Trail(s'.log, s'.threads[t].pc) {
        TrailGrows(s.log, s'.log, s.threads[t].pc);
      }
    }
  }

  lemma ClaimStays(cfg: Config, s: State, tid: nat, attempt: nat)
    ensures OthersStay(s, DoClaim(cfg, s, tid, attempt), tid)
  {
  }

  /** One thread moves on, and nothing of the others changes. */
  lemma MovesOnStays(s: State, s': State, tid: nat, pc: Pc)
    requires tid in s.threads && s'.threads == s.threads[tid := s.threads[tid].(pc := pc)]
    requires s.log <= s'.log && s'.finished == s.finished && s'.issued == s.issued
    requires !pc.Calling? && !pc.Returned? && Woken(s, pc)
    ensures OthersStay(s, s', tid)
  {
  }

  lemma WaitStepsStay(cfg: Config, s: State, tid: nat)
    ensures OthersStay(s, DoJoin(s, tid), tid)
    ensures OthersStay(s, DoWake(s, tid), tid) && OthersStay(s, DoGiveUp(cfg, s, tid), tid)
  {
    if tid in s.threads && DoJoin(s, tid) != s { MovesOnStays(s, DoJoin(s, tid), tid, DoJoin(s, tid).threads[tid].pc); }
    if tid in s.threads && DoWake(s, tid) != s { MovesOnStays(s, DoWake(s, tid), tid, DoWake(s, tid).threads[tid].pc); }
  }

  lemma ReleaseStays(s: State, tid: nat)
    ensures OthersStay(s, DoRelease(s, tid), tid)
  {
  }

  lemma ReadStepsStay(cfg: Config, s: State, tid: nat, now: Instant)
    ensures OthersStay(s, DoReload(cfg, s, tid, now), tid)
    ensures OthersStay(s, DoCollect(cfg, s, tid, now), tid)
  {
    if tid in s.threads && s.threads[tid].pc.Reloading? {
      var pc, reply := ReloadCases(cfg, s, tid, now);
      MovesOnStays(s, DoReload(cfg, s, tid, now), tid, pc);
    }
    if tid in s.threads && s.threads[tid].pc.Collecting? {
      var pc, reply := CollectCases(cfg, s, tid, now);
      MovesOnStays(s, DoCollect(cfg, s, tid, now), tid, pc);
    }
  }

  lemma RecoverStays(cfg: Config, s: State, tid: nat, now: Instant)
    ensures OthersStay(s, DoRecover(cfg, s, tid, now), tid)
  {
    if tid in s.threads && s.threads[tid].pc.Recovering? {
      MovesOnStays(s, DoRecover(cfg, s, tid, now), tid, Releasing(s.threads[tid].pc.attempt, TimedOut(cfg)));
    }
  }

  lemma PrepareStays(cfg: Config, s: State, tid: nat, now: Instant)
    ensures OthersStay(s, DoPrepare(cfg, s, tid, now), tid)
  {
    if tid in s.threads && s.threads[tid].pc.Preparing? {
      MovesOnStays(s, DoPrepare(cfg, s, tid, now), tid, DoPrepare(cfg, s, tid, now).threads[tid].pc);
    }
  }

  lemma SettleStays(cfg: Config, s: State, tid: nat, nonce: nat, now: Instant)
    ensures OthersStay(s, DoSettle(cfg, s, tid, nonce, now), tid)
  {
  }

  lemma LandsStays(s: State, s': State, c: Table, tid: nat)
    requires tid !in s.threads && Lands(s, s', c, tid)
    ensures OthersStay(s, s', tid)
  {
  }

  lemma SubmitStays(cfg: Config, s: State, tid: nat, owner: string, request: Request, now: Instant)
    ensures OthersStay(s, DoSubmit(cfg, s, tid, owner, request, now), tid)
  {
    if tid !in s.threads {
      SubmitLands(cfg, s, tid, owner, request, now);
      LandsStays(s, DoSubmit(cfg, s, tid, owner, request, now), Cleanup(s.rows, now, cfg.limits.retention), tid);
    }
  }

  lemma NextStays(cfg: Config, s: State, step: Step)
    requires !step.Dispatch? && !step.Return? && !step.Maintain? && !step.Ack? && !step.Restart?
    ensures OthersStay(s, Next(cfg, s, step), step.tid)
  {
    match step
    case Submit(tid, owner, request, now) => SubmitStays(cfg, s, tid, owner, request, now);
    case Settle(tid, nonce, now) => SettleStays(cfg, s, tid, nonce, now);
    case Claim(tid, attempt) => ClaimStays(cfg, s, tid, attempt);
    case Reload(tid, now) => ReadStepsStay(cfg, s, tid, now);
    case Collect(tid, now) => ReadStepsStay(cfg, s, tid, now);
    case Recover(tid, now) => RecoverStays(cfg, s, tid, now);
    case Prepare(tid, now) => PrepareStays(cfg, s, tid, now);
    case Join(tid) => WaitStepsStay(cfg, s, tid);
    case Wake(tid) => WaitStepsStay(cfg, s, tid);
    case GiveUp(tid) => WaitStepsStay(cfg, s, tid);
    case Release(tid) => ReleaseStays(s, tid);
  }

  lemma NextKeepsTrail(cfg: Config, s: State, step: Step)
    requires TrailInv(s)
    ensures TrailInv(Next(cfg, s, step))
  {
    match step
    case Dispatch(tid, now) => CallKeepsTrail(cfg, s, tid, Unknown, now);
    case Return(tid, outcome) => CallKeepsTrail(cfg, s, tid, outcome, 0);
    case Maintain(_) =>
    case Ack(_, _, _, _) =>
    case Restart(_, _) =>
    case _ => NextStays(cfg, s, step); StayKeepsTrail(s, Next(cfg, s, step), step.tid);
  }

  lemma QuietStepsKeepReplay(cfg: Config, s: State, step: Step)
    requires ReplayInv(s) && (step.Claim? || step.Join? || step.Wake? || step.GiveUp? || step.Release?)
    ensures ReplayInv(Next(cfg, s, step))
  {
    ReplayIgnoresThreads(s, Next(cfg, s, step));
  }

  lemma NextKeepsReplay(cfg: Config, s: State, step: Step)
    requires Inv(s) && ReplayInv(s) && TrailInv(s)
    ensures ReplayInv(Next(cfg, s, step))
  {
    match step
    case Submit(tid, owner, request, now) => if tid !in s.threads { SubmitKeepsReplay(cfg, s, tid, owner, request, now); }
    case Reload(tid, now) => if tid in s.threads && s.threads[tid].pc.Reloading? { ReloadKeepsReplay(cfg, s, tid, now); }
    case Collect(tid, now) => if tid in s.threads && s.threads[tid].pc.Collecting? { CollectKeepsReplay(cfg, s, tid, now); }
    case Settle(tid, nonce, now) => if tid in s.threads && s.threads[tid].pc.Returned? { SettleKeepsReplay(cfg, s, tid, nonce, now); }
    case Prepare(tid, now) => OwnerIsCalm(cfg, s, tid, now); CalmStepKeepsReplay(s, DoPrepare(cfg, s, tid, now));
    case Dispatch(tid, now) => OwnerIsCalm(cfg, s, tid, now); CalmStepKeepsReplay(s, DoDispatch(cfg, s, tid, now));
    case Claim(_, _) => QuietStepsKeepReplay(cfg, s, step);
    case Join(_) => QuietStepsKeepReplay(cfg, s, step);
    case Wake(_) => QuietStepsKeepReplay(cfg, s, step);
    case GiveUp(_) => QuietStepsKeepReplay(cfg, s, step);
    case Release(_) => QuietStepsKeepReplay(cfg, s, step);
    case _ => OthersAreCalm(cfg, s, step); CalmStepKeepsReplay(s, Next(cfg, s, step));
  }

  lemma CalmStepKeepsReplay(s: State, s': State)
    requires Rooted(s) && ReplayInv(s) && CalmStep(s, s')
    ensures ReplayInv(s')
  {
    CalmTableIsCalm(s, s');
    CalmKeepsReplay(s, s');
  }

  lemma {:induction false} RunKeepsReplay(cfg: Config, steps: seq<Step>)
    ensures ReplayInv(Run(cfg, steps)) && TrailInv(Run(cfg, steps))
  {
    if steps != [] {
      var init := steps[..|steps| - 1];
      RunKeepsReplay(cfg, init);
      RunKeepsInv(cfg, init);
      NextKeepsReplay(cfg, Run(cfg, init), steps[|steps| - 1]);
      NextKeepsTrail(cfg, Run(cfg, init), steps[|steps| - 1]);
    }
  }

  /** In every run: all completed responses returned for one row are equal, each is what one accepted
      call of the worker for that row produced, with the deployment that stored it, and no row is
      stored twice. */
  lemma ReplaysAreStable(cfg: Config, steps: seq<Step>)
    ensures var log := Run(cfg, steps).log; SameAnswers(log) && OriginInv(log) && StoredOnce(log)
  {
    RunKeepsReplay(cfg, steps);
  }

  /** In every run a completed row of a caller is read back successfully: the ciphertext always opens. */
  lemma CompletedRowsOpen(cfg: Config, steps: seq<Step>, id: string)
    requires id in Run(cfg, steps).rows && Run(cfg, steps).rows[id].status == Completed
    ensures ExistingResponse(id, Run(cfg, steps).rows[id]).Some? && ExistingResponse(id, Run(cfg, steps).rows[id]).value.Answer?
  {
    RunKeepsReplay(cfg, steps);
    RunKeepsInv(cfg, steps);
    assert CompletedOk(Run(cfg, steps), id);
  }
}
