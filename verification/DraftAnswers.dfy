/** What a worker is told, and why: every answer of the draft protocol against the rows it meets, and the texts that
    go through it. */
module DraftAnswers {
  import Text
  import opened Wrappers
  import opened Ledger
  import opened DraftProtocol
  import opened DraftInvariant
  import opened DraftTheorems

  predicate AtRow(s: State, w: nat) {
    w in s.workers && KeyOf(s.workers[w].req) in s.db.ledger
  }

  function RowOf(s: State, w: nat): Row
    requires AtRow(s, w)
  {
    s.db.ledger[KeyOf(s.workers[w].req)]
  }

  /** What is known of a worker and its row in every reachable state. */
  predicate Known(s: State, w: nat) {
    AtRow(s, w) && RowKnown(s.db, KeyOf(s.workers[w].req)) && WorkerOk(s.db, w, s.workers[w])
  }

  lemma {:induction false} ReachableIsKnown(secs: nat, events: seq<Event>, w: nat)
    requires AtRow(Run(secs, events), w)
    ensures Known(Run(secs, events), w)
  {
    var s := Run(secs, events);
    ReachableInv(secs, events);
    assert RowOk(s.db, RowOf(s, w)) && Homed(s.db, KeyOf(s.workers[w].req));
  }

  /** A worker with a draft has a row. */
  lemma {:induction false} DraftHasRow(secs: nat, events: seq<Event>, w: nat)
    requires w in Run(secs, events).workers && Run(secs, events).workers[w].draft.Some?
    ensures AtRow(Run(secs, events), w)
  {
    ReachableInv(secs, events);
    assert WorkerOk(Run(secs, events).db, w, Run(secs, events).workers[w]);
  }

  /** The worker goes there and nothing is written. */
  predicate Goes(s: State, s': State, w: nat, pc: Pc) {
    s'.db == s.db && w in s.workers && w in s'.workers && s'.workers[w] == s.workers[w].(pc := pc)
  }

  predicate Answers(s: State, s': State, w: nat, a: Answer) {
    Goes(s, s', w, Done(a))
  }

  // ----- up to the lease

  /** A request that meets a row, at first sight or as the loser of the insert: another digest is a conflict, a
      completed row is replayed, a failed one refused, and any other is waited for or taken over. */
  lemma MeetsRow(s: State, w: nat, clock: int, reply: Reply)
    requires Known(s, w) && (s.workers[w].pc.Find? || s.workers[w].pc.Recover?)
    ensures var s' := Apply(s, Step(w, clock, reply));
      var row := RowOf(s, w);
      if row.digest != DigestOf(s.workers[w].req) then Answers(s, s', w, KeyReused)
      else if row.status.Completed? then
        row.outcome.response.Some? && Answers(s, s', w, Replayed(row.outcome.response.value))
      else if row.status.Failed? then Answers(s, s', w, Unavailable)
      else s'.db == s.db && w in s'.workers && s'.workers[w] == s.workers[w].(pc := Acquire, draft := Some(row.draft))
  {
  }

  /** A request under a new key is refused if its upstream request cannot be built, and otherwise inserted. */
  lemma MeetsNothing(s: State, w: nat, clock: int, reply: Reply)
    requires w in s.workers && !AtRow(s, w) && s.workers[w].pc.Find?
    ensures var s' := Apply(s, Step(w, clock, reply));
      if s.workers[w].req.acceptable then Goes(s, s', w, Insert) else Answers(s, s', w, Unprocessable)
  {
  }

  /** The insert: one fresh draft and one row that nobody has leased; or, if the key was taken, nothing. */
  lemma Inserts(s: State, w: nat, clock: int, reply: Reply)
    requires w in s.workers && s.workers[w].pc.Insert?
    ensures var s' := Apply(s, Step(w, clock, reply));
      var k := s.workers[w];
      var d := s.db.nextDraft;
      if AtRow(s, w) then Goes(s, s', w, Recover)
      else
        && AtRow(s', w) && s'.workers[w] == k.(pc := Acquire, draft := Some(d))
        && s'.db.ledger == s.db.ledger[KeyOf(k.req) := RowOf(s', w)]
        && var row := RowOf(s', w);
        && row.tenant == k.req.tenant && row.digest == DigestOf(k.req) && row.draft == d && row.attempts == 0
        && row.status.Contextualized? && row.owner.None? && row.leaseExpires.None? && row.outcome.response.None?
        && d in s'.db.drafts && s'.db.drafts == s.db.drafts[d := s'.db.drafts[d]] && s'.db.versions == s.db.versions
        && s'.db.drafts[d].tenant == k.req.tenant && s'.db.drafts[d].project == k.req.project
        && s'.db.drafts[d].currentVersion == 0
  {
  }

  /** A lease is granted exactly on an unsettled row that nobody holds, or whose lease is over at the reading. */
  lemma Acquires(s: State, w: nat, clock: int, reply: Reply)
    requires Known(s, w) && s.workers[w].pc.Acquire? && RowFree(s, KeyOf(s.workers[w].req))
    ensures var s' := Apply(s, Step(w, clock, reply));
      var row := RowOf(s, w);
      var granted := !row.Settled() && (row.owner.None? || row.leaseExpires.value <= clock);
      && w in s'.workers && s'.workers[w].pc == Reread(clock, granted) && s'.workers[w].token == Some(|s.db.drawn|)
      && s'.db.drawn == s.db.drawn + [w] && s'.db.drafts == s.db.drafts && s'.db.versions == s.db.versions
      && s'.db.ledger == if granted
        then s.db.ledger[KeyOf(s.workers[w].req) :=
               row.(status := Calling, owner := Some(|s.db.drawn|), leaseExpires := Some(clock + s.leaseSeconds),
                    attempts := row.attempts + 1)]
        else s.db.ledger
  {
  }

  /** The row read back: the owner goes on; anyone else replays, is refused, or is told who has the row. */
  lemma Rereads(s: State, w: nat, clock: int, reply: Reply)
    requires Known(s, w) && s.workers[w].pc.Reread?
    ensures var s' := Apply(s, Step(w, clock, reply));
      var pc, row := s.workers[w].pc, RowOf(s, w);
      if pc.won && row.owner == s.workers[w].token then Goes(s, s', w, Mark)
      else if row.status.Completed? then
        row.outcome.response.Some? && Answers(s, s', w, Replayed(row.outcome.response.value))
      else if row.status.Failed? then Answers(s, s', w, Unavailable)
      else if row.status.Calling? && row.leaseExpires.value > pc.now then Answers(s, s', w, StillRunning)
      else Answers(s, s', w, ClaimLost)
  {
  }

  // ----- the owner

  lemma Calls(s: State, w: nat, clock: int, reply: Reply)
    requires Known(s, w) && s.workers[w].pc.Call?
    ensures var s' := Apply(s, Step(w, clock, reply));
      Goes(s, s', w, if reply.Drafted? then Flush(reply) else Fail(reply.code))
  {
  }

  /** A settling UPDATE matches exactly a calling row with the worker's token and a lease that is not over at the
      reading; otherwise the worker has lost the row. */
  lemma Settling(s: State, w: nat, clock: int, reply: Reply)
    requires Known(s, w) && RowFree(s, KeyOf(s.workers[w].req))
    requires s.workers[w].pc.Finalize? || (s.workers[w].pc.Fail? && DraftFree(s, RowOf(s, w).draft))
    ensures var s' := Apply(s, Step(w, clock, reply));
      var pc, row := s.workers[w].pc, RowOf(s, w);
      if row.status.Calling? && row.owner == s.workers[w].token && clock < row.leaseExpires.value
      then Goes(s, s', w, if pc.Finalize? then CommitDone(pc.reply, clock) else CommitFailed(pc.code, clock))
      else Answers(s, s', w, OwnershipGone)
  {
  }

  /** The completing commit: the answer is made of the reply and the request, and is what the row keeps. */
  lemma Completes(s: State, w: nat, clock: int, reply: Reply)
    requires Known(s, w) && s.workers[w].pc.CommitDone?
    ensures s.workers[w].pc.reply.Drafted?
    ensures var s' := Apply(s, Step(w, clock, reply));
      var k, row := s.workers[w], RowOf(s, w);
      var heard := k.pc.reply;
      var answer := Response(row.draft, heard.content, k.req.requestId, k.correlation, heard.retries);
      && w in s'.workers && s'.workers[w] == k.(pc := Done(Created(answer)))
      && s'.db.ledger == s.db.ledger[KeyOf(k.req) :=
           row.(status := Completed, owner := None, leaseExpires := None,
                outcome := Outcome(Some(heard.upstream), Some(answer), Some(heard.latency), heard.retries, None,
                                   Some(k.pc.dbNow)))]
      && s'.db.versions == s.db.versions[Slot(row.draft, 1) := Version(heard.content, Agent(w))]
      && row.draft in s.db.drafts
      && s'.db.drafts == s.db.drafts[row.draft :=
           s.db.drafts[row.draft].(currentVersion := 1, status := "criticized")]
  {
  }

  /** The failing commit keeps the other outcome columns and writes no version. */
  lemma Fails(s: State, w: nat, clock: int, reply: Reply)
    requires Known(s, w) && s.workers[w].pc.CommitFailed?
    ensures var s' := Apply(s, Step(w, clock, reply));
      var k, row := s.workers[w], RowOf(s, w);
      && w in s'.workers && s'.workers[w] == k.(pc := Done(Unavailable))
      && s'.db.ledger == s.db.ledger[KeyOf(k.req) :=
           row.(status := Failed, owner := None, leaseExpires := None,
                outcome := row.outcome.(errorCode := Some(k.pc.code), completedAt := Some(k.pc.dbNow)))]
      && s'.db.versions == s.db.versions && row.draft in s.db.drafts
      && s'.db.drafts == s.db.drafts[row.draft := s.db.drafts[row.draft].(status := "failed")]
  {
  }

  // ----- replays

  /** The worker will meet the row of its key with its next step. */
  predicate Meets(pc: Pc) {
    pc.Find? || pc.Recover? || (pc.Reread? && !pc.won)
  }

  lemma MeetsCompleted(s: State, w: nat, clock: int, reply: Reply)
    requires Known(s, w) && Meets(s.workers[w].pc)
    requires RowOf(s, w).status.Completed? && RowOf(s, w).digest == DigestOf(s.workers[w].req)
    ensures RowOf(s, w).outcome.response.Some?
    ensures Answers(s, Apply(s, Step(w, clock, reply)), w, Replayed(RowOf(s, w).outcome.response.value))
  {
    if s.workers[w].pc.Reread? {
      Rereads(s, w, clock, reply);
    } else {
      MeetsRow(s, w, clock, reply);
    }
  }

  /** Once one worker has answered with a new draft, every other worker with an equal request is given that very
      answer as a replay with its next step, in every later state. */
  lemma {:induction false} ReplayIsGiven(secs: nat, events: seq<Event>, more: seq<Event>, a: nat, b: nat, r: Response,
                                         clock: int, reply: Reply)
    requires var s := Run(secs, events); a in s.workers && s.workers[a].pc == Done(Created(r))
    requires var s := Run(secs, events + more);
      && b in s.workers && Meets(s.workers[b].pc)
      && Alike(s.workers[b].req, Run(secs, events).workers[a].req)
    ensures Answers(Run(secs, events + more), Run(secs, events + more + [Step(b, clock, reply)]), b, Replayed(r))
  {
    CreatedIsCompleted(secs, events, a, r);
    var key := KeyOf(Run(secs, events).workers[a].req);
    SettledForever(secs, events, more, key);
    ReachableIsKnown(secs, events + more, b);
    DigestIsExact(Run(secs, events + more).workers[b].req, Run(secs, events).workers[a].req);
    MeetsCompleted(Run(secs, events + more), b, clock, reply);
    RunStep(secs, events + more, Step(b, clock, reply));
  }

  /** A worker that comes with the same key but anything else changed is told so with its next step. */
  lemma {:induction false} ReuseIsRefused(secs: nat, events: seq<Event>, more: seq<Event>, a: nat, b: nat, r: Response,
                                          clock: int, reply: Reply)
    requires var s := Run(secs, events); a in s.workers && s.workers[a].pc == Done(Created(r))
    requires var s := Run(secs, events + more);
      && b in s.workers && Meets(s.workers[b].pc)
      && KeyOf(s.workers[b].req) == KeyOf(Run(secs, events).workers[a].req)
      && !Alike(s.workers[b].req, Run(secs, events).workers[a].req)
    ensures Answers(Run(secs, events + more), Run(secs, events + more + [Step(b, clock, reply)]), b, KeyReused)
  {
    CreatedIsCompleted(secs, events, a, r);
    SettledForever(secs, events, more, KeyOf(Run(secs, events).workers[a].req));
    ReachableIsKnown(secs, events + more, b);
    var s := Run(secs, events + more);
    DigestIsExact(s.workers[b].req, Run(secs, events).workers[a].req);
    assert WorkerOk(s.db, b, s.workers[b]);
    MeetsRow(s, b, clock, reply);
    RunStep(secs, events + more, Step(b, clock, reply));
  }

  lemma {:induction false} CreatedIsCompleted(secs: nat, events: seq<Event>, a: nat, r: Response)
    requires var s := Run(secs, events); a in s.workers && s.workers[a].pc == Done(Created(r))
    ensures var s := Run(secs, events);
      && AtRow(s, a) && RowOf(s, a).status.Completed? && RowOf(s, a).outcome.response == Some(r)
      && RowOf(s, a).digest == DigestOf(s.workers[a].req)
  {
    ReachableInv(secs, events);
    var s := Run(secs, events);
    assert WorkerOk(s.db, a, s.workers[a]);
    ReachableIsKnown(secs, events, a);
  }

  /** Only a request whose upstream request cannot be built is told so. */
  lemma {:induction false} UnprocessableIsUnacceptable(secs: nat, events: seq<Event>, w: nat)
    requires var s := Run(secs, events); w in s.workers && s.workers[w].pc == Done(Unprocessable)
    ensures !Run(secs, events).workers[w].req.acceptable
  {
    ReachableInv(secs, events);
    assert WorkerOk(Run(secs, events).db, w, Run(secs, events).workers[w]);
  }
}
