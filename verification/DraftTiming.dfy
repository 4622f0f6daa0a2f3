/** A worker that takes its steps within the lease settles its row before anybody can take it over. */
module DraftTiming {
  import opened Wrappers
  import opened Ledger
  import opened DraftProtocol
  import opened DraftInvariant
  import opened DraftTheorems
  import opened LeaseConfig

  // ----- what the acquirer of a lease has, until it ends

  /** The row is leased to the worker until then, and the worker is on its way. */
  predicate Leased(s: State, w: nat, key: Key, until: int) {
    && w in s.workers && key in s.db.ledger && KeyOf(s.workers[w].req) == key
    && var k, row := s.workers[w], s.db.ledger[key];
    && k.draft.Some? && k.token.Some?
    && row.status.Calling? && row.owner == k.token && row.leaseExpires == Some(until)
    && (Owning(k.pc) || (k.pc.Reread? && k.pc.won))
  }

  /** The worker has settled the row, as it answered. */
  predicate SettledBy(s: State, w: nat, key: Key) {
    && w in s.workers && key in s.db.ledger && KeyOf(s.workers[w].req) == key && s.workers[w].pc.Done?
    && var a, row := s.workers[w].pc.answer, s.db.ledger[key];
    && (a.Created? ==> row.status.Completed? && row.outcome.response == Some(a.response))
    && (!a.Created? ==> a.Unavailable? && row.status.Failed?)
  }

  /** A person wrote version 1 of the draft before the worker did. */
  predicate Forestalled(s: State, w: nat, key: Key) {
    && w in s.workers && key in s.db.ledger && s.workers[w].pc == Done(VersionExists)
    && var first := Slot(s.db.ledger[key].draft, 1);
    first in s.db.versions && s.db.versions[first].writer.Human?
  }

  predicate Finished(s: State, w: nat, key: Key) {
    SettledBy(s, w, key) || Forestalled(s, w, key)
  }

  predicate OnCourse(s: State, w: nat, key: Key, until: int) {
    Leased(s, w, key, until) || Finished(s, w, key)
  }

  /** The event neither stops the worker nor reads a clock at which the lease has run out. */
  predicate InTime(ev: Event, w: nat, until: int) {
    ev != Crash(w) && (ev.Step? ==> ev.clock < until)
  }

  // ----- one event

  /** While the lease lives, nobody else changes the row. */
  lemma OthersLeaveRow(s: State, ev: Event, w: nat, key: Key, until: int)
    requires Inv(s) && Leased(s, w, key, until) && InTime(ev, w, until) && !(ev.Step? && ev.w == w)
    ensures key in Apply(s, ev).db.ledger && Apply(s, ev).db.ledger[key] == s.db.ledger[key]
  {
    EventWrites(s, ev);
    var c := ChangeOf(s, ev);
    if Wins(s, ev, key) {
      WinnersChange(s, ev, key);
    } else if (c.Complete? || c.Abandon?) && c.key == key {
      SettlerIsOwner(s, ev, key);
    }
  }

  /** The worker finds its row free, as only its owner can hold it. */
  lemma RowIsFree(s: State, w: nat, key: Key, until: int)
    requires Inv(s) && Leased(s, w, key, until) && !s.workers[w].pc.CommitDone? && !s.workers[w].pc.CommitFailed?
    ensures RowFree(s, key)
  {
    forall x | x in s.workers
      ensures !Settling(s.workers[x], key)
    {
      assert WorkerOk(s.db, x, s.workers[x]);
      if Settling(s.workers[x], key) {
        TokenIdentifiesWorker(s, w, x);
      }
    }
  }

  function Rank(pc: Pc): nat {
    match pc
    case Reread(_, _) => 6
    case Mark => 5
    case Call => 4
    case Flush(_) => 3
    case Finalize(_) => 2
    case Fail(_) => 2
    case CommitDone(_, _) => 1
    case CommitFailed(_, _) => 1
    case _ => 0
  }

  /** The worker waits for the row lock of its draft, held by an editor or a worker about to commit. */
  predicate Waits(s: State, w: nat) {
    && w in s.workers && s.workers[w].draft.Some?
    && (s.workers[w].pc.Mark? || s.workers[w].pc.Flush? || s.workers[w].pc.Fail?)
    && !DraftFree(s, s.workers[w].draft.value)
  }

  /** The move settles the row, or finds version 1 taken. */
  predicate Ends(s: State, w: nat, key: Key, m: Move)
    requires key in s.db.ledger && m.next.pc.Done?
  {
    var d := s.db.ledger[key].draft;
    match m.next.pc.answer
    case Created(r) => m.change.Complete? && m.change.key == key && m.change.response == r && m.change.reply.Drafted?
    case Unavailable => m.change.Abandon? && m.change.key == key
    case VersionExists => m.change.Nothing? && Slot(d, 1) in s.db.versions
    case _ => false
  }

  /** A move towards the end, by a worker that does not wait. */
  predicate Nearer(s: State, w: nat, key: Key, m: Move)
    requires w in s.workers && key in s.db.ledger
  {
    var k := s.workers[w];
    && Rank(m.next.pc) < Rank(k.pc)
    && m.next.req == k.req && m.next.draft == k.draft && m.next.token == k.token
    && if Owning(m.next.pc) then m.change.Nothing? || m.change.Status? else m.next.pc.Done? && Ends(s, w, key, m)
  }

  /** What the moves below need of the invariant. */
  predicate Ready(s: State, w: nat, key: Key, until: int) {
    && Leased(s, w, key, until) && WorkerOk(s.db, w, s.workers[w])
    && s.db.ledger[key].tenant == s.workers[w].req.tenant && s.db.ledger[key].draft == s.workers[w].draft.value
  }

  lemma LeaseIsReady(s: State, w: nat, key: Key, until: int)
    requires Inv(s) && Leased(s, w, key, until)
    ensures Ready(s, w, key, until)
  {
    assert WorkerOk(s.db, w, s.workers[w]) && Homed(s.db, key);
  }

  lemma FirstMoves(s: State, w: nat, key: Key, until: int, clock: int, reply: Reply)
    requires Ready(s, w, key, until) && !Waits(s, w)
    requires var pc := s.workers[w].pc; pc.Reread? || pc.Mark? || pc.Call?
    ensures Nearer(s, w, key, WorkerMove(s, w, s.workers[w], clock, reply))
  {
  }

  lemma LaterMoves(s: State, w: nat, key: Key, until: int, clock: int, reply: Reply)
    requires Ready(s, w, key, until) && !Waits(s, w) && clock < until && RowFree(s, key)
    requires var pc := s.workers[w].pc; pc.Flush? || pc.Finalize? || pc.Fail?
    ensures Nearer(s, w, key, WorkerMove(s, w, s.workers[w], clock, reply))
  {
  }

  lemma LastMoves(s: State, w: nat, key: Key, until: int, clock: int, reply: Reply)
    requires Ready(s, w, key, until)
    requires var pc := s.workers[w].pc; pc.CommitDone? || pc.CommitFailed?
    ensures Nearer(s, w, key, WorkerMove(s, w, s.workers[w], clock, reply))
  {
  }

  lemma WaitingMove(s: State, w: nat, key: Key, until: int, clock: int, reply: Reply)
    requires Ready(s, w, key, until) && Waits(s, w)
    ensures WorkerMove(s, w, s.workers[w], clock, reply) == Move(s.workers[w], Nothing)
  {
  }

  /** The worker's own move brings it nearer to its end, unless it waits. */
  lemma OwnMove(s: State, w: nat, key: Key, until: int, clock: int, reply: Reply)
    requires Inv(s) && Leased(s, w, key, until) && clock < until
    ensures var m := WorkerMove(s, w, s.workers[w], clock, reply);
      if Waits(s, w) then m == Move(s.workers[w], Nothing) else Nearer(s, w, key, m)
  {
    var pc := s.workers[w].pc;
    LeaseIsReady(s, w, key, until);
    if Waits(s, w) {
      WaitingMove(s, w, key, until, clock, reply);
    } else if pc.Reread? || pc.Mark? || pc.Call? {
      FirstMoves(s, w, key, until, clock, reply);
    } else if pc.CommitDone? || pc.CommitFailed? {
      LastMoves(s, w, key, until, clock, reply);
    } else {
      RowIsFree(s, w, key, until);
      LaterMoves(s, w, key, until, clock, reply);
    }
  }

  /** A move that goes on keeps the lease, one that ends settles the row or finds version 1 taken. */
  lemma MoveOnCourse(s: State, w: nat, key: Key, until: int, m: Move)
    requires Ready(s, w, key, until) && Nearer(s, w, key, m)
    requires var first := Slot(s.db.ledger[key].draft, 1);
      first in s.db.versions ==> s.db.versions[first].writer.Human?
    ensures OnCourse(Moved(s, w, m), w, key, until)
  {
    if Owning(m.next.pc) {
      assert Leased(Moved(s, w, m), w, key, until);
    } else if m.next.pc.answer.VersionExists? {
      assert Forestalled(Moved(s, w, m), w, key);
    } else {
      assert SettledBy(Moved(s, w, m), w, key);
    }
  }

  lemma OwnStep(s: State, w: nat, key: Key, until: int, clock: int, reply: Reply)
    requires Inv(s) && Leased(s, w, key, until) && clock < until
    ensures var s' := Apply(s, Step(w, clock, reply));
      && OnCourse(s', w, key, until)
      && w in s'.workers && Rank(s'.workers[w].pc) <= Rank(s.workers[w].pc) - if Waits(s, w) then 0 else 1
  {
    var m := WorkerMove(s, w, s.workers[w], clock, reply);
    OwnMove(s, w, key, until, clock, reply);
    LeaseIsReady(s, w, key, until);
    if Waits(s, w) {
      assert Apply(s, Step(w, clock, reply)) == s by {
        assert s.workers[w := s.workers[w]] == s.workers;
      }
    } else {
      VersionIsPersons(s, key);
      MoveOnCourse(s, w, key, until, m);
    }
  }

  /** An unsettled row has no AI version. */
  lemma VersionIsPersons(s: State, key: Key)
    requires Inv(s) && key in s.db.ledger && s.db.ledger[key].status.Calling?
    ensures var first := Slot(s.db.ledger[key].draft, 1);
      first in s.db.versions ==> s.db.versions[first].writer.Human?
  {
    assert RowOk(s.db, s.db.ledger[key]);
  }

  lemma OthersKeepLease(s: State, ev: Event, w: nat, key: Key, until: int)
    requires Inv(s) && Leased(s, w, key, until) && InTime(ev, w, until) && !(ev.Step? && ev.w == w)
    ensures Leased(Apply(s, ev), w, key, until) && Apply(s, ev).workers[w] == s.workers[w]
  {
    OthersLeaveRow(s, ev, w, key, until);
    OthersLeaveWorker(s, ev, w);
  }

  lemma OthersLeaveWorker(s: State, ev: Event, w: nat)
    requires w in s.workers && ev != Crash(w) && !(ev.Step? && ev.w == w)
    ensures w in Apply(s, ev).workers && Apply(s, ev).workers[w] == s.workers[w]
  {
  }

  /** A settled row and a version stay, and so does a worker that has answered. */
  lemma EndStays(s: State, ev: Event, w: nat, key: Key)
    requires Inv(s) && Finished(s, w, key)
    ensures Finished(Apply(s, ev), w, key)
  {
    AnsweredStays(s, ev, w);
    if SettledBy(s, w, key) {
      SettledStays(s, ev, key);
    } else {
      FirstVersionStays(s, ev, key);
    }
  }

  lemma FinishedIsNotLeased(s: State, w: nat, key: Key, until: int)
    requires Finished(s, w, key)
    ensures !Leased(s, w, key, until)
  {
  }

  lemma AnsweredStays(s: State, ev: Event, w: nat)
    requires w in s.workers && s.workers[w].pc.Done?
    ensures w in Apply(s, ev).workers && Apply(s, ev).workers[w] == s.workers[w]
  {
  }

  lemma SettledStays(s: State, ev: Event, key: Key)
    requires Inv(s) && SettledIn(s, key)
    ensures key in Apply(s, ev).db.ledger && Apply(s, ev).db.ledger[key] == s.db.ledger[key]
  {
    EventWrites(s, ev);
    SettledRowStays(s.db, ChangeOf(s, ev), s.leaseSeconds, key);
  }

  lemma FirstVersionStays(s: State, ev: Event, key: Key)
    requires Inv(s) && key in s.db.ledger && Slot(s.db.ledger[key].draft, 1) in s.db.versions
    ensures var db := Apply(s, ev).db;
      var first := Slot(s.db.ledger[key].draft, 1);
      && key in db.ledger && db.ledger[key].draft == s.db.ledger[key].draft
      && first in db.versions && db.versions[first] == s.db.versions[first]
  {
    EventWrites(s, ev);
    IdentityStays(s.db, ChangeOf(s, ev), s.leaseSeconds, key);
    VersionStays(s.db, ChangeOf(s, ev), s.leaseSeconds, Slot(s.db.ledger[key].draft, 1));
  }

  /** One event keeps the worker on course; a turn of its own takes it one step further, unless it waits. */
  lemma StepOnCourse(s: State, ev: Event, w: nat, key: Key, until: int)
    requires Inv(s) && Leased(s, w, key, until) && InTime(ev, w, until)
    ensures var s' := Apply(s, ev);
      var turn := if ev.Step? && ev.w == w && !Waits(s, w) then 1 else 0;
      && OnCourse(s', w, key, until)
      && w in s'.workers && Rank(s'.workers[w].pc) <= Rank(s.workers[w].pc) - turn
  {
    if ev.Step? && ev.w == w {
      OwnStep(s, w, key, until, ev.clock, ev.reply);
    } else {
      OthersKeepLease(s, ev, w, key, until);
    }
  }

  /** On course stays on course; only a live lease can follow a live lease. */
  lemma CourseStays(s: State, ev: Event, w: nat, key: Key, until: int)
    requires Inv(s) && OnCourse(s, w, key, until) && InTime(ev, w, until)
    ensures var s' := Apply(s, ev);
      var turn := if ev.Step? && ev.w == w && !Waits(s, w) then 1 else 0;
      && OnCourse(s', w, key, until)
      && (Leased(s', w, key, until) ==>
            Leased(s, w, key, until) && Rank(s'.workers[w].pc) <= Rank(s.workers[w].pc) - turn)
  {
    if Leased(s, w, key, until) {
      StepOnCourse(s, ev, w, key, until);
    } else {
      EndStays(s, ev, w, key);
      FinishedIsNotLeased(Apply(s, ev), w, key, until);
    }
  }

  // ----- whole runs

  /** How often the worker had its turn in the last events of a run and did not wait. */
  function Turns(secs: nat, events: seq<Event>, more: seq<Event>, w: nat): nat {
    if more == [] then 0
    else
      var init, last := more[..|more| - 1], more[|more| - 1];
      Turns(secs, events, init, w)
      + if last.Step? && last.w == w && !Waits(Run(secs, events + init), w) then 1 else 0
  }

  predicate AllInTime(more: seq<Event>, w: nat, until: int) {
    forall ev | ev in more :: InTime(ev, w, until)
  }

  lemma {:induction false} StaysOnCourse(secs: nat, events: seq<Event>, more: seq<Event>, w: nat, key: Key, until: int)
    requires Leased(Run(secs, events), w, key, until) && AllInTime(more, w, until)
    ensures var s := Run(secs, events + more);
      && OnCourse(s, w, key, until)
      && (Leased(s, w, key, until) ==> Rank(s.workers[w].pc) + Turns(secs, events, more, w) <= 6)
    decreases |more|
  {
    if more == [] {
      NoneOf(events, more);
    } else {
      var init, last := more[..|more| - 1], more[|more| - 1];
      LastOf(events, more);
      StaysOnCourse(secs, events, init, w, key, until);
      RunStep(secs, events + init, last);
      ReachableInv(secs, events + init);
      CourseStays(Run(secs, events + init), last, w, key, until);
    }
  }

  lemma {:induction false} SixTurnsEnd(secs: nat, events: seq<Event>, more: seq<Event>, w: nat, key: Key, until: int)
    requires Leased(Run(secs, events), w, key, until) && AllInTime(more, w, until)
    ensures OnCourse(Run(secs, events + more), w, key, until)
    ensures Turns(secs, events, more, w) >= 6 ==> Finished(Run(secs, events + more), w, key)
  {
    var s := Run(secs, events + more);
    StaysOnCourse(secs, events, more, w, key, until);
    assert Leased(s, w, key, until) ==> Rank(s.workers[w].pc) > 0;
  }

  lemma LastOf(events: seq<Event>, more: seq<Event>)
    requires more != []
    ensures events + more == events + more[..|more| - 1] + [more[|more| - 1]]
  {
  }

  lemma NoneOf(events: seq<Event>, more: seq<Event>)
    requires more == []
    ensures events + more == events
  {
  }

  lemma {:induction false} GrantStep(secs: nat, before: seq<Event>, ev: Event, key: Key)
    ensures LeasesGranted(secs, before + [ev], key)
            == LeasesGranted(secs, before, key) + if Wins(Run(secs, before), ev, key) then 1 else 0
  {
    assert (before + [ev])[..|before|] == before;
  }

  lemma {:induction false} NoWinInTime(secs: nat, events: seq<Event>, win: Event, between: seq<Event>, ev: Event, key: Key)
    requires win.Step? && Wins(Run(secs, events), win, key) && InTime(ev, win.w, win.clock + secs)
    ensures !Wins(Run(secs, events + [win] + between), ev, key)
  {
    if Wins(Run(secs, events + [win] + between), ev, key) {
      LeasesAreDisjoint(secs, events, win, between, ev, key);
    }
  }

  lemma {:induction false} NobodyElseWins(secs: nat, events: seq<Event>, win: Event, more: seq<Event>, key: Key)
    requires win.Step? && Wins(Run(secs, events), win, key) && AllInTime(more, win.w, win.clock + secs)
    ensures LeasesGranted(secs, events + [win] + more, key) == LeasesGranted(secs, events, key) + 1
    decreases |more|
  {
    if more == [] {
      NoneOf(events + [win], more);
      GrantStep(secs, events, win, key);
    } else {
      var init, last := more[..|more| - 1], more[|more| - 1];
      NobodyElseWins(secs, events, win, init, key);
      var before := events + [win] + init;
      LastOf(events + [win], more);
      GrantStep(secs, before, last, key);
      assert !Wins(Run(secs, before), last, key) by {
        NoWinInTime(secs, events, win, init, last, key);
      }
    }
  }

  lemma LeasingMove(s: State, w: nat, k: Worker, clock: int, reply: Reply, key: Key)
    requires var c := WorkerMove(s, w, k, clock, reply).change; c.Lease? && c.key == key
    ensures k.pc.Acquire? && KeyOf(k.req) == key && key in s.db.ledger
    ensures WorkerMove(s, w, k, clock, reply)
            == Move(k.(pc := Reread(clock, true), token := Some(|s.db.drawn|)), Lease(key, w, clock))
  {
  }

  lemma WinIsLeased(s: State, secs: nat, win: Event, key: Key)
    requires s.leaseSeconds == secs && win.Step? && Wins(s, win, key) && WorkerOk(s.db, win.w, s.workers[win.w])
    ensures Leased(Apply(s, win), win.w, key, win.clock + secs)
  {
    LeasingMove(s, win.w, s.workers[win.w], win.clock, win.reply, key);
  }

  lemma {:induction false} WinnerIsLeased(secs: nat, events: seq<Event>, win: Event, key: Key)
    requires win.Step? && Wins(Run(secs, events), win, key)
    ensures Leased(Run(secs, events + [win]), win.w, key, win.clock + secs)
  {
    assert WorkerOk(Run(secs, events).db, win.w, Run(secs, events).workers[win.w]) by {
      ReachableInv(secs, events);
    }
    RunKeepsLeaseSeconds(secs, events);
    WinIsLeased(Run(secs, events), secs, win, key);
    RunStep(secs, events, win);
  }

  /** Nobody else acquires the row; the worker is on course, and after six turns without waiting it has finished. */
  predicate TakesItsCourse(secs: nat, events: seq<Event>, win: Event, more: seq<Event>, key: Key)
    requires win.Step?
  {
    && LeasesGranted(secs, events + [win] + more, key) == LeasesGranted(secs, events, key) + 1
    && OnCourse(Run(secs, events + [win] + more), win.w, key, win.clock + secs)
    && (Turns(secs, events + [win], more, win.w) >= 6 ==> Finished(Run(secs, events + [win] + more), win.w, key))
  }

  lemma {:induction false} WinnerFinishes(secs: nat, events: seq<Event>, win: Event, more: seq<Event>, key: Key)
    requires win.Step? && Wins(Run(secs, events), win, key) && AllInTime(more, win.w, win.clock + secs)
    ensures OnCourse(Run(secs, events + [win] + more), win.w, key, win.clock + secs)
    ensures Turns(secs, events + [win], more, win.w) >= 6 ==> Finished(Run(secs, events + [win] + more), win.w, key)
  {
    WinnerIsLeased(secs, events, win, key);
    SixTurnsEnd(secs, events + [win], more, win.w, key, win.clock + secs);
  }

  /** From the acquisition of a lease on, as long as every clock reading is before its end and the worker does not
      crash: nobody else acquires the row, and the worker settles it, or finds that a person wrote version 1. */
  lemma {:induction false} SettlesInTime(secs: nat, events: seq<Event>, win: Event, more: seq<Event>, key: Key)
    requires win.Step? && Wins(Run(secs, events), win, key) && AllInTime(more, win.w, win.clock + secs)
    ensures TakesItsCourse(secs, events, win, more, key)
  {
    NobodyElseWins(secs, events, win, more, key);
    WinnerFinishes(secs, events, win, more, key);
  }

  predicate WithinSchedule(s: Settings, overhead: real, elapsed: int)
    requires s.Accepted()
  {
    elapsed as real <= Schedule(s.timeout, s.backoff, s.attempts) + overhead
  }

  /** With an accepted configuration this holds if every reading is within the retry schedule and an overhead that is
      below the slack of the settings. */
  lemma {:induction false} AcceptedSettingsSuffice(s: Settings, overhead: real, events: seq<Event>, win: Event,
                                                   more: seq<Event>, key: Key)
    requires s.Accepted() && 0 <= s.lease && overhead < Slack(s)
    requires win.Step? && Wins(Run(s.lease, events), win, key)
    requires forall ev | ev in more :: ev != Crash(win.w) && (ev.Step? ==> WithinSchedule(s, overhead, ev.clock - win.clock))
    ensures TakesItsCourse(s.lease, events, win, more, key)
  {
    SlackIsLeast(s);
    SettlesInTime(s.lease, events, win, more, key);
  }
}
