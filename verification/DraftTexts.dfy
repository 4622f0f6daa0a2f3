/** Where the texts come from: every version and every answer against the calls of the run. */
module DraftTexts {
  import Text
  import opened Wrappers
  import opened Ledger
  import opened DraftProtocol
  import opened DraftInvariant
  import opened DraftTheorems
  import opened DraftAnswers

  // ----- what came in

  /** The request and correlation id with which a worker arrived. */
  datatype Asked = Asked(req: Request, correlation: string)

  function AskedBy(events: seq<Event>, w: nat): Option<Asked> {
    if events == [] then None
    else
      var before, last := events[..|events| - 1], events[|events| - 1];
      if AskedBy(before, w).None? && last.Arrive? && last.w == w then Some(Asked(last.req, last.correlation))
      else AskedBy(before, w)
  }

  /** The reply of the upstream call that a worker made. */
  function Heard(secs: nat, events: seq<Event>, w: nat): Option<Reply> {
    if events == [] then None
    else
      var before, last := events[..|events| - 1], events[|events| - 1];
      var s := Run(secs, before);
      if last.Step? && last.w == w && w in s.workers && s.workers[w].pc.Call? then Some(last.reply)
      else Heard(secs, before, w)
  }

  /** The draft and the text with which an editor arrived. */
  datatype Edit = Edit(tenant: string, project: string, draft: nat, content: string)

  function EditOf(events: seq<Event>, e: nat): Option<Edit> {
    if events == [] then None
    else
      var before, last := events[..|events| - 1], events[|events| - 1];
      if EditOf(before, e).None? && last.EditArrive? && last.e == e
      then Some(Edit(last.tenant, last.project, last.draft, last.content))
      else EditOf(before, e)
  }

  // ----- workers keep what they were asked and heard

  lemma EventKeepsWorker(s: State, ev: Event, w: nat)
    ensures w in s.workers ==>
              w in Apply(s, ev).workers && Apply(s, ev).workers[w].req == s.workers[w].req
              && Apply(s, ev).workers[w].correlation == s.workers[w].correlation
    ensures w !in s.workers ==>
              (w in Apply(s, ev).workers <==> ev.Arrive? && ev.w == w)
              && (w in Apply(s, ev).workers ==> Apply(s, ev).workers[w] == Worker(ev.req, ev.correlation, None, None, Find))
  {
  }

  lemma {:induction false} WorkerIsAsAsked(secs: nat, events: seq<Event>, w: nat)
    ensures var s := Run(secs, events);
      && (w in s.workers <==> AskedBy(events, w).Some?)
      && (w in s.workers ==> AskedBy(events, w) == Some(Asked(s.workers[w].req, s.workers[w].correlation)))
  {
    if events != [] {
      var before, last := events[..|events| - 1], events[|events| - 1];
      WorkerIsAsAsked(secs, before, w);
      EventKeepsWorker(Run(secs, before), last, w);
    }
  }

  /** What a worker has in hand is what it heard. */
  predicate InHand(k: Worker, heard: Option<Reply>) {
    match k.pc
    case Flush(r) => heard == Some(r)
    case Finalize(r) => heard == Some(r)
    case CommitDone(r, _) => heard == Some(r)
    case Fail(code) => heard == Some(Refused(code))
    case CommitFailed(code, _) => heard == Some(Refused(code))
    case Done(a) =>
      a.Created? ==> heard.Some? && heard.value.Drafted? && heard.value.content == a.response.content
                     && heard.value.retries == a.response.retries
    case _ => true
  }

  lemma {:induction false} HeardIsInHand(secs: nat, events: seq<Event>, w: nat)
    requires w in Run(secs, events).workers
    ensures InHand(Run(secs, events).workers[w], Heard(secs, events, w))
  {
    if events != [] {
      var before, last := events[..|events| - 1], events[|events| - 1];
      var s := Run(secs, before);
      if w in s.workers {
        HeardIsInHand(secs, before, w);
        if last.Step? && last.w == w {
          ReachableInv(secs, before);
          StepKeepsInHand(s, w, last.clock, last.reply, Heard(secs, before, w));
        } else {
          OthersKeepHand(s, last, w);
        }
      } else {
        EventKeepsWorker(s, last, w);
      }
    }
  }

  lemma OthersKeepHand(s: State, ev: Event, w: nat)
    requires w in s.workers && !(ev.Step? && ev.w == w)
    ensures w in Apply(s, ev).workers
    ensures Apply(s, ev).workers[w] == s.workers[w] || Apply(s, ev).workers[w].pc.Crashed?
  {
  }

  lemma StepKeepsInHand(s: State, w: nat, clock: int, reply: Reply, heard: Option<Reply>)
    requires w in s.workers && WorkerOk(s.db, w, s.workers[w]) && InHand(s.workers[w], heard)
    ensures w in Apply(s, Step(w, clock, reply)).workers
    ensures InHand(Apply(s, Step(w, clock, reply)).workers[w], if s.workers[w].pc.Call? then Some(reply) else heard)
  {
    var k := s.workers[w];
    var m := WorkerMove(s, w, k, clock, reply);
    if Owning(k.pc) {
      OwnerKeepsInHand(s, w, clock, reply, heard);
    } else {
      NotYetInHand(s, w, clock, reply);
    }
  }

  lemma OwnerKeepsInHand(s: State, w: nat, clock: int, reply: Reply, heard: Option<Reply>)
    requires w in s.workers && Owning(s.workers[w].pc) && InHand(s.workers[w], heard)
    ensures InHand(WorkerMove(s, w, s.workers[w], clock, reply).next, if s.workers[w].pc.Call? then Some(reply) else heard)
  {
  }

  lemma NotYetInHand(s: State, w: nat, clock: int, reply: Reply)
    requires w in s.workers && !Owning(s.workers[w].pc)
    ensures var k := WorkerMove(s, w, s.workers[w], clock, reply).next;
      k == s.workers[w] || (!Owning(k.pc) && (k.pc.Done? ==> !k.pc.answer.Created?)) || k.pc.Mark?
  {
  }

  /** A new draft is answered with the text and the retry count of the reply that its worker heard, and with the
      request id and the correlation id it came with. */
  lemma {:induction false} AnswerIsTheReply(secs: nat, events: seq<Event>, w: nat, r: Response)
    requires var s := Run(secs, events); w in s.workers && s.workers[w].pc == Done(Created(r))
    ensures var asked, heard := AskedBy(events, w), Heard(secs, events, w);
      && asked.Some? && heard.Some? && heard.value.Drafted?
      && r.content == heard.value.content && r.retries == heard.value.retries
      && r.requestId == asked.value.req.requestId && r.correlationId == asked.value.correlation
  {
    WorkerIsAsAsked(secs, events, w);
    HeardIsInHand(secs, events, w);
    CreatedIsCompleted(secs, events, w, r);
    ReachableInv(secs, events);
    assert WorkerOk(Run(secs, events).db, w, Run(secs, events).workers[w]);
  }

  /** Every AI version has the text of the reply that its worker heard. */
  lemma {:induction false} AgentVersionIsTheReply(secs: nat, events: seq<Event>, slot: Slot)
    requires slot in Run(secs, events).db.versions && Run(secs, events).db.versions[slot].writer.Agent?
    ensures var v := Run(secs, events).db.versions[slot];
      var heard := Heard(secs, events, v.writer.worker);
      heard.Some? && heard.value.Drafted? && v.content == heard.value.content
  {
    OnlySuccessLeavesAVersion(secs, events, slot);
    var w := Run(secs, events).db.versions[slot].writer.worker;
    AnswerIsTheReply(secs, events, w, Run(secs, events).workers[w].pc.answer.response);
  }

  // ----- editors

  lemma EventKeepsEditor(s: State, ev: Event, e: nat)
    ensures e in s.editors ==> e in Apply(s, ev).editors && EditIn(Apply(s, ev).editors[e]) == EditIn(s.editors[e])
    ensures e !in s.editors ==>
              (e in Apply(s, ev).editors <==> ev.EditArrive? && ev.e == e)
              && (e in Apply(s, ev).editors ==>
                    Apply(s, ev).editors[e] == Editor(ev.tenant, ev.project, ev.draft, ev.content, Load))
  {
  }

  function EditIn(ed: Editor): Edit {
    Edit(ed.tenant, ed.project, ed.draft, ed.content)
  }

  lemma {:induction false} EditorIsAsAsked(secs: nat, events: seq<Event>, e: nat)
    ensures var s := Run(secs, events);
      && (e in s.editors <==> EditOf(events, e).Some?)
      && (e in s.editors ==> EditOf(events, e) == Some(EditIn(s.editors[e])))
  {
    if events != [] {
      var before, last := events[..|events| - 1], events[|events| - 1];
      EditorIsAsAsked(secs, before, e);
      EventKeepsEditor(Run(secs, before), last, e);
    }
  }

  /** The version of a person is that of an editor that has saved it. */
  predicate SavedBy(s: State, slot: Slot)
    requires slot in s.db.versions && s.db.versions[slot].writer.Human?
  {
    var v := s.db.versions[slot];
    && v.writer.editor in s.editors
    && var ed := s.editors[v.writer.editor];
    ed.pc == Saved(slot.number) && ed.draft == slot.draft && ed.content == v.content
  }

  ghost predicate HumansOk(s: State) {
    forall slot | slot in s.db.versions && s.db.versions[slot].writer.Human? :: SavedBy(s, slot)
  }

  lemma WriteAddsHuman(db: Db, c: Change, secs: nat, slot: Slot)
    requires slot in Write(db, c, secs).versions && Write(db, c, secs).versions[slot].writer.Human?
    ensures var v := Write(db, c, secs).versions[slot];
      || (slot in db.versions && db.versions[slot] == v)
      || (c.NewVersion? && slot == Slot(c.draft, c.number) && v == Version(c.content, Human(c.editor)))
  {
  }

  lemma NewVersionIsSaved(s: State, ev: Event)
    requires ChangeOf(s, ev).NewVersion?
    ensures var c, s' := ChangeOf(s, ev), Apply(s, ev);
      && c.editor in s'.editors && s'.editors[c.editor].pc == Saved(c.number)
      && s'.editors[c.editor].draft == c.draft && s'.editors[c.editor].content == c.content
  {
  }

  lemma EventAddsVersion(s: State, ev: Event, slot: Slot)
    requires Apply(s, ev).db == Write(s.db, ChangeOf(s, ev), s.leaseSeconds)
    requires slot in Apply(s, ev).db.versions && Apply(s, ev).db.versions[slot].writer.Human?
    ensures var s' := Apply(s, ev); (slot in s.db.versions && s.db.versions[slot] == s'.db.versions[slot]) || SavedBy(s', slot)
  {
    WriteAddsHuman(s.db, ChangeOf(s, ev), s.leaseSeconds, slot);
    if ChangeOf(s, ev).NewVersion? {
      NewVersionIsSaved(s, ev);
    }
  }

  lemma SavedStays(s: State, ev: Event, e: nat)
    requires e in s.editors && s.editors[e].pc.Saved?
    ensures e in Apply(s, ev).editors && Apply(s, ev).editors[e] == s.editors[e]
  {
  }

  lemma {:induction false} HumanVersionsAreSaved(secs: nat, events: seq<Event>)
    ensures HumansOk(Run(secs, events))
  {
    if events != [] {
      var before, last := events[..|events| - 1], events[|events| - 1];
      var s, s' := Run(secs, before), Run(secs, events);
      HumanVersionsAreSaved(secs, before);
      ReachableInv(secs, before);
      EventWrites(s, last);
      forall slot | slot in s'.db.versions && s'.db.versions[slot].writer.Human?
        ensures SavedBy(s', slot)
      {
        EventAddsVersion(s, last, slot);
        if slot in s.db.versions && s.db.versions[slot] == s'.db.versions[slot] {
          SavedStays(s, last, s.db.versions[slot].writer.editor);
        }
      }
    }
  }

  /** Every version of a person has the text with which its editor came, for that draft. */
  lemma {:induction false} HumanVersionIsTheEdit(secs: nat, events: seq<Event>, slot: Slot)
    requires slot in Run(secs, events).db.versions && Run(secs, events).db.versions[slot].writer.Human?
    ensures var v := Run(secs, events).db.versions[slot];
      var edit := EditOf(events, v.writer.editor);
      edit.Some? && v.content == edit.value.content && slot.draft == edit.value.draft && !Text.Blank(v.content)
  {
    HumanVersionsAreSaved(secs, events);
    assert SavedBy(Run(secs, events), slot);
    var e := Run(secs, events).db.versions[slot].writer.editor;
    EditorIsAsAsked(secs, events, e);
    SavedIsNotBlank(secs, events, e);
  }

  /** Only an edit with text, of a draft of its tenant and project, comes past the first read. */
  lemma {:induction false} SavedIsNotBlank(secs: nat, events: seq<Event>, e: nat)
    requires e in Run(secs, events).editors
    ensures var ed := Run(secs, events).editors[e];
      ed.pc.FlushEdit? || ed.pc.CommitEdit? || ed.pc.Saved? ==> !Text.Blank(ed.content)
  {
    if events != [] {
      var before, last := events[..|events| - 1], events[|events| - 1];
      if e in Run(secs, before).editors {
        SavedIsNotBlank(secs, before, e);
      }
    }
  }

  /** An edit ends as saved iff its draft is there and no other edit took its number. */
  lemma EditsGoOn(s: State, e: nat)
    requires e in s.editors
    ensures var ed, s' := s.editors[e], Apply(s, EditStep(e));
      && e in s'.editors
      && (ed.pc.Load? ==>
            (s'.editors[e].pc.FlushEdit? <==>
              && ed.draft in s.db.drafts && s.db.drafts[ed.draft].tenant == ed.tenant
              && s.db.drafts[ed.draft].project == ed.project && !Text.Blank(ed.content))
            && (s'.editors[e].pc.FlushEdit? || s'.editors[e].pc.Rejected?))
      && (ed.pc.FlushEdit? && DraftFree(s, ed.draft) ==>
            s'.editors[e].pc == if Slot(ed.draft, ed.pc.seen + 1) in s.db.versions then Rejected else CommitEdit(ed.pc.seen + 1))
      && (ed.pc.CommitEdit? && ed.draft in s.db.drafts ==>
            s'.editors[e].pc == Saved(ed.pc.number)
            && s'.db.versions == s.db.versions[Slot(ed.draft, ed.pc.number) := Version(ed.content, Human(e))]
            && s'.db.drafts == s.db.drafts[ed.draft :=
                 s.db.drafts[ed.draft].(currentVersion := ed.pc.number, status := "criticized")]
            && s'.db.ledger == s.db.ledger)
  {
  }
}
