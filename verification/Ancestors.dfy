/** The dependency gate over whole runs: it reads direct dependencies only, and that is enough. */
module Ancestors {
  import opened Graphs
  import opened Jobs
  import opened Dependency
  import opened Hands
  import opened Protocol
  import opened Placement
  import opened Lives

  /** Between the gate and the end of the handler. */
  predicate Cleared(phase: Phase) {
    phase.Activate? || phase.Handler? || phase.Complete?
  }

  /** The success has been recorded, or its recording has been attempted. */
  ghost predicate Finished(s: System, p: Place) {
    || p.Acked?
    || (p.InHand? && p.actor in s.hands && FinishedPhase(s.hands[p.actor].phase))
  }

  ghost predicate RowsAgree(s: System, loc: Locations) {
    && ClosedUpwards(s.w.rows)
    && (forall id :: id in s.submitted && id in s.w.rows ==> s.w.rows[id].dependencies == s.submitted[id].dependencies)
    && (forall id :: id in loc && IsCompleted(s.w.rows, id) ==> Finished(s, loc[id]))
    && (forall a :: a in s.hands && Cleared(s.hands[a].phase) ==> GateOpen(s.w.rows, s.hands[a].job.dependencies))
  }

  lemma RowsAgreeAtStart(s: System)
    requires Init(s)
    ensures RowsAgree(s, map[])
  {
  }

  /** Writing a row that was not completed opens gates and closes none. */
  lemma WriteKeepsGates(rows: Table, job: Job, ok: bool, deps: seq<Id>)
    requires !IsCompleted(rows, job.id)
    requires GateOpen(rows, deps)
    ensures GateOpen(UpdateRow(rows, job, ok), deps)
  {
  }

  lemma WriteKeepsClosed(rows: Table, job: Job, ok: bool)
    requires ClosedUpwards(rows) && !IsCompleted(rows, job.id)
    requires job.status.Completed? && job.id in rows ==> GateOpen(rows, rows[job.id].dependencies)
    ensures ClosedUpwards(UpdateRow(rows, job, ok))
  {
    var rows' := UpdateRow(rows, job, ok);
    forall id | IsCompleted(rows', id)
      ensures GateOpen(rows', rows'[id].dependencies)
    {
      assert GateOpen(rows, rows[id].dependencies);
      WriteKeepsGates(rows, job, ok, rows[id].dependencies);
    }
  }

  predicate Writes(phase: Phase) {
    phase.Activate? || phase.Complete? || phase.Retrying? || phase.Dying?
  }

  /** The record a writing phase writes. */
  function Written(h: Hand, o: Oracle): Job {
    if h.phase.Activate? then h.job.(status := Active, startedAt := Some(o.now)) else h.job
  }

  lemma StepRows(env: Env, w: World, h: Hand, o: Oracle)
    requires !h.phase.Buffered?
    ensures HandStep(env, w, h, o).0.rows == if Writes(h.phase) then UpdateRow(w.rows, Written(h, o), o.dbOk) else w.rows
  {
  }

  /** What a step means for the job's standing towards the gate. */
  lemma StepClearance(env: Env, w: World, h: Hand, o: Oracle)
    requires !h.phase.Buffered?
    ensures var next := HandStep(env, w, h, o).1;
            next.Some? ==>
              && next.value.job.dependencies == h.job.dependencies
              && (Cleared(next.value.phase) ==> Cleared(h.phase) || (h.phase.Gate? && GateOpen(w.rows, h.job.dependencies)))
  {
  }

  predicate FinishedPhase(phase: Phase) {
    phase == Hdel(Success) || phase == Unlock(Success) || phase == AckPush
  }

  /** Once finished a hand goes on to the ack, and only writing the completed row leads there. */
  lemma StepFinish(env: Env, s: System, h: Hand, o: Oracle)
    requires !h.phase.Buffered? && FinishedPhase(h.phase)
    ensures var next := HandStep(env, s.w, h, o).1;
            && next.Some?
            && (FinishedPhase(next.value.phase) || Destination(s, h, o) == Some(Acked(|s.w.acked|)))
  {
  }

  lemma StepCompletes(env: Env, w: World, h: Hand, o: Oracle)
    requires h.phase.Complete?
    ensures HandStep(env, w, h, o).1 == Some(Hand(h.job, Hdel(Success)))
  {
  }

  /** How a table may move on: rows stay, dependencies stay, completed stays, and only `x` may become
      completed, if `may` says so. */
  ghost predicate Advances(rows: Table, rows': Table, x: Id, may: bool) {
    && rows'.Keys == rows.Keys
    && (forall id :: id in rows ==> rows'[id].dependencies == rows[id].dependencies)
    && (forall id :: IsCompleted(rows, id) ==> IsCompleted(rows', id))
    && (forall id :: IsCompleted(rows', id) ==> IsCompleted(rows, id) || (id == x && may))
  }

  lemma GateStaysOpen(rows: Table, rows': Table, x: Id, may: bool, deps: seq<Id>)
    requires Advances(rows, rows', x, may) && GateOpen(rows, deps)
    ensures GateOpen(rows', deps)
  {
    forall d | d in deps && d in rows'
      ensures rows'[d].status.Completed?
    {
      assert IsCompleted(rows, d);
    }
  }

  /** A hand that may still write has not completed its row, because it is the only one to hold the job. */
  lemma WriterIsNotCompleted(s: System, loc: Locations, a: Actor)
    requires Placed(s, loc) && RowsAgree(s, loc) && a in s.hands && Writes(s.hands[a].phase)
    ensures !IsCompleted(s.w.rows, s.hands[a].job.id)
  {
    assert At(s, InHand(a), s.hands[a].job.id);
  }

  lemma RunAdvances(env: Env, s: System, loc: Locations, a: Actor, o: Oracle)
    requires Placed(s, loc) && Alive(env, s, loc) && RowsAgree(s, loc) && Enabled(s, Run(a, o))
    ensures var rows' := Apply(env, s, Run(a, o)).w.rows;
            && Advances(s.w.rows, rows', s.hands[a].job.id, s.hands[a].phase.Complete?)
            && ClosedUpwards(rows')
  {
    var h := s.hands[a];
    StepRows(env, s.w, h, o);
    if Writes(h.phase) {
      WriterIsNotCompleted(s, loc, a);
      assert At(s, InHand(a), h.job.id);
      assert Standing(env, s, h.job.id, loc[h.job.id]);
      WriteAdvances(s.w.rows, Written(h, o), o.dbOk);
      WriteKeepsClosed(s.w.rows, Written(h, o), o.dbOk);
    }
  }

  lemma WriteAdvances(rows: Table, job: Job, ok: bool)
    requires !IsCompleted(rows, job.id)
    ensures Advances(rows, UpdateRow(rows, job, ok), job.id, job.status.Completed?)
  {
  }

  lemma RowsAgreeAfterRun(env: Env, s: System, loc: Locations, a: Actor, o: Oracle, loc': Locations)
    requires Placed(s, loc) && Alive(env, s, loc) && RowsAgree(s, loc) && Enabled(s, Run(a, o))
    requires var q := Destination(s, s.hands[a], o);
             loc' == if q.None? then loc else loc[s.hands[a].job.id := q.value]
    ensures RowsAgree(Apply(env, s, Run(a, o)), loc')
  {
    var h := s.hands[a];
    var x := h.job.id;
    var s' := Apply(env, s, Run(a, o));
    RunAdvances(env, s, loc, a, o);
    if Destination(s, h, o).Some? {
      StepLetsGo(env, s, h, o);
      assert At(s, InHand(a), x);
    }
    forall id | id in loc' && IsCompleted(s'.w.rows, id)
      ensures Finished(s', loc'[id])
    {
      CompletedIsFinished(env, s, loc, a, o, id);
    }
    GatesAfterRun(env, s, a, o);
  }

  lemma GatesAfterRun(env: Env, s: System, a: Actor, o: Oracle)
    requires Enabled(s, Run(a, o))
    requires forall b :: b in s.hands && Cleared(s.hands[b].phase) ==> GateOpen(s.w.rows, s.hands[b].job.dependencies)
    requires Advances(s.w.rows, Apply(env, s, Run(a, o)).w.rows, s.hands[a].job.id, s.hands[a].phase.Complete?)
    ensures var s' := Apply(env, s, Run(a, o));
            forall b :: b in s'.hands && Cleared(s'.hands[b].phase) ==> GateOpen(s'.w.rows, s'.hands[b].job.dependencies)
  {
    var h := s.hands[a];
    var s' := Apply(env, s, Run(a, o));
    StepClearance(env, s.w, h, o);
    forall b | b in s'.hands && Cleared(s'.hands[b].phase)
      ensures GateOpen(s'.w.rows, s'.hands[b].job.dependencies)
    {
      GateStaysOpen(s.w.rows, s'.w.rows, h.job.id, h.phase.Complete?, s'.hands[b].job.dependencies);
    }
  }

  lemma CompletedIsFinished(env: Env, s: System, loc: Locations, a: Actor, o: Oracle, id: Id)
    requires Placed(s, loc) && RowsAgree(s, loc) && Enabled(s, Run(a, o)) && id in s.submitted
    requires var s' := Apply(env, s, Run(a, o));
             Advances(s.w.rows, s'.w.rows, s.hands[a].job.id, s.hands[a].phase.Complete?) && IsCompleted(s'.w.rows, id)
    ensures var q := Destination(s, s.hands[a], o);
            Finished(Apply(env, s, Run(a, o)), if q.Some? && id == s.hands[a].job.id then q.value else loc[id])
  {
    hide HandStep, ClosedUpwards, GateOpen;
    var h := s.hands[a];
    assert At(s, loc[id], id);
    if loc[id] == InHand(a) {
      if FinishedPhase(h.phase) {
        StepFinish(env, s, h, o);
      } else if h.phase.Complete? {
        StepCompletes(env, s.w, h, o);
      }
    } else {
      assert id == h.job.id ==> !Owns(h.phase) by {
        assert At(s, InHand(a), id) <==> loc[id] == InHand(a);
      }
    }
  }
}
