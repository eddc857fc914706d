/** A driven ownership store: whatever scripts it is made to run, its keys are the last state
    of a run, so that everything proved of runs holds of it. */
module OwnershipServer {
  import opened SortedSets
  import opened OwnershipProtocol
  import opened OwnershipInvariant
  import opened OwnershipRuns
  import OwnershipStore

  function Last(run: Run): World
    requires |run.worlds| == |run.steps| + 1
  {
    run.worlds[|run.steps|]
  }

  /** The run after one more step. */
  function Longer(run: Run, step: Step): Run
    requires |run.worlds| == |run.steps| + 1
  {
    Run(run.steps + [step], run.worlds + [Next(Last(run), step)], run.replies + [Perform(Last(run).state, step).reply])
  }

  /** No claim so far had this token. */
  predicate IsUnused(run: Run, token: Token) {
    forall i :: 0 <= i < |run.steps| && run.steps[i].Claim? ==> run.steps[i].token != token
  }

  lemma RunGoesOn(run: Run, step: Step)
    requires Legal(run) && Enabled(Last(run), step) && (step.Claim? ==> IsUnused(run, step.token))
    ensures Legal(Longer(run, step))
  {
    var n, longer := |run.steps|, Longer(run, step);
    forall i | 0 <= i <= n ensures StepOk(longer, i) {
      if i < n {
        assert StepOk(run, i);
      }
    }
  }

  lemma NextState(w: World, step: Step)
    ensures Next(w, step).state == Perform(w.state, step).state
  {
  }

  class Server {
    const store: OwnershipStore.Store
    ghost var history: Run

    ghost predicate Valid()
      reads this, store
    {
      Legal(history) && Last(history).state == store.View()
    }

    constructor ()
      ensures Valid() && fresh(store) && history.steps == []
    {
      store := new OwnershipStore.Store();
      history := Run([], [ORIGIN], []);
    }

    /** Run one script. A step of a claim or a reap says which; its batch is what the store
        then reads. */
    method Serve(step: Step) returns (reply: Reply, ghost done: Step)
      requires Valid() && Last(history).clock <= step.now
      requires step.Claim? ==> IsUnused(history, step.token)
      modifies this, store
      ensures Valid() && history == Longer(old(history), done)
      ensures reply == Perform(Last(old(history)).state, done).reply
      ensures done == match step
                      case Claim(_, _, _, _) => step.(batch := if done.Claim? then done.batch else [])
                      case Reap(_, _) => step.(dueCases := if done.Reap? then done.dueCases else [])
                      case _ => step
    {
      ghost var w := Last(history);
      match step {
        case Open(now, caseId, cycle, members, creator) =>
          reply := store.OpenCase(now, caseId, cycle, members, creator);
          done := step;
        case Claim(now, member, token, _) =>
          ghost var batch;
          reply, batch := store.ClaimJob(now, member, token);
          done := step.(batch := batch);
        case Submit(now, caseId, member, roundNo, verdict, resultId, token) =>
          reply := store.SubmitResult(now, caseId, member, roundNo, verdict, resultId, token);
          done := step;
        case Reap(now, _) =>
          ghost var dueCases;
          reply, dueCases := store.ReapExpired(now);
          done := step.(dueCases := dueCases);
        case Success(now, cycle, eventId, member) =>
          reply := store.RegisterSuccess(now, cycle, eventId, member);
          done := step;
      }
      NextState(w, done);
      RunGoesOn(history, done);
      history := Longer(history, done);
    }
  }
}
