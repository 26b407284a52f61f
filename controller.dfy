/** The job operations of the REST front end
    (cerise/front_end/controllers/default_controller.py): cancelling and
    deleting a job by a chain of conditional state transitions, and the
    output the job is reported with. The job store is not part of this
    model: a lookup's result is passed in, `null` when the store has no
    such job. */
module Controller {
  import opened Wrappers
  import opened Json
  import opened Jobs

  /** A conditional transition `try_transition(from, to)`. */
  type Transition = (JobState, JobState)

  /** The state after `try_transition(t.0, t.1)` on a job in state `s`. */
  function Tried(s: JobState, t: Transition): JobState {
    if s == t.0 then t.1 else s
  }

  /** The state after trying each transition of `chain` in order. */
  function AfterChain(s: JobState, chain: seq<Transition>): JobState
    decreases |chain|
  {
    if chain == [] then s else AfterChain(Tried(s, chain[0]), chain[1..])
  }

  /** How many transitions of `chain` fire, starting from `s`. */
  function Fired(s: JobState, chain: seq<Transition>): nat
    decreases |chain|
  {
    if chain == [] then 0
    else (if s == chain[0].0 then 1 else 0) + Fired(Tried(s, chain[0]), chain[1..])
  }

  /** No transition leads into a state that a later one of `chain` starts
      from. */
  predicate NoTargetFeedsLater(chain: seq<Transition>) {
    forall i, j :: 0 <= i < j < |chain| ==> chain[i].1 != chain[j].0
  }

  /** No transition of `chain` leads into a state that any of them starts
      from. */
  predicate TargetsAreNotSources(chain: seq<Transition>) {
    forall i, j :: 0 <= i < |chain| && 0 <= j < |chain| ==> chain[i].1 != chain[j].0
  }

  predicate IsSource(s: JobState, chain: seq<Transition>) {
    exists j :: 0 <= j < |chain| && chain[j].0 == s
  }

  /** A state that no transition of `chain` starts from passes it
      untouched. */
  lemma {:induction false} NoneFires(s: JobState, chain: seq<Transition>)
    requires !IsSource(s, chain)
    ensures Fired(s, chain) == 0 && AfterChain(s, chain) == s
    decreases |chain|
  {
    if chain != [] {
      assert chain[0].0 != s;
      assert forall j :: 0 <= j < |chain[1..]| ==> chain[1..][j] == chain[j + 1];
      NoneFires(s, chain[1..]);
    }
  }

  /** When no transition feeds a later one, exactly the first transition
      that starts from `s` fires, if there is one, and nothing else does. */
  lemma {:induction false} FirstSourceFires(s: JobState, chain: seq<Transition>)
    requires NoTargetFeedsLater(chain)
    ensures Fired(s, chain) == (if IsSource(s, chain) then 1 else 0)
    ensures IsSource(s, chain) ==> exists j :: 0 <= j < |chain| && chain[j].0 == s && AfterChain(s, chain) == chain[j].1
                                                && forall k :: 0 <= k < j ==> chain[k].0 != s
    ensures !IsSource(s, chain) ==> AfterChain(s, chain) == s
    decreases |chain|
  {
    if !IsSource(s, chain) {
      NoneFires(s, chain);
    } else if chain[0].0 == s {
      var rest := chain[1..];
      forall j | 0 <= j < |rest| ensures rest[j].0 != chain[0].1 {
        assert rest[j] == chain[j + 1];
      }
      NoneFires(chain[0].1, rest);
    } else {
      var rest := chain[1..];
      var j :| 0 <= j < |chain| && chain[j].0 == s;
      assert rest[j - 1] == chain[j];
      assert NoTargetFeedsLater(rest) by {
        forall i, k | 0 <= i < k < |rest| ensures rest[i].1 != rest[k].0 {
          assert rest[i] == chain[i + 1] && rest[k] == chain[k + 1];
        }
      }
      FirstSourceFires(s, rest);
      var k :| 0 <= k < |rest| && rest[k].0 == s && AfterChain(s, rest) == rest[k].1 && forall m :: 0 <= m < k ==> rest[m].0 != s;
      assert chain[k + 1] == rest[k];
      forall m | 0 <= m < k + 1 ensures chain[m].0 != s {
        if m > 0 { assert chain[m] == rest[m - 1]; }
      }
    }
  }

  /** When no transition of `chain` leads into a state any of them starts
      from, trying the chain a second time changes nothing. */
  lemma ChainIdempotent(s: JobState, chain: seq<Transition>)
    requires TargetsAreNotSources(chain)
    ensures AfterChain(AfterChain(s, chain), chain) == AfterChain(s, chain)
  {
    FirstSourceFires(s, chain);
    var t := AfterChain(s, chain);
    if IsSource(s, chain) {
      var j :| 0 <= j < |chain| && chain[j].0 == s && t == chain[j].1 && forall k :: 0 <= k < j ==> chain[k].0 != s;
      assert !IsSource(t, chain);
    }
    NoneFires(t, chain);
  }

  /** The transitions `cancel_job_by_id` tries, in order. */
  const CancelChain: seq<Transition> := [
    (Submitted, Cancelled),
    (StagingIn, StagingInCr),
    (Waiting, WaitingCr),
    (Running, RunningCr),
    (Finished, Cancelled),
    (StagingOut, StagingOutCr)
  ]

  /** The state a job is left in after it is cancelled from `s`. */
  function AfterCancel(s: JobState): JobState {
    AfterChain(s, CancelChain)
  }

  lemma CancelChainShape()
    ensures TargetsAreNotSources(CancelChain) && NoTargetFeedsLater(CancelChain)
  {
  }

  /** The cancel chain tried one transition after the other. */
  lemma CancelChainUnrolled(s: JobState)
    ensures var s1 := Tried(s, (Submitted, Cancelled));
      var s2 := Tried(s1, (StagingIn, StagingInCr));
      var s3 := Tried(s2, (Waiting, WaitingCr));
      var s4 := Tried(s3, (Running, RunningCr));
      var s5 := Tried(s4, (Finished, Cancelled));
      && AfterCancel(s) == Tried(s5, (StagingOut, StagingOutCr))
      && Fired(s, CancelChain) ==
           (if s == Submitted then 1 else 0) + (if s1 == StagingIn then 1 else 0) + (if s2 == Waiting then 1 else 0)
           + (if s3 == Running then 1 else 0) + (if s4 == Finished then 1 else 0) + (if s5 == StagingOut then 1 else 0)
  {
    var c := CancelChain;
    assert c[1..][1..][1..][1..][1..][1..] == [];
  }

  /** A job waiting to start, or finished but not yet destaged, is
      cancelled outright; a job busy staging in, waiting, running or
      staging out gets the cancel request recorded in its shadow state;
      every other state is left alone. */
  lemma CancelOutcome(s: JobState)
    ensures s in {Submitted, Finished} ==> AfterCancel(s) == Cancelled
    ensures s == StagingIn ==> AfterCancel(s) == StagingInCr
    ensures s == Waiting ==> AfterCancel(s) == WaitingCr
    ensures s == Running ==> AfterCancel(s) == RunningCr
    ensures s == StagingOut ==> AfterCancel(s) == StagingOutCr
    ensures s !in {Submitted, StagingIn, Waiting, Running, Finished, StagingOut} ==> AfterCancel(s) == s
  {
    CancelChainUnrolled(s);
  }

  /** After a cancel, a job is either in a state it never leaves or has
      a cancel request pending. */
  lemma CancelSettles(s: JobState)
    ensures IsTerminal(AfterCancel(s)) || IsCancelRequested(AfterCancel(s))
  {
    CancelOutcome(s);
  }

  /** At most one transition of the cancel chain fires, and one does
      exactly when the job is in a state the chain starts from. */
  lemma CancelFiresAtMostOnce(s: JobState)
    ensures Fired(s, CancelChain) <= 1
    ensures Fired(s, CancelChain) == 1 <==> s in {Submitted, StagingIn, Waiting, Running, Finished, StagingOut}
  {
    CancelChainUnrolled(s);
  }

  /** Cancelling twice is cancelling once. */
  lemma CancelIdempotent(s: JobState)
    ensures AfterCancel(AfterCancel(s)) == AfterCancel(s)
  {
    CancelChainShape();
    ChainIdempotent(s, CancelChain);
  }

  /** The six `try_transition` calls of `cancel_job_by_id` on the job the
      store found; `fired` counts those that changed the state. */
  method CancelJob(job: Job) returns (fired: nat)
    modifies job
    ensures job.state == AfterCancel(old(job.state))
    ensures fired == Fired(old(job.state), CancelChain)
    ensures unchanged(job`name, job`workflow, job`localInput, job`localOutput, job`pleaseDelete)
    ensures unchanged(job`remoteOutput, job`remoteError)
    ensures unchanged(job`remoteWorkdirPath, job`remoteWorkflowPath, job`remoteInputPath)
    ensures unchanged(job`remoteStdoutPath, job`remoteStderrPath)
    ensures unchanged(job`remoteSystemOutPath, job`remoteSystemErrPath)
  {
    CancelChainUnrolled(job.state);
    var f1 := job.TryTransition(Submitted, Cancelled);
    var f2 := job.TryTransition(StagingIn, StagingInCr);
    var f3 := job.TryTransition(Waiting, WaitingCr);
    var f4 := job.TryTransition(Running, RunningCr);
    var f5 := job.TryTransition(Finished, Cancelled);
    var f6 := job.TryTransition(StagingOut, StagingOutCr);
    fired := (if f1 then 1 else 0) + (if f2 then 1 else 0) + (if f3 then 1 else 0)
           + (if f4 then 1 else 0) + (if f5 then 1 else 0) + (if f6 then 1 else 0);
  }

  /** `cancel_job_by_id`: a job the store does not have is the error
      `JobNotFound` that `get_job` raises, before the `flask.abort(404)`
      test is reached; any other is cancelled, and its new state is
      reported. */
  method CancelJobById(job: Job?) returns (r: Result<JobState>)
    modifies job
    ensures job == null ==> r == Err(JobNotFound)
    ensures job != null ==> r == Ok(job.state) && job.state == AfterCancel(old(job.state))
    ensures job != null ==> unchanged(job`pleaseDelete, job`localOutput, job`remoteOutput, job`remoteError)
  {
    if job == null {
      return Err(JobNotFound);
    }
    var _ := CancelJob(job);
    r := Ok(job.state);
  }

  /** `delete_job_by_id`: the job is cancelled and then marked for the back
      end to delete; a missing job is the `JobNotFound` the cancel raises. */
  method DeleteJobById(job: Job?) returns (r: Result<()>)
    modifies job
    ensures job == null ==> r == Err(JobNotFound)
    ensures job != null ==> r == Ok(()) && job.state == AfterCancel(old(job.state)) && job.pleaseDelete
    ensures job != null ==> unchanged(job`localOutput, job`remoteOutput, job`remoteError)
  {
    var cancelled := CancelJobById(job);
    if cancelled.Err? {
      return Err(cancelled.error);
    }
    job.pleaseDelete := true;
    r := Ok(());
  }

  /** The output a job is reported with: nothing destaged yet is an empty
      object, and otherwise `local_output` is parsed; the JSON parser is
      outside the model and given as `parse`. */
  function RestOutput(localOutput: string, parse: string -> Result<Json>): (r: Result<Json>)
    ensures localOutput == [] ==> r == Ok(JObject([]))
    ensures localOutput != [] ==> r == parse(localOutput)
  {
    if localOutput == "" then Ok(JObject([])) else parse(localOutput)
  }
}
