/** The job record the back end and the controllers work on, with the
    lifecycle states named in cerise/back_end/cwl.py and
    cerise/front_end/controllers/default_controller.py. The job store that
    owns these records is not part of this model; a Job here is the record
    it hands out. */
module Jobs {

  datatype JobState =
    | Submitted
    | StagingIn | StagingInCr
    | Waiting | WaitingCr
    | Running | RunningCr
    | Finished
    | StagingOut | StagingOutCr
    | Success
    | PermanentFailure
    | TemporaryFailure
    | SystemError
    | Cancelled

  /** The states a job never leaves. */
  predicate IsTerminal(s: JobState) {
    s in {Success, PermanentFailure, TemporaryFailure, SystemError, Cancelled}
  }

  /** The cancel-requested shadow states, entered from a busy state. */
  predicate IsCancelRequested(s: JobState) {
    s in {StagingInCr, WaitingCr, RunningCr, StagingOutCr}
  }

  class Job {
    const id: string
    var name: string
    var workflow: string
    /** JSON text of the input binding as submitted. */
    var localInput: string
    /** JSON text of the output binding after destaging; empty before. */
    var localOutput: string
    /** JSON text the runner printed on its standard output. */
    var remoteOutput: string
    /** Everything the runner has printed on its standard error so far. */
    var remoteError: string
    var state: JobState
    var remoteWorkdirPath: string
    var remoteWorkflowPath: string
    var remoteInputPath: string
    var remoteStdoutPath: string
    var remoteStderrPath: string
    var remoteSystemOutPath: string
    var remoteSystemErrPath: string
    var pleaseDelete: bool

    /** A freshly submitted job: nothing staged yet. */
    constructor (id: string, name: string, workflow: string, localInput: string)
      ensures this.id == id && this.name == name && this.workflow == workflow
      ensures this.localInput == localInput
      ensures localOutput == "" && remoteOutput == "" && remoteError == ""
      ensures state == Submitted && !pleaseDelete
      ensures remoteWorkdirPath == "" && remoteWorkflowPath == "" && remoteInputPath == ""
      ensures remoteStdoutPath == "" && remoteStderrPath == ""
      ensures remoteSystemOutPath == "" && remoteSystemErrPath == ""
    {
      this.id := id;
      this.name := name;
      this.workflow := workflow;
      this.localInput := localInput;
      localOutput := "";
      remoteOutput := "";
      remoteError := "";
      state := Submitted;
      remoteWorkdirPath := "";
      remoteWorkflowPath := "";
      remoteInputPath := "";
      remoteStdoutPath := "";
      remoteStderrPath := "";
      remoteSystemOutPath := "";
      remoteSystemErrPath := "";
      pleaseDelete := false;
    }

    /** The job store's conditional transition: the state becomes `to`
        exactly when it was `from`; otherwise nothing changes. */
    method TryTransition(from: JobState, to: JobState) returns (fired: bool)
      modifies this
      ensures fired <==> old(state) == from
      ensures state == if fired then to else old(state)
      ensures unchanged(this`name, this`workflow, this`localInput, this`localOutput)
      ensures unchanged(this`remoteOutput, this`remoteError, this`pleaseDelete)
      ensures unchanged(this`remoteWorkdirPath, this`remoteWorkflowPath, this`remoteInputPath)
      ensures unchanged(this`remoteStdoutPath, this`remoteStderrPath)
      ensures unchanged(this`remoteSystemOutPath, this`remoteSystemErrPath)
    {
      fired := state == from;
      if fired {
        state := to;
      }
    }
  }
}
