/** The three transition tables (execution-runtime/state-machine.ts). */
module StateMachine {
  import opened Contracts

  function TaskTransitions(from: TaskStatus): set<TaskStatus> {
    match from
    case TDraft => {TReady, TCancelled}
    case TReady => {TRunning, TBlocked, TWaitingHuman, TCancelled, TFailed}
    case TRunning => {TWaitingHuman, TBlocked, TOutcomeUnknown, TCompleted, TCancelled, TFailed}
    case TWaitingHuman => {TReady, TRunning, TBlocked, TCancelled, TFailed}
    case TBlocked => {TReady, TRunning, TWaitingHuman, TCancelled, TFailed}
    case TOutcomeUnknown => {TWaitingHuman, TCancelled, TFailed}
    case TCompleted => {}
    case TCancelled => {}
    case TFailed => {TReady, TCancelled}
  }

  function StepTransitions(from: StepStatus): set<StepStatus> {
    match from
    case Pending => {WaitingDependency, Ready, Cancelled}
    case WaitingDependency => {Ready, Blocked, Cancelled}
    case Ready => {Dispatching, Blocked, WaitingHuman, Cancelled}
    case Dispatching => {Running, Verifying, WaitingHuman, Blocked, OutcomeUnknown, Failed, Cancelled}
    case Running => {WaitingReport, Verifying, FixRequired, WaitingHuman, Blocked, OutcomeUnknown, Failed, Cancelled}
    case WaitingReport => {Running, Verifying, FixRequired, WaitingHuman, Blocked, OutcomeUnknown, Failed, Cancelled}
    case Verifying => {Completed, FixRequired, WaitingHuman, Blocked, OutcomeUnknown, Failed, Cancelled}
    case FixRequired => {Dispatching, Running, Verifying, WaitingHuman, Blocked, Failed, Cancelled}
    case WaitingHuman => {Ready, Dispatching, Running, Verifying, FixRequired, Blocked, Failed, Cancelled}
    case Blocked => {Ready, Dispatching, Running, FixRequired, WaitingHuman, Failed, Cancelled}
    case Failed => {Ready, Cancelled}
    case Completed => {}
    case Cancelled => {}
    case OutcomeUnknown => {WaitingHuman, Failed, Cancelled}
  }

  function BindingTransitions(from: BindingState): set<BindingState> {
    match from
    case BCreated => {BActive, BSuspended, BClosed, BLost}
    case BActive => {BSuspended, BClosed, BLost}
    case BSuspended => {BActive, BClosed, BLost}
    case BLost => {BActive, BClosed}
    case BClosed => {}
  }

  predicate ValidTaskTransition(from: TaskStatus, to: TaskStatus) {
    from == to || to in TaskTransitions(from)
  }

  predicate ValidStepTransition(from: StepStatus, to: StepStatus) {
    from == to || to in StepTransitions(from)
  }

  predicate ValidBindingTransition(from: BindingState, to: BindingState) {
    from == to || to in BindingTransitions(from)
  }

  predicate Active(s: StepStatus) {
    s in {Dispatching, Running, WaitingReport, Verifying}
  }
}
