// The driver-extension lifecycle state machine of the companion apps and the
// view models that feed it from the system-extension request delegate.
//
// PloytecAppStateMachine and XoneDB4AppStateMachine have the same handlers
// and the same routing, so one definition models both.
module ExtensionStateMachine {

  datatype State =
    | Activating
    | Deactivating
    | NeedsActivatingApproval
    | NeedsDeactivatingApproval
    | Activated
    | Deactivated
    | ActivationError
    | DeactivationError
    | DextNotPresentError
    | CodeSigningError

  datatype Event =
    | ActivationStarted
    | DeactivationStarted
    | PromptForApproval
    | ActivationFinished
    | DeactivationFinished
    | ActivationFailed
    | DeactivationFailed
    | DextNotPresent
    | CodeSigningErr

  /** The two error events that every handler routes to their own error state. */
  function ErrorEventState(e: Event): (r: State)
    requires e == DextNotPresent || e == CodeSigningErr
    ensures r == DextNotPresentError || r == CodeSigningError
  {
    if e == DextNotPresent then DextNotPresentError else CodeSigningError
  }

  /** Handler of `activating` and `needsActivatingApproval`. */
  function OnActivatingOrNeedsApproval(e: Event): (r: State)
    ensures r == Activated <==> e == ActivationFinished
    ensures r == ActivationError <==>
              e in {ActivationFailed, DeactivationStarted, DeactivationFinished, DeactivationFailed}
    ensures r !in {Deactivating, Deactivated, NeedsDeactivatingApproval, DeactivationError}
  {
    match e
    case ActivationStarted => Activating
    case PromptForApproval => NeedsActivatingApproval
    case ActivationFinished => Activated
    case ActivationFailed | DeactivationStarted | DeactivationFinished | DeactivationFailed => ActivationError
    case DextNotPresent | CodeSigningErr => ErrorEventState(e)
  }

  /** Handler of `activated`. */
  function OnActivated(e: Event): (r: State)
    ensures r == Activated <==> e == ActivationFinished
    ensures r == Deactivating <==> e == DeactivationStarted
    ensures r == ActivationError <==>
              e in {PromptForApproval, ActivationFailed, DeactivationFailed, DeactivationFinished}
  {
    match e
    case ActivationStarted => Activating
    case ActivationFinished => Activated
    case DeactivationStarted => Deactivating
    case PromptForApproval | ActivationFailed | DeactivationFailed | DeactivationFinished => ActivationError
    case DextNotPresent | CodeSigningErr => ErrorEventState(e)
  }

  /** Handler of `activationError`: only a new activation leaves it. */
  function OnActivationError(e: Event): (r: State)
    ensures r == ActivationError <==> e !in {ActivationStarted, DextNotPresent, CodeSigningErr}
    ensures e == ActivationStarted ==> r == Activating
  {
    match e
    case ActivationStarted => Activating
    case PromptForApproval | ActivationFinished | ActivationFailed
       | DeactivationStarted | DeactivationFinished | DeactivationFailed => ActivationError
    case DextNotPresent | CodeSigningErr => ErrorEventState(e)
  }

  /** Handler of `deactivating` and `needsDeactivatingApproval`. */
  function OnDeactivatingOrNeedsApproval(e: Event): (r: State)
    ensures r == Deactivated <==> e == DeactivationFinished
    ensures r == DeactivationError <==>
              e in {DeactivationFailed, ActivationStarted, ActivationFinished, ActivationFailed}
    ensures r !in {Activating, Activated, NeedsActivatingApproval, ActivationError}
  {
    match e
    case DeactivationStarted => Deactivating
    case PromptForApproval => NeedsDeactivatingApproval
    case DeactivationFinished => Deactivated
    case DeactivationFailed | ActivationStarted | ActivationFinished | ActivationFailed => DeactivationError
    case DextNotPresent | CodeSigningErr => ErrorEventState(e)
  }

  /** Handler of `deactivated`. */
  function OnDeactivated(e: Event): (r: State)
    ensures r == Deactivated <==> e == DeactivationFinished
    ensures r == DeactivationError <==>
              e in {PromptForApproval, ActivationFinished, ActivationFailed, DeactivationFailed}
  {
    match e
    case ActivationStarted => Activating
    case DeactivationStarted => Deactivating
    case DeactivationFinished => Deactivated
    case PromptForApproval | ActivationFinished | ActivationFailed | DeactivationFailed => DeactivationError
    case DextNotPresent | CodeSigningErr => ErrorEventState(e)
  }

  /**
   * Handler shared by `deactivationError`, `dextNotPresentError` and
   * `codeSigningError` (three handlers with the same cases in the source).
   */
  function OnErrorState(e: Event): (r: State)
    ensures r == Activating <==> e == ActivationStarted
    ensures r == Deactivating <==> e == DeactivationStarted
    ensures r == DeactivationError <==>
              e in {PromptForApproval, DeactivationFinished, DeactivationFailed, ActivationFinished, ActivationFailed}
  {
    match e
    case DeactivationStarted => Deactivating
    case ActivationStarted => Activating
    case PromptForApproval | DeactivationFinished | DeactivationFailed
       | ActivationFinished | ActivationFailed => DeactivationError
    case DextNotPresent | CodeSigningErr => ErrorEventState(e)
  }

  /**
   * process(state, event): every state is routed to a handler, the approval
   * sub-states to their parent's.
   */
  function Process(s: State, e: Event): (r: State)
    // the two error events win from every state
    ensures e == DextNotPresent ==> r == DextNotPresentError
    ensures e == CodeSigningErr ==> r == CodeSigningError
    // a new activation is honoured except while deactivating
    ensures e == ActivationStarted ==>
              r == if s in {Deactivating, NeedsDeactivatingApproval} then DeactivationError else Activating
    // `activated` and `deactivated` are reached only by a finish from the matching in-flight state
    ensures r == Activated <==>
              e == ActivationFinished && s in {Activating, NeedsActivatingApproval, Activated}
    ensures r == Deactivated <==>
              e == DeactivationFinished && s in {Deactivating, NeedsDeactivatingApproval, Deactivated}
    // approval states are reached only by a prompt while the matching request is in flight
    ensures r == NeedsActivatingApproval <==>
              e == PromptForApproval && s in {Activating, NeedsActivatingApproval}
    ensures r == NeedsDeactivatingApproval <==>
              e == PromptForApproval && s in {Deactivating, NeedsDeactivatingApproval}
    ensures e == PromptForApproval && s in {Activated, ActivationError} ==> r == ActivationError
    ensures e == PromptForApproval && s in {Deactivated, DeactivationError, DextNotPresentError, CodeSigningError} ==>
              r == DeactivationError
  {
    match s
    case Deactivated => OnDeactivated(e)
    case Activating | NeedsActivatingApproval => OnActivatingOrNeedsApproval(e)
    case Activated => OnActivated(e)
    case ActivationError => OnActivationError(e)
    case Deactivating | NeedsDeactivatingApproval => OnDeactivatingOrNeedsApproval(e)
    case DeactivationError | DextNotPresentError | CodeSigningError => OnErrorState(e)
  }

  /** The approval sub-states behave exactly like their parent state. */
  lemma ApprovalSharesParentHandler(e: Event)
    ensures Process(NeedsActivatingApproval, e) == Process(Activating, e)
    ensures Process(NeedsDeactivatingApproval, e) == Process(Deactivating, e)
  {}

  /** `activationError` absorbs every event except a new activation and the two error events. */
  lemma ActivationErrorAbsorbs(e: Event)
    requires e !in {ActivationStarted, DextNotPresent, CodeSigningErr}
    ensures Process(ActivationError, e) == ActivationError
  {}

  /** The states fed one event after another, as the view model does. */
  function Run(s: State, events: seq<Event>): (r: State)
    ensures events == [] ==> r == s
    ensures events != [] && events[|events| - 1] == DextNotPresent ==> r == DextNotPresentError
  {
    if events == [] then s else Process(Run(s, events[..|events| - 1]), events[|events| - 1])
  }

  /** The events didFailWithError feeds: an error-domain code 4 or 8 first, then activationFailed. */
  function FailureEvents(inExtensionDomain: bool, code: int): (es: seq<Event>)
    ensures |es| in {1, 2} && es[|es| - 1] == ActivationFailed
    ensures |es| == 2 <==> inExtensionDomain && (code == 4 || code == 8)
  {
    if inExtensionDomain && code == 4 then [DextNotPresent, ActivationFailed]
    else if inExtensionDomain && code == 8 then [CodeSigningErr, ActivationFailed]
    else [ActivationFailed]
  }

  /**
   * After a failure the state is `activationError` or `deactivationError`:
   * the code-4/code-8 states are overwritten by the trailing activationFailed,
   * which lands in `deactivationError` from both of them.
   */
  lemma {:induction false} FailureEndsInError(s: State, inExtensionDomain: bool, code: int)
    ensures var r := Run(s, FailureEvents(inExtensionDomain, code));
      && r in {ActivationError, DeactivationError}
      && (r == ActivationError <==>
            !(inExtensionDomain && (code == 4 || code == 8))
            && s in {Activating, NeedsActivatingApproval, Activated, ActivationError})
  {
    var es := FailureEvents(inExtensionDomain, code);
    if |es| == 2 {
      assert es[..1][..0] == [];
      assert Run(s, es[..1]) in {DextNotPresentError, CodeSigningError};
    } else {
      assert es[..0] == [];
    }
  }

  /**
   * didFinishWithResult always feeds activationFinished, even for a
   * deactivation request: from a deactivating state it lands in
   * `deactivationError`.
   */
  lemma FinishWhileDeactivating(s: State)
    requires s in {Deactivating, NeedsDeactivatingApproval}
    ensures Process(s, ActivationFinished) == DeactivationError
  {}

  /**
   * OSSystemExtensionRequest.ReplacementAction: the answer a delegate gives
   * when an older copy of the extension is already installed.
   */
  datatype ReplacementAction = Replace | Cancel

  /** PloytecAppViewModel: the `state` field that the delegate callbacks reassign. */
  class PloytecAppViewModel {
    var state: State

    constructor ()
      ensures state == Deactivated
    {
      state := Deactivated;
    }

    /** Submits an activation request (external) and then feeds activationStarted. */
    method ActivateExtension()
      modifies this
      ensures state == Process(old(state), ActivationStarted)
    {
      state := Process(state, ActivationStarted);
    }

    method DeactivateExtension()
      modifies this
      ensures state == Process(old(state), DeactivationStarted)
    {
      state := Process(state, DeactivationStarted);
    }

    /** Never cancels: always replaces, and also feeds activationStarted. */
    method ActionForReplacingExtension() returns (action: ReplacementAction)
      modifies this
      ensures action == Replace
      ensures state == Process(old(state), ActivationStarted)
    {
      action := Replace;
      state := Process(state, ActivationStarted);
    }

    method RequestNeedsUserApproval()
      modifies this
      ensures state == Process(old(state), PromptForApproval)
    {
      state := Process(state, PromptForApproval);
    }

    /** Whatever the request was, a finish feeds activationFinished. */
    method DidFinishWithResult()
      modifies this
      ensures state == Process(old(state), ActivationFinished)
    {
      state := Process(state, ActivationFinished);
    }

    /** Two reassignments when the error is code 4 or 8 of the extension domain. */
    method DidFailWithError(inExtensionDomain: bool, code: int)
      modifies this
      ensures state == Run(old(state), FailureEvents(inExtensionDomain, code))
      ensures state in {ActivationError, DeactivationError}
    {
      ghost var es := FailureEvents(inExtensionDomain, code);
      ghost var s0 := state;
      if inExtensionDomain {
        if code == 4 {
          state := Process(state, DextNotPresent);
        } else if code == 8 {
          state := Process(state, CodeSigningErr);
        }
      }
      assert state == Run(s0, es[..|es| - 1]) by {
        if |es| == 2 { assert es[..1][..0] == []; } else { assert es[..0] == []; }
      }
      state := Process(state, ActivationFailed);
      FailureEndsInError(s0, inExtensionDomain, code);
    }
  }

  /** XoneDB4AppViewModel: the same machine, plus a properties request at start-up. */
  class XoneDB4AppViewModel {
    var state: State

    /** Starts deactivated; the properties request it submits is external. */
    constructor ()
      ensures state == Deactivated
    {
      state := Deactivated;
    }

    /** foundProperties sets the state directly, bypassing Process. */
    method FoundProperties(isEnabled: bool)
      modifies this
      ensures state == if isEnabled then Activated else Deactivated
    {
      if isEnabled {
        state := Activated;
      } else {
        state := Deactivated;
      }
    }

    method ActivateExtension()
      modifies this
      ensures state == Process(old(state), ActivationStarted)
    {
      state := Process(state, ActivationStarted);
    }

    method DeactivateExtension()
      modifies this
      ensures state == Process(old(state), DeactivationStarted)
    {
      state := Process(state, DeactivationStarted);
    }

    /** Never cancels; unlike the Ploytec app, replacing does not touch the state. */
    method ActionForReplacingExtension() returns (action: ReplacementAction)
      ensures action == Replace
    {
      action := Replace;
    }

    method RequestNeedsUserApproval()
      modifies this
      ensures state == Process(old(state), PromptForApproval)
    {
      state := Process(state, PromptForApproval);
    }

    method DidFinishWithResult()
      modifies this
      ensures state == Process(old(state), ActivationFinished)
    {
      state := Process(state, ActivationFinished);
    }

    method DidFailWithError(inExtensionDomain: bool, code: int)
      modifies this
      ensures state == Run(old(state), FailureEvents(inExtensionDomain, code))
      ensures state in {ActivationError, DeactivationError}
    {
      ghost var es := FailureEvents(inExtensionDomain, code);
      ghost var s0 := state;
      if inExtensionDomain {
        if code == 4 {
          state := Process(state, DextNotPresent);
        } else if code == 8 {
          state := Process(state, CodeSigningErr);
        }
      }
      assert state == Run(s0, es[..|es| - 1]) by {
        if |es| == 2 { assert es[..1][..0] == []; } else { assert es[..0] == []; }
      }
      state := Process(state, ActivationFailed);
      FailureEndsInError(s0, inExtensionDomain, code);
    }
  }
}
