/** The terminal session's request queue and its worker, without anything that is drawn. */
module Tui {
  import opened Wrappers
  import opened Deployment

  datatype Action =
    | SystemCreate(name: string)
    | ImportApplication(systemName: Option<string>)
    | StartApplication(application: string)
    | StopApplication(application: string)
    | Reconcile(application: string)
    | SetVisibility(application: string, visibility: Visibility)
    | DeployBranch(application: string)
    | DeployImage(application: string)
    | RollBack(application: string)
  {
    predicate IsDeployment() { DeployBranch? || DeployImage? || RollBack? }
  }

  datatype Request =
    | Systems
    | SystemShow(systemName: string)
    | Catalog
    | Deployments(application: string)
    | Status(application: string)
    | ActionRequest(action: Action)

  // What a command execution reports; listings carry the names in display order.
  datatype Outcome =
    | SystemList(names: seq<string>)
    | SystemDetails(name: string)
    | ApplicationList(names: seq<string>)
    | SystemCreated(name: string)
    | ApplicationImported(name: string)
    | DeploymentList(name: string)
    | StatusOf(name: string)
    | Started(name: string)
    | Stopped(name: string)
    | Reconciled(name: string)
    | ExposureChanged(name: string, visibility: Visibility)
    | Deployed(name: string)
    | RolledBack(name: string)
    | Failed

  datatype Order = Order(id: nat, request: Request)

  datatype Reply = EventReply(id: nat) | FinishedReply(id: nat, outcome: Outcome)

  datatype ProtocolError = UnexpectedReply | OrderChanged

  // Follow-up requests a finished request may cause weigh less than it did.
  function Weight(request: Request): nat {
    match request
    case ActionRequest(_) => 7
    case Catalog => 3
    case Systems => 2
    case _ => 1
  }

  function TotalWeight(requests: seq<Request>): nat {
    if requests == [] then 0 else Weight(requests[0]) + TotalWeight(requests[1..])
  }

  lemma {:induction false} WeightOfAppended(requests: seq<Request>, request: Request)
    ensures TotalWeight(requests + [request]) == TotalWeight(requests) + Weight(request)
    decreases |requests|
  {
    if requests != [] {
      WeightOfAppended(requests[1..], request);
      assert (requests + [request])[1..] == requests[1..] + [request];
    }
  }

  function PreservedSelection(names: seq<string>, previous: Option<string>): Option<string> {
    if previous.Some? && previous.value in names then previous
    else if names != [] then Some(names[0])
    else None
  }

  // A selection survives a reload if it is still listed; otherwise the first name is selected.
  lemma SelectionsAreListed(names: seq<string>, previous: Option<string>)
    ensures var selected := PreservedSelection(names, previous);
            && (selected.None? <==> names == [])
            && (selected.Some? ==> selected.value in names)
            && (previous.Some? && previous.value in names ==> selected == previous)
            && (names != [] && (previous.None? || previous.value !in names) ==> selected == Some(names[0]))
  {
  }

  // A confirmed action waits alone: it never queues behind or before anything else.
  predicate ActionsAlone(requests: seq<Request>) {
    forall i :: 0 <= i < |requests| && requests[i].ActionRequest? ==> |requests| == 1
  }

  // What a finished action, successful or not, makes stale.
  function FollowUps(action: Action, detailsShown: bool): seq<Request> {
    match action
    case SystemCreate(_) => [Systems]
    case ImportApplication(None) => [Catalog]
    case ImportApplication(Some(name)) => [Catalog, Systems] + if detailsShown then [SystemShow(name)] else []
    case StartApplication(name) => [Catalog, Status(name)]
    case StopApplication(name) => [Catalog, Status(name)]
    case SetVisibility(_, _) => [Catalog]
    case Reconcile(name) => [Catalog, Deployments(name), Status(name)]
    case DeployBranch(name) => [Catalog, Deployments(name), Status(name)]
    case DeployImage(name) => [Catalog, Deployments(name), Status(name)]
    case RollBack(name) => [Catalog, Deployments(name), Status(name)]
  }

  // The order follow-ups are asked for in: listings before what belongs to one name.
  function Turn(request: Request): nat {
    match request
    case Catalog => 0
    case Systems => 1
    case SystemShow(_) => 2
    case Deployments(_) => 3
    case Status(_) => 4
    case ActionRequest(_) => 5
  }

  // The action changes which deployments this application has.
  predicate ChangesDeployments(action: Action, application: string) {
    || action == Reconcile(application) || action == DeployBranch(application)
    || action == DeployImage(application) || action == RollBack(application)
  }

  // The action changes what runs for this application.
  predicate ChangesRuntime(action: Action, application: string) {
    || action == StartApplication(application) || action == StopApplication(application)
    || ChangesDeployments(action, application)
  }

  // The requests an action makes stale, each once and in their order: the listing of
  // applications unless only a system changed, the systems if a system changed, its details if
  // they are shown, and the deployments and the status of an application the action changes.
  ghost predicate Refreshes(added: seq<Request>, action: Action, detailsShown: bool) {
    && (Catalog in added <==> !action.SystemCreate?)
    && (Systems in added <==> action.SystemCreate? || (action.ImportApplication? && action.systemName.Some?))
    && (forall name :: SystemShow(name) in added <==> action == ImportApplication(Some(name)) && detailsShown)
    && (forall name :: Deployments(name) in added <==> ChangesDeployments(action, name))
    && (forall name :: Status(name) in added <==> ChangesRuntime(action, name))
    && (forall i :: 0 <= i < |added| ==> !added[i].ActionRequest?)
    && (forall i, j :: 0 <= i < j < |added| ==> Turn(added[i]) < Turn(added[j]))
  }

  // Nothing follows while quitting or while another confirmed action waits; otherwise exactly the
  // stale requests are appended.
  ghost predicate RefreshesQueue(
    before: seq<Request>, after: seq<Request>, quitting: bool, action: Action, detailsShown: bool)
  {
    if quitting || exists i :: 0 <= i < |before| && before[i].ActionRequest? then after == before
    else before <= after && Refreshes(after[|before|..], action, detailsShown)
  }

  lemma OneRefreshes(request: Request, action: Action, detailsShown: bool)
    requires FollowUps(action, detailsShown) == [request]
    requires action.SystemCreate? || action.SetVisibility? || action == ImportApplication(None)
    ensures Refreshes([request], action, detailsShown)
  {
  }

  lemma TwoRefresh(first: Request, second: Request, action: Action, detailsShown: bool)
    requires FollowUps(action, detailsShown) == [first, second]
    requires action.StartApplication? || action.StopApplication? || (action.ImportApplication? && !detailsShown)
    ensures Refreshes([first, second], action, detailsShown)
  {
    assert [first, second][0] == first && [first, second][1] == second;
  }

  lemma ImportRefreshes(name: string)
    ensures Refreshes([Catalog, Systems, SystemShow(name)], ImportApplication(Some(name)), true)
  {
  }

  lemma ThreeRefresh(action: Action, name: string, detailsShown: bool)
    requires ChangesDeployments(action, name)
    ensures Refreshes([Catalog, Deployments(name), Status(name)], action, detailsShown)
  {
  }

  lemma FollowUpsRefresh(action: Action, detailsShown: bool)
    ensures Refreshes(FollowUps(action, detailsShown), action, detailsShown)
  {
    hide Refreshes;
    match action
    case SystemCreate(_) => OneRefreshes(Systems, action, detailsShown);
    case ImportApplication(None) => OneRefreshes(Catalog, action, detailsShown);
    case ImportApplication(Some(name)) =>
      if detailsShown {
        assert FollowUps(action, detailsShown) == [Catalog, Systems, SystemShow(name)];
        ImportRefreshes(name);
      } else {
        assert FollowUps(action, detailsShown) == [Catalog, Systems];
        TwoRefresh(Catalog, Systems, action, detailsShown);
      }
    case StartApplication(name) => TwoRefresh(Catalog, Status(name), action, detailsShown);
    case StopApplication(name) => TwoRefresh(Catalog, Status(name), action, detailsShown);
    case SetVisibility(_, _) => OneRefreshes(Catalog, action, detailsShown);
    case Reconcile(name) => ThreeRefresh(action, name, detailsShown);
    case DeployBranch(name) => ThreeRefresh(action, name, detailsShown);
    case DeployImage(name) => ThreeRefresh(action, name, detailsShown);
    case RollBack(name) => ThreeRefresh(action, name, detailsShown);
  }

  lemma QueuesRefresh(quitting: bool, queued: seq<Request>, action: Action, detailsShown: bool)
    ensures RefreshesQueue(queued, QueueAfterAction(quitting, queued, action, detailsShown), quitting, action, detailsShown)
  {
    hide FollowUps, Refreshes;
    FollowUpsRefresh(action, detailsShown);
    var after := QueueAfterAction(quitting, queued, action, detailsShown);
    if !quitting && NoActions(queued) {
      assert after[|queued|..] == FollowUps(action, detailsShown);
    }
  }

  // Nothing follows while quitting or while another confirmed action waits.
  function QueueAfterAction(quitting: bool, queued: seq<Request>, action: Action, detailsShown: bool): seq<Request> {
    if quitting || !NoActions(queued) then queued else queued + FollowUps(action, detailsShown)
  }

  predicate NoActions(requests: seq<Request>) {
    forall i :: 0 <= i < |requests| ==> !requests[i].ActionRequest?
  }

  // ---- the worker thread ----

  datatype WorkerMove = Receive | Emit | Complete(outcome: Outcome)

  function TotalLength(stretches: seq<seq<WorkerMove>>): nat {
    if stretches == [] then 0 else |stretches[0]| + TotalLength(stretches[1..])
  }

  // One thread taking orders in sequence; only deployment commands emit events.
  class Worker {
    var inbox: seq<Order>
    var executing: Option<Order>
    var outbox: seq<Reply>

    constructor ()
      ensures inbox == [] && executing == None && outbox == []
    {
      inbox, executing, outbox := [], None, [];
    }

    method Execute(order: Order)
      modifies this
      ensures inbox == old(inbox) + [order] && executing == old(executing) && outbox == old(outbox)
    {
      inbox := inbox + [order];
    }

    // Any move the thread may make at any moment; a move it cannot make does nothing.
    method Step(move: WorkerMove)
      modifies this
      ensures move.Receive? && old(executing).None? && old(inbox) != [] ==>
                executing == Some(old(inbox)[0]) && inbox == old(inbox)[1..] && outbox == old(outbox)
      ensures move.Emit? && old(executing).Some?
                && old(executing).value.request.ActionRequest? && old(executing).value.request.action.IsDeployment() ==>
                outbox == old(outbox) + [EventReply(old(executing).value.id)] && inbox == old(inbox) && executing == old(executing)
      ensures move.Complete? && old(executing).Some? ==>
                && outbox == old(outbox) + [FinishedReply(old(executing).value.id, move.outcome)]
                && executing == None && inbox == old(inbox)
      ensures || (move.Receive? && old(executing).None? && old(inbox) != [])
              || (move.Emit? && old(executing).Some?
                  && old(executing).value.request.ActionRequest? && old(executing).value.request.action.IsDeployment())
              || (move.Complete? && old(executing).Some?)
              || (inbox == old(inbox) && executing == old(executing) && outbox == old(outbox))
    {
      match move
      case Receive =>
        if executing.None? && inbox != [] {
          executing, inbox := Some(inbox[0]), inbox[1..];
        }
      case Emit =>
        if executing.Some? && executing.value.request.ActionRequest? && executing.value.request.action.IsDeployment() {
          outbox := outbox + [EventReply(executing.value.id)];
        }
      case Complete(outcome) =>
        if executing.Some? {
          executing, outbox := None, outbox + [FinishedReply(executing.value.id, outcome)];
        }
    }

    method TryReceive() returns (reply: Option<Reply>)
      modifies this
      ensures inbox == old(inbox) && executing == old(executing)
      ensures if old(outbox) == [] then reply == None && outbox == []
              else reply == Some(old(outbox)[0]) && outbox == old(outbox)[1..]
    {
      if outbox == [] { return None; }
      reply, outbox := Some(outbox[0]), outbox[1..];
    }
  }

  // Every event of a sequence answers the order with this identifier.
  predicate AreEvents(replies: seq<Reply>, id: nat) {
    forall i :: 0 <= i < |replies| ==> replies[i] == EventReply(id)
  }

  datatype DetailsState = Idle | Loading | Ready(name: string) | Failed

  // ---- the session ----

  class Session {
    const worker: Worker
    var nextRequestId: nat
    var active: Option<Order>
    var queued: seq<Request>
    var selectedSystem: Option<string>
    var systemDetailsTarget: Option<string>
    var systemDetails: DetailsState
    var selectedApplication: Option<string>
    var observationsApplication: Option<string>
    var quitAfterCompletion: bool

    // The order the session waits for is the only one the worker knows: still in its inbox, in
    // execution with events behind it, or answered last in its outbox. Nothing else is in flight.
    ghost predicate Valid()
      reads this, worker
    {
      && ActionsAlone(queued)
      && match active
         case None => worker.inbox == [] && worker.executing == None && worker.outbox == []
         case Some(order) =>
           && order.id < nextRequestId
           && (|| (worker.inbox == [order] && worker.executing == None && worker.outbox == [])
               || (worker.inbox == [] && worker.executing == Some(order) && AreEvents(worker.outbox, order.id))
               || (worker.inbox == [] && worker.executing == None && IsAnswered()))
    }

    // The answer to the active order waits at the end of the outbox.
    ghost predicate IsAnswered()
      reads this, worker
    {
      && active.Some? && worker.outbox != []
      && var last := worker.outbox[|worker.outbox| - 1];
      && last.FinishedReply? && last.id == active.value.id
      && AreEvents(worker.outbox[..|worker.outbox| - 1], active.value.id)
    }

    // Every request not answered yet, the one in flight first.
    function Outstanding(): seq<Request>
      reads this
    {
      (if active.Some? then [active.value.request] else []) + queued
    }

    function ActiveWeight(): nat
      reads this
    {
      if active.Some? then Weight(active.value.request) else 0
    }

    function Load(): nat
      reads this
    {
      ActiveWeight() + TotalWeight(queued)
    }

    constructor ()
      ensures Valid() && fresh(worker)
      ensures queued == [Catalog, Systems] && active == None && !quitAfterCompletion
    {
      worker := new Worker();
      nextRequestId, active, queued := 1, None, [Catalog, Systems];
      selectedSystem, systemDetailsTarget, systemDetails := None, None, Idle;
      selectedApplication, observationsApplication, quitAfterCompletion := None, None, false;
    }

    predicate IsBusy()
      reads this
    {
      active.Some? || queued != []
    }

    predicate ShouldExit()
      reads this
    {
      quitAfterCompletion && !IsBusy()
    }

    predicate ActionIsPending()
      reads this
    {
      (active.Some? && active.value.request.ActionRequest?) || !NoActions(queued)
    }

    method Enqueue(request: Request)
      modifies this`queued
      ensures queued == old(queued) + [request]
      ensures TotalWeight(queued) == TotalWeight(old(queued)) + Weight(request)
      ensures NoActions(old(queued)) && !request.ActionRequest? ==> NoActions(queued)
    {
      queued := queued + [request];
      WeightOfAppended(old(queued), request);
    }

    // ---- selection-driven loading: nothing is loaded while anything is in progress ----

    method LoadObservations(application: string)
      modifies this
      ensures queued == old(queued) + [Deployments(application), Status(application)]
      ensures TotalWeight(queued) == TotalWeight(old(queued)) + 2
      ensures active == old(active) && nextRequestId == old(nextRequestId) && quitAfterCompletion == old(quitAfterCompletion)
      ensures observationsApplication == Some(application) && selectedApplication == old(selectedApplication)
      ensures selectedSystem == old(selectedSystem) && systemDetails == old(systemDetails)
      ensures systemDetailsTarget == old(systemDetailsTarget)
    {
      observationsApplication := Some(application);
      Enqueue(Deployments(application));
      Enqueue(Status(application));
    }

    method EnsureSystemDetailsLoaded()
      modifies this
      ensures active == old(active) && nextRequestId == old(nextRequestId) && quitAfterCompletion == old(quitAfterCompletion)
      ensures old(IsBusy()) ==> queued == old(queued)
      ensures !old(IsBusy()) ==> queued == [] || (selectedSystem.Some? && queued == [SystemShow(selectedSystem.value)])
      ensures TotalWeight(queued) <= TotalWeight(old(queued)) + 1
      ensures if !old(IsBusy()) && selectedSystem.Some?
                 && old(systemDetails) != Ready(selectedSystem.value)
                 && !(old(systemDetails).Loading? && old(systemDetailsTarget) == selectedSystem)
              then queued == [SystemShow(selectedSystem.value)] && systemDetails.Loading? && systemDetailsTarget == selectedSystem
              else queued == old(queued) && systemDetails == old(systemDetails) && systemDetailsTarget == old(systemDetailsTarget)
      ensures selectedSystem == old(selectedSystem) && selectedApplication == old(selectedApplication)
    {
      if IsBusy() || selectedSystem.None? { return; }
      var selected := selectedSystem.value;
      var matches := match systemDetails
        case Ready(name) => name == selected
        case Loading => systemDetailsTarget == Some(selected)
        case _ => false;
      if matches { return; }
      systemDetails, systemDetailsTarget := Loading, Some(selected);
      Enqueue(SystemShow(selected));
    }

    method EnsureObservationsLoaded()
      modifies this
      ensures active == old(active) && nextRequestId == old(nextRequestId) && quitAfterCompletion == old(quitAfterCompletion)
      ensures if old(IsBusy()) || selectedApplication.None? || old(observationsApplication) == selectedApplication
              then queued == old(queued)
              else queued == [Deployments(selectedApplication.value), Status(selectedApplication.value)]
      ensures TotalWeight(queued) <= TotalWeight(old(queued)) + 2
      ensures selectedApplication == old(selectedApplication) && selectedSystem == old(selectedSystem)
      ensures systemDetails == old(systemDetails) && systemDetailsTarget == old(systemDetailsTarget)
      ensures observationsApplication == if queued == old(queued) then old(observationsApplication) else selectedApplication
    {
      if IsBusy() || selectedApplication.None? || observationsApplication == selectedApplication { return; }
      LoadObservations(selectedApplication.value);
    }

    // ---- keys ----

    method RequestQuit()
      requires Valid()
      modifies this
      ensures Valid() && queued == [] && quitAfterCompletion && active == old(active)
    {
      queued := [];
      quitAfterCompletion := true;
    }

    // Confirming an action drops every queued load; an active request still finishes first.
    method ExecuteAction(action: Action)
      requires Valid()
      modifies this
      ensures Valid() && queued == [ActionRequest(action)] && active == old(active)
      ensures quitAfterCompletion == old(quitAfterCompletion)
    {
      queued := [];
      Enqueue(ActionRequest(action));
    }

    method SelectSystem(selected: Option<string>)
      requires Valid() && !IsBusy()
      modifies this
      ensures Valid() && active.None? && quitAfterCompletion == old(quitAfterCompletion)
      ensures selectedSystem == selected && selectedApplication == old(selectedApplication)
      ensures queued ==
                if selected.None? || old(systemDetails) == Ready(selected.value)
                   || (old(systemDetails).Loading? && old(systemDetailsTarget) == selected)
                then [] else [SystemShow(selected.value)]
    {
      selectedSystem := selected;
      EnsureSystemDetailsLoaded();
    }

    method SelectApplication(selected: Option<string>)
      requires Valid() && !IsBusy()
      modifies this
      ensures Valid() && active.None? && quitAfterCompletion == old(quitAfterCompletion)
      ensures selectedApplication == selected && selectedSystem == old(selectedSystem)
      ensures queued ==
                if selected.None? || old(observationsApplication) == selected then []
                else [Deployments(selected.value), Status(selected.value)]
    {
      selectedApplication := selected;
      EnsureObservationsLoaded();
    }

    method RefreshCatalog()
      modifies this`queued
      ensures queued == if old(IsBusy()) then old(queued) else [Catalog]
    {
      if IsBusy() { return; }
      Enqueue(Catalog);
    }

    method RefreshDetails()
      modifies this
      ensures old(IsBusy()) ==>
                queued == old(queued) && active == old(active) && observationsApplication == old(observationsApplication)
      ensures !old(IsBusy()) ==>
                queued == if selectedApplication.None? then []
                          else [Deployments(selectedApplication.value), Status(selectedApplication.value)]
      ensures active == old(active) && nextRequestId == old(nextRequestId) && quitAfterCompletion == old(quitAfterCompletion)
      ensures selectedApplication == old(selectedApplication)
    {
      if IsBusy() || selectedApplication.None? { return; }
      LoadObservations(selectedApplication.value);
    }

    // The refresh key reloads the listing only: queueing the catalog makes the session busy, so
    // the details refresh that follows does nothing.
    method RefreshKey()
      requires Valid() && !IsBusy()
      modifies this
      ensures Valid() && queued == [Catalog] && observationsApplication == old(observationsApplication)
    {
      RefreshCatalog();
      RefreshDetails();
    }

    // ---- dispatch ----

    method DispatchNext()
      requires Valid()
      modifies this, worker
      ensures Valid() && Load() == old(Load())
      ensures active.None? ==> queued == []
      ensures worker.outbox == old(worker.outbox)
      ensures old(active).Some? ==>
                && active == old(active) && queued == old(queued) && worker.inbox == old(worker.inbox)
                && worker.executing == old(worker.executing) && worker.outbox == old(worker.outbox)
      ensures old(active).None? && old(queued) != [] ==>
                && active == Some(Order(old(nextRequestId), old(queued)[0])) && queued == old(queued)[1..]
                && worker.inbox == [active.value]
      ensures quitAfterCompletion == old(quitAfterCompletion) && Outstanding() == old(Outstanding())
      ensures selectedSystem == old(selectedSystem) && selectedApplication == old(selectedApplication)
      ensures systemDetails == old(systemDetails)
    {
      if active.Some? || queued == [] { return; }
      var request := queued[0];
      queued := queued[1..];
      var order := Order(nextRequestId, request);
      nextRequestId := nextRequestId + 1;
      worker.Execute(order);
      active := Some(order);
    }

    // ---- results ----

    method RefreshAfterAction(action: Action)
      requires active.None? && ActionsAlone(queued)
      modifies this
      ensures active == old(active) && nextRequestId == old(nextRequestId) && quitAfterCompletion == old(quitAfterCompletion)
      ensures ActionsAlone(queued)
      ensures TotalWeight(queued) <= TotalWeight(old(queued)) + 6
      ensures queued == QueueAfterAction(old(quitAfterCompletion), old(queued), action, old(systemDetails).Ready?)
      ensures RefreshesQueue(old(queued), queued, quitAfterCompletion, action, old(systemDetails).Ready?)
      ensures selectedApplication == old(selectedApplication) && systemDetailsTarget == old(systemDetailsTarget)
      ensures selectedSystem == if action.SystemCreate? && queued != old(queued) then Some(action.name) else old(selectedSystem)
      ensures systemDetails ==
                if old(systemDetails).Ready? && queued != old(queued) && action.ImportApplication? && action.systemName.Some?
                then Loading else old(systemDetails)
    {
      hide TotalWeight, RefreshesQueue;
      QueuesRefresh(quitAfterCompletion, queued, action, systemDetails.Ready?);
      if quitAfterCompletion || ActionIsPending() { return; }
      match action
      case SystemCreate(name) =>
        selectedSystem := Some(name);
        Enqueue(Systems);
      case ImportApplication(systemName) =>
        Enqueue(Catalog);
        if systemName.Some? {
          Enqueue(Systems);
          if systemDetails.Ready? {
            systemDetails := Loading;
            Enqueue(SystemShow(systemName.value));
          }
        }
      case StartApplication(application) =>
        Enqueue(Catalog);
        Enqueue(Status(application));
      case StopApplication(application) =>
        Enqueue(Catalog);
        Enqueue(Status(application));
      case SetVisibility(_, _) =>
        Enqueue(Catalog);
      case _ =>
        Enqueue(Catalog);
        Enqueue(Deployments(action.application));
        Enqueue(Status(action.application));
    }

    method ApplyError(request: Request)
      requires active.None? && ActionsAlone(queued)
      modifies this
      ensures active == old(active) && nextRequestId == old(nextRequestId) && quitAfterCompletion == old(quitAfterCompletion)
      ensures ActionsAlone(queued) && TotalWeight(queued) < TotalWeight(old(queued)) + Weight(request)
      ensures if request.ActionRequest?
              then RefreshesQueue(old(queued), queued, quitAfterCompletion, request.action, old(systemDetails).Ready?)
              else queued == old(queued)
      ensures selectedApplication == if request.Catalog? then None else old(selectedApplication)
      ensures request.SystemShow? ==> systemDetails == DetailsState.Failed
      ensures !request.ActionRequest? ==> selectedSystem == old(selectedSystem)
    {
      hide TotalWeight, RefreshesQueue;
      match request
      case SystemShow(_) => systemDetails := DetailsState.Failed;
      case Catalog => selectedApplication := None;
      case ActionRequest(action) => RefreshAfterAction(action);
      case _ =>
    }

    // The preserved or first selection loads its details without an explicit request.
    method ApplySystems(names: seq<string>)
      requires active.None? && ActionsAlone(queued)
      modifies this
      ensures active == old(active) && nextRequestId == old(nextRequestId) && quitAfterCompletion == old(quitAfterCompletion)
      ensures ActionsAlone(queued) && TotalWeight(queued) <= TotalWeight(old(queued)) + 1
      ensures selectedSystem == PreservedSelection(names, old(selectedSystem)) && selectedApplication == old(selectedApplication)
      ensures old(queued) != [] || selectedSystem.None? ==> queued == old(queued)
      ensures old(queued) == [] && selectedSystem.Some? && !old(systemDetails).Loading?
                && old(systemDetails) != Ready(selectedSystem.value) ==>
                queued == [SystemShow(selectedSystem.value)]
    {
      hide TotalWeight, PreservedSelection;
      selectedSystem := PreservedSelection(names, selectedSystem);
      EnsureSystemDetailsLoaded();
    }

    method ApplyCatalog(names: seq<string>)
      requires active.None? && ActionsAlone(queued)
      modifies this
      ensures active == old(active) && nextRequestId == old(nextRequestId) && quitAfterCompletion == old(quitAfterCompletion)
      ensures ActionsAlone(queued) && TotalWeight(queued) <= TotalWeight(old(queued)) + 2
      ensures selectedApplication == PreservedSelection(names, old(selectedApplication)) && selectedSystem == old(selectedSystem)
      ensures queued ==
                if old(queued) != [] || selectedApplication.None? || old(observationsApplication) == selectedApplication
                then old(queued)
                else [Deployments(selectedApplication.value), Status(selectedApplication.value)]
    {
      hide TotalWeight, PreservedSelection;
      selectedApplication := PreservedSelection(names, selectedApplication);
      EnsureObservationsLoaded();
    }

    // A finished action, successful or not, makes the same requests stale; only a confirmed import
    // also selects the application it created.
    method ApplyActionResult(action: Action, outcome: Outcome)
      requires active.None? && ActionsAlone(queued)
      modifies this
      ensures active == old(active) && nextRequestId == old(nextRequestId) && quitAfterCompletion == old(quitAfterCompletion)
      ensures ActionsAlone(queued) && TotalWeight(queued) < TotalWeight(old(queued)) + Weight(ActionRequest(action))
      ensures RefreshesQueue(old(queued), queued, quitAfterCompletion, action, old(systemDetails).Ready?)
      ensures selectedApplication ==
                if action.ImportApplication? && outcome.ApplicationImported? then Some(outcome.name) else old(selectedApplication)
    {
      hide TotalWeight, RefreshesQueue, ActionsAlone;
      if Fits(action, outcome) {
        if outcome.ApplicationImported? {
          selectedApplication := Some(outcome.name);
        }
        RefreshAfterAction(action);
      } else {
        ApplyError(ActionRequest(action));
      }
    }

    // The answer to a load: fitting answers show what they name, others count as errors.
    method ApplyLoad(request: Request, outcome: Outcome)
      requires active.None? && ActionsAlone(queued) && !request.ActionRequest?
      modifies this
      ensures active == old(active) && nextRequestId == old(nextRequestId) && quitAfterCompletion == old(quitAfterCompletion)
      ensures ActionsAlone(queued) && TotalWeight(queued) < TotalWeight(old(queued)) + Weight(request)
      ensures !(request.Catalog? && outcome.ApplicationList?) && !(request.Systems? && outcome.SystemList?) ==>
                queued == old(queued)
      ensures request.SystemShow? ==>
                systemDetails ==
                if outcome == SystemDetails(request.systemName) then Ready(request.systemName) else DetailsState.Failed
      ensures request.Catalog? ==>
                selectedApplication ==
                if outcome.ApplicationList? then PreservedSelection(outcome.names, old(selectedApplication)) else None
      ensures !request.Catalog? ==> selectedApplication == old(selectedApplication)
      ensures selectedSystem ==
                if request.Systems? && outcome.SystemList? then PreservedSelection(outcome.names, old(selectedSystem))
                else old(selectedSystem)
    {
      hide TotalWeight, PreservedSelection, ActionsAlone, RefreshesQueue;
      if request.Systems? && outcome.SystemList? {
        ApplySystems(outcome.names);
      } else if request.Catalog? && outcome.ApplicationList? {
        ApplyCatalog(outcome.names);
      } else if request.SystemShow? && outcome == SystemDetails(request.systemName) {
        systemDetails := Ready(request.systemName);
      } else if !(request.Deployments? && outcome == DeploymentList(request.application))
             && !(request.Status? && outcome == StatusOf(request.application)) {
        ApplyError(request);
      }
    }

    // Whatever answer arrives, the follow-up requests weigh strictly less than the request that
    // finished.
    method ApplyResult(request: Request, outcome: Outcome)
      requires active.None? && ActionsAlone(queued)
      modifies this
      ensures active == old(active) && nextRequestId == old(nextRequestId) && quitAfterCompletion == old(quitAfterCompletion)
      ensures ActionsAlone(queued) && TotalWeight(queued) < TotalWeight(old(queued)) + Weight(request)
      ensures request.ActionRequest? ==>
                RefreshesQueue(old(queued), queued, quitAfterCompletion, request.action, old(systemDetails).Ready?)
      ensures Follows(request, outcome, old(queued), queued, quitAfterCompletion, old(systemDetails), systemDetails,
                      old(selectedApplication), selectedApplication)
    {
      hide TotalWeight, ActionsAlone, RefreshesQueue;
      if request.ActionRequest? {
        ApplyActionResult(request.action, outcome);
      } else {
        ApplyLoad(request, outcome);
      }
    }

    // ---- draining replies ----

    // Takes one waiting reply, if any. A finished answer starts the next request and makes the
    // load strictly smaller; an event changes nothing that is modelled.
    method TakeReply() returns (taken: bool, error: Option<ProtocolError>)
      requires Valid() && (active.None? ==> queued == [])
      modifies this, worker
      ensures error.None? && Valid() && (active.None? ==> queued == [])
      ensures taken == (old(worker.outbox) != [])
      ensures if taken then |worker.outbox| < |old(worker.outbox)| else worker.outbox == []
      ensures Load() < old(Load()) || (Load() == old(Load()) && (old(IsAnswered()) ==> taken && IsAnswered()))
      ensures Load() < old(Load()) || (active == old(active) && worker.executing == old(worker.executing))
      ensures quitAfterCompletion == old(quitAfterCompletion)
      ensures taken && old(worker.outbox)[0].FinishedReply? ==>
                old(active).Some? && Follows(
                  old(active).value.request, old(worker.outbox)[0].outcome, old(queued), Outstanding(),
                  quitAfterCompletion, old(systemDetails), systemDetails, old(selectedApplication), selectedApplication)
      ensures !taken || old(worker.outbox)[0].EventReply? ==>
                Outstanding() == old(Outstanding()) && systemDetails == old(systemDetails)
    {
      hide TotalWeight, RefreshesQueue, PreservedSelection;
      var reply := worker.TryReceive();
      taken, error := true, None;
      match reply
      case None => return false, None;
      case Some(EventReply(id)) =>
        if active.None? { return true, Some(UnexpectedReply); }
        if id != active.value.id { return true, Some(OrderChanged); }
        if old(IsAnswered()) {
          assert worker.outbox[|worker.outbox| - 1] == old(worker.outbox)[|old(worker.outbox)| - 1];
          assert worker.outbox[..|worker.outbox| - 1] == old(worker.outbox)[..|old(worker.outbox)| - 1][1..];
        }
      case Some(FinishedReply(id, outcome)) =>
        if active.None? { return true, Some(UnexpectedReply); }
        var order := active.value;
        active := None;
        if id != order.id { return true, Some(OrderChanged); }
        assert worker.outbox == [];
        ApplyResult(order.request, outcome);
        assert Outstanding() == queued;
        DispatchNext();
    }

    // One move of the other thread, at any time, keeps the protocol.
    method WorkerMoves(move: WorkerMove)
      requires Valid()
      modifies worker
      ensures Valid() && |worker.outbox| <= |old(worker.outbox)| + 1
      ensures old(IsAnswered()) ==> IsAnswered() && worker.outbox == old(worker.outbox)
      ensures move.Complete? && old(worker.executing).Some? ==> IsAnswered()
      ensures !move.Complete? && old(worker.executing).Some? ==> worker.executing == old(worker.executing)
      ensures move.Receive? && old(worker.inbox) != [] ==> worker.executing.Some?
    {
      worker.Step(move);
      if move.Complete? && old(worker.executing).Some? {
        assert worker.outbox[..|worker.outbox| - 1] == old(worker.outbox);
      }
    }

    // The worker has taken the active order, or answered it.
    ghost predicate IsTaken()
      reads this, worker
    {
      worker.executing.Some? || IsAnswered()
    }

    method WorkerRuns(moves: seq<WorkerMove>)
      requires Valid()
      modifies worker
      ensures Valid()
      ensures old(IsAnswered()) ==> IsAnswered()
      ensures old(IsTaken()) ==> IsTaken()
      ensures |worker.outbox| <= |old(worker.outbox)| + |moves|
    {
      for i := 0 to |moves|
        invariant Valid() && |worker.outbox| <= |old(worker.outbox)| + i
        invariant old(IsAnswered()) ==> IsAnswered()
        invariant old(IsTaken()) ==> IsTaken()
      {
        WorkerMoves(moves[i]);
      }
    }

    // Drains replies while the worker makes any moves before each take. The two protocol errors
    // cannot occur, and an answer that was waiting has made the load strictly smaller.
    method DrainReplies(moves: seq<seq<WorkerMove>>) returns (error: Option<ProtocolError>)
      requires Valid()
      modifies this, worker
      ensures error.None? && Valid()
      ensures Load() <= old(Load()) && (old(IsAnswered()) ==> Load() < old(Load()))
      ensures Load() < old(Load()) || (old(worker.executing).Some? ==> worker.executing.Some?)
      ensures active.None? ==> queued == []
      ensures worker.outbox == [] && quitAfterCompletion == old(quitAfterCompletion)
    {
      hide TotalWeight;
      DispatchNext();
      var remaining := moves;
      var taken := true;
      while taken
        invariant Valid() && Load() <= old(Load())
        invariant old(IsAnswered()) ==> IsAnswered() || Load() < old(Load())
        invariant Load() < old(Load()) || (old(worker.executing).Some? ==> worker.executing.Some? || IsAnswered())
        invariant active.None? ==> queued == []
        invariant quitAfterCompletion == old(quitAfterCompletion)
        invariant !taken ==> worker.outbox == []
        decreases taken, TotalLength(remaining) + |worker.outbox|
      {
        if remaining != [] {
          WorkerRuns(remaining[0]);
          remaining := remaining[1..];
        }
        taken, error := TakeReply();
        if error.Some? { return; }
      }
      error := None;
    }

    // The session polls any number of times while the worker makes any moves.
    method Polls(polls: seq<Poll>) returns (error: Option<ProtocolError>)
      requires Valid() && (active.None? ==> queued == [])
      modifies this, worker
      ensures error.None? && Valid() && (active.None? ==> queued == [])
      ensures Load() <= old(Load()) && quitAfterCompletion == old(quitAfterCompletion)
      ensures Load() < old(Load()) || (old(IsTaken()) ==> IsTaken())
    {
      error := None;
      for i := 0 to |polls|
        invariant error.None? && Valid() && (active.None? ==> queued == [])
        invariant Load() <= old(Load()) && quitAfterCompletion == old(quitAfterCompletion)
        invariant Load() < old(Load()) || (old(IsTaken()) ==> IsTaken())
      {
        WorkerRuns(polls[i].between);
        error := DrainReplies(polls[i].during);
      }
    }

    // With no further keys the session runs dry, whatever the commands answer and however the
    // two threads interleave, as long as a waiting order is at some time taken and a taken one
    // at some time answered; if quitting was requested it exits.
    method RunUntilIdle(rounds: nat -> Round) returns (error: Option<ProtocolError>)
      requires Valid()
      modifies this, worker
      ensures error.None? && Valid() && !IsBusy()
      ensures old(quitAfterCompletion) ==> ShouldExit()
    {
      error := DrainReplies([]);
      var turn := 0;
      while active.Some?
        invariant error.None? && Valid() && (active.None? ==> queued == [])
        invariant quitAfterCompletion == old(quitAfterCompletion)
        decreases Load()
      {
        var round := rounds(turn);
        error := Polls(round.waiting);
        WorkerMoves(Receive);
        error := Polls(round.working);
        WorkerMoves(Complete(round.answer));
        WorkerRuns(round.answered);
        error := DrainReplies(round.during);
        turn := turn + 1;
      }
    }
  }

  // What an answer leaves: an action makes its requests stale, a load adds none of them except
  // those a new selection needs, and what it names is shown.
  ghost predicate Follows(
    request: Request, outcome: Outcome, before: seq<Request>, after: seq<Request>, quitting: bool,
    details: DetailsState, details': DetailsState, selected: Option<string>, selected': Option<string>)
  {
    match request
    case ActionRequest(action) =>
      && RefreshesQueue(before, after, quitting, action, details.Ready?)
      && selected' == if action.ImportApplication? && outcome.ApplicationImported? then Some(outcome.name) else selected
    case Catalog =>
      && selected' == (if outcome.ApplicationList? then PreservedSelection(outcome.names, selected) else None)
      && (!outcome.ApplicationList? ==> after == before)
    case Systems => selected' == selected && (!outcome.SystemList? ==> after == before)
    case SystemShow(name) =>
      && after == before && selected' == selected
      && details' == if outcome == SystemDetails(name) then Ready(name) else DetailsState.Failed
    case _ => after == before && selected' == selected
  }

  // A stretch of worker moves, then one drain of the session with more stretches during it.
  datatype Poll = Poll(between: seq<WorkerMove>, during: seq<seq<WorkerMove>>)

  // Everything that happens until one order is taken, until it is answered, and until the
  // session has noticed.
  datatype Round = Round(
    waiting: seq<Poll>, working: seq<Poll>, answer: Outcome, answered: seq<WorkerMove>, during: seq<seq<WorkerMove>>)

  // The results that confirm an action of the same kind on the same name.
  predicate Fits(action: Action, outcome: Outcome) {
    match (action, outcome)
    case (SystemCreate(name), SystemCreated(created)) => name == created
    case (ImportApplication(_), ApplicationImported(_)) => true
    case (StartApplication(name), Started(other)) => name == other
    case (StopApplication(name), Stopped(other)) => name == other
    case (Reconcile(name), Reconciled(other)) => name == other
    case (SetVisibility(name, visibility), ExposureChanged(other, changed)) => name == other && visibility == changed
    case (DeployBranch(name), Deployed(other)) => name == other
    case (DeployImage(name), Deployed(other)) => name == other
    case (RollBack(name), RolledBack(other)) => name == other
    case _ => false
  }
}
