/** What makes a house configuration valid, and that validation decides exactly that. */
module WellFormedness {
  import opened Basics
  import opened ConfigSchema
  import opened Validation

  ghost predicate BoardNamed(c: CanonicalConfig, id: Id) {
    exists k :: 0 <= k < |c.boards| && c.boards[k].boardId == id
  }

  ghost predicate DeviceNamed(c: CanonicalConfig, device: Id) {
    exists k :: 0 <= k < |c.devices| && c.devices[k].deviceId == device
  }

  ghost predicate Owned(c: CanonicalConfig, device: Id, board: Id) {
    exists k :: 0 <= k < |c.devices| && c.devices[k].deviceId == device && c.devices[k].ownerBoardId == board
  }

  ghost predicate OnlyCoordinator(boards: seq<BoardConfig>, k: nat) {
    && k < |boards| && boards[k].role == Coordinator
    && forall j :: 0 <= j < |boards| && boards[j].role == Coordinator ==> j == k
  }

  ghost predicate DistinctBoards(c: CanonicalConfig) {
    forall j, k :: 0 <= j < k < |c.boards| ==> c.boards[j].boardId != c.boards[k].boardId
  }

  ghost predicate DistinctDevices(c: CanonicalConfig) {
    forall j, k :: 0 <= j < k < |c.devices| ==> c.devices[j].deviceId != c.devices[k].deviceId
  }

  ghost predicate DistinctRules(c: CanonicalConfig) {
    forall j, k :: 0 <= j < k < |c.rules| ==> c.rules[j].ruleId != c.rules[k].ruleId
  }

  ghost predicate BoardsOk(c: CanonicalConfig) {
    && (forall k :: 0 <= k < |c.boards| ==> c.boards[k].boardId != 0)
    && DistinctBoards(c)
    && exists k :: OnlyCoordinator(c.boards, k)
  }

  ghost predicate ControllersOk(c: CanonicalConfig) {
    forall k :: 0 <= k < |c.controllers| ==> BoardNamed(c, c.controllers[k].ownerBoardId)
  }

  ghost predicate DeviceOk(c: CanonicalConfig, d: DeviceConfig) {
    && d.deviceId != 0 && BoardNamed(c, d.ownerBoardId)
    && (d.port.Some? ==> HasController(c, d.port.value.controllerId, d.ownerBoardId))
  }

  ghost predicate DevicesOk(c: CanonicalConfig) {
    && (forall k :: 0 <= k < |c.devices| ==> DeviceOk(c, c.devices[k]))
    && DistinctDevices(c)
  }

  ghost predicate DependencyOk(c: CanonicalConfig, d: Dependency) {
    && BoardNamed(c, d.ownerBoardId)
    && Owned(c, d.source.deviceId, d.ownerBoardId) && Owned(c, d.destination.deviceId, d.ownerBoardId)
  }

  ghost predicate DependenciesOk(c: CanonicalConfig) {
    forall k :: 0 <= k < |c.dependencies| ==> DependencyOk(c, c.dependencies[k])
  }

  /** Every action of a rule, of all its steps. */
  ghost function ActionsOf(body: RuleBody): set<Action> {
    match body
    case Act(actions) => set a | a in actions
    case Steps(steps) => set s, a | s in steps && a in s.actions :: a
  }

  /** Every condition a rule tests, before it fires and before each step. */
  ghost function ConditionsOf(r: RuleConfig): set<Condition> {
    (if r.condition.Some? then {r.condition.value} else {})
    + (match r.body
       case Act(_) => {}
       case Steps(steps) => set s | s in steps && s.precondition.Some? :: s.precondition.value)
  }

  /** Every device a rule mentions: in its trigger, a condition or an action. */
  ghost function DevicesNamedBy(r: RuleConfig): set<Id> {
    (if r.trigger.Some? && r.trigger.value.DeviceChanged? then {r.trigger.value.property.deviceId} else {})
    + (set k | k in ConditionsOf(r) :: k.property.deviceId)
    + (set a | a in ActionsOf(r.body) && a.SetDevice? :: a.deviceId)
  }

  ghost predicate DoesSomething(body: RuleBody) {
    match body
    case Act(actions) => actions != []
    case Steps(steps) => steps != [] && forall s :: s in steps ==> s.actions != []
  }

  ghost predicate TriggerOk(c: CanonicalConfig, t: Option<Trigger>) {
    match t
    case Some(DeviceChanged(p)) => DeviceNamed(c, p.deviceId)
    case Some(BoardEvent(board, _)) => BoardNamed(c, board)
    case _ => true
  }

  /** A board-local rule sets only devices of its own board. */
  ghost predicate ActionOk(c: CanonicalConfig, scope: RuleScope, a: Action) {
    match a
    case SetDevice(device, _, _) =>
      DeviceNamed(c, device) && (scope.BoardLocal? ==> Owned(c, device, scope.boardId))
    case SendBoardCommand(board, _) => BoardNamed(c, board)
    case PublishEvent(_) => true
  }

  ghost predicate RuleOk(c: CanonicalConfig, r: RuleConfig) {
    && r.ruleId != 0
    && (r.scope.BoardLocal? ==> BoardNamed(c, r.scope.boardId))
    && TriggerOk(c, r.trigger)
    && (forall k :: k in ConditionsOf(r) ==> DeviceNamed(c, k.property.deviceId))
    && DoesSomething(r.body)
    && (forall a :: a in ActionsOf(r.body) ==> ActionOk(c, r.scope, a))
  }

  ghost predicate RulesOk(c: CanonicalConfig) {
    && (forall k :: 0 <= k < |c.rules| ==> RuleOk(c, c.rules[k]))
    && DistinctRules(c)
  }

  ghost predicate WellFormed(c: CanonicalConfig) {
    && c.schemaVersion == SUPPORTED_SCHEMA_VERSION && c.houseId != 0
    && BoardsOk(c) && ControllersOk(c) && DevicesOk(c) && DependenciesOk(c) && RulesOk(c)
  }

  // -- lookups --------------------------------------------------------------------------------

  lemma {:induction false} FindBoardExact(boards: seq<BoardConfig>, id: Id)
    ensures FindBoard(boards, id).Some? <==> exists k :: 0 <= k < |boards| && boards[k].boardId == id
    ensures FindBoard(boards, id).Some? ==>
      FindBoard(boards, id).value in boards && FindBoard(boards, id).value.boardId == id
  {
    if boards != [] && boards[0].boardId != id {
      FindBoardExact(boards[1..], id);
      assert forall k :: 0 < k < |boards| ==> boards[k] == boards[1..][k - 1];
    }
  }

  lemma {:induction false} KnownExact(c: CanonicalConfig, board: Id)
    ensures Known(c, board) <==> BoardNamed(c, board)
  {
    FindBoardExact(c.boards, board);
  }

  lemma {:induction false} OwnerFound(devices: seq<DeviceConfig>, id: Id)
    ensures OwnerIn(devices, id).Some? <==> exists k :: 0 <= k < |devices| && devices[k].deviceId == id
    ensures OwnerIn(devices, id).Some? ==>
      exists k :: 0 <= k < |devices| && devices[k].deviceId == id && devices[k].ownerBoardId == OwnerIn(devices, id).value
  {
    if devices != [] && devices[0].deviceId != id {
      OwnerFound(devices[1..], id);
      assert forall k :: 0 < k < |devices| ==> devices[k] == devices[1..][k - 1];
      if OwnerIn(devices, id).Some? {
        var k :| 0 <= k < |devices[1..]| && devices[1..][k].deviceId == id
          && devices[1..][k].ownerBoardId == OwnerIn(devices, id).value;
        assert devices[k + 1] == devices[1..][k];
      }
    }
  }

  lemma {:induction false} NamedExact(c: CanonicalConfig, device: Id)
    ensures OwnerOf(c, device).Some? <==> DeviceNamed(c, device)
  {
    OwnerFound(c.devices, device);
  }

  lemma {:induction false} OwnerExact(c: CanonicalConfig, device: Id, board: Id)
    requires DistinctDevices(c)
    ensures OwnerOf(c, device) == Some(board) <==> Owned(c, device, board)
  {
    OwnerFound(c.devices, device);
  }

  // -- section by section -----------------------------------------------------------------------

  lemma {:induction false} CountIsOne(boards: seq<BoardConfig>)
    ensures Coordinators(boards) == 0 <==> forall k :: 0 <= k < |boards| ==> boards[k].role != Coordinator
    ensures Coordinators(boards) == 1 <==> exists k :: OnlyCoordinator(boards, k)
  {
    if boards != [] {
      var n := |boards| - 1;
      var rest := boards[..n];
      CountIsOne(rest);
      assert forall k :: 0 <= k < n ==> boards[k] == rest[k];
      if boards[n].role == Coordinator {
        assert Coordinators(rest) == 0 ==> OnlyCoordinator(boards, n);
      } else {
        assert forall k :: OnlyCoordinator(rest, k) <==> OnlyCoordinator(boards, k);
      }
    }
  }

  ghost predicate NoLaterBoard(c: CanonicalConfig, k: nat) {
    k < |c.boards| && forall j :: k < j < |c.boards| ==> c.boards[j].boardId != c.boards[k].boardId
  }

  lemma {:induction false} BoardsDistinct(c: CanonicalConfig)
    ensures DistinctBoards(c) <==> forall k: nat :: k < |c.boards| ==> NoLaterBoard(c, k)
  {
    if forall k: nat :: k < |c.boards| ==> NoLaterBoard(c, k) {
      forall j, k | 0 <= j < k < |c.boards| ensures c.boards[j].boardId != c.boards[k].boardId {
        assert NoLaterBoard(c, j);
      }
    }
  }

  lemma {:induction false} BoardFaultExact(c: CanonicalConfig, k: nat)
    requires k < |c.boards|
    ensures BoardFaults(c)(k).None? <==> c.boards[k].boardId != 0 && NoLaterBoard(c, k)
  {
  }

  lemma {:induction false} BoardsExact(c: CanonicalConfig)
    ensures BoardsFault(c).None? <==> BoardsOk(c)
  {
    FirstNone(BoardFaults(c), 0, |c.boards|);
    CountIsOne(c.boards);
    forall k: nat | k < |c.boards|
      ensures BoardFaults(c)(k).None? <==> c.boards[k].boardId != 0 && NoLaterBoard(c, k)
    {
      BoardFaultExact(c, k);
    }
    BoardsDistinct(c);
  }

  lemma {:induction false} ControllersExact(c: CanonicalConfig)
    ensures First(ControllerFaults(c), 0, |c.controllers|).None? <==> ControllersOk(c)
  {
    FirstNone(ControllerFaults(c), 0, |c.controllers|);
    forall k: nat | k < |c.controllers|
      ensures ControllerFaults(c)(k).None? <==> BoardNamed(c, c.controllers[k].ownerBoardId)
    {
      KnownExact(c, c.controllers[k].ownerBoardId);
    }
  }

  ghost predicate NoLaterDevice(c: CanonicalConfig, k: nat) {
    k < |c.devices| && forall j :: k < j < |c.devices| ==> c.devices[j].deviceId != c.devices[k].deviceId
  }

  lemma {:induction false} DevicesDistinct(c: CanonicalConfig)
    ensures DistinctDevices(c) <==> forall k: nat :: k < |c.devices| ==> NoLaterDevice(c, k)
  {
    if forall k: nat :: k < |c.devices| ==> NoLaterDevice(c, k) {
      forall j, k | 0 <= j < k < |c.devices| ensures c.devices[j].deviceId != c.devices[k].deviceId {
        assert NoLaterDevice(c, j);
      }
    }
  }

  lemma {:induction false} DeviceFaultExact(c: CanonicalConfig, k: nat)
    requires k < |c.devices|
    ensures DeviceFaults(c)(k).None? <==> DeviceOk(c, c.devices[k]) && NoLaterDevice(c, k)
  {
    KnownExact(c, c.devices[k].ownerBoardId);
  }

  lemma {:induction false} DevicesExact(c: CanonicalConfig)
    ensures First(DeviceFaults(c), 0, |c.devices|).None? <==> DevicesOk(c)
  {
    FirstNone(DeviceFaults(c), 0, |c.devices|);
    forall k: nat | k < |c.devices|
      ensures DeviceFaults(c)(k).None? <==> DeviceOk(c, c.devices[k]) && NoLaterDevice(c, k)
    {
      DeviceFaultExact(c, k);
    }
    DevicesDistinct(c);
  }

  lemma {:induction false} DependenciesExact(c: CanonicalConfig)
    requires DistinctDevices(c)
    ensures First(DependencyFaults(c), 0, |c.dependencies|).None? <==> DependenciesOk(c)
  {
    FirstNone(DependencyFaults(c), 0, |c.dependencies|);
    forall k: nat | k < |c.dependencies|
      ensures DependencyFaults(c)(k).None? <==> DependencyOk(c, c.dependencies[k])
    {
      var d := c.dependencies[k];
      KnownExact(c, d.ownerBoardId);
      OwnerExact(c, d.source.deviceId, d.ownerBoardId);
      OwnerExact(c, d.destination.deviceId, d.ownerBoardId);
    }
  }

  lemma {:induction false} ActionExact(c: CanonicalConfig, scope: RuleScope, a: Action)
    requires DistinctDevices(c)
    ensures ActionFault(c, scope, a).None? <==> ActionOk(c, scope, a)
  {
    match a
    case SetDevice(device, _, _) =>
      NamedExact(c, device);
      if scope.BoardLocal? { OwnerExact(c, device, scope.boardId); }
    case SendBoardCommand(board, _) => KnownExact(c, board);
    case PublishEvent(_) =>
  }

  lemma {:induction false} ActionsExact(c: CanonicalConfig, scope: RuleScope, actions: seq<Action>)
    requires DistinctDevices(c)
    ensures ActionsFault(c, scope, actions).None? <==> forall a :: a in actions ==> ActionOk(c, scope, a)
  {
    FirstNone(ActionFaults(c, scope, actions), 0, |actions|);
    forall k: nat | k < |actions|
      ensures ActionFaults(c, scope, actions)(k).None? <==> ActionOk(c, scope, actions[k])
    {
      ActionExact(c, scope, actions[k]);
    }
  }

  ghost predicate StepOk(c: CanonicalConfig, scope: RuleScope, s: Step) {
    && s.actions != []
    && (s.precondition.Some? ==> DeviceNamed(c, s.precondition.value.property.deviceId))
    && forall a :: a in s.actions ==> ActionOk(c, scope, a)
  }

  lemma {:induction false} StepExact(c: CanonicalConfig, scope: RuleScope, s: Step)
    requires DistinctDevices(c)
    ensures StepFault(c, scope, s).None? <==> StepOk(c, scope, s)
  {
    ActionsExact(c, scope, s.actions);
    if s.precondition.Some? { NamedExact(c, s.precondition.value.property.deviceId); }
  }

  lemma {:induction false} StepsExact(c: CanonicalConfig, scope: RuleScope, steps: seq<Step>)
    requires DistinctDevices(c)
    ensures First(StepFaults(c, scope, steps), 0, |steps|).None? <==> forall s :: s in steps ==> StepOk(c, scope, s)
  {
    FirstNone(StepFaults(c, scope, steps), 0, |steps|);
    forall k: nat | k < |steps|
      ensures StepFaults(c, scope, steps)(k).None? <==> StepOk(c, scope, steps[k])
    {
      StepExact(c, scope, steps[k]);
    }
  }

  lemma {:induction false} BodyExact(c: CanonicalConfig, r: RuleConfig)
    requires DistinctDevices(c)
    ensures BodyFault(c, r).None? <==>
      && DoesSomething(r.body)
      && (forall a :: a in ActionsOf(r.body) ==> ActionOk(c, r.scope, a))
      && (r.body.Steps? ==> forall s :: s in r.body.steps && s.precondition.Some? ==>
           DeviceNamed(c, s.precondition.value.property.deviceId))
  {
    match r.body
    case Act(actions) => ActionsExact(c, r.scope, actions);
    case Steps(steps) =>
      StepsExact(c, r.scope, steps);
      assert forall s, a :: s in steps && a in s.actions ==> a in ActionsOf(r.body);
  }

  lemma {:induction false} TriggerExact(c: CanonicalConfig, t: Option<Trigger>)
    ensures TriggerFault(c, t).None? <==> TriggerOk(c, t)
  {
    match t
    case Some(DeviceChanged(p)) => NamedExact(c, p.deviceId);
    case Some(BoardEvent(board, _)) => KnownExact(c, board);
    case _ =>
  }

  lemma {:induction false} ReferencesExact(c: CanonicalConfig, r: RuleConfig)
    requires DistinctDevices(c)
    ensures r.ruleId != 0 && ReferenceFault(c, r).None? <==> RuleOk(c, r)
  {
    if r.scope.BoardLocal? { KnownExact(c, r.scope.boardId); }
    TriggerExact(c, r.trigger);
    if r.condition.Some? { NamedExact(c, r.condition.value.property.deviceId); }
    BodyExact(c, r);
    ConditionsExact(c, r);
  }

  lemma {:induction false} ConditionsExact(c: CanonicalConfig, r: RuleConfig)
    ensures (forall k :: k in ConditionsOf(r) ==> DeviceNamed(c, k.property.deviceId)) <==>
      && (r.condition.Some? ==> DeviceNamed(c, r.condition.value.property.deviceId))
      && (r.body.Steps? ==> forall s :: s in r.body.steps && s.precondition.Some? ==>
           DeviceNamed(c, s.precondition.value.property.deviceId))
  {
    if r.body.Steps? {
      assert forall s :: s in r.body.steps && s.precondition.Some? ==> s.precondition.value in ConditionsOf(r);
    }
    assert r.condition.Some? ==> r.condition.value in ConditionsOf(r);
  }

  ghost predicate NoLaterRule(c: CanonicalConfig, k: nat) {
    k < |c.rules| && forall j :: k < j < |c.rules| ==> c.rules[j].ruleId != c.rules[k].ruleId
  }

  lemma {:induction false} RulesDistinct(c: CanonicalConfig)
    ensures DistinctRules(c) <==> forall k: nat :: k < |c.rules| ==> NoLaterRule(c, k)
  {
    if forall k: nat :: k < |c.rules| ==> NoLaterRule(c, k) {
      forall j, k | 0 <= j < k < |c.rules| ensures c.rules[j].ruleId != c.rules[k].ruleId {
        assert NoLaterRule(c, j);
      }
    }
  }

  lemma {:induction false} RuleFaultExact(c: CanonicalConfig, k: nat)
    requires k < |c.rules| && DistinctDevices(c)
    ensures RuleFaults(c)(k).None? <==> RuleOk(c, c.rules[k]) && NoLaterRule(c, k)
  {
    ReferencesExact(c, c.rules[k]);
  }

  lemma {:induction false} RulesExact(c: CanonicalConfig)
    requires DistinctDevices(c)
    ensures First(RuleFaults(c), 0, |c.rules|).None? <==> RulesOk(c)
  {
    FirstNone(RuleFaults(c), 0, |c.rules|);
    forall k: nat | k < |c.rules|
      ensures RuleFaults(c)(k).None? <==> RuleOk(c, c.rules[k]) && NoLaterRule(c, k)
    {
      RuleFaultExact(c, k);
    }
    RulesDistinct(c);
  }

  /** Validation succeeds on exactly the well-formed configurations. */
  lemma {:induction false} ValidationExact(c: CanonicalConfig)
    ensures Fault(c).None? <==> WellFormed(c)
  {
    BoardsExact(c);
    ControllersExact(c);
    DevicesExact(c);
    if DevicesOk(c) {
      DependenciesExact(c);
      RulesExact(c);
    }
  }
}
