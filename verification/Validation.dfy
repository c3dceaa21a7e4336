/** Validation of a house configuration (crates/smartbox-config/src/compiler.rs, the validate functions). */
module Validation {
  import opened Basics
  import opened ConfigSchema

  /** The first fault found among positions i to n. */
  function First<E>(fault: nat -> Option<E>, i: nat, n: nat): Option<E>
    requires i <= n
    decreases n - i
  {
    if i == n then None else if fault(i).Some? then fault(i) else First(fault, i + 1, n)
  }

  lemma {:induction false} FirstNone<E>(fault: nat -> Option<E>, i: nat, n: nat)
    requires i <= n
    ensures First(fault, i, n).None? <==> forall k :: i <= k < n ==> fault(k).None?
    decreases n - i
  {
    if i < n { FirstNone(fault, i + 1, n); }
  }

  function OrElse<E>(a: Option<E>, b: Option<E>): Option<E> {
    if a.Some? then a else b
  }

  function Unless<E>(ok: bool, error: E): Option<E> {
    if ok then None else Some(error)
  }

  // -- lookups --------------------------------------------------------------------------------

  function FindBoard(boards: seq<BoardConfig>, id: Id): Option<BoardConfig> {
    if boards == [] then None
    else if boards[0].boardId == id then Some(boards[0])
    else FindBoard(boards[1..], id)
  }

  function OwnerIn(devices: seq<DeviceConfig>, id: Id): Option<Id> {
    if devices == [] then None
    else if devices[0].deviceId == id then Some(devices[0].ownerBoardId)
    else OwnerIn(devices[1..], id)
  }

  predicate Known(c: CanonicalConfig, board: Id) {
    FindBoard(c.boards, board).Some?
  }

  function OwnerOf(c: CanonicalConfig, device: Id): Option<Id> {
    OwnerIn(c.devices, device)
  }

  // -- the faults of each item ----------------------------------------------------------------

  function BoardFaults(c: CanonicalConfig): nat -> Option<CompileError> {
    (k: nat) => if k >= |c.boards| then None else
      OrElse(Unless(c.boards[k].boardId != 0, EmptyBoardId),
             Unless(forall j :: k < j < |c.boards| ==> c.boards[j].boardId != c.boards[k].boardId,
                    DuplicateBoardId(c.boards[k].boardId)))
  }

  /** A later board has the same id. */
  predicate Repeats(c: CanonicalConfig, k: nat)
    requires k < |c.boards|
  {
    exists j :: k < j < |c.boards| && c.boards[j].boardId == c.boards[k].boardId
  }

  lemma {:induction false} BoardFaultAt(c: CanonicalConfig, k: nat)
    requires k < |c.boards|
    ensures BoardFaults(c)(k) ==
      if c.boards[k].boardId == 0 then Some(EmptyBoardId)
      else if Repeats(c, k) then Some(DuplicateBoardId(c.boards[k].boardId)) else None
    ensures First(BoardFaults(c), k, |c.boards|) ==
      if BoardFaults(c)(k).Some? then BoardFaults(c)(k) else First(BoardFaults(c), k + 1, |c.boards|)
  {
  }

  function Coordinators(boards: seq<BoardConfig>): nat {
    if boards == [] then 0
    else Coordinators(boards[..|boards| - 1]) + if boards[|boards| - 1].role == Coordinator then 1 else 0
  }

  function CountFault(n: nat): Option<CompileError> {
    if n == 0 then Some(MissingCoordinator) else if n == 1 then None else Some(MultipleCoordinators)
  }

  function BoardsFault(c: CanonicalConfig): Option<CompileError> {
    OrElse(First(BoardFaults(c), 0, |c.boards|), CountFault(Coordinators(c.boards)))
  }

  function ControllerFaults(c: CanonicalConfig): nat -> Option<CompileError> {
    (k: nat) => if k >= |c.controllers| then None else
      Unless(Known(c, c.controllers[k].ownerBoardId), ControllerBoardMissing(c.controllers[k].ownerBoardId))
  }

  predicate HasController(c: CanonicalConfig, controller: byte, board: Id) {
    exists j :: 0 <= j < |c.controllers| && c.controllers[j].controllerId == controller && c.controllers[j].ownerBoardId == board
  }

  function DeviceFaults(c: CanonicalConfig): nat -> Option<CompileError> {
    (k: nat) => if k >= |c.devices| then None else
      var d := c.devices[k];
      OrElse(OrElse(Unless(d.deviceId != 0, EmptyDeviceId),
                    Unless(forall j :: k < j < |c.devices| ==> c.devices[j].deviceId != d.deviceId, DuplicateDeviceId(d.deviceId))),
             OrElse(Unless(Known(c, d.ownerBoardId), DeviceBoardMissing(d.ownerBoardId)),
                    Unless(d.port.Some? ==> HasController(c, d.port.value.controllerId, d.ownerBoardId), DeviceControllerMissing)))
  }

  function DependencyFaults(c: CanonicalConfig): nat -> Option<CompileError> {
    (k: nat) => if k >= |c.dependencies| then None else
      var d := c.dependencies[k];
      OrElse(OrElse(Unless(Known(c, d.ownerBoardId), DependencyBoardMissing(d.ownerBoardId)),
                    DeviceFault(c, d.source.deviceId)),
             OrElse(DeviceFault(c, d.destination.deviceId),
                    Unless(OwnerOf(c, d.source.deviceId) == OwnerOf(c, d.destination.deviceId) == Some(d.ownerBoardId),
                           DependencyCrossesBoards)))
  }

  function DeviceFault(c: CanonicalConfig, device: Id): Option<CompileError> {
    Unless(OwnerOf(c, device).Some?, UnknownDevice(device))
  }

  function TriggerFault(c: CanonicalConfig, t: Option<Trigger>): Option<CompileError> {
    match t
    case Some(DeviceChanged(p)) => DeviceFault(c, p.deviceId)
    case Some(BoardEvent(board, _)) => Unless(Known(c, board), MissingBoard(board))
    case _ => None
  }

  function ConditionFault(c: CanonicalConfig, condition: Option<Condition>): Option<CompileError> {
    match condition
    case Some(cond) => DeviceFault(c, cond.property.deviceId)
    case None => None
  }

  function ActionFault(c: CanonicalConfig, scope: RuleScope, a: Action): Option<CompileError> {
    match a
    case SetDevice(device, _, _) =>
      OrElse(DeviceFault(c, device),
             if scope.BoardLocal?
             then Unless(OwnerOf(c, device) == Some(scope.boardId), BoardLocalRuleTargetsRemoteDevice(scope.boardId, device))
             else None)
    case SendBoardCommand(board, _) => Unless(Known(c, board), MissingBoard(board))
    case PublishEvent(_) => None
  }

  function ActionFaults(c: CanonicalConfig, scope: RuleScope, actions: seq<Action>): nat -> Option<CompileError> {
    (k: nat) => if k >= |actions| then None else ActionFault(c, scope, actions[k])
  }

  function ActionsFault(c: CanonicalConfig, scope: RuleScope, actions: seq<Action>): Option<CompileError> {
    First(ActionFaults(c, scope, actions), 0, |actions|)
  }

  function StepFault(c: CanonicalConfig, scope: RuleScope, step: Step): Option<CompileError> {
    OrElse(OrElse(Unless(step.actions != [], EmptyRuleBody), ConditionFault(c, step.precondition)),
           ActionsFault(c, scope, step.actions))
  }

  function StepFaults(c: CanonicalConfig, scope: RuleScope, steps: seq<Step>): nat -> Option<CompileError> {
    (k: nat) => if k >= |steps| then None else StepFault(c, scope, steps[k])
  }

  function BodyFault(c: CanonicalConfig, rule: RuleConfig): Option<CompileError> {
    match rule.body
    case Act(actions) => OrElse(Unless(actions != [], EmptyRuleBody), ActionsFault(c, rule.scope, actions))
    case Steps(steps) => OrElse(Unless(steps != [], EmptyRuleBody), First(StepFaults(c, rule.scope, steps), 0, |steps|))
  }

  function RuleFaults(c: CanonicalConfig): nat -> Option<CompileError> {
    (k: nat) => if k >= |c.rules| then None else
      var r := c.rules[k];
      OrElse(OrElse(Unless(r.ruleId != 0, EmptyRuleId),
                    Unless(forall j :: k < j < |c.rules| ==> c.rules[j].ruleId != r.ruleId, DuplicateRuleId(r.ruleId))),
             ReferenceFault(c, r))
  }

  function ReferenceFault(c: CanonicalConfig, r: RuleConfig): Option<CompileError> {
    OrElse(OrElse(Unless(r.scope.BoardLocal? ==> Known(c, r.scope.boardId),
                         RuleScopeBoardMissing(if r.scope.BoardLocal? then r.scope.boardId else 0)),
                  TriggerFault(c, r.trigger)),
           OrElse(ConditionFault(c, r.condition), BodyFault(c, r)))
  }

  /** The first fault of a configuration, in the order the source looks for them. */
  function Fault(c: CanonicalConfig): Option<CompileError> {
    if c.schemaVersion != SUPPORTED_SCHEMA_VERSION
    then Some(UnsupportedSchemaVersion(c.schemaVersion, SUPPORTED_SCHEMA_VERSION))
    else OrElse(Unless(c.houseId != 0, EmptyHouseId), PartsFault(c))
  }

  function PartsFault(c: CanonicalConfig): Option<CompileError> {
    OrElse(OrElse(BoardsFault(c), First(ControllerFaults(c), 0, |c.controllers|)),
           OrElse(OrElse(First(DeviceFaults(c), 0, |c.devices|), First(DependencyFaults(c), 0, |c.dependencies|)),
                  First(RuleFaults(c), 0, |c.rules|)))
  }

  // -- the loops ------------------------------------------------------------------------------

  method ValidateConfig(c: CanonicalConfig) returns (r: Option<CompileError>)
    ensures r == Fault(c)
  {
    if c.schemaVersion != SUPPORTED_SCHEMA_VERSION {
      return Some(UnsupportedSchemaVersion(c.schemaVersion, SUPPORTED_SCHEMA_VERSION));
    }
    if c.houseId == 0 { return Some(EmptyHouseId); }
    r := ValidateBoards(c);
    if r.Some? { return; }
    r := ValidateControllers(c);
    if r.Some? { return; }
    r := ValidateDevices(c);
    if r.Some? { return; }
    r := ValidateDependencies(c);
    if r.Some? { return; }
    r := ValidateRules(c);
  }

  method ValidateBoards(c: CanonicalConfig) returns (r: Option<CompileError>)
    ensures r == BoardsFault(c)
  {
    var coordinators := 0;
    for i := 0 to |c.boards|
      invariant First(BoardFaults(c), 0, |c.boards|) == First(BoardFaults(c), i, |c.boards|)
      invariant coordinators == Coordinators(c.boards[..i])
    {
      var board := c.boards[i];
      BoardFaultAt(c, i);
      if board.boardId == 0 { return Some(EmptyBoardId); }
      if Repeats(c, i) { return Some(DuplicateBoardId(board.boardId)); }
      assert c.boards[..i + 1][..i] == c.boards[..i];
      if board.role == Coordinator { coordinators := coordinators + 1; }
    }
    assert c.boards[..|c.boards|] == c.boards;
    r := CountFault(coordinators);
  }

  method ValidateControllers(c: CanonicalConfig) returns (r: Option<CompileError>)
    ensures r == First(ControllerFaults(c), 0, |c.controllers|)
  {
    for i := 0 to |c.controllers|
      invariant First(ControllerFaults(c), 0, |c.controllers|) == First(ControllerFaults(c), i, |c.controllers|)
    {
      if FindBoard(c.boards, c.controllers[i].ownerBoardId).None? {
        return Some(ControllerBoardMissing(c.controllers[i].ownerBoardId));
      }
    }
    r := None;
  }

  method ValidateDevices(c: CanonicalConfig) returns (r: Option<CompileError>)
    ensures r == First(DeviceFaults(c), 0, |c.devices|)
  {
    for i := 0 to |c.devices|
      invariant First(DeviceFaults(c), 0, |c.devices|) == First(DeviceFaults(c), i, |c.devices|)
    {
      var device := c.devices[i];
      if device.deviceId == 0 { return Some(EmptyDeviceId); }
      if exists j :: i < j < |c.devices| && c.devices[j].deviceId == device.deviceId {
        return Some(DuplicateDeviceId(device.deviceId));
      }
      if FindBoard(c.boards, device.ownerBoardId).None? { return Some(DeviceBoardMissing(device.ownerBoardId)); }
      if device.port.Some? && forall j :: 0 <= j < |c.controllers| ==>
          c.controllers[j].controllerId != device.port.value.controllerId || c.controllers[j].ownerBoardId != device.ownerBoardId {
        return Some(DeviceControllerMissing);
      }
    }
    r := None;
  }

  method ValidateDependencies(c: CanonicalConfig) returns (r: Option<CompileError>)
    ensures r == First(DependencyFaults(c), 0, |c.dependencies|)
  {
    for i := 0 to |c.dependencies|
      invariant First(DependencyFaults(c), 0, |c.dependencies|) == First(DependencyFaults(c), i, |c.dependencies|)
    {
      var d := c.dependencies[i];
      if FindBoard(c.boards, d.ownerBoardId).None? { return Some(DependencyBoardMissing(d.ownerBoardId)); }
      var source := OwnerOf(c, d.source.deviceId);
      if source.None? { return Some(UnknownDevice(d.source.deviceId)); }
      var destination := OwnerOf(c, d.destination.deviceId);
      if destination.None? { return Some(UnknownDevice(d.destination.deviceId)); }
      if source.value != d.ownerBoardId || destination.value != d.ownerBoardId { return Some(DependencyCrossesBoards); }
    }
    r := None;
  }

  method ValidateRules(c: CanonicalConfig) returns (r: Option<CompileError>)
    ensures r == First(RuleFaults(c), 0, |c.rules|)
  {
    for i := 0 to |c.rules|
      invariant First(RuleFaults(c), 0, |c.rules|) == First(RuleFaults(c), i, |c.rules|)
    {
      var rule := c.rules[i];
      if rule.ruleId == 0 { return Some(EmptyRuleId); }
      if exists j :: i < j < |c.rules| && c.rules[j].ruleId == rule.ruleId { return Some(DuplicateRuleId(rule.ruleId)); }
      r := ValidateReferences(c, rule);
      if r.Some? { return; }
    }
    r := None;
  }

  method ValidateReferences(c: CanonicalConfig, rule: RuleConfig) returns (r: Option<CompileError>)
    ensures r == ReferenceFault(c, rule)
  {
    if rule.scope.BoardLocal? && FindBoard(c.boards, rule.scope.boardId).None? {
      return Some(RuleScopeBoardMissing(rule.scope.boardId));
    }
    r := TriggerFault(c, rule.trigger);
    if r.Some? { return; }
    r := ConditionFault(c, rule.condition);
    if r.Some? { return; }
    r := ValidateRuleBody(c, rule);
  }

  method ValidateRuleBody(c: CanonicalConfig, rule: RuleConfig) returns (r: Option<CompileError>)
    ensures r == BodyFault(c, rule)
  {
    match rule.body
    case Act(actions) =>
      if actions == [] { return Some(EmptyRuleBody); }
      r := ValidateActions(c, rule.scope, actions);
    case Steps(steps) =>
      if steps == [] { return Some(EmptyRuleBody); }
      for i := 0 to |steps|
        invariant First(StepFaults(c, rule.scope, steps), 0, |steps|) == First(StepFaults(c, rule.scope, steps), i, |steps|)
      {
        if steps[i].actions == [] { return Some(EmptyRuleBody); }
        r := ConditionFault(c, steps[i].precondition);
        if r.Some? { return; }
        r := ValidateActions(c, rule.scope, steps[i].actions);
        if r.Some? { return; }
      }
      r := None;
  }

  method ValidateActions(c: CanonicalConfig, scope: RuleScope, actions: seq<Action>) returns (r: Option<CompileError>)
    ensures r == ActionsFault(c, scope, actions)
  {
    for i := 0 to |actions|
      invariant ActionsFault(c, scope, actions) == First(ActionFaults(c, scope, actions), i, |actions|)
    {
      match actions[i]
      case SetDevice(device, _, _) =>
        var owner := OwnerOf(c, device);
        if owner.None? { return Some(UnknownDevice(device)); }
        if scope.BoardLocal? && owner.value != scope.boardId {
          return Some(BoardLocalRuleTargetsRemoteDevice(scope.boardId, device));
        }
      case SendBoardCommand(board, _) =>
        if FindBoard(c.boards, board).None? { return Some(MissingBoard(board)); }
      case PublishEvent(_) =>
    }
    r := None;
  }
}
