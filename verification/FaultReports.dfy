/** Every error validation reports names a defect the configuration has. */
module FaultReports {
  import opened Basics
  import opened ConfigSchema
  import opened Validation
  import opened WellFormedness

  /** What each error says about the configuration. */
  ghost predicate Describes(c: CanonicalConfig, e: CompileError) {
    match e
    case UnsupportedSchemaVersion(found, supported) => found == c.schemaVersion && supported == 1 && found != supported
    case EmptyHouseId => c.houseId == 0
    case EmptyBoardId => BoardNamed(c, 0)
    case DuplicateBoardId(b) => exists k :: 0 <= k < |c.boards| && c.boards[k].boardId == b && !NoLaterBoard(c, k)
    case MissingCoordinator => forall k :: 0 <= k < |c.boards| ==> c.boards[k].role != Coordinator
    case MultipleCoordinators =>
      exists j, k :: 0 <= j < k < |c.boards| && c.boards[j].role == Coordinator && c.boards[k].role == Coordinator
    case ControllerBoardMissing(b) =>
      !BoardNamed(c, b) && exists k :: 0 <= k < |c.controllers| && c.controllers[k].ownerBoardId == b
    case EmptyDeviceId => DeviceNamed(c, 0)
    case DuplicateDeviceId(d) => exists k :: 0 <= k < |c.devices| && c.devices[k].deviceId == d && !NoLaterDevice(c, k)
    case DeviceBoardMissing(b) => !BoardNamed(c, b) && exists k :: 0 <= k < |c.devices| && c.devices[k].ownerBoardId == b
    case DeviceControllerMissing => exists k :: 0 <= k < |c.devices| && PortDangles(c, c.devices[k])
    case DependencyBoardMissing(b) =>
      !BoardNamed(c, b) && exists k :: 0 <= k < |c.dependencies| && c.dependencies[k].ownerBoardId == b
    case DependencyCrossesBoards => exists k :: 0 <= k < |c.dependencies| && Crosses(c, c.dependencies[k])
    case EmptyRuleId => exists k :: 0 <= k < |c.rules| && c.rules[k].ruleId == 0
    case DuplicateRuleId(r) => exists k :: 0 <= k < |c.rules| && c.rules[k].ruleId == r && !NoLaterRule(c, k)
    case UnknownDevice(_) => Blames(c, e)
    case MissingBoard(_) => Blames(c, e)
    case RuleScopeBoardMissing(_) => Blames(c, e)
    case BoardLocalRuleTargetsRemoteDevice(_, _) => Blames(c, e)
    case EmptyRuleBody => Blames(c, e)
    case MissingTargetBoard(_) => false
    case CapacityExceeded => false
  }

  ghost predicate PortDangles(c: CanonicalConfig, d: DeviceConfig) {
    d.port.Some? && !HasController(c, d.port.value.controllerId, d.ownerBoardId)
  }

  ghost predicate Crosses(c: CanonicalConfig, d: Dependency) {
    && DeviceNamed(c, d.source.deviceId) && DeviceNamed(c, d.destination.deviceId)
    && !(Owned(c, d.source.deviceId, d.ownerBoardId) && Owned(c, d.destination.deviceId, d.ownerBoardId))
  }

  /** Some rule, or some dependency for an unknown device, is what the error is about. */
  ghost predicate Blames(c: CanonicalConfig, e: CompileError) {
    || (exists k :: 0 <= k < |c.rules| && RuleBlamed(c, c.rules[k], e))
    || (e.UnknownDevice? && !DeviceNamed(c, e.deviceId)
        && exists k :: 0 <= k < |c.dependencies|
             && e.deviceId in {c.dependencies[k].source.deviceId, c.dependencies[k].destination.deviceId})
  }

  ghost predicate RuleBlamed(c: CanonicalConfig, r: RuleConfig, e: CompileError) {
    match e
    case UnknownDevice(d) => !DeviceNamed(c, d) && d in DevicesNamedBy(r)
    case MissingBoard(b) => !BoardNamed(c, b) && b in BoardsNamedBy(r)
    case RuleScopeBoardMissing(b) => r.scope == BoardLocal(b) && !BoardNamed(c, b)
    case BoardLocalRuleTargetsRemoteDevice(b, d) =>
      && r.scope == BoardLocal(b) && DeviceNamed(c, d) && !Owned(c, d, b)
      && exists a :: a in ActionsOf(r.body) && a.SetDevice? && a.deviceId == d
    case EmptyRuleBody => !DoesSomething(r.body)
    case _ => false
  }

  ghost function BoardsNamedBy(r: RuleConfig): set<Id> {
    (if r.trigger.Some? && r.trigger.value.BoardEvent? then {r.trigger.value.boardId} else {})
    + (set a | a in ActionsOf(r.body) && a.SendBoardCommand? :: a.boardId)
  }

  // -- proofs -----------------------------------------------------------------------------------

  lemma {:induction false} FirstFound<E>(fault: nat -> Option<E>, i: nat, n: nat) returns (k: nat)
    requires i <= n && First(fault, i, n).Some?
    ensures i <= k < n && fault(k) == First(fault, i, n)
    decreases n - i
  {
    if fault(i).Some? { k := i; } else { k := FirstFound(fault, i + 1, n); }
  }

  lemma {:induction false} BoardsDescribed(c: CanonicalConfig)
    requires BoardsFault(c).Some?
    ensures Describes(c, BoardsFault(c).value)
  {
    if First(BoardFaults(c), 0, |c.boards|).Some? {
      var k := FirstFound(BoardFaults(c), 0, |c.boards|);
      BoardFaultAt(c, k);
      assert c.boards[k].boardId == 0 || !NoLaterBoard(c, k);
    } else {
      CountIsOne(c.boards);
      if Coordinators(c.boards) > 1 { var j, k := TwoCoordinators(c.boards); }
    }
  }

  lemma {:induction false} TwoCoordinators(boards: seq<BoardConfig>) returns (j: nat, k: nat)
    requires Coordinators(boards) > 1
    ensures j < k < |boards| && boards[j].role == Coordinator && boards[k].role == Coordinator
  {
    var n := |boards| - 1;
    var rest := boards[..n];
    if Coordinators(rest) > 1 {
      j, k := TwoCoordinators(rest);
    } else {
      CountIsOne(rest);
      var m :| OnlyCoordinator(rest, m);
      j, k := m, n;
    }
  }

  lemma {:induction false} ControllersDescribed(c: CanonicalConfig)
    requires First(ControllerFaults(c), 0, |c.controllers|).Some?
    ensures Describes(c, First(ControllerFaults(c), 0, |c.controllers|).value)
  {
    var k := FirstFound(ControllerFaults(c), 0, |c.controllers|);
    KnownExact(c, c.controllers[k].ownerBoardId);
  }

  lemma {:induction false} DevicesDescribed(c: CanonicalConfig)
    requires First(DeviceFaults(c), 0, |c.devices|).Some?
    ensures Describes(c, First(DeviceFaults(c), 0, |c.devices|).value)
  {
    var k := FirstFound(DeviceFaults(c), 0, |c.devices|);
    DeviceDescribed(c, k);
  }

  lemma {:induction false} DeviceDescribed(c: CanonicalConfig, k: nat)
    requires k < |c.devices| && DeviceFaults(c)(k).Some?
    ensures Describes(c, DeviceFaults(c)(k).value)
  {
    var d := c.devices[k];
    KnownExact(c, d.ownerBoardId);
    if d.deviceId == 0 {
      assert DeviceFaults(c)(k) == Some(EmptyDeviceId);
    } else if !NoLaterDevice(c, k) {
      assert DeviceFaults(c)(k) == Some(DuplicateDeviceId(d.deviceId));
    } else if !Known(c, d.ownerBoardId) {
      assert DeviceFaults(c)(k) == Some(DeviceBoardMissing(d.ownerBoardId));
    } else {
      assert DeviceFaults(c)(k) == Some(DeviceControllerMissing) && PortDangles(c, d);
    }
  }

  lemma {:induction false} DependenciesDescribed(c: CanonicalConfig)
    requires DistinctDevices(c) && First(DependencyFaults(c), 0, |c.dependencies|).Some?
    ensures Describes(c, First(DependencyFaults(c), 0, |c.dependencies|).value)
  {
    var k := FirstFound(DependencyFaults(c), 0, |c.dependencies|);
    var d := c.dependencies[k];
    KnownExact(c, d.ownerBoardId);
    NamedExact(c, d.source.deviceId);
    NamedExact(c, d.destination.deviceId);
    OwnerExact(c, d.source.deviceId, d.ownerBoardId);
    OwnerExact(c, d.destination.deviceId, d.ownerBoardId);
    var e := DependencyFaults(c)(k).value;
    if e.DependencyCrossesBoards? {
      assert Crosses(c, d);
    } else if e.UnknownDevice? {
      assert e.deviceId in {d.source.deviceId, d.destination.deviceId};
    }
  }

  /** A faulty action is one of the rule's actions and earns its error. */
  lemma {:induction false} ActionsBlamed(c: CanonicalConfig, r: RuleConfig, actions: seq<Action>)
    requires DistinctDevices(c) && ActionsFault(c, r.scope, actions).Some?
    requires forall a :: a in actions ==> a in ActionsOf(r.body)
    ensures RuleBlamed(c, r, ActionsFault(c, r.scope, actions).value)
  {
    var k := FirstFound(ActionFaults(c, r.scope, actions), 0, |actions|);
    var a := actions[k];
    match a
    case SetDevice(device, _, _) =>
      NamedExact(c, device);
      if r.scope.BoardLocal? { OwnerExact(c, device, r.scope.boardId); }
    case SendBoardCommand(board, _) => KnownExact(c, board);
    case PublishEvent(_) =>
  }

  lemma {:induction false} ConditionBlamed(c: CanonicalConfig, r: RuleConfig, condition: Option<Condition>)
    requires ConditionFault(c, condition).Some? && condition.Some? && condition.value in ConditionsOf(r)
    ensures RuleBlamed(c, r, ConditionFault(c, condition).value)
  {
    NamedExact(c, condition.value.property.deviceId);
  }

  lemma {:induction false} BodyBlamed(c: CanonicalConfig, r: RuleConfig)
    requires DistinctDevices(c) && BodyFault(c, r).Some?
    ensures RuleBlamed(c, r, BodyFault(c, r).value)
  {
    match r.body
    case Act(actions) =>
      if actions != [] { ActionsBlamed(c, r, actions); }
    case Steps(steps) =>
      if steps != [] {
        var k := FirstFound(StepFaults(c, r.scope, steps), 0, |steps|);
        var s := steps[k];
        assert s in steps;
        if s.actions != [] && ConditionFault(c, s.precondition).Some? {
          ConditionBlamed(c, r, s.precondition);
        } else if s.actions != [] {
          ActionsBlamed(c, r, s.actions);
        }
      }
  }

  lemma {:induction false} ReferenceBlamed(c: CanonicalConfig, r: RuleConfig)
    requires DistinctDevices(c) && ReferenceFault(c, r).Some?
    ensures RuleBlamed(c, r, ReferenceFault(c, r).value)
  {
    if r.scope.BoardLocal? { KnownExact(c, r.scope.boardId); }
    if r.scope.BoardLocal? && !Known(c, r.scope.boardId) {
    } else if TriggerFault(c, r.trigger).Some? {
      match r.trigger.value
      case DeviceChanged(p) => NamedExact(c, p.deviceId);
      case BoardEvent(board, _) => KnownExact(c, board);
    } else if ConditionFault(c, r.condition).Some? {
      ConditionBlamed(c, r, r.condition);
    } else {
      BodyBlamed(c, r);
    }
  }

  lemma {:induction false} RulesDescribed(c: CanonicalConfig)
    requires DistinctDevices(c) && First(RuleFaults(c), 0, |c.rules|).Some?
    ensures Describes(c, First(RuleFaults(c), 0, |c.rules|).value)
  {
    var k := FirstFound(RuleFaults(c), 0, |c.rules|);
    var r := c.rules[k];
    if r.ruleId == 0 {
      assert RuleFaults(c)(k) == Some(EmptyRuleId);
    } else if !NoLaterRule(c, k) {
      assert RuleFaults(c)(k) == Some(DuplicateRuleId(r.ruleId));
    } else {
      assert RuleFaults(c)(k) == ReferenceFault(c, r);
      ReferenceBlamed(c, r);
      BlamedDescribes(c, k, ReferenceFault(c, r).value);
    }
  }

  lemma {:induction false} BlamedDescribes(c: CanonicalConfig, k: nat, e: CompileError)
    requires k < |c.rules| && RuleBlamed(c, c.rules[k], e)
    ensures Describes(c, e)
  {
    assert Blames(c, e);
  }

  /** Whatever validation reports is true of the configuration. */
  lemma {:induction false} ReportsAreTrue(c: CanonicalConfig)
    requires Fault(c).Some?
    ensures Describes(c, Fault(c).value)
  {
    if c.schemaVersion == SUPPORTED_SCHEMA_VERSION && c.houseId != 0 {
      if BoardsFault(c).Some? {
        BoardsDescribed(c);
      } else if First(ControllerFaults(c), 0, |c.controllers|).Some? {
        ControllersDescribed(c);
      } else if First(DeviceFaults(c), 0, |c.devices|).Some? {
        DevicesDescribed(c);
      } else {
        DevicesExact(c);
        if First(DependencyFaults(c), 0, |c.dependencies|).Some? { DependenciesDescribed(c); } else { RulesDescribed(c); }
      }
    }
  }
}
