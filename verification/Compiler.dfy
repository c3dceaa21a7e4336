/** Compiling a house configuration for one board (crates/smartbox-config/src/compiler.rs, `compile_config`). */
module Compiler {
  import opened Basics
  import opened ConfigSchema
  import opened Validation
  import opened WellFormedness
  import opened FaultReports

  function Filter<T>(keep: T -> bool, s: seq<T>): seq<T>
    decreases |s|
  {
    if s == [] then [] else
    var n := |s| - 1;
    Filter(keep, s[..n]) + if keep(s[n]) then [s[n]] else []
  }

  function ControllersOf(board: Id): ControllerConfig -> bool {
    (x: ControllerConfig) => x.ownerBoardId == board
  }

  function DevicesOf(board: Id): DeviceConfig -> bool {
    (x: DeviceConfig) => x.ownerBoardId == board
  }

  function DependenciesOf(board: Id): Dependency -> bool {
    (x: Dependency) => x.ownerBoardId == board
  }

  function RulesFor(board: BoardConfig): RuleConfig -> bool {
    (x: RuleConfig) =>
      match x.scope
      case BoardLocal(id) => id == board.boardId
      case HouseLevel => board.role == Coordinator
  }

  function Topology(devices: seq<DeviceConfig>): (t: seq<TopologyEntry>)
    ensures |t| == |devices|
    ensures forall i :: 0 <= i < |t| ==> t[i] == TopologyEntry(devices[i].deviceId, devices[i].ownerBoardId)
  {
    seq(|devices|, i requires 0 <= i < |devices| => TopologyEntry(devices[i].deviceId, devices[i].ownerBoardId))
  }

  function Output(c: CanonicalConfig, board: BoardConfig): CompiledConfig {
    CompiledConfig(
      c.configVersion, board,
      Filter(ControllersOf(board.boardId), c.controllers),
      Filter(DevicesOf(board.boardId), c.devices),
      Filter(DependenciesOf(board.boardId), c.dependencies),
      Filter(RulesFor(board), c.rules),
      Topology(c.devices))
  }

  predicate WithinCapacity(o: CompiledConfig, cap: Capacity) {
    && |o.controllers| <= cap.controllers && |o.devices| <= cap.devices && |o.dependencies| <= cap.dependencies
    && |o.rules| <= cap.rules && |o.topology| <= cap.devices
  }

  function Compile(c: CanonicalConfig, cap: Capacity, target: Id): Result<CompiledConfig, CompileError> {
    if Fault(c).Some? then Err(Fault(c).value)
    else match FindBoard(c.boards, target)
      case None => Err(MissingTargetBoard(target))
      case Some(board) =>
        if WithinCapacity(Output(c, board), cap) then Ok(Output(c, board)) else Err(CapacityExceeded)
  }

  // -- the loops ------------------------------------------------------------------------------

  /** Pushes the kept items into a vector of fixed capacity. */
  method PushKept<T>(keep: T -> bool, s: seq<T>, capacity: nat) returns (r: Option<seq<T>>)
    ensures r == if |Filter(keep, s)| <= capacity then Some(Filter(keep, s)) else None
  {
    var out: seq<T> := [];
    assert s[..0] == [];
    for i := 0 to |s|
      invariant out == Filter(keep, s[..i]) && |out| <= capacity
    {
      assert s[..i + 1][..i] == s[..i];
      if keep(s[i]) {
        if |out| == capacity {
          FilterGrows(keep, s, i + 1);
          return None;
        }
        out := out + [s[i]];
      }
    }
    assert s[..|s|] == s;
    r := Some(out);
  }

  lemma {:induction false} FilterGrows<T>(keep: T -> bool, s: seq<T>, i: nat)
    requires i <= |s|
    ensures |Filter(keep, s[..i])| <= |Filter(keep, s)| <= |s|
    decreases |s|
  {
    if s != [] && i == |s| {
      FilterGrows(keep, s[..i - 1], i - 1);
      assert s[..i] == s;
    } else if s != [] {
      FilterGrows(keep, s[..|s| - 1], i);
      assert s[..|s| - 1][..i] == s[..i];
    }
  }

  method PushTopology(devices: seq<DeviceConfig>, capacity: nat) returns (r: Option<seq<TopologyEntry>>)
    ensures r == if |devices| <= capacity then Some(Topology(devices)) else None
  {
    var out: seq<TopologyEntry> := [];
    for i := 0 to |devices|
      invariant out == Topology(devices)[..i] && |out| <= capacity
    {
      if |out| == capacity { return None; }
      out := out + [TopologyEntry(devices[i].deviceId, devices[i].ownerBoardId)];
    }
    assert Topology(devices)[..|devices|] == Topology(devices);
    r := Some(out);
  }

  method CompileConfig(c: CanonicalConfig, cap: Capacity, target: Id) returns (r: Result<CompiledConfig, CompileError>)
    ensures r == Compile(c, cap, target)
  {
    var fault := ValidateConfig(c);
    if fault.Some? { return Err(fault.value); }
    var board := FindBoard(c.boards, target);
    if board.None? { return Err(MissingTargetBoard(target)); }
    FindBoardExact(c.boards, target);
    var controllers := PushKept(ControllersOf(target), c.controllers, cap.controllers);
    if controllers.None? { return Err(CapacityExceeded); }
    var devices := PushKept(DevicesOf(target), c.devices, cap.devices);
    if devices.None? { return Err(CapacityExceeded); }
    var dependencies := PushKept(DependenciesOf(target), c.dependencies, cap.dependencies);
    if dependencies.None? { return Err(CapacityExceeded); }
    var rules := PushKept(RulesFor(board.value), c.rules, cap.rules);
    if rules.None? { return Err(CapacityExceeded); }
    var topology := PushTopology(c.devices, cap.devices);
    if topology.None? { return Err(CapacityExceeded); }
    r := Ok(CompiledConfig(c.configVersion, board.value, controllers.value, devices.value, dependencies.value,
                           rules.value, topology.value));
  }

  // -- outcomes -------------------------------------------------------------------------------

  /** Compilation succeeds exactly on well-formed configurations and configured boards; vectors never overflow. */
  lemma {:induction false} CompileSucceeds(c: CanonicalConfig, cap: Capacity, target: Id)
    requires FitsIn(c, cap)
    ensures Compile(c, cap, target) != Err(CapacityExceeded)
    ensures Compile(c, cap, target).Ok? <==> WellFormed(c) && BoardNamed(c, target)
    ensures Compile(c, cap, target).Ok? ==>
      && Compile(c, cap, target).value.board in c.boards
      && Compile(c, cap, target).value == Output(c, Compile(c, cap, target).value.board)
  {
    ValidationExact(c);
    FindBoardExact(c.boards, target);
    if Fault(c).Some? { ReportsAreTrue(c); }
    if FindBoard(c.boards, target).Some? {
      OutputFits(c, cap, FindBoard(c.boards, target).value);
    }
  }

  lemma {:induction false} OutputFits(c: CanonicalConfig, cap: Capacity, board: BoardConfig)
    requires FitsIn(c, cap)
    ensures WithinCapacity(Output(c, board), cap)
  {
    FilterGrows(ControllersOf(board.boardId), c.controllers, 0);
    FilterGrows(DevicesOf(board.boardId), c.devices, 0);
    FilterGrows(DependenciesOf(board.boardId), c.dependencies, 0);
    FilterGrows(RulesFor(board), c.rules, 0);
  }
}
