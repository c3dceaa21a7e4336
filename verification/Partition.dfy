/** Compiling for every board splits the house, and each part refers only to itself. */
module Partition {
  import opened Basics
  import opened ConfigSchema
  import opened Validation
  import opened WellFormedness
  import opened Compiler

  /** The positions of the kept items. */
  ghost function Positions<T>(keep: T -> bool, s: seq<T>): seq<nat>
    decreases |s|
  {
    if s == [] then [] else
    var n := |s| - 1;
    Positions(keep, s[..n]) + if keep(s[n]) then [n] else []
  }

  /** `out` holds the items of `src` at the positions `at`, in order and unchanged. */
  ghost predicate Picks<T(!new)>(src: seq<T>, out: seq<T>, at: seq<nat>) {
    && |at| == |out|
    && (forall i :: 0 <= i < |at| ==> at[i] < |src| && out[i] == src[at[i]])
    && (forall i, j :: 0 <= i < j < |at| ==> at[i] < at[j])
  }

  lemma {:induction false} FilterPicks<T(!new)>(keep: T -> bool, s: seq<T>)
    ensures Picks(s, Filter(keep, s), Positions(keep, s))
    ensures forall k: nat :: k in Positions(keep, s) <==> k < |s| && keep(s[k])
    decreases |s|
  {
    if s != [] {
      var n := |s| - 1;
      FilterPicks(keep, s[..n]);
      assert forall i :: 0 <= i < n ==> s[..n][i] == s[i];
    }
  }

  ghost predicate OnlyIn(at: seq<seq<nat>>, k: nat, b: nat) {
    b < |at| && forall j :: 0 <= j < |at| ==> (k in at[j] <==> j == b)
  }

  ghost predicate InOne(at: seq<seq<nat>>, k: nat) {
    exists b :: OnlyIn(at, k, b)
  }

  /** The parts pick from the items so that every item is picked by exactly one part. */
  ghost predicate SplitAt<T(!new)>(src: seq<T>, parts: seq<seq<T>>, at: seq<seq<nat>>) {
    && |at| == |parts|
    && (forall j :: 0 <= j < |parts| ==> Picks(src, parts[j], at[j]))
    && (forall k: nat :: k < |src| ==> InOne(at, k))
  }

  ghost predicate Split<T(!new)>(src: seq<T>, parts: seq<seq<T>>) {
    exists at :: SplitAt(src, parts, at)
  }

  ghost predicate OnlyKeeper<T(!new)>(keeps: seq<T -> bool>, x: T, b: nat) {
    b < |keeps| && forall j :: 0 <= j < |keeps| ==> (keeps[j](x) <==> j == b)
  }

  ghost predicate HasOneKeeper<T(!new)>(keeps: seq<T -> bool>, x: T) {
    exists b :: OnlyKeeper(keeps, x, b)
  }

  /** Filtering by tests of which exactly one accepts each item splits the items. */
  lemma {:induction false} FiltersSplit<T(!new)>(src: seq<T>, parts: seq<seq<T>>, keeps: seq<T -> bool>)
    requires |parts| == |keeps| && forall j :: 0 <= j < |parts| ==> parts[j] == Filter(keeps[j], src)
    requires forall k: nat :: k < |src| ==> HasOneKeeper(keeps, src[k])
    ensures Split(src, parts)
  {
    var at := seq(|keeps|, j requires 0 <= j < |keeps| => Positions(keeps[j], src));
    forall j | 0 <= j < |parts|
      ensures Picks(src, parts[j], at[j]) && forall k: nat :: k in at[j] <==> k < |src| && keeps[j](src[k])
    {
      FilterPicks(keeps[j], src);
    }
    forall k: nat | k < |src| ensures InOne(at, k) {
      var b :| OnlyKeeper(keeps, src[k], b);
      assert OnlyIn(at, k, b);
    }
    assert SplitAt(src, parts, at);
  }

  lemma {:induction false} OneBoard(c: CanonicalConfig, id: Id) returns (b: nat)
    requires DistinctBoards(c) && BoardNamed(c, id)
    ensures b < |c.boards| && forall j :: 0 <= j < |c.boards| ==> (c.boards[j].boardId == id <==> j == b)
  {
    var k :| 0 <= k < |c.boards| && c.boards[k].boardId == id;
    b := k;
  }

  /** What each board of the house is given. */
  function Outputs(c: CanonicalConfig): (os: seq<CompiledConfig>)
    ensures |os| == |c.boards| && forall j :: 0 <= j < |os| ==> os[j] == Output(c, c.boards[j])
  {
    seq(|c.boards|, j requires 0 <= j < |c.boards| => Output(c, c.boards[j]))
  }

  function ControllerParts(c: CanonicalConfig): seq<seq<ControllerConfig>> {
    seq(|c.boards|, j requires 0 <= j < |c.boards| => Outputs(c)[j].controllers)
  }

  function DeviceParts(c: CanonicalConfig): seq<seq<DeviceConfig>> {
    seq(|c.boards|, j requires 0 <= j < |c.boards| => Outputs(c)[j].devices)
  }

  function DependencyParts(c: CanonicalConfig): seq<seq<Dependency>> {
    seq(|c.boards|, j requires 0 <= j < |c.boards| => Outputs(c)[j].dependencies)
  }

  function RuleParts(c: CanonicalConfig): seq<seq<RuleConfig>> {
    seq(|c.boards|, j requires 0 <= j < |c.boards| => Outputs(c)[j].rules)
  }

  lemma {:induction false} ControllersSplit(c: CanonicalConfig)
    requires WellFormed(c)
    ensures Split(c.controllers, ControllerParts(c))
  {
    var n := |c.boards|;
    var keeps := seq(n, j requires 0 <= j < n => ControllersOf(c.boards[j].boardId));
    forall k: nat | k < |c.controllers|
      ensures HasOneKeeper(keeps, c.controllers[k])
    {
      var b := OneBoard(c, c.controllers[k].ownerBoardId);
      assert OnlyKeeper(keeps, c.controllers[k], b);
    }
    FiltersSplit(c.controllers, ControllerParts(c), keeps);
  }

  lemma {:induction false} DevicesSplit(c: CanonicalConfig)
    requires WellFormed(c)
    ensures Split(c.devices, DeviceParts(c))
  {
    var n := |c.boards|;
    var keeps := seq(n, j requires 0 <= j < n => DevicesOf(c.boards[j].boardId));
    forall k: nat | k < |c.devices| ensures HasOneKeeper(keeps, c.devices[k]) {
      assert DeviceOk(c, c.devices[k]);
      var b := OneBoard(c, c.devices[k].ownerBoardId);
      assert OnlyKeeper(keeps, c.devices[k], b);
    }
    FiltersSplit(c.devices, DeviceParts(c), keeps);
  }

  lemma {:induction false} DependenciesSplit(c: CanonicalConfig)
    requires WellFormed(c)
    ensures Split(c.dependencies, DependencyParts(c))
  {
    var n := |c.boards|;
    var keeps := seq(n, j requires 0 <= j < n => DependenciesOf(c.boards[j].boardId));
    forall k: nat | k < |c.dependencies|
      ensures HasOneKeeper(keeps, c.dependencies[k])
    {
      assert DependencyOk(c, c.dependencies[k]);
      var b := OneBoard(c, c.dependencies[k].ownerBoardId);
      assert OnlyKeeper(keeps, c.dependencies[k], b);
    }
    FiltersSplit(c.dependencies, DependencyParts(c), keeps);
  }

  /** The board of a rule: the named one, or the coordinator for house-level rules. */
  lemma {:induction false} RuleBoard(c: CanonicalConfig, k: nat) returns (b: nat)
    requires WellFormed(c) && k < |c.rules|
    ensures b < |c.boards| && forall j :: 0 <= j < |c.boards| ==> (RulesFor(c.boards[j])(c.rules[k]) <==> j == b)
    ensures c.rules[k].scope.HouseLevel? ==> OnlyCoordinator(c.boards, b)
  {
    assert RuleOk(c, c.rules[k]);
    match c.rules[k].scope
    case BoardLocal(id) => b := OneBoard(c, id);
    case HouseLevel =>
      var n: nat :| OnlyCoordinator(c.boards, n);
      b := n;
  }

  lemma {:induction false} RulesSplit(c: CanonicalConfig)
    requires WellFormed(c)
    ensures Split(c.rules, RuleParts(c))
  {
    var n := |c.boards|;
    var keeps := seq(n, j requires 0 <= j < n => RulesFor(c.boards[j]));
    forall k: nat | k < |c.rules| ensures HasOneKeeper(keeps, c.rules[k]) {
      var b := RuleBoard(c, k);
      assert OnlyKeeper(keeps, c.rules[k], b);
    }
    FiltersSplit(c.rules, RuleParts(c), keeps);
  }

  /** Every controller, device, dependency and rule of a valid house is compiled into exactly one board. */
  lemma {:induction false} CompilationPartitions(c: CanonicalConfig, cap: Capacity)
    requires WellFormed(c) && FitsIn(c, cap)
    ensures forall j :: 0 <= j < |c.boards| ==> Compile(c, cap, c.boards[j].boardId) == Ok(Outputs(c)[j])
    ensures Split(c.controllers, ControllerParts(c))
    ensures Split(c.devices, DeviceParts(c))
    ensures Split(c.dependencies, DependencyParts(c))
    ensures Split(c.rules, RuleParts(c))
  {
    EveryBoardCompiles(c, cap);
    ControllersSplit(c);
    DevicesSplit(c);
    DependenciesSplit(c);
    RulesSplit(c);
  }

  lemma {:induction false} EveryBoardCompiles(c: CanonicalConfig, cap: Capacity)
    requires WellFormed(c) && FitsIn(c, cap)
    ensures forall j :: 0 <= j < |c.boards| ==> Compile(c, cap, c.boards[j].boardId) == Ok(Outputs(c)[j])
  {
    forall j | 0 <= j < |c.boards|
      ensures Compile(c, cap, c.boards[j].boardId) == Ok(Outputs(c)[j])
    {
      BoardCompiles(c, cap, j);
    }
  }

  lemma {:induction false} BoardCompiles(c: CanonicalConfig, cap: Capacity, j: nat)
    requires WellFormed(c) && FitsIn(c, cap) && j < |c.boards|
    ensures Compile(c, cap, c.boards[j].boardId) == Ok(Output(c, c.boards[j]))
  {
    CompileSucceeds(c, cap, c.boards[j].boardId);
    FoundIsTheOne(c, j);
  }

  lemma {:induction false} FoundIsTheOne(c: CanonicalConfig, j: nat)
    requires DistinctBoards(c) && j < |c.boards|
    ensures FindBoard(c.boards, c.boards[j].boardId) == Some(c.boards[j])
  {
    FindBoardExact(c.boards, c.boards[j].boardId);
  }

  /** A house-level rule is on the one coordinator and nowhere else; a board-local rule on its board. */
  lemma {:induction false} RulePlacement(c: CanonicalConfig, k: nat, j: nat)
    requires WellFormed(c) && k < |c.rules| && j < |c.boards|
    ensures c.rules[k] in Outputs(c)[j].rules <==>
      if c.rules[k].scope.HouseLevel? then OnlyCoordinator(c.boards, j) else c.boards[j].boardId == c.rules[k].scope.boardId
  {
    var b := RuleBoard(c, k);
    FilterMember(RulesFor(c.boards[j]), c.rules, k);
  }

  lemma {:induction false} FilterMember<T(!new)>(keep: T -> bool, s: seq<T>, k: nat)
    requires k < |s|
    ensures s[k] in Filter(keep, s) <==> keep(s[k])
  {
    if keep(s[k]) {
      var i := FilterHas(keep, s, k);
    } else if s[k] in Filter(keep, s) {
      var i := FilterFrom(keep, s, s[k]);
    }
  }

  // -- closed artifacts -------------------------------------------------------------------------

  ghost predicate HasDevice(o: CompiledConfig, device: Id) {
    exists i :: 0 <= i < |o.devices| && o.devices[i].deviceId == device
  }

  ghost predicate PortsLocal(o: CompiledConfig) {
    forall d :: d in o.devices && d.port.Some? ==>
      exists i :: 0 <= i < |o.controllers| && o.controllers[i].controllerId == d.port.value.controllerId
  }

  ghost predicate DependenciesLocal(o: CompiledConfig) {
    forall d :: d in o.dependencies ==> HasDevice(o, d.source.deviceId) && HasDevice(o, d.destination.deviceId)
  }

  ghost predicate TargetsLocal(o: CompiledConfig) {
    forall r, a :: r in o.rules && r.scope.BoardLocal? && a in ActionsOf(r.body) && a.SetDevice? ==> HasDevice(o, a.deviceId)
  }

  /** The topology names the device once, with the owner the configuration gives it. */
  ghost predicate Located(c: CanonicalConfig, o: CompiledConfig, device: Id) {
    exists i ::
      && 0 <= i < |o.topology| && o.topology[i].deviceId == device
      && Owned(c, device, o.topology[i].ownerBoardId)
      && forall j :: 0 <= j < |o.topology| && o.topology[j].deviceId == device ==> j == i
  }

  lemma {:induction false} FilterHas<T(!new)>(keep: T -> bool, s: seq<T>, k: nat) returns (i: nat)
    requires k < |s| && keep(s[k])
    ensures i < |Filter(keep, s)| && Filter(keep, s)[i] == s[k]
  {
    FilterPicks(keep, s);
    var at := Positions(keep, s);
    assert k in at;
    var p :| 0 <= p < |at| && at[p] == k;
    i := p;
  }

  lemma {:induction false} FilterFrom<T(!new)>(keep: T -> bool, s: seq<T>, x: T) returns (k: nat)
    requires x in Filter(keep, s)
    ensures k < |s| && s[k] == x && keep(x)
  {
    FilterPicks(keep, s);
    var at := Positions(keep, s);
    var i :| 0 <= i < |Filter(keep, s)| && Filter(keep, s)[i] == x;
    assert at[i] in at;
    k := at[i];
  }

  lemma {:induction false} OwnedIsLocal(c: CanonicalConfig, board: BoardConfig, device: Id)
    requires Owned(c, device, board.boardId)
    ensures HasDevice(Output(c, board), device)
  {
    var k :| 0 <= k < |c.devices| && c.devices[k].deviceId == device && c.devices[k].ownerBoardId == board.boardId;
    var i := FilterHas(DevicesOf(board.boardId), c.devices, k);
  }

  lemma {:induction false} PortsClosed(c: CanonicalConfig, board: BoardConfig)
    requires WellFormed(c)
    ensures PortsLocal(Output(c, board))
  {
    var o := Output(c, board);
    forall d | d in o.devices && d.port.Some?
      ensures exists i :: 0 <= i < |o.controllers| && o.controllers[i].controllerId == d.port.value.controllerId
    {
      var k := FilterFrom(DevicesOf(board.boardId), c.devices, d);
      assert DeviceOk(c, c.devices[k]);
      var j :| 0 <= j < |c.controllers| && c.controllers[j].controllerId == d.port.value.controllerId
        && c.controllers[j].ownerBoardId == d.ownerBoardId;
      var i := FilterHas(ControllersOf(board.boardId), c.controllers, j);
    }
  }

  lemma {:induction false} DependenciesClosed(c: CanonicalConfig, board: BoardConfig)
    requires WellFormed(c)
    ensures DependenciesLocal(Output(c, board))
  {
    var o := Output(c, board);
    forall d | d in o.dependencies ensures HasDevice(o, d.source.deviceId) && HasDevice(o, d.destination.deviceId) {
      var k := FilterFrom(DependenciesOf(board.boardId), c.dependencies, d);
      assert DependencyOk(c, c.dependencies[k]);
      OwnedIsLocal(c, board, d.source.deviceId);
      OwnedIsLocal(c, board, d.destination.deviceId);
    }
  }

  lemma {:induction false} TargetsClosed(c: CanonicalConfig, board: BoardConfig)
    requires WellFormed(c)
    ensures TargetsLocal(Output(c, board))
  {
    var o := Output(c, board);
    forall r, a | r in o.rules && r.scope.BoardLocal? && a in ActionsOf(r.body) && a.SetDevice?
      ensures HasDevice(o, a.deviceId)
    {
      var k := FilterFrom(RulesFor(board), c.rules, r);
      assert RuleOk(c, c.rules[k]);
      assert ActionOk(c, r.scope, a);
      OwnedIsLocal(c, board, a.deviceId);
    }
  }

  lemma {:induction false} TopologyComplete(c: CanonicalConfig, board: BoardConfig, device: Id)
    requires WellFormed(c) && DeviceNamed(c, device)
    ensures Located(c, Output(c, board), device)
  {
    var o := Output(c, board);
    var i :| 0 <= i < |c.devices| && c.devices[i].deviceId == device;
    assert o.topology[i].deviceId == device;
  }

  /** A compiled artifact refers only to what it contains, and locates every device its rules mention. */
  lemma {:induction false} ArtifactIsClosed(c: CanonicalConfig, cap: Capacity, target: Id)
    requires FitsIn(c, cap) && Compile(c, cap, target).Ok?
    ensures var o := Compile(c, cap, target).value;
      && PortsLocal(o) && DependenciesLocal(o) && TargetsLocal(o)
      && forall r, d :: r in o.rules && d in DevicesNamedBy(r) ==> Located(c, o, d)
  {
    CompileSucceeds(c, cap, target);
    var o := Compile(c, cap, target).value;
    PortsClosed(c, o.board);
    DependenciesClosed(c, o.board);
    TargetsClosed(c, o.board);
    forall r, d | r in o.rules && d in DevicesNamedBy(r) ensures Located(c, o, d) {
      var k := FilterFrom(RulesFor(o.board), c.rules, r);
      NamedByRule(c, c.rules[k], d);
      TopologyComplete(c, o.board, d);
    }
  }

  lemma {:induction false} NamedByRule(c: CanonicalConfig, r: RuleConfig, d: Id)
    requires RuleOk(c, r) && d in DevicesNamedBy(r)
    ensures DeviceNamed(c, d)
  {
    if k :| k in ConditionsOf(r) && k.property.deviceId == d {
    } else if a :| a in ActionsOf(r.body) && a.SetDevice? && a.deviceId == d {
      assert ActionOk(c, r.scope, a);
    }
  }
}
