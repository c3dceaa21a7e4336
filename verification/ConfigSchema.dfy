/** The house configuration (crates/smartbox-config/src/schema.rs and ids.rs). */
module ConfigSchema {
  import opened Basics

  const SUPPORTED_SCHEMA_VERSION: U16 := 1

  /** Identifiers are 32-bit numbers; zero is not a valid one. */
  type Id = U32

  datatype BoardRole = Coordinator | Standby | Zone

  datatype ControllerFamily = XController | IRGate | Dimmer | PWM | SmartBox

  datatype DeviceKind =
    | Relay | DiscreteInput | Adc | Dht | Ds18B20 | DaliLight | DaliGroup | Pwm | TriacDimmer | IButton | IrGate
    | TuyaRelay | TasmotaIrGate | AquaProtect | ClimateControl | Curtains | Fan | GateValve

  datatype PropertyKind = State | Brightness | Value | Temperature | Humidity | Counter | LastKey | Position | Mode

  /** A property value: its width tag and its number. */
  datatype PropertyValue = PropertyValue(tag: byte, number: int)

  datatype DeviceProperty = DeviceProperty(deviceId: Id, property: PropertyKind)

  datatype PortRef = PortRef(controllerId: byte, port: byte)

  datatype BoardConfig = BoardConfig(boardId: Id, role: BoardRole)

  datatype ControllerConfig = ControllerConfig(controllerId: byte, ownerBoardId: Id, family: ControllerFamily)

  datatype DeviceConfig = DeviceConfig(deviceId: Id, ownerBoardId: Id, kind: DeviceKind, port: Option<PortRef>)

  datatype RuleScope = BoardLocal(boardId: Id) | HouseLevel

  datatype Trigger = DeviceChanged(property: DeviceProperty) | Schedule(scheduleId: U32) | BoardEvent(boardId: Id, eventCode: U16)

  datatype CompareOp = Eq | NotEq | Greater | GreaterOrEq | Less | LessOrEq

  datatype Condition = Condition(property: DeviceProperty, op: CompareOp, value: PropertyValue)

  datatype Action =
    | SetDevice(deviceId: Id, property: PropertyKind, value: PropertyValue)
    | SendBoardCommand(boardId: Id, actionCode: U16)
    | PublishEvent(eventCode: U16)

  datatype Step = Step(delayMs: U32, actions: seq<Action>, precondition: Option<Condition>)

  datatype RuleBody = Act(actions: seq<Action>) | Steps(steps: seq<Step>)

  datatype RuleConfig = RuleConfig(
    ruleId: Id, scope: RuleScope, enabled: bool, trigger: Option<Trigger>, condition: Option<Condition>,
    body: RuleBody, cooldownMs: U32, version: U16)

  datatype SourceCode = FromProperty | FromControllerEvent

  datatype DestinationCode = SetProperty | DisableDevice | EnableDevice

  datatype DependencyTag = GenericTag | AquaProtectTag | ClimateControlTag | CurtainsTag | FanTag | GateValveTag

  datatype Dependency = Dependency(
    ownerBoardId: Id, source: DeviceProperty, sourceCode: SourceCode,
    destination: DeviceProperty, destinationCode: DestinationCode, tag: DependencyTag)

  datatype CanonicalConfig = CanonicalConfig(
    schemaVersion: U16,
    configVersion: U32,
    houseId: Id,
    boards: seq<BoardConfig>,
    controllers: seq<ControllerConfig>,
    devices: seq<DeviceConfig>,
    dependencies: seq<Dependency>,
    rules: seq<RuleConfig>,
    brokerHost: string,
    tlsRequired: bool,
    dhcp: bool,
    staticIpv4: Option<Bytes>)

  /** The capacities the source fixes in the types of its vectors. */
  datatype Capacity = Capacity(controllers: nat, devices: nat, dependencies: nat, rules: nat)

  predicate FitsIn(c: CanonicalConfig, cap: Capacity) {
    && |c.controllers| <= cap.controllers && |c.devices| <= cap.devices
    && |c.dependencies| <= cap.dependencies && |c.rules| <= cap.rules
  }

  datatype CompileError =
    | UnsupportedSchemaVersion(found: U16, supported: U16)
    | EmptyHouseId | EmptyBoardId | EmptyDeviceId | EmptyRuleId
    | MissingBoard(boardId: Id)
    | MissingTargetBoard(boardId: Id)
    | MissingCoordinator | MultipleCoordinators
    | DuplicateBoardId(boardId: Id)
    | DuplicateDeviceId(deviceId: Id)
    | DuplicateRuleId(ruleId: Id)
    | ControllerBoardMissing(boardId: Id)
    | DeviceBoardMissing(boardId: Id)
    | DeviceControllerMissing
    | DependencyBoardMissing(boardId: Id)
    | DependencyCrossesBoards
    | UnknownDevice(deviceId: Id)
    | RuleScopeBoardMissing(boardId: Id)
    | BoardLocalRuleTargetsRemoteDevice(ruleBoardId: Id, deviceId: Id)
    | EmptyRuleBody
    | CapacityExceeded

  datatype TopologyEntry = TopologyEntry(deviceId: Id, ownerBoardId: Id)

  datatype CompiledConfig = CompiledConfig(
    configVersion: U32,
    board: BoardConfig,
    controllers: seq<ControllerConfig>,
    devices: seq<DeviceConfig>,
    dependencies: seq<Dependency>,
    rules: seq<RuleConfig>,
    topology: seq<TopologyEntry>)
}
