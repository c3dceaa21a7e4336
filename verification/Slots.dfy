/** The A/B update of the stored configuration (crates/smartbox-config/src/pipeline.rs, storage.rs and manager.rs). */
module Slots {
  import opened Basics
  import opened ConfigSchema
  import opened Envelope
  import Compiler

  type Slot = U32

  type StoreError = nat

  const NO_ACTIVE_SLOT: StoreError := 1
  const NO_BLOB: StoreError := 2
  const BLOB_TOO_LARGE: StoreError := 3

  /** A store: the active pointer and one cell per slot and kind. */
  datatype Disk = Disk(active: Option<Slot>, cells: map<(Slot, BlobKind), Bytes>)

  // What the medium does to an operation. A failing one leaves its cells in any state.

  datatype WriteOutcome = Wrote | WriteFailed(error: StoreError, left: Option<Bytes>)

  datatype DiscardOutcome =
    | Discarded
    | DiscardFailed(error: StoreError, canonicalLeft: Option<Bytes>, compiledLeft: Option<Bytes>)

  datatype PointerOutcome = Moved | MoveFailed(error: StoreError, moved: bool)

  /** The outcomes of the four store operations a preparation can perform. */
  datatype Script = Script(
    write1: WriteOutcome, discard1: DiscardOutcome, write2: WriteOutcome, discard2: DiscardOutcome)

  datatype Prepared = Prepared(slot: Slot, schemaVersion: U16, configVersion: U32)

  datatype StoreFailure = StoreFailed(error: StoreError) | CodecFailed(codec: CodecError)

  datatype PrepareError =
    | CompileFailed(compile: CompileError)
    | NotStored(failure: StoreFailure)
    | DiscardAfterStoreFailure(failure: StoreFailure, discard: StoreError)

  datatype ActivateError = PointerNotWritten(error: StoreError) | SlotMismatch(prepared: Slot, requested: Slot)

  datatype SafeBootReason =
    | Store(error: StoreError)
    | Codec(codec: CodecError)
    | SchemaVersionMismatch(expectedSchema: U16, foundSchema: U16)
    | ConfigVersionMismatch(expectedConfig: U32, foundConfig: U32)

  datatype BootResult =
    | Ready(compiled: CompiledConfig, schemaVersion: U16, configVersion: U32)
    | SafeBoot(reason: SafeBootReason)

  /** The payload formats. */
  datatype PayloadCodec = PayloadCodec(
    canonical: CanonicalConfig -> Bytes, compiled: CompiledConfig -> Bytes, read: Bytes -> Option<CompiledConfig>)

  ghost predicate Faithful(codec: PayloadCodec) {
    forall x :: codec.read(codec.compiled(x)) == Some(x)
  }

  // -- store operations -------------------------------------------------------------------------

  function Cell(d: Disk, slot: Slot, kind: BlobKind): Option<Bytes> {
    if (slot, kind) in d.cells then Some(d.cells[(slot, kind)]) else None
  }

  function Put(d: Disk, slot: Slot, kind: BlobKind, content: Option<Bytes>): Disk {
    d.(cells := if content.Some? then d.cells[(slot, kind) := content.value] else d.cells - {(slot, kind)})
  }

  function Write(d: Disk, slot: Slot, kind: BlobKind, bytes: Bytes, w: WriteOutcome): Disk {
    Put(d, slot, kind, if w.Wrote? then Some(bytes) else w.left)
  }

  function Discard(d: Disk, slot: Slot, o: DiscardOutcome): Disk {
    match o
    case Discarded => Put(Put(d, slot, CanonicalKind, None), slot, CompiledKind, None)
    case DiscardFailed(_, canonical, compiled) => Put(Put(d, slot, CanonicalKind, canonical), slot, CompiledKind, compiled)
  }

  // -- preparing --------------------------------------------------------------------------------

  function Encode(room: nat, kind: BlobKind, schema: U16, config: U32, payload: Bytes): Result<Bytes, CodecError> {
    if room < HEADER_LEN then Err(BufferTooSmall)
    else if room < HEADER_LEN + |payload| then Err(PostcardSerialize)
    else Ok(Seal(kind, schema, config, payload))
  }

  function DiscardError(failure: StoreFailure, o: DiscardOutcome): PrepareError {
    if o.Discarded? then NotStored(failure) else DiscardAfterStoreFailure(failure, o.error)
  }

  /** Writes one sealed blob; discards the whole slot when that fails. */
  function StoreBlob(d: Disk, slot: Slot, kind: BlobKind, blob: Result<Bytes, CodecError>, w: WriteOutcome,
      o: DiscardOutcome)
    : (Disk, Option<PrepareError>)
  {
    if blob.Err? then (Discard(d, slot, o), Some(DiscardError(CodecFailed(blob.error), o)))
    else
      var after := Write(d, slot, kind, blob.value, w);
      if w.Wrote? then (after, None)
      else (Discard(after, slot, o), Some(DiscardError(StoreFailed(w.error), o)))
  }

  /** One request to prepare an update. */
  datatype Update = Update(config: CanonicalConfig, cap: Capacity, target: Id, slot: Slot, room: nat)

  function Compiled(u: Update): Result<CompiledConfig, CompileError> {
    Compiler.Compile(u.config, u.cap, u.target)
  }

  function CanonicalBlob(codec: PayloadCodec, u: Update): Result<Bytes, CodecError> {
    Encode(u.room, CanonicalKind, u.config.schemaVersion, u.config.configVersion, codec.canonical(u.config))
  }

  function CompiledBlob(codec: PayloadCodec, u: Update): Result<Bytes, CodecError>
    requires Compiled(u).Ok?
  {
    Encode(u.room, CompiledKind, u.config.schemaVersion, u.config.configVersion, codec.compiled(Compiled(u).value))
  }

  function Prepare(d: Disk, codec: PayloadCodec, u: Update, s: Script): (Disk, Result<Prepared, PrepareError>) {
    if Compiled(u).Err? then (d, Err(CompileFailed(Compiled(u).error)))
    else
      var (d1, e1) := StoreBlob(d, u.slot, CanonicalKind, CanonicalBlob(codec, u), s.write1, s.discard1);
      if e1.Some? then (d1, Err(e1.value))
      else
        var (d2, e2) := StoreBlob(d1, u.slot, CompiledKind, CompiledBlob(codec, u), s.write2, s.discard2);
        if e2.Some? then (d2, Err(e2.value))
        else (d2, Ok(Prepared(u.slot, u.config.schemaVersion, u.config.configVersion)))
  }

  // -- activating and booting ---------------------------------------------------------------------

  function Activate(d: Disk, token: Prepared, requested: Slot, o: PointerOutcome): (Disk, Option<ActivateError>) {
    if token.slot != requested then (d, Some(SlotMismatch(token.slot, requested)))
    else match o
      case Moved => (d.(active := Some(token.slot)), None)
      case MoveFailed(error, moved) => (if moved then d.(active := Some(token.slot)) else d, Some(PointerNotWritten(error)))
  }

  function Boot(d: Disk, codec: PayloadCodec, schema: U16, config: U32, room: nat): BootResult {
    if d.active.None? then SafeBoot(Store(NO_ACTIVE_SLOT))
    else BootCell(Cell(d, d.active.value, CompiledKind), codec, schema, config, room)
  }

  /** Boot looks at nothing but the compiled blob of the active slot. */
  function BootCell(cell: Option<Bytes>, codec: PayloadCodec, schema: U16, config: U32, room: nat): BootResult {
    if cell.None? then SafeBoot(Store(NO_BLOB))
    else if |cell.value| > room then SafeBoot(Store(BLOB_TOO_LARGE))
    else match Decode(codec.read, CompiledKind, cell.value)
      case Err(e) => SafeBoot(Codec(e))
      case Ok(blob) =>
        if blob.schemaVersion != schema then SafeBoot(SchemaVersionMismatch(schema, blob.schemaVersion))
        else if blob.configVersion != config then SafeBoot(ConfigVersionMismatch(config, blob.configVersion))
        else Ready(blob.value, blob.schemaVersion, blob.configVersion)
  }

  // -- what a preparation touches -------------------------------------------------------------------

  lemma {:induction false} StoreBlobFrame(
      d: Disk, slot: Slot, kind: BlobKind, blob: Result<Bytes, CodecError>, w: WriteOutcome, o: DiscardOutcome, s: Slot, k: BlobKind)
    ensures var after := StoreBlob(d, slot, kind, blob, w, o).0;
      after.active == d.active && (s != slot ==> Cell(after, s, k) == Cell(d, s, k))
  {
  }

  /** Whatever fails, a preparation changes neither the pointer nor any other slot. */
  lemma {:induction false} PrepareFrame(d: Disk, codec: PayloadCodec, u: Update, script: Script, s: Slot, k: BlobKind)
    ensures var after := Prepare(d, codec, u, script).0;
      after.active == d.active && (s != u.slot ==> Cell(after, s, k) == Cell(d, s, k))
  {
    if Compiled(u).Ok? {
      var d1 := StoreBlob(d, u.slot, CanonicalKind, CanonicalBlob(codec, u), script.write1, script.discard1).0;
      StoreBlobFrame(d, u.slot, CanonicalKind, CanonicalBlob(codec, u), script.write1, script.discard1, s, k);
      StoreBlobFrame(d1, u.slot, CompiledKind, CompiledBlob(codec, u), script.write2, script.discard2, s, k);
    }
  }

  /** A script that removes the compiled blob of the slot, or plants an empty one where none was. */
  function Spoiler(d: Disk, slot: Slot): Script {
    var o := if Cell(d, slot, CompiledKind).Some? then Discarded else DiscardFailed(0, None, Some([]));
    Script(WriteFailed(0, None), o, Wrote, o)
  }

  lemma {:induction false} SpoilerSpoils(d: Disk, codec: PayloadCodec, u: Update)
    requires Compiled(u).Ok?
    ensures Cell(Prepare(d, codec, u, Spoiler(d, u.slot)).0, u.slot, CompiledKind)
      == if Cell(d, u.slot, CompiledKind).Some? then None else Some([])
  {
  }

  /** A cell is safe from a preparation, whatever the medium does, exactly when it lies in another slot or nothing compiles. */
  lemma {:induction false} CellSafeExactly(d: Disk, codec: PayloadCodec, u: Update, s: Slot)
    ensures (forall script :: Cell(Prepare(d, codec, u, script).0, s, CompiledKind) == Cell(d, s, CompiledKind))
      <==> s != u.slot || Compiled(u).Err?
  {
    if s != u.slot || Compiled(u).Err? {
      forall script ensures Cell(Prepare(d, codec, u, script).0, s, CompiledKind) == Cell(d, s, CompiledKind) {
        PrepareFrame(d, codec, u, script, s, CompiledKind);
      }
    } else {
      SpoilerSpoils(d, codec, u);
    }
  }

  lemma {:induction false} DifferentCellsBootDifferently(codec: PayloadCodec, cell: Bytes, schema: U16, config: U32)
    ensures BootCell(Some(cell), codec, schema, config, |cell|) != BootCell(None, codec, schema, config, |cell|)
  {
  }

  ghost predicate BootUnchanged(d: Disk, codec: PayloadCodec, u: Update, script: Script) {
    forall schema, config, room ::
      Boot(Prepare(d, codec, u, script).0, codec, schema, config, room) == Boot(d, codec, schema, config, room)
  }

  lemma {:induction false} SameCellSameBoot(d: Disk, e: Disk, codec: PayloadCodec, schema: U16, config: U32, room: nat)
    requires d.active == e.active
    requires d.active.Some? ==> Cell(d, d.active.value, CompiledKind) == Cell(e, d.active.value, CompiledKind)
    ensures Boot(d, codec, schema, config, room) == Boot(e, codec, schema, config, room)
  {
  }

  lemma {:induction false} InactiveSlotKeepsBoot(d: Disk, codec: PayloadCodec, u: Update, script: Script)
    requires d.active != Some(u.slot) || Compiled(u).Err?
    ensures BootUnchanged(d, codec, u, script)
  {
    var after := Prepare(d, codec, u, script).0;
    PrepareFrame(d, codec, u, script, if d.active.Some? then d.active.value else 0, CompiledKind);
    assert Compiled(u).Err? ==> after == d;
    forall schema, config, room ensures Boot(after, codec, schema, config, room) == Boot(d, codec, schema, config, room) {
      SameCellSameBoot(after, d, codec, schema, config, room);
    }
  }

  lemma {:induction false} SpoilerChangesBoot(d: Disk, codec: PayloadCodec, u: Update)
    requires d.active == Some(u.slot) && Compiled(u).Ok?
    ensures !BootUnchanged(d, codec, u, Spoiler(d, u.slot))
  {
    var after := Prepare(d, codec, u, Spoiler(d, u.slot)).0;
    SpoilerSpoils(d, codec, u);
    PrepareFrame(d, codec, u, Spoiler(d, u.slot), u.slot, CompiledKind);
    var was, now := Cell(d, u.slot, CompiledKind), Cell(after, u.slot, CompiledKind);
    var bytes: Bytes := if was.Some? then was.value else [];
    DifferentCellsBootDifferently(codec, bytes, 0, 0);
    assert Boot(d, codec, 0, 0, |bytes|) == BootCell(was, codec, 0, 0, |bytes|);
    assert Boot(after, codec, 0, 0, |bytes|) == BootCell(now, codec, 0, 0, |bytes|);
  }

  /** Preparing never changes what boots, whatever fails, exactly when it targets a slot that is not active or nothing compiles. */
  lemma {:induction false} PrepareKeepsBootExactly(d: Disk, codec: PayloadCodec, u: Update)
    ensures (forall script :: BootUnchanged(d, codec, u, script)) <==> d.active != Some(u.slot) || Compiled(u).Err?
  {
    if d.active != Some(u.slot) || Compiled(u).Err? {
      forall script ensures BootUnchanged(d, codec, u, script) {
        InactiveSlotKeepsBoot(d, codec, u, script);
      }
    } else {
      SpoilerChangesBoot(d, codec, u);
    }
  }

  // -- a whole update ---------------------------------------------------------------------------------

  lemma {:induction false} PrepareStores(d: Disk, codec: PayloadCodec, u: Update, script: Script)
    requires Prepare(d, codec, u, script).1.Ok?
    ensures Compiled(u).Ok?
    ensures Prepare(d, codec, u, script).1.value == Prepared(u.slot, u.config.schemaVersion, u.config.configVersion)
    ensures u.room >= HEADER_LEN + |codec.compiled(Compiled(u).value)|
    ensures Cell(Prepare(d, codec, u, script).0, u.slot, CompiledKind)
      == Some(Seal(CompiledKind, u.config.schemaVersion, u.config.configVersion, codec.compiled(Compiled(u).value)))
  {
  }

  /** The active slot holds the sealed output of this update. */
  ghost predicate Holds(d: Disk, codec: PayloadCodec, u: Update) {
    && Compiled(u).Ok? && |codec.compiled(Compiled(u).value)| < 0x1_0000_0000
    && Cell(d, u.slot, CompiledKind)
      == Some(Seal(CompiledKind, u.config.schemaVersion, u.config.configVersion, codec.compiled(Compiled(u).value)))
  }

  ghost predicate Boots(d: Disk, codec: PayloadCodec, u: Update) {
    && Compiled(u).Ok?
    && forall room :: room >= HEADER_LEN + |codec.compiled(Compiled(u).value)| ==>
      Boot(d, codec, u.config.schemaVersion, u.config.configVersion, room)
        == Ready(Compiled(u).value, u.config.schemaVersion, u.config.configVersion)
  }

  lemma {:induction false} HeldBoots(d: Disk, codec: PayloadCodec, u: Update)
    requires Faithful(codec) && Holds(d, codec, u) && d.active == Some(u.slot)
    ensures Boots(d, codec, u)
  {
    var payload := codec.compiled(Compiled(u).value);
    RoundTrip(codec.compiled, codec.read, CompiledKind, u.config.schemaVersion, u.config.configVersion, Compiled(u).value);
    assert |Seal(CompiledKind, u.config.schemaVersion, u.config.configVersion, payload)| == HEADER_LEN + |payload|;
  }

  /** A blob whose payload is too long for its length field never boots. */
  lemma {:induction false} OverlongDoesNotBoot(d: Disk, codec: PayloadCodec, u: Update)
    requires Compiled(u).Ok? && d.active == Some(u.slot)
    requires var payload := codec.compiled(Compiled(u).value);
      && |payload| >= 0x1_0000_0000
      && Cell(d, u.slot, CompiledKind)
        == Some(Seal(CompiledKind, u.config.schemaVersion, u.config.configVersion, payload))
    ensures var room := HEADER_LEN + |codec.compiled(Compiled(u).value)|;
      Boot(d, codec, u.config.schemaVersion, u.config.configVersion, room) == SafeBoot(Codec(LengthMismatch))
  {
    var payload := codec.compiled(Compiled(u).value);
    FieldsOfHeader(CompiledKind, FieldsFor(u.config.schemaVersion, u.config.configVersion, payload), payload);
  }

  /** Prepare, activate, boot: the device runs exactly the compiled configuration, unless its payload overflows the length field. */
  lemma {:induction false} UpdateBoots(d: Disk, codec: PayloadCodec, u: Update, script: Script)
    requires Faithful(codec) && Prepare(d, codec, u, script).1.Ok?
    ensures var (prepared, r) := Prepare(d, codec, u, script);
      var (activated, e) := Activate(prepared, r.value, r.value.slot, Moved);
      && e.None? && Compiled(u).Ok?
      && (Boots(activated, codec, u) <==> |codec.compiled(Compiled(u).value)| < 0x1_0000_0000)
  {
    PrepareStores(d, codec, u, script);
    var (prepared, r) := Prepare(d, codec, u, script);
    var activated := Activate(prepared, r.value, r.value.slot, Moved).0;
    if |codec.compiled(Compiled(u).value)| < 0x1_0000_0000 {
      assert Holds(activated, codec, u);
      HeldBoots(activated, codec, u);
    } else {
      OverlongDoesNotBoot(activated, codec, u);
    }
  }
}
