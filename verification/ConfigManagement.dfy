/** The store and the manager as objects (crates/smartbox-config/src/manager.rs, storage.rs, pipeline.rs). */
module ConfigManagement {
  import opened Basics
  import opened ConfigSchema
  import opened Envelope
  import opened Slots
  import Compiler

  /** A store whose operations succeed or fail as the outcome they are given says. */
  class ConfigStore {
    var active: Option<Slot>
    var cells: map<(Slot, BlobKind), Bytes>

    constructor ()
      ensures Content() == Disk(None, map[])
    {
      active, cells := None, map[];
    }

    ghost function Content(): Disk
      reads this
    {
      Disk(active, cells)
    }

    method WriteBlob(slot: Slot, kind: BlobKind, bytes: Bytes, w: WriteOutcome) returns (e: Option<StoreError>)
      modifies this
      ensures Content() == Write(old(Content()), slot, kind, bytes, w)
      ensures e == if w.Wrote? then None else Some(w.error)
    {
      SetCell(slot, kind, if w.Wrote? then Some(bytes) else w.left);
      e := if w.Wrote? then None else Some(w.error);
    }

    method SetCell(slot: Slot, kind: BlobKind, content: Option<Bytes>)
      modifies this
      ensures Content() == Put(old(Content()), slot, kind, content)
    {
      match content
      case Some(bytes) => cells := cells[(slot, kind) := bytes];
      case None => cells := cells - {(slot, kind)};
    }

    method DiscardSlot(slot: Slot, o: DiscardOutcome) returns (e: Option<StoreError>)
      modifies this
      ensures Content() == Discard(old(Content()), slot, o)
      ensures e == if o.Discarded? then None else Some(o.error)
    {
      match o
      case Discarded =>
        SetCell(slot, CanonicalKind, None);
        SetCell(slot, CompiledKind, None);
        e := None;
      case DiscardFailed(error, canonical, compiled) =>
        SetCell(slot, CanonicalKind, canonical);
        SetCell(slot, CompiledKind, compiled);
        e := Some(error);
    }

    method WriteActiveSlot(slot: Slot, o: PointerOutcome) returns (e: Option<StoreError>)
      modifies this
      ensures Content() == if o.Moved? || o.moved then old(Content()).(active := Some(slot)) else old(Content())
      ensures e == if o.Moved? then None else Some(o.error)
    {
      if o.Moved? || o.moved { active := Some(slot); }
      e := if o.Moved? then None else Some(o.error);
    }

    /** Copies a blob to the front of `out`. */
    method ReadBlob(slot: Slot, kind: BlobKind, out: array<byte>) returns (r: Result<nat, StoreError>)
      modifies out
      ensures Cell(Content(), slot, kind).None? ==> r == Err(NO_BLOB)
      ensures Cell(Content(), slot, kind).Some? ==>
        var bytes := Cell(Content(), slot, kind).value;
        if |bytes| > out.Length then r == Err(BLOB_TOO_LARGE)
        else r == Ok(|bytes|) && out[..|bytes|] == bytes
    {
      if (slot, kind) !in cells { return Err(NO_BLOB); }
      var bytes := cells[(slot, kind)];
      if |bytes| > out.Length { return Err(BLOB_TOO_LARGE); }
      for i := 0 to |bytes|
        invariant out[..i] == bytes[..i]
      {
        out[i] := bytes[i];
      }
      r := Ok(|bytes|);
    }
  }

  class ConfigManager {
    const store: ConfigStore

    constructor (store: ConfigStore)
      ensures this.store == store
    {
      this.store := store;
    }

    method PrepareUpdate(
        codec: PayloadCodec, config: CanonicalConfig, cap: Capacity, target: Id, slot: Slot, scratch: array<byte>, s: Script)
      returns (r: Result<Prepared, PrepareError>)
      modifies store, scratch
      ensures (store.Content(), r) == Prepare(old(store.Content()), codec, Update(config, cap, target, slot, scratch.Length), s)
    {
      var compiled := Compiler.CompileConfig(config, cap, target);
      if compiled.Err? { return Err(CompileFailed(compiled.error)); }
      var e := PrepareBlob(slot, CanonicalKind, config.schemaVersion, config.configVersion, codec.canonical, config,
                           scratch, s.write1, s.discard1);
      if e.Some? { return Err(e.value); }
      e := PrepareBlob(slot, CompiledKind, config.schemaVersion, config.configVersion, codec.compiled, compiled.value,
                       scratch, s.write2, s.discard2);
      if e.Some? { return Err(e.value); }
      r := Ok(Prepared(slot, config.schemaVersion, config.configVersion));
    }

    method PrepareBlob<T>(
        slot: Slot, kind: BlobKind, schema: U16, config: U32, ser: T -> Bytes, value: T, scratch: array<byte>,
        w: WriteOutcome, o: DiscardOutcome)
      returns (e: Option<PrepareError>)
      modifies store, scratch
      ensures (store.Content(), e) ==
        StoreBlob(old(store.Content()), slot, kind, Encode(scratch.Length, kind, schema, config, ser(value)), w, o)
    {
      var encoded := EncodeEnveloped(kind, schema, config, ser, value, scratch);
      var failure: StoreFailure;
      match encoded {
        case Err(error) => failure := CodecFailed(error);
        case Ok(length) =>
          var stored := store.WriteBlob(slot, kind, scratch[..length], w);
          if stored.None? { return None; }
          failure := StoreFailed(stored.value);
      }
      var discard := store.DiscardSlot(slot, o);
      e := Some(if discard.None? then NotStored(failure) else DiscardAfterStoreFailure(failure, discard.value));
    }

    method ActivatePrepared(token: Prepared, requested: Slot, o: PointerOutcome) returns (e: Option<ActivateError>)
      modifies store
      ensures (store.Content(), e) == Activate(old(store.Content()), token, requested, o)
    {
      if token.slot != requested { return Some(SlotMismatch(token.slot, requested)); }
      var written := store.WriteActiveSlot(token.slot, o);
      e := if written.None? then None else Some(PointerNotWritten(written.value));
    }

    method BootLoad(codec: PayloadCodec, schema: U16, config: U32, scratch: array<byte>) returns (r: BootResult)
      modifies scratch
      ensures store.Content() == old(store.Content())
      ensures r == Boot(store.Content(), codec, schema, config, scratch.Length)
    {
      if store.active.None? { return SafeBoot(Store(NO_ACTIVE_SLOT)); }
      var length := store.ReadBlob(store.active.value, CompiledKind, scratch);
      if length.Err? { return SafeBoot(Store(length.error)); }
      var decoded := Decode(codec.read, CompiledKind, scratch[..length.value]);
      if decoded.Err? { return SafeBoot(Codec(decoded.error)); }
      var blob := decoded.value;
      if blob.schemaVersion != schema { return SafeBoot(SchemaVersionMismatch(schema, blob.schemaVersion)); }
      if blob.configVersion != config { return SafeBoot(ConfigVersionMismatch(config, blob.configVersion)); }
      r := Ready(blob.value, blob.schemaVersion, blob.configVersion);
    }
  }
}
