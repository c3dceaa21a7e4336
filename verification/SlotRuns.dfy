/** Runs of the A/B update: preparations and activations in any order, with any failures. */
module SlotRuns {
  import opened Basics
  import opened ConfigSchema
  import opened Envelope
  import opened Slots

  datatype Event =
    | PrepareEvent(update: Update, script: Script)
    | ActivateEvent(token: Prepared, requested: Slot, outcome: PointerOutcome)

  /** The store, and for each slot the preparation that completed in it and was not disturbed since. */
  datatype Device = Device(disk: Disk, latest: map<Slot, Update>)

  function TokenOf(u: Update): Prepared {
    Prepared(u.slot, u.config.schemaVersion, u.config.configVersion)
  }

  function Apply(codec: PayloadCodec, s: Device, e: Event): Device {
    match e
    case PrepareEvent(u, script) =>
      var (disk, r) := Prepare(s.disk, codec, u, script);
      Device(disk, if Compiled(u).Err? then s.latest else if r.Ok? then s.latest[u.slot := u] else s.latest - {u.slot})
    case ActivateEvent(token, requested, outcome) =>
      Device(Activate(s.disk, token, requested, outcome).0, s.latest)
  }

  /**
   What the code leaves to its callers: prepare another slot than the active one, a payload that fits
   its length field, and activate only the latest preparation of a slot.
   */
  ghost predicate Careful(codec: PayloadCodec, s: Device, e: Event) {
    match e
    case PrepareEvent(u, _) =>
      && s.disk.active != Some(u.slot)
      && (Compiled(u).Ok? ==> |codec.compiled(Compiled(u).value)| < 0x1_0000_0000)
    case ActivateEvent(token, requested, _) =>
      token.slot == requested ==> token.slot in s.latest && token == TokenOf(s.latest[token.slot])
  }

  ghost predicate Sound(codec: PayloadCodec, s: Device) {
    && (s.disk.active.Some? ==> s.disk.active.value in s.latest)
    && forall slot :: slot in s.latest ==> s.latest[slot].slot == slot && Holds(s.disk, codec, s.latest[slot])
  }

  lemma {:induction false} StillHolds(d: Disk, e: Disk, codec: PayloadCodec, u: Update)
    requires Holds(d, codec, u) && Cell(e, u.slot, CompiledKind) == Cell(d, u.slot, CompiledKind)
    ensures Holds(e, codec, u)
  {
  }

  lemma {:induction false} PrepareKeepsSlot(codec: PayloadCodec, s: Device, u: Update, script: Script, slot: Slot)
    requires Sound(codec, s) && Careful(codec, s, PrepareEvent(u, script))
    requires slot in Apply(codec, s, PrepareEvent(u, script)).latest
    ensures var t := Apply(codec, s, PrepareEvent(u, script));
      t.latest[slot].slot == slot && Holds(t.disk, codec, t.latest[slot])
  {
    var (disk, r) := Prepare(s.disk, codec, u, script);
    if slot == u.slot && Compiled(u).Ok? {
      PrepareStores(s.disk, codec, u, script);
    } else {
      PrepareFrame(s.disk, codec, u, script, slot, CompiledKind);
      StillHolds(s.disk, disk, codec, s.latest[slot]);
    }
  }

  lemma {:induction false} PrepareSound(codec: PayloadCodec, s: Device, u: Update, script: Script)
    requires Sound(codec, s) && Careful(codec, s, PrepareEvent(u, script))
    ensures Sound(codec, Apply(codec, s, PrepareEvent(u, script)))
  {
    var t := Apply(codec, s, PrepareEvent(u, script));
    PrepareFrame(s.disk, codec, u, script, u.slot, CompiledKind);
    forall slot | slot in t.latest ensures t.latest[slot].slot == slot && Holds(t.disk, codec, t.latest[slot]) {
      PrepareKeepsSlot(codec, s, u, script, slot);
    }
  }

  lemma {:induction false} ActivateFrame(d: Disk, token: Prepared, requested: Slot, o: PointerOutcome)
    ensures var after := Activate(d, token, requested, o).0;
      && after.cells == d.cells
      && (after.active == d.active || (token.slot == requested && after.active == Some(token.slot)))
  {
  }

  lemma {:induction false} CellsSound(codec: PayloadCodec, s: Device, disk: Disk)
    requires Sound(codec, s) && disk.cells == s.disk.cells && (disk.active.Some? ==> disk.active.value in s.latest)
    ensures Sound(codec, Device(disk, s.latest))
  {
    forall slot | slot in s.latest ensures s.latest[slot].slot == slot && Holds(disk, codec, s.latest[slot]) {
      StillHolds(s.disk, disk, codec, s.latest[slot]);
    }
  }

  lemma {:induction false} ActivateSound(codec: PayloadCodec, s: Device, token: Prepared, requested: Slot,
      o: PointerOutcome)
    requires Sound(codec, s) && Careful(codec, s, ActivateEvent(token, requested, o))
    ensures Sound(codec, Apply(codec, s, ActivateEvent(token, requested, o)))
  {
    ActivateFrame(s.disk, token, requested, o);
    CellsSound(codec, s, Activate(s.disk, token, requested, o).0);
  }

  lemma {:induction false} StepSound(codec: PayloadCodec, s: Device, e: Event)
    requires Sound(codec, s) && Careful(codec, s, e)
    ensures Sound(codec, Apply(codec, s, e))
  {
    match e
    case PrepareEvent(u, script) => PrepareSound(codec, s, u, script);
    case ActivateEvent(token, requested, o) => ActivateSound(codec, s, token, requested, o);
  }

  function Run(codec: PayloadCodec, s: Device, events: seq<Event>): Device
    decreases |events|
  {
    if events == [] then s else Run(codec, Apply(codec, s, events[0]), events[1..])
  }

  ghost predicate CarefulRun(codec: PayloadCodec, s: Device, events: seq<Event>)
    decreases |events|
  {
    events == [] || (Careful(codec, s, events[0]) && CarefulRun(codec, Apply(codec, s, events[0]), events[1..]))
  }

  /** The update the device would boot. */
  ghost function Current(s: Device): Option<Update> {
    if s.disk.active.Some? && s.disk.active.value in s.latest then Some(s.latest[s.disk.active.value]) else None
  }

  const BLANK := Device(Disk(None, map[]), map[])

  lemma {:induction false} RunSound(codec: PayloadCodec, s: Device, events: seq<Event>)
    requires Sound(codec, s) && CarefulRun(codec, s, events)
    ensures Sound(codec, Run(codec, s, events))
    decreases |events|
  {
    if events != [] {
      StepSound(codec, s, events[0]);
      RunSound(codec, Apply(codec, s, events[0]), events[1..]);
    }
  }

  /** From a blank store, however writes and discards fail, an activated device always boots a configuration it was prepared with. */
  lemma {:induction false} RunAlwaysBoots(codec: PayloadCodec, events: seq<Event>)
    requires Faithful(codec) && CarefulRun(codec, BLANK, events)
    ensures var s := Run(codec, BLANK, events);
      s.disk.active.Some? ==> Current(s).Some? && Boots(s.disk, codec, Current(s).value)
  {
    RunSound(codec, BLANK, events);
    var s := Run(codec, BLANK, events);
    if s.disk.active.Some? {
      HeldBoots(s.disk, codec, Current(s).value);
    }
  }

  /** No preparation changes what boots, whatever fails in it. */
  lemma {:induction false} PreparingKeepsCurrent(codec: PayloadCodec, s: Device, u: Update, script: Script)
    requires Sound(codec, s) && Careful(codec, s, PrepareEvent(u, script))
    ensures Current(Apply(codec, s, PrepareEvent(u, script))) == Current(s)
    ensures BootUnchanged(s.disk, codec, u, script)
  {
    PrepareFrame(s.disk, codec, u, script, u.slot, CompiledKind);
    InactiveSlotKeepsBoot(s.disk, codec, u, script);
  }

  /** An activation that reports success boots the prepared update; one that fails boots that or the earlier one. */
  lemma {:induction false} ActivatingMovesCurrent(codec: PayloadCodec, s: Device, token: Prepared, requested: Slot,
      o: PointerOutcome)
    requires Sound(codec, s) && Careful(codec, s, ActivateEvent(token, requested, o))
    ensures var now := Current(Apply(codec, s, ActivateEvent(token, requested, o)));
      && (token.slot != requested ==> now == Current(s))
      && (token.slot == requested ==> now == if o.Moved? || o.moved then Some(s.latest[token.slot]) else Current(s))
    ensures Activate(s.disk, token, requested, o).1.None? <==> token.slot == requested && o.Moved?
  {
  }

  // -- stale tokens ------------------------------------------------------------------------------------

  ghost predicate OldTokenBoots(d: Disk, codec: PayloadCodec, earlier: Update, u: Update, script: Script) {
    Boots(Activate(Prepare(d, codec, u, script).0, TokenOf(earlier), earlier.slot, Moved).0, codec, earlier)
  }

  /** A token stays good over a later preparation, whatever fails, exactly when that used another slot or did not compile. */
  lemma {:induction false} TokenStaysGoodExactly(d: Disk, codec: PayloadCodec, earlier: Update, u: Update)
    requires Faithful(codec) && Holds(d, codec, earlier)
    ensures (forall script :: OldTokenBoots(d, codec, earlier, u, script)) <==> u.slot != earlier.slot || Compiled(u).Err?
  {
    if u.slot != earlier.slot || Compiled(u).Err? {
      forall script ensures OldTokenBoots(d, codec, earlier, u, script) {
        PrepareFrame(d, codec, u, script, earlier.slot, CompiledKind);
        HeldBoots(Activate(Prepare(d, codec, u, script).0, TokenOf(earlier), earlier.slot, Moved).0, codec, earlier);
      }
    } else {
      SpoiledToken(d, codec, earlier, u);
    }
  }

  lemma {:induction false} SpoiledToken(d: Disk, codec: PayloadCodec, earlier: Update, u: Update)
    requires Holds(d, codec, earlier) && u.slot == earlier.slot && Compiled(u).Ok?
    ensures !OldTokenBoots(d, codec, earlier, u, Spoiler(d, u.slot))
  {
    SpoilerSpoils(d, codec, u);
    var after := Activate(Prepare(d, codec, u, Spoiler(d, u.slot)).0, TokenOf(earlier), earlier.slot, Moved).0;
    var room := HEADER_LEN + |codec.compiled(Compiled(earlier).value)|;
    assert Boot(after, codec, earlier.config.schemaVersion, earlier.config.configVersion, room) == SafeBoot(Store(NO_BLOB));
  }
}
