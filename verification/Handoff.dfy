/**
 * Handing an accepted TLS socket to a worker (examples/esp32c3_mqtt_server/src/main.rs).
 * One accept task and one worker per slot share busy flags, socket cells and latched signals.
 * A step is what a task does from one await to the next.
 */
module Handoff {
  import opened Basics

  /** A socket's number; sockets are numbered in the order they are made. */
  type Socket = nat

  datatype Worker =
    | Looking                     // about to look into its cell
    | Sleeping                    // waiting for its signal
    | Serving(socket: Socket)     // in the handshake or the connection loop
    | Releasing(socket: Socket)   // waiting for the lock of its busy flag

  datatype Acceptor =
    | Scanning(slot: nat)                         // about to lock the busy flag of a slot
    | Resting                                     // every slot was busy
    | Listening(slot: nat, socket: Socket)
    | Refunding(slot: nat, socket: Socket)        // accept failed; about to lock the busy flag
    | BackingOff(slot: nat, socket: Socket)       // flag cleared, its lock and the socket still held

  /** `made` gives the slot whose buffers back each socket; `puts` and `takes` log the sockets handed over. */
  datatype Sys = Sys(
    busy: seq<bool>, cells: seq<Option<Socket>>, signals: seq<bool>, workers: seq<Worker>, acceptor: Acceptor,
    made: seq<nat>, puts: seq<Socket>, takes: seq<Socket>)

  datatype Event =
    | Scan | Rescan | Accepted | AcceptFailed | Refund | BackoffOver
    | Look(worker: nat) | Wake(worker: nat) | Finish(worker: nat) | Release(worker: nat)

  ghost predicate Shape(s: Sys) {
    && |s.busy| == |s.cells| == |s.signals| == |s.workers| > 0
    && (s.acceptor.Resting? || s.acceptor.slot < |s.busy|)
  }

  function Start(n: nat): (s: Sys)
    requires n > 0
    ensures Inv(s)
  {
    Sys(seq(n, i => false), seq(n, i => None), seq(n, i => false), seq(n, i => Looking), Scanning(0), [], [], [])
  }

  predicate Enabled(s: Sys, e: Event) {
    match e
    case Scan => s.acceptor.Scanning?
    case Rescan => s.acceptor.Resting?
    case Accepted => s.acceptor.Listening?
    case AcceptFailed => s.acceptor.Listening?
    case Refund => s.acceptor.Refunding?
    case BackoffOver => s.acceptor.BackingOff?
    case Look(w) => w < |s.workers| && s.workers[w].Looking?
    case Wake(w) => w < |s.workers| && w < |s.signals| && s.workers[w].Sleeping? && s.signals[w]
    case Finish(w) => w < |s.workers| && s.workers[w].Serving?
    case Release(w) => w < |s.workers| && s.workers[w].Releasing? && !(s.acceptor.BackingOff? && s.acceptor.slot == w)
  }

  /** Takes the socket if there is one; otherwise waits, and a signal left over from before is used up at once. */
  function TakeOrSleep(s: Sys, w: nat): Sys
    requires Shape(s) && w < |s.workers|
  {
    match s.cells[w]
    case Some(socket) =>
      s.(cells := s.cells[w := None], workers := s.workers[w := Serving(socket)], takes := s.takes + [socket])
    case None => s.(signals := s.signals[w := false], workers := s.workers[w := Sleeping])
  }

  function Apply(s: Sys, e: Event): Sys
    requires Shape(s) && Enabled(s, e)
  {
    match e
    case Scan =>
      var i := s.acceptor.slot;
      if !s.busy[i] then s.(busy := s.busy[i := true], acceptor := Listening(i, |s.made|), made := s.made + [i])
      else s.(acceptor := if i + 1 < |s.busy| then Scanning(i + 1) else Resting)
    case Rescan => s.(acceptor := Scanning(0))
    case Accepted =>
      var i := s.acceptor.slot;
      s.(cells := s.cells[i := Some(s.acceptor.socket)], signals := s.signals[i := true],
         puts := s.puts + [s.acceptor.socket], acceptor := Scanning(0))
    case AcceptFailed => s.(acceptor := Refunding(s.acceptor.slot, s.acceptor.socket))
    case Refund =>
      s.(busy := s.busy[s.acceptor.slot := false], acceptor := BackingOff(s.acceptor.slot, s.acceptor.socket))
    case BackoffOver => s.(acceptor := Scanning(0))
    case Look(w) => TakeOrSleep(s, w)
    case Wake(w) => TakeOrSleep(s.(signals := s.signals[w := false]), w)
    case Finish(w) => s.(workers := s.workers[w := Releasing(s.workers[w].socket)])
    case Release(w) =>
      var freed := s.(busy := s.busy[w := false], workers := s.workers[w := Looking]);
      TakeOrSleep(freed, w)
  }

  // -- the invariant ------------------------------------------------------------------------------

  /** The socket the accept task holds on the buffers of slot `i`. */
  function HeldByAcceptor(s: Sys, i: nat): Option<Socket> {
    if (s.acceptor.Listening? || s.acceptor.Refunding? || s.acceptor.BackingOff?) && s.acceptor.slot == i
    then Some(s.acceptor.socket) else None
  }

  function HeldByWorker(s: Sys, i: nat): Option<Socket>
    requires i < |s.workers|
  {
    if s.workers[i].Serving? || s.workers[i].Releasing? then Some(s.workers[i].socket) else None
  }

  /** The accept task holds the reservation of slot `i`. */
  predicate Reserving(s: Sys, i: nat) {
    (s.acceptor.Listening? || s.acceptor.Refunding?) && s.acceptor.slot == i
  }

  ghost predicate At(s: Sys, socket: Option<Socket>, slot: nat) {
    socket.Some? ==> socket.value < |s.made| && s.made[socket.value] == slot
  }

  ghost predicate SlotOk(s: Sys, i: nat)
    requires Shape(s) && i < |s.busy|
  {
    // At most one socket lives on the buffers of the slot, wherever it is.
    && (HeldByAcceptor(s, i).Some? ==> s.cells[i].None? && HeldByWorker(s, i).None?)
    && (s.cells[i].Some? ==> HeldByWorker(s, i).None?)
    // The flag is set exactly while the slot is reserved, handed over or served.
    && (s.busy[i] <==> Reserving(s, i) || s.cells[i].Some? || HeldByWorker(s, i).Some?)
    // A socket stays with the slot that backs it.
    && At(s, HeldByAcceptor(s, i), i) && At(s, s.cells[i], i) && At(s, HeldByWorker(s, i), i)
    // No worker sleeps through a hand-over.
    && (s.workers[i].Sleeping? && s.cells[i].Some? ==> s.signals[i])
  }

  ghost predicate InCell(s: Sys, x: Socket) {
    exists i :: 0 <= i < |s.cells| && s.cells[i] == Some(x)
  }

  /** Every socket handed over is, once, either in its cell or taken. */
  ghost predicate LogOk(s: Sys) {
    && (forall a, b :: 0 <= a < b < |s.puts| ==> s.puts[a] != s.puts[b])
    && (forall a, b :: 0 <= a < b < |s.takes| ==> s.takes[a] != s.takes[b])
    && (forall x :: x in s.takes ==> x in s.puts)
    && (forall x :: x in s.puts ==> x < |s.made| && (InCell(s, x) <==> x !in s.takes))
    && (forall i :: 0 <= i < |s.cells| && s.cells[i].Some? ==> s.cells[i].value in s.puts)
  }

  /** A socket still with the accept task was not handed over. */
  ghost predicate AcceptorOk(s: Sys) {
    (s.acceptor.Listening? || s.acceptor.Refunding? || s.acceptor.BackingOff?) ==> s.acceptor.socket !in s.puts
  }

  ghost predicate Inv(s: Sys) {
    && Shape(s) && LogOk(s) && AcceptorOk(s)
    && (forall x :: 0 <= x < |s.made| ==> s.made[x] < |s.busy|)
    && forall i :: 0 <= i < |s.busy| ==> SlotOk(s, i)
  }

  lemma {:induction false} TakeSlots(s: Sys, w: nat)
    requires Shape(s) && w < |s.workers| && HeldByWorker(s, w).None?
    requires forall i :: 0 <= i < |s.busy| && i != w ==> SlotOk(s, i)
    requires SlotOk(s.(workers := s.workers[w := Looking]), w)
    ensures Shape(TakeOrSleep(s, w)) && forall i :: 0 <= i < |s.busy| ==> SlotOk(TakeOrSleep(s, w), i)
  {
    var t := TakeOrSleep(s, w);
    forall i | 0 <= i < |s.busy| ensures SlotOk(t, i) {
      if i != w { assert SlotOk(s, i); }
    }
  }

  /** Taking moves one socket from its cell to the log. */
  lemma {:induction false} TakeLog(s: Sys, w: nat)
    requires Shape(s) && w < |s.workers| && LogOk(s)
    requires forall i :: 0 <= i < |s.cells| ==> At(s, s.cells[i], i)
    ensures LogOk(TakeOrSleep(s, w))
  {
    var t := TakeOrSleep(s, w);
    if s.cells[w].Some? {
      var x := s.cells[w].value;
      assert InCell(s, x);
      forall y | y in t.puts ensures InCell(t, y) <==> y !in t.takes {
        if y == x {
          assert !InCell(t, x);
        } else if InCell(s, y) {
          var i :| 0 <= i < |s.cells| && s.cells[i] == Some(y);
          assert t.cells[i] == Some(y);
        }
      }
    } else {
      assert t.cells == s.cells;
      forall y | y in t.puts ensures InCell(t, y) <==> y !in t.takes {
        assert InCell(t, y) <==> InCell(s, y);
      }
    }
  }

  /** Handing over puts a fresh socket into an empty cell of a reserved slot. */
  lemma {:induction false} PutIsClean(s: Sys)
    requires Inv(s) && Enabled(s, Accepted)
    ensures s.cells[s.acceptor.slot].None? && s.busy[s.acceptor.slot]
    ensures s.acceptor.socket < |s.made| && s.made[s.acceptor.socket] == s.acceptor.slot
    ensures s.acceptor.socket !in s.puts
  {
    assert SlotOk(s, s.acceptor.slot);
  }

  lemma {:induction false} PutLog(s: Sys)
    requires Inv(s) && Enabled(s, Accepted)
    ensures LogOk(Apply(s, Accepted)) && AcceptorOk(Apply(s, Accepted))
  {
    PutIsClean(s);
    var t := Apply(s, Accepted);
    var w, x := s.acceptor.slot, s.acceptor.socket;
    assert t.cells[w] == Some(x);
    assert InCell(t, x) && x !in s.takes;
    forall y | y in s.puts ensures InCell(t, y) <==> InCell(s, y) {
      if InCell(s, y) {
        var i :| 0 <= i < |s.cells| && s.cells[i] == Some(y);
        assert t.cells[i] == Some(y);
      }
    }
  }

  lemma {:induction false} AcceptorStep(s: Sys, e: Event)
    requires Inv(s) && Enabled(s, e) && (e.Scan? || e.Rescan? || e.AcceptFailed? || e.Refund? || e.BackoffOver?)
    ensures Inv(Apply(s, e))
  {
    var t := Apply(s, e);
    SameLog(s, t);
    forall i | 0 <= i < |t.busy| ensures SlotOk(t, i) {
      assert SlotOk(s, i);
    }
  }

  lemma {:induction false} SameLog(s: Sys, t: Sys)
    requires LogOk(s) && t.cells == s.cells && t.puts == s.puts && t.takes == s.takes && |s.made| <= |t.made|
    ensures LogOk(t)
  {
    forall x | x in t.puts ensures InCell(t, x) <==> InCell(s, x) {
    }
  }

  lemma {:induction false} AcceptedStep(s: Sys)
    requires Inv(s) && Enabled(s, Accepted)
    ensures Inv(Apply(s, Accepted))
  {
    PutLog(s);
    PutIsClean(s);
    var t := Apply(s, Accepted);
    forall i | 0 <= i < |t.busy| ensures SlotOk(t, i) {
      assert SlotOk(s, i);
    }
  }

  lemma {:induction false} WorkerTakes(s: Sys, w: nat, e: Event)
    requires Inv(s) && Enabled(s, e) && (e == Look(w) || e == Wake(w))
    ensures Inv(Apply(s, e))
  {
    assert forall i :: 0 <= i < |s.busy| ==> SlotOk(s, i);
    var ready := if e == Wake(w) then s.(signals := s.signals[w := false]) else s;
    SameLog(s, ready);
    forall i | 0 <= i < |s.busy| && i != w ensures SlotOk(ready, i) {
      assert SlotOk(s, i);
    }
    assert SlotOk(s, w);
    TakeSlots(ready, w);
    assert forall i :: 0 <= i < |s.cells| ==> At(ready, ready.cells[i], i) by {
      forall i | 0 <= i < |s.cells| ensures At(ready, ready.cells[i], i) { assert SlotOk(s, i); }
    }
    TakeLog(ready, w);
  }

  lemma {:induction false} FinishStep(s: Sys, w: nat)
    requires Inv(s) && Enabled(s, Finish(w))
    ensures Inv(Apply(s, Finish(w)))
  {
    var t := Apply(s, Finish(w));
    SameLog(s, t);
    forall i | 0 <= i < |t.busy| ensures SlotOk(t, i) {
      assert SlotOk(s, i);
    }
  }

  lemma {:induction false} ReleaseStep(s: Sys, w: nat)
    requires Inv(s) && Enabled(s, Release(w))
    ensures Inv(Apply(s, Release(w)))
  {
    assert SlotOk(s, w);
    var freed := s.(busy := s.busy[w := false], workers := s.workers[w := Looking]);
    SameLog(s, freed);
    forall i | 0 <= i < |s.busy| ensures SlotOk(freed, i) {
      assert SlotOk(s, i);
    }
    assert freed.workers[w := Looking] == freed.workers;
    TakeSlots(freed, w);
    assert forall i :: 0 <= i < |s.cells| ==> At(freed, freed.cells[i], i) by {
      forall i | 0 <= i < |s.cells| ensures At(freed, freed.cells[i], i) { assert SlotOk(s, i); }
    }
    TakeLog(freed, w);
  }

  lemma {:induction false} StepInv(s: Sys, e: Event)
    requires Inv(s) && Enabled(s, e)
    ensures Inv(Apply(s, e))
  {
    match e
    case Accepted => AcceptedStep(s);
    case Look(w) => WorkerTakes(s, w, e);
    case Wake(w) => WorkerTakes(s, w, e);
    case Finish(w) => FinishStep(s, w);
    case Release(w) => ReleaseStep(s, w);
    case _ => AcceptorStep(s, e);
  }

  // -- runs ---------------------------------------------------------------------------------------

  /** The state after each event of an interleaving, or None where a task could not take its step. */
  ghost function Run(s: Sys, events: seq<Event>): Option<Sys>
    requires Inv(s)
    ensures Run(s, events).Some? ==> Inv(Run(s, events).value)
    decreases |events|
  {
    if events == [] then Some(s)
    else if !Enabled(s, events[0]) then None
    else
      StepInv(s, events[0]);
      Run(Apply(s, events[0]), events[1..])
  }

  /** How often a socket was taken. */
  ghost function Taken(s: Sys, x: Socket): nat {
    multiset(s.takes)[x]
  }

  lemma {:induction false} DistinctCount(xs: seq<Socket>, x: Socket)
    requires forall a, b :: 0 <= a < b < |xs| ==> xs[a] != xs[b]
    ensures multiset(xs)[x] == if x in xs then 1 else 0
  {
    if xs != [] {
      var n := |xs| - 1;
      DistinctCount(xs[..n], x);
      assert xs == xs[..n] + [xs[n]];
    }
  }

  /** The sockets alive on the buffers of a slot. */
  ghost function Alive(s: Sys, i: nat): nat
    requires Shape(s) && i < |s.busy|
  {
    (if HeldByAcceptor(s, i).Some? then 1 else 0) + (if s.cells[i].Some? then 1 else 0)
    + (if HeldByWorker(s, i).Some? then 1 else 0)
  }

  ghost predicate SlotSafe(s: Sys, i: nat)
    requires Shape(s) && i < |s.busy|
  {
    && Alive(s, i) <= 1
    && !(s.workers[i].Sleeping? && !s.signals[i] && s.cells[i].Some?)
    && At(s, s.cells[i], i) && At(s, HeldByWorker(s, i), i)
  }

  ghost predicate SocketSafe(s: Sys, x: Socket) {
    if x in s.puts
    then x < |s.made| && s.made[x] < |s.cells| && Taken(s, x) == if s.cells[s.made[x]] == Some(x) then 0 else 1
    else Taken(s, x) == 0
  }

  lemma {:induction false} SocketIsSafe(s: Sys, x: Socket)
    requires Inv(s)
    ensures SocketSafe(s, x)
  {
    DistinctCount(s.takes, x);
    if x in s.puts && InCell(s, x) {
      var i :| 0 <= i < |s.cells| && s.cells[i] == Some(x);
      assert SlotOk(s, i);
    }
  }

  /**
   * In every interleaving: at most one socket lives on a slot's buffers, no worker sleeps on an unset signal while its
   * cell holds a socket, and a handed-over socket is waiting in the cell of its own slot or was taken, exactly once.
   */
  lemma {:induction false} HandoffIsSafe(n: nat, events: seq<Event>)
    requires n > 0 && Run(Start(n), events).Some?
    ensures var s := Run(Start(n), events).value;
      && |s.busy| == n
      && (forall i :: 0 <= i < n ==> SlotSafe(s, i))
      && (forall x :: SocketSafe(s, x))
  {
    var s := Run(Start(n), events).value;
    RunKeepsSize(Start(n), events);
    forall i | 0 <= i < n ensures SlotSafe(s, i) {
      assert SlotOk(s, i);
    }
    forall x ensures SocketSafe(s, x) {
      SocketIsSafe(s, x);
    }
  }

  /** The worker of a slot with a waiting socket can always step, and its next step takes that socket. */
  lemma {:induction false} NextStepTakes(s: Sys, w: nat)
    requires Inv(s) && w < |s.cells| && s.cells[w].Some?
    ensures Enabled(s, Look(w)) || Enabled(s, Wake(w))
    ensures forall e :: (e == Look(w) || e == Wake(w)) && Enabled(s, e) ==>
      Apply(s, e).workers[w] == Serving(s.cells[w].value) && Apply(s, e).cells[w].None?
  {
    assert SlotOk(s, w);
  }

  /** The lock held through the back-off never blocks a worker that gives its slot back. */
  lemma {:induction false} ReleaseNeverBlocked(s: Sys, w: nat)
    requires Inv(s) && w < |s.workers| && s.workers[w].Releasing?
    ensures Enabled(s, Release(w))
  {
    assert SlotOk(s, w);
  }

  lemma {:induction false} RunKeepsSize(s: Sys, events: seq<Event>)
    requires Inv(s) && Run(s, events).Some?
    ensures |Run(s, events).value.busy| == |s.busy|
    decreases |events|
  {
    if events != [] {
      StepInv(s, events[0]);
      RunKeepsSize(Apply(s, events[0]), events[1..]);
    }
  }
}
