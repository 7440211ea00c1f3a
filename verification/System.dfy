/** A board over its whole life: boots, update requests, engine ticks,
    confirmations and power cuts, in any order. */
module SystemSpec {
  import opened Bytes
  import opened Record
  import opened Layouts
  import opened Flash
  import opened JournalSpec
  import opened ControlSpec
  import E = EngineSpec

  // The running application: its slot, its bank constraint (2 for none), the
  // update engine, and the journal object that confirmations use.
  datatype App = App(slot: nat, executing: nat, engine: E.Engine, control: Journal)

  // What select returned, the state of the image in flash at that time, and whether
  // a confirmation of the installation had been published by then.
  datatype Choice = Choice(installation: int, trial: bool, recorded: ImageState, confirmed: bool)

  // log records every selection. attempted holds the installations that were to be
  // confirmed while they ran as a trial, and confirmed those of them that flash has
  // since held as confirmed.
  datatype Board = Board(d: Device, app: Option<App>, log: seq<Choice>, attempted: set<int>, confirmed: set<int>)

  datatype Action =
    | Boot(start: nat, outcome: Outcome, script: seq<Event>, prepare: bool, timeout: nat, rest: seq<Event>,
           executing: nat, inactivity: nat)
    | Cut(after: seq<int>)
    | Tick(event: Event)
    | Install(header: seq<byte>, owner: Option<nat>, outcome: Outcome)
    | Chunk(offset: nat, data: seq<byte>, crc: int)
    | Abort(reason: Status)
    | Enable(value: bool)
    | Reserve(owner: Option<nat>)
    | Release(owner: Option<nat>)
    | Confirm(start: nat, outcome: Outcome, script: seq<Event>)

  // What load would find in a slot.
  function RecordedState(l: Layout, mem: seq<int>, slot: nat): ImageState {
    var s := Durable(l, mem);
    if s.Some? then s.value.Slot(slot).state else Empty
  }

  // Load would find the installation confirmed.
  predicate Published(l: Layout, mem: seq<int>, installation: int) {
    var s := Durable(l, mem);
    && s.Some?
    && (|| (s.value.a.state == Confirmed && s.value.a.installation == installation)
        || (s.value.b.state == Confirmed && s.value.b.installation == installation))
  }

  function Start(l: Layout, b: Board, a: Action): Board
    requires Fits(l, b.d.mem) && a.Boot?
  {
    if b.app.Some? || !b.d.op.NoOp? then b
    else
      var r := Select(l, 2, FRESH, b.d, a.start, a.outcome, a.script);
      if r.stage != Selected then b.(d := r.d)
      else
        var installation := r.selection.image.installation;
        var state := RecordedState(l, r.d.mem, r.selection.slot);
        var log := b.log + [Choice(installation, r.selection.trial, state, installation in b.confirmed)];
        var app := App(r.selection.slot, a.executing, E.Create(r.selection.slot, a.inactivity), FRESH);
        if !a.prepare then b.(d := r.d, app := Some(app), log := log)
        else
          // The bootloader clears checkpoint space before it hands over.
          var p := PrepareRuntime(l, 2, r.selection.slot, FRESH, r.d, a.timeout, a.start, Running, a.rest);
          if p.status != Ok then b.(d := p.d, log := log) else b.(d := p.d, app := Some(app), log := log)
  }

  // A confirmation while the engine works may find its operation finished, but is
  // not the one to be told that it failed.
  function Acknowledge(l: Layout, b: Board, p: App, a: Action): Board
    requires Fits(l, b.d.mem) && Ok?(l, p.control) && a.Confirm?
  {
    if a.outcome.Broken? && E.Active(p.engine) then b
    else
      var loaded := Load(l, p.control, b.d, a.outcome);
      var c := ControlSpec.Confirm(l, p.executing, p.control, b.d, p.slot, a.start, a.outcome, a.script);
      var attempted :=
        if loaded.status == Ok && loaded.snapshot.value.Slot(p.slot).state == Trial then
          b.attempted + {loaded.snapshot.value.Slot(p.slot).installation}
        else b.attempted;
      b.(d := c.d, attempted := attempted, app := if c.j.status == Busy then None else Some(p.(control := c.j)))
  }

  predicate Formed(l: Layout, b: Board) {
    Fits(l, b.d.mem) && (b.app.Some? ==> Ok?(l, b.app.value.engine.journal) && Ok?(l, b.app.value.control))
  }

  function Act(l: Layout, b: Board, a: Action): Board {
    if !Formed(l, b) then b
    else if a.Cut? then
      if Torn(l, b.d, a.after) then b.(d := Device(a.after, NoOp), app := None) else b
    else if a.Boot? then Start(l, b, a)
    else if b.app.None? then b
    else
      var p := b.app.value;
      match a
      case Tick(e) =>
        var (g, d) := E.Tick(l, p.executing, p.engine, b.d, e);
        b.(d := d, app := Some(p.(engine := g)))
      case Install(header, owner, o) =>
        var r := E.Begin(l, p.engine, b.d, header, owner, o);
        b.(d := r.d, app := Some(p.(engine := r.g)))
      case Chunk(offset, data, crc) => b.(app := Some(p.(engine := E.Chunk(l, p.engine, offset, data, crc).0)))
      case Abort(reason) => b.(app := Some(p.(engine := E.Abort(p.engine, reason))))
      case Enable(value) => b.(app := Some(p.(engine := E.Enable(p.engine, value))))
      case Reserve(owner) => b.(app := Some(p.(engine := E.Reserve(p.engine, owner).0)))
      case Release(owner) => b.(app := Some(p.(engine := E.Release(p.engine, owner))))
      case Confirm(_, _, _) => Acknowledge(l, b, p, a)
      case Boot(_, _, _, _, _, _, _, _) => b
      case Cut(_) => b
  }

  // Note the confirmations that have reached flash.
  function Witness(l: Layout, b: Board): Board {
    b.(confirmed := b.confirmed + set x | x in b.attempted && Published(l, b.d.mem, x))
  }

  function Step(l: Layout, b: Board, a: Action): Board { Witness(l, Act(l, b, a)) }
}
