/** The durable ledger: rows committed one ahead of a two-slot anchor, under crashes between
    and during the writes. */
module AccountingStore {
  import opened Text
  import P = AccountingPolicy
  import opened AccountingTransition

  datatype HoldCode = TailAdopted | ReplayMismatch | IdentityMismatch | AnchorConflict | ConflictingEvent

  datatype Hold = Hold(code: HoldCode, observed: nat, boot: nat)

  /** What one slot vouches for: a head, and possibly a hold. */
  datatype Anchor = Anchor(counter: nat, owner: Owner, sequence: nat, head: Digest, hold: Option<Hold>)

  /** A slot interrupted while being written reads as torn. */
  datatype Slot = Empty | Torn | Written(anchor: Anchor)

  datatype Disk = Disk(made: bool, rows: seq<Event>, slot0: Slot, slot1: Slot)

  datatype Store = Store(anchor: Anchor, projection: Projection, broken: bool)

  datatype Receipt = Receipt(sequence: nat, event: Event, counter: nat)

  /** The disk, the one open handle if any, and every receipt ever issued. */
  datatype World = World(disk: Disk, store: Option<Store>, receipts: seq<Receipt>)

  // --- Slots ------------------------------------------------------------------------------------

  function SlotOf(counter: nat): nat { if counter % 2 == 1 then 0 else 1 }

  function PutSlot(d: Disk, a: Anchor): Disk {
    if SlotOf(a.counter) == 0 then d.(slot0 := Written(a)) else d.(slot1 := Written(a))
  }

  function TearSlot(d: Disk, a: Anchor): Disk {
    if SlotOf(a.counter) == 0 then d.(slot0 := Torn) else d.(slot1 := Torn)
  }

  predicate Follows(newer: Anchor, older: Anchor) {
    newer.counter == older.counter + 1 && newer.owner == older.owner && older.sequence <= newer.sequence
    && (older.hold.Some? ==> newer.hold.Some?)
  }

  /** The newest anchor and the one before it; nothing when any slot is unreadable. */
  function ReadAnchor(d: Disk): Option<(Anchor, Option<Anchor>)> {
    if d.slot0.Torn? || d.slot1.Torn? || d.slot0.Empty? then None
    else if SlotOf(d.slot0.anchor.counter) != 0 then None
    else if d.slot1.Empty? then if d.slot0.anchor.counter == 1 then Some((d.slot0.anchor, None)) else None
    else if SlotOf(d.slot1.anchor.counter) != 1 then None
    else if Follows(d.slot1.anchor, d.slot0.anchor) then Some((d.slot1.anchor, Some(d.slot0.anchor)))
    else if Follows(d.slot0.anchor, d.slot1.anchor) then Some((d.slot0.anchor, Some(d.slot1.anchor)))
    else None
  }

  // --- Durable writes and faults --------------------------------------------------------------------

  datatype Write = Row(event: Event) | Anchored(anchor: Anchor)

  /** How an operation ends: undisturbed; or after some writes, the next one possibly torn, by a
      crash of the process or by an error it survives. */
  datatype Fault = NoFault | Stop(done: nat, torn: bool, crash: bool)

  function Put(d: Disk, w: Write): Disk {
    match w
    case Row(e) => d.(rows := d.rows + [e])
    case Anchored(a) => PutSlot(d, a)
  }

  function PutTwo(d: Disk, first: Write, second: Write): Disk { Put(Put(d, first), second) }

  function Tear(d: Disk, w: Write): Disk { if w.Anchored? then TearSlot(d, w.anchor) else d }

  /** What two writes in order leave behind. */
  function Land(d: Disk, first: Write, second: Write, fault: Fault): Disk {
    match fault
    case NoFault => PutTwo(d, first, second)
    case Stop(done, torn, _) =>
      if done == 0 then if torn then Tear(d, first) else d
      else if done == 1 then if torn then Tear(Put(d, first), second) else Put(d, first)
      else PutTwo(d, first, second)
  }

  /** The handle after its writes: moved on, latched broken, or gone. */
  function Settle(w: World, s: Store, first: Write, second: Write, fault: Fault, next: Store,
                  issued: seq<Receipt>): World {
    var disk := Land(w.disk, first, second, fault);
    if fault.NoFault? then World(disk, Some(next), w.receipts + issued)
    else if fault.crash then World(disk, None, w.receipts)
    else World(disk, Some(s.(broken := true)), w.receipts)
  }

  // --- Operations -------------------------------------------------------------------------------------

  predicate Storable(e: Event) { WellFormed(e) && e.actor.Receiver? && !e.body.ReservationCreated? }

  function AnchorFor(g: Event): Anchor { Anchor(1, g.owner, 1, Of(g), None) }

  function Create(weekFor: int -> Option<P.Week>, w: World, g: Event, fault: Fault): World {
    if w.disk.made || w.store.Some? || !Storable(g) || !g.body.Genesis? then w
    else
      var fresh_ := w.disk.(made := true);
      var disk := Land(fresh_, Row(g), Anchored(AnchorFor(g)), fault);
      var p := Replay(weekFor, [g]);
      if fault.NoFault? && p.Ok? then World(disk, Some(Store(AnchorFor(g), p.value, false)), w.receipts)
      else World(disk, None, w.receipts)
  }

  predicate Anchors(rows: seq<Event>, a: Anchor) {
    1 <= a.sequence <= |rows| && a.head == Of(rows[a.sequence - 1])
  }

  /** The handle's own view still agrees with the disk. */
  predicate Physical(d: Disk, s: Store) {
    var read := ReadAnchor(d);
    && read.Some? && read.value.0 == s.anchor && (read.value.1.Some? ==> Anchors(s.projection.events,
        read.value.1.value))
    && d.rows != [] && |d.rows| == |s.projection.events| && d.rows[|d.rows| - 1] == s.projection.events[|d.rows| - 1]
  }

  function Known(rows: seq<Event>, id: Id): Option<Event> {
    if rows == [] then None
    else if rows[0].eventId == id then Some(rows[0]) else Known(rows[1..], id)
  }

  function HeldOnce(a: Anchor, h: Hold): Anchor { a.(counter := a.counter + 1, hold := Some(h)) }

  function Append(weekFor: int -> Option<P.Week>, w: World, e: Event, head: Digest, boot: nat, fault: Fault): World {
    if w.store.None? then w
    else
      var s := w.store.value;
      if s.anchor.hold.Some? || s.broken || !Storable(e) then w
      else if !Physical(w.disk, s) then w.(store := Some(s.(broken := true)))
      else
        var known := Known(w.disk.rows, e.eventId);
        if known == Some(e) then w.(receipts := w.receipts + [Receipt(e.sequence, e, s.anchor.counter)])
        else if known.Some? then
          var a := HeldOnce(s.anchor, Hold(ConflictingEvent, |s.projection.events|, boot));
          var b := a.(counter := a.counter + 1);
          Settle(w, s, Anchored(a), Anchored(b), fault, s.(anchor := b), [])
        else if head != Head(s.projection) || |s.projection.events| >= MAX_EVENTS then w
        else
          var p := Apply(weekFor, s.projection, e);
          if p.Err? then w
          else
            var a := s.anchor.(counter := s.anchor.counter + 1, sequence := |p.value.events|, head := Head(p.value));
            Settle(w, s, Row(e), Anchored(a), fault, Store(a, p.value, false), [Receipt(e.sequence, e, a.counter)])
  }

  /** What opening finds, once the anchor is readable and not held. */
  function Verify(weekFor: int -> Option<P.Week>, d: Disk, a: Anchor, older: Option<Anchor>): (Option<HoldCode>,
      Option<Projection>) {
    var p := Replay(weekFor, d.rows);
    if p.Err? then (Some(ReplayMismatch), None)
    else if p.value.owner != a.owner then (Some(IdentityMismatch), None)
    else if !Anchors(d.rows, a) || (older.Some? && !Anchors(d.rows, older.value))
        || |d.rows| > a.sequence + 1 then (Some(AnchorConflict), None)
    else (None, Some(p.value))
  }

  /** Opening never writes unless it holds; a row the anchor does not know is adopted and held. */
  function Open(weekFor: int -> Option<P.Week>, w: World, boot: nat, fault: Fault): World {
    var read := ReadAnchor(w.disk);
    if w.store.Some? || !w.disk.made || w.disk.rows == [] || read.None? || read.value.0.hold.Some? then w
    else
      var (a, older) := read.value;
      var (bad, p) := Verify(weekFor, w.disk, a, older);
      if bad.Some? || p.None? then
          Holding(w, HeldOnce(a, Hold(if bad.Some? then bad.value else AnchorConflict, a.sequence, boot)), fault)
      else if |w.disk.rows| == a.sequence + 1 then
        Holding(w, HeldOnce(a, Hold(TailAdopted, |w.disk.rows|, boot)).(
            sequence := |w.disk.rows|, head := Head(p.value)), fault)
      else w.(store := Some(Store(a, p.value, false)))
  }

  /** A hold is written to both slots. */
  function Holding(w: World, a: Anchor, fault: Fault): World {
    w.(disk := Land(w.disk, Anchored(a), Anchored(a.(counter := a.counter + 1)), fault))
  }

  datatype Op =
    | DoCreate(genesis: Event, fault: Fault)
    | DoAppend(event: Event, head: Digest, boot: nat, fault: Fault)
    | DoOpen(boot: nat, fault: Fault)
    | Crash

  function Step(weekFor: int -> Option<P.Week>, w: World, op: Op): World {
    match op
    case DoCreate(g, fault) => Create(weekFor, w, g, fault)
    case DoAppend(e, head, boot, fault) => Append(weekFor, w, e, head, boot, fault)
    case DoOpen(boot, fault) => Open(weekFor, w, boot, fault)
    case Crash => w.(store := None)
  }

  function Run(weekFor: int -> Option<P.Week>, w: World, ops: seq<Op>): World
    decreases |ops|
  {
    if ops == [] then w else Run(weekFor, Step(weekFor, w, ops[0]), ops[1..])
  }

  const BLANK: World := World(Disk(false, [], Empty, Empty), None, [])

  // --- The invariant -----------------------------------------------------------------------------------

  /** The newest anchor that can be read from a slot at all. */
  function Newest(d: Disk): Option<Anchor> {
    match (d.slot0, d.slot1)
    case (Written(a), Written(b)) => Some(if a.counter > b.counter then a else b)
    case (Written(a), _) => Some(a)
    case (_, Written(b)) => Some(b)
    case _ => None
  }

  predicate Legible(d: Disk) { !d.slot0.Torn? && !d.slot1.Torn? }

  /** Each slot holds anchors of its own parity, and the two follow one another. */
  ghost predicate SlotsOk(d: Disk) {
    && (d.slot0.Written? ==> SlotOf(d.slot0.anchor.counter) == 0)
        && (d.slot1.Written? ==> SlotOf(d.slot1.anchor.counter) == 1)
    && (d.slot0.Empty? ==> d.slot1.Empty?)
    && (d.slot0.Written? && d.slot1.Empty? ==> d.slot0.anchor.counter == 1)
    && (d.slot0.Written? && d.slot1.Written? ==>
          Follows(d.slot0.anchor, d.slot1.anchor)
          || Follows(d.slot1.anchor, d.slot0.anchor))
    && !(d.slot0.Torn? && d.slot1.Torn?)
  }

  /** The anchored head is a prefix of the rows, at most one row behind. */
  ghost predicate Behind(d: Disk, a: Anchor) {
    && Anchors(d.rows, a) && |d.rows| <= a.sequence + 1 && a.owner == d.rows[0].owner
  }

  ghost predicate DiskOk(d: Disk) {
    && SlotsOk(d)
    && (d.slot0.Written? ==> Anchors(d.rows, d.slot0.anchor)) && (d.slot1.Written? ==> Anchors(d.rows, d.slot1.anchor))
    && (Newest(d).Some? ==> Behind(d, Newest(d).value))
    && (d.rows != [] ==> d.made) && (!d.slot0.Empty? ==> d.made)
  }

  /** A handle that can write sees exactly what is on the disk, with the anchor at the last row. */
  ghost predicate StoreOk(weekFor: int -> Option<P.Week>, d: Disk, s: Store) {
    && Newest(d).Some?
    && (!s.broken ==> Legible(d) && Newest(d).value == s.anchor && |d.rows| == s.anchor.sequence <= MAX_EVENTS
                      && d.rows != [] && Fold(weekFor, d.rows) == Ok(s.projection))
  }

  /** Every receipt names a row that is there and anchored. */
  ghost predicate ReceiptsOk(d: Disk, receipts: seq<Receipt>) {
    forall r | r in receipts :: Newest(d).Some? && 1 <= r.sequence <= Newest(d).value.sequence
        && r.sequence <= |d.rows| && d.rows[r.sequence - 1] == r.event
  }

  ghost predicate Inv(weekFor: int -> Option<P.Week>, w: World) {
    && DiskOk(w.disk) && ReceiptsOk(w.disk, w.receipts)
    && (w.store.Some? ==> StoreOk(weekFor, w.disk, w.store.value))
  }

  // --- One slot write -----------------------------------------------------------------------------------

  lemma Parity(n: nat)
    ensures SlotOf(n + 1) == 1 - SlotOf(n)
  {
  }

  /** What any write of the next anchor can leave: the new anchor, or the old one beside a torn slot. */
  lemma NextSlot(d: Disk, a: Anchor)
    requires DiskOk(d) && Legible(d) && Newest(d).Some? && Follows(a, Newest(d).value) && Behind(d, a)
    ensures DiskOk(PutSlot(d, a)) && Legible(PutSlot(d, a)) && Newest(PutSlot(d, a)) == Some(a)
    ensures DiskOk(TearSlot(d, a)) && !Legible(TearSlot(d, a)) && Newest(TearSlot(d, a)) == Newest(d)
  {
    Parity(Newest(d).value.counter);
  }

  lemma ReadNewest(d: Disk)
    requires DiskOk(d)
    ensures ReadAnchor(d).Some? <==> Legible(d) && Newest(d).Some?
    ensures ReadAnchor(d).Some? ==> ReadAnchor(d).value.0 == Newest(d).value
    ensures ReadAnchor(d).Some? && ReadAnchor(d).value.1.Some? ==> Anchors(d.rows, ReadAnchor(d).value.1.value)
  {
  }

  // --- Every operation keeps the invariant, whatever fails --------------------------------------------------

  /** Rows, receipts and the anchored head only grow, and a hold stays. */
  ghost predicate Grows(w: World, w': World) {
    && w.disk.rows <= w'.disk.rows && w.receipts <= w'.receipts
    && (Newest(w.disk).Some? ==>
          && Newest(w'.disk).Some? && Newest(w.disk).value.counter <= Newest(w'.disk).value.counter
          && Newest(w.disk).value.sequence <= Newest(w'.disk).value.sequence
          && (Newest(w.disk).value.hold.Some? ==> Newest(w'.disk).value.hold == Newest(w.disk).value.hold))
  }

  lemma ReceiptsStay(d: Disk, d': Disk, receipts: seq<Receipt>)
    requires ReceiptsOk(d, receipts) && d.rows <= d'.rows
    requires Newest(d).Some? ==> Newest(d').Some? && Newest(d).value.sequence <= Newest(d').value.sequence
    requires DiskOk(d')
    ensures ReceiptsOk(d', receipts)
  {
    forall r | r in receipts ensures d'.rows[r.sequence - 1] == r.event { assert d.rows[r.sequence - 1] == r.event; }
  }

  /** Writing a hold to both slots, stopped anywhere. */
  lemma HoldLands(d: Disk, a: Anchor, fault: Fault)
    requires DiskOk(d) && Legible(d) && Newest(d).Some? && Follows(a, Newest(d).value) && Behind(d, a) && a.hold.Some?
    ensures var d' := Land(d, Anchored(a), Anchored(a.(counter := a.counter + 1)), fault);
            && DiskOk(d') && d'.rows == d.rows && Newest(d').Some?
            && (Newest(d').value == Newest(d).value || Newest(d').value.(counter := a.counter) == a)
            && Newest(d).value.counter <= Newest(d').value.counter
                && Newest(d).value.sequence <= Newest(d').value.sequence
            && (fault.NoFault? ==> Legible(d') && Newest(d').value == a.(counter := a.counter + 1))
  {
    hide DiskOk, Legible, Newest;
    NextSlot(d, a);
    NextSlot(PutSlot(d, a), a.(counter := a.counter + 1));
  }

  /** Committing a row and then its anchor, stopped anywhere. */
  lemma AppendLands(d: Disk, e: Event, a: Anchor, fault: Fault)
    requires DiskOk(d) && Legible(d) && Newest(d).Some? && |d.rows| == Newest(d).value.sequence && d.rows != []
    requires Follows(a, Newest(d).value) && a.sequence == |d.rows| + 1 && a.head == Of(e)
    ensures var d' := Land(d, Row(e), Anchored(a), fault);
            && DiskOk(d') && d.rows <= d'.rows && Newest(d').Some?
            && (Newest(d').value == Newest(d).value || Newest(d').value == a)
            && (fault.NoFault? ==> Legible(d') && Newest(d').value == a && d'.rows == d.rows + [e])
  {
    var d1 := d.(rows := d.rows + [e]);
    assert DiskOk(d1) && Legible(d1) && Newest(d1) == Newest(d) && Behind(d1, a);
    hide DiskOk, Legible, Newest;
    NextSlot(d1, a);
  }

  lemma CreateKeeps(weekFor: int -> Option<P.Week>, w: World, g: Event, fault: Fault)
    requires Inv(weekFor, w)
    ensures Inv(weekFor, Create(weekFor, w, g, fault)) && Grows(w, Create(weekFor, w, g, fault))
  {
    hide Begin, Apply;
    if !w.disk.made && w.store.None? && Storable(g) && g.body.Genesis? {
      var p := Fold(weekFor, [g]);
      assert w.disk == BLANK.disk;
      assert [] + [g] == [g];
    }
  }

  lemma HoldingKeeps(weekFor: int -> Option<P.Week>, w: World, a: Anchor, fault: Fault)
    requires Inv(weekFor, w) && w.store.None? && Legible(w.disk) && Newest(w.disk).Some?
        && Newest(w.disk).value.hold.None?
    requires Follows(a, Newest(w.disk).value) && Behind(w.disk, a) && a.hold.Some?
    ensures Inv(weekFor, Holding(w, a, fault)) && Grows(w, Holding(w, a, fault))
  {
    hide DiskOk, Legible, Newest, Behind, Land;
    HoldLands(w.disk, a, fault);
    ReceiptsStay(w.disk, Holding(w, a, fault).disk, w.receipts);
  }

  lemma OpenKeeps(weekFor: int -> Option<P.Week>, w: World, boot: nat, fault: Fault)
    requires Inv(weekFor, w)
    ensures Inv(weekFor, Open(weekFor, w, boot, fault)) && Grows(w, Open(weekFor, w, boot, fault))
  {
    hide DiskOk, Fold, Legible, ReadAnchor, Newest, Land;
    ReadNewest(w.disk);
    var read := ReadAnchor(w.disk);
    if w.store.None? && w.disk.made && w.disk.rows != [] && read.Some? && read.value.0.hold.None? {
      var (a, older) := read.value;
      NewestBehind(w.disk);
      var (bad, p) := Verify(weekFor, w.disk, a, older);
      if bad.Some? {
        HoldingKeeps(weekFor, w, HeldOnce(a, Hold(bad.value, a.sequence, boot)), fault);
      } else if |w.disk.rows| == a.sequence + 1 {
        ReplayKeeps(weekFor, w.disk.rows);
        HoldingKeeps(weekFor, w, HeldOnce(a, Hold(TailAdopted, |w.disk.rows|, boot)).(sequence := |w.disk.rows|,
            head := Head(p.value)), fault);
      }
    }
  }

  lemma NewestBehind(d: Disk)
    requires DiskOk(d) && Newest(d).Some?
    ensures Behind(d, Newest(d).value)
  {
  }

  lemma {:induction false} KnownIs(rows: seq<Event>, id: Id)
    ensures Known(rows, id).Some? ==> Known(rows, id).value in rows && Known(rows, id).value.eventId == id
    ensures Known(rows, id).None? ==> forall e | e in rows :: e.eventId != id
  {
    if rows != [] {
      KnownIs(rows[1..], id);
      assert forall e | e in rows :: e == rows[0] || e in rows[1..];
    }
  }

  lemma ConflictKeeps(weekFor: int -> Option<P.Week>, w: World, s: Store, boot: nat, fault: Fault)
    requires Inv(weekFor, w) && w.store == Some(s) && !s.broken && s.anchor.hold.None?
    ensures var a := HeldOnce(s.anchor, Hold(ConflictingEvent, |s.projection.events|, boot));
            var b := a.(counter := a.counter + 1);
            var w' := Settle(w, s, Anchored(a), Anchored(b), fault, s.(anchor := b), []);
            Inv(weekFor, w') && Grows(w, w')
  {
    hide DiskOk, Legible, Newest, Land, Fold;
    NewestBehind(w.disk);
    var a := HeldOnce(s.anchor, Hold(ConflictingEvent, |s.projection.events|, boot));
    HoldLands(w.disk, a, fault);
    ReceiptsStay(w.disk, Land(w.disk, Anchored(a), Anchored(a.(counter := a.counter + 1)), fault), w.receipts);
    assert w.receipts + [] == w.receipts;
  }

  lemma AddKeeps(weekFor: int -> Option<P.Week>, w: World, s: Store, e: Event, fault: Fault)
    requires Inv(weekFor, w) && w.store == Some(s) && !s.broken && s.anchor.hold.None?
        && |s.projection.events| < MAX_EVENTS
    requires Apply(weekFor, s.projection, e).Ok? && Known(w.disk.rows, e.eventId).None?
    ensures var p := Apply(weekFor, s.projection, e).value;
            var a := s.anchor.(counter := s.anchor.counter + 1, sequence := |p.events|, head := Head(p));
            var w' := Settle(w, s, Row(e), Anchored(a), fault, Store(a, p, false), [Receipt(e.sequence, e, a.counter)]);
            Inv(weekFor, w') && Grows(w, w')
  {
    hide DiskOk, Legible, Newest, Land, Fold, Apply, Known;
    NewestBehind(w.disk);
    var rows := w.disk.rows;
    ReplayKeeps(weekFor, rows);
    ApplyKeeps(weekFor, s.projection, e);
    Extends(weekFor, rows, s.projection, e);
    var p := Apply(weekFor, s.projection, e).value;
    var a := s.anchor.(counter := s.anchor.counter + 1, sequence := |p.events|, head := Head(p));
    AppendLands(w.disk, e, a, fault);
    var d' := Land(w.disk, Row(e), Anchored(a), fault);
    ReceiptsStay(w.disk, d', w.receipts);
  }

  /** A new event id makes the projection longer, and replay agrees. */
  lemma Extends(weekFor: int -> Option<P.Week>, rows: seq<Event>, p: Projection, e: Event)
    requires rows != [] && Fold(weekFor, rows) == Ok(p) && Apply(weekFor, p, e).Ok? && Known(rows, e.eventId).None?
    ensures Apply(weekFor, p, e).value.events == rows + [e] && Fold(weekFor, rows + [e]) == Apply(weekFor, p, e)
        && e.sequence == |rows| + 1
  {
    hide Apply, Fold;
    LiveEqualsReplay(weekFor, rows, e);
    ReplayKeeps(weekFor, rows);
    ApplyKeeps(weekFor, p, e);
    KnownIs(rows, e.eventId);
    if Apply(weekFor, p, e).value == p { Unchanged(weekFor, p, e); }
  }

  lemma Unchanged(weekFor: int -> Option<P.Week>, p: Projection, e: Event)
    requires Apply(weekFor, p, e) == Ok(p)
    ensures e in p.events
  {
    hide P.Evaluate, Unclaimed, RoleFree, ReserveChecks, BodyIds, Change, WellFormed;
    assert |p.events + [e]| == |p.events| + 1;
  }

  lemma AppendKeeps(weekFor: int -> Option<P.Week>, w: World, e: Event, head: Digest, boot: nat, fault: Fault)
    requires Inv(weekFor, w)
    ensures Inv(weekFor, Append(weekFor, w, e, head, boot, fault)) && Grows(w, Append(weekFor, w, e, head, boot, fault))
  {
    hide DiskOk, Legible, Newest, Land, Fold, Apply, Known, Settle, Physical, Storable;
    if w.store.Some? && !w.store.value.broken && w.store.value.anchor.hold.None? {
      var s := w.store.value;
      var known := Known(w.disk.rows, e.eventId);
      KnownIs(w.disk.rows, e.eventId);
      if known == Some(e) {
        AgainKeeps(weekFor, w, s, e);
      } else if known.Some? {
        ConflictKeeps(weekFor, w, s, boot, fault);
      } else if |s.projection.events| < MAX_EVENTS && Apply(weekFor, s.projection, e).Ok? {
        AddKeeps(weekFor, w, s, e, fault);
      }
    }
  }

  lemma AgainKeeps(weekFor: int -> Option<P.Week>, w: World, s: Store, e: Event)
    requires Inv(weekFor, w) && w.store == Some(s) && !s.broken && e in w.disk.rows
    ensures var w' := w.(receipts := w.receipts + [Receipt(e.sequence, e, s.anchor.counter)]);
              Inv(weekFor, w') && Grows(w, w')
  {
    hide DiskOk, Legible, Newest, Fold;
    ReplayKeeps(weekFor, w.disk.rows);
    var i :| 0 <= i < |w.disk.rows| && w.disk.rows[i] == e;
    assert Link(w.disk.rows, i);
  }

  lemma StepKeeps(weekFor: int -> Option<P.Week>, w: World, op: Op)
    requires Inv(weekFor, w)
    ensures Inv(weekFor, Step(weekFor, w, op)) && Grows(w, Step(weekFor, w, op))
  {
    hide Inv, Grows, Create, Append, Open;
    match op
    case DoCreate(g, fault) => CreateKeeps(weekFor, w, g, fault);
    case DoAppend(e, head, boot, fault) => AppendKeeps(weekFor, w, e, head, boot, fault);
    case DoOpen(boot, fault) => OpenKeeps(weekFor, w, boot, fault);
    case Crash => CrashKeeps(weekFor, w);
  }

  lemma CrashKeeps(weekFor: int -> Option<P.Week>, w: World)
    requires Inv(weekFor, w)
    ensures Inv(weekFor, w.(store := None)) && Grows(w, w.(store := None))
  {
    hide DiskOk, Newest;
  }

  lemma {:induction false} RunKeeps(weekFor: int -> Option<P.Week>, w: World, ops: seq<Op>)
    requires Inv(weekFor, w)
    ensures Inv(weekFor, Run(weekFor, w, ops)) && Grows(w, Run(weekFor, w, ops))
    decreases |ops|
  {
    hide Inv, Step;
    if ops != [] {
      StepKeeps(weekFor, w, ops[0]);
      RunKeeps(weekFor, Step(weekFor, w, ops[0]), ops[1..]);
    }
  }

  lemma BlankInv(weekFor: int -> Option<P.Week>)
    ensures Inv(weekFor, BLANK)
  {
  }

  // --- What follows -----------------------------------------------------------------------------------------

  /** Crash safety over every run of create, append and open with every fault: the newest
      readable anchor names a prefix of the rows and is at most one behind; every receipt ever
      issued names a row that is present and anchored; and a handle that can write has its
      anchor at the last row, so an image that is one behind is never open for writing. */
  lemma CrashSafe(weekFor: int -> Option<P.Week>, ops: seq<Op>)
    ensures var w := Run(weekFor, BLANK, ops);
            && (Newest(w.disk).Some? ==> var a := Newest(w.disk).value;
                  && 1 <= a.sequence <= |w.disk.rows| <= a.sequence + 1 && a.head == Of(w.disk.rows[a.sequence - 1]))
            && (forall r | r in w.receipts ::
                  && Newest(w.disk).Some? && 1 <= r.sequence <= Newest(w.disk).value.sequence
                      && r.sequence <= |w.disk.rows|
                  && w.disk.rows[r.sequence - 1] == r.event)
            && (w.store.Some? && !w.store.value.broken ==>
                  && Newest(w.disk) == Some(w.store.value.anchor) && w.store.value.anchor.sequence == |w.disk.rows|
                  && w.store.value.projection.events == w.disk.rows)
  {
    hide Run, Newest, Fold;
    BlankInv(weekFor);
    RunKeeps(weekFor, BLANK, ops);
    var w := Run(weekFor, BLANK, ops);
    if w.store.Some? && !w.store.value.broken { ReplayKeeps(weekFor, w.disk.rows); }
  }

  /** Receipts, rows and holds outlive every continuation. */
  lemma NothingIsLost(weekFor: int -> Option<P.Week>, w: World, ops: seq<Op>)
    requires Inv(weekFor, w)
    ensures var w' := Run(weekFor, w, ops);
            && w.disk.rows <= w'.disk.rows && w.receipts <= w'.receipts
            && (Newest(w.disk).Some? && Newest(w.disk).value.hold.Some? ==>
                  Newest(w'.disk).Some? && Newest(w'.disk).value.hold == Newest(w.disk).value.hold)
  {
    hide Inv, Run, Newest;
    RunKeeps(weekFor, w, ops);
  }

  /** No handle can write, and the image is held, unreadable or one row ahead. */
  ghost predicate Frozen(w: World) {
    && Newest(w.disk).Some?
    && (w.store.Some? ==> w.store.value.broken || w.store.value.anchor.hold.Some?)
    && (!Legible(w.disk) || Newest(w.disk).value.hold.Some? || |w.disk.rows| == Newest(w.disk).value.sequence + 1)
  }

  lemma FrozenStep(weekFor: int -> Option<P.Week>, w: World, op: Op)
    requires Inv(weekFor, w) && Frozen(w)
    ensures var w' := Step(weekFor, w, op); Frozen(w') && w'.disk.rows == w.disk.rows && w'.receipts == w.receipts
  {
    match op
    case DoCreate(g, fault) => assert w.disk.made;
    case DoAppend(e, head, boot, fault) =>
    case DoOpen(boot, fault) => FrozenOpen(weekFor, w, boot, fault);
    case Crash =>
  }

  lemma FrozenOpen(weekFor: int -> Option<P.Week>, w: World, boot: nat, fault: Fault)
    requires Inv(weekFor, w) && Frozen(w)
    ensures var w' := Open(weekFor, w, boot, fault);
              Frozen(w') && w'.disk.rows == w.disk.rows && w'.receipts == w.receipts
  {
    hide DiskOk, Fold, Legible, ReadAnchor, Newest, Land;
    ReadNewest(w.disk);
    var read := ReadAnchor(w.disk);
    if w.store.None? && w.disk.made && w.disk.rows != [] && read.Some? && read.value.0.hold.None? {
      var (a, older) := read.value;
      NewestBehind(w.disk);
      var (bad, p) := Verify(weekFor, w.disk, a, older);
      if bad.Some? {
        FrozenHold(w, HeldOnce(a, Hold(bad.value, a.sequence, boot)), fault);
      } else {
        ReplayKeeps(weekFor, w.disk.rows);
        FrozenHold(w, HeldOnce(a, Hold(TailAdopted, |w.disk.rows|, boot)).(
            sequence := |w.disk.rows|, head := Head(p.value)), fault);
      }
    }
  }

  lemma FrozenHold(w: World, a: Anchor, fault: Fault)
    requires DiskOk(w.disk) && Frozen(w) && w.store.None? && Legible(w.disk) && Newest(w.disk).value.hold.None?
    requires Follows(a, Newest(w.disk).value) && Behind(w.disk, a) && a.hold.Some?
    ensures Frozen(Holding(w, a, fault)) && Holding(w, a, fault).disk.rows == w.disk.rows
  {
    hide DiskOk, Land, Legible, Newest, Behind;
    HoldLands(w.disk, a, fault);
    if Newest(Holding(w, a, fault).disk).value == Newest(w.disk).value { StillBehind(w.disk, a, fault); }
  }

  lemma StillBehind(d: Disk, a: Anchor, fault: Fault)
    requires Newest(d).Some?
    ensures Land(d, Anchored(a), Anchored(a.(counter := a.counter + 1)), fault).rows == d.rows
  {
  }

  /** Once an image is one row ahead of its anchor, held or unreadable with no handle left to
      write, no continuation ever adds a row or issues a receipt. */
  lemma {:induction false} FrozenForever(weekFor: int -> Option<P.Week>, w: World, ops: seq<Op>)
    requires Inv(weekFor, w) && Frozen(w)
    ensures var w' := Run(weekFor, w, ops); Frozen(w') && w'.disk.rows == w.disk.rows && w'.receipts == w.receipts
    decreases |ops|
  {
    hide Inv, Step, Frozen;
    if ops != [] {
      FrozenStep(weekFor, w, ops[0]);
      StepKeeps(weekFor, w, ops[0]);
      FrozenForever(weekFor, Step(weekFor, w, ops[0]), ops[1..]);
    }
  }
}
