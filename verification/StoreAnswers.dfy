/** When the ledger store opens, takes an event and issues a receipt, over every run with every fault. */
module StoreAnswers {
  import opened Text
  import P = AccountingPolicy
  import opened AccountingTransition
  import opened AccountingStore
  import A = AccountingArchive

  // --- The rows always replay, unless the first one never did ------------------------------------------

  /** The three identities of a ledger's first event differ. */
  predicate Distinct(g: Event) {
    g.owner.ledger != g.owner.experiment && g.owner.ledger != g.eventId && g.owner.experiment != g.eventId
  }

  /** A first event that replays is followed by rows that replay; one that does not stays alone. */
  ghost predicate Replayable(weekFor: int -> Option<P.Week>, rows: seq<Event>) {
    rows != [] ==>
      && |rows| <= MAX_EVENTS && Storable(rows[0]) && rows[0].body.Genesis?
      && if Distinct(rows[0]) then Fold(weekFor, rows).Ok? else |rows| == 1
  }

  lemma BeginExactly(g: Event)
    requires Storable(g) && g.body.Genesis?
    ensures Begin(g).Ok? <==> Distinct(g)
  {
    var ids := [g.owner.ledger, g.owner.experiment, g.eventId];
    assert ids[0] == g.owner.ledger && ids[1] == g.owner.experiment && ids[2] == g.eventId;
  }

  lemma FirstReplays(weekFor: int -> Option<P.Week>, g: Event)
    requires Storable(g) && g.body.Genesis?
    ensures Replayable(weekFor, [g]) && (Replay(weekFor, [g]).Ok? <==> Distinct(g))
  {
    hide Begin, Storable;
    BeginExactly(g);
    assert [g][0] == g;
  }

  lemma LandRows(d: Disk, e: Event, a: Anchor, fault: Fault)
    ensures Land(d, Row(e), Anchored(a), fault).rows in {d.rows, d.rows + [e]}
  {
  }

  lemma HoldRows(d: Disk, a: Anchor, b: Anchor, fault: Fault)
    ensures Land(d, Anchored(a), Anchored(b), fault).rows == d.rows
  {
  }

  lemma AddReplays(weekFor: int -> Option<P.Week>, w: World, e: Event)
    requires Inv(weekFor, w) && w.store.Some? && !w.store.value.broken && Replayable(weekFor, w.disk.rows)
    requires Apply(weekFor, w.store.value.projection, e).Ok? && Known(w.disk.rows, e.eventId).None?
    requires |w.store.value.projection.events| < MAX_EVENTS
    ensures Replayable(weekFor, w.disk.rows + [e])
  {
    hide DiskOk, ReceiptsOk, Legible, Newest, Fold, Apply, Known, Storable;
    var rows := w.disk.rows;
    ReplayKeeps(weekFor, rows);
    Extends(weekFor, rows, w.store.value.projection, e);
    assert (rows + [e])[0] == rows[0];
    if !Distinct(rows[0]) { OnlyFirst(weekFor, rows); }
  }

  lemma OnlyFirst(weekFor: int -> Option<P.Week>, rows: seq<Event>)
    requires |rows| == 1 && Storable(rows[0]) && rows[0].body.Genesis? && !Distinct(rows[0])
    ensures Fold(weekFor, rows).Err?
  {
    hide Begin, Storable;
    BeginExactly(rows[0]);
  }

  lemma StepReplays(weekFor: int -> Option<P.Week>, w: World, op: Op)
    requires Inv(weekFor, w) && Replayable(weekFor, w.disk.rows)
    ensures Replayable(weekFor, Step(weekFor, w, op).disk.rows)
  {
    hide Inv, Replayable, Create, Append, Open;
    match op
    case DoCreate(g, fault) => CreateReplays(weekFor, w, g, fault);
    case DoAppend(e, head, boot, fault) => AppendReplays(weekFor, w, e, head, boot, fault);
    case DoOpen(boot, fault) => OpenRows(weekFor, w, boot, fault);
    case Crash =>
  }

  lemma CreateReplays(weekFor: int -> Option<P.Week>, w: World, g: Event, fault: Fault)
    requires Inv(weekFor, w) && Replayable(weekFor, w.disk.rows)
    ensures Replayable(weekFor, Create(weekFor, w, g, fault).disk.rows)
  {
    hide Replayable, Land, Storable, Replay;
    if !w.disk.made && w.store.None? && Storable(g) && g.body.Genesis? {
      LandRows(w.disk.(made := true), g, AnchorFor(g), fault);
      FirstReplays(weekFor, g);
      assert w.disk.rows == [] && [] + [g] == [g];
    }
  }

  lemma AppendReplays(weekFor: int -> Option<P.Week>, w: World, e: Event, head: Digest, boot: nat, fault: Fault)
    requires Inv(weekFor, w) && Replayable(weekFor, w.disk.rows)
    ensures Replayable(weekFor, Append(weekFor, w, e, head, boot, fault).disk.rows)
  {
    hide Inv, Replayable, Land, Storable, Physical, Apply, Known, Head;
    if w.store.Some? && !w.store.value.broken && w.store.value.anchor.hold.None? {
      var s := w.store.value;
      var a := HeldOnce(s.anchor, Hold(ConflictingEvent, |s.projection.events|, boot));
      HoldRows(w.disk, a, a.(counter := a.counter + 1), fault);
      var p := Apply(weekFor, s.projection, e);
      if p.Ok? && Known(w.disk.rows, e.eventId).None? && |s.projection.events| < MAX_EVENTS {
        LandRows(w.disk, e, s.anchor.(counter := s.anchor.counter + 1, sequence := |p.value.events|,
                                      head := Head(p.value)), fault);
        AddReplays(weekFor, w, e);
      }
    }
  }

  lemma OpenRows(weekFor: int -> Option<P.Week>, w: World, boot: nat, fault: Fault)
    ensures Open(weekFor, w, boot, fault).disk.rows == w.disk.rows
  {
    hide Verify, ReadAnchor;
  }

  lemma {:induction false} RunReplays(weekFor: int -> Option<P.Week>, w: World, ops: seq<Op>)
    requires Inv(weekFor, w) && Replayable(weekFor, w.disk.rows)
    ensures Replayable(weekFor, Run(weekFor, w, ops).disk.rows)
    decreases |ops|
  {
    hide Inv, Step, Replayable;
    if ops != [] {
      StepKeeps(weekFor, w, ops[0]);
      StepReplays(weekFor, w, ops[0]);
      RunReplays(weekFor, Step(weekFor, w, ops[0]), ops[1..]);
    }
  }

  lemma Reached(weekFor: int -> Option<P.Week>, ops: seq<Op>)
    ensures var w := Run(weekFor, BLANK, ops); Inv(weekFor, w) && Replayable(weekFor, w.disk.rows)
  {
    hide Run, Inv;
    BlankInv(weekFor);
    RunKeeps(weekFor, BLANK, ops);
    RunReplays(weekFor, BLANK, ops);
  }

  /** Over every run the rows replay exactly when the first event's identities differ; otherwise it stays
      the only row. */
  lemma RowsReplay(weekFor: int -> Option<P.Week>, ops: seq<Op>)
    ensures var rows := Run(weekFor, BLANK, ops).disk.rows;
            rows != [] ==>
              && (Replay(weekFor, rows).Ok? <==> Distinct(rows[0]))
              && (!Distinct(rows[0]) ==> |rows| == 1)
  {
    hide Run, Inv, Storable;
    BlankInv(weekFor);
    RunReplays(weekFor, BLANK, ops);
    var rows := Run(weekFor, BLANK, ops).disk.rows;
    if rows != [] && !Distinct(rows[0]) { OnlyFirst(weekFor, rows); }
  }

  // --- Opening ----------------------------------------------------------------------------------------------

  /** The image can be opened at all: both slots legible, the newest anchor without a hold. */
  ghost predicate Readable(d: Disk) { Legible(d) && Newest(d).Some? && Newest(d).value.hold.None? }

  /** Nothing is out of step: the rows replay and the anchor is at the last one. */
  ghost predicate InStep(d: Disk)
    requires Newest(d).Some? && d.rows != []
  {
    Distinct(d.rows[0]) && |d.rows| == Newest(d).value.sequence
  }

  lemma VerifyExactly(weekFor: int -> Option<P.Week>, d: Disk)
    requires DiskOk(d) && Replayable(weekFor, d.rows) && Readable(d)
    ensures d.made && d.rows != [] && ReadAnchor(d).Some? && ReadAnchor(d).value.0 == Newest(d).value
    ensures var (bad, p) := Verify(weekFor, d, ReadAnchor(d).value.0, ReadAnchor(d).value.1);
            if Distinct(d.rows[0]) then bad.None? && p.Some? && Replay(weekFor, d.rows) == Ok(p.value)
            else bad == Some(ReplayMismatch)
    ensures |d.rows| == Newest(d).value.sequence || |d.rows| == Newest(d).value.sequence + 1
    ensures Replay(weekFor, d.rows).Ok? ==> Head(Replay(weekFor, d.rows).value) == Of(d.rows[|d.rows| - 1])
  {
    ReadNewest(d);
    NewestBehind(d);
    MadeRows(d);
    hide DiskOk, Fold, Legible, Newest, ReadAnchor, Storable;
    if Distinct(d.rows[0]) { ReplayKeeps(weekFor, d.rows); } else { OnlyFirst(weekFor, d.rows); }
  }

  lemma MadeRows(d: Disk)
    requires DiskOk(d) && Newest(d).Some?
    ensures d.rows != [] && d.made
  {
  }

  /** The hold an opening writes: why, at how many rows, and the head it vouches for. */
  ghost function HeldAnchor(d: Disk, boot: nat): Anchor
    requires Newest(d).Some? && d.rows != []
  {
    var a := Newest(d).value;
    if Distinct(d.rows[0]) then
      Anchor(a.counter + 2, a.owner, |d.rows|, Of(d.rows[|d.rows| - 1]), Some(Hold(TailAdopted, |d.rows|, boot)))
    else Anchor(a.counter + 2, a.owner, a.sequence, a.head, Some(Hold(ReplayMismatch, a.sequence, boot)))
  }

  lemma OpenDoes(weekFor: int -> Option<P.Week>, w: World, boot: nat, fault: Fault)
    requires Inv(weekFor, w) && Replayable(weekFor, w.disk.rows) && w.store.None?
    ensures var w' := Open(weekFor, w, boot, fault);
            && (!Readable(w.disk) ==> w' == w)
            && (Readable(w.disk) ==>
                  && w.disk.rows != []
                  && if InStep(w.disk) then
                       && Replay(weekFor, w.disk.rows).Ok?
                       && var p := Replay(weekFor, w.disk.rows).value;
                          w' == w.(store := Some(Store(Newest(w.disk).value, p, false)))
                     else
                       w' == Holding(w, HeldAnchor(w.disk, boot).(counter := Newest(w.disk).value.counter + 1), fault))
  {
    hide DiskOk, Fold, Legible, Newest, ReadAnchor, Verify, Replayable, ReceiptsOk, Holding, Replay;
    ReadNewest(w.disk);
    if Readable(w.disk) { VerifyExactly(weekFor, w.disk); }
  }

  /** In every reachable world without a handle: an image that cannot be read, or is held, is left as it is;
      one in step is opened for writing on the replay of its rows, with nothing written; and a hold is
      written exactly when the rows are one ahead of the anchor, or never replayed. */
  lemma OpenExactly(weekFor: int -> Option<P.Week>, ops: seq<Op>, boot: nat, fault: Fault)
    requires Run(weekFor, BLANK, ops).store.None?
    ensures var w := Run(weekFor, BLANK, ops);
            var w' := Open(weekFor, w, boot, fault);
            && (!Readable(w.disk) ==> w' == w)
            && (Readable(w.disk) ==>
                  && w.disk.rows != []
                  && if InStep(w.disk) then
                       && Replay(weekFor, w.disk.rows).Ok?
                       && var p := Replay(weekFor, w.disk.rows).value;
                          w' == w.(store := Some(Store(Newest(w.disk).value, p, false)))
                     else
                       && w'.store.None? && w'.disk.rows == w.disk.rows && w'.receipts == w.receipts
                       && (fault.NoFault? ==>
                             Legible(w'.disk) && Newest(w'.disk) == Some(HeldAnchor(w.disk, boot))))
  {
    hide Run, Inv, Replayable, Open, Newest, Legible, Land, Fold;
    Reached(weekFor, ops);
    var w := Run(weekFor, BLANK, ops);
    OpenDoes(weekFor, w, boot, fault);
    if Readable(w.disk) && !InStep(w.disk) { HoldsAnchor(weekFor, w, boot, fault); }
  }

  lemma HoldsAnchor(weekFor: int -> Option<P.Week>, w: World, boot: nat, fault: Fault)
    requires Inv(weekFor, w) && Replayable(weekFor, w.disk.rows) && Readable(w.disk) && w.store.None?
    requires w.disk.rows != [] && !InStep(w.disk)
    ensures var a := HeldAnchor(w.disk, boot);
            var w' := Holding(w, a.(counter := Newest(w.disk).value.counter + 1), fault);
            && w'.disk.rows == w.disk.rows
            && (fault.NoFault? ==> Legible(w'.disk) && Newest(w'.disk) == Some(a))
  {
    hide DiskOk, Legible, Newest, Land, Fold, Replayable, ReceiptsOk, Storable;
    VerifyExactly(weekFor, w.disk);
    NewestBehind(w.disk);
    var a := HeldAnchor(w.disk, boot).(counter := Newest(w.disk).value.counter + 1);
    HoldLands(w.disk, a, fault);
  }

  /** A handle that can write. */
  predicate Writable(w: World) { w.store.Some? && !w.store.value.broken && w.store.value.anchor.hold.None? }

  /** Whoever held the ledger open for writing can crash and open it again, and finds it as it was. */
  lemma Reopens(weekFor: int -> Option<P.Week>, ops: seq<Op>, boot: nat, fault: Fault)
    requires Writable(Run(weekFor, BLANK, ops))
    ensures var w := Run(weekFor, BLANK, ops);
            Step(weekFor, Step(weekFor, w, Crash), DoOpen(boot, fault)) == w
  {
    hide Run, Inv, Replayable, Open, Newest, Legible, Fold;
    Reached(weekFor, ops);
    var w := Run(weekFor, BLANK, ops);
    CrashKeeps(weekFor, w);
    OpenDoes(weekFor, w.(store := None), boot, fault);
    WritableIs(weekFor, w);
  }

  lemma WritableIs(weekFor: int -> Option<P.Week>, w: World)
    requires Inv(weekFor, w) && Replayable(weekFor, w.disk.rows) && Writable(w)
    ensures Readable(w.disk) && w.disk.rows != [] && InStep(w.disk) && Newest(w.disk).value == w.store.value.anchor
    ensures Replay(weekFor, w.disk.rows) == Ok(w.store.value.projection)
    ensures w.store.value.projection.events == w.disk.rows && Physical(w.disk, w.store.value)
  {
    hide DiskOk, Fold, Legible, Newest, ReadAnchor, Storable, ReceiptsOk;
    ReadNewest(w.disk);
    ReplayKeeps(weekFor, w.disk.rows);
    if !Distinct(w.disk.rows[0]) { OnlyFirst(weekFor, w.disk.rows); }
  }

  // --- Creating and appending -------------------------------------------------------------------------------

  /** An undisturbed creation from a receiver's first event with different identities opens a ledger of that
      one row; nothing is created over another ledger. */
  lemma CreateExactly(weekFor: int -> Option<P.Week>, w: World, g: Event)
    requires w.store.None?
    ensures var w' := Create(weekFor, w, g, NoFault);
            && (w'.store.Some? <==>
                  && !w.disk.made && WellFormed(g) && g.actor.Receiver? && g.body.Genesis?
                  && Distinct(g))
            && (w'.store.Some? ==>
                  && w'.disk.rows == w.disk.rows + [g] && w'.receipts == w.receipts
                  && w'.store.value.anchor == Anchor(1, g.owner, 1, Of(g), None) && !w'.store.value.broken
                  && Replay(weekFor, [g]) == Ok(w'.store.value.projection)
                  && w'.disk.slot0 == Written(w'.store.value.anchor))
            && (w.disk.made ==> w' == w)
  {
    hide Replay;
    if Storable(g) && g.body.Genesis? { FirstReplays(weekFor, g); }
  }

  /** A first event whose identities coincide is stored all the same: the creation fails, its files stay, and
      the first opening holds them for good. */
  lemma CreatedInVain(weekFor: int -> Option<P.Week>, boot: nat)
    ensures exists g: Event ::
      var w := Run(weekFor, BLANK, [DoCreate(g, NoFault)]);
      && Storable(g) && w.disk.rows == [g] && w.store.None?
      && var w' := Open(weekFor, w, boot, NoFault);
         Newest(w'.disk).Some? && Newest(w'.disk).value.hold == Some(Hold(ReplayMismatch, 1, boot))
  {
    var g := Event(1, Owner(1, 1, 1), 1, Zero, 0, Receiver, Genesis(P.UnknownPopulation));
    var ops := [DoCreate(g, NoFault)];
    CreateExactly(weekFor, BLANK, g);
    OneStep(weekFor, ops);
    var w := Run(weekFor, BLANK, ops);
    assert [] + [g] == [g];
    assert w.disk == Disk(true, [g], Written(AnchorFor(g)), Empty);
    OpenExactly(weekFor, ops, boot, NoFault);
  }

  lemma OneStep(weekFor: int -> Option<P.Week>, ops: seq<Op>)
    requires |ops| == 1
    ensures Run(weekFor, BLANK, ops) == Step(weekFor, BLANK, ops[0])
  {
    hide Step;
    assert ops[1..] == [];
  }

  /** What an append finds of an event: on record as it is, on record with other content, or new. */
  ghost predicate OnRecord(rows: seq<Event>, e: Event) { e in rows }

  ghost predicate Conflicts(rows: seq<Event>, e: Event) { e !in rows && exists f | f in rows :: f.eventId == e.eventId }

  lemma KnownExactly(weekFor: int -> Option<P.Week>, rows: seq<Event>, e: Event)
    requires rows != [] && Fold(weekFor, rows).Ok?
    ensures Known(rows, e.eventId) == Some(e) <==> OnRecord(rows, e)
    ensures Known(rows, e.eventId).Some? && Known(rows, e.eventId) != Some(e) <==> Conflicts(rows, e)
  {
    hide Fold, Known;
    KnownIs(rows, e.eventId);
    IdsApart(weekFor, rows);
  }

  /** Rows that replay have different event ids. */
  lemma IdsApart(weekFor: int -> Option<P.Week>, rows: seq<Event>)
    requires rows != [] && Fold(weekFor, rows).Ok?
    ensures forall e, f | e in rows && f in rows && e.eventId == f.eventId :: e == f
  {
    hide Fold;
    A.ClaimedIs(weekFor, rows);
  }

  /** A receiver's well-formed event of a kind the store takes. */
  predicate Offered(e: Event) { WellFormed(e) && e.actor.Receiver? && !e.body.ReservationCreated? }

  /** A new event that continues the ledger: the caller knows the head, there is room, and it applies. */
  ghost predicate Continues(weekFor: int -> Option<P.Week>, w: World, e: Event, head: Digest)
    requires Writable(w) && w.disk.rows != []
  {
    && (forall f | f in w.disk.rows :: f.eventId != e.eventId)
    && head == Of(w.disk.rows[|w.disk.rows| - 1]) && |w.disk.rows| < 8_192
    && Apply(weekFor, w.store.value.projection, e).Ok?
  }

  lemma AppendDoes(weekFor: int -> Option<P.Week>, w: World, e: Event, head: Digest, boot: nat, fault: Fault)
    requires Inv(weekFor, w) && Replayable(weekFor, w.disk.rows) && Writable(w)
    ensures w.disk.rows != []
    ensures var w' := Append(weekFor, w, e, head, boot, fault);
            var s := w.store.value;
            && (!Offered(e) ==> w' == w)
            && (Offered(e) && OnRecord(w.disk.rows, e) ==>
                  w' == w.(receipts := w.receipts + [Receipt(e.sequence, e, s.anchor.counter)]))
            && (Offered(e) && Conflicts(w.disk.rows, e) ==> w'.disk.rows == w.disk.rows && w'.receipts == w.receipts)
            && (Offered(e) && Continues(weekFor, w, e, head) ==>
                  var p := Apply(weekFor, s.projection, e).value;
                  var a := Anchor(s.anchor.counter + 1, s.anchor.owner, |w.disk.rows| + 1, Of(e), None);
                  w' == Settle(w, s, Row(e), Anchored(a), fault, Store(a, p, false),
                               [Receipt(|w.disk.rows| + 1, e, a.counter)]))
            && (!OnRecord(w.disk.rows, e) && !Conflicts(w.disk.rows, e) && !Continues(weekFor, w, e, head) ==> w' == w)
  {
    WritableIs(weekFor, w);
    hide Inv, Replayable, Fold, Apply, Known, Physical, Settle, Newest, Readable;
    var s, rows := w.store.value, w.disk.rows;
    KnownExactly(weekFor, rows, e);
    KnownIs(rows, e.eventId);
    var known := Known(rows, e.eventId);
    if known.None? && Apply(weekFor, s.projection, e).Ok? {
      Extends(weekFor, rows, s.projection, e);
    } else if known.Some? && known != Some(e) {
      ConflictRows(w, s, boot, fault);
    }
  }

  lemma ConflictRows(w: World, s: Store, boot: nat, fault: Fault)
    ensures var a := HeldOnce(s.anchor, Hold(ConflictingEvent, |s.projection.events|, boot));
            var b := a.(counter := a.counter + 1);
            var w' := Settle(w, s, Anchored(a), Anchored(b), fault, s.(anchor := b), []);
            w'.disk.rows == w.disk.rows && w'.receipts == w.receipts
  {
    assert w.receipts + [] == w.receipts;
  }

  /** In every reachable world with a handle that can write, an undisturbed append issues a receipt exactly
      for an event already on record as it is, or for one that continues the ledger. That one is then
      the last row, anchored, and the handle stands on the longer history. An event id on record with
      other content holds the ledger. Anything else changes nothing. */
  lemma AppendExactly(weekFor: int -> Option<P.Week>, ops: seq<Op>, e: Event, head: Digest, boot: nat)
    requires Writable(Run(weekFor, BLANK, ops))
    ensures var w := Run(weekFor, BLANK, ops);
            && w.disk.rows != []
            && var w' := Append(weekFor, w, e, head, boot, NoFault);
               var s := w.store.value;
               && (|w'.receipts| == |w.receipts| + 1 <==>
                     Offered(e) && (OnRecord(w.disk.rows, e) || Continues(weekFor, w, e, head)))
               && (Offered(e) && OnRecord(w.disk.rows, e) ==>
                     w' == w.(receipts := w.receipts + [Receipt(e.sequence, e, s.anchor.counter)]))
               && (Offered(e) && Continues(weekFor, w, e, head) ==>
                     var a := Anchor(s.anchor.counter + 1, s.anchor.owner, |w.disk.rows| + 1, Of(e), None);
                     && w'.disk.rows == w.disk.rows + [e] && Legible(w'.disk) && Newest(w'.disk) == Some(a)
                     && w'.receipts == w.receipts + [Receipt(|w.disk.rows| + 1, e, a.counter)]
                     && w'.store == Some(Store(a, Apply(weekFor, s.projection, e).value, false)))
               && (Offered(e) && Conflicts(w.disk.rows, e) ==>
                     && w'.receipts == w.receipts && w'.disk.rows == w.disk.rows && Newest(w'.disk).Some?
                     && Newest(w'.disk).value.hold == Some(Hold(ConflictingEvent, |w.disk.rows|, boot)))
               && (!Offered(e) ==> w' == w)
               && (!OnRecord(w.disk.rows, e) && !Conflicts(w.disk.rows, e) && !Continues(weekFor, w, e, head) ==>
                     w' == w)
  {
    hide Run, Inv, Replayable, Append, Newest, Legible, Fold, Apply, Land, Offered;
    Reached(weekFor, ops);
    var w := Run(weekFor, BLANK, ops);
    WritableIs(weekFor, w);
    AppendDoes(weekFor, w, e, head, boot, NoFault);
    if Offered(e) && Continues(weekFor, w, e, head) {
      AddedLands(weekFor, w, e);
    } else if Offered(e) && Conflicts(w.disk.rows, e) {
      ConflictLands(weekFor, w, e, head, boot);
    }
  }

  lemma AddedLands(weekFor: int -> Option<P.Week>, w: World, e: Event)
    requires Inv(weekFor, w) && Replayable(weekFor, w.disk.rows) && Writable(w)
    ensures w.disk.rows != []
    ensures var s := w.store.value;
            var a := Anchor(s.anchor.counter + 1, s.anchor.owner, |w.disk.rows| + 1, Of(e), None);
            var d := Land(w.disk, Row(e), Anchored(a), NoFault);
            d.rows == w.disk.rows + [e] && Legible(d) && Newest(d) == Some(a)
  {
    hide DiskOk, Legible, Newest, Land, Fold, Replayable, ReceiptsOk;
    WritableIs(weekFor, w);
    NewestBehind(w.disk);
    var s := w.store.value;
    AppendLands(w.disk, e, Anchor(s.anchor.counter + 1, s.anchor.owner, |w.disk.rows| + 1, Of(e), None), NoFault);
  }

  lemma ConflictLands(weekFor: int -> Option<P.Week>, w: World, e: Event, head: Digest, boot: nat)
    requires Inv(weekFor, w) && Replayable(weekFor, w.disk.rows) && Writable(w)
    requires Offered(e) && Conflicts(w.disk.rows, e)
    ensures var w' := Append(weekFor, w, e, head, boot, NoFault);
            && Newest(w'.disk).Some?
            && Newest(w'.disk).value.hold == Some(Hold(ConflictingEvent, |w.disk.rows|, boot))
  {
    hide DiskOk, Legible, Newest, Land, Fold, Replayable, ReceiptsOk, Physical, Known;
    WritableIs(weekFor, w);
    NewestBehind(w.disk);
    KnownExactly(weekFor, w.disk.rows, e);
    var s := w.store.value;
    HoldLands(w.disk, HeldOnce(s.anchor, Hold(ConflictingEvent, |s.projection.events|, boot)), NoFault);
  }
}
