/** The ledger store as an object: rows and anchor slots written step by step, with the handle's
    fields moved on only after the last write has been read back. */
module LedgerStore {
  import opened Text
  import P = AccountingPolicy
  import T = AccountingTransition
  import S = AccountingStore

  class Ledger {
    const weekFor: int -> Option<P.Week>
    var made: bool
    var rows: seq<T.Event>
    var slot0: S.Slot
    var slot1: S.Slot
    var handle: Option<S.Store>
    ghost var receipts: seq<S.Receipt>

    function Disk(): S.Disk
      reads this
    {
      S.Disk(made, rows, slot0, slot1)
    }

    ghost function World(): S.World
      reads this
    {
      S.World(Disk(), handle, receipts)
    }

    ghost predicate Valid()
      reads this
    {
      S.Inv(weekFor, World())
    }

    constructor (weekFor: int -> Option<P.Week>)
      ensures Valid() && World() == S.BLANK && this.weekFor == weekFor
    {
      this.weekFor := weekFor;
      made, rows, slot0, slot1, handle, receipts := false, [], S.Empty, S.Empty, None, [];
      new;
      S.BlankInv(weekFor);
    }

    method Write(w: S.Write)
      modifies `rows, `slot0, `slot1
      ensures Disk() == S.Put(old(Disk()), w)
    {
      match w {
        case Row(e) => rows := rows + [e];
        case Anchored(a) => if S.SlotOf(a.counter) == 0 { slot0 := S.Written(a); } else { slot1 := S.Written(a); }
      }
    }

    method TearUp(w: S.Write)
      modifies `slot0, `slot1
      ensures Disk() == S.Tear(old(Disk()), w)
    {
      if w.Anchored? {
        if S.SlotOf(w.anchor.counter) == 0 { slot0 := S.Torn; } else { slot1 := S.Torn; }
      }
    }

    /** Two durable writes in order; `ok` only when both landed and were read back. */
    method WriteBoth(first: S.Write, second: S.Write, fault: S.Fault) returns (ok: bool)
      modifies `rows, `slot0, `slot1
      ensures Disk() == S.Land(old(Disk()), first, second, fault) && ok == fault.NoFault?
    {
      if fault.Stop? && fault.done == 0 {
        if fault.torn { TearUp(first); }
        return false;
      }
      Write(first);
      if fault.Stop? && fault.done == 1 {
        if fault.torn { TearUp(second); }
        return false;
      }
      Write(second);
      return fault.NoFault?;
    }

    method Create(genesis: T.Event, fault: S.Fault)
      requires Valid()
      modifies this
      ensures Valid() && World() == S.Create(weekFor, old(World()), genesis, fault)
    {
      hide S.Inv, S.Land, T.Fold, S.Storable, S.Grows;
      S.CreateKeeps(weekFor, World(), genesis, fault);
      if made || handle.Some? || !S.Storable(genesis) || !genesis.body.Genesis? { return; }
      made := true;
      var ok := WriteBoth(S.Row(genesis), S.Anchored(S.AnchorFor(genesis)), fault);
      if !ok { return; }
      var p := T.ReplayAll(weekFor, [genesis]);
      if p.Ok? { handle := Some(S.Store(S.AnchorFor(genesis), p.value, false)); }
    }

    /** The handle after a failed or interrupted write. */
    method Latch(s: S.Store, fault: S.Fault)
      requires fault.Stop?
      modifies `handle
      ensures handle == if fault.crash then None else Some(s.(broken := true))
    {
      handle := if fault.crash then None else Some(s.(broken := true));
    }

    method Find(id: T.Id) returns (known: Option<T.Event>)
      ensures known == S.Known(rows, id)
    {
      assert rows[0..] == rows;
      for i := 0 to |rows|
        invariant S.Known(rows, id) == S.Known(rows[i..], id)
      {
        assert rows[i..][1..] == rows[i + 1..];
        if rows[i].eventId == id { return Some(rows[i]); }
      }
      return None;
    }

    method Append(e: T.Event, head: T.Digest, boot: nat, fault: S.Fault) returns (r: Option<S.Receipt>)
      requires Valid()
      modifies this
      ensures Valid() && World() == S.Append(weekFor, old(World()), e, head, boot, fault)
      ensures receipts == old(receipts) + if r.Some? then [r.value] else []
    {
      hide S.Inv, S.Grows, S.Land, T.Fold, T.Apply, S.Storable, S.Physical, S.Known;
      S.AppendKeeps(weekFor, World(), e, head, boot, fault);
      r := None;
      if handle.None? { return; }
      var s := handle.value;
      if s.anchor.hold.Some? || s.broken || !S.Storable(e) { return; }
      if !S.Physical(Disk(), s) {
        handle := Some(s.(broken := true));
        return;
      }
      var known := Find(e.eventId);
      if known == Some(e) {
        r := Some(S.Receipt(e.sequence, e, s.anchor.counter));
        receipts := receipts + [r.value];
      } else if known.Some? {
        HoldOn(s, boot, fault);
      } else if head == T.Head(s.projection) && |s.projection.events| < T.MAX_EVENTS {
        r := Extend(s, e, fault);
      }
    }

    /** A conflicting event holds the ledger in both slots. */
    method HoldOn(s: S.Store, boot: nat, fault: S.Fault)
      modifies this
      ensures var a := S.HeldOnce(s.anchor, S.Hold(S.ConflictingEvent, |s.projection.events|, boot));
              var b := a.(counter := a.counter + 1);
              World() == S.Settle(old(World()), s, S.Anchored(a), S.Anchored(b), fault, s.(anchor := b), [])
      ensures receipts == old(receipts)
    {
      hide S.Land;
      var a := S.HeldOnce(s.anchor, S.Hold(S.ConflictingEvent, |s.projection.events|, boot));
      var b := a.(counter := a.counter + 1);
      assert receipts + [] == receipts;
      var ok := WriteBoth(S.Anchored(a), S.Anchored(b), fault);
      if ok { handle := Some(s.(anchor := b)); } else { Latch(s, fault); }
    }

    method Extend(s: S.Store, e: T.Event, fault: S.Fault) returns (r: Option<S.Receipt>)
      modifies this
      ensures var p := T.Apply(weekFor, s.projection, e);
              if p.Err? then World() == old(World()) && r.None?
              else
                var a := s.anchor.(counter := s.anchor.counter + 1, sequence := |p.value.events|,
                                   head := T.Head(p.value));
                && World() == S.Settle(old(World()), s, S.Row(e), S.Anchored(a), fault, S.Store(a, p.value, false),
                                       [S.Receipt(e.sequence, e, a.counter)])
                && r == if fault.NoFault? then Some(S.Receipt(e.sequence, e, a.counter)) else None
    {
      hide S.Land, T.Apply;
      var p := T.Apply(weekFor, s.projection, e);
      if p.Err? { return None; }
      var a := s.anchor.(counter := s.anchor.counter + 1, sequence := |p.value.events|, head := T.Head(p.value));
      var ok := WriteBoth(S.Row(e), S.Anchored(a), fault);
      if !ok {
        Latch(s, fault);
        return None;
      }
      handle := Some(S.Store(a, p.value, false));
      r := Some(S.Receipt(e.sequence, e, a.counter));
      receipts := receipts + [r.value];
    }

    method Open(boot: nat, fault: S.Fault)
      requires Valid()
      modifies this
      ensures Valid() && World() == S.Open(weekFor, old(World()), boot, fault)
    {
      hide S.Inv, S.Grows, S.Land, S.ReadAnchor, S.Verify;
      S.OpenKeeps(weekFor, World(), boot, fault);
      var read := S.ReadAnchor(Disk());
      if handle.Some? || !made || rows == [] || read.None? || read.value.0.hold.Some? { return; }
      var a, older := read.value.0, read.value.1;
      var verdict := S.Verify(weekFor, Disk(), a, older);
      if verdict.0.Some? || verdict.1.None? {
        var code := if verdict.0.Some? then verdict.0.value else S.AnchorConflict;
        HoldBoth(S.HeldOnce(a, S.Hold(code, a.sequence, boot)), fault);
      } else if |rows| == a.sequence + 1 {
        var adopted := S.HeldOnce(a, S.Hold(S.TailAdopted, |rows|, boot));
        HoldBoth(adopted.(sequence := |rows|, head := T.Head(verdict.1.value)), fault);
      } else {
        handle := Some(S.Store(a, verdict.1.value, false));
      }
    }

    method HoldBoth(a: S.Anchor, fault: S.Fault)
      modifies `rows, `slot0, `slot1
      ensures World() == S.Holding(old(World()), a, fault)
    {
      hide S.Land;
      var ok := WriteBoth(S.Anchored(a), S.Anchored(a.(counter := a.counter + 1)), fault);
    }
  }
}
