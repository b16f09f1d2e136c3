/** The gate's scope store as it is kept: four maps and a running byte total. */
module ScopeStore {
  import opened Text
  import L = Leases
  import G = Gate
  import I = GateInvariant

  type Index = (nat, nat)

  /** The four maps describe one table, indexed by lease and by service and sentinel. */
  ghost predicate Describes(
    byIndex: map<Index, G.ScopeEntry>, byLease: map<nat, G.ScopeEntry>, indexOf: map<nat, Index>, chargeOf: map<nat,
        nat>,
    table: map<nat, G.Scope>)
  {
    && byLease.Keys == table.Keys && indexOf.Keys == table.Keys && chargeOf.Keys == table.Keys
    && (forall id | id in table ::
          && byLease[id] == table[id].entry && byLease[id].leaseId == id && chargeOf[id] == table[id].charge
          && indexOf[id] == (table[id].entry.service, table[id].sentinel)
          && indexOf[id] in byIndex && byIndex[indexOf[id]] == table[id].entry)
    && (forall x | x in byIndex :: byIndex[x].leaseId in table && indexOf[byIndex[x].leaseId] == x)
  }

  lemma RemoveDescribes(
    byIndex: map<Index, G.ScopeEntry>, byLease: map<nat, G.ScopeEntry>, indexOf: map<nat, Index>, chargeOf: map<nat,
        nat>,
    table: map<nat, G.Scope>, id: nat)
    requires Describes(byIndex, byLease, indexOf, chargeOf, table) && id in table
    ensures id in indexOf && id in chargeOf && chargeOf[id] == table[id].charge
    ensures Describes(byIndex - {indexOf[id]}, byLease - {id}, indexOf - {id}, chargeOf - {id}, table - {id})
  {
  }

  lemma InsertDescribes(
    byIndex: map<Index, G.ScopeEntry>, byLease: map<nat, G.ScopeEntry>, indexOf: map<nat, Index>, chargeOf: map<nat,
        nat>,
    table: map<nat, G.Scope>, scope: G.Scope)
    requires Describes(byIndex, byLease, indexOf, chargeOf, table)
    requires scope.entry.leaseId !in table && (scope.entry.service, scope.sentinel) !in byIndex
    ensures var id, x := scope.entry.leaseId, (scope.entry.service, scope.sentinel);
            Describes(byIndex[x := scope.entry], byLease[id := scope.entry], indexOf[id := x],
                      chargeOf[id := scope.charge], table[id := scope])
  {
    var id, x := scope.entry.leaseId, (scope.entry.service, scope.sentinel);
    forall y | y in byIndex ensures byIndex[y].leaseId != id && y != x { assert byIndex[y].leaseId in table; }
  }

  lemma Looked(
    byIndex: map<Index, G.ScopeEntry>, byLease: map<nat, G.ScopeEntry>, indexOf: map<nat, Index>, chargeOf: map<nat,
        nat>,
    table: map<nat, G.Scope>)
    requires Describes(byIndex, byLease, indexOf, chargeOf, table)
    ensures byLease.Keys == indexOf.Keys == table.Keys && |byLease| == |table|
    ensures forall id | id in table ::
      byLease[id] == table[id].entry && indexOf[id] == (table[id].entry.service, table[id].sentinel)
  {
    assert |byLease| == |byLease.Keys| && |table| == |table.Keys|;
  }

  lemma Indexes(
    byIndex: map<Index, G.ScopeEntry>, byLease: map<nat, G.ScopeEntry>, indexOf: map<nat, Index>, chargeOf: map<nat,
        nat>,
    table: map<nat, G.Scope>, x: Index)
    requires Describes(byIndex, byLease, indexOf, chargeOf, table)
    ensures x in byIndex <==> G.Taken(table, x.0, x.1)
    ensures x in byIndex ==>
      byIndex[x].leaseId in table && G.Indexed(table[byIndex[x].leaseId], x.0, x.1)
      && byIndex[x] == table[byIndex[x].leaseId].entry
  {
    if x in byIndex {
      assert G.Indexed(table[byIndex[x].leaseId], x.0, x.1);
    }
  }

  /** What is left of a table when all but `todo` have been looked at and only `keep` stay. */
  ghost function Left(was: map<nat, G.Scope>, todo: set<nat>, keep: set<nat>): map<nat, G.Scope> {
    map id | id in was && (id in todo || id in keep) :: was[id]
  }

  lemma LeftStep(was: map<nat, G.Scope>, todo: set<nat>, keep: set<nat>, id: nat)
    requires id in todo && todo <= was.Keys
    ensures id in Left(was, todo, keep) && Left(was, todo, keep)[id] == was[id]
    ensures Left(was, todo - {id}, keep) == if id in keep then Left(was, todo, keep) else Left(was, todo, keep) - {id}
  {
  }

  class Store {
    var byIndex: map<Index, G.ScopeEntry>
    var byLease: map<nat, G.ScopeEntry>
    var indexOf: map<nat, Index>
    var chargeOf: map<nat, nat>
    var bytes: int
    ghost var table: map<nat, G.Scope>

    /** The maps agree and the running total is the sum of the charges. */
    ghost predicate Valid()
      reads this
    {
      Describes(byIndex, byLease, indexOf, chargeOf, table) && bytes == G.Bytes(table)
    }

    constructor ()
      ensures Valid() && table == map[]
    {
      byIndex, byLease, indexOf, chargeOf, bytes, table := map[], map[], map[], map[], 0, map[];
    }

    method Remove(id: nat)
      requires Valid()
      modifies this
      ensures Valid() && table == old(table) - {id}
    {
      hide G.Bytes, Describes;
      Looked(byIndex, byLease, indexOf, chargeOf, table);
      if id in byLease {
        RemoveDescribes(byIndex, byLease, indexOf, chargeOf, table, id);
        I.BytesRemove(table, id);
        byIndex := byIndex - {indexOf[id]};
        bytes := bytes - chargeOf[id];
        byLease := byLease - {id};
        indexOf := indexOf - {id};
        chargeOf := chargeOf - {id};
        table := table - {id};
      } else {
        assert table == table - {id};
      }
    }

    method Prune(now: int)
      requires Valid()
      modifies this
      ensures Valid() && table == G.PruneScopes(old(table), now)
    {
      hide Valid;
      KeysAgree();
      ghost var was := table;
      ghost var keep := set id | id in was && now - was[id].entry.installedAt < G.STORE_RETENTION;
      var todo := byLease.Keys;
      assert Left(was, todo, keep) == was;
      while todo != {}
        invariant Valid() && todo <= was.Keys && table == Left(was, todo, keep)
        decreases |todo|
      {
        var id :| id in todo;
        KeysAgree();
        LeftStep(was, todo, keep, id);
        todo := todo - {id};
        if now - byLease[id].installedAt >= G.STORE_RETENTION { Remove(id); }
      }
    }

    lemma KeysAgree()
      requires Valid()
      ensures byLease.Keys == indexOf.Keys == table.Keys && |byLease| == |table|
      ensures forall id | id in table ::
        byLease[id] == table[id].entry && indexOf[id] == (table[id].entry.service, table[id].sentinel)
    {
      hide Describes;
      Looked(byIndex, byLease, indexOf, chargeOf, table);
    }

    /** Drops the scopes of leases the registry no longer knows. */
    method Forget(records: map<nat, L.Record>)
      requires Valid()
      modifies this
      ensures Valid() && table == G.OnlyKnown(old(table), records)
    {
      hide Valid;
      KeysAgree();
      ghost var was := table;
      ghost var keep := records.Keys;
      var todo := byLease.Keys;
      assert Left(was, todo, keep) == was;
      while todo != {}
        invariant Valid() && todo <= was.Keys && table == Left(was, todo, keep)
        decreases |todo|
      {
        var id :| id in todo;
        LeftStep(was, todo, keep, id);
        todo := todo - {id};
        if id !in records { Remove(id); }
      }
    }

    /** Whether one more scope of this charge would pass either cap. */
    method Over(charge: nat) returns (over: bool)
      requires Valid()
      ensures over <==> G.OverCapacity(table, charge)
    {
      KeysAgree();
      hide Describes, G.Bytes;
      return |byLease| >= G.MAX_SCOPES || bytes + charge > G.MAX_SCOPE_BYTES;
    }

    method Insert(entry: G.ScopeEntry, sentinel: nat, charge: nat)
      requires Valid() && entry.leaseId !in table && !G.Taken(table, entry.service, sentinel)
      modifies this
      ensures Valid() && table == old(table)[entry.leaseId := G.Scope(entry, sentinel, charge)]
    {
      hide G.Bytes, Describes, G.Taken;
      Looked(byIndex, byLease, indexOf, chargeOf, table);
      Indexes(byIndex, byLease, indexOf, chargeOf, table, (entry.service, sentinel));
      var scope := G.Scope(entry, sentinel, charge);
      I.BytesAdd(table, entry.leaseId, scope);
      InsertDescribes(byIndex, byLease, indexOf, chargeOf, table, scope);
      byIndex := byIndex[(entry.service, sentinel) := entry];
      byLease := byLease[entry.leaseId := entry];
      indexOf := indexOf[entry.leaseId := (entry.service, sentinel)];
      chargeOf := chargeOf[entry.leaseId := charge];
      bytes := bytes + charge;
      table := table[entry.leaseId := scope];
    }
  }
}
