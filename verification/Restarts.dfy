/**
 What a restart of the manager finds in the table: after table operations that
 took effect or not, and when it reads only part of the rows.
 */
module Restarts {
  import opened RdbTable
  import opened Seqs
  import opened StatusStore
  import opened StoreRuns
  import opened VerifyTypes

  // ---------- the rows of one bundle ----------

  lemma {:induction false} LoadedRows(rows: seq<RdbDataItem>, b: string)
    ensures b in Loaded(rows) <==> Filter(rows, OfBundle(b)) != []
    ensures b in Loaded(rows) ==> Loaded(rows)[b] == Rebuilt(Filter(rows, OfBundle(b)))
  {
    var items := Filter(rows, OfBundle(b));
    if b in Bundles(rows) {
      var i :| 0 <= i < |rows| && rows[i].bundleName == b;
      FilterMember(rows, OfBundle(b), rows[i]);
    } else if items != [] {
      FilterMember(rows, OfBundle(b), items[0]);
    }
  }

  /** A record is rebuilt from some row. */
  lemma {:induction false} RebuiltFromRow(items: seq<RdbDataItem>, hosts: HostVerifyStatusMap, h: string)
    returns (r: Option<RdbDataItem>)
    requires h in Rebuild(items, hosts)
    ensures r.None? ==> h in hosts && hosts[h] == Rebuild(items, hosts)[h]
    ensures r.Some? ==> r.value in items && r.value.domain == h && RecordOf(r.value) == Rebuild(items, hosts)[h]
  {
    if items == [] {
      r := None;
    } else {
      var it, rest := items[0], items[1..];
      var more := if it.domain in hosts then hosts else hosts[it.domain := RecordOf(it)];
      assert items == [it] + rest;
      r := RebuiltFromRow(rest, more, h);
      if r.None? && h !in hosts {
        r := Some(it);
      }
    }
  }

  /** Whatever the table holds, every record loaded is that of some row. */
  lemma {:induction false} LoadedFromRow(rows: seq<RdbDataItem>, b: string, h: string) returns (r: RdbDataItem)
    requires Has(Loaded(rows), b, h)
    ensures r in rows && r.bundleName == b && r.domain == h
    ensures RecordOf(r) == Loaded(rows)[b].hostVerifyStatusMap[h]
  {
    var row := RebuiltFromRow(Filter(rows, OfBundle(b)), map[], h);
    r := row.value;
    FilterMember(rows, OfBundle(b), r);
  }

  /** A row after an operation was there before or holds a record written now. */
  lemma {:induction false} RowsAfter(s: Store, op: Op, r: RdbDataItem)
    requires LegalOp(s.memory, op) && r in After(s, op).rows
    ensures
      || r in s.rows
      || (&& Effective(s.memory, op) && !op.Delete?
          && r.domain in NewInfo(s.memory, op).hostVerifyStatusMap
          && r == Item(op.bundleName, NewInfo(s.memory, op), r.domain))
  {
    FilterMember(s.rows, NotOfBundle(op.bundleName), r);
    if r !in s.rows {
      var info := NewInfo(s.memory, op);
      ItemsMeaning(op.bundleName, info, op.write.order);
      assert r in Items(op.bundleName, info, op.write.order)[..op.write.inserted];
    }
  }

  /** The operation writes, or deletes, the bundle. */
  predicate Concerns(m: Memory, op: Op, b: string) {
    Effective(m, op) && op.bundleName == b
  }

  /** The bundle's old rows went. */
  predicate Cleared(op: Op) {
    if op.Delete? then op.deleted else op.write.deleted
  }

  /** The hosts of the result that are in the list. */
  function Part(info: VerifyResultInfo, order: seq<string>): VerifyResultInfo {
    info.(hostVerifyStatusMap := map h | h in info.hostVerifyStatusMap && h in order :: info.hostVerifyStatusMap[h])
  }

  /** What a write-back put into the table, as far as it came. */
  function Wrote(m: Memory, op: Op): VerifyResultInfo
    requires Effective(m, op) && !op.Delete? && op.write.inserted <= |op.write.order|
  {
    Part(NewInfo(m, op), op.write.order[..op.write.inserted])
  }

  /** An operation replaces or extends its own bundle's rows and no other's. */
  lemma {:induction false} BundleRowsAfter(s: Store, op: Op, b: string)
    requires LegalOp(s.memory, op)
    ensures
      var was, now := Filter(s.rows, OfBundle(b)), Filter(After(s, op).rows, OfBundle(b));
      if !Concerns(s.memory, op, b) then now == was
      else
        now == (if Cleared(op) then [] else was)
          + if op.Delete? then [] else Items(b, NewInfo(s.memory, op), op.write.order)[..op.write.inserted]
  {
    if Effective(s.memory, op) {
      var c, kept := op.bundleName, Filter(s.rows, NotOfBundle(op.bundleName));
      if c == b {
        KeptRows(s.rows, b);
        FilterNone(kept, OfBundle(b));
      } else {
        FilterTwice(s.rows, NotOfBundle(c), OfBundle(b));
      }
      if !op.Delete? {
        var items := Items(c, NewInfo(s.memory, op), op.write.order)[..op.write.inserted];
        FilterAppend(if op.write.deleted then kept else s.rows, items, OfBundle(b));
        if c == b { FilterAll(items, OfBundle(b)); } else { FilterNone(items, OfBundle(b)); }
      }
    }
  }

  lemma {:induction false} RebuildAppend(a: seq<RdbDataItem>, b: seq<RdbDataItem>, hosts: HostVerifyStatusMap)
    ensures Rebuild(a + b, hosts) == Rebuild(b, Rebuild(a, hosts))
  {
    if a == [] {
      assert a + b == b;
    } else {
      assert (a + b)[1..] == a[1..] + b;
      RebuildAppend(a[1..], b, if a[0].domain in hosts then hosts else hosts[a[0].domain := RecordOf(a[0])]);
    }
  }

  lemma {:induction false} RebuildItems(
    b: string, info: VerifyResultInfo, order: seq<string>, hosts: HostVerifyStatusMap)
    requires forall h :: h in order ==> h in info.hostVerifyStatusMap
    ensures Rebuild(Items(b, info, order), hosts) == Part(info, order).hostVerifyStatusMap + hosts
  {
    if order != [] {
      var h, rest := order[0], order[1..];
      var more := if h in hosts then hosts else hosts[h := info.hostVerifyStatusMap[h]];
      assert Items(b, info, order)[1..] == Items(b, info, rest);
      RebuildItems(b, info, rest, more);
      assert forall x :: x in order <==> x == h || x in rest;
    }
  }

  /** What rows followed by those of a write-back load: the old ones win. */
  lemma {:induction false} RebuiltWithItems(
    items: seq<RdbDataItem>, b: string, info: VerifyResultInfo, order: seq<string>, n: nat)
    requires (forall h :: h in order ==> h in info.hostVerifyStatusMap) && n <= |order|
    ensures
      var part := Part(info, order[..n]);
      Rebuilt(items + Items(b, info, order)[..n]) ==
        if items != [] then
          Rebuilt(items).(hostVerifyStatusMap := part.hostVerifyStatusMap + Rebuilt(items).hostVerifyStatusMap)
        else if n > 0 then part
        else VerifyResultInfo("", map[])
  {
    assert Items(b, info, order)[..n] == Items(b, info, order[..n]);
    RebuildAppend(items, Items(b, info, order[..n]), map[]);
    RebuildItems(b, info, order[..n], Rebuild(items, map[]));
  }

  // ---------- after one operation, on any store ----------

  /** What a restart finds of a bundle after a write-back of it: what was inserted,
      under what was there before unless the delete took effect. */
  lemma {:induction false} RestartAfterWrite(s: Store, op: Op)
    requires LegalOp(s.memory, op) && Effective(s.memory, op) && !op.Delete?
    ensures
      var b, w, was, now := op.bundleName, Wrote(s.memory, op), Loaded(s.rows), Loaded(After(s, op).rows);
      if op.write.deleted || b !in was then
        (b in now <==> op.write.inserted > 0) && (b in now ==> now[b] == w)
      else
        b in now && now[b] == was[b].(hostVerifyStatusMap := w.hostVerifyStatusMap + was[b].hostVerifyStatusMap)
  {
    var b, items := op.bundleName, Filter(s.rows, OfBundle(op.bundleName));
    BundleRowsAfter(s, op, b);
    LoadedRows(s.rows, b);
    LoadedRows(After(s, op).rows, b);
    var left := if op.write.deleted then [] else items;
    RebuiltWithItems(left, b, NewInfo(s.memory, op), op.write.order, op.write.inserted);
  }

  /** After a delete: nothing if it took effect, else what was there before. */
  lemma {:induction false} RestartAfterDelete(s: Store, b: string, deleted: bool)
    ensures
      var was, now := Loaded(s.rows), Loaded(After(s, Delete(b, deleted)).rows);
      && (b in now <==> b in was && !(deleted && b != ""))
      && (b in now ==> now[b] == was[b])
  {
    BundleRowsAfter(s, Delete(b, deleted), b);
    LoadedRows(s.rows, b);
    LoadedRows(After(s, Delete(b, deleted)).rows, b);
  }

  /** Operations on other bundles, or without effect, change nothing of it. */
  lemma {:induction false} RestartAfterOther(s: Store, op: Op, b: string)
    requires LegalOp(s.memory, op) && !Concerns(s.memory, op, b)
    ensures
      var was, now := Loaded(s.rows), Loaded(After(s, op).rows);
      (b in now <==> b in was) && (b in now ==> now[b] == was[b])
  {
    BundleRowsAfter(s, op, b);
    LoadedRows(s.rows, b);
    LoadedRows(After(s, op).rows, b);
  }

  // ---------- whether the table follows the map ----------

  /** A restart would find the bundle as it is; a bundle without hosts has no rows. */
  ghost predicate RowsFollow(s: Store, b: string) {
    && (b in Loaded(s.rows) <==> b in s.memory && s.memory[b].hostVerifyStatusMap != map[])
    && (b in Loaded(s.rows) ==> Loaded(s.rows)[b] == s.memory[b])
  }

  /** Exactly when the table follows after a write-back, whatever it held: the rows
      are gone and every insert took effect, or the rows left over have the same
      identifier and, with what was inserted, make up the new hosts. */
  lemma {:induction false} WriteFollows(s: Store, op: Op)
    requires LegalOp(s.memory, op) && Effective(s.memory, op) && !op.Delete?
    ensures
      var b, was, info := op.bundleName, Loaded(s.rows), NewInfo(s.memory, op);
      RowsFollow(After(s, op), b) <==>
        if op.write.deleted || b !in was then op.write.inserted == |op.write.order|
        else
          && was[b].appIdentifier == info.appIdentifier
          && Wrote(s.memory, op).hostVerifyStatusMap + was[b].hostVerifyStatusMap == info.hostVerifyStatusMap
  {
    var b, was, info := op.bundleName, Loaded(s.rows), NewInfo(s.memory, op);
    RestartAfterWrite(s, op);
    PartIsAll(info, op.write.order, op.write.inserted);
    if b in was {
      LoadedHasHost(s.rows, b);
    }
  }

  lemma {:induction false} PartIsAll(info: VerifyResultInfo, order: seq<string>, n: nat)
    requires Distinct(order) && (forall h :: h in order <==> h in info.hostVerifyStatusMap) && n <= |order|
    ensures Part(info, order[..n]) == info <==> n == |order|
    ensures info.hostVerifyStatusMap == map[] <==> order == []
  {
    if n < |order| {
      assert order[n] !in order[..n];
      assert order[n] in info.hostVerifyStatusMap;
    } else {
      assert order[..n] == order;
      assert Part(info, order).hostVerifyStatusMap == info.hostVerifyStatusMap;
    }
    if order != [] { assert order[0] in info.hostVerifyStatusMap; }
    if h :| h in info.hostVerifyStatusMap { assert h in order; }
  }

  /** A bundle that is loaded has a host. */
  lemma {:induction false} LoadedHasHost(rows: seq<RdbDataItem>, b: string)
    requires b in Loaded(rows)
    ensures Loaded(rows)[b].hostVerifyStatusMap != map[]
  {
    LoadedRows(rows, b);
    var items := Filter(rows, OfBundle(b));
    RebuildHosts(items, map[], items[0].domain);
    assert items[0] in items;
  }

  /** So it follows after every write of the bundle that took effect, whatever came
      before. */
  lemma {:induction false} SuccessFollows(s: Store, op: Op)
    requires LegalOp(s.memory, op) && Effective(s.memory, op) && Succeeded(op)
    ensures RowsFollow(After(s, op), op.bundleName)
  {
    if op.Delete? {
      RestartAfterDelete(s, op.bundleName, op.deleted);
    } else {
      WriteFollows(s, op);
    }
  }

  lemma {:induction false} OthersFollow(s: Store, op: Op, b: string)
    requires LegalOp(s.memory, op) && !Concerns(s.memory, op, b) && RowsFollow(s, b)
    ensures RowsFollow(After(s, op), b)
  {
    RestartAfterOther(s, op, b);
    OthersStay(s.memory, op, b);
  }

  lemma {:induction false} OthersStay(m: Memory, op: Op, b: string)
    requires !Concerns(m, op, b)
    ensures (b in MemoryAfter(m, op) <==> b in m) && (b in m ==> MemoryAfter(m, op)[b] == m[b])
  {
  }

  /** An agreeing table follows for every bundle. */
  lemma {:induction false} AgreesFollows(s: Store, b: string)
    requires Agrees(s)
    ensures RowsFollow(s, b)
  {
    ReloadRestores(s);
  }

  /** A restart of the manager keeps agreement. */
  lemma {:induction false} RestartAgrees(s: Store)
    requires Agrees(s)
    ensures Agrees(Store(Loaded(s.rows), s.rows))
  {
    ReloadRestores(s);
    var m := Loaded(s.rows);
    forall b, h | Has(m, b, h) ensures Item(b, m[b], h) in s.rows {
      assert Has(s.memory, b, h);
    }
    forall r | r in s.rows ensures Has(m, r.bundleName, r.domain) {
      assert Has(s.memory, r.bundleName, r.domain);
    }
  }

  /** It restores an agreeing store's map if and only if every bundle has a host. */
  lemma {:induction false} RestartRestores(s: Store)
    requires Agrees(s)
    ensures Loaded(s.rows) == s.memory <==> forall b :: b in s.memory ==> s.memory[b].hostVerifyStatusMap != map[]
  {
    ReloadRestores(s);
    if Loaded(s.rows) == s.memory {
      forall b | b in s.memory ensures s.memory[b].hostVerifyStatusMap != map[] {
        assert b in Loaded(s.rows);
      }
    }
  }

  /** An uninstalled bundle is back after a restart if and only if its rows could
      not be deleted and it had any. */
  lemma {:induction false} UninstalledReturns(s: Store, b: string, deleted: bool)
    requires Agrees(s)
    ensures b in Loaded(After(s, Delete(b, deleted)).rows) <==>
      !deleted && b in s.memory && s.memory[b].hostVerifyStatusMap != map[]
  {
    BundleListed(s, b);
    if deleted && b != "" {
      KeptRows(s.rows, b);
      assert forall r :: r in Filter(s.rows, NotOfBundle(b)) ==> r.bundleName != b;
    }
  }

  // ---------- after any run ----------

  /** Reference: the first record of the host written since the bundle's rows were
      last deleted. */
  ghost function FirstRecord(run: seq<Op>, b: string, h: string): Option<VerifyStatus> {
    if run == [] then None
    else
      var before, op := run[..|run| - 1], run[|run| - 1];
      var m := MemoryOf(before);
      if !Concerns(m, op, b) then FirstRecord(before, b, h)
      else if !Cleared(op) && FirstRecord(before, b, h).Some? then FirstRecord(before, b, h)
      else if !op.Delete? && op.write.inserted <= |op.write.order| && h in Wrote(m, op).hostVerifyStatusMap then
        Some(Wrote(m, op).hostVerifyStatusMap[h])
      else None
  }

  /** Reference: the identifier first written since then. */
  ghost function FirstIdentifier(run: seq<Op>, b: string): Option<string> {
    if run == [] then None
    else
      var before, op := run[..|run| - 1], run[|run| - 1];
      var m := MemoryOf(before);
      if !Concerns(m, op, b) then FirstIdentifier(before, b)
      else if !Cleared(op) && FirstIdentifier(before, b).Some? then FirstIdentifier(before, b)
      else if !op.Delete? && op.write.inserted > 0 then Some(NewInfo(m, op).appIdentifier)
      else None
  }

  /** The bundle and the host as a restart would find them. */
  ghost predicate Finds(rows: seq<RdbDataItem>, b: string, h: string, id: Option<string>, e: Option<VerifyStatus>) {
    && (if b in Loaded(rows) then id == Some(Loaded(rows)[b].appIdentifier) else id == None)
    && (if Has(Loaded(rows), b, h) then e == Some(Loaded(rows)[b].hostVerifyStatusMap[h]) else e == None)
  }

  lemma {:induction false} WroteOf(m: Memory, op: Op, h: string)
    requires LegalOp(m, op) && Effective(m, op) && !op.Delete?
    ensures op.write.inserted == 0 ==> h !in Wrote(m, op).hostVerifyStatusMap
    ensures Wrote(m, op).appIdentifier == NewInfo(m, op).appIdentifier
  {
  }

  /** Over any run, whatever took effect, a restart finds of every host the first
      record, and of every bundle the first identifier, written since its rows were
      last deleted. */
  lemma {:induction false} RestartFinds(run: seq<Op>, b: string, h: string)
    requires Exec(Store(map[], []), run).Some?
    ensures Finds(Exec(Store(map[], []), run).value.rows, b, h, FirstIdentifier(run, b), FirstRecord(run, b, h))
  {
    if run != [] {
      var before, op := run[..|run| - 1], run[|run| - 1];
      var s := Exec(Store(map[], []), before).value;
      RestartFinds(before, b, h);
      TableFailuresDoNotMatter(before);
      if !Concerns(s.memory, op, b) {
        RestartAfterOther(s, op, b);
      } else if op.Delete? {
        RestartAfterDelete(s, b, op.deleted);
      } else {
        RestartAfterWrite(s, op);
        WroteOf(s.memory, op, h);
      }
    }
  }

  // ---------- when only part of the rows is read ----------

  /** Of some rows, and more after them. */
  lemma {:induction false} RebuiltExtends(first: seq<RdbDataItem>, more: seq<RdbDataItem>, h: string)
    requires first != []
    ensures Rebuilt(first + more).appIdentifier == Rebuilt(first).appIdentifier
    ensures h in Rebuilt(first).hostVerifyStatusMap ==>
      && h in Rebuilt(first + more).hostVerifyStatusMap
      && Rebuilt(first + more).hostVerifyStatusMap[h] == Rebuilt(first).hostVerifyStatusMap[h]
  {
    RebuildAppend(first, more, map[]);
    RebuildHosts(more, Rebuild(first, map[]), h);
  }

  lemma {:induction false} MoreRowsLoad(rows: seq<RdbDataItem>, more: seq<RdbDataItem>, b: string, h: string)
    requires b in Loaded(rows)
    ensures b in Loaded(rows + more) && Loaded(rows + more)[b].appIdentifier == Loaded(rows)[b].appIdentifier
    ensures h in Loaded(rows)[b].hostVerifyStatusMap ==>
      && h in Loaded(rows + more)[b].hostVerifyStatusMap
      && Loaded(rows + more)[b].hostVerifyStatusMap[h] == Loaded(rows)[b].hostVerifyStatusMap[h]
  {
    FilterAppend(rows, more, OfBundle(b));
    LoadedRows(rows, b);
    LoadedRows(rows + more, b);
    RebuiltExtends(Filter(rows, OfBundle(b)), Filter(more, OfBundle(b)), h);
  }

  /** What is found then is also found when all rows are read. */
  lemma {:induction false} PrefixLoads(rows: seq<RdbDataItem>, n: nat, b: string)
    requires n <= |rows| && b in Loaded(rows[..n])
    ensures b in Loaded(rows) && Loaded(rows)[b].appIdentifier == Loaded(rows[..n])[b].appIdentifier
    ensures
      var part, whole := Loaded(rows[..n])[b].hostVerifyStatusMap, Loaded(rows)[b].hostVerifyStatusMap;
      forall h :: h in part ==> h in whole && whole[h] == part[h]
  {
    assert rows[..n] + rows[n..] == rows;
    MoreRowsLoad(rows[..n], rows[n..], b, "");
    forall h | h in Loaded(rows[..n])[b].hostVerifyStatusMap
      ensures h in Loaded(rows)[b].hostVerifyStatusMap
      ensures Loaded(rows)[b].hostVerifyStatusMap[h] == Loaded(rows[..n])[b].hostVerifyStatusMap[h]
    {
      MoreRowsLoad(rows[..n], rows[n..], b, h);
    }
  }
}
