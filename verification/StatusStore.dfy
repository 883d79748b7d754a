/**
 The verify-status store: a map in memory, written through to the table and
 rebuilt from it at start-up.
 */
module StatusStore {
  import opened RdbTable
  import opened Seqs
  import opened VerifyTypes

  type Memory = map<string, VerifyResultInfo>

  datatype Store = Store(memory: Memory, rows: seq<RdbDataItem>)

  // ---------- writing a bundle back ----------

  /** The row of host `domain`. */
  function Item(bundleName: string, info: VerifyResultInfo, domain: string): RdbDataItem
    requires domain in info.hostVerifyStatusMap
  {
    var e := info.hostVerifyStatusMap[domain];
    RdbDataItem(bundleName, info.appIdentifier, domain, e.status, e.verifyTime, e.retryCnt, e.priority)
  }

  /** How one write-back went: the order in which the hosts were enumerated,
      whether the delete took effect, and how many inserts did. */
  datatype Write = Write(order: seq<string>, deleted: bool, inserted: nat)

  ghost predicate Legal(w: Write, info: VerifyResultInfo) {
    && Distinct(w.order)
    && (forall h :: h in w.order <==> h in info.hostVerifyStatusMap)
    && w.inserted <= |w.order|
  }

  function Items(bundleName: string, info: VerifyResultInfo, order: seq<string>): seq<RdbDataItem>
    requires forall h :: h in order ==> h in info.hostVerifyStatusMap
  {
    seq(|order|, i requires 0 <= i < |order| => Item(bundleName, info, order[i]))
  }

  ghost function Written(rows: seq<RdbDataItem>, bundleName: string, info: VerifyResultInfo, w: Write): seq<RdbDataItem>
    requires Legal(w, info)
  {
    (if w.deleted then Filter(rows, NotOfBundle(bundleName)) else rows)
    + Items(bundleName, info, w.order)[..w.inserted]
  }

  // ---------- what the operations mean ----------

  /** Only hosts the bundle already has are updated. */
  function Updated(old_: VerifyResultInfo, new_: VerifyResultInfo): VerifyResultInfo {
    old_.(hostVerifyStatusMap := map h | h in old_.hostVerifyStatusMap ::
      if h in new_.hostVerifyStatusMap then new_.hostVerifyStatusMap[h] else old_.hostVerifyStatusMap[h])
  }

  datatype Op =
    | Insert(bundleName: string, info: VerifyResultInfo, write: Write)
    | Update(bundleName: string, info: VerifyResultInfo, write: Write)
    | Delete(bundleName: string, deleted: bool)

  /** The operation does something: the key is not empty and an update finds it. */
  predicate Effective(m: Memory, op: Op) {
    op.bundleName != "" && (op.Update? ==> op.bundleName in m)
  }

  /** What the operation writes back. */
  function NewInfo(m: Memory, op: Op): VerifyResultInfo
    requires Effective(m, op) && !op.Delete?
  {
    if op.Insert? then op.info else Updated(m[op.bundleName], op.info)
  }

  ghost predicate LegalOp(m: Memory, op: Op) {
    Effective(m, op) && !op.Delete? ==> Legal(op.write, NewInfo(m, op))
  }

  function MemoryAfter(m: Memory, op: Op): Memory {
    if !Effective(m, op) then m
    else if op.Delete? then m - {op.bundleName}
    else m[op.bundleName := NewInfo(m, op)]
  }

  ghost function After(s: Store, op: Op): Store
    requires LegalOp(s.memory, op)
  {
    Store(MemoryAfter(s.memory, op),
          if !Effective(s.memory, op) then s.rows
          else if op.Delete? then (if op.deleted then Filter(s.rows, NotOfBundle(op.bundleName)) else s.rows)
          else Written(s.rows, op.bundleName, NewInfo(s.memory, op), op.write))
  }

  /** What the operation returns: a failed delete inside a write-back is not told. */
  predicate Returned(m: Memory, op: Op) {
    && Effective(m, op)
    && (if op.Delete? then op.deleted else op.write.inserted == |op.write.order|)
  }

  // ---------- reading a bundle back ----------

  /** `insert` does not replace: of two rows for a host the first one counts. */
  function Rebuild(items: seq<RdbDataItem>, hosts: HostVerifyStatusMap): HostVerifyStatusMap {
    if items == [] then hosts
    else
      var it := items[0];
      Rebuild(items[1..],
        if it.domain in hosts then hosts
        else hosts[it.domain := VerifyStatus(it.status, it.count, it.verifyTs, it.priority)])
  }

  function Rebuilt(items: seq<RdbDataItem>): VerifyResultInfo {
    VerifyResultInfo(if items == [] then "" else items[0].appIdentifier, Rebuild(items, map[]))
  }

  function RebuiltAll(groups: map<string, seq<RdbDataItem>>): Memory {
    map b | b in groups :: Rebuilt(groups[b])
  }

  function Loaded(rows: seq<RdbDataItem>): Memory {
    RebuiltAll(Grouped(rows))
  }

  /** What is loaded, under the entries there already, when only some rows are read. */
  ghost predicate LoadedPart(m: Memory, rows: seq<RdbDataItem>, before: Memory) {
    exists read: nat :: read <= |rows| && m == Loaded(rows[..read]) + before
  }

  lemma {:induction false} NothingLoaded(rows: seq<RdbDataItem>, m: Memory)
    ensures LoadedPart(m, rows, m)
  {
    assert Loaded(rows[..0]) == map[];
    assert Loaded(rows[..0]) + m == m;
  }

  // ---------- the class ----------

  class AppDomainVerifyDataMgr {
    var verifyMap: Memory
    const rdbDataManager: RdbDataManager?

    ghost function State(): Store
      reads this, rdbDataManager
    {
      Store(verifyMap, if rdbDataManager == null then [] else rdbDataManager.rows)
    }

    /** Opens the table and loads it, as far as its rows can be read; without a table
        the map starts empty. */
    constructor (rdb: RdbDataManager?, created: bool)
      ensures rdbDataManager == rdb
      ensures rdb == null || !created ==> verifyMap == map[]
      ensures rdb != null ==> LoadedPart(verifyMap, rdb.rows, map[])
    {
      verifyMap := map[];
      rdbDataManager := rdb;
      new;
      if rdb != null {
        NothingLoaded(rdb.rows, verifyMap);
        if created {
          var _ := LoadAllFromRdb();
        }
      }
    }

    method GetVerifyStatus(bundleName: string) returns (info: Option<VerifyResultInfo>)
      ensures info == if bundleName != "" && bundleName in verifyMap then Some(verifyMap[bundleName]) else None
    {
      if bundleName == "" {
        return None;
      }
      info := if bundleName in verifyMap then Some(verifyMap[bundleName]) else None;
    }

    method VerifyResultInfoToDB(bundleName: string, info: VerifyResultInfo) returns (ok: bool, ghost w: Write)
      requires rdbDataManager != null
      modifies rdbDataManager
      ensures Legal(w, info) && (ok <==> w.inserted == |w.order|)
      ensures rdbDataManager.rows == Written(old(rdbDataManager.rows), bundleName, info, w)
    {
      ghost var before := rdbDataManager.rows;
      var deleted := rdbDataManager.DeleteData(bundleName);
      ghost var base := rdbDataManager.rows;
      var hosts := info.hostVerifyStatusMap;
      var left := hosts.Keys;
      ghost var order: seq<string> := [];
      while left != {}
        invariant left <= hosts.Keys
        invariant Distinct(order) && forall h :: h in order <==> h in hosts && h !in left
        invariant rdbDataManager.rows == base + Items(bundleName, info, order)
        decreases left
      {
        var domain :| domain in left;
        var e := hosts[domain];
        var item := RdbDataItem(
          bundleName, info.appIdentifier, domain, e.status, e.verifyTime, e.retryCnt, e.priority);
        var inserted := rdbDataManager.InsertData(item);
        if !inserted {
          ghost var rest := Enumerate(left);
          DistinctConcat(order, rest);
          w := Write(order + rest, deleted, |order|);
          assert Items(bundleName, info, w.order)[..|order|] == Items(bundleName, info, order);
          return false, w;
        }
        assert Items(bundleName, info, order + [domain]) == Items(bundleName, info, order) + [item];
        order := order + [domain];
        left := left - {domain};
      }
      w := Write(order, deleted, |order|);
      assert Items(bundleName, info, order)[..|order|] == Items(bundleName, info, order);
      ok := true;
    }

    method InsertVerifyStatus(bundleName: string, info: VerifyResultInfo) returns (ok: bool, ghost w: Write)
      modifies this`verifyMap, rdbDataManager
      ensures rdbDataManager == null ==> !ok && State() == old(State())
      ensures rdbDataManager != null ==>
        var op := Insert(bundleName, info, w);
        LegalOp(old(verifyMap), op) && State() == After(old(State()), op) && ok == Returned(old(verifyMap), op)
    {
      w := Write([], false, 0);
      if bundleName == "" {
        return false, w;
      }
      if rdbDataManager == null {
        return false, w;
      }
      verifyMap := verifyMap[bundleName := info];
      ok, w := VerifyResultInfoToDB(bundleName, info);
    }

    method UpdateVerifyMap(bundleName: string, info: VerifyResultInfo)
      modifies this`verifyMap
      ensures verifyMap == if bundleName in old(verifyMap)
        then old(verifyMap)[bundleName := Updated(old(verifyMap)[bundleName], info)] else old(verifyMap)
    {
      if bundleName in verifyMap {
        var before := verifyMap[bundleName];
        var target := before.hostVerifyStatusMap;
        var updates := info.hostVerifyStatusMap;
        var left := updates.Keys;
        while left != {}
          invariant left <= updates.Keys && target.Keys == before.hostVerifyStatusMap.Keys
          invariant forall h :: h in target ==>
            target[h] == if h in updates && h !in left then updates[h] else before.hostVerifyStatusMap[h]
          decreases left
        {
          var h :| h in left;
          if h in target {
            target := target[h := updates[h]];
          }
          left := left - {h};
        }
        verifyMap := verifyMap[bundleName := before.(hostVerifyStatusMap := target)];
        assert target == Updated(before, info).hostVerifyStatusMap;
      }
    }

    method UpdateVerifyStatus(bundleName: string, info: VerifyResultInfo) returns (ok: bool, ghost w: Write)
      modifies this`verifyMap, rdbDataManager
      ensures rdbDataManager == null ==> !ok && State() == old(State())
      ensures rdbDataManager != null ==>
        var op := Update(bundleName, info, w);
        LegalOp(old(verifyMap), op) && State() == After(old(State()), op) && ok == Returned(old(verifyMap), op)
    {
      w := Write([], false, 0);
      if bundleName == "" {
        return false, w;
      }
      if rdbDataManager == null {
        return false, w;
      }
      if bundleName !in verifyMap {
        return false, w;
      }
      UpdateVerifyMap(bundleName, info);
      ok, w := VerifyResultInfoToDB(bundleName, verifyMap[bundleName]);
    }

    method DeleteVerifyStatus(bundleName: string) returns (ok: bool, ghost deleted: bool)
      modifies this`verifyMap, rdbDataManager
      ensures rdbDataManager == null ==> !ok && State() == old(State())
      ensures rdbDataManager != null ==>
        var op := Delete(bundleName, deleted);
        State() == After(old(State()), op) && ok == Returned(old(verifyMap), op)
    {
      deleted := false;
      if bundleName == "" {
        return false, deleted;
      }
      if rdbDataManager == null {
        return false, deleted;
      }
      verifyMap := verifyMap - {bundleName};
      ok := rdbDataManager.DeleteData(bundleName);
      deleted := ok;
    }

    method DBToVerifyResultInfo(items: seq<RdbDataItem>) returns (ok: bool, info: VerifyResultInfo)
      ensures ok <==> items != []
      ensures info == Rebuilt(items)
    {
      info := VerifyResultInfo("", map[]);
      if items == [] {
        return false, info;
      }
      info := info.(appIdentifier := items[0].appIdentifier);
      for i := 0 to |items|
        invariant info.appIdentifier == items[0].appIdentifier
        invariant Rebuild(items, map[]) == Rebuild(items[i..], info.hostVerifyStatusMap)
      {
        var it := items[i];
        assert items[i..][0] == it && items[i..][1..] == items[i + 1..];
        var verifyStatus := VerifyStatus(it.status, it.count, it.verifyTs, it.priority);
        if it.domain !in info.hostVerifyStatusMap {
          info := info.(hostVerifyStatusMap := info.hostVerifyStatusMap[it.domain := verifyStatus]);
        }
      }
      ok := true;
    }

    /** Entries already in the map are kept; when the query fails there are none new. */
    method LoadAllFromRdb() returns (ok: bool)
      requires rdbDataManager != null
      modifies this`verifyMap
      ensures LoadedPart(verifyMap, rdbDataManager.rows, old(verifyMap)) && (!ok ==> verifyMap == old(verifyMap))
    {
      var dataMap := rdbDataManager.QueryAllData();
      if dataMap.None? {
        NothingLoaded(rdbDataManager.rows, verifyMap);
        return false;
      }
      InsertAll(dataMap.value);
      ok := true;
    }

    method InsertAll(dataMap: map<string, seq<RdbDataItem>>)
      modifies this`verifyMap
      ensures verifyMap == RebuiltAll(dataMap) + old(verifyMap)
    {
      ghost var loaded, before := RebuiltAll(dataMap), verifyMap;
      var left := dataMap.Keys;
      while left != {}
        invariant left <= dataMap.Keys
        invariant verifyMap == (loaded - left) + before
        decreases left
      {
        var b :| b in left;
        var _, info := DBToVerifyResultInfo(dataMap[b]);
        if b !in verifyMap {
          verifyMap := verifyMap[b := info];
        }
        left := left - {b};
      }
    }

    /** The domains found, in the rows read, are appended to the caller's list. */
    method QueryAssociatedDomains(bundleName: string, before: seq<string>)
      returns (ok: bool, domains: seq<string>)
      requires rdbDataManager != null
      ensures if ok then DomainsRead(domains, before, rdbDataManager.rows, bundleName) else domains == before
    {
      domains := before;
      var items;
      ok, items := rdbDataManager.QueryDomainByBundleName(bundleName, []);
      if !ok {
        return;
      }
      for i := 0 to |items|
        invariant domains == before + DomainsOf(items[..i])
      {
        ColumnsNext(items, i);
        domains := domains + [items[i].domain];
      }
      assert items[..|items|] == items;
    }

    method QueryAssociatedBundleNames(domain: string, before: seq<string>)
      returns (ok: bool, bundleNames: seq<string>)
      requires rdbDataManager != null
      ensures if ok then BundleNamesRead(bundleNames, before, rdbDataManager.rows, domain) else bundleNames == before
    {
      bundleNames := before;
      var items;
      ok, items := rdbDataManager.QueryBundleNameByDomain(domain, []);
      if !ok {
        return;
      }
      for i := 0 to |items|
        invariant bundleNames == before + BundleNamesOf(items[..i])
      {
        ColumnsNext(items, i);
        bundleNames := bundleNames + [items[i].bundleName];
      }
      assert items[..|items|] == items;
    }
  }

  lemma {:induction false} DistinctConcat(a: seq<string>, b: seq<string>)
    requires Distinct(a) && Distinct(b) && forall x :: x in a ==> x !in b
    ensures Distinct(a + b)
  {
    var s := a + b;
    forall i, j | 0 <= i < j < |s| ensures s[i] != s[j] {
      if i < |a| <= j { assert s[i] in a && s[j] in b; }
    }
  }

  /** Some enumeration of a finite set. */
  lemma {:induction false} Enumerate(s: set<string>) returns (order: seq<string>)
    ensures Distinct(order) && forall h :: h in order <==> h in s
  {
    if s == {} {
      order := [];
    } else {
      var h :| h in s;
      order := Enumerate(s - {h});
      order := order + [h];
    }
  }

  function DomainsOf(items: seq<RdbDataItem>): seq<string> {
    seq(|items|, i requires 0 <= i < |items| => items[i].domain)
  }

  function BundleNamesOf(items: seq<RdbDataItem>): seq<string> {
    seq(|items|, i requires 0 <= i < |items| => items[i].bundleName)
  }

  lemma {:induction false} ColumnsNext(items: seq<RdbDataItem>, i: nat)
    requires i < |items|
    ensures DomainsOf(items[..i + 1]) == DomainsOf(items[..i]) + [items[i].domain]
    ensures BundleNamesOf(items[..i + 1]) == BundleNamesOf(items[..i]) + [items[i].bundleName]
  {
  }

  function Domains(rows: seq<RdbDataItem>, bundleName: string): seq<string> {
    DomainsOf(Filter(rows, SuccessOfBundle(bundleName)))
  }

  function BundleNames(rows: seq<RdbDataItem>, domain: string): seq<string> {
    BundleNamesOf(Filter(rows, SuccessOfDomain(domain)))
  }

  /** The domains of the rows the cursor came to are appended. */
  ghost predicate DomainsRead(domains: seq<string>, before: seq<string>, rows: seq<RdbDataItem>, bundleName: string) {
    exists read: nat :: read <= |rows| && domains == before + Domains(rows[..read], bundleName)
  }

  ghost predicate BundleNamesRead(names: seq<string>, before: seq<string>, rows: seq<RdbDataItem>, domain: string) {
    exists read: nat :: read <= |rows| && names == before + BundleNames(rows[..read], domain)
  }

  // ---------- columns and results ----------

  /** The columns of a row. */
  lemma {:induction false} ColumnsExactly(b: string, info: VerifyResultInfo, h: string)
    requires h in info.hostVerifyStatusMap
    ensures
      var r, e := Item(b, info, h), info.hostVerifyStatusMap[h];
      && r.bundleName == b && r.appIdentifier == info.appIdentifier && r.domain == h
      && r.status == e.status && r.verifyTs == e.verifyTime && r.count == e.retryCnt && r.priority == e.priority
  {
  }

  /** A record read back has the columns of its row. */
  lemma {:induction false} ReadsColumns(row: RdbDataItem)
    ensures
      var info := Rebuilt([row]);
      && info.appIdentifier == row.appIdentifier && row.domain in info.hostVerifyStatusMap
      && var e := info.hostVerifyStatusMap[row.domain];
         e.status == row.status && e.verifyTime == row.verifyTs && e.retryCnt == row.count && e.priority == row.priority
  {
    var none: HostVerifyStatusMap := map[];
    var one := none[row.domain := VerifyStatus(row.status, row.count, row.verifyTs, row.priority)];
    assert [row][1..] == [];
    assert Rebuild([], one) == one;
    assert Rebuild([row], none) == one;
  }

  /** Operations succeed by their inserts, or a delete by itself; a failed delete inside
      a write-back does not count. */
  lemma {:induction false} ReturnsExactly(m: Memory, op: Op)
    ensures Returned(m, op) <==>
      && op.bundleName != "" && (op.Update? ==> op.bundleName in m)
      && (op.Delete? ==> op.deleted) && (!op.Delete? ==> op.write.inserted == |op.write.order|)
  {
  }
}
