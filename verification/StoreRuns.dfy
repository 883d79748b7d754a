/**
 What holds of the verify-status store over whole runs: agreement of table and
 map, reload, and that late results neither resurrect nor widen a bundle.
 */
module StoreRuns {
  import opened RdbTable
  import opened Seqs
  import opened StatusStore
  import opened VerifyTypes

  // ---------- agreement of table and map ----------

  ghost predicate Has(m: Memory, b: string, h: string) {
    b in m && h in m[b].hostVerifyStatusMap
  }

  /** Every row is the row of an entry of the map. */
  ghost predicate RowsSound(s: Store) {
    forall r :: r in s.rows ==>
      Has(s.memory, r.bundleName, r.domain) && r == Item(r.bundleName, s.memory[r.bundleName], r.domain)
  }

  /** Every entry of the map has its row. */
  ghost predicate RowsComplete(s: Store) {
    forall b, h :: Has(s.memory, b, h) ==> Item(b, s.memory[b], h) in s.rows
  }

  /** No (bundle, host) has two rows. */
  ghost predicate RowsUnique(rows: seq<RdbDataItem>) {
    forall i, j :: 0 <= i < j < |rows| ==>
      rows[i].bundleName != rows[j].bundleName || rows[i].domain != rows[j].domain
  }

  /** The rows are exactly the flattening of the map; no bundle is unnamed. */
  ghost predicate Agrees(s: Store) {
    && RowsSound(s) && RowsComplete(s) && RowsUnique(s.rows)
    && "" !in s.memory
  }

  /** Every table operation of the step took effect. */
  predicate Succeeded(op: Op) {
    if op.Delete? then op.deleted else op.write.deleted && op.write.inserted == |op.write.order|
  }

  lemma {:induction false} FilterUnique(rows: seq<RdbDataItem>, p: RdbDataItem -> bool)
    requires RowsUnique(rows)
    ensures RowsUnique(Filter(rows, p))
  {
    if rows != [] {
      FilterUnique(rows[1..], p);
      var rest := Filter(rows[1..], p);
      forall j | 0 <= j < |rest| ensures rest[j].bundleName != rows[0].bundleName || rest[j].domain != rows[0].domain {
        FilterMember(rows[1..], p, rest[j]);
        var k :| 0 <= k < |rows[1..]| && rows[1..][k] == rest[j];
        assert rows[k + 1] == rest[j];
      }
    }
  }

  lemma {:induction false} ItemsMeaning(b: string, info: VerifyResultInfo, order: seq<string>)
    requires Distinct(order) && forall h :: h in order <==> h in info.hostVerifyStatusMap
    ensures RowsUnique(Items(b, info, order))
    ensures forall r :: r in Items(b, info, order) <==>
      r.domain in info.hostVerifyStatusMap && r == Item(b, info, r.domain)
  {
    var items := Items(b, info, order);
    forall h | h in order ensures Item(b, info, h) in items {
      var i :| 0 <= i < |order| && order[i] == h;
      assert items[i] == Item(b, info, h);
    }
  }

  lemma {:induction false} KeptRows(rows: seq<RdbDataItem>, b: string)
    ensures forall r :: r in Filter(rows, NotOfBundle(b)) <==> r in rows && r.bundleName != b
  {
    forall r ensures r in Filter(rows, NotOfBundle(b)) <==> r in rows && r.bundleName != b {
      FilterMember(rows, NotOfBundle(b), r);
    }
  }

  lemma {:induction false} UniqueConcat(kept: seq<RdbDataItem>, items: seq<RdbDataItem>, b: string)
    requires RowsUnique(kept) && RowsUnique(items)
    requires forall r :: r in kept ==> r.bundleName != b
    requires forall r :: r in items ==> r.bundleName == b
    ensures RowsUnique(kept + items)
  {
    var all := kept + items;
    forall i, j | 0 <= i < j < |all| ensures all[i].bundleName != all[j].bundleName || all[i].domain != all[j].domain {
      if i < |kept| <= j { assert all[i] in kept && all[j] in items; }
    }
  }

  /** Replacing a bundle's rows by those of its new entry keeps agreement. */
  lemma {:induction false} WriteAgrees(s: Store, b: string, info: VerifyResultInfo, w: Write)
    requires Agrees(s) && b != "" && Legal(w, info) && w.deleted && w.inserted == |w.order|
    ensures Agrees(Store(s.memory[b := info], Written(s.rows, b, info, w)))
  {
    var kept, items := Filter(s.rows, NotOfBundle(b)), Items(b, info, w.order);
    var t := Store(s.memory[b := info], kept + items);
    assert Written(s.rows, b, info, w) == kept + items;
    KeptRows(s.rows, b);
    ItemsMeaning(b, info, w.order);
    FilterUnique(s.rows, NotOfBundle(b));
    UniqueConcat(kept, items, b);
    forall c, h | Has(t.memory, c, h) ensures Item(c, t.memory[c], h) in t.rows {
      if c != b { assert Has(s.memory, c, h); }
    }
  }

  lemma {:induction false} DeleteAgrees(s: Store, b: string)
    requires Agrees(s)
    ensures Agrees(Store(s.memory - {b}, Filter(s.rows, NotOfBundle(b))))
  {
    var t := Store(s.memory - {b}, Filter(s.rows, NotOfBundle(b)));
    KeptRows(s.rows, b);
    FilterUnique(s.rows, NotOfBundle(b));
    forall c, h | Has(t.memory, c, h) ensures Item(c, t.memory[c], h) in t.rows {
      assert Has(s.memory, c, h);
    }
  }

  lemma {:induction false} StepAgrees(s: Store, op: Op)
    requires Agrees(s) && LegalOp(s.memory, op) && Succeeded(op)
    ensures Agrees(After(s, op))
  {
    if Effective(s.memory, op) {
      if op.Delete? {
        DeleteAgrees(s, op.bundleName);
      } else {
        WriteAgrees(s, op.bundleName, NewInfo(s.memory, op), op.write);
      }
    }
  }

  ghost function Exec(s: Store, run: seq<Op>): Option<Store> {
    if run == [] then Some(s)
    else
      match Exec(s, run[..|run| - 1])
      case None => None
      case Some(t) => if LegalOp(t.memory, run[|run| - 1]) then Some(After(t, run[|run| - 1])) else None
  }

  /** Write-through: over any run whose table operations take effect, from an
      empty store, the rows are exactly the flattening of the map. */
  lemma {:induction false} RunAgrees(run: seq<Op>)
    requires Exec(Store(map[], []), run).Some?
    requires forall i :: 0 <= i < |run| ==> Succeeded(run[i])
    ensures Agrees(Exec(Store(map[], []), run).value)
  {
    if run != [] {
      RunAgrees(run[..|run| - 1]);
      StepAgrees(Exec(Store(map[], []), run[..|run| - 1]).value, run[|run| - 1]);
    }
  }

  /** Whether or not the table operations take effect, rows of other bundles are
      never touched, nor is their order. */
  lemma {:induction false} OtherRowsUntouched(s: Store, op: Op)
    requires LegalOp(s.memory, op)
    ensures Filter(After(s, op).rows, NotOfBundle(op.bundleName)) == Filter(s.rows, NotOfBundle(op.bundleName))
    ensures forall b :: b != op.bundleName ==>
      (b in After(s, op).memory <==> b in s.memory) && (b in s.memory ==> After(s, op).memory[b] == s.memory[b])
  {
    var b := op.bundleName;
    var kept := Filter(s.rows, NotOfBundle(b));
    KeptRows(s.rows, b);
    FilterAll(kept, NotOfBundle(b));
    if Effective(s.memory, op) && !op.Delete? {
      var info := NewInfo(s.memory, op);
      var items := Items(b, info, op.write.order)[..op.write.inserted];
      FilterNone(items, NotOfBundle(b));
      FilterAppend(if op.write.deleted then kept else s.rows, items, NotOfBundle(b));
    }
  }

  /** A write-back whose delete failed still returns success; then table and map
      agree again exactly when the bundle had no rows before. */
  lemma {:induction false} SilentDeleteFailure(s: Store, op: Op)
    requires Agrees(s) && LegalOp(s.memory, op) && !op.Delete? && Returned(s.memory, op)
    ensures Agrees(After(s, op)) <==>
      op.write.deleted || (op.bundleName in s.memory ==> s.memory[op.bundleName].hostVerifyStatusMap == map[])
  {
    var b, info, w := op.bundleName, NewInfo(s.memory, op), op.write;
    var items := Items(b, info, w.order);
    assert items[..w.inserted] == items;
    if w.deleted {
      StepAgrees(s, op);
    } else if b in s.memory && s.memory[b].hostVerifyStatusMap != map[] {
      var h :| h in s.memory[b].hostVerifyStatusMap;
      assert Has(s.memory, b, h);
      StaleRow(s, b, h, info, w);
    } else {
      assert forall r :: r in s.rows ==> r.bundleName != b;
      FilterAll(s.rows, NotOfBundle(b));
      StepAgrees(s, Insert(b, info, w.(deleted := true)));
    }
  }

  lemma {:induction false} StaleRow(s: Store, b: string, h: string, info: VerifyResultInfo, w: Write)
    requires Agrees(s) && Has(s.memory, b, h) && Legal(w, info)
    ensures !Agrees(Store(s.memory[b := info], s.rows + Items(b, info, w.order)))
  {
    var items := Items(b, info, w.order);
    var t := Store(s.memory[b := info], s.rows + items);
    var stale := Item(b, s.memory[b], h);
    var i :| 0 <= i < |s.rows| && s.rows[i] == stale;
    assert t.rows[i] == stale && stale in t.rows;
    if h in info.hostVerifyStatusMap {
      ItemsMeaning(b, info, w.order);
      var again := Item(b, info, h);
      var j :| 0 <= j < |items| && items[j] == again;
      assert t.rows[|s.rows| + j] == again;
    } else {
      assert !Has(t.memory, b, h);
    }
  }

  // ---------- the associated queries ----------

  ghost predicate Successful(m: Memory, b: string, h: string) {
    Has(m, b, h) && m[b].hostVerifyStatusMap[h].status == STATE_SUCCESS
  }

  /** The two queries are converse: both answer the successful pairs of the map. */
  lemma {:induction false} QueriesAreConverse(s: Store, b: string, h: string)
    requires Agrees(s)
    ensures h in Domains(s.rows, b) <==> Successful(s.memory, b, h)
    ensures b in BundleNames(s.rows, h) <==> Successful(s.memory, b, h)
  {
    var byBundle, byHost := Filter(s.rows, SuccessOfBundle(b)), Filter(s.rows, SuccessOfDomain(h));
    if Successful(s.memory, b, h) {
      var r := Item(b, s.memory[b], h);
      FilterMember(s.rows, SuccessOfBundle(b), r);
      FilterMember(s.rows, SuccessOfDomain(h), r);
      var i :| 0 <= i < |byBundle| && byBundle[i] == r;
      var j :| 0 <= j < |byHost| && byHost[j] == r;
      assert Domains(s.rows, b)[i] == h && BundleNames(s.rows, h)[j] == b;
    }
    if h in Domains(s.rows, b) {
      var i :| 0 <= i < |byBundle| && byBundle[i].domain == h;
      FilterMember(s.rows, SuccessOfBundle(b), byBundle[i]);
    }
    if b in BundleNames(s.rows, h) {
      var j :| 0 <= j < |byHost| && byHost[j].bundleName == b;
      FilterMember(s.rows, SuccessOfDomain(h), byHost[j]);
    }
  }

  /** Neither query answers anything twice. */
  lemma {:induction false} QueriesAnswerOnce(s: Store, b: string, h: string)
    requires Agrees(s)
    ensures Distinct(Domains(s.rows, b)) && Distinct(BundleNames(s.rows, h))
  {
    var byBundle, byHost := Filter(s.rows, SuccessOfBundle(b)), Filter(s.rows, SuccessOfDomain(h));
    FilterUnique(s.rows, SuccessOfBundle(b));
    FilterUnique(s.rows, SuccessOfDomain(h));
    forall i | 0 <= i < |byBundle| ensures byBundle[i].bundleName == b {
      FilterMember(s.rows, SuccessOfBundle(b), byBundle[i]);
    }
    forall i | 0 <= i < |byHost| ensures byHost[i].domain == h {
      FilterMember(s.rows, SuccessOfDomain(h), byHost[i]);
    }
  }

  // ---------- reload ----------

  function RecordOf(r: RdbDataItem): VerifyStatus {
    VerifyStatus(r.status, r.count, r.verifyTs, r.priority)
  }

  ghost predicate HasHost(items: seq<RdbDataItem>, h: string) {
    exists r :: r in items && r.domain == h
  }

  lemma {:induction false} RebuildHosts(items: seq<RdbDataItem>, hosts: HostVerifyStatusMap, h: string)
    ensures h in Rebuild(items, hosts) <==> h in hosts || HasHost(items, h)
    ensures h in hosts ==> Rebuild(items, hosts)[h] == hosts[h]
  {
    if items != [] {
      var it, rest := items[0], items[1..];
      var more := if it.domain in hosts then hosts else hosts[it.domain := RecordOf(it)];
      assert items == [it] + rest;
      assert HasHost(items, h) <==> it.domain == h || HasHost(rest, h);
      RebuildHosts(rest, more, h);
    }
  }

  /** Of rows without duplicate hosts each gives its record. */
  lemma {:induction false} RebuildRecords(items: seq<RdbDataItem>, hosts: HostVerifyStatusMap, i: nat)
    requires i < |items| && items[i].domain !in hosts
    requires forall j :: 0 <= j < i ==> items[j].domain != items[i].domain
    ensures items[i].domain in Rebuild(items, hosts)
    ensures Rebuild(items, hosts)[items[i].domain] == RecordOf(items[i])
  {
    var it, rest := items[0], items[1..];
    var more := if it.domain in hosts then hosts else hosts[it.domain := RecordOf(it)];
    if i == 0 {
      RebuildHosts(rest, more, it.domain);
    } else {
      assert rest[i - 1] == items[i];
      RebuildRecords(rest, more, i - 1);
    }
  }

  /** Loading an agreeing table rebuilds the map, except for bundles without hosts. */
  lemma {:induction false} ReloadRestores(s: Store)
    requires Agrees(s)
    ensures Loaded(s.rows) == map b | b in s.memory && s.memory[b].hostVerifyStatusMap != map[] :: s.memory[b]
  {
    var loaded := Loaded(s.rows);
    forall b ensures b in loaded <==> b in s.memory && s.memory[b].hostVerifyStatusMap != map[] {
      BundleListed(s, b);
    }
    forall b | b in loaded ensures loaded[b] == s.memory[b] {
      BundleRestored(s, b);
    }
    SameMap(loaded, map b | b in s.memory && s.memory[b].hostVerifyStatusMap != map[] :: s.memory[b]);
  }

  lemma {:induction false} SameMap(m: Memory, n: Memory)
    requires forall b :: b in m <==> b in n
    requires forall b :: b in m ==> m[b] == n[b]
    ensures m == n
  {
  }

  lemma {:induction false} BundleListed(s: Store, b: string)
    requires Agrees(s)
    ensures b in Bundles(s.rows) <==> b in s.memory && s.memory[b].hostVerifyStatusMap != map[]
  {
    if b in Bundles(s.rows) {
      var i :| 0 <= i < |s.rows| && s.rows[i].bundleName == b;
      assert s.rows[i] in s.rows;
    }
    if b in s.memory && s.memory[b].hostVerifyStatusMap != map[] {
      var h :| h in s.memory[b].hostVerifyStatusMap;
      assert Has(s.memory, b, h);
      var i :| 0 <= i < |s.rows| && s.rows[i] == Item(b, s.memory[b], h);
      assert s.rows[i].bundleName == b;
    }
  }

  lemma {:induction false} BundleRestored(s: Store, b: string)
    requires Agrees(s) && b in s.memory && s.memory[b].hostVerifyStatusMap != map[]
    ensures Rebuilt(Filter(s.rows, OfBundle(b))) == s.memory[b]
  {
    var items, info := Filter(s.rows, OfBundle(b)), s.memory[b];
    var hosts := Rebuild(items, map[]);
    FilterUnique(s.rows, OfBundle(b));
    forall r ensures r in items <==> r.domain in info.hostVerifyStatusMap && r == Item(b, info, r.domain) {
      FilterMember(s.rows, OfBundle(b), r);
      assert r.domain in info.hostVerifyStatusMap ==> Has(s.memory, b, r.domain);
    }
    forall h ensures h in hosts <==> h in info.hostVerifyStatusMap {
      RebuildHosts(items, map[], h);
      assert h in info.hostVerifyStatusMap ==> Item(b, info, h) in items;
    }
    forall h | h in info.hostVerifyStatusMap ensures hosts[h] == info.hostVerifyStatusMap[h] {
      var i :| 0 <= i < |items| && items[i] == Item(b, info, h);
      assert forall j :: 0 <= j < i ==> items[j] in items;
      RebuildRecords(items, map[], i);
    }
    var h :| h in info.hostVerifyStatusMap;
    assert Item(b, info, h) in items && items[0] in items;
  }

  /** Persist and reload: after any run whose table operations take effect, in
      whatever order hosts were written, a restart finds the same map again. */
  lemma {:induction false} RunReloads(run: seq<Op>)
    requires Exec(Store(map[], []), run).Some?
    requires forall i :: 0 <= i < |run| ==> Succeeded(run[i])
    ensures var s := Exec(Store(map[], []), run).value;
      Loaded(s.rows) == map b | b in s.memory && s.memory[b].hostVerifyStatusMap != map[] :: s.memory[b]
  {
    RunAgrees(run);
    ReloadRestores(Exec(Store(map[], []), run).value);
  }

  // ---------- late results ----------

  function MemoryOf(run: seq<Op>): Memory {
    if run == [] then map[] else MemoryAfter(MemoryOf(run[..|run| - 1]), run[|run| - 1])
  }

  /** The memory of a run does not depend on how its table operations went. */
  lemma {:induction false} TableFailuresDoNotMatter(run: seq<Op>)
    requires Exec(Store(map[], []), run).Some?
    ensures Exec(Store(map[], []), run).value.memory == MemoryOf(run)
  {
    if run != [] {
      TableFailuresDoNotMatter(run[..|run| - 1]);
    }
  }

  /** Reference: what the last install or uninstall of the bundle left, saves
      being ignored. */
  function LastInstall(run: seq<Op>, b: string): Option<VerifyResultInfo> {
    if run == [] then None
    else
      var op := run[|run| - 1];
      if op.Insert? && op.bundleName == b then Some(op.info)
      else if op.Delete? && op.bundleName == b then None
      else LastInstall(run[..|run| - 1], b)
  }

  /** Reference: the last record given for a host since the bundle's last install. */
  function LastRecord(run: seq<Op>, b: string, h: string): Option<VerifyStatus> {
    if run == [] then None
    else
      var op := run[|run| - 1];
      if op.bundleName == b && op.Delete? then None
      else if op.bundleName == b && (op.Insert? || h in op.info.hostVerifyStatusMap) then
        (if h in op.info.hostVerifyStatusMap then Some(op.info.hostVerifyStatusMap[h]) else None)
      else LastRecord(run[..|run| - 1], b, h)
  }

  /** In any run of installs, uninstalls and arbitrarily late saves, whatever the
      table does, a bundle is present exactly if its last install was not undone;
      its hosts are exactly that install's, each with the last record given. */
  lemma {:induction false} LateResultsNeverResurrectOrWiden(run: seq<Op>, b: string)
    requires b != ""
    ensures b in MemoryOf(run) <==> LastInstall(run, b).Some?
    ensures b in MemoryOf(run) ==>
      var info := MemoryOf(run)[b];
      && info.appIdentifier == LastInstall(run, b).value.appIdentifier
      && info.hostVerifyStatusMap.Keys == LastInstall(run, b).value.hostVerifyStatusMap.Keys
      && forall h :: h in info.hostVerifyStatusMap ==> LastRecord(run, b, h) == Some(info.hostVerifyStatusMap[h])
  {
    if run != [] {
      LateResultsNeverResurrectOrWiden(run[..|run| - 1], b);
    }
  }
}
