/**
 The table of verification records: a sequence of rows keyed only by their row
 number, so an insert appends. Every operation may fail and then changes nothing.
 */
module RdbTable {
  import opened Seqs
  import opened VerifyTypes

  datatype RdbDataItem = RdbDataItem(
    bundleName: string,
    appIdentifier: string,
    domain: string,
    status: Int32,
    verifyTs: string,
    count: Int32,
    priority: Int32)

  function OfBundle(bundleName: string): RdbDataItem -> bool {
    (row: RdbDataItem) => row.bundleName == bundleName
  }

  function NotOfBundle(bundleName: string): RdbDataItem -> bool {
    (row: RdbDataItem) => row.bundleName != bundleName
  }

  function SuccessOfBundle(bundleName: string): RdbDataItem -> bool {
    (row: RdbDataItem) => row.bundleName == bundleName && row.status == STATE_SUCCESS
  }

  function SuccessOfDomain(domain: string): RdbDataItem -> bool {
    (row: RdbDataItem) => row.domain == domain && row.status == STATE_SUCCESS
  }

  function Bundles(rows: seq<RdbDataItem>): set<string> {
    set i | 0 <= i < |rows| :: rows[i].bundleName
  }

  /** The rows of each bundle that has any, in table order. */
  function Grouped(rows: seq<RdbDataItem>): map<string, seq<RdbDataItem>> {
    map b | b in Bundles(rows) :: Filter(rows, OfBundle(b))
  }

  /** What satisfies the predicate among the rows the cursor came to is appended. */
  ghost predicate Appended(
    items: seq<RdbDataItem>, before: seq<RdbDataItem>, rows: seq<RdbDataItem>, p: RdbDataItem -> bool)
  {
    exists read: nat :: read <= |rows| && items == before + Filter(rows[..read], p)
  }

  /** The groups of the rows the cursor came to. */
  ghost predicate GroupedPart(dataMap: map<string, seq<RdbDataItem>>, rows: seq<RdbDataItem>) {
    exists read: nat :: read <= |rows| && dataMap == Grouped(rows[..read])
  }

  class RdbDataManager {
    var rows: seq<RdbDataItem>

    constructor ()
      ensures rows == []
    {
      rows := [];
    }

    method InsertData(item: RdbDataItem) returns (ok: bool)
      modifies this
      ensures rows == if ok then old(rows) + [item] else old(rows)
    {
      ok := *;
      if ok {
        rows := rows + [item];
      }
    }

    method DeleteData(bundleName: string) returns (ok: bool)
      modifies this
      ensures rows == if ok then Filter(old(rows), NotOfBundle(bundleName)) else old(rows)
    {
      ok := *;
      if ok {
        rows := Filter(rows, NotOfBundle(bundleName));
      }
    }

    /** The cursor loop appends the rows that satisfy the predicate, in table order,
        to the caller's list, as far as the cursor comes. The query fails at once, or
        at a row that cannot be read; if the cursor cannot be moved it ends well, as
        at the last row. */
    method Query(predicates: RdbDataItem -> bool, before: seq<RdbDataItem>)
      returns (ok: bool, items: seq<RdbDataItem>)
      ensures Appended(items, before, rows, predicates)
    {
      items := before;
      assert items == before + Filter(rows[..0], predicates);
      var reachable := *;
      if !reachable {
        return false, items;
      }
      for i := 0 to |rows|
        invariant items == before + Filter(rows[..i], predicates)
      {
        var moved := *;
        if !moved {
          return true, items;
        }
        var readable := *;
        if !readable {
          return false, items;
        }
        assert rows[..i + 1] == rows[..i] + [rows[i]];
        FilterAppend(rows[..i], [rows[i]], predicates);
        if predicates(rows[i]) {
          items := items + [rows[i]];
        }
      }
      ok := true;
    }

    method QueryDomainByBundleName(bundleName: string, before: seq<RdbDataItem>)
      returns (ok: bool, items: seq<RdbDataItem>)
      ensures Appended(items, before, rows, SuccessOfBundle(bundleName))
    {
      ok, items := Query(SuccessOfBundle(bundleName), before);
    }

    method QueryBundleNameByDomain(domain: string, before: seq<RdbDataItem>)
      returns (ok: bool, items: seq<RdbDataItem>)
      ensures Appended(items, before, rows, SuccessOfDomain(domain))
    {
      ok, items := Query(SuccessOfDomain(domain), before);
    }

    method QueryAllData() returns (dataMap: Option<map<string, seq<RdbDataItem>>>)
      ensures dataMap.Some? ==> GroupedPart(dataMap.value, rows)
    {
      var all := (row: RdbDataItem) => true;
      var ok, items := Query(all, []);
      if !ok {
        return None;
      }
      ghost var read: nat :| read <= |rows| && items == [] + Filter(rows[..read], all);
      FilterAll(rows[..read], all);
      assert items == rows[..read];
      var grouped := Group(items);
      dataMap := Some(grouped);
    }
  }

  /** The grouping loop. */
  method Group(items: seq<RdbDataItem>) returns (dataMap: map<string, seq<RdbDataItem>>)
    ensures dataMap == Grouped(items)
  {
    dataMap := map[];
    for i := 0 to |items|
      invariant dataMap == Grouped(items[..i])
    {
      var item := items[i];
      ghost var before := dataMap;
      GroupedAppend(items[..i], item);
      assert items[..i + 1] == items[..i] + [item];
      if item.bundleName in dataMap {
        dataMap := dataMap[item.bundleName := dataMap[item.bundleName] + [item]];
      } else {
        dataMap := dataMap[item.bundleName := [item]];
      }
      assert [] + [item] == [item];
      assert dataMap == Joined(before, item);
    }
    assert items[..|items|] == items;
  }

  lemma {:induction false} BundlesAppend(rows: seq<RdbDataItem>, item: RdbDataItem)
    ensures Bundles(rows + [item]) == Bundles(rows) + {item.bundleName}
  {
    var all := rows + [item];
    forall b ensures b in Bundles(all) <==> b in Bundles(rows) + {item.bundleName} {
      if b in Bundles(rows) {
        var i :| 0 <= i < |rows| && rows[i].bundleName == b;
        assert all[i].bundleName == b;
      }
      if b == item.bundleName { assert all[|rows|].bundleName == b; }
    }
  }

  lemma {:induction false} GroupAppend(rows: seq<RdbDataItem>, item: RdbDataItem, b: string)
    ensures Filter(rows + [item], OfBundle(b)) ==
            Filter(rows, OfBundle(b)) + (if b == item.bundleName then [item] else [])
    ensures b !in Bundles(rows) ==> Filter(rows, OfBundle(b)) == []
  {
    FilterAppend(rows, [item], OfBundle(b));
    if b !in Bundles(rows) {
      FilterNone(rows, OfBundle(b));
    }
  }

  /** A row joins its own group, at the end, and starts one if there is none. */
  lemma {:induction false} GroupedAppend(rows: seq<RdbDataItem>, item: RdbDataItem)
    ensures Grouped(rows + [item]) == Joined(Grouped(rows), item)
  {
    var after, expected := Grouped(rows + [item]), Joined(Grouped(rows), item);
    BundlesAppend(rows, item);
    forall b | b in after ensures b in expected && after[b] == expected[b] {
      GroupAppend(rows, item, b);
    }
  }

  function Joined(groups: map<string, seq<RdbDataItem>>, item: RdbDataItem): map<string, seq<RdbDataItem>> {
    var b := item.bundleName;
    groups[b := (if b in groups then groups[b] else []) + [item]]
  }
}
