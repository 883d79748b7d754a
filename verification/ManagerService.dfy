/**
 The manager service's store operations, and the choice of the abilities that may
 open a link.
 */
module ManagerService {
  import opened DeferredLinks
  import opened DomainVerifier
  import opened Seqs
  import opened StatusStore
  import opened VerifyTypes

  // ---------- the hosts of an application ----------

  const HTTPS: string := "https"
  const FUZZY_HOST_START: string := "*."

  /** Every host passes the source's host check. */
  predicate Collectable(u: SkillUri) {
    u.host != "" && u.scheme == HTTPS
  }

  /** A wildcard host stands for its parent domain. */
  function UriOf(u: SkillUri): string {
    u.scheme + "://" + (if FUZZY_HOST_START <= u.host then u.host[|FUZZY_HOST_START|..] else u.host)
  }

  const UNVERIFIED: VerifyStatus := VerifyStatus(UNKNOWN, 0, "", PRIORITY_UNSET)

  /** `uri` is the key of one of the skills that count. */
  ghost predicate Collects(skillUris: seq<SkillUri>, uri: string) {
    exists u :: u in skillUris && Collectable(u) && UriOf(u) == uri
  }

  /** The map of a new application: every collected key, unverified. */
  ghost function Collected(skillUris: seq<SkillUri>): HostVerifyStatusMap {
    map uri | uri in UriSet(skillUris) :: UNVERIFIED
  }

  ghost function UriSet(skillUris: seq<SkillUri>): (uris: set<string>)
    ensures forall uri :: uri in uris <==> Collects(skillUris, uri)
  {
    set u | u in skillUris && Collectable(u) :: UriOf(u)
  }

  lemma {:induction false} UriSetNext(s: seq<SkillUri>, u: SkillUri)
    ensures UriSet(s + [u]) == UriSet(s) + if Collectable(u) then {UriOf(u)} else {}
  {
    assert forall v :: v in s + [u] <==> v in s || v == u;
  }

  lemma {:induction false} CollectedNext(s: seq<SkillUri>, u: SkillUri, hosts: HostVerifyStatusMap)
    ensures Collected(s + [u]) + hosts ==
      if Collectable(u) && UriOf(u) !in Collected(s) + hosts then (Collected(s) + hosts)[UriOf(u) := UNVERIFIED]
      else Collected(s) + hosts
  {
    UriSetNext(s, u);
    if Collectable(u) {
      assert Collected(s + [u]) == Collected(s)[UriOf(u) := UNVERIFIED];
      PutUnder(Collected(s), hosts, UriOf(u));
    } else {
      assert Collected(s + [u]) == Collected(s);
    }
  }

  lemma {:induction false} PutUnder(m: HostVerifyStatusMap, hosts: HostVerifyStatusMap, uri: string)
    requires uri in m ==> m[uri] == UNVERIFIED
    ensures m[uri := UNVERIFIED] + hosts == if uri !in m + hosts then (m + hosts)[uri := UNVERIFIED] else m + hosts
  {
  }

  /** Keys already in the map keep their record. */
  method CollectDomains(skillUris: seq<SkillUri>, info: VerifyResultInfo) returns (r: VerifyResultInfo)
    ensures r == info.(hostVerifyStatusMap := Collected(skillUris) + info.hostVerifyStatusMap)
  {
    r := info;
    for i := 0 to |skillUris|
      invariant r.appIdentifier == info.appIdentifier
      invariant r.hostVerifyStatusMap == Collected(skillUris[..i]) + info.hostVerifyStatusMap
    {
      assert skillUris[..i + 1] == skillUris[..i] + [skillUris[i]];
      CollectedNext(skillUris[..i], skillUris[i], info.hostVerifyStatusMap);
      var it := skillUris[i];
      if it.scheme == "" || it.host == "" || it.scheme != HTTPS {
        continue;
      }
      var host := it.host;
      if FUZZY_HOST_START <= it.host {
        host := it.host[|FUZZY_HOST_START|..];
      }
      var uri := it.scheme + "://" + host;
      if uri !in r.hostVerifyStatusMap {
        r := r.(hostVerifyStatusMap := r.hostVerifyStatusMap[uri := UNVERIFIED]);
      }
    }
    assert skillUris[..|skillUris|] == skillUris;
  }

  // ---------- the best candidates ----------

  datatype AbilityInfo = AbilityInfo(bundleName: string, name: string)

  /** The priority under which an ability may open links of the host. */
  function Offer(m: Memory, key: string, a: AbilityInfo): Option<Int32> {
    if a.bundleName == "" || a.bundleName !in m then None
    else
      var hosts := m[a.bundleName].hostVerifyStatusMap;
      if key in hosts && Verified(hosts[key].status) then Some(hosts[key].priority) else None
  }

  /** The highest priority offered, no lower than PRIORITY_UNSET. */
  function Best(m: Memory, key: string, s: seq<AbilityInfo>): int {
    if s == [] then PRIORITY_UNSET
    else
      var rest := Best(m, key, s[..|s| - 1]);
      match Offer(m, key, s[|s| - 1])
      case None => rest
      case Some(p) => if p > rest then p else rest
  }

  /** Nobody offers more than `best`, and somebody does offer it unless it is the
      floor. */
  lemma {:induction false} BestIsHighest(m: Memory, key: string, s: seq<AbilityInfo>)
    ensures Best(m, key, s) >= PRIORITY_UNSET
    ensures forall a :: a in s && Offer(m, key, a).Some? ==> Offer(m, key, a).value <= Best(m, key, s)
    ensures Best(m, key, s) > PRIORITY_UNSET ==> exists a :: a in s && Offer(m, key, a) == Some(Best(m, key, s))
  {
    if s != [] {
      var before, last := s[..|s| - 1], s[|s| - 1];
      BestIsHighest(m, key, before);
      assert s == before + [last];
      if Best(m, key, s) != Best(m, key, before) {
        assert last in s && Offer(m, key, last) == Some(Best(m, key, s));
      }
    }
  }

  function Offering(m: Memory, key: string, p: int): AbilityInfo -> bool {
    (a: AbilityInfo) => Offer(m, key, a).Some? && Offer(m, key, a).value == p
  }

  function Offered(m: Memory, key: string): AbilityInfo -> bool {
    (a: AbilityInfo) => Offer(m, key, a).Some?
  }

  /** What the selection leaves in an output list that held `before`. */
  ghost function Selected(
    m: Memory, key: string, origin: seq<AbilityInfo>, before: seq<AbilityInfo>): seq<AbilityInfo>
  {
    var best := Best(m, key, origin);
    (if best == PRIORITY_UNSET then before else []) + Filter(origin, Offering(m, key, best))
  }

  lemma {:induction false} BestNext(m: Memory, key: string, s: seq<AbilityInfo>, a: AbilityInfo)
    ensures Best(m, key, s + [a]) ==
      var p := Offer(m, key, a); if p.Some? && p.value > Best(m, key, s) then p.value else Best(m, key, s)
  {
    var all := s + [a];
    assert all[..|all| - 1] == s && all[|all| - 1] == a;
  }

  lemma {:induction false} SelectedNext(
    m: Memory, key: string, s: seq<AbilityInfo>, a: AbilityInfo, before: seq<AbilityInfo>)
    ensures Selected(m, key, s + [a], before) ==
      if Offer(m, key, a).None? then Selected(m, key, s, before)
      else if Offer(m, key, a).value > Best(m, key, s) then [a]
      else Selected(m, key, s, before) + (if Offer(m, key, a).value == Best(m, key, s) then [a] else [])
  {
    var best := Best(m, key, s + [a]);
    BestNext(m, key, s, a);
    FilterAppend(s, [a], Offering(m, key, best));
    BestIsHighest(m, key, s);
    if best > Best(m, key, s) {
      FilterNone(s, Offering(m, key, best));
    }
  }

  /** The abilities that offer, in order, with their priorities. */
  ghost predicate Lists(m: Memory, key: string, list: seq<(AbilityInfo, Int32)>, abilities: seq<AbilityInfo>) {
    && |list| == |abilities|
    && forall i :: 0 <= i < |list| ==> list[i].0 == abilities[i] && Offer(m, key, abilities[i]) == Some(list[i].1)
  }

  /** Passing over abilities without an offer selects the same. */
  lemma {:induction false} OnlyOffersCount(m: Memory, key: string, s: seq<AbilityInfo>, before: seq<AbilityInfo>)
    ensures Selected(m, key, Filter(s, Offered(m, key)), before) == Selected(m, key, s, before)
    ensures Best(m, key, Filter(s, Offered(m, key))) == Best(m, key, s)
  {
    if s != [] {
      var front, last := s[..|s| - 1], s[|s| - 1];
      var kept := Filter(front, Offered(m, key));
      OnlyOffersCount(m, key, front, before);
      assert s == front + [last];
      FilterAppend(front, [last], Offered(m, key));
      assert Filter([last], Offered(m, key)) == if Offer(m, key, last).Some? then [last] else [];
      OfferNext(m, key, kept, front, last, before);
      assert kept + [] == kept;
    }
  }

  /** One more ability changes two lists that select the same in the same way. */
  lemma {:induction false} OfferNext(
    m: Memory, key: string, kept: seq<AbilityInfo>, front: seq<AbilityInfo>, last: AbilityInfo,
    before: seq<AbilityInfo>)
    requires Selected(m, key, kept, before) == Selected(m, key, front, before)
    requires Best(m, key, kept) == Best(m, key, front)
    ensures
      var more := if Offer(m, key, last).Some? then kept + [last] else kept;
      && Selected(m, key, more, before) == Selected(m, key, front + [last], before)
      && Best(m, key, more) == Best(m, key, front + [last])
  {
    SelectedNext(m, key, front, last, before);
    BestNext(m, key, front, last);
    SelectedNext(m, key, kept, last, before);
    BestNext(m, key, kept, last);
  }

  class AppDomainVerifyMgrService {
    const dataMgr: AppDomainVerifyDataMgr
    const deferredLinkMgr: DeferredLinkMgr

    constructor (data: AppDomainVerifyDataMgr, links: DeferredLinkMgr)
      ensures dataMgr == data && deferredLinkMgr == links
    {
      dataMgr, deferredLinkMgr := data, links;
    }

    /** Installs the application; what is returned is sent to the agent to verify,
        whether or not the store took the hosts. */
    method VerifyDomain(
      isSACall: bool, appIdentifier: string, bundleName: string, fingerprint: string,
      isPreinstalled: bool, skillUris: seq<SkillUri>)
      returns (sent: Option<(AppVerifyBaseInfo, VerifyResultInfo)>, ghost w: Write)
      modifies dataMgr`verifyMap, dataMgr.rdbDataManager
      ensures !isSACall ==> sent.None? && dataMgr.State() == old(dataMgr.State())
      ensures isSACall ==> sent == Some((
        AppVerifyBaseInfo(appIdentifier, bundleName, fingerprint, PRIORITY_UNSET, isPreinstalled),
        VerifyResultInfo(appIdentifier, Collected(skillUris))))
      ensures isSACall && dataMgr.rdbDataManager == null ==> dataMgr.State() == old(dataMgr.State())
      ensures isSACall && dataMgr.rdbDataManager != null ==>
        var op := Insert(bundleName, VerifyResultInfo(appIdentifier, Collected(skillUris)), w);
        LegalOp(old(dataMgr.verifyMap), op) && dataMgr.State() == After(old(dataMgr.State()), op)
    {
      w := Write([], false, 0);
      if !isSACall {
        return None, w;
      }
      var app := AppVerifyBaseInfo(appIdentifier, bundleName, fingerprint, PRIORITY_UNSET, isPreinstalled);
      var info := CollectDomains(skillUris, VerifyResultInfo(appIdentifier, map[]));
      assert Collected(skillUris) + map[] == Collected(skillUris);
      var _, write := dataMgr.InsertVerifyStatus(bundleName, info);
      w := write;
      sent := Some((app, info));
    }

    method ClearDomainVerifyStatus(isSACall: bool, bundleName: string) returns (ok: bool, ghost deleted: bool)
      modifies dataMgr`verifyMap, dataMgr.rdbDataManager
      ensures !isSACall || dataMgr.rdbDataManager == null ==> !ok && dataMgr.State() == old(dataMgr.State())
      ensures isSACall && dataMgr.rdbDataManager != null ==>
        var op := Delete(bundleName, deleted);
        dataMgr.State() == After(old(dataMgr.State()), op) && ok == Returned(old(dataMgr.verifyMap), op)
    {
      if !isSACall {
        return false, false;
      }
      ok, deleted := dataMgr.DeleteVerifyStatus(bundleName);
    }

    /** The event is sent whether or not the update was stored. */
    method SaveDomainVerifyStatus(isSACall: bool, bundleName: string, info: VerifyResultInfo, accepts: string -> bool)
      returns (ok: bool, event: Option<string>, ghost w: Write)
      modifies dataMgr`verifyMap, dataMgr.rdbDataManager, deferredLinkMgr`caches
      ensures deferredLinkMgr.State() == old(deferredLinkMgr.State())
      ensures !isSACall || dataMgr.rdbDataManager == null ==> !ok && dataMgr.State() == old(dataMgr.State())
      ensures isSACall && dataMgr.rdbDataManager != null ==>
        var op := Update(bundleName, info, w);
        && LegalOp(old(dataMgr.verifyMap), op)
        && dataMgr.State() == After(old(dataMgr.State()), op)
        && ok == Returned(old(dataMgr.verifyMap), op)
      ensures event == if isSACall then VerifiedEvent(deferredLinkMgr.caches, bundleName, info, accepts) else None
    {
      w := Write([], false, 0);
      if !isSACall {
        return false, None, w;
      }
      ok, w := dataMgr.UpdateVerifyStatus(bundleName, info);
      event := SendVerifiedEvent(bundleName, info, accepts);
    }

    /** `accepts` is the bundle's ability filter; the event carries the identifier. */
    method SendVerifiedEvent(bundleName: string, info: VerifyResultInfo, accepts: string -> bool)
      returns (event: Option<string>)
      modifies deferredLinkMgr`caches
      ensures deferredLinkMgr.State() == old(deferredLinkMgr.State())
      ensures event == VerifiedEvent(deferredLinkMgr.caches, bundleName, info, accepts)
    {
      var hosts := info.hostVerifyStatusMap;
      var domains: seq<string> := [];
      var left := hosts.Keys;
      while left != {}
        invariant left <= hosts.Keys
        invariant forall h :: h in domains <==> h in hosts && h !in left && hosts[h].status == STATE_SUCCESS
        decreases left
      {
        var h :| h in left;
        if hosts[h].status == STATE_SUCCESS {
          domains := domains + [h];
        }
        left := left - {h};
      }
      ghost var links := deferredLinkMgr.caches;
      var link := deferredLinkMgr.GetDeferredLink(bundleName, domains, accepts, true);
      SameFilter(links, Wanted(domains, accepts), WantedNow(info, accepts));
      if domains == [] { FilterNone(links, WantedNow(info, accepts)); }
      event := if link == "" then None else Some(info.appIdentifier);
    }

    /** The caller's list is replaced as soon as an offer above the floor is seen. */
    method FilterAbilitiesInner(hostVerifyKey: string, origin: seq<AbilityInfo>, before: seq<AbilityInfo>)
      returns (filtered: seq<AbilityInfo>)
      ensures filtered == Selected(dataMgr.verifyMap, hostVerifyKey, origin, before)
    {
      var list: seq<(AbilityInfo, Int32)> := [];
      ghost var m, abilities: seq<AbilityInfo> := dataMgr.verifyMap, [];
      for i := 0 to |origin|
        invariant abilities == Filter(origin[..i], Offered(m, hostVerifyKey))
        invariant Lists(m, hostVerifyKey, list, abilities)
      {
        var it := origin[i];
        assert origin[..i + 1] == origin[..i] + [it];
        FilterAppend(origin[..i], [it], Offered(m, hostVerifyKey));
        var info := dataMgr.GetVerifyStatus(it.bundleName);
        if info.None? || hostVerifyKey !in info.value.hostVerifyStatusMap {
          continue;
        }
        var e := info.value.hostVerifyStatusMap[hostVerifyKey];
        if e.status == STATE_SUCCESS || e.status == PRE_INSTALLED {
          list := list + [(it, e.priority)];
          abilities := abilities + [it];
        }
      }
      assert origin[..|origin|] == origin;
      filtered := SelectMax(m, hostVerifyKey, list, abilities, before);
      OnlyOffersCount(m, hostVerifyKey, origin, before);
    }

    /** `scheme` and `host` are parsed from the want's `uri`; `blacklisted` tells
        whether links of the host are not kept. */
    method FilterAbilities(
      isSACall: bool, isImplicit: bool, uri: string, scheme: string, host: string, blacklisted: bool, now: nat,
      origin: seq<AbilityInfo>, before: seq<AbilityInfo>)
      returns (ok: bool, filtered: seq<AbilityInfo>)
      modifies deferredLinkMgr
      ensures ok == (isSACall && isImplicit && scheme != "" && host != "")
      ensures !ok ==> filtered == before && deferredLinkMgr.State() == old(deferredLinkMgr.State())
      ensures ok ==> filtered == Selected(dataMgr.verifyMap, scheme + "://" + host, origin, before)
      ensures ok ==>
        var links := old(deferredLinkMgr.State());
        deferredLinkMgr.State() == AfterFilter(links, scheme + "://" + host, uri, filtered, blacklisted, now)
    {
      if !isSACall || !isImplicit || scheme == "" || host == "" {
        return false, before;
      }
      var hostVerifyKey := scheme + "://" + host;
      filtered := FilterAbilitiesInner(hostVerifyKey, origin, before);
      if filtered == [] {
        if !blacklisted {
          deferredLinkMgr.PutDeferredLink(DeferredLinkInfo(hostVerifyKey, uri, Seconds(now)), now);
        }
      } else {
        deferredLinkMgr.RemoveDeferredLink(DeferredLinkInfo(hostVerifyKey, uri, 0));
      }
      ok := true;
    }
  }

  /** The link is of a host the result has verified, and the bundle takes it. */
  function WantedNow(info: VerifyResultInfo, accepts: string -> bool): DeferredLinkInfo -> bool {
    (l: DeferredLinkInfo) =>
      && l.domain in info.hostVerifyStatusMap && info.hostVerifyStatusMap[l.domain].status == STATE_SUCCESS
      && accepts(l.url)
  }

  function VerifiedEvent(
    links: seq<DeferredLinkInfo>, bundleName: string, info: VerifyResultInfo, accepts: string -> bool): Option<string>
  {
    if bundleName == "" || FirstUrl(Filter(links, WantedNow(info, accepts))) == "" then None
    else Some(info.appIdentifier)
  }

  /** The event is sent if and only if a link waits for a host just verified. */
  lemma {:induction false} EventMeansLinkWaits(
    links: seq<DeferredLinkInfo>, bundleName: string, info: VerifyResultInfo, accepts: string -> bool)
    requires bundleName != "" && forall l :: l in links ==> l.url != ""
    ensures VerifiedEvent(links, bundleName, info, accepts).Some? <==>
      exists l :: l in links && WantedNow(info, accepts)(l)
  {
    var p := WantedNow(info, accepts);
    if Filter(links, p) != [] {
      var i := FirstOfFilter(links, p);
      assert links[i] in links;
    } else {
      forall l | l in links ensures !p(l) {
        FilterMember(links, p, l);
      }
    }
  }

  function AfterFilter(
    links: LinkCache, key: string, uri: string, filtered: seq<AbilityInfo>, blacklisted: bool, now: nat): LinkCache
  {
    if filtered != [] then AfterRemove(links, DeferredLinkInfo(key, uri, 0))
    else if blacklisted then links
    else AfterPut(links, DeferredLinkInfo(key, uri, Seconds(now)), now)
  }

  /** The second loop of FilterAbilitiesInner. */
  method SelectMax(
    ghost m: Memory, ghost key: string, list: seq<(AbilityInfo, Int32)>, ghost abilities: seq<AbilityInfo>,
    before: seq<AbilityInfo>)
    returns (filtered: seq<AbilityInfo>)
    requires Lists(m, key, list, abilities)
    ensures filtered == Selected(m, key, abilities, before)
  {
    filtered := before;
    var max: int := PRIORITY_UNSET;
    for i := 0 to |list|
      invariant max == Best(m, key, abilities[..i]) && filtered == Selected(m, key, abilities[..i], before)
    {
      assert abilities[..i + 1] == abilities[..i] + [abilities[i]];
      assert abilities[..i + 1][..i] == abilities[..i];
      SelectedNext(m, key, abilities[..i], abilities[i], before);
      var currentPriority := list[i].1;
      if currentPriority > max {
        max := currentPriority;
        filtered := [list[i].0];
      } else if currentPriority == max {
        filtered := filtered + [list[i].0];
      }
    }
    assert abilities[..|list|] == abilities;
  }

  // ---------- what the selection means ----------

  /** No verified ability of the list offers more. */
  ghost predicate Maximal(m: Memory, key: string, s: seq<AbilityInfo>, a: AbilityInfo) {
    && Offer(m, key, a).Some?
    && forall b :: b in s && Offer(m, key, b).Some? ==> Offer(m, key, b).value <= Offer(m, key, a).value
  }

  ghost predicate LegalMemory(m: Memory) {
    forall b :: b in m ==> LegalHosts(m[b].hostVerifyStatusMap)
  }

  lemma {:induction false} SelectionMember(m: Memory, key: string, origin: seq<AbilityInfo>, a: AbilityInfo)
    ensures a in Selected(m, key, origin, []) <==>
      a in origin && Maximal(m, key, origin, a) && Offer(m, key, a).value >= PRIORITY_UNSET
  {
    BestIsHighest(m, key, origin);
    FilterMember(origin, Offering(m, key, Best(m, key, origin)), a);
  }

  /** From an empty list the selection is, for every store, the order-preserving
      choice of the verified abilities of maximal priority, provided that is not
      below the floor; it is empty exactly when no verified ability reaches it. */
  lemma {:induction false} SelectionOfAnyStore(m: Memory, key: string, origin: seq<AbilityInfo>)
    returns (at: seq<nat>)
    ensures Selects(origin, Offering(m, key, Best(m, key, origin)), at, Selected(m, key, origin, []))
    ensures forall a :: a in Selected(m, key, origin, []) <==>
      a in origin && Maximal(m, key, origin, a) && Offer(m, key, a).value >= PRIORITY_UNSET
    ensures Selected(m, key, origin, []) == [] <==>
      forall a :: a in origin && Offer(m, key, a).Some? ==> Offer(m, key, a).value < PRIORITY_UNSET
  {
    var r := Selected(m, key, origin, []);
    at := FilterSelects(origin, Offering(m, key, Best(m, key, origin)));
    forall a ensures a in r <==> a in origin && Maximal(m, key, origin, a) && Offer(m, key, a).value >= PRIORITY_UNSET {
      SelectionMember(m, key, origin, a);
    }
    EmptySelection(m, key, origin);
  }

  lemma {:induction false} EmptySelection(m: Memory, key: string, origin: seq<AbilityInfo>)
    ensures Selected(m, key, origin, []) == [] <==>
      forall a :: a in origin && Offer(m, key, a).Some? ==> Offer(m, key, a).value < PRIORITY_UNSET
  {
    var r, best := Selected(m, key, origin, []), Best(m, key, origin);
    BestIsHighest(m, key, origin);
    if r == [] {
      forall a | a in origin && Offer(m, key, a).Some? ensures Offer(m, key, a).value < PRIORITY_UNSET {
        if best > PRIORITY_UNSET {
          var b :| b in origin && Offer(m, key, b) == Some(best);
          SelectionMember(m, key, origin, b);
        } else {
          SelectionMember(m, key, origin, a);
        }
      }
    } else {
      SelectionMember(m, key, origin, r[0]);
    }
  }

  /** From a store with legal priorities: exactly the positions of the verified
      abilities of maximal priority, in order; empty iff none is verified. */
  lemma {:induction false} StableArgMax(m: Memory, key: string, origin: seq<AbilityInfo>) returns (at: seq<nat>)
    requires LegalMemory(m)
    ensures var r := Selected(m, key, origin, []);
      && |at| == |r|
      && (forall i :: 0 <= i < |at| ==> at[i] < |origin| && r[i] == origin[at[i]])
      && (forall i, j :: 0 <= i < j < |at| ==> at[i] < at[j])
      && (forall k: nat :: k < |origin| ==> (k in at <==> Maximal(m, key, origin, origin[k])))
      && (r == [] <==> forall a :: a in origin ==> Offer(m, key, a).None?)
  {
    at := SelectionOfAnyStore(m, key, origin);
    var r := Selected(m, key, origin, []);
    forall k: nat | k < |origin| ensures k in at <==> Maximal(m, key, origin, origin[k]) {
      if Maximal(m, key, origin, origin[k]) {
        OfferLegal(m, key, origin[k]);
        assert origin[k] in r;
        FilterMember(origin, Offering(m, key, Best(m, key, origin)), origin[k]);
      }
      if k in at {
        var i :| 0 <= i < |at| && at[i] == k;
        assert r[i] in r;
      }
    }
    forall a | Offer(m, key, a).Some? ensures Offer(m, key, a).value >= PRIORITY_UNSET {
      OfferLegal(m, key, a);
    }
  }

  lemma {:induction false} OfferLegal(m: Memory, key: string, a: AbilityInfo)
    requires LegalMemory(m) && Offer(m, key, a).Some?
    ensures LegalPriority(Offer(m, key, a).value)
  {
    assert LegalHosts(m[a.bundleName].hostVerifyStatusMap);
  }

  /** A new application's hosts are legal. */
  lemma {:induction false} CollectedIsLegal(skillUris: seq<SkillUri>)
    ensures LegalHosts(Collected(skillUris))
  {
  }

  /** An update with legal hosts keeps the store legal. */
  lemma {:induction false} MemoryStaysLegal(m: Memory, op: Op)
    requires LegalMemory(m) && (op.Delete? || LegalHosts(op.info.hostVerifyStatusMap))
    ensures LegalMemory(MemoryAfter(m, op))
  {
    var m' := MemoryAfter(m, op);
    forall b | b in m' ensures LegalHosts(m'[b].hostVerifyStatusMap) {
      if b in m { assert LegalHosts(m[b].hostVerifyStatusMap); }
    }
  }

  /** After a call the link waits for an application exactly when no ability was
      verified for it, unless its host is blacklisted: then it waits only if it
      did already. */
  lemma {:induction false} LinkWaitsIffNobodyVerified(
    m: Memory, links: LinkCache, key: string, uri: string, origin: seq<AbilityInfo>, blacklisted: bool, now: nat)
    requires LegalMemory(m)
    ensures
      var r := AfterFilter(links, key, uri, Selected(m, key, origin, []), blacklisted, now);
      var waits := (exists l :: l in r.caches && Key(l) == (key, uri));
      waits <==>
        && (forall a :: a in origin ==> Offer(m, key, a).None?)
        && (!blacklisted || exists l :: l in links.caches && Key(l) == (key, uri))
  {
    var _ := StableArgMax(m, key, origin);
    var filtered := Selected(m, key, origin, []);
    var r := AfterFilter(links, key, uri, filtered, blacklisted, now);
    if filtered != [] {
      forall l | l in r.caches ensures Key(l) != (key, uri) {
        FilterMember(links.caches, OtherKey(DeferredLinkInfo(key, uri, 0)), l);
      }
    } else if !blacklisted {
      assert r.caches[0] in r.caches && Key(r.caches[0]) == (key, uri);
    }
  }

  // ---------- hosts and abilities, field by field ----------

  /** The key of a skill: a host "*.d" stands for d. */
  predicate IsKey(u: SkillUri, key: string) {
    && u.scheme == "https" && u.host != ""
    && (if |u.host| >= 2 && u.host[0] == '*' && u.host[1] == '.' then key == "https://" + u.host[2..]
        else key == "https://" + u.host)
  }

  lemma {:induction false} UriIsKey(u: SkillUri, key: string)
    ensures Collectable(u) && UriOf(u) == key <==> IsKey(u, key)
  {
    assert "https" + "://" == "https://";
    assert FUZZY_HOST_START <= u.host <==> |u.host| >= 2 && u.host[0] == '*' && u.host[1] == '.';
  }

  /** The keys collected are exactly those of the skills with scheme "https" and a
      host, each unverified, never tried, unstamped, with the priority unset. */
  lemma {:induction false} CollectsExactly(skillUris: seq<SkillUri>, key: string)
    ensures key in Collected(skillUris) <==> exists u :: u in skillUris && IsKey(u, key)
    ensures key in Collected(skillUris) ==> Collected(skillUris)[key] == VerifyStatus(0, 0, "", -1000)
  {
    forall u ensures Collectable(u) && UriOf(u) == key <==> IsKey(u, key) {
      UriIsKey(u, key);
    }
    assert key in Collected(skillUris) <==> Collects(skillUris, key);
    if u :| u in skillUris && IsKey(u, key) {
      assert Collects(skillUris, key);
    }
  }

  /** A wildcard host, and any other. */
  lemma {:induction false} CollectsHost(skillUris: seq<SkillUri>, u: SkillUri, domain: string)
    requires u in skillUris && u.scheme == "https"
    ensures u.host == "*." + domain ==> "https://" + domain in Collected(skillUris)
    ensures u.host != "" && !("*." <= u.host) ==> "https://" + u.host in Collected(skillUris)
  {
    if u.host == "*." + domain {
      assert u.host[2..] == domain;
      CollectsExactly(skillUris, "https://" + domain);
      assert IsKey(u, "https://" + domain);
    }
    if u.host != "" && !("*." <= u.host) {
      CollectsExactly(skillUris, "https://" + u.host);
      assert |u.host| >= 2 ==> u.host[..2] != "*.";
      assert IsKey(u, "https://" + u.host);
    }
  }

  /** The ability's bundle is stored with a success, or as preinstalled, for the key. */
  predicate MayOpen(m: Memory, key: string, a: AbilityInfo) {
    && a.bundleName != "" && a.bundleName in m && key in m[a.bundleName].hostVerifyStatusMap
    && (m[a.bundleName].hostVerifyStatusMap[key].status == 1 || m[a.bundleName].hostVerifyStatusMap[key].status == 10)
  }

  function PriorityOf(m: Memory, key: string, a: AbilityInfo): int
    requires MayOpen(m, key, a)
  {
    m[a.bundleName].hostVerifyStatusMap[key].priority
  }

  lemma {:induction false} OffersExactly(m: Memory, key: string, a: AbilityInfo)
    ensures Offer(m, key, a).Some? <==> MayOpen(m, key, a)
    ensures MayOpen(m, key, a) ==> Offer(m, key, a).value == PriorityOf(m, key, a)
  {
  }

  /** What is selected from an empty list, for every store: the abilities that may
      open the link, with a priority of at least -1000 and no lower than that of any
      other that may. */
  lemma {:induction false} SelectsExactly(m: Memory, key: string, origin: seq<AbilityInfo>, a: AbilityInfo)
    ensures a in Selected(m, key, origin, []) <==>
      && a in origin && MayOpen(m, key, a) && PriorityOf(m, key, a) >= -1000
      && forall b :: b in origin && MayOpen(m, key, b) ==> PriorityOf(m, key, b) <= PriorityOf(m, key, a)
  {
    forall b ensures Offer(m, key, b).Some? <==> MayOpen(m, key, b) {
      OffersExactly(m, key, b);
    }
    forall b | MayOpen(m, key, b) ensures Offer(m, key, b).value == PriorityOf(m, key, b) {
      OffersExactly(m, key, b);
    }
    SelectionMember(m, key, origin, a);
  }

  /** A caller's list is kept, before what is selected, exactly if no ability that may
      open the link has a priority above -1000. */
  lemma {:induction false} CallersListKept(m: Memory, key: string, origin: seq<AbilityInfo>, before: seq<AbilityInfo>)
    ensures Selected(m, key, origin, before) ==
      if forall a :: a in origin && MayOpen(m, key, a) ==> PriorityOf(m, key, a) <= -1000
      then before + Selected(m, key, origin, []) else Selected(m, key, origin, [])
  {
    BestIsHighest(m, key, origin);
    forall b ensures Offer(m, key, b).Some? <==> MayOpen(m, key, b) {
      OffersExactly(m, key, b);
    }
    forall b | MayOpen(m, key, b) ensures Offer(m, key, b).value == PriorityOf(m, key, b) {
      OffersExactly(m, key, b);
    }
  }

  /** The link of a call that found nobody waits with the second of the call; one that
      found somebody waits no longer. Links of other keys are not touched then. */
  lemma {:induction false} LinkAfterFilter(
    links: LinkCache, key: string, uri: string, filtered: seq<AbilityInfo>, blacklisted: bool, now: nat)
    ensures
      var r := AfterFilter(links, key, uri, filtered, blacklisted, now);
      && (filtered == [] && !blacklisted ==>
           r.caches != [] && r.caches[0].domain == key && r.caches[0].url == uri && r.caches[0].timeStamp == now / 1000)
      && (filtered == [] && blacklisted ==> r == links)
      && (filtered != [] ==>
           && r == links.(caches := r.caches)
           && forall l :: l in r.caches <==> l in links.caches && !(l.domain == key && l.url == uri))
  {
    if filtered != [] {
      RemovesExactly(links, DeferredLinkInfo(key, uri, 0));
    }
  }

  predicate JustVerified(info: VerifyResultInfo, host: string) {
    host in info.hostVerifyStatusMap && info.hostVerifyStatusMap[host].status == 1
  }

  /** The event of a save is sent exactly if some waiting link is of a host the result
      gives as a success, and is taken by the bundle. */
  lemma {:induction false} EventExactly(
    links: seq<DeferredLinkInfo>, bundleName: string, info: VerifyResultInfo, accepts: string -> bool)
    requires forall l :: l in links ==> l.url != ""
    ensures VerifiedEvent(links, bundleName, info, accepts) ==
      if bundleName != "" && exists l :: l in links && JustVerified(info, l.domain) && accepts(l.url)
      then Some(info.appIdentifier) else None
  {
    var p := WantedNow(info, accepts);
    assert forall l :: p(l) == (JustVerified(info, l.domain) && accepts(l.url));
    if bundleName != "" {
      EventMeansLinkWaits(links, bundleName, info, accepts);
    }
  }
}
