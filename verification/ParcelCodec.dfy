/**
 Sending verification results between processes: writers and readers of a parcel,
 a sequence of tokens with a reading position.
 */
module ParcelCodec {
  import opened VerifyTypes

  datatype Token = Str(s: string) | U32(n: nat) | I32(i: Int32)

  const MAX_PARCEL_ARRAY_SIZE: nat := 99
  const UINT32_RANGE: nat := 0x1_0000_0000

  type Entry = (string, VerifyStatus)
  type BundleMap = map<string, VerifyResultInfo>

  // ---------- what is written ----------

  /** One key of a map, its value, and the tokens written for both. */
  datatype Piece<T> = Piece(key: string, value: T, tokens: seq<Token>)

  function Joined<T>(pieces: seq<Piece<T>>): seq<Token> {
    if pieces == [] then [] else Joined(pieces[..|pieces| - 1]) + pieces[|pieces| - 1].tokens
  }

  /** The pieces name the pairs of the map, each once, in some order: the last one
      is a pair of it and the others cover the rest. */
  ghost predicate Covers<T>(pieces: seq<Piece<T>>, m: map<string, T>) {
    if pieces == [] then m == map[]
    else
      var p := pieces[|pieces| - 1];
      p.key in m && m[p.key] == p.value && Covers(pieces[..|pieces| - 1], m - {p.key})
  }

  function EntryTokens(h: string, e: VerifyStatus): seq<Token> {
    [Str(h), I32(e.status), Str(e.verifyTime), I32(e.retryCnt), I32(e.priority)]
  }

  /** A writing of a host map, in some order. */
  ghost predicate WritesHosts(pieces: seq<Piece<VerifyStatus>>, hosts: HostVerifyStatusMap) {
    Covers(pieces, hosts) && forall p :: p in pieces ==> p.tokens == EntryTokens(p.key, p.value)
  }

  /** The size is sent as a 32-bit number. */
  function InfoTokens(info: VerifyResultInfo, pieces: seq<Piece<VerifyStatus>>): seq<Token> {
    [Str(info.appIdentifier), U32(|info.hostVerifyStatusMap| % UINT32_RANGE)] + Joined(pieces)
  }

  ghost predicate WritesInfo(tokens: seq<Token>, info: VerifyResultInfo) {
    exists pieces :: WritesHosts(pieces, info.hostVerifyStatusMap) && tokens == InfoTokens(info, pieces)
  }

  ghost predicate WritesBundle(p: Piece<VerifyResultInfo>) {
    p.tokens != [] && p.tokens[0] == Str(p.key) && WritesInfo(p.tokens[1..], p.value)
  }

  /** A writing of all bundles, in some order, each in an order of its own. */
  ghost predicate WritesBundles(pieces: seq<Piece<VerifyResultInfo>>, m: BundleMap) {
    Covers(pieces, m) && forall p :: p in pieces ==> WritesBundle(p)
  }

  function StatusTokens(m: BundleMap, pieces: seq<Piece<VerifyResultInfo>>): seq<Token> {
    [U32(|m| % UINT32_RANGE)] + Joined(pieces)
  }

  ghost predicate WritesStatus(tokens: seq<Token>, m: BundleMap) {
    exists pieces :: WritesBundles(pieces, m) && tokens == StatusTokens(m, pieces)
  }

  // ---------- what is read ----------

  /** A value and the tokens after it; `None` when a read fails. */
  type Read<T> = Option<(T, seq<Token>)>

  /** `insert` does not replace: of two pairs with one key the first counts. */
  function Inserted<T>(m: map<string, T>, k: string, v: T): map<string, T> {
    if k in m then m else m[k := v]
  }

  /** `count` pairs, added to those already read. */
  function ReadPairs<T>(
    read: seq<Token> -> Read<(string, T)>, tokens: seq<Token>, count: nat, m: map<string, T>): Read<map<string, T>>
    decreases count
  {
    if count == 0 then Some((m, tokens))
    else
      match read(tokens)
      case None => None
      case Some((pair, rest)) => ReadPairs(read, rest, count - 1, Inserted(m, pair.0, pair.1))
  }

  function ReadEntry(tokens: seq<Token>): Read<Entry> {
    if |tokens| >= 5 && tokens[0].Str? && tokens[1].I32? && tokens[2].Str? && tokens[3].I32? && tokens[4].I32? then
      Some(((tokens[0].s, VerifyStatus(tokens[1].i, tokens[3].i, tokens[2].s, tokens[4].i)), tokens[5..]))
    else None
  }

  function ReadHosts(tokens: seq<Token>): Read<HostVerifyStatusMap> {
    if tokens == [] || !tokens[0].U32? || tokens[0].n > MAX_PARCEL_ARRAY_SIZE then None
    else ReadPairs(ReadEntry, tokens[1..], tokens[0].n, map[])
  }

  function ReadInfo(tokens: seq<Token>): Read<VerifyResultInfo> {
    if tokens == [] || !tokens[0].Str? then None
    else
      match ReadHosts(tokens[1..])
      case None => None
      case Some((hosts, rest)) => Some((VerifyResultInfo(tokens[0].s, hosts), rest))
  }

  function ReadBundle(tokens: seq<Token>): Read<(string, VerifyResultInfo)> {
    if tokens == [] || !tokens[0].Str? then None
    else
      match ReadInfo(tokens[1..])
      case None => None
      case Some((info, rest)) => Some(((tokens[0].s, info), rest))
  }

  function ReadStatus(tokens: seq<Token>): Read<BundleMap> {
    if tokens == [] || !tokens[0].U32? then None else ReadPairs(ReadBundle, tokens[1..], tokens[0].n, map[])
  }

  // ---------- the parcel and its methods ----------

  class Parcel {
    var data: seq<Token>
    var cursor: nat

    ghost predicate Valid()
      reads this
    {
      cursor <= |data|
    }

    ghost function Rest(): seq<Token>
      reads this
      requires Valid()
    {
      data[cursor..]
    }

    constructor (data: seq<Token>)
      ensures Valid() && Rest() == data && this.data == data
    {
      this.data, cursor := data, 0;
    }

    method Write(t: Token)
      modifies this`data
      ensures data == old(data) + [t]
    {
      data := data + [t];
    }

    method ReadString() returns (s: Option<string>)
      requires Valid()
      modifies this`cursor
      ensures Valid()
      ensures s.Some? <==> old(Rest()) != [] && old(Rest())[0].Str?
      ensures s.Some? ==> s.value == old(Rest())[0].s && Rest() == old(Rest())[1..]
    {
      if cursor < |data| && data[cursor].Str? {
        s := Some(data[cursor].s);
        cursor := cursor + 1;
      } else {
        s := None;
      }
    }

    method ReadInt32() returns (i: Option<Int32>)
      requires Valid()
      modifies this`cursor
      ensures Valid()
      ensures i.Some? <==> old(Rest()) != [] && old(Rest())[0].I32?
      ensures i.Some? ==> i.value == old(Rest())[0].i && Rest() == old(Rest())[1..]
    {
      if cursor < |data| && data[cursor].I32? {
        i := Some(data[cursor].i);
        cursor := cursor + 1;
      } else {
        i := None;
      }
    }

    method ReadUint32() returns (n: Option<nat>)
      requires Valid()
      modifies this`cursor
      ensures Valid()
      ensures n.Some? <==> old(Rest()) != [] && old(Rest())[0].U32?
      ensures n.Some? ==> n.value == old(Rest())[0].n && Rest() == old(Rest())[1..]
    {
      if cursor < |data| && data[cursor].U32? {
        n := Some(data[cursor].n);
        cursor := cursor + 1;
      } else {
        n := None;
      }
    }
  }

  // ---------- the writers ----------

  /** `done` has been written as `pieces`; `left` is the rest of `m`. */
  ghost predicate Writing<T>(pieces: seq<Piece<T>>, done: map<string, T>, left: map<string, T>, m: map<string, T>) {
    && Covers(pieces, done)
    && done == m - left.Keys && forall k :: k in left ==> k in m && left[k] == m[k]
  }

  lemma {:induction false} WriteOneMore<T>(
    pieces: seq<Piece<T>>, done: map<string, T>, left: map<string, T>, m: map<string, T>, p: Piece<T>,
    before: seq<Token>)
    requires Writing(pieces, done, left, m) && p.key in left && left[p.key] == p.value
    ensures Writing(pieces + [p], done[p.key := p.value], left - {p.key}, m)
    ensures before + Joined(pieces) + p.tokens == before + Joined(pieces + [p])
  {
    assert (pieces + [p])[..|pieces|] == pieces;
    assert before + Joined(pieces) + p.tokens == before + (Joined(pieces) + p.tokens);
    assert done[p.key := p.value] - {p.key} == done;
  }

  lemma {:induction false} WriteOneEntry(
    pieces: seq<Piece<VerifyStatus>>, done: HostVerifyStatusMap, left: HostVerifyStatusMap, hosts: HostVerifyStatusMap,
    h: string, before: seq<Token>)
    requires WritingHosts(pieces, done, left, hosts) && h in left
    ensures
      var p := Piece(h, left[h], EntryTokens(h, left[h]));
      && WritingHosts(pieces + [p], done[h := left[h]], left - {h}, hosts)
      && before + Joined(pieces) + p.tokens == before + Joined(pieces + [p])
  {
    WriteOneMore(pieces, done, left, hosts, Piece(h, left[h], EntryTokens(h, left[h])), before);
  }

  ghost predicate WritingHosts(
    pieces: seq<Piece<VerifyStatus>>, done: HostVerifyStatusMap, left: HostVerifyStatusMap, hosts: HostVerifyStatusMap)
  {
    Writing(pieces, done, left, hosts) && forall p :: p in pieces ==> p.tokens == EntryTokens(p.key, p.value)
  }

  lemma {:induction false} WritingDone<T>(
    pieces: seq<Piece<T>>, done: map<string, T>, left: map<string, T>, m: map<string, T>)
    requires Writing(pieces, done, left, m) && left == map[]
    ensures Covers(pieces, m)
  {
    assert left.Keys == {};
    assert done == m;
  }

  method WriteEntry(h: string, e: VerifyStatus, parcel: Parcel)
    modifies parcel`data
    ensures parcel.data == old(parcel.data) + EntryTokens(h, e)
  {
    parcel.Write(Str(h));
    parcel.Write(I32(e.status));
    parcel.Write(Str(e.verifyTime));
    parcel.Write(I32(e.retryCnt));
    parcel.Write(I32(e.priority));
  }

  method WriteEntries(hosts: HostVerifyStatusMap, parcel: Parcel) returns (ghost pieces: seq<Piece<VerifyStatus>>)
    modifies parcel`data
    ensures WritesHosts(pieces, hosts)
    ensures parcel.data == old(parcel.data) + Joined(pieces)
  {
    pieces := [];
    ghost var before := parcel.data;
    var left := hosts;
    ghost var done: HostVerifyStatusMap := map[];
    while left != map[]
      invariant WritingHosts(pieces, done, left, hosts)
      invariant parcel.data == before + Joined(pieces)
      decreases |left|
    {
      var h :| h in left;
      var e := left[h];
      WriteEntry(h, e, parcel);
      WriteOneEntry(pieces, done, left, hosts, h, before);
      pieces, done := pieces + [Piece(h, e, EntryTokens(h, e))], done[h := e];
      left := left - {h};
    }
    WritingDone(pieces, done, left, hosts);
  }

  /** Marshalling of one result. */
  method MarshallingInfo(info: VerifyResultInfo, parcel: Parcel) returns (ghost tokens: seq<Token>)
    modifies parcel`data
    ensures WritesInfo(tokens, info)
    ensures parcel.data == old(parcel.data) + tokens
  {
    parcel.Write(Str(info.appIdentifier));
    parcel.Write(U32(|info.hostVerifyStatusMap| % UINT32_RANGE));
    ghost var pieces := WriteEntries(info.hostVerifyStatusMap, parcel);
    tokens := InfoTokens(info, pieces);
  }

  method WriteBundle(name: string, info: VerifyResultInfo, parcel: Parcel) returns (ghost p: Piece<VerifyResultInfo>)
    modifies parcel`data
    ensures p.key == name && p.value == info && WritesBundle(p)
    ensures parcel.data == old(parcel.data) + p.tokens
  {
    parcel.Write(Str(name));
    ghost var tokens := MarshallingInfo(info, parcel);
    p := Piece(name, info, [Str(name)] + tokens);
    assert p.tokens[1..] == tokens;
  }

  method WriteBundles(m: BundleMap, parcel: Parcel) returns (ghost pieces: seq<Piece<VerifyResultInfo>>)
    modifies parcel`data
    ensures WritesBundles(pieces, m)
    ensures parcel.data == old(parcel.data) + Joined(pieces)
  {
    pieces := [];
    ghost var before := parcel.data;
    var left := m;
    ghost var done: BundleMap := map[];
    while left != map[]
      invariant Writing(pieces, done, left, m)
      invariant forall p :: p in pieces ==> WritesBundle(p)
      invariant parcel.data == before + Joined(pieces)
      decreases |left|
    {
      var name :| name in left;
      ghost var p := WriteBundle(name, left[name], parcel);
      WriteOneMore(pieces, done, left, m, p, before);
      pieces, done := pieces + [p], done[name := p.value];
      left := left - {name};
    }
    WritingDone(pieces, done, left, m);
  }

  /** Marshalling of all bundles. */
  method MarshallingStatus(m: BundleMap, parcel: Parcel) returns (ghost tokens: seq<Token>)
    modifies parcel`data
    ensures WritesStatus(tokens, m)
    ensures parcel.data == old(parcel.data) + tokens
  {
    parcel.Write(U32(|m| % UINT32_RANGE));
    ghost var pieces := WriteBundles(m, parcel);
    tokens := StatusTokens(m, pieces);
  }

  // ---------- the readers ----------

  method ReadHostEntry(parcel: Parcel) returns (entry: Option<Entry>)
    requires parcel.Valid()
    modifies parcel`cursor
    ensures parcel.Valid()
    ensures entry.Some? <==> ReadEntry(old(parcel.Rest())).Some?
    ensures entry.Some? ==> ReadEntry(old(parcel.Rest())) == Some((entry.value, parcel.Rest()))
  {
    ghost var before := parcel.Rest();
    var url := parcel.ReadString();
    if url.None? { return None; }
    var status := parcel.ReadInt32();
    if status.None? { return None; }
    var verifyTime := parcel.ReadString();
    if verifyTime.None? { return None; }
    var retryCnt := parcel.ReadInt32();
    if retryCnt.None? { return None; }
    var priority := parcel.ReadInt32();
    if priority.None? { return None; }
    assert parcel.Rest() == before[5..];
    entry := Some((url.value, VerifyStatus(status.value, retryCnt.value, verifyTime.value, priority.value)));
  }

  method ReadHostVerifyStatusMap(parcel: Parcel) returns (hosts: Option<HostVerifyStatusMap>)
    requires parcel.Valid()
    modifies parcel`cursor
    ensures parcel.Valid()
    ensures hosts.Some? <==> ReadHosts(old(parcel.Rest())).Some?
    ensures hosts.Some? ==> ReadHosts(old(parcel.Rest())) == Some((hosts.value, parcel.Rest()))
  {
    ghost var start := parcel.Rest();
    var size := parcel.ReadUint32();
    if size.None? {
      return None;
    }
    if size.value > MAX_PARCEL_ARRAY_SIZE {
      return None;
    }
    var read: HostVerifyStatusMap := map[];
    ghost var all := ReadHosts(start);
    for index := 0 to size.value
      invariant parcel.Valid()
      invariant all == ReadPairs(ReadEntry, parcel.Rest(), size.value - index, read)
    {
      NextPair(ReadEntry, parcel.Rest(), size.value - index, read);
      var entry := ReadHostEntry(parcel);
      if entry.None? {
        return None;
      }
      var (url, verifyStatus) := entry.value;
      if url !in read {
        read := read[url := verifyStatus];
      }
    }
    LastPair(ReadEntry, parcel.Rest(), read);
    hosts := Some(read);
  }

  lemma {:induction false} NextPair<T>(
    read: seq<Token> -> Read<(string, T)>, tokens: seq<Token>, count: nat, m: map<string, T>)
    requires count > 0
    ensures read(tokens).None? ==> ReadPairs(read, tokens, count, m).None?
    ensures read(tokens).Some? ==>
      var (pair, rest) := read(tokens).value;
      ReadPairs(read, tokens, count, m) == ReadPairs(read, rest, count - 1, Inserted(m, pair.0, pair.1))
  {
  }

  lemma {:induction false} LastPair<T>(read: seq<Token> -> Read<(string, T)>, tokens: seq<Token>, m: map<string, T>)
    ensures ReadPairs(read, tokens, 0, m) == Some((m, tokens))
  {
  }

  /** Unmarshalling of one result. */
  method UnmarshallingInfo(parcel: Parcel) returns (info: Option<VerifyResultInfo>)
    requires parcel.Valid()
    modifies parcel`cursor
    ensures parcel.Valid()
    ensures info.Some? <==> ReadInfo(old(parcel.Rest())).Some?
    ensures info.Some? ==> ReadInfo(old(parcel.Rest())) == Some((info.value, parcel.Rest()))
  {
    var appIdentifier := parcel.ReadString();
    if appIdentifier.None? {
      return None;
    }
    var hosts := ReadHostVerifyStatusMap(parcel);
    if hosts.None? {
      return None;
    }
    info := Some(VerifyResultInfo(appIdentifier.value, hosts.value));
  }

  method UnmarshallingBundle(parcel: Parcel) returns (b: Option<(string, VerifyResultInfo)>)
    requires parcel.Valid()
    modifies parcel`cursor
    ensures parcel.Valid()
    ensures b.Some? <==> ReadBundle(old(parcel.Rest())).Some?
    ensures b.Some? ==> ReadBundle(old(parcel.Rest())) == Some((b.value, parcel.Rest()))
  {
    var bundleName := parcel.ReadString();
    if bundleName.None? {
      return None;
    }
    var info := UnmarshallingInfo(parcel);
    if info.None? {
      return None;
    }
    b := Some((bundleName.value, info.value));
  }

  /** Unmarshalling of all bundles. */
  method UnmarshallingStatus(parcel: Parcel) returns (m: Option<BundleMap>)
    requires parcel.Valid()
    modifies parcel`cursor
    ensures parcel.Valid()
    ensures m.Some? <==> ReadStatus(old(parcel.Rest())).Some?
    ensures m.Some? ==> ReadStatus(old(parcel.Rest())) == Some((m.value, parcel.Rest()))
  {
    ghost var start := parcel.Rest();
    var size := parcel.ReadUint32();
    if size.None? {
      return None;
    }
    var read: BundleMap := map[];
    ghost var all := ReadStatus(start);
    for index := 0 to size.value
      invariant parcel.Valid()
      invariant all == ReadPairs(ReadBundle, parcel.Rest(), size.value - index, read)
    {
      var b := UnmarshallingBundle(parcel);
      if b.None? {
        return None;
      }
      if b.value.0 !in read {
        read := read[b.value.0 := b.value.1];
      }
    }
    m := Some(read);
  }

  // ---------- round trips ----------

  lemma {:induction false} CoversSize<T>(pieces: seq<Piece<T>>, m: map<string, T>)
    requires Covers(pieces, m)
    ensures |pieces| == |m|
    ensures forall p :: p in pieces ==> p.key in m && m[p.key] == p.value
  {
    if pieces != [] {
      var p := pieces[|pieces| - 1];
      CoversSize(pieces[..|pieces| - 1], m - {p.key});
      assert m.Keys == (m - {p.key}).Keys + {p.key};
      assert pieces == pieces[..|pieces| - 1] + [p];
    }
  }

  /** The reader gets the piece back and stops at its end. */
  ghost predicate ReadsBack<T>(read: seq<Token> -> Read<(string, T)>, p: Piece<T>) {
    forall rest :: read(p.tokens + rest) == Some(((p.key, p.value), rest))
  }

  /** Reading continues after the pieces that were written. */
  lemma {:induction false} ReadBackPairs<T>(
    read: seq<Token> -> Read<(string, T)>, pieces: seq<Piece<T>>, m: map<string, T>, rest: seq<Token>, more: nat)
    requires Covers(pieces, m) && forall p :: p in pieces ==> ReadsBack(read, p)
    ensures ReadPairs(read, Joined(pieces) + rest, |pieces| + more, map[]) == ReadPairs(read, rest, more, m)
  {
    if pieces == [] {
      assert Joined(pieces) + rest == rest;
    } else {
      var n := |pieces| - 1;
      var p := pieces[n];
      assert Joined(pieces) + rest == Joined(pieces[..n]) + (p.tokens + rest);
      ReadBackPairs(read, pieces[..n], m - {p.key}, p.tokens + rest, more + 1);
      assert ReadsBack(read, p);
      assert Inserted(m - {p.key}, p.key, p.value) == m;
    }
  }

  lemma {:induction false} EntryReadsBack(p: Piece<VerifyStatus>)
    requires p.tokens == EntryTokens(p.key, p.value)
    ensures ReadsBack(ReadEntry, p)
  {
    forall rest ensures ReadEntry(p.tokens + rest) == Some(((p.key, p.value), rest)) {
      assert (p.tokens + rest)[5..] == rest;
    }
  }

  lemma {:induction false} FitsUint32(n: nat)
    requires n < UINT32_RANGE
    ensures n % UINT32_RANGE == n
  {
  }

  lemma {:induction false} ReadBackInfo(tokens: seq<Token>, info: VerifyResultInfo, rest: seq<Token>)
    requires WritesInfo(tokens, info) && |info.hostVerifyStatusMap| <= 99
    ensures ReadInfo(tokens + rest) == Some((info, rest))
  {
    var hosts := info.hostVerifyStatusMap;
    var pieces :| WritesHosts(pieces, hosts) && tokens == InfoTokens(info, pieces);
    FitsUint32(|hosts|);
    ReadBackHosts(pieces, hosts, rest);
    assert (tokens + rest)[1..] == [U32(|hosts|)] + Joined(pieces) + rest;
  }

  lemma {:induction false} ReadBackHosts(
    pieces: seq<Piece<VerifyStatus>>, hosts: HostVerifyStatusMap, rest: seq<Token>)
    requires WritesHosts(pieces, hosts) && |hosts| <= 99
    ensures ReadHosts([U32(|hosts|)] + Joined(pieces) + rest) == Some((hosts, rest))
  {
    forall p | p in pieces ensures ReadsBack(ReadEntry, p) { EntryReadsBack(p); }
    CoversSize(pieces, hosts);
    ReadBackPairs(ReadEntry, pieces, hosts, rest, 0);
    assert ([U32(|hosts|)] + Joined(pieces) + rest)[1..] == Joined(pieces) + rest;
  }

  /** No more pairs come out than were counted. */
  lemma {:induction false} PairsAtMost<T>(
    read: seq<Token> -> Read<(string, T)>, tokens: seq<Token>, count: nat, m: map<string, T>)
    requires ReadPairs(read, tokens, count, m).Some?
    ensures |ReadPairs(read, tokens, count, m).value.0| <= |m| + count
    decreases count
  {
    if count > 0 {
      var (pair, rest) := read(tokens).value;
      PairsAtMost(read, rest, count - 1, Inserted(m, pair.0, pair.1));
    }
  }

  lemma {:induction false} ReadInfoIsSmall(tokens: seq<Token>)
    requires ReadInfo(tokens).Some?
    ensures |ReadInfo(tokens).value.0.hostVerifyStatusMap| <= 99
  {
    PairsAtMost(ReadEntry, tokens[1..][1..], tokens[1].n, map[]);
  }

  /** A result survives the parcel, and the reader stops exactly at its end, for
      every order its hosts are written in, precisely when it has at most 99. */
  lemma {:induction false} InfoRoundTrip(tokens: seq<Token>, info: VerifyResultInfo, rest: seq<Token>)
    requires WritesInfo(tokens, info)
    ensures ReadInfo(tokens + rest) == Some((info, rest)) <==> |info.hostVerifyStatusMap| <= 99
  {
    if |info.hostVerifyStatusMap| <= 99 {
      ReadBackInfo(tokens, info, rest);
    } else if ReadInfo(tokens + rest).Some? {
      ReadInfoIsSmall(tokens + rest);
    }
  }

  lemma {:induction false} BundleReadsBack(p: Piece<VerifyResultInfo>)
    requires WritesBundle(p) && |p.value.hostVerifyStatusMap| <= 99
    ensures ReadsBack(ReadBundle, p)
  {
    forall rest ensures ReadBundle(p.tokens + rest) == Some(((p.key, p.value), rest)) {
      assert (p.tokens + rest)[1..] == p.tokens[1..] + rest;
      ReadBackInfo(p.tokens[1..], p.value, rest);
    }
  }

  lemma {:induction false} ReadBackStatus(tokens: seq<Token>, m: BundleMap, rest: seq<Token>)
    requires WritesStatus(tokens, m)
    requires |m| < UINT32_RANGE && forall b :: b in m ==> |m[b].hostVerifyStatusMap| <= 99
    ensures ReadStatus(tokens + rest) == Some((m, rest))
  {
    var pieces :| WritesBundles(pieces, m) && tokens == StatusTokens(m, pieces);
    ReadBackBundles(pieces, m, rest);
    FitsUint32(|m|);
    assert (tokens + rest)[1..] == Joined(pieces) + rest;
  }

  lemma {:induction false} ReadBackBundles(pieces: seq<Piece<VerifyResultInfo>>, m: BundleMap, rest: seq<Token>)
    requires WritesBundles(pieces, m) && forall b :: b in m ==> |m[b].hostVerifyStatusMap| <= 99
    ensures ReadPairs(ReadBundle, Joined(pieces) + rest, |m|, map[]) == Some((m, rest))
  {
    CoversSize(pieces, m);
    forall p | p in pieces ensures ReadsBack(ReadBundle, p) { BundleReadsBack(p); }
    ReadBackPairs(ReadBundle, pieces, m, rest, 0);
  }

  /** What a reader returns has at most 99 hosts a bundle. */
  lemma {:induction false} ReadBundlesAreSmall(tokens: seq<Token>, count: nat, m: BundleMap)
    requires ReadPairs(ReadBundle, tokens, count, m).Some?
    requires forall b :: b in m ==> |m[b].hostVerifyStatusMap| <= 99
    ensures
      var read := ReadPairs(ReadBundle, tokens, count, m).value.0;
      forall b :: b in read ==> |read[b].hostVerifyStatusMap| <= 99
    decreases count
  {
    if count > 0 {
      ReadInfoIsSmall(tokens[1..]);
      var (b, rest) := ReadBundle(tokens).value;
      ReadBundlesAreSmall(rest, count - 1, Inserted(m, b.0, b.1));
    }
  }

  /** All bundles survive the parcel, for every order they and their hosts are
      written in, precisely when each has at most 99 hosts and their number fits
      the 32 bits it is sent in. */
  lemma {:induction false} StatusRoundTrip(tokens: seq<Token>, m: BundleMap, rest: seq<Token>)
    requires WritesStatus(tokens, m)
    ensures ReadStatus(tokens + rest) == Some((m, rest)) <==>
      |m| < UINT32_RANGE && forall b :: b in m ==> |m[b].hostVerifyStatusMap| <= 99
  {
    if |m| < UINT32_RANGE && forall b :: b in m ==> |m[b].hostVerifyStatusMap| <= 99 {
      ReadBackStatus(tokens, m, rest);
    } else if ReadStatus(tokens + rest).Some? {
      var all := tokens + rest;
      ReadBundlesAreSmall(all[1..], all[0].n, map[]);
      PairsAtMost(ReadBundle, all[1..], all[0].n, map[]);
    }
  }

  // ---------- the format ----------

  /** A result of one host, token by token. */
  lemma {:induction false} OneHostFormat(tokens: seq<Token>, id: string, h: string, e: VerifyStatus)
    requires WritesInfo(tokens, VerifyResultInfo(id, map[h := e]))
    ensures tokens == [Str(id), U32(1), Str(h), I32(e.status), Str(e.verifyTime), I32(e.retryCnt), I32(e.priority)]
  {
    var hosts: HostVerifyStatusMap := map[h := e];
    var info := VerifyResultInfo(id, hosts);
    var pieces: seq<Piece<VerifyStatus>> :| WritesHosts(pieces, hosts) && tokens == InfoTokens(info, pieces);
    CoversSize(pieces, hosts);
    assert |hosts| == 1 && |pieces| == 1;
    var p: Piece<VerifyStatus> := pieces[0];
    assert p in pieces && pieces[..0] == [];
    assert p.key == h && p.value == e;
    FitsUint32(1);
    assert Joined(pieces) == p.tokens;
  }

  /** All bundles: their number, then each name with its result. */
  lemma {:induction false} OneBundleFormat(tokens: seq<Token>, b: string, info: VerifyResultInfo)
    requires WritesStatus(tokens, map[b := info])
    ensures |tokens| >= 2 && tokens[0] == U32(1) && tokens[1] == Str(b) && WritesInfo(tokens[2..], info)
  {
    var m: BundleMap := map[b := info];
    var pieces: seq<Piece<VerifyResultInfo>> :| WritesBundles(pieces, m) && tokens == StatusTokens(m, pieces);
    CoversSize(pieces, m);
    assert |m| == 1 && |pieces| == 1;
    var p: Piece<VerifyResultInfo> := pieces[0];
    assert p in pieces && pieces[..0] == [];
    assert p.key == b && p.value == info;
    FitsUint32(1);
    assert Joined(pieces) == p.tokens;
    assert tokens[2..] == p.tokens[1..];
  }

  /** The five tokens of a host stand at position `i`. */
  predicate EntryAt(tokens: seq<Token>, i: nat) {
    && i + 5 <= |tokens|
    && tokens[i].Str? && tokens[i + 1].I32? && tokens[i + 2].Str? && tokens[i + 3].I32? && tokens[i + 4].I32?
  }

  /** The record they hold. */
  function RecordAt(tokens: seq<Token>, i: nat): VerifyStatus
    requires EntryAt(tokens, i)
  {
    VerifyStatus(tokens[i + 1].i, tokens[i + 3].i, tokens[i + 2].s, tokens[i + 4].i)
  }

  /** One of the first `count` entries is of the host. */
  ghost predicate Mentions(tokens: seq<Token>, count: nat, h: string) {
    exists k: nat :: k < count && EntryAt(tokens, 5 * k) && tokens[5 * k].s == h
  }

  /** Entry `k` is the first of its host. */
  ghost predicate FirstMention(tokens: seq<Token>, k: nat) {
    && EntryAt(tokens, 5 * k)
    && forall j: nat :: j < k && EntryAt(tokens, 5 * j) ==> tokens[5 * j].s != tokens[5 * k].s
  }

  lemma {:induction false} ReadsWholeEntries(tokens: seq<Token>, count: nat, m: HostVerifyStatusMap)
    ensures ReadPairs(ReadEntry, tokens, count, m).Some? <==> forall k: nat :: k < count ==> EntryAt(tokens, 5 * k)
    ensures ReadPairs(ReadEntry, tokens, count, m).Some? ==>
      5 * count <= |tokens| && ReadPairs(ReadEntry, tokens, count, m).value.1 == tokens[5 * count..]
    decreases count
  {
    if count > 0 {
      assert ReadEntry(tokens).Some? <==> EntryAt(tokens, 5 * 0);
      if EntryAt(tokens, 0) {
        var rest := tokens[5..];
        forall k: nat ensures EntryAt(rest, 5 * k) <==> EntryAt(tokens, 5 * (k + 1)) {}
        ReadsWholeEntries(rest, count - 1, Inserted(m, tokens[0].s, RecordAt(tokens, 0)));
        assert forall k: nat :: k > 0 ==> EntryAt(tokens, 5 * k) == EntryAt(rest, 5 * (k - 1));
      }
    }
  }

  /** Of two entries of one host the first counts, and one that was there before. */
  lemma {:induction false} FirstEntryCounts(tokens: seq<Token>, count: nat, m: HostVerifyStatusMap, h: string)
    requires ReadPairs(ReadEntry, tokens, count, m).Some?
    ensures
      var r := ReadPairs(ReadEntry, tokens, count, m).value.0;
      && (h in r <==> h in m || Mentions(tokens, count, h))
      && (h in m ==> r[h] == m[h])
      && (h !in m ==> forall k: nat :: k < count && FirstMention(tokens, k) && tokens[5 * k].s == h ==>
           h in r && r[h] == RecordAt(tokens, 5 * k))
    decreases count
  {
    if count > 0 {
      var rest, more := tokens[5..], Inserted(m, tokens[0].s, RecordAt(tokens, 0));
      FirstEntryCounts(rest, count - 1, more, h);
      forall k: nat ensures EntryAt(rest, 5 * k) <==> EntryAt(tokens, 5 * (k + 1)) {}
      forall k: nat | EntryAt(rest, 5 * k) ensures rest[5 * k] == tokens[5 * (k + 1)] {}
      MentionsNext(tokens, rest, count, h);
      forall k: nat | h !in m && k < count && FirstMention(tokens, k) && tokens[5 * k].s == h
        ensures
          var r := ReadPairs(ReadEntry, tokens, count, m).value.0;
          h in r && r[h] == RecordAt(tokens, 5 * k)
      {
        if k > 0 {
          FirstMentionNext(tokens, rest, k);
          assert RecordAt(tokens, 5 * k) == RecordAt(rest, 5 * (k - 1));
          assert EntryAt(tokens, 5 * 0);
        }
      }
    }
  }

  lemma {:induction false} MentionsNext(tokens: seq<Token>, rest: seq<Token>, count: nat, h: string)
    requires count > 0 && EntryAt(tokens, 0) && rest == tokens[5..]
    ensures Mentions(tokens, count, h) <==> tokens[0].s == h || Mentions(rest, count - 1, h)
  {
    if Mentions(rest, count - 1, h) {
      var k: nat :| k < count - 1 && EntryAt(rest, 5 * k) && rest[5 * k].s == h;
      assert EntryAt(tokens, 5 * (k + 1)) && tokens[5 * (k + 1)].s == h;
    }
    if Mentions(tokens, count, h) {
      var k: nat :| k < count && EntryAt(tokens, 5 * k) && tokens[5 * k].s == h;
      if k > 0 { assert EntryAt(rest, 5 * (k - 1)) && rest[5 * (k - 1)].s == h; }
    }
    if tokens[0].s == h { assert EntryAt(tokens, 5 * 0); }
  }

  lemma {:induction false} FirstMentionNext(tokens: seq<Token>, rest: seq<Token>, k: nat)
    requires k > 0 && EntryAt(tokens, 0) && rest == tokens[5..] && FirstMention(tokens, k)
    ensures FirstMention(rest, k - 1) && rest[5 * (k - 1)].s == tokens[5 * k].s
  {
    forall j: nat | j < k - 1 && EntryAt(rest, 5 * j) ensures rest[5 * j].s != rest[5 * (k - 1)].s {
      assert EntryAt(tokens, 5 * (j + 1));
    }
  }

  /** The hosts are read if and only if there is a number of at most 99 and so many
      entries after it; what follows them is left, and of two entries of one host the
      first counts. */
  lemma {:induction false} ReadsHostsExactly(tokens: seq<Token>, h: string)
    ensures ReadHosts(tokens).Some? <==>
      && tokens != [] && tokens[0].U32? && tokens[0].n <= 99
      && forall k: nat :: k < tokens[0].n ==> EntryAt(tokens[1..], 5 * k)
    ensures ReadHosts(tokens).Some? ==>
      var (hosts, rest) := ReadHosts(tokens).value;
      && 1 + 5 * tokens[0].n <= |tokens| && rest == tokens[1 + 5 * tokens[0].n..]
      && (h in hosts <==> Mentions(tokens[1..], tokens[0].n, h))
      && forall k: nat :: k < tokens[0].n && FirstMention(tokens[1..], k) && tokens[1..][5 * k].s == h ==>
           h in hosts && hosts[h] == RecordAt(tokens[1..], 5 * k)
  {
    if tokens != [] && tokens[0].U32? && tokens[0].n <= 99 {
      ReadsWholeEntries(tokens[1..], tokens[0].n, map[]);
      if ReadHosts(tokens).Some? {
        FirstEntryCounts(tokens[1..], tokens[0].n, map[], h);
        assert tokens[1..][5 * tokens[0].n..] == tokens[1 + 5 * tokens[0].n..];
      }
    }
  }
}
