/** What the auth-data store guarantees, stated over the functions that
    specify its operations: key derivation, the set/get round trip, the frames
    of `set` and `delete`, the repair `getAll` performs, expiry, and when two
    instances over one server do and do not see each other. */
module RedisAplProperties {
  import opened Common
  import opened RedisBackend
  import opened RedisApl

  /** Keys are not normalised, and distinct URLs never share a key. */
  lemma KeyForInjective(prefix: string, u1: string, u2: string)
    requires KeyFor(prefix, u1) == KeyFor(prefix, u2)
    ensures u1 == u2
  {
    assert u1 == KeyFor(prefix, u1)[|prefix|..];
  }

  /** The only record key that is also the index key is that of the URL
      "index". */
  lemma RecordKeyIsIndexKeyIff(prefix: string, url: string)
    ensures KeyFor(prefix, url) == IndexKey(prefix) <==> url == "index"
  {
    if KeyFor(prefix, url) == IndexKey(prefix) {
      KeyForInjective(prefix, url, "index");
    }
  }

  /** After `set(a)`, `get(a.saleorApiUrl)` returns exactly `a` — unless a
      negative ttl made SETEX fail (see NegativeTtlStoresNothing). */
  lemma GetAfterSet(d: Keyspace, clock: int, prefix: string, ttl: Option<int>, a: AuthData, codec: Codec)
    requires RoundTrips(codec)
    requires !(TtlActive(ttl) && ttl.value < 0)
    ensures GetResult(SetEffect(d, clock, prefix, ttl, a, codec), KeyFor(prefix, a.saleorApiUrl), codec) == Success(Some(a))
  {
    var key := KeyFor(prefix, a.saleorApiUrl);
    var text := codec.stringify(a);
    var d1 := if TtlActive(ttl) then Applied(SetExCmd(d, clock, key, ttl.value, text), d) else SetCmd(d, key, text);
    assert d1[key].Str? && d1[key].s == text;
    var d2 := SetEffect(d, clock, prefix, ttl, a, codec);
    assert d2[key] == d1[key] by {
      if IndexKey(prefix) == key {
        assert SAddCmd(d1, IndexKey(prefix), a.saleorApiUrl).Err?;
      }
    }
  }

  /** A second `set` with the same URL replaces the record outright: `get`
      returns the new record and nothing of the old one. */
  lemma {:induction false} SetOverwrites(d: Keyspace, clock: int, prefix: string, ttl: Option<int>, a: AuthData, b: AuthData, codec: Codec)
    requires RoundTrips(codec)
    requires !(TtlActive(ttl) && ttl.value < 0)
    requires a.saleorApiUrl == b.saleorApiUrl
    ensures
      var d' := SetEffect(SetEffect(d, clock, prefix, ttl, a, codec), clock, prefix, ttl, b, codec);
      GetResult(d', KeyFor(prefix, a.saleorApiUrl), codec) == Success(Some(b))
  {
    GetAfterSet(SetEffect(d, clock, prefix, ttl, a, codec), clock, prefix, ttl, b, codec);
  }

  /** `set(a)` writes the record's key and adds the URL to the index (adding
      a member already there changes nothing); no other key changes. */
  lemma SetFrame(d: Keyspace, clock: int, prefix: string, ttl: Option<int>, a: AuthData, codec: Codec)
    requires IndexIsSet(d, IndexKey(prefix))
    requires a.saleorApiUrl != "index"
    requires !(TtlActive(ttl) && ttl.value < 0)
    ensures
      var d' := SetEffect(d, clock, prefix, ttl, a, codec);
      var key := KeyFor(prefix, a.saleorApiUrl);
      var idx := IndexKey(prefix);
      && IndexIsSet(d', idx)
      && IndexOf(d', idx) == IndexOf(d, idx) + {a.saleorApiUrl}
      && key in d'
      && (!TtlActive(ttl) ==> d'[key] == Str(codec.stringify(a), None))
      && (TtlActive(ttl) ==> d'[key] == Str(codec.stringify(a), Some(clock + ttl.value * 1000)))
      && (forall k :: k != key && k != idx ==> (k in d' <==> k in d) && (k in d ==> d'[k] == d[k]))
  {
    RecordKeyIsIndexKeyIff(prefix, a.saleorApiUrl);
  }

  /** A negative ttl is truthy, so `set` sends SETEX, which Redis refuses; the
      pipeline drops the error, so the record is not written while its URL is
      still added to the index. */
  lemma NegativeTtlStoresNothing(d: Keyspace, clock: int, prefix: string, t: int, a: AuthData, codec: Codec)
    requires t < 0
    requires IndexIsSet(d, IndexKey(prefix))
    requires a.saleorApiUrl != "index"
    ensures
      var d' := SetEffect(d, clock, prefix, Some(t), a, codec);
      var key := KeyFor(prefix, a.saleorApiUrl);
      && (key in d' <==> key in d) && (key in d ==> d'[key] == d[key])
      && a.saleorApiUrl in IndexOf(d', IndexKey(prefix))
  {
    RecordKeyIsIndexKeyIff(prefix, a.saleorApiUrl);
  }

  /** After `delete(u)`, `get(u)` finds nothing, whatever `u` is. */
  lemma GetAfterDelete(d: Keyspace, prefix: string, url: string, codec: Codec)
    ensures GetResult(DeleteEffect(d, prefix, url), KeyFor(prefix, url), codec) == Success(None)
  {
  }

  /** `delete(u)` removes the record's key and `u` from the index, and
      nothing else. */
  lemma DeleteFrame(d: Keyspace, prefix: string, url: string)
    requires IndexIsSet(d, IndexKey(prefix))
    requires url != "index"
    ensures
      var d' := DeleteEffect(d, prefix, url);
      var key := KeyFor(prefix, url);
      var idx := IndexKey(prefix);
      && key !in d'
      && IndexIsSet(d', idx)
      && IndexOf(d', idx) == IndexOf(d, idx) - {url}
      && (forall k :: k != key && k != idx ==> (k in d' <==> k in d) && (k in d ==> d'[k] == d[k]))
  {
    RecordKeyIsIndexKeyIff(prefix, url);
  }

  /** Deleting a URL that was never stored changes nothing (and, like every
      `delete`, raises no error). */
  lemma DeleteUnknownIsNoop(d: Keyspace, clock: int, prefix: string, url: string)
    requires WellFormed(d, clock)
    requires IndexIsSet(d, IndexKey(prefix))
    requires KeyFor(prefix, url) !in d && url !in IndexOf(d, IndexKey(prefix))
    ensures DeleteEffect(d, prefix, url) == d
  {
    var idx := IndexKey(prefix);
    if idx in d {
      assert d[idx].m - {url} == d[idx].m;
      assert d[idx := Members(d[idx].m)] == d;
    }
  }

  /** One repair step on the index: only a dropped member leaves it, and the
      index key keeps holding a set. */
  lemma RepairStepIndex(d: Keyspace, prefix: string, url: string, v: Verdict)
    requires IndexIsSet(d, IndexKey(prefix))
    requires v.Unparseable? ==> url != "index"
    ensures IndexIsSet(RepairStep(d, prefix, url, v), IndexKey(prefix))
    ensures IndexOf(RepairStep(d, prefix, url, v), IndexKey(prefix)) == IndexOf(d, IndexKey(prefix)) - (if v.Kept? then {} else {url})
  {
    RecordKeyIsIndexKeyIff(prefix, url);
  }

  /** After repairing a listing of distinct members, a listed member is still
      in the index exactly when it was and its value parsed; members not
      listed stay, and nothing joins. */
  lemma {:induction false} RepairedIndex(d: Keyspace, prefix: string, urls: seq<string>, vs: seq<Verdict>)
    requires |urls| == |vs| && Distinct(urls)
    requires IndexIsSet(d, IndexKey(prefix))
    requires forall i :: 0 <= i < |urls| && vs[i].Unparseable? ==> urls[i] != "index"
    ensures
      var d' := Repaired(d, prefix, urls, vs);
      var idx := IndexKey(prefix);
      && IndexIsSet(d', idx)
      && IndexOf(d', idx) <= IndexOf(d, idx)
      && (forall u :: u in IndexOf(d, idx) && u !in urls ==> u in IndexOf(d', idx))
      && (forall i :: 0 <= i < |urls| ==> (urls[i] in IndexOf(d', idx) <==> urls[i] in IndexOf(d, idx) && vs[i].Kept?))
    decreases |urls|
  {
    if urls != [] {
      var n := |urls| - 1;
      var idx := IndexKey(prefix);
      var before := Repaired(d, prefix, urls[..n], vs[..n]);
      RepairedIndex(d, prefix, urls[..n], vs[..n]);
      RepairStepIndex(before, prefix, urls[n], vs[n]);
      assert urls[n] !in urls[..n];
      forall u | u in IndexOf(d, idx) && u !in urls
        ensures u in IndexOf(Repaired(d, prefix, urls, vs), idx)
      {
        assert u !in urls[..n];
      }
      forall i | 0 <= i < |urls|
        ensures urls[i] in IndexOf(Repaired(d, prefix, urls, vs), idx) <==> urls[i] in IndexOf(d, idx) && vs[i].Kept?
      {
        if i < n {
          assert urls[..n][i] == urls[i] && vs[..n][i] == vs[i];
        }
      }
    }
  }

  /** One repair step on the other keys: only an unparseable member's key is
      deleted. */
  lemma RepairStepKeys(d: Keyspace, prefix: string, url: string, v: Verdict)
    requires IndexIsSet(d, IndexKey(prefix))
    requires v.Unparseable? ==> url != "index"
    ensures v.Unparseable? ==> KeyFor(prefix, url) !in RepairStep(d, prefix, url, v)
    ensures forall k :: k != IndexKey(prefix) && (v.Unparseable? ==> k != KeyFor(prefix, url)) ==>
      (k in RepairStep(d, prefix, url, v) <==> k in d) && (k in d ==> RepairStep(d, prefix, url, v)[k] == d[k])
  {
    RecordKeyIsIndexKeyIff(prefix, url);
  }

  /** After repairing, the key of every unparseable member is gone and every
      other key except the index key is as it was. */
  lemma {:induction false} RepairedKeys(d: Keyspace, prefix: string, urls: seq<string>, vs: seq<Verdict>)
    requires |urls| == |vs| && Distinct(urls)
    requires IndexIsSet(d, IndexKey(prefix))
    requires forall i :: 0 <= i < |urls| && vs[i].Unparseable? ==> urls[i] != "index"
    ensures
      var d' := Repaired(d, prefix, urls, vs);
      && (forall i :: 0 <= i < |urls| && vs[i].Unparseable? ==> KeyFor(prefix, urls[i]) !in d')
      && (forall k :: k != IndexKey(prefix) && (forall i :: 0 <= i < |urls| && vs[i].Unparseable? ==> k != KeyFor(prefix, urls[i])) ==>
            (k in d' <==> k in d) && (k in d ==> d'[k] == d[k]))
    decreases |urls|
  {
    if urls != [] {
      var n := |urls| - 1;
      var before := Repaired(d, prefix, urls[..n], vs[..n]);
      RepairedKeys(d, prefix, urls[..n], vs[..n]);
      RepairedIndex(d, prefix, urls[..n], vs[..n]);
      RepairStepKeys(before, prefix, urls[n], vs[n]);
      var d' := Repaired(d, prefix, urls, vs);
      forall i | 0 <= i < |urls| && vs[i].Unparseable?
        ensures KeyFor(prefix, urls[i]) !in d'
      {
        if i < n {
          assert urls[..n][i] == urls[i] && vs[..n][i] == vs[i];
          if KeyFor(prefix, urls[i]) == KeyFor(prefix, urls[n]) {
            KeyForInjective(prefix, urls[i], urls[n]);
          }
        }
      }
      forall k | k != IndexKey(prefix) && (forall i :: 0 <= i < |urls| && vs[i].Unparseable? ==> k != KeyFor(prefix, urls[i]))
        ensures (k in d' <==> k in d) && (k in d ==> d'[k] == d[k])
      {
        forall i | 0 <= i < n && vs[..n][i].Unparseable?
          ensures k != KeyFor(prefix, urls[..n][i])
        {
          assert urls[..n][i] == urls[i] && vs[..n][i] == vs[i];
        }
      }
    }
  }

  /** The records `getAll` returns are exactly those of the kept members. */
  lemma {:induction false} CollectedMembers(vs: seq<Verdict>)
    ensures forall a :: a in Collected(vs) <==> Kept(a) in vs
    decreases |vs|
  {
    if vs != [] {
      var n := |vs| - 1;
      CollectedMembers(vs[..n]);
      assert vs == vs[..n] + [vs[n]];
    }
  }

  /** When every member is kept, `getAll` returns one record per member. */
  lemma {:induction false} CollectedAllKept(vs: seq<Verdict>)
    requires forall i :: 0 <= i < |vs| ==> vs[i].Kept?
    ensures |Collected(vs)| == |vs|
    decreases |vs|
  {
    if vs != [] {
      CollectedAllKept(vs[..|vs| - 1]);
    }
  }

  /** What `getAll` leaves behind, for the listing SMEMBERS gave. The index
      then holds exactly the members whose value parsed; a member whose value
      does not parse loses its key too; a member with no value (or an empty
      one) only leaves the index; kept records still read back as returned;
      no other key changes. */
  lemma GetAllRepair(d: Keyspace, prefix: string, urls: seq<string>, codec: Codec)
    requires IndexIsSet(d, IndexKey(prefix))
    requires IsListing(urls, IndexOf(d, IndexKey(prefix)))
    ensures
      var vs := Verdicts(MGetCmd(d, KeysFor(prefix, urls)), codec);
      var d' := Repaired(d, prefix, urls, vs);
      var idx := IndexKey(prefix);
      && IndexIsSet(d', idx)
      && (forall u :: u in IndexOf(d', idx) ==> u in urls)
      && (forall i :: 0 <= i < |urls| ==> (urls[i] in IndexOf(d', idx) <==> vs[i].Kept?))
      && (forall i :: 0 <= i < |urls| && vs[i].Unparseable? ==> KeyFor(prefix, urls[i]) !in d')
      && (forall i :: 0 <= i < |urls| && vs[i].Kept? ==> GetResult(d', KeyFor(prefix, urls[i]), codec) == Success(Some(vs[i].a)))
      && (forall i :: 0 <= i < |urls| && vs[i].Missing? && urls[i] != "index" ==>
            var k := KeyFor(prefix, urls[i]); (k in d' <==> k in d) && (k in d ==> d'[k] == d[k]))
      && (forall k :: k != idx && (forall i :: 0 <= i < |urls| ==> k != KeyFor(prefix, urls[i])) ==>
            (k in d' <==> k in d) && (k in d ==> d'[k] == d[k]))
  {
    var vs := Verdicts(MGetCmd(d, KeysFor(prefix, urls)), codec);
    var d' := Repaired(d, prefix, urls, vs);
    var idx := IndexKey(prefix);
    forall i | 0 <= i < |urls| && !vs[i].Missing?
      ensures KeyFor(prefix, urls[i]) != idx && urls[i] != "index"
    {
      RecordKeyIsIndexKeyIff(prefix, urls[i]);
    }
    RepairedIndex(d, prefix, urls, vs);
    RepairedKeys(d, prefix, urls, vs);
    forall i | 0 <= i < |urls| && vs[i].Kept?
      ensures GetResult(d', KeyFor(prefix, urls[i]), codec) == Success(Some(vs[i].a))
    {
      var k := KeyFor(prefix, urls[i]);
      assert forall j :: 0 <= j < |urls| && vs[j].Unparseable? ==> k != KeyFor(prefix, urls[j]);
    }
    forall i | 0 <= i < |urls| && vs[i].Missing? && urls[i] != "index"
      ensures var k := KeyFor(prefix, urls[i]); (k in d' <==> k in d) && (k in d ==> d'[k] == d[k])
    {
      var k := KeyFor(prefix, urls[i]);
      RecordKeyIsIndexKeyIff(prefix, urls[i]);
      assert forall j :: 0 <= j < |urls| && vs[j].Unparseable? ==> k != KeyFor(prefix, urls[j]);
    }
  }

  /** With a truthy positive ttl the record is readable at once and gone once
      more than `t` seconds have passed. */
  lemma TtlRecordExpires(d: Keyspace, clock: int, prefix: string, t: int, a: AuthData, codec: Codec, later: int)
    requires RoundTrips(codec)
    requires t > 0 && later > clock + t * 1000
    ensures
      var d' := SetEffect(d, clock, prefix, Some(t), a, codec);
      var key := KeyFor(prefix, a.saleorApiUrl);
      && GetResult(d', key, codec) == Success(Some(a))
      && GetResult(Expire(d', later), key, codec) == Success(None)
  {
    GetAfterSet(d, clock, prefix, Some(t), a, codec);
    var key := KeyFor(prefix, a.saleorApiUrl);
    var d1 := d[key := Str(codec.stringify(a), Some(clock + t * 1000))];
    var d' := SetEffect(d, clock, prefix, Some(t), a, codec);
    assert d'[key] == d1[key] by {
      if IndexKey(prefix) == key {
        assert SAddCmd(d1, IndexKey(prefix), a.saleorApiUrl).Err?;
      }
    }
  }

  /** The record's expiry does not reach its index entry: the URL stays in
      the index until a `getAll` prunes it. */
  lemma IndexEntryOutlivesRecord(d: Keyspace, clock: int, prefix: string, t: int, a: AuthData, codec: Codec, later: int)
    requires t > 0
    requires IndexIsSet(d, IndexKey(prefix)) && a.saleorApiUrl != "index"
    ensures a.saleorApiUrl in IndexOf(Expire(SetEffect(d, clock, prefix, Some(t), a, codec), later), IndexKey(prefix))
  {
    SetFrame(d, clock, prefix, Some(t), a, codec);
  }

  /** With `ttl` absent or 0 the record never expires. */
  lemma NoTtlNeverExpires(d: Keyspace, clock: int, prefix: string, ttl: Option<int>, a: AuthData, codec: Codec, later: int)
    requires RoundTrips(codec)
    requires !TtlActive(ttl)
    ensures GetResult(Expire(SetEffect(d, clock, prefix, ttl, a, codec), later), KeyFor(prefix, a.saleorApiUrl), codec) == Success(Some(a))
  {
    GetAfterSet(d, clock, prefix, ttl, a, codec);
    var d' := SetEffect(d, clock, prefix, ttl, a, codec);
    var key := KeyFor(prefix, a.saleorApiUrl);
    var d1 := SetCmd(d, key, codec.stringify(a));
    assert d'[key] == d1[key] by {
      if IndexKey(prefix) == key {
        assert SAddCmd(d1, IndexKey(prefix), a.saleorApiUrl).Err?;
      }
    }
  }

  /** When neither prefix starts the other, no key of one instance starts
      with the other's prefix: their keys never meet. */
  lemma DisjointPrefixes(p1: string, p2: string, k: string)
    requires !StartsWith(p1, p2) && !StartsWith(p2, p1)
    requires StartsWith(k, p1)
    ensures !StartsWith(k, p2)
  {
  }

  /** `getAll`'s repair under `prefix` writes only keys that start with
      `prefix`: every other key is as it was, whatever the listing and the
      verdicts. */
  lemma {:induction false} RepairedOutsidePrefix(d: Keyspace, prefix: string, urls: seq<string>, vs: seq<Verdict>, k: string)
    requires |urls| == |vs|
    requires !StartsWith(k, prefix)
    ensures
      var d' := Repaired(d, prefix, urls, vs);
      (k in d' <==> k in d) && (k in d ==> d'[k] == d[k])
    decreases |urls|
  {
    if urls != [] {
      var n := |urls| - 1;
      RepairedOutsidePrefix(d, prefix, urls[..n], vs[..n], k);
      assert StartsWith(KeyFor(prefix, urls[n]), prefix);
      assert StartsWith(IndexKey(prefix), prefix);
    }
  }

  /** Two instances whose prefixes do not overlap are isolated: `set`,
      `delete` and the repair writes of `getAll` through one leave every key
      of the other as it was, so the other's `get` and `getAll` see the same
      data. */
  lemma {:induction false} OtherInstanceInvisible(d: Keyspace, clock: int, p1: string, p2: string, ttl: Option<int>, a: AuthData, url: string, urls: seq<string>, vs: seq<Verdict>, codec: Codec)
    requires !StartsWith(p1, p2) && !StartsWith(p2, p1)
    ensures forall k :: StartsWith(k, p1) ==>
      var d' := SetEffect(d, clock, p2, ttl, a, codec);
      (k in d' <==> k in d) && (k in d ==> d'[k] == d[k])
    ensures forall k :: StartsWith(k, p1) ==>
      var d' := DeleteEffect(d, p2, url);
      (k in d' <==> k in d) && (k in d ==> d'[k] == d[k])
    ensures forall k :: StartsWith(k, p1) && |urls| == |vs| ==>
      var d' := Repaired(d, p2, urls, vs);
      (k in d' <==> k in d) && (k in d ==> d'[k] == d[k])
  {
    forall k | StartsWith(k, p1)
      ensures k != KeyFor(p2, a.saleorApiUrl) && k != KeyFor(p2, url) && k != IndexKey(p2)
      ensures |urls| == |vs| ==>
        var d' := Repaired(d, p2, urls, vs);
        (k in d' <==> k in d) && (k in d ==> d'[k] == d[k])
    {
      DisjointPrefixes(p1, p2, k);
      if |urls| == |vs| {
        RepairedOutsidePrefix(d, p2, urls, vs, k);
      }
    }
  }

  /** The test suite's prefixes overlap: the ttl instance's record is the
      plain instance's record for the URL "ttl:" + url, and the ttl
      instance's index key is the plain instance's key for "ttl:index". */
  lemma TestPrefixesNotIsolated(d: Keyspace, clock: int, a: AuthData, codec: Codec)
    requires RoundTrips(codec)
    ensures
      var plain := "test:saleor:auth:";
      var withTtl := plain + "ttl:";
      && KeyFor(plain, "ttl:" + a.saleorApiUrl) == KeyFor(withTtl, a.saleorApiUrl)
      && KeyFor(plain, "ttl:index") == IndexKey(withTtl)
      && GetResult(SetEffect(d, clock, withTtl, Some(2), a, codec), KeyFor(plain, "ttl:" + a.saleorApiUrl), codec) == Success(Some(a))
  {
    var plain := "test:saleor:auth:";
    var withTtl := plain + "ttl:";
    assert KeyFor(plain, "ttl:" + a.saleorApiUrl) == KeyFor(withTtl, a.saleorApiUrl);
    GetAfterSet(d, clock, withTtl, Some(2), a, codec);
  }

  /** Storing a record for the URL "index" overwrites the index itself with
      the record's text; the SADD that follows fails and is dropped, every
      other member is lost, and `getAll` then fails with WRONGTYPE. */
  lemma IndexUrlClobbersIndex(d: Keyspace, clock: int, prefix: string, ttl: Option<int>, a: AuthData, codec: Codec)
    requires RoundTrips(codec)
    requires a.saleorApiUrl == "index"
    requires !(TtlActive(ttl) && ttl.value < 0)
    ensures
      var d' := SetEffect(d, clock, prefix, ttl, a, codec);
      && IndexOf(d', IndexKey(prefix)) == {}
      && SMembersCmd(d', IndexKey(prefix)) == Err(WrongType)
      && GetResult(d', KeyFor(prefix, "index"), codec) == Success(Some(a))
  {
    GetAfterSet(d, clock, prefix, ttl, a, codec);
  }
}
