/** The store's test cases as client programs over a fresh server: each
    method runs the calls a test makes and its postcondition is what the test
    expects, proved from the operations' contracts. */
module RedisAplScenarios {
  import opened Common
  import opened RedisBackend
  import opened RedisApl
  import opened RedisAplProperties

  const TestKeyPrefix: string := "test:saleor:auth:"

  function TestConfig(prefix: string, ttl: Option<int>): Config {
    Config("redis://localhost:6379", None, Some(prefix), ttl, None, None)
  }

  /** A record stored is read back unchanged. */
  method StoreAndRetrieve(codec: Codec, a: AuthData) returns (got: Result<Option<AuthData>>)
    requires RoundTrips(codec)
    ensures got == Success(Some(a))
  {
    var redis := new Redis(0);
    var apl := new RedisAPL(TestConfig(TestKeyPrefix, None), redis, codec);
    apl.Set(a);
    got := apl.Get(a.saleorApiUrl);
    GetAfterSet(map[], 0, TestKeyPrefix, None, a, codec);
  }

  /** Reading a URL never stored gives nothing, not an error. */
  method GetUnknown(codec: Codec, url: string) returns (got: Result<Option<AuthData>>)
    ensures got == Success(None)
  {
    var redis := new Redis(0);
    var apl := new RedisAPL(TestConfig(TestKeyPrefix, None), redis, codec);
    got := apl.Get(url);
  }

  /** Storing a second record under the same URL replaces the first. */
  method OverwriteReplaces(codec: Codec, a: AuthData, b: AuthData) returns (got: Result<Option<AuthData>>)
    requires RoundTrips(codec)
    requires a.saleorApiUrl == b.saleorApiUrl
    ensures got == Success(Some(b))
  {
    var redis := new Redis(0);
    var apl := new RedisAPL(TestConfig(TestKeyPrefix, None), redis, codec);
    apl.Set(a);
    apl.Set(b);
    got := apl.Get(a.saleorApiUrl);
    SetOverwrites(map[], 0, TestKeyPrefix, None, a, b, codec);
  }

  /** A stored record is readable until it is deleted, and gone after. */
  method DeleteThenGet(codec: Codec, a: AuthData) returns (before: Result<Option<AuthData>>, after: Result<Option<AuthData>>)
    requires RoundTrips(codec)
    ensures before == Success(Some(a)) && after == Success(None)
  {
    var redis := new Redis(0);
    var apl := new RedisAPL(TestConfig(TestKeyPrefix, None), redis, codec);
    apl.Set(a);
    before := apl.Get(a.saleorApiUrl);
    GetAfterSet(map[], 0, TestKeyPrefix, None, a, codec);
    ghost var d := redis.data;
    apl.Delete(a.saleorApiUrl);
    after := apl.Get(a.saleorApiUrl);
    GetAfterDelete(d, TestKeyPrefix, a.saleorApiUrl, codec);
  }

  /** Deleting a URL never stored completes and leaves the server empty. */
  method DeleteUnknown(codec: Codec, url: string) returns (keys: set<string>)
    ensures keys == {}
  {
    var redis := new Redis(0);
    var apl := new RedisAPL(TestConfig(TestKeyPrefix, None), redis, codec);
    apl.Delete(url);
    keys := redis.data.Keys;
  }

  /** Listing an empty store gives the empty list. */
  method GetAllEmpty(codec: Codec) returns (all: Result<seq<AuthData>>)
    ensures all == Success([])
  {
    var redis := new Redis(0);
    var apl := new RedisAPL(TestConfig(TestKeyPrefix, None), redis, codec);
    ghost var urls;
    all, urls := apl.GetAll();
  }

  /** A listing of distinct members is as long as the set it lists. */
  lemma {:induction false} ListingLength(urls: seq<string>, s: set<string>)
    requires IsListing(urls, s)
    ensures |urls| == |s|
    decreases |urls|
  {
    if urls != [] {
      var n := |urls| - 1;
      assert urls == urls[..n] + [urls[n]];
      assert IsListing(urls[..n], s - {urls[n]});
      ListingLength(urls[..n], s - {urls[n]});
    }
  }

  /** Three `set` calls with distinct URLs into an empty server leave the
      three URLs in the index and each record's text under its key. */
  lemma ThreeStored(p: string, a1: AuthData, a2: AuthData, a3: AuthData, codec: Codec)
    requires p != ""
    requires a1.saleorApiUrl != a2.saleorApiUrl && a1.saleorApiUrl != a3.saleorApiUrl && a2.saleorApiUrl != a3.saleorApiUrl
    requires "index" !in {a1.saleorApiUrl, a2.saleorApiUrl, a3.saleorApiUrl}
    ensures
      var d3 := SetEffect(SetEffect(SetEffect(map[], 0, p, None, a1, codec), 0, p, None, a2, codec), 0, p, None, a3, codec);
      && IndexIsSet(d3, IndexKey(p))
      && IndexOf(d3, IndexKey(p)) == {a1.saleorApiUrl, a2.saleorApiUrl, a3.saleorApiUrl}
      && StrAt(d3, KeyFor(p, a1.saleorApiUrl)) == Some(codec.stringify(a1))
      && StrAt(d3, KeyFor(p, a2.saleorApiUrl)) == Some(codec.stringify(a2))
      && StrAt(d3, KeyFor(p, a3.saleorApiUrl)) == Some(codec.stringify(a3))
  {
    var d1 := SetEffect(map[], 0, p, None, a1, codec);
    var d2 := SetEffect(d1, 0, p, None, a2, codec);
    SetFrame(map[], 0, p, None, a1, codec);
    SetFrame(d1, 0, p, None, a2, codec);
    SetFrame(d2, 0, p, None, a3, codec);
    var k1, k2, k3 := KeyFor(p, a1.saleorApiUrl), KeyFor(p, a2.saleorApiUrl), KeyFor(p, a3.saleorApiUrl);
    RecordKeyIsIndexKeyIff(p, a1.saleorApiUrl);
    RecordKeyIsIndexKeyIff(p, a2.saleorApiUrl);
    if k1 == k2 { KeyForInjective(p, a1.saleorApiUrl, a2.saleorApiUrl); }
    if k1 == k3 { KeyForInjective(p, a1.saleorApiUrl, a3.saleorApiUrl); }
    if k2 == k3 { KeyForInjective(p, a2.saleorApiUrl, a3.saleorApiUrl); }
  }

  /** `getAll` over such a server returns the three records, whatever order
      SMEMBERS gives. */
  lemma ListsThree(d: Keyspace, p: string, urls: seq<string>, a1: AuthData, a2: AuthData, a3: AuthData, codec: Codec)
    requires RoundTrips(codec)
    requires a1.saleorApiUrl != a2.saleorApiUrl && a1.saleorApiUrl != a3.saleorApiUrl && a2.saleorApiUrl != a3.saleorApiUrl
    requires IndexOf(d, IndexKey(p)) == {a1.saleorApiUrl, a2.saleorApiUrl, a3.saleorApiUrl}
    requires StrAt(d, KeyFor(p, a1.saleorApiUrl)) == Some(codec.stringify(a1))
    requires StrAt(d, KeyFor(p, a2.saleorApiUrl)) == Some(codec.stringify(a2))
    requires StrAt(d, KeyFor(p, a3.saleorApiUrl)) == Some(codec.stringify(a3))
    requires IsListing(urls, IndexOf(d, IndexKey(p)))
    ensures
      var all := Collected(Verdicts(MGetCmd(d, KeysFor(p, urls)), codec));
      |all| == 3 && a1 in all && a2 in all && a3 in all
  {
    var vs := Verdicts(MGetCmd(d, KeysFor(p, urls)), codec);
    forall i | 0 <= i < |urls|
      ensures vs[i].Kept?
    {
      assert urls[i] in IndexOf(d, IndexKey(p));
      if urls[i] == a1.saleorApiUrl {
        KeptAt(d, p, urls, i, a1, codec);
      } else if urls[i] == a2.saleorApiUrl {
        KeptAt(d, p, urls, i, a2, codec);
      } else {
        KeptAt(d, p, urls, i, a3, codec);
      }
    }
    ListingLength(urls, IndexOf(d, IndexKey(p)));
    CollectedAllKept(vs);
    CollectedMembers(vs);
    ListedIsKept(d, p, urls, a1, codec);
    ListedIsKept(d, p, urls, a2, codec);
    ListedIsKept(d, p, urls, a3, codec);
  }

  /** A listed member whose key holds a record's text is kept as that record. */
  lemma KeptAt(d: Keyspace, p: string, urls: seq<string>, i: int, a: AuthData, codec: Codec)
    requires RoundTrips(codec)
    requires 0 <= i < |urls|
    requires StrAt(d, KeyFor(p, urls[i])) == Some(codec.stringify(a))
    ensures Verdicts(MGetCmd(d, KeysFor(p, urls)), codec)[i] == Kept(a)
  {
  }

  /** A record whose URL is listed and whose key holds its text is among the
      kept verdicts. */
  lemma ListedIsKept(d: Keyspace, p: string, urls: seq<string>, a: AuthData, codec: Codec)
    requires RoundTrips(codec)
    requires a.saleorApiUrl in urls
    requires StrAt(d, KeyFor(p, a.saleorApiUrl)) == Some(codec.stringify(a))
    ensures Kept(a) in Verdicts(MGetCmd(d, KeysFor(p, urls)), codec)
  {
    var i :| 0 <= i < |urls| && urls[i] == a.saleorApiUrl;
    KeptAt(d, p, urls, i, a, codec);
  }

  /** Three records under distinct URLs are all listed, once each. */
  method GetAllThree(codec: Codec, a1: AuthData, a2: AuthData, a3: AuthData) returns (all: Result<seq<AuthData>>)
    requires RoundTrips(codec)
    requires a1.saleorApiUrl != a2.saleorApiUrl && a1.saleorApiUrl != a3.saleorApiUrl && a2.saleorApiUrl != a3.saleorApiUrl
    requires "index" !in {a1.saleorApiUrl, a2.saleorApiUrl, a3.saleorApiUrl}
    ensures all.Success? && |all.value| == 3
    ensures a1 in all.value && a2 in all.value && a3 in all.value
  {
    var redis := new Redis(0);
    var apl := new RedisAPL(TestConfig(TestKeyPrefix, None), redis, codec);
    apl.Set(a1);
    apl.Set(a2);
    apl.Set(a3);
    ThreeStored(TestKeyPrefix, a1, a2, a3, codec);
    ghost var d := redis.data;
    ghost var urls;
    all, urls := apl.GetAll();
    ListsThree(d, TestKeyPrefix, urls, a1, a2, a3, codec);
  }

  /** With a ttl of 2 seconds a record is readable at once and gone after
      2.5 seconds. */
  method TtlExpiry(codec: Codec, a: AuthData) returns (before: Result<Option<AuthData>>, after: Result<Option<AuthData>>)
    requires RoundTrips(codec)
    ensures before == Success(Some(a)) && after == Success(None)
  {
    var p := TestKeyPrefix + "ttl:";
    var redis := new Redis(0);
    var apl := new RedisAPL(TestConfig(p, Some(2)), redis, codec);
    apl.Set(a);
    before := apl.Get(a.saleorApiUrl);
    redis.Tick(2500);
    after := apl.Get(a.saleorApiUrl);
    TtlRecordExpires(map[], 0, p, 2, a, codec, 2500);
  }

  /** A custom prefix is used verbatim: the record lands under
      `"custom:prefix:" + url`. */
  method CustomPrefix(codec: Codec, a: AuthData) returns (got: Result<Option<AuthData>>, stored: bool)
    requires RoundTrips(codec)
    ensures got == Success(Some(a)) && stored
  {
    var redis := new Redis(0);
    var apl := new RedisAPL(TestConfig("custom:prefix:", None), redis, codec);
    apl.Set(a);
    got := apl.Get(a.saleorApiUrl);
    stored := "custom:prefix:" + a.saleorApiUrl in redis.data;
    GetAfterSet(map[], 0, "custom:prefix:", None, a, codec);
  }
}
