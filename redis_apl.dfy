/** The Redis-backed store of app authentication records (`RedisAPL`).

    Each record lives under `keyPrefix + saleorApiUrl` as the record's JSON
    text; the set under `keyPrefix + "index"` names every URL written, so that
    `getAll` can list the records without scanning keys, and `getAll` repairs
    that index as it reads. JSON itself stays abstract: a `Codec` pairs a
    stringify and a parse function, and `RoundTrips` is all the model assumes
    of them. */
module RedisApl {
  import opened Common
  import opened RedisBackend

  /** The authentication record of one Saleor instance. */
  datatype AuthData = AuthData(
    saleorApiUrl: string,
    token: string,
    appId: string,
    domain: Option<string>,
    jwks: Option<string>)

  /** `JSON.stringify` and `JSON.parse` on records; `parse` gives `None` where
      `JSON.parse` throws. */
  datatype Codec = Codec(stringify: AuthData -> string, parse: string -> Option<AuthData>)

  /** Parsing what was stringified gives the record back, and the text of a
      record is never empty (it is at least `{}`). */
  ghost predicate RoundTrips(c: Codec) {
    forall a :: c.stringify(a) != "" && c.parse(c.stringify(a)) == Some(a)
  }

  /** The options the store is constructed with; `None` is an absent option. */
  datatype Config = Config(
    redisUrl: string,
    redisPassword: Option<string>,
    keyPrefix: Option<string>,
    ttl: Option<int>,
    tls: Option<bool>,
    tlsRejectUnauthorized: Option<bool>)

  const DefaultKeyPrefix: string := "saleor:auth:"

  /** `config.keyPrefix || "saleor:auth:"`: an absent or empty prefix falls
      back to the default, so the prefix in use is never empty. */
  function ResolveKeyPrefix(p: Option<string>): (r: string)
    ensures r != ""
    ensures p.Some? && p.value != "" ==> r == p.value
    ensures p.None? || p.value == "" ==> r == DefaultKeyPrefix
  {
    if p.Some? && p.value != "" then p.value else DefaultKeyPrefix
  }

  /** How the client connects: in the clear, or over TLS with or without
      certificate checking. */
  datatype Transport = Plain | Tls(rejectUnauthorized: bool)

  /** `config.tls ?? redisUrl.startsWith("rediss://")` decides TLS: an explicit
      `tls` wins either way, and only its absence consults the URL scheme;
      certificates are checked unless `tlsRejectUnauthorized` is `false`. */
  function ResolveTransport(c: Config): (t: Transport)
    ensures t.Tls? <==> c.tls == Some(true) || (c.tls.None? && StartsWith(c.redisUrl, "rediss://"))
    ensures t.Tls? ==> (t.rejectUnauthorized <==> c.tlsRejectUnauthorized != Some(false))
  {
    var useTls := if c.tls.Some? then c.tls.value else StartsWith(c.redisUrl, "rediss://");
    if useTls then Tls(if c.tlsRejectUnauthorized.Some? then c.tlsRejectUnauthorized.value else true)
    else Plain
  }

  /** The reconnection back-off handed to the client: `min(times * 50, 2000)`
      milliseconds before attempt `times`. */
  function RetryDelay(times: int): (ms: int)
    ensures ms <= 2000
    ensures times >= 0 ==> ms >= 0
    ensures ms == 2000 || ms == times * 50
    ensures ms <= times * 50
  {
    if times * 50 < 2000 then times * 50 else 2000
  }

  /** A later attempt never waits less than an earlier one. */
  lemma RetryDelayMonotone(a: int, b: int)
    requires a <= b
    ensures RetryDelay(a) <= RetryDelay(b)
  {
  }

  /** The connection states `isReady` accepts. */
  predicate ReadyStatus(status: string) {
    status == "ready" || status == "connect" || status == "connecting"
  }

  datatype ReadyResult = Ready | NotReady(error: string)

  /** `isReady`: a verdict for every connection status, never an exception;
      a status outside the three accepted ones is reported with its name. */
  function IsReady(status: string): (r: ReadyResult)
    ensures r.Ready? <==> status in {"ready", "connect", "connecting"}
    ensures r.NotReady? ==> r.error == "Redis client not ready, status: " + status
  {
    if ReadyStatus(status) then Ready
    else NotReady("Redis client not ready, status: " + status)
  }

  datatype ConfiguredResult = Configured | NotConfigured(error: string)

  /** `isConfigured`: the outcome of a PING, turned into a verdict; a failed
      PING is reported with its error and never thrown. */
  function IsConfigured(ping: Outcome<string>): (r: ConfiguredResult)
    ensures r.Configured? <==> ping.Pass?
    ensures r.NotConfigured? ==> r.error == ping.error
  {
    match ping
    case Pass => Configured
    case Fail(e) => NotConfigured(e)
  }

  /** What the store's operations throw: a backend error reply, or the
      exception of `JSON.parse` on a value that is not a record. */
  datatype AplError = Backend(e: Error) | ParseError

  datatype Result<+T> = Success(value: T) | Failure(error: AplError)

  /** `getKey`: the key of a record is the prefix followed by the URL, with no
      normalisation; the index key is the key of the URL "index". */
  function KeyFor(prefix: string, url: string): (k: string)
    ensures StartsWith(k, prefix) && k[|prefix|..] == url
  {
    prefix + url
  }

  function IndexKey(prefix: string): (k: string)
    ensures k == KeyFor(prefix, "index")
  {
    prefix + "index"
  }

  function KeysFor(prefix: string, urls: seq<string>): (keys: seq<string>)
    ensures |keys| == |urls|
    ensures forall i :: 0 <= i < |urls| ==> keys[i] == KeyFor(prefix, urls[i])
  {
    seq(|urls|, i requires 0 <= i < |urls| => KeyFor(prefix, urls[i]))
  }

  /** The members of the index: what SMEMBERS reports, with a missing index
      an empty one and a key holding a string read as empty too. */
  function IndexOf(d: Keyspace, idx: string): (s: set<string>)
    ensures SMembersCmd(d, idx).Ok? ==> s == SMembersCmd(d, idx).value
    ensures SMembersCmd(d, idx).Err? ==> s == {}
  {
    if idx in d && d[idx].Members? then d[idx].m else {}
  }

  /** The index key holds a set or nothing, as it does unless a record was
      stored under the URL "index". */
  predicate IndexIsSet(d: Keyspace, idx: string) {
    !(idx in d && d[idx].Str?)
  }

  /** `ttl` is truthy: present and not zero. */
  predicate TtlActive(ttl: Option<int>) {
    ttl.Some? && ttl.value != 0
  }

  /** What `get` returns for the value under `key`: nothing for an absent key
      or an empty string, the parsed record otherwise, and an exception when
      the key holds a set or the text does not parse. */
  function GetResult(d: Keyspace, key: string, codec: Codec): (r: Result<Option<AuthData>>)
    ensures r == Success(None) <==> StrAt(d, key) in {None, Some("")} && GetCmd(d, key).Ok?
    ensures r.Failure? <==>
      GetCmd(d, key).Err? || (StrAt(d, key).Some? && StrAt(d, key).value != "" && codec.parse(StrAt(d, key).value).None?)
    ensures r.Success? && r.value.Some? ==> StrAt(d, key).Some? && codec.parse(StrAt(d, key).value) == r.value
  {
    match GetCmd(d, key)
    case Err(e) => Failure(Backend(e))
    case Ok(None) => Success(None)
    case Ok(Some(s)) =>
      if s == "" then Success(None)
      else match codec.parse(s)
        case None => Failure(ParseError)
        case Some(a) => Success(Some(a))
  }

  /** `set`: a pipeline of SET (or SETEX when `ttl` is truthy) and SADD to the
      index. The two commands run in order and an error of either is dropped
      with the pipeline's result: nothing makes them atomic. */
  function SetEffect(d: Keyspace, clock: int, prefix: string, ttl: Option<int>, a: AuthData, codec: Codec): Keyspace {
    var key := KeyFor(prefix, a.saleorApiUrl);
    var text := codec.stringify(a);
    var d1 := if TtlActive(ttl) then Applied(SetExCmd(d, clock, key, ttl.value, text), d) else SetCmd(d, key, text);
    Applied(SAddCmd(d1, IndexKey(prefix), a.saleorApiUrl), d1)
  }

  /** `delete`: a pipeline of DEL on the record's key and SREM from the index,
      both always run, errors dropped. */
  function DeleteEffect(d: Keyspace, prefix: string, url: string): Keyspace {
    var d1 := DelCmd(d, KeyFor(prefix, url));
    Applied(SRemCmd(d1, IndexKey(prefix), url), d1)
  }

  /** How `getAll` treats the value MGET returned for one index member. */
  datatype Verdict = Kept(a: AuthData) | Unparseable | Missing

  function Classify(v: Option<string>, codec: Codec): (r: Verdict)
    ensures r == Missing <==> v in {None, Some("")}
    ensures r.Kept? <==> v.Some? && v.value != "" && codec.parse(v.value).Some?
    ensures r.Kept? ==> codec.parse(v.value) == Some(r.a)
  {
    if v.None? || v.value == "" then Missing
    else match codec.parse(v.value)
      case Some(a) => Kept(a)
      case None => Unparseable
  }

  function Verdicts(vals: seq<Option<string>>, codec: Codec): (vs: seq<Verdict>)
    ensures |vs| == |vals|
    ensures forall i :: 0 <= i < |vals| ==> vs[i] == Classify(vals[i], codec)
  {
    seq(|vals|, i requires 0 <= i < |vals| => Classify(vals[i], codec))
  }

  /** The records `getAll` returns: those of the kept members, in index order. */
  function Collected(vs: seq<Verdict>): seq<AuthData>
    decreases |vs|
  {
    if vs == [] then []
    else Collected(vs[..|vs| - 1]) + (if vs[|vs| - 1].Kept? then [vs[|vs| - 1].a] else [])
  }

  /** One step of `getAll`'s repair: a kept member is left alone, an
      unparseable one is deleted (record and index entry), a missing one is
      only removed from the index. */
  function RepairStep(d: Keyspace, prefix: string, url: string, v: Verdict): Keyspace {
    match v
    case Kept(_) => d
    case Unparseable => DeleteEffect(d, prefix, url)
    case Missing => Applied(SRemCmd(d, IndexKey(prefix), url), d)
  }

  /** The keyspace after `getAll` has repaired the first `|urls|` members. */
  function Repaired(d: Keyspace, prefix: string, urls: seq<string>, vs: seq<Verdict>): Keyspace
    requires |urls| == |vs|
    decreases |urls|
  {
    if urls == [] then d
    else RepairStep(Repaired(d, prefix, urls[..|urls| - 1], vs[..|urls| - 1]), prefix, urls[|urls| - 1], vs[|urls| - 1])
  }

  /** `urls` lists the set `s`, each member once. */
  ghost predicate IsListing(urls: seq<string>, s: set<string>) {
    Distinct(urls) && forall x :: x in urls <==> x in s
  }

  /** One store instance over a shared Redis server. */
  class RedisAPL {
    const client: Redis
    const keyPrefix: string
    const ttl: Option<int>
    const indexKey: string
    const transport: Transport
    const codec: Codec

    ghost predicate Valid()
      reads this, client
    {
      client.Valid() && keyPrefix != "" && indexKey == IndexKey(keyPrefix)
    }

    /** The configuration is resolved once: prefix, index key, ttl and
        transport never change afterwards. */
    constructor (config: Config, client: Redis, codec: Codec)
      requires client.Valid()
      ensures Valid()
      ensures this.client == client && this.codec == codec
      ensures keyPrefix == ResolveKeyPrefix(config.keyPrefix) && indexKey == keyPrefix + "index"
      ensures ttl == config.ttl && transport == ResolveTransport(config)
    {
      this.client := client;
      this.codec := codec;
      keyPrefix := ResolveKeyPrefix(config.keyPrefix);
      indexKey := ResolveKeyPrefix(config.keyPrefix) + "index";
      ttl := config.ttl;
      transport := ResolveTransport(config);
    }

    method Get(saleorApiUrl: string) returns (r: Result<Option<AuthData>>)
      requires Valid()
      ensures r == GetResult(client.data, KeyFor(keyPrefix, saleorApiUrl), codec)
    {
      var key := KeyFor(keyPrefix, saleorApiUrl);
      var reply := GetCmd(client.data, key);
      match reply {
        case Err(e) =>
          r := Failure(Backend(e));
        case Ok(data) =>
          if data.None? || data.value == "" {
            r := Success(None);
          } else {
            match codec.parse(data.value) {
              case None => r := Failure(ParseError);
              case Some(a) => r := Success(Some(a));
            }
          }
      }
    }

    method Set(authData: AuthData)
      requires Valid()
      modifies client
      ensures Valid() && client.clock == old(client.clock)
      ensures client.data == SetEffect(old(client.data), client.clock, keyPrefix, ttl, authData, codec)
    {
      var key := KeyFor(keyPrefix, authData.saleorApiUrl);
      var value := codec.stringify(authData);
      if TtlActive(ttl) {
        var _ := client.SetEx(key, ttl.value, value);
      } else {
        client.Set(key, value);
      }
      var _ := client.SAdd(indexKey, authData.saleorApiUrl);
    }

    /** Never fails: both commands' errors are dropped with the pipeline. */
    method Delete(saleorApiUrl: string)
      requires Valid()
      modifies client
      ensures Valid() && client.clock == old(client.clock)
      ensures client.data == DeleteEffect(old(client.data), keyPrefix, saleorApiUrl)
    {
      client.Del(KeyFor(keyPrefix, saleorApiUrl));
      var _ := client.SRem(indexKey, saleorApiUrl);
    }

    /** One turn of `getAll`'s loop, for the index member `url` whose MGET
        value is `data`: a parsed record is handed back and nothing changes;
        an unparseable value is deleted through `delete`; a missing one is
        removed from the index with a direct SREM. */
    method RepairMember(url: string, data: Option<string>) returns (kept: Option<AuthData>)
      requires Valid() && IndexIsSet(client.data, indexKey)
      modifies client
      ensures Valid() && client.clock == old(client.clock)
      ensures IndexIsSet(client.data, indexKey)
      ensures kept.Some? <==> Classify(data, codec).Kept?
      ensures kept.Some? ==> kept.value == Classify(data, codec).a
      ensures client.data == RepairStep(old(client.data), keyPrefix, url, Classify(data, codec))
    {
      kept := None;
      if data.Some? && data.value != "" {
        match codec.parse(data.value) {
          case Some(a) =>
            kept := Some(a);
          case None =>
            Delete(url);
        }
      } else {
        // A direct SREM, whose error would be thrown; the index key holds
        // no string here, so it cannot fail.
        var removed := client.SRem(indexKey, url);
        assert removed.Pass?;
      }
    }

    /** `getAll`: SMEMBERS on the index, MGET of the members' keys, then one
        repair step per member in the order SMEMBERS gave (`urls`). The only
        error is SMEMBERS finding a string under the index key. */
    method GetAll() returns (r: Result<seq<AuthData>>, ghost urls: seq<string>)
      requires Valid()
      modifies client
      ensures Valid() && client.clock == old(client.clock)
      ensures r.Failure? <==> SMembersCmd(old(client.data), indexKey).Err?
      ensures r.Failure? ==> r.error == Backend(WrongType) && client.data == old(client.data)
      ensures r.Success? ==> IsListing(urls, IndexOf(old(client.data), indexKey))
      ensures r.Success? ==>
        var vs := Verdicts(MGetCmd(old(client.data), KeysFor(keyPrefix, urls)), codec);
        r.value == Collected(vs) && client.data == Repaired(old(client.data), keyPrefix, urls, vs)
      ensures IndexOf(old(client.data), indexKey) == {} && IndexIsSet(old(client.data), indexKey) ==>
        r == Success([]) && client.data == old(client.data)
    {
      ghost var d0 := client.data;
      var members := client.SMembers(indexKey);
      if members.Err? {
        return Failure(Backend(members.error)), [];
      }
      urls := members.value;
      if |members.value| == 0 {
        return Success([]), urls;
      }
      var saleorApiUrls := members.value;
      assert saleorApiUrls[0] in SMembersCmd(d0, indexKey).value;
      var results := MGetCmd(client.data, KeysFor(keyPrefix, saleorApiUrls));
      ghost var vs := Verdicts(results, codec);
      var authDataList: seq<AuthData> := [];
      var i := 0;
      while i < |results|
        invariant 0 <= i <= |results| == |saleorApiUrls|
        invariant Valid() && client.clock == old(client.clock)
        invariant IndexIsSet(client.data, indexKey)
        invariant authDataList == Collected(vs[..i])
        invariant client.data == Repaired(d0, keyPrefix, saleorApiUrls[..i], vs[..i])
      {
        var kept := RepairMember(saleorApiUrls[i], results[i]);
        if kept.Some? {
          authDataList := authDataList + [kept.value];
        }
        assert vs[..i + 1][..i] == vs[..i];
        assert saleorApiUrls[..i + 1][..i] == saleorApiUrls[..i];
        i := i + 1;
      }
      assert vs[..i] == vs;
      assert saleorApiUrls[..i] == saleorApiUrls;
      r := Success(authDataList);
    }
  }
}
