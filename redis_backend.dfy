/** The part of a Redis server that the auth-data store talks to: one keyspace
    in which a key holds either a string (optionally with an expiry time) or a
    set of strings, a clock in milliseconds, and the eight commands the store
    issues (GET, SET, SETEX, SADD, SREM, DEL, SMEMBERS, MGET).

    Each command is a function on the keyspace; the class `Redis` holds the
    keyspace and the clock and applies the writing commands in place. Keys
    expire eagerly: advancing the clock drops every key whose time has passed,
    which no client can tell apart from Redis's own lazy expiry. */
module RedisBackend {
  import opened Common

  /** What one key holds. `expiresAt` is an absolute time in milliseconds. */
  datatype Value = Str(s: string, expiresAt: Option<int>) | Members(m: set<string>)

  type Keyspace = map<string, Value>

  /** The two error replies the store can provoke: a command applied to a key
      of the other type, and SETEX with a non-positive number of seconds. */
  datatype Error = WrongType | InvalidExpireTime

  datatype Reply<+T> = Ok(value: T) | Err(error: Error)

  /** A key is visible at `clock` when it has not expired; Redis never keeps
      an empty set. */
  predicate Live(v: Value, clock: int) {
    match v
    case Str(_, e) => e.None? || clock <= e.value
    case Members(m) => m != {}
  }

  predicate WellFormed(d: Keyspace, clock: int) {
    forall k :: k in d ==> Live(d[k], clock)
  }

  /** The keyspace as seen at `clock`: the keys whose time has passed are gone
      and nothing else changes. */
  function Expire(d: Keyspace, clock: int): (r: Keyspace)
    ensures WellFormed(r, clock)
    ensures forall k :: k in r <==> k in d && Live(d[k], clock)
    ensures forall k :: k in r ==> r[k] == d[k]
  {
    map k | k in d && Live(d[k], clock) :: d[k]
  }

  /** GET: the string under `k`, nil when there is none, WRONGTYPE on a set. */
  function GetCmd(d: Keyspace, k: string): (r: Reply<Option<string>>)
    ensures r.Err? <==> k in d && d[k].Members?
    ensures r.Err? ==> r.error == WrongType
    ensures r == Ok(None) <==> k !in d
    ensures forall s :: r == Ok(Some(s)) <==> k in d && d[k].Str? && d[k].s == s
  {
    if k !in d then Ok(None)
    else match d[k]
      case Str(s, _) => Ok(Some(s))
      case Members(_) => Err(WrongType)
  }

  /** What MGET reports for one key: a key that holds no string reads as nil. */
  function StrAt(d: Keyspace, k: string): (r: Option<string>)
    ensures r.Some? <==> k in d && d[k].Str?
    ensures r.Some? ==> r.value == d[k].s
  {
    if k in d && d[k].Str? then Some(d[k].s) else None
  }

  /** MGET: one reply per key, in the order of the keys; it never fails. */
  function MGetCmd(d: Keyspace, keys: seq<string>): (r: seq<Option<string>>)
    ensures |r| == |keys|
    ensures forall i :: 0 <= i < |keys| ==> r[i] == StrAt(d, keys[i])
  {
    seq(|keys|, i requires 0 <= i < |keys| => StrAt(d, keys[i]))
  }

  /** SET: whatever the key held (of either type, with or without expiry) is
      replaced by a string that never expires. */
  function SetCmd(d: Keyspace, k: string, v: string): (r: Keyspace)
    ensures r.Keys == d.Keys + {k}
    ensures r[k] == Str(v, None)
    ensures forall k' :: k' in d && k' != k ==> r[k'] == d[k']
  {
    d[k := Str(v, None)]
  }

  /** SETEX: like SET with an expiry `seconds` from now; a non-positive number
      of seconds is an error and changes nothing. */
  function SetExCmd(d: Keyspace, clock: int, k: string, seconds: int, v: string): (r: Reply<Keyspace>)
    ensures r.Err? <==> seconds <= 0
    ensures r.Err? ==> r.error == InvalidExpireTime
    ensures r.Ok? ==> r.value == d[k := Str(v, Some(clock + seconds * 1000))]
  {
    if seconds <= 0 then Err(InvalidExpireTime)
    else Ok(d[k := Str(v, Some(clock + seconds * 1000))])
  }

  /** SADD of one member: creates the set when the key is absent, WRONGTYPE on
      a string. */
  function SAddCmd(d: Keyspace, k: string, m: string): (r: Reply<Keyspace>)
    ensures r.Err? <==> k in d && d[k].Str?
    ensures r.Err? ==> r.error == WrongType
    ensures r.Ok? ==> r.value.Keys == d.Keys + {k} && r.value[k].Members?
    ensures r.Ok? ==> r.value[k].m == (if k in d then d[k].m else {}) + {m}
    ensures r.Ok? ==> forall k' :: k' in d && k' != k ==> r.value[k'] == d[k']
  {
    if k !in d then Ok(d[k := Members({m})])
    else match d[k]
      case Members(s) => Ok(d[k := Members(s + {m})])
      case Str(_, _) => Err(WrongType)
  }

  /** SREM of one member: absent key or member is a no-op, a set left empty is
      deleted, WRONGTYPE on a string. */
  function SRemCmd(d: Keyspace, k: string, m: string): (r: Reply<Keyspace>)
    ensures r.Err? <==> k in d && d[k].Str?
    ensures r.Err? ==> r.error == WrongType
    ensures r.Ok? ==> forall k' :: k' != k ==> (k' in r.value <==> k' in d)
    ensures r.Ok? ==> forall k' :: k' in d && k' != k ==> r.value[k'] == d[k']
    ensures r.Ok? && k in r.value ==> k in d && r.value[k] == Members(d[k].m - {m})
    ensures r.Ok? && k !in r.value ==> k !in d || d[k].m - {m} == {}
    ensures r.Ok? && k in d && d[k].Members? && d[k].m - {m} == {} ==> k !in r.value
  {
    if k !in d then Ok(d)
    else match d[k]
      case Members(s) =>
        if s - {m} == {} then Ok(d - {k}) else Ok(d[k := Members(s - {m})])
      case Str(_, _) => Err(WrongType)
  }

  /** DEL: removes the key whatever it holds; deleting an absent key is a no-op. */
  function DelCmd(d: Keyspace, k: string): (r: Keyspace)
    ensures r.Keys == d.Keys - {k}
    ensures forall k' :: k' in r ==> r[k'] == d[k']
  {
    d - {k}
  }

  /** SMEMBERS: the members of the set, the empty set for an absent key,
      WRONGTYPE on a string. */
  function SMembersCmd(d: Keyspace, k: string): (r: Reply<set<string>>)
    ensures r.Err? <==> k in d && d[k].Str?
    ensures r.Err? ==> r.error == WrongType
    ensures r.Ok? ==> r.value == if k in d then d[k].m else {}
  {
    if k !in d then Ok({})
    else match d[k]
      case Members(s) => Ok(s)
      case Str(_, _) => Err(WrongType)
  }

  /** In a pipeline each command's error is reported in the result of `exec`
      and the command has no effect; the next command still runs. */
  function Applied(r: Reply<Keyspace>, d: Keyspace): (d': Keyspace)
    ensures r.Ok? ==> d' == r.value
    ensures r.Err? ==> d' == d
  {
    if r.Ok? then r.value else d
  }

  predicate Distinct(s: seq<string>) {
    forall i, j :: 0 <= i < j < |s| ==> s[i] != s[j]
  }

  /** Every command keeps every key live and every set non-empty. */
  lemma CommandsKeepWellFormed(d: Keyspace, clock: int, k: string, v: string, seconds: int)
    requires WellFormed(d, clock)
    ensures WellFormed(SetCmd(d, k, v), clock)
    ensures SetExCmd(d, clock, k, seconds, v).Ok? ==> WellFormed(SetExCmd(d, clock, k, seconds, v).value, clock)
    ensures SAddCmd(d, k, v).Ok? ==> WellFormed(SAddCmd(d, k, v).value, clock)
    ensures SRemCmd(d, k, v).Ok? ==> WellFormed(SRemCmd(d, k, v).value, clock)
    ensures WellFormed(DelCmd(d, k), clock)
  {
  }

  /** The server: its keyspace and its clock. */
  class Redis {
    var data: Keyspace
    var clock: int

    ghost predicate Valid()
      reads this
    {
      WellFormed(data, clock)
    }

    constructor (start: int)
      ensures Valid() && data == map[] && clock == start
    {
      data := map[];
      clock := start;
    }

    /** Time passes; every key whose expiry is now in the past disappears. */
    method Tick(ms: nat)
      requires Valid()
      modifies this
      ensures Valid()
      ensures clock == old(clock) + ms && data == Expire(old(data), clock)
    {
      clock := clock + ms;
      data := Expire(data, clock);
    }

    method Set(k: string, v: string)
      requires Valid()
      modifies this
      ensures Valid() && clock == old(clock)
      ensures data == SetCmd(old(data), k, v)
    {
      data := SetCmd(data, k, v);
    }

    method SetEx(k: string, seconds: int, v: string) returns (r: Outcome<Error>)
      requires Valid()
      modifies this
      ensures Valid() && clock == old(clock)
      ensures r.Fail? <==> seconds <= 0
      ensures data == Applied(SetExCmd(old(data), clock, k, seconds, v), old(data))
    {
      var reply := SetExCmd(data, clock, k, seconds, v);
      CommandsKeepWellFormed(data, clock, k, v, seconds);
      data := Applied(reply, data);
      r := if reply.Ok? then Pass else Fail(reply.error);
    }

    method SAdd(k: string, m: string) returns (r: Outcome<Error>)
      requires Valid()
      modifies this
      ensures Valid() && clock == old(clock)
      ensures r.Fail? <==> SAddCmd(old(data), k, m).Err?
      ensures data == Applied(SAddCmd(old(data), k, m), old(data))
    {
      var reply := SAddCmd(data, k, m);
      CommandsKeepWellFormed(data, clock, k, m, 0);
      data := Applied(reply, data);
      r := if reply.Ok? then Pass else Fail(reply.error);
    }

    method SRem(k: string, m: string) returns (r: Outcome<Error>)
      requires Valid()
      modifies this
      ensures Valid() && clock == old(clock)
      ensures r.Fail? <==> SRemCmd(old(data), k, m).Err?
      ensures data == Applied(SRemCmd(old(data), k, m), old(data))
    {
      var reply := SRemCmd(data, k, m);
      CommandsKeepWellFormed(data, clock, k, m, 0);
      data := Applied(reply, data);
      r := if reply.Ok? then Pass else Fail(reply.error);
    }

    method Del(k: string)
      requires Valid()
      modifies this
      ensures Valid() && clock == old(clock)
      ensures data == DelCmd(old(data), k)
    {
      data := DelCmd(data, k);
    }

    /** SMEMBERS as a client sees it: every member exactly once, in an order
        the server chooses. */
    method SMembers(k: string) returns (r: Reply<seq<string>>)
      ensures r.Err? <==> SMembersCmd(data, k).Err?
      ensures r.Err? ==> r.error == WrongType
      ensures r.Ok? ==> Distinct(r.value)
      ensures r.Ok? ==> forall x :: x in r.value <==> x in SMembersCmd(data, k).value
    {
      var reply := SMembersCmd(data, k);
      if reply.Err? {
        return Err(reply.error);
      }
      var rest := reply.value;
      var out: seq<string> := [];
      while rest != {}
        invariant Distinct(out)
        invariant forall x :: x in reply.value <==> x in rest || x in out
        invariant forall x :: x in out ==> x !in rest
        decreases rest
      {
        var x :| x in rest;
        out := out + [x];
        rest := rest - {x};
      }
      r := Ok(out);
    }
  }
}
