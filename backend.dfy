/** The Redis server the cache talks to, as an in-memory store. Transport failures follow a
    fault schedule: the backend command issued at tick `t` raises ConnectionError exactly when
    `t` is in `faults`; every command, failed or not, advances the tick. */
module Backend {
  import opened Results
  import opened Glob

  /** A Python value handed to the cache; `Unpicklable` is one pickle.dumps rejects. */
  datatype Value = PyNone | Obj(repr: string) | Unpicklable(repr: string)

  /** Bytes held by Redis: what pickle.dumps produced, or foreign bytes pickle.loads rejects. */
  datatype Blob = Pickled(value: Value) | Garbage

  /** A stored entry with the TTL it was written with (expiry itself is the server's business). */
  datatype Entry = Entry(blob: Blob, ttl: int)

  function Pickle(v: Value): Outcome<Blob>
  {
    if v.Unpicklable? then Raised(PicklingError) else Ok(Pickled(v))
  }

  function Unpickle(b: Blob): Outcome<Value>
  {
    match b
    case Pickled(v) => Ok(v)
    case Garbage => Raised(UnpicklingError)
  }

  /** The keys KEYS(pattern) reports. */
  function KeysMatching(data: map<string, Entry>, pattern: string): set<string>
  {
    set k | k in data && Match(pattern, k)
  }

  /** The keys matched by at least one of several patterns. */
  function KeysMatchingAny(data: map<string, Entry>, patterns: seq<string>): set<string>
  {
    set k | k in data && MatchesSome(patterns, k)
  }

  /** Some backend command issued at a tick in [lo, hi) raised. */
  ghost predicate FaultIn(faults: set<nat>, lo: nat, hi: nat)
  {
    exists t :: t in faults && lo <= t < hi
  }

  /** A window is fault-free exactly when both of its halves are. */
  lemma FaultInSplit(faults: set<nat>, lo: nat, mid: nat, hi: nat)
    requires lo <= mid <= hi
    ensures FaultIn(faults, lo, hi) <==> FaultIn(faults, lo, mid) || FaultIn(faults, mid, hi)
  {
  }

  /** Only deletions happened between `before` and `after`, and each deleted key matches one of
      `patterns`. */
  ghost predicate DeletedOnlyMatching(before: map<string, Entry>, after: map<string, Entry>, patterns: seq<string>)
  {
    && (forall k :: k in after ==> k in before && after[k] == before[k])
    && (forall k :: k in before && k !in after ==> MatchesSome(patterns, k))
  }

  class Redis {
    var data: map<string, Entry>
    var clock: nat
    const faults: set<nat>

    constructor (faults: set<nat>)
      ensures data == map[] && clock == 0 && this.faults == faults
    {
      data := map[];
      clock := 0;
      this.faults := faults;
    }

    /** SETEX key ttl blob: overwrites unconditionally; a TTL below 1 is rejected by the server. */
    method Setex(key: string, ttl: int, blob: Blob) returns (r: Outcome<bool>)
      modifies this
      ensures clock == old(clock) + 1
      ensures r.Ok? <==> old(clock) !in faults && ttl > 0
      ensures old(clock) in faults ==> r == Raised(ConnectionError)
      ensures r.Ok? ==> r.value && data == old(data)[key := Entry(blob, ttl)]
      ensures r.Raised? ==> data == old(data)
    {
      if clock in faults {
        r := Raised(ConnectionError);
      } else if ttl <= 0 {
        r := Raised(ResponseError("invalid expire time in 'setex' command"));
      } else {
        data := data[key := Entry(blob, ttl)];
        r := Ok(true);
      }
      clock := clock + 1;
    }

    /** GET key. */
    method Get(key: string) returns (r: Outcome<Option<Blob>>)
      modifies this
      ensures clock == old(clock) + 1 && data == old(data)
      ensures r == if old(clock) in faults then Raised(ConnectionError)
                   else Ok(if key in data then Some(data[key].blob) else None)
    {
      if clock in faults {
        r := Raised(ConnectionError);
      } else {
        r := Ok(if key in data then Some(data[key].blob) else None);
      }
      clock := clock + 1;
    }

    /** KEYS pattern. */
    method Keys(pattern: string) returns (r: Outcome<set<string>>)
      modifies this
      ensures clock == old(clock) + 1 && data == old(data)
      ensures r == if old(clock) in faults then Raised(ConnectionError) else Ok(KeysMatching(data, pattern))
    {
      if clock in faults {
        r := Raised(ConnectionError);
      } else {
        r := Ok(KeysMatching(data, pattern));
      }
      clock := clock + 1;
    }

    /** DEL key [key ...]: returns how many of the keys existed; DEL with no key is an error. */
    method Delete(keys: set<string>) returns (r: Outcome<nat>)
      modifies this
      ensures clock == old(clock) + 1
      ensures r.Ok? <==> old(clock) !in faults && keys != {}
      ensures old(clock) in faults ==> r == Raised(ConnectionError)
      ensures r.Ok? ==> data == old(data) - keys && r.value == |keys * old(data).Keys|
      ensures r.Raised? ==> data == old(data)
    {
      if clock in faults {
        r := Raised(ConnectionError);
      } else if keys == {} {
        r := Raised(ResponseError("wrong number of arguments for 'del' command"));
      } else {
        r := Ok(|keys * data.Keys|);
        data := data - keys;
      }
      clock := clock + 1;
    }

    /** FLUSHDB. */
    method Flushdb() returns (r: Outcome<bool>)
      modifies this
      ensures clock == old(clock) + 1
      ensures r.Ok? <==> old(clock) !in faults
      ensures r.Raised? ==> r.error == ConnectionError
      ensures r.Ok? ==> r.value && data == map[]
      ensures r.Raised? ==> data == old(data)
    {
      if clock in faults {
        r := Raised(ConnectionError);
      } else {
        data := map[];
        r := Ok(true);
      }
      clock := clock + 1;
    }
  }
}
