/**
  Session bookkeeping: `BrowserSession` carries per-key counters, and the
  process-wide `SESSION_STORAGE` dictionary maps a session id to its session,
  created on first use and never removed or reset. Time is an integer clock
  in microseconds, passed in where the source reads `datetime.now()`.
*/
module Sessions {

  /** Rotation is due past this many requests. */
  const MaxRequests: int := 50

  /** Rotation is due past this age: two hours, in microseconds. */
  const MaxAge: int := 2 * 60 * 60 * 1000000

  /**
    `should_rotate` over a session's request count and its age: within two
    hours, rotation is due from the 51st request on; past two hours, always.
  */
  function RotationDue(requestCount: int, age: int): (due: bool)
    ensures age <= 7200000000 ==> (due <==> requestCount >= 51)
    ensures age > 7200000000 ==> due
  {
    requestCount > MaxRequests || age > MaxAge
  }

  /**
    With the age held within two hours, 50 requests do not call for rotation
    and 51 do; past two hours rotation is due at any count.
  */
  lemma RotationThreshold(age: int, n: int)
    ensures age <= MaxAge ==> !RotationDue(50, age) && RotationDue(51, age)
    ensures age > MaxAge ==> RotationDue(n, age)
  {
  }

  /** Once due, rotation stays due as requests and age grow. */
  lemma RotationMonotone(n: int, age: int, n': int, age': int)
    requires RotationDue(n, age) && n <= n' && age <= age'
    ensures RotationDue(n', age')
  {
  }

  /** `BrowserSession` */
  class Session {
    const sessionId: string
    const createdAt: int
    var lastUsed: int
    var requestCount: nat
    var blockedCount: nat
    var successCount: nat

    /** `BrowserSession(session_id)` created at time `now`, with all counters zero. */
    constructor (id: string, now: int)
      ensures sessionId == id && createdAt == now && lastUsed == now
      ensures requestCount == 0 && blockedCount == 0 && successCount == 0
    {
      sessionId := id;
      createdAt := now;
      lastUsed := now;
      requestCount := 0;
      blockedCount := 0;
      successCount := 0;
    }

    /**
      `should_rotate()` at time `now`: due once more than 50 requests were
      served or more than two hours passed since creation, and not before.
    */
    function ShouldRotate(now: int): (due: bool)
      reads this
      ensures requestCount > 50 ==> due
      ensures now > createdAt + 7200000000 ==> due
      ensures requestCount <= 50 && now <= createdAt + 7200000000 ==> !due
    {
      RotationDue(requestCount, now - createdAt)
    }
  }

  /** `SESSION_STORAGE` and the one operation on it, `get_or_create_session`. */
  class SessionRegistry {
    var storage: map<string, Session>

    /** Each session is stored under its own id. */
    ghost predicate Valid()
      reads this
    {
      forall k :: k in storage ==> storage[k].sessionId == k
    }

    /** The empty registry the process starts with. */
    constructor ()
      ensures Valid() && storage == map[]
    {
      storage := map[];
    }

    /**
      `get_or_create_session(session_id)`: the stored session for `id`, or a
      new one with zero counters stored under `id`; no other entry changes.
    */
    method GetOrCreate(id: string, now: int) returns (s: Session)
      requires Valid()
      modifies this
      ensures Valid()
      ensures id in storage && s == storage[id] && s.sessionId == id
      ensures id in old(storage) ==> storage == old(storage) && s == old(storage[id])
      ensures id !in old(storage) ==> fresh(s) && storage == old(storage)[id := s]
      ensures id !in old(storage) ==>
                s.createdAt == now && s.lastUsed == now
                && s.requestCount == 0 && s.blockedCount == 0 && s.successCount == 0
    {
      if id !in storage {
        var created := new Session(id, now);
        storage := storage[id := created];
      }
      s := storage[id];
    }
  }

  /** Distinct keys hold distinct session objects, so updating one session leaves the others alone. */
  lemma DistinctKeysDistinctSessions(r: SessionRegistry, k1: string, k2: string)
    requires r.Valid() && k1 in r.storage && k2 in r.storage && k1 != k2
    ensures r.storage[k1] != r.storage[k2]
  {
  }

  /**
    `get_or_create_session` is idempotent: a second call with the same id
    returns the same session and leaves the registry as the first call left it.
  */
  method GetOrCreateTwice(r: SessionRegistry, id: string, now1: int, now2: int)
      returns (first: Session, second: Session)
    requires r.Valid()
    modifies r
    ensures r.Valid()
    ensures first == second && r.storage == old(r.storage)[id := first]
    ensures id in old(r.storage) ==> first == old(r.storage[id])
  {
    first := r.GetOrCreate(id, now1);
    ghost var afterFirst := r.storage;
    second := r.GetOrCreate(id, now2);
    assert r.storage == afterFirst;
  }
}
