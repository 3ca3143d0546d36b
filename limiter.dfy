/**
 * The cooldown check every version puts in front of its commands: a map from a key
 * (a user, or a user and a handler name) to the time of the last accepted request.
 * Times are whole seconds; a key never seen counts as last accepted at time 0.
 */
module Limiter {

  datatype Decision = Admitted | Refused(remaining: nat)

  /** The key's last accepted time, 0 for a key never seen. */
  function LastTime<K>(last: map<K, int>, key: K): int {
    if key in last then last[key] else 0
  }

  /** The request comes less than `limit` seconds after the key's last accepted one. */
  predicate CoolingDown<K>(last: map<K, int>, key: K, now: int, limit: int) {
    now - LastTime(last, key) < limit
  }

  class RateLimiter<K(==)> {
    const limit: int
    var last: map<K, int>

    constructor (limit: int)
      ensures this.limit == limit && last == map[]
    {
      this.limit := limit;
      last := map[];
    }

    /**
     * Refuses a request that comes less than `limit` seconds after the key's last accepted
     * one, leaving the map alone and reporting the seconds left; otherwise records `now`
     * for that key and no other.
     */
    method Admit(key: K, now: int) returns (d: Decision)
      modifies this
      ensures d.Refused? <==> CoolingDown(old(last), key, now, limit)
      ensures d.Refused? ==> unchanged(this) && d.remaining == limit - (now - LastTime(old(last), key))
      ensures d.Admitted? ==> last == old(last)[key := now]
      ensures forall k :: k != key ==> LastTime(last, k) == LastTime(old(last), k)
    {
      var lastTime := LastTime(last, key);
      if now - lastTime < limit {
        d := Refused(limit - (now - lastTime));
        return;
      }
      last := last[key := now];
      d := Admitted;
    }
  }

  /** The wait shown as whole minutes and the seconds left over, as `divmod` by 60 gives them. */
  function SplitWait(wait: nat): (r: (nat, nat))
    ensures r.0 * 60 + r.1 == wait && r.1 < 60
  {
    (wait / 60, wait % 60)
  }

  /** The split is the only one with fewer than 60 seconds. */
  lemma SplitWaitUnique(wait: nat, minutes: nat, seconds: nat)
    requires minutes * 60 + seconds == wait && seconds < 60
    ensures SplitWait(wait) == (minutes, seconds)
  {
  }
}
