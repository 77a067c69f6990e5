/** internal/sub/entitle.go: who may hold share links and stay on a node. */
module Entitlement {

  datatype Option<+T> = None | Some(value: T)

  /** Nanoseconds since the Unix epoch. */
  type Time = int

  const INT64_LIMIT: int := 0x8000_0000_0000_0000

  /** Two's complement reading of a sum, as Go's int64 addition gives it. */
  function Wrap64(x: int): (r: int)
    ensures -INT64_LIMIT <= r < INT64_LIMIT
    ensures -INT64_LIMIT <= x < INT64_LIMIT ==> r == x
  {
    (x + INT64_LIMIT) % (2 * INT64_LIMIT) - INT64_LIMIT
  }

  predicate Entitled(status: string, expire: Option<Time>, upload: int, download: int, total: int, now: Time) {
    status == "active"
    && !(expire.Some? && now > expire.value)
    && !(total > 0 && Wrap64(upload + download) >= total)
  }

  /** What the plane promises: active, not past the expiry, and under a positive quota. */
  ghost predicate MayConnect(status: string, expire: Option<Time>, upload: int, download: int, total: int, now: Time) {
    status == "active"
    && (expire.None? || now <= expire.value)
    && (total <= 0 || upload + download < total)
  }

  /** On stored counters the code meets that promise exactly when the two counters add up
      without wrapping, or nothing depends on the sum. */
  lemma EntitledIsMayConnect(status: string, expire: Option<Time>, upload: int, download: int, total: int, now: Time)
    requires 0 <= upload < INT64_LIMIT && 0 <= download < INT64_LIMIT && total < INT64_LIMIT
    ensures (Entitled(status, expire, upload, download, total, now)
             <==> MayConnect(status, expire, upload, download, total, now))
            <==> (upload + download < INT64_LIMIT || total <= 0
                  || status != "active" || (expire.Some? && now > expire.value))
  {
    var sum := upload + download;
    if sum >= INT64_LIMIT {
      assert (sum + INT64_LIMIT) % (2 * INT64_LIMIT) == sum - INT64_LIMIT;
      assert Wrap64(sum) < 0;
    }
  }

  /** The clock alone only ever takes entitlement away. */
  lemma TimeOnlyRemoves(status: string, expire: Option<Time>, upload: int, download: int, total: int, t: Time,
                        later: Time)
    requires t <= later
    requires Entitled(status, expire, upload, download, total, later)
    ensures Entitled(status, expire, upload, download, total, t)
  {
  }
}
