/** The local upstream lease table (src/state.rs, `UpstreamLeaseTable`): reserve, renew, release, sweep, reset. */
module UpstreamLeases {
  import opened Collections

  /** `AccountConcurrencyKey`: an upstream and the key used with it. */
  datatype Account = Account(upstream: string, fingerprint: string)

  /** A lease of an account; ids are drawn from the supply of unused names. */
  datatype Key = Key(account: Account, id: nat)

  datatype Record = Record(expiresAt: nat, lastRenewedAt: nat, reservedAt: nat)

  datatype Table = Table(
    leases: map<Key, Record>, samples: map<Account, seq<nat>>, leaked: map<string, nat>, stale: map<string, nat>)

  /** Bound of the ring of hold durations. */
  const SAMPLE_SIZE := 32

  function Since(now: nat, earlier: nat): nat {
    if now >= earlier then now - earlier else 0
  }

  function Fresh(now: nat, ttl: nat): Record {
    Record(now + ttl, now, now)
  }

  // ---- Counting ----

  function OfAccount(keys: set<Key>, account: Account): set<Key> {
    set k | k in keys && k.account == account
  }

  function OfUpstream(keys: set<Key>, upstream: string): set<Key> {
    set k | k in keys && k.account.upstream == upstream
  }

  function Upstreams(keys: set<Key>): set<string> {
    set k | k in keys :: k.account.upstream
  }

  function CountAt(counters: map<string, nat>, upstream: string): nat {
    if upstream in counters then counters[upstream] else 0
  }

  /** The counters after counting each of `keys` for its upstream. */
  function Bump(counters: map<string, nat>, keys: set<Key>): map<string, nat> {
    map u | u in counters.Keys + Upstreams(keys) :: CountAt(counters, u) + |OfUpstream(keys, u)|
  }

  lemma BumpCounts(counters: map<string, nat>, keys: set<Key>, upstream: string)
    ensures CountAt(Bump(counters, keys), upstream) == CountAt(counters, upstream) + |OfUpstream(keys, upstream)|
  {
    if upstream !in Upstreams(keys) {
      assert OfUpstream(keys, upstream) == {};
    }
  }

  lemma OfUpstreamAdd(keys: set<Key>, k: Key, upstream: string)
    requires k !in keys
    ensures |OfUpstream(keys + {k}, upstream)|
         == |OfUpstream(keys, upstream)| + if k.account.upstream == upstream then 1 else 0
  {
    if k.account.upstream == upstream {
      assert OfUpstream(keys + {k}, upstream) == OfUpstream(keys, upstream) + {k};
    } else {
      assert OfUpstream(keys + {k}, upstream) == OfUpstream(keys, upstream);
    }
  }

  lemma BumpOne(counters: map<string, nat>, keys: set<Key>, k: Key)
    requires k !in keys
    ensures var u, before := k.account.upstream, Bump(counters, keys);
            Bump(counters, keys + {k}) == before[u := CountAt(before, u) + 1]
  {
    hide OfUpstream;
    var u := k.account.upstream;
    assert Upstreams(keys + {k}) == Upstreams(keys) + {u};
    BumpCounts(counters, keys, u);
    hide Upstreams;
    forall v: string
      ensures |OfUpstream(keys + {k}, v)| == |OfUpstream(keys, v)| + if u == v then 1 else 0
    {
      OfUpstreamAdd(keys, k, v);
    }
    assert Bump(counters, keys + {k}).Keys == Bump(counters, keys).Keys + {u};
  }

  lemma BumpNone(counters: map<string, nat>)
    ensures Bump(counters, {}) == counters
  {
    assert Upstreams({}) == {};
    assert forall u :: OfUpstream({}, u) == {};
  }

  // ---- The table's operations ----

  function AccountCount(t: Table, account: Account): nat {
    |OfAccount(t.leases.Keys, account)|
  }

  function Inserted(t: Table, k: Key, record: Record): Table {
    t.(leases := t.leases[k := record])
  }

  function RingAt(samples: map<Account, seq<nat>>, account: Account): seq<nat> {
    if account in samples then samples[account] else []
  }

  /** A bounded ring drops its oldest entry when full. */
  function PushSample(ring: seq<nat>, hold: nat): seq<nat> {
    (if |ring| >= SAMPLE_SIZE then ring[1..] else ring) + [hold]
  }

  function Removed(t: Table, k: Key, now: nat): Table {
    if k in t.leases then
      var hold := Since(now, t.leases[k].reservedAt);
      t.(leases := t.leases - {k}, samples := t.samples[k.account := PushSample(RingAt(t.samples, k.account), hold)])
    else t
  }

  function Renewed(t: Table, k: Key, now: nat, ttl: nat): Table {
    if k in t.leases
    then t.(leases := t.leases[k := t.leases[k].(expiresAt := now + ttl, lastRenewedAt := now)])
    else t
  }

  predicate IsExpired(r: Record, now: nat) {
    r.expiresAt <= now
  }

  /** Not expired, but without a heartbeat for too long. */
  predicate IsStale(r: Record, now: nat, staleAfter: nat) {
    !IsExpired(r, now) && Since(now, r.lastRenewedAt) > staleAfter
  }

  function ExpiredKeys(t: Table, now: nat): set<Key> {
    set k | k in t.leases && IsExpired(t.leases[k], now)
  }

  function StaleKeys(t: Table, now: nat, staleAfter: nat): set<Key> {
    set k | k in t.leases && IsStale(t.leases[k], now, staleAfter)
  }

  /** `prune_expired_upstream_leases`. */
  function Pruned(t: Table, now: nat, staleAfter: nat): Table {
    var expired, stale := ExpiredKeys(t, now), StaleKeys(t, now, staleAfter);
    t.(leases := t.leases - (expired + stale), leaked := Bump(t.leaked, expired), stale := Bump(t.stale, stale))
  }

  /** The leases an operator reset concerns. */
  function ResetKeys(t: Table, upstream: string, fingerprint: Option<string>): set<Key> {
    set k | k in t.leases && k.account.upstream == upstream
            && (fingerprint.None? || fingerprint.value == k.account.fingerprint)
  }

  function WithoutUpstream(t: Table, upstream: string, fingerprint: Option<string>): Table {
    t.(leases := t.leases - ResetKeys(t, upstream, fingerprint))
  }

  /** `remove_upstream`: the upstream is gone, with its counters. */
  function Forgotten(t: Table, upstream: string): Table {
    t.(leases := t.leases - OfUpstream(t.leases.Keys, upstream),
       leaked := t.leaked - {upstream}, stale := t.stale - {upstream})
  }

  /** The next lease of an account, or a rejection when the account is full after a sweep. */
  function Reserved(t: Table, k: Key, cap: nat, now: nat, ttl: nat, staleAfter: nat): (Table, bool) {
    var swept := Pruned(t, now, staleAfter);
    if AccountCount(swept, k.account) >= cap then (swept, false) else (Inserted(swept, k, Fresh(now, ttl)), true)
  }

  // ---- The table as the object it is ----

  class LeaseTable {
    var leases: map<Key, Record>
    var samples: map<Account, seq<nat>>
    var leaked: map<string, nat>
    var stale: map<string, nat>

    function Model(): Table
      reads this
    {
      Table(leases, samples, leaked, stale)
    }

    constructor ()
      ensures Model() == Table(map[], map[], map[], map[])
    {
      leases, samples, leaked, stale := map[], map[], map[], map[];
    }

    method Insert(k: Key, record: Record)
      modifies this
      ensures Model() == Inserted(old(Model()), k, record)
    {
      leases := leases[k := record];
    }

    method Remove(k: Key, now: nat) returns (held: bool)
      modifies this
      ensures Model() == Removed(old(Model()), k, now) && held == (k in old(leases))
    {
      if k !in leases {
        return false;
      }
      var hold := Since(now, leases[k].reservedAt);
      leases := leases - {k};
      var ring := RingAt(samples, k.account);
      if |ring| >= SAMPLE_SIZE {
        ring := ring[1..];
      }
      samples := samples[k.account := ring + [hold]];
      return true;
    }

    method Renew(k: Key, now: nat, ttl: nat)
      modifies this
      ensures Model() == Renewed(old(Model()), k, now, ttl)
    {
      if k in leases {
        leases := leases[k := leases[k].(expiresAt := now + ttl, lastRenewedAt := now)];
      }
    }

    /** One sweep: what expired or went stale is dropped, and each dropped lease counted for its upstream. */
    method Prune(now: nat, staleAfter: nat) returns (reclaimed: nat)
      modifies this
      ensures Model() == Pruned(old(Model()), now, staleAfter)
      ensures reclaimed == |ExpiredKeys(old(Model()), now)| + |StaleKeys(old(Model()), now, staleAfter)|
    {
      var expired := set k | k in leases && IsExpired(leases[k], now);
      var silent := set k | k in leases && IsStale(leases[k], now, staleAfter);
      leases := leases - (expired + silent);
      leaked := CountReclaimed(leaked, expired);
      stale := CountReclaimed(stale, silent);
      reclaimed := |expired| + |silent|;
    }

    /** Counts each of `keys` for its upstream, in any order. */
    static method CountReclaimed(counters: map<string, nat>, keys: set<Key>) returns (counted: map<string, nat>)
      ensures counted == Bump(counters, keys)
    {
      hide Bump;
      counted := counters;
      var rest := keys;
      BumpNone(counters);
      assert keys - rest == {};
      while rest != {}
        invariant rest <= keys && counted == Bump(counters, keys - rest)
        decreases rest
      {
        var k: Key :| k in rest;
        BumpOne(counters, keys - rest, k);
        assert keys - (rest - {k}) == keys - rest + {k};
        counted := counted[k.account.upstream := CountAt(counted, k.account.upstream) + 1];
        rest := rest - {k};
      }
      assert keys - rest == keys;
    }

    method RemoveLeasesForUpstream(upstream: string, fingerprint: Option<string>) returns (removed: nat)
      modifies this
      ensures Model() == WithoutUpstream(old(Model()), upstream, fingerprint)
      ensures removed == |ResetKeys(old(Model()), upstream, fingerprint)|
    {
      var gone := ResetKeys(Model(), upstream, fingerprint);
      leases := leases - gone;
      removed := |gone|;
    }

    method RemoveUpstream(upstream: string)
      modifies this
      ensures Model() == Forgotten(old(Model()), upstream)
    {
      leases := leases - OfUpstream(leases.Keys, upstream);
      leaked, stale := leaked - {upstream}, stale - {upstream};
    }

    /** The critical section of `try_reserve_upstream_account_request`. */
    method Reserve(k: Key, cap: nat, now: nat, ttl: nat, staleAfter: nat) returns (admitted: bool)
      modifies this
      ensures (Model(), admitted) == Reserved(old(Model()), k, cap, now, ttl, staleAfter)
    {
      hide Pruned;
      var reclaimed := Prune(now, staleAfter);
      admitted := AccountCount(Model(), k.account) < cap;
      if admitted {
        Insert(k, Fresh(now, ttl));
      }
    }
  }
}
