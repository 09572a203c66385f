/** The in-memory entitlement cache: entries carry an expiry instant and a
    set of invalidation tags. The cache reads the wall clock on every get
    and set; here that instant is the explicit `now` argument.
 */
module EntitlementCache {
  import opened Common

  datatype Entry<V> = Entry(value: V, expiresAt: int, tags: set<string>) {
    /** An entry is expired from its expiry instant on. */
    predicate IsExpired(now: int) {
      now >= expiresAt
    }
  }

  datatype Cache<V> = Cache(entries: map<string, Entry<V>>)

  function EmptyCache<V>(): Cache<V> {
    Cache(map[])
  }

  /** The outcome of a read: the value found, if any, and the cache after
      the read (a read evicts the expired entry it finds). */
  datatype Lookup<V> = Lookup(value: Option<V>, cache: Cache<V>)

  /** `get(key)`: the stored value while it is live; an expired entry is
      evicted and reported as a miss; nothing else changes. */
  function Get<V>(c: Cache<V>, key: string, now: int): (r: Lookup<V>)
    ensures r.value.Some? <==> key in c.entries && !c.entries[key].IsExpired(now)
    ensures r.value.Some? ==> r.value.value == c.entries[key].value
    ensures r.cache.entries.Keys <= c.entries.Keys
    ensures forall k :: k in r.cache.entries ==> r.cache.entries[k] == c.entries[k]
    ensures forall k :: k in c.entries && k != key ==> k in r.cache.entries
    ensures key in r.cache.entries <==> r.value.Some?
  {
    if key !in c.entries then Lookup(None, c)
    else if c.entries[key].IsExpired(now) then Lookup(None, Cache(c.entries - {key}))
    else Lookup(Some(c.entries[key].value), c)
  }

  /** `set(key, value, expires_at, tags)`: an entry that would already be
      expired is dropped; otherwise it replaces whatever the key held. */
  function Set<V>(c: Cache<V>, key: string, value: V, expiresAt: int, tags: set<string>, now: int): (r: Cache<V>)
    ensures expiresAt <= now ==> r == c
    ensures expiresAt > now ==> key in r.entries && r.entries[key] == Entry(value, expiresAt, tags)
    ensures forall k :: k != key ==> (k in r.entries <==> k in c.entries)
    ensures forall k :: k != key && k in r.entries ==> r.entries[k] == c.entries[k]
  {
    if expiresAt <= now then c else Cache(c.entries[key := Entry(value, expiresAt, tags)])
  }

  /** `invalidate(tags)`: exactly the entries sharing a tag with `tags` are
      removed (with no tags, nothing is). */
  function Invalidate<V>(c: Cache<V>, tags: set<string>): (r: Cache<V>)
    ensures forall k :: k in r.entries <==> k in c.entries && c.entries[k].tags !! tags
    ensures forall k :: k in r.entries ==> r.entries[k] == c.entries[k]
  {
    if tags == {} then c
    else Cache(map k | k in c.entries && c.entries[k].tags !! tags :: c.entries[k])
  }

  /** `clear()`. */
  function Clear<V>(c: Cache<V>): (r: Cache<V>)
    ensures r.entries == map[]
  {
    EmptyCache()
  }

  /** A value set with a future expiry is read back until it expires. */
  lemma {:induction false} SetThenGet<V>(c: Cache<V>, key: string, value: V, expiresAt: int, tags: set<string>, setNow: int, getNow: int)
    requires setNow < expiresAt && getNow < expiresAt
    ensures Get(Set(c, key, value, expiresAt, tags, setNow), key, getNow).value == Some(value)
  {
  }

  /** At or after its expiry a value is no longer returned. */
  lemma {:induction false} ExpiredIsMiss<V>(c: Cache<V>, key: string, now: int)
    requires key in c.entries && now >= c.entries[key].expiresAt
    ensures Get(c, key, now).value == None
    ensures key !in Get(c, key, now).cache.entries
  {
  }

  /** Invalidating a tag leaves no entry carrying it. */
  lemma {:induction false} InvalidateRemovesTag<V>(c: Cache<V>, tags: set<string>, tag: string)
    requires tag in tags
    ensures forall k :: k in Invalidate(c, tags).entries ==> tag !in Invalidate(c, tags).entries[k].tags
  {
  }

  /** Invalidating twice is invalidating once. */
  lemma {:induction false} InvalidateIdempotent<V>(c: Cache<V>, tags: set<string>)
    ensures Invalidate(Invalidate(c, tags), tags) == Invalidate(c, tags)
  {
  }

  /** Invalidations commute. */
  lemma {:induction false} InvalidateCommutes<V>(c: Cache<V>, a: set<string>, b: set<string>)
    ensures Invalidate(Invalidate(c, a), b) == Invalidate(Invalidate(c, b), a)
    ensures Invalidate(Invalidate(c, a), b) == Invalidate(c, a + b)
  {
  }
}
