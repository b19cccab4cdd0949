/**
  The token cache of internal/auth/refresh.go: a map of refreshed token sets
  whose visibility is governed by a two-level epoch, one process-wide
  generation and one counter per credential key.
 */
module RefreshCache {
  import opened Common

  /** Refresh and access tokens are abstract strings; a zero expiry means "unknown". */
  datatype TokenSet = TokenSet(access: string, refresh: string, expiresAt: int) {

    predicate Expired(now: int, skew: int) {
      expiresAt != 0 && now >= expiresAt - (if skew < 0 then 0 else skew)
    }
  }

  /** The part of a token set that a durable reload and a request compare. */
  predicate SameMaterial(left: TokenSet, right: TokenSet) {
    left.access == right.access && left.refresh == right.refresh
  }

  datatype Epoch = Epoch(generation: nat, key: nat)

  /** Lexicographic order on epochs. */
  predicate EpochBelow(a: Epoch, b: Epoch) {
    a.generation < b.generation || (a.generation == b.generation && a.key < b.key)
  }

  predicate EpochAtMost(a: Epoch, b: Epoch) {
    a == b || EpochBelow(a, b)
  }

  /** The three fields guarded by the refresher's mutex. */
  datatype CacheState = CacheState(
    cache: map<string, TokenSet>,
    generation: nat,
    keyEpoch: map<string, nat>
  ) {
    function EpochOf(key: string): Epoch {
      Epoch(generation, if key in keyEpoch then keyEpoch[key] else 0)
    }

    function InvalidateKey(key: string): CacheState {
      CacheState(cache - {key}, generation, keyEpoch[key := EpochOf(key).key + 1])
    }

    function InvalidateEvery(): CacheState {
      CacheState(map[], generation + 1, map[])
    }

    function Commit(key: string, tokens: TokenSet, captured: Epoch): CacheState {
      if EpochOf(key) == captured then this.(cache := cache[key := tokens]) else this
    }
  }

  const EMPTY_CACHE := CacheState(map[], 0, map[])

  /** One invalidation of the cache: of a single key or of all of them. */
  datatype Invalidation = OfKey(key: string) | OfAll

  function Invalidate(c: CacheState, how: Invalidation): CacheState {
    match how
    case OfKey(key) => c.InvalidateKey(key)
    case OfAll => c.InvalidateEvery()
  }

  function InvalidateEach(c: CacheState, hows: seq<Invalidation>): CacheState
    decreases |hows|
  {
    if hows == [] then c else InvalidateEach(Invalidate(c, hows[0]), hows[1..])
  }

  predicate Hits(how: Invalidation, key: string) {
    how.OfAll? || how.key == key
  }

  /** No sequence of invalidations brings an epoch back: once one of them hits
      the key, a commit that captured the earlier epoch is refused for good. */
  lemma {:induction false} StaleEpochStaysStale(c: CacheState, hows: seq<Invalidation>, key: string, tokens: TokenSet)
    ensures EpochAtMost(c.EpochOf(key), InvalidateEach(c, hows).EpochOf(key))
    ensures (exists i :: 0 <= i < |hows| && Hits(hows[i], key)) ==>
              var after := InvalidateEach(c, hows);
              EpochBelow(c.EpochOf(key), after.EpochOf(key)) &&
              after.Commit(key, tokens, c.EpochOf(key)) == after
    decreases |hows|
  {
    if hows != [] {
      var next := Invalidate(c, hows[0]);
      StaleEpochStaysStale(next, hows[1..], key, tokens);
      if Hits(hows[0], key) {
        assert EpochBelow(c.EpochOf(key), next.EpochOf(key));
      } else {
        assert next.EpochOf(key) == c.EpochOf(key);
        if i :| 0 <= i < |hows| && Hits(hows[i], key) {
          assert i > 0 && Hits(hows[1..][i - 1], key);
        }
      }
    }
  }

  datatype AccessDecision =
    | UseCached(tokens: TokenSet)
    | UseCurrent(tokens: TokenSet)
    | NoRefreshToken
    | MustRefresh(current: TokenSet)

  /** What a flight or a caller starts from: the caller's snapshot overridden by
      whatever a concurrent refresh left in the cache. */
  function MergeCached(current: TokenSet, cached: Option<TokenSet>): TokenSet {
    if cached.Some? && cached.value.refresh != "" then
      TokenSet(
        if cached.value.access != "" then cached.value.access else current.access,
        cached.value.refresh,
        if cached.value.expiresAt != 0 then cached.value.expiresAt else current.expiresAt)
    else current
  }

  /** What a rotation in the cache makes of a caller's snapshot. */
  predicate Overrides(now: TokenSet, current: TokenSet, held: Option<TokenSet>) {
    if held.None? || held.value.refresh == "" then now == current
    else
      && now.refresh == held.value.refresh
      && (held.value.access != "" ==> now.access == held.value.access)
      && (held.value.access == "" ==> now.access == current.access)
      && (held.value.expiresAt != 0 ==> now.expiresAt == held.value.expiresAt)
      && (held.value.expiresAt == 0 ==> now.expiresAt == current.expiresAt)
  }

  /** Without a credential id the refresh token itself is the key. */
  function FlightKey(key: string, current: TokenSet): string {
    if key != "" then key else current.refresh
  }

  function CachedFor(cache: map<string, TokenSet>, key: string): Option<TokenSet> {
    if key != "" && key in cache then Some(cache[key]) else None
  }

  /** The refresher object; each method is one critical section of the mutex. */
  class Refresher {
    var cache: map<string, TokenSet>
    var generation: nat
    var keyEpoch: map<string, nat>

    function State(): CacheState
      reads this
    {
      CacheState(cache, generation, keyEpoch)
    }

    constructor ()
      ensures State() == EMPTY_CACHE
    {
      cache, generation, keyEpoch := map[], 0, map[];
    }

    method Cached(key: string) returns (tokens: Option<TokenSet>)
      ensures tokens.Some? <==> key in cache
      ensures tokens.Some? ==> tokens.value == cache[key]
    {
      if key in cache {
        tokens := Some(cache[key]);
      } else {
        tokens := None;
      }
    }

    method Invalidate(key: string)
      modifies this
      ensures State() == old(State()).InvalidateKey(key)
      ensures key !in cache && EpochBelow(old(State()).EpochOf(key), State().EpochOf(key))
      ensures forall other :: other != key ==>
                && (other in cache <==> other in old(cache)) && (other in cache ==> cache[other] == old(cache)[other])
                && State().EpochOf(other) == old(State()).EpochOf(other)
    {
      var previous := if key in keyEpoch then keyEpoch[key] else 0;
      keyEpoch := keyEpoch[key := previous + 1];
      cache := cache - {key};
    }

    method InvalidateAll()
      modifies this
      ensures State() == old(State()).InvalidateEvery()
      ensures cache == map[] && forall key :: EpochBelow(old(State()).EpochOf(key), State().EpochOf(key))
    {
      cache := map[];
      generation := generation + 1;
      keyEpoch := map[];
    }

    method CurrentGenerations(key: string) returns (epoch: Epoch)
      ensures epoch == State().EpochOf(key)
    {
      epoch := Epoch(generation, if key in keyEpoch then keyEpoch[key] else 0);
    }

    /** The tail of commitIfCurrent, after the caller's store patch succeeded. */
    method CommitIfCurrent(key: string, tokens: TokenSet, captured: Epoch) returns (ok: bool)
      modifies this`cache
      ensures ok <==> old(State()).EpochOf(key) == captured
      ensures State() == old(State()).Commit(key, tokens, captured)
      ensures ok ==> key in cache && cache[key] == tokens
      ensures !ok ==> cache == old(cache)
      ensures forall other :: other != key ==> (other in cache <==> other in old(cache))
      ensures forall other :: other != key && other in cache ==> cache[other] == old(cache)[other]
    {
      var current := CurrentGenerations(key);
      ok := current == captured;
      if ok {
        cache := cache[key := tokens];
      }
    }

    /** EnsureAccess up to the point where it hands over to ForceRefresh: the
        shared cache is consulted before the caller's own snapshot. */
    method EnsureAccess(key: string, current: TokenSet, now: int, skew: int) returns (d: AccessDecision)
      ensures var held := CachedFor(cache, FlightKey(key, current));
              && ((held.Some? && held.value.access != "" && !held.value.Expired(now, skew)) <==> d.UseCached?)
              && (d.UseCached? ==> Some(d.tokens) == held)
              // A rotation left in the cache always replaces the caller's refresh token, and
              // with it whatever else the cache knows; without one the caller's snapshot stands.
              && (d.MustRefresh? ==> Overrides(d.current, current, held))
              && (d.UseCurrent? ==> Overrides(d.tokens, current, held))
              && (d.NoRefreshToken? ==> current.refresh == "" && (held.None? || held.value.refresh == ""))
      // The credential's own key decides, or else the refresh token the caller holds.
      ensures var at := if key == "" then current.refresh else key;
              at != "" && at in cache && cache[at].access != ""
              && (cache[at].expiresAt == 0 || (now < cache[at].expiresAt && now + skew < cache[at].expiresAt)) ==>
                d == UseCached(cache[at])
      ensures d.UseCurrent? || d.UseCached? ==>
                d.tokens.access != "" && (d.tokens.expiresAt == 0 || (now < d.tokens.expiresAt && now + skew < d.tokens.expiresAt))
      ensures d.MustRefresh? ==>
                && d.current.refresh != ""
                && (d.current.access == "" || (d.current.expiresAt != 0 && (d.current.expiresAt <= now || d.current.expiresAt <= now + skew)))
    {
      var cached := None;
      if FlightKey(key, current) != "" {
        cached := Cached(FlightKey(key, current));
      }
      if cached.Some? && cached.value.access != "" && !cached.value.Expired(now, skew) {
        return UseCached(cached.value);
      }
      var merged := MergeCached(current, cached);
      if merged.access != "" && !merged.Expired(now, skew) {
        return UseCurrent(merged);
      }
      if merged.refresh == "" {
        return NoRefreshToken;
      }
      return MustRefresh(merged);
    }
  }
}
