/**
  Picking credentials: availability, quota preference, priority round-robin over
  in-flight load, sticky sessions in a bounded ring, cooldowns, and the count of
  reservations. (internal/lb/selector.go, sticky.go, cooldown.go)

  Times and durations are whole nanoseconds; the zero time is 0.
 */
module Selection {
  import opened Common

  const SECOND: nat := 1_000_000_000
  const MAX_BINDINGS: nat := 10_000
  const PERSIST_INTERVAL: nat := 30 * SECOND

  datatype Candidate = Candidate(
    id: string, enabled: bool, priority: int, cooldownUntil: Option<nat>,
    failureCount: nat, lastError: string, lastSuccessAt: Option<nat>, remaining: Option<int>)

  datatype Health = Health(failureCount: nat, cooldownUntil: nat, lastError: string, successPersistedAt: nat, version: nat)

  const UNSEEN := Health(0, 0, "", 0, 0)

  /** What a mark asks to be stored. */
  datatype Snapshot = Snapshot(version: nat, failureCount: nat, cooldownUntil: Option<nat>, lastError: string, lastSuccessAt: Option<nat>)

  datatype Binding = Binding(credId: string, expiresAt: nat)

  type States = map<string, Health>
  type Loads = map<string, nat>

  function OrZero(t: Option<nat>): nat {
    match t case None => 0 case Some(at) => at
  }

  function Load(loads: Loads, id: string): nat {
    if id in loads then loads[id] else 0
  }

  function Reserved(loads: Loads, id: string): Loads {
    if id == "" then loads else loads[id := Load(loads, id) + 1]
  }

  function Released(loads: Loads, id: string): Loads {
    if Load(loads, id) > 1 then loads[id := loads[id] - 1] else loads - {id}
  }

  // ---------------------------------------------------------------------------
  // Availability

  function Seed(states: States, c: Candidate): States {
    if !c.enabled || c.id in states then states
    else states[c.id := Health(c.failureCount, OrZero(c.cooldownUntil), c.lastError, OrZero(c.lastSuccessAt), 0)]
  }

  function SeedAll(states: States, creds: seq<Candidate>): States {
    if creds == [] then states else Seed(SeedAll(states, creds[..|creds| - 1]), creds[|creds| - 1])
  }

  function EffectiveCooldown(states: States, c: Candidate): nat {
    var stored := OrZero(c.cooldownUntil);
    if c.id in states && states[c.id].cooldownUntil > stored then states[c.id].cooldownUntil else stored
  }

  predicate Cooling(states: States, c: Candidate, now: nat) {
    EffectiveCooldown(states, c) > now
  }

  predicate Usable(states: States, loads: Loads, cap: int, now: nat, c: Candidate) {
    c.enabled && !Cooling(states, c, now) && !(cap > 0 && Load(loads, c.id) >= cap)
  }

  function Filter<T>(s: seq<T>, p: T -> bool): seq<T> {
    if s == [] then [] else Filter(s[..|s| - 1], p) + if p(s[|s| - 1]) then [s[|s| - 1]] else []
  }

  function UsableIn(states: States, loads: Loads, cap: int, now: nat): Candidate -> bool {
    c => Usable(states, loads, cap, now, c)
  }

  function RoomIn(loads: Loads, reserve: nat): Candidate -> bool {
    (c: Candidate) => c.remaining.None? || c.remaining.value > Load(loads, c.id) + reserve
  }

  function HasPriority(priority: int): Candidate -> bool {
    (c: Candidate) => c.priority == priority
  }

  function HasId(id: string): Candidate -> bool {
    (c: Candidate) => c.id == id
  }

  lemma {:induction false} FilterKeeps<T>(s: seq<T>, p: T -> bool)
    ensures forall x :: x in Filter(s, p) <==> x in s && p(x)
    ensures |Filter(s, p)| <= |s|
    ensures (forall x :: x in s ==> p(x)) ==> Filter(s, p) == s
  {
    if s != [] {
      FilterKeeps(s[..|s| - 1], p);
      assert s == s[..|s| - 1] + [s[|s| - 1]];
      forall x | x in s ensures x in s[..|s| - 1] || x == s[|s| - 1] {
      }
    }
  }

  lemma {:induction false} FilterAgree<T>(s: seq<T>, p: T -> bool, q: T -> bool)
    requires forall x :: x in s ==> p(x) == q(x)
    ensures Filter(s, p) == Filter(s, q)
  {
    if s != [] {
      FilterAgree(s[..|s| - 1], p, q);
    }
  }

  /** Seeding only adds states, and every enabled candidate has one afterwards. */
  lemma {:induction false} SeedAllGrows(states: States, creds: seq<Candidate>)
    ensures var after := SeedAll(states, creds);
            && (forall id :: id in states ==> id in after && after[id] == states[id])
            && (forall c :: c in creds && c.enabled ==> c.id in after)
  {
    if creds != [] {
      SeedAllGrows(states, creds[..|creds| - 1]);
      assert creds == creds[..|creds| - 1] + [creds[|creds| - 1]];
      forall c | c in creds ensures c in creds[..|creds| - 1] || c == creds[|creds| - 1] {
      }
    }
  }

  /** A candidate's health as the store has it. */
  predicate StoredHealth(st: Health, c: Candidate) {
    && st.failureCount == c.failureCount && st.lastError == c.lastError && st.version == 0
    && st.cooldownUntil == (if c.cooldownUntil.Some? then c.cooldownUntil.value else 0)
    && st.successPersistedAt == (if c.lastSuccessAt.Some? then c.lastSuccessAt.value else 0)
  }

  /** What is new in the states comes from a candidate's stored health. */
  lemma {:induction false} SeededFromStored(states: States, creds: seq<Candidate>, id: string)
    requires id !in states && id in SeedAll(states, creds)
    ensures exists c :: c in creds && c.id == id && c.enabled && StoredHealth(SeedAll(states, creds)[id], c)
  {
    if creds != [] {
      var front, last := creds[..|creds| - 1], creds[|creds| - 1];
      assert creds == front + [last];
      if id in SeedAll(states, front) {
        SeededFromStored(states, front, id);
        var c :| c in front && c.id == id && c.enabled && StoredHealth(SeedAll(states, front)[id], c);
        assert c in creds;
      } else {
        assert last in creds;
      }
    }
  }

  /** Nothing stands in a candidate's way: it is enabled and below the cap, and
      neither its stored deadline nor the one in memory, which may come from any
      candidate of its id, lies ahead. */
  ghost predicate Clear(states: States, loads: Loads, cap: int, now: nat, creds: seq<Candidate>, c: Candidate) {
    && c in creds && c.enabled
    && (forall d :: d in creds && d.id == c.id ==> d.cooldownUntil.None? || d.cooldownUntil.value <= now)
    && (c.id in states ==> states[c.id].cooldownUntil <= now)
    && (cap > 0 ==> c.id !in loads || loads[c.id] < cap)
  }

  /** A usable candidate's own deadlines are both past, and a clear one is usable. */
  lemma UsableMeans(states: States, loads: Loads, cap: int, now: nat, creds: seq<Candidate>, c: Candidate)
    requires c in creds
    ensures Usable(SeedAll(states, creds), loads, cap, now, c) ==>
              && c.enabled
              && (c.cooldownUntil.None? || c.cooldownUntil.value <= now)
              && (c.id in states ==> states[c.id].cooldownUntil <= now)
              && (cap > 0 ==> c.id !in loads || loads[c.id] < cap)
    ensures Clear(states, loads, cap, now, creds, c) ==> Usable(SeedAll(states, creds), loads, cap, now, c)
  {
    SeedAllGrows(states, creds);
    if c.id !in states && c.id in SeedAll(states, creds) {
      SeededFromStored(states, creds, c.id);
    }
  }

  /** Seeding again changes nothing. */
  lemma SeedAllTwice(states: States, creds: seq<Candidate>)
    ensures SeedAll(SeedAll(states, creds), creds) == SeedAll(states, creds)
  {
    SeedAllGrows(states, creds);
    SeededAlready(SeedAll(states, creds), creds);
  }

  lemma {:induction false} SeededAlready(states: States, creds: seq<Candidate>)
    requires forall c :: c in creds && c.enabled ==> c.id in states
    ensures SeedAll(states, creds) == states
  {
    if creds != [] {
      assert creds[|creds| - 1] in creds;
      SeededAlready(states, creds[..|creds| - 1]);
    }
  }

  // ---------------------------------------------------------------------------
  // Least loaded, in cursor order

  predicate Least(counts: seq<nat>, i: nat)
    requires i < |counts|
  {
    forall j :: 0 <= j < |counts| ==> counts[i] <= counts[j]
  }

  function Spot(n: nat, start: nat, offset: nat): (spot: nat)
    requires 0 < n
    ensures spot < n
  {
    (start + offset) % n
  }

  /** The first least-loaded position at or after the cursor, wrapping around. */
  ghost predicate FirstLeast(counts: seq<nat>, start: nat, i: nat) {
    && i < |counts|
    && Least(counts, i)
    && exists offset: nat :: offset < |counts| && i == Spot(|counts|, start, offset) && NoneBefore(counts, start, offset)
  }

  ghost predicate NoneBefore(counts: seq<nat>, start: nat, offset: nat)
    requires 0 < |counts|
  {
    forall earlier: nat :: earlier < offset ==> !Least(counts, Spot(|counts|, start, earlier))
  }

  function Counts(loads: Loads, group: seq<Candidate>): (counts: seq<nat>)
    ensures |counts| == |group|
    ensures forall i :: 0 <= i < |group| ==> counts[i] == Load(loads, group[i].id)
  {
    seq(|group|, i requires 0 <= i < |group| => Load(loads, group[i].id))
  }

  /** How many steps after `from` a position's turn comes. */
  function Turn(n: nat, from: nat, i: nat): nat
    requires from < n
  {
    if i >= from then i - from else i + n - from
  }

  /** Everyone has q, and the first r in turn one more. */
  predicate Shared(counts: seq<nat>, from: nat, q: nat, r: nat)
    requires from < |counts|
  {
    r < |counts| && forall i :: 0 <= i < |counts| ==> counts[i] == q + if Turn(|counts|, from, i) < r then 1 else 0
  }

  lemma SpotWraps(n: nat, start: nat, offset: nat)
    requires start < n && offset < n
    ensures Spot(n, start, offset) == if start + offset < n then start + offset else start + offset - n
  {
  }

  /** From an even share, the least-loaded member in cursor order is the one whose turn it is. */
  lemma NextInTurn(counts: seq<nat>, from: nat, q: nat, r: nat, i: nat)
    requires from < |counts| && Shared(counts, from, q, r)
    requires FirstLeast(counts, Spot(|counts|, from, r), i)
    ensures i == Spot(|counts|, from, r)
  {
    var n := |counts|;
    var next := Spot(n, from, r);
    SpotWraps(n, from, r);
    SpotWraps(n, next, 0);
    assert Least(counts, next);
    var offset: nat :| offset < n && i == Spot(n, next, offset) && NoneBefore(counts, next, offset);
    assert offset == 0;
  }

  lemma NextShare(counts: seq<nat>, from: nat, q: nat, r: nat)
    requires from < |counts| && Shared(counts, from, q, r)
    ensures var i := Spot(|counts|, from, r);
            var after := counts[i := counts[i] + 1];
            if r + 1 == |counts| then Shared(after, from, q + 1, 0) && Spot(|counts|, i, 1) == from
            else Shared(after, from, q, r + 1) && Spot(|counts|, i, 1) == Spot(|counts|, from, r + 1)
  {
    var n := |counts|;
    SpotWraps(n, from, r);
    if n > 1 {
      SpotWraps(n, Spot(n, from, r), 1);
    }
    if r + 1 < n {
      SpotWraps(n, from, r + 1);
    }
  }

  /** Quotient and remainder are what they are. */
  lemma DivisionIs(m: nat, n: nat, q: nat, r: nat)
    requires r < n && m == q * n + r
    ensures m / n == q && m % n == r
  {
    var d, e := m / n, m % n;
    assert m == d * n + e && 0 <= e < n;
    if d < q {
      MultiplesGrow(d + 1, q, n);
      assert false;
    }
    if q < d {
      MultiplesGrow(q + 1, d, n);
      assert false;
    }
  }

  lemma MultiplesGrow(a: int, b: int, n: nat)
    requires a <= b
    ensures a * n <= b * n && a * n == (a - 1) * n + n
  {
  }

  // ---------------------------------------------------------------------------
  // The sticky ring

  predicate RingValid(sticky: map<string, Binding>, slots: seq<string>, cursor: nat) {
    && |slots| <= MAX_BINDINGS
    && (if |slots| < MAX_BINDINGS then cursor == 0 else cursor < |slots|)
    && forall key :: key in sticky ==> key in slots
  }

  /** Whatever the ring went through, it binds at most 10,000 keys. */
  lemma RingIsBounded(sticky: map<string, Binding>, slots: seq<string>, cursor: nat)
    requires RingValid(sticky, slots, cursor)
    ensures |sticky| <= 10_000
  {
    var named := set key | key in slots;
    NamesFit(slots);
    assert sticky.Keys <= named;
    SubsetIsSmaller(sticky.Keys, named);
  }

  lemma {:induction false} NamesFit(slots: seq<string>)
    ensures |set key | key in slots| <= |slots|
  {
    if slots != [] {
      var front := slots[..|slots| - 1];
      NamesFit(front);
      assert slots == front + [slots[|slots| - 1]];
      assert (set key | key in slots) == (set key | key in front) + {slots[|slots| - 1]};
    }
  }

  /** A dead binding, or one for a credential, can be dropped at any time. */
  function WithoutCredential(sticky: map<string, Binding>, credId: string): map<string, Binding> {
    map key | key in sticky && sticky[key].credId != credId :: sticky[key]
  }

  // ---------------------------------------------------------------------------
  // Cooldowns

  function TwoTo(n: nat): nat {
    if n == 0 then 1 else 2 * TwoTo(n - 1)
  }

  /** The cooldown before jitter. */
  function Cooldown(base: nat, max: nat, status: int, retryAfter: nat, failures: nat): nat {
    var top := if max < base then base else max;
    if status == 429 then
      if retryAfter > 0 then retryAfter
      else
        var d := base * TwoTo(if failures > 10 then 10 else failures);
        if d > top then top else d
    else if status == 402 then if retryAfter > 0 then retryAfter else top
    else if status == 403 then top
    else if status == 401 then if base * 4 > top then top else base * 4
    else if 500 <= status <= 599 then
      var d := if base / 10 < 15 * SECOND then 15 * SECOND else base / 10;
      if d > base then base else d
    else base
  }

  /** A random extra of at most a tenth. */
  function Jitter(d: nat, random: nat): (extra: nat)
    ensures extra <= d / 10
  {
    random % (d / 10 + 1)
  }

  /** Any jitter up to a tenth can happen. */
  lemma JitterIsAny(d: nat, extra: nat)
    requires extra <= d / 10
    ensures Jitter(d, extra) == extra
  {
  }

  lemma {:induction false} TwoToGrows(a: nat, b: nat)
    requires a <= b
    ensures 1 <= TwoTo(a) <= TwoTo(b)
    decreases b
  {
    if a < b {
      TwoToGrows(a, b - 1);
    } else if b > 0 {
      TwoToGrows(a - 1, b - 1);
    }
  }

  lemma Doubled(base: nat, p: nat, q: nat)
    requires 1 <= p <= q
    ensures base <= base * p <= base * q
  {
  }

  /** Repeated rate limits back off: never shorter than the base or than one
      failure earlier, never longer than the ceiling. */
  lemma BackoffGrows(base: nat, max: nat, failures: nat)
    requires 0 < base
    ensures base <= Cooldown(base, max, 429, 0, failures) <= Cooldown(base, max, 429, 0, failures + 1)
    ensures Cooldown(base, max, 429, 0, failures) <= if max < base then base else max
    ensures failures >= 10 ==> Cooldown(base, max, 429, 0, failures + 1) == Cooldown(base, max, 429, 0, failures)
  {
    var a := if failures > 10 then 10 else failures;
    var b := if failures + 1 > 10 then 10 else failures + 1;
    TwoToGrows(a, b);
    Doubled(base, TwoTo(a), TwoTo(b));
    hide TwoTo;
  }

  /** The rules by status: the provider's own wait is honoured to the letter; a
      denied or unpaid account waits for the ceiling, a refused token longer than an
      ordinary failure, a failing server no longer than one; none passes the ceiling. */
  lemma CooldownRules(base: nat, max: nat, status: int, retryAfter: nat, failures: nat)
    ensures var top, d := if max < base then base else max, Cooldown(base, max, status, retryAfter, failures);
            && ((status == 429 || status == 402) && retryAfter > 0 ==> d == retryAfter)
            && ((status == 402 && retryAfter == 0) || status == 403 ==> d == top)
            && (status == 401 ==> base <= d <= top && (d < top ==> d == 4 * base))
            && (500 <= status <= 599 ==>
                  d <= base && (d < base ==> d >= 15 * SECOND && 10 * d >= base - 9) && (d > 15 * SECOND ==> 10 * d <= base || d == base))
            && (status !in {401, 402, 403, 429} && !(500 <= status <= 599) ==> d == base)
            && (retryAfter == 0 || status !in {402, 429} ==> d <= top)
  {
  }

  // ---------------------------------------------------------------------------
  // Calls, for accounting

  datatype Call =
    | Picked(id: string)
    | Completed(id: string, how: Completion)
    | Kept(id: string)

  datatype Completion = ReleasedIt | FailedIt | ExhaustedIt | SucceededIt

  /** The in-flight counts after a history of calls: picks add one, completions
      take one off but never below zero, keeping a body open does nothing. */
  function LoadsAfter(log: seq<Call>): Loads {
    if log == [] then map[]
    else
      var before := LoadsAfter(log[..|log| - 1]);
      match log[|log| - 1]
      case Picked(id) => Reserved(before, id)
      case Completed(id, _) => Released(before, id)
      case Kept(_) => before
  }

  lemma KeepingChangesNoLoad(log: seq<Call>, id: string)
    ensures LoadsAfter(log + [Kept(id)]) == LoadsAfter(log)
  {
    assert (log + [Kept(id)])[..|log|] == log;
  }

  /** With a concurrency cap, no credential has more in flight than the cap. */
  ghost predicate WithinCap(loads: Loads, cap: int) {
    cap > 0 ==> forall id :: Load(loads, id) <= cap
  }

  lemma ReleasingStaysWithin(loads: Loads, id: string, cap: int)
    requires WithinCap(loads, cap)
    ensures WithinCap(Released(loads, id), cap)
  {
    forall other ensures cap > 0 ==> Load(Released(loads, id), other) <= cap {
      assert cap > 0 ==> Load(loads, other) <= cap;
    }
  }

  lemma UsableHasRoom(states: States, loads: Loads, cap: int, now: nat, c: Candidate)
    requires WithinCap(loads, cap) && Usable(states, loads, cap, now, c)
    ensures WithinCap(Reserved(loads, c.id), cap)
  {
    forall other ensures cap > 0 ==> Load(Reserved(loads, c.id), other) <= cap {
      assert cap > 0 ==> Load(loads, other) <= cap;
    }
  }

  // ---------------------------------------------------------------------------
  // The selector

  class Selector {
    const roundRobin: bool
    const stickyTTL: int
    const cooldownBase: nat
    const cooldownMax: nat
    const quotaCooldown: nat
    const quotaReserve: nat
    const maxConcurrent: int

    var rrIndex: nat
    var priorityRR: map<int, nat>
    var sticky: map<string, Binding>
    var slots: seq<string>
    var cursor: nat
    var states: States
    var inFlight: Loads

    ghost var log: seq<Call>

    constructor (strategy: string, stickySec: int, baseSec: int, maxSec: int, quotaSec: int, reserve: int,
        maxConcurrent: int)
      ensures Valid() && log == [] && states == map[] && inFlight == map[] && priorityRR == map[]
      ensures this.maxConcurrent == maxConcurrent && roundRobin == (strategy == "round_robin") && stickyTTL == stickySec * SECOND
      ensures 0 < cooldownBase && 0 < cooldownMax && 0 < quotaCooldown
      // What is configured is what is used, with defaults of five minutes, an hour and a week.
      ensures cooldownBase == (if baseSec > 0 then baseSec * SECOND else 300 * SECOND)
      ensures cooldownMax == (if maxSec > 0 then maxSec * SECOND else 3600 * SECOND)
      ensures quotaCooldown == (if quotaSec > 0 then quotaSec * SECOND else 604800 * SECOND)
      ensures reserve >= 0 ==> quotaReserve == reserve
      ensures sticky == map[] && slots == [] && cursor == 0 && rrIndex == 0
    {
      roundRobin := strategy == "round_robin";
      stickyTTL := stickySec * SECOND;
      cooldownBase := if baseSec <= 0 then 300 * SECOND else baseSec * SECOND;
      cooldownMax := if maxSec <= 0 then 3600 * SECOND else maxSec * SECOND;
      quotaCooldown := if quotaSec <= 0 then 7 * 24 * 3600 * SECOND else quotaSec * SECOND;
      quotaReserve := if reserve < 0 then 0 else reserve;
      this.maxConcurrent := maxConcurrent;
      rrIndex, priorityRR := 0, map[];
      sticky, slots, cursor := map[], [], 0;
      states, inFlight, log := map[], map[], [];
    }

    ghost predicate Valid()
      reads `sticky, `slots, `cursor, `inFlight, `log
    {
      && RingValid(sticky, slots, cursor)
      && inFlight == LoadsAfter(log)
      && WithinCap(inFlight, maxConcurrent)
    }

    // -------------------------------------------------------------------------
    // Sticky bindings

    predicate Live(key: string, now: nat)
      reads `sticky
    {
      key != "" && stickyTTL > 0 && key in sticky && sticky[key].expiresAt > now
    }

    /** The credential a live key is bound to; an expired binding is forgotten. */
    method GetSticky(key: string, now: nat) returns (bound: Option<string>)
      requires Valid()
      modifies `sticky
      ensures Valid()
      ensures bound == if old(Live(key, now)) then Some(old(sticky)[key].credId) else None
      ensures bound.Some? <==> key != "" && stickyTTL > 0 && key in old(sticky) && now < old(sticky)[key].expiresAt
      ensures sticky == if key != "" && stickyTTL > 0 && !old(Live(key, now)) then old(sticky) - {key} else old(sticky)
    {
      if key == "" || stickyTTL <= 0 {
        return None;
      }
      if key !in sticky {
        return None;
      }
      if sticky[key].expiresAt <= now {
        sticky := sticky - {key};
        return None;
      }
      return Some(sticky[key].credId);
    }

    /** Binds or refreshes a key. A new key takes a new slot, or the slot at the
        cursor once the ring is full; that slot's key is the only one evicted. */
    method BindSticky(key: string, credId: string, now: nat)
      requires Valid()
      modifies `sticky, `slots, `cursor
      ensures Valid()
      ensures key == "" || credId == "" || stickyTTL <= 0 ==> sticky == old(sticky) && slots == old(slots) && cursor == old(cursor)
      ensures key != "" && credId != "" && stickyTTL > 0 ==>
                var kept := if key !in old(sticky) && |old(slots)| == MAX_BINDINGS then old(sticky) - {old(slots)[old(cursor)]} else old(sticky);
                sticky == kept[key := Binding(credId, now + stickyTTL)]
      // The ring: a new key takes a new place, or the place of the oldest, and the next one is oldest then.
      ensures key != "" && credId != "" && stickyTTL > 0 ==>
                if key in old(sticky) then slots == old(slots) && cursor == old(cursor)
                else if |old(slots)| < MAX_BINDINGS then slots == old(slots) + [key] && cursor == old(cursor)
                else slots == old(slots)[old(cursor) := key] && cursor == if old(cursor) + 1 == MAX_BINDINGS then 0 else old(cursor) + 1
      ensures |old(slots)| <= |slots| <= |old(slots)| + 1
    {
      if key == "" || credId == "" || stickyTTL <= 0 {
        return;
      }
      if key !in sticky {
        if |slots| < MAX_BINDINGS {
          slots := slots + [key];
        } else {
          var evicted := slots[cursor];
          sticky := sticky - {evicted};
          TakesSlot(old(sticky), slots, cursor, key);
          slots := slots[cursor := key];
          cursor := (cursor + 1) % |slots|;
        }
      }
      sticky := sticky[key := Binding(credId, now + stickyTTL)];
    }

    method ClearStickyFor(credId: string)
      requires Valid()
      modifies `sticky
      ensures Valid()
      ensures sticky == if credId == "" then old(sticky) else WithoutCredential(old(sticky), credId)
      ensures credId != "" ==> forall key :: key in sticky <==> key in old(sticky) && old(sticky)[key].credId != credId
      ensures forall key :: key in sticky ==> sticky[key] == old(sticky)[key]
    {
      if credId == "" {
        return;
      }
      sticky := WithoutCredential(sticky, credId);
    }

    // -------------------------------------------------------------------------
    // Picking

    /** The enabled candidates that are neither cooling nor at their cap. */
    method Available(creds: seq<Candidate>, now: nat) returns (usable: seq<Candidate>)
      requires Valid()
      modifies `states
      ensures Valid()
      ensures states == SeedAll(old(states), creds)
      ensures usable == Filter(creds, UsableIn(states, inFlight, maxConcurrent, now))
      ensures forall c :: c in usable ==>
                && c in creds && c.enabled
                && (c.cooldownUntil.None? || c.cooldownUntil.value <= now)
                && (c.id in old(states) ==> old(states)[c.id].cooldownUntil <= now)
                && (maxConcurrent > 0 ==> c.id !in inFlight || inFlight[c.id] < maxConcurrent)
      ensures forall c :: Clear(old(states), inFlight, maxConcurrent, now, creds, c) ==> c in usable
    {
      usable := [];
      for i := 0 to |creds|
        invariant states == SeedAll(old(states), creds[..i])
        invariant usable == Filter(creds[..i], UsableIn(states, inFlight, maxConcurrent, now))
      {
        assert creds[..i + 1][..i] == creds[..i];
        var c := creds[i];
        ghost var before := states;
        states := Seed(states, c);
        SeedingKeeps(old(states), creds[..i], c, inFlight, maxConcurrent, now);
        if Usable(states, inFlight, maxConcurrent, now, c) {
          usable := usable + [c];
        }
      }
      assert creds[..|creds|] == creds;
      UsableMembers(creds, states, inFlight, maxConcurrent, now);
      forall c | c in creds
        ensures Usable(states, inFlight, maxConcurrent, now, c) ==>
                  && c.enabled
                  && (c.cooldownUntil.None? || c.cooldownUntil.value <= now)
                  && (c.id in old(states) ==> old(states)[c.id].cooldownUntil <= now)
                  && (maxConcurrent > 0 ==> c.id !in inFlight || inFlight[c.id] < maxConcurrent)
        ensures Clear(old(states), inFlight, maxConcurrent, now, creds, c) ==> Usable(states, inFlight, maxConcurrent, now, c)
      {
        UsableMeans(old(states), inFlight, maxConcurrent, now, creds, c);
      }
    }

    method PickByStrategy(usable: seq<Candidate>) returns (c: Candidate)
      requires usable != []
      modifies `rrIndex, `priorityRR
      ensures c in usable
      ensures ByStrategy(Preferred(usable, inFlight, quotaReserve), roundRobin, inFlight, old(rrIndex), old(priorityRR), c, rrIndex, priorityRR)
      ensures !roundRobin ==> forall other :: other in usable ==> Yields(other, c, inFlight, quotaReserve)
    {
      hide Filter, InPriorityTurn, Yields, Preferred;
      var pool := QuotaPreferred(usable, inFlight, quotaReserve);
      if roundRobin {
        var index := rrIndex % |pool|;
        rrIndex := (index + 1) % |pool|;
        c := pool[index];
      } else {
        ghost var cursors := priorityRR;
        c := PickPriorityRR(pool);
        forall other | other in usable ensures Yields(other, c, inFlight, quotaReserve) {
          PriorityPrefers(usable, inFlight, quotaReserve, cursors, c, priorityRR, other);
        }
      }
    }

    /** The first least-loaded member, from the cursor, of the highest priority present. */
    method PickPriorityRR(pool: seq<Candidate>) returns (c: Candidate)
      requires pool != []
      modifies `priorityRR
      ensures c in pool
      ensures InPriorityTurn(pool, inFlight, old(priorityRR), c, priorityRR)
    {
      hide Filter, FirstLeast;
      var top := TopPriority(pool);
      var group := Filter(pool, HasPriority(top));
      FilterKeeps(pool, HasPriority(top));
      assert group != [];
      var index := FirstLeastFrom(group, inFlight, Cursor(priorityRR, top) % |group|);
      priorityRR := priorityRR[top := (index + 1) % |group|];
      c := group[index];
    }

    /** Picks a usable credential and reserves it. A live sticky binding wins if
        its credential is usable; otherwise the strategy picks and the key is bound. */
    method Pick(creds: seq<Candidate>, stickyKey: string, now: nat) returns (picked: Option<Candidate>)
      requires Valid()
      modifies this
      ensures Valid()
      ensures states == SeedAll(old(states), creds)
      ensures var usable := Filter(creds, UsableIn(states, old(inFlight), maxConcurrent, now));
              && (picked.None? <==> usable == [])
              && (picked.Some? ==> picked.value in creds && Usable(states, old(inFlight), maxConcurrent, now, picked.value))
              && (picked.Some? && !OnSticky(old(sticky), old(Live(stickyKey, now)), stickyKey, usable) ==>
                    ByStrategy(Preferred(usable, old(inFlight), quotaReserve), roundRobin, old(inFlight),
                               old(rrIndex), old(priorityRR), picked.value, rrIndex, priorityRR))
              && (picked.Some? && OnSticky(old(sticky), old(Live(stickyKey, now)), stickyKey, usable) ==>
                    picked.value.id == old(sticky)[stickyKey].credId && rrIndex == old(rrIndex) && priorityRR == old(priorityRR)
                    && sticky == old(sticky))
      ensures picked.None? ==>
                && inFlight == old(inFlight) && log == old(log) && sticky == old(sticky)
                && rrIndex == old(rrIndex) && priorityRR == old(priorityRR)
      ensures picked.Some? ==> inFlight == Reserved(old(inFlight), picked.value.id) && log == old(log) + [Picked(picked.value.id)]
      ensures picked.Some? && stickyKey != "" && stickyTTL > 0 && picked.value.id != "" ==>
                stickyKey in sticky && sticky[stickyKey].credId == picked.value.id
      // In terms of the deadlines themselves, stored and remembered.
      ensures picked.Some? ==>
                && picked.value.enabled
                && (picked.value.cooldownUntil.None? || picked.value.cooldownUntil.value <= now)
                && (picked.value.id in old(states) ==> old(states)[picked.value.id].cooldownUntil <= now)
      ensures (exists c :: Clear(old(states), old(inFlight), maxConcurrent, now, creds, c)) ==> picked.Some?
      ensures stickyKey != "" && stickyTTL > 0 && stickyKey in old(sticky) && now < old(sticky)[stickyKey].expiresAt
              && (exists c :: Clear(old(states), old(inFlight), maxConcurrent, now, creds, c) && c.id == old(sticky)[stickyKey].credId) ==>
                picked.Some? && picked.value.id == old(sticky)[stickyKey].credId
      ensures picked.Some? && !roundRobin && (stickyKey == "" || stickyKey !in old(sticky)) ==>
                forall c :: Clear(old(states), old(inFlight), maxConcurrent, now, creds, c) ==>
                  Yields(c, picked.value, old(inFlight), quotaReserve)
      ensures forall id :: id in old(states) ==> id in states && states[id] == old(states)[id]
    {
      hide Filter, Usable, SeedAll, ByStrategy, Preferred, RingValid, Reserved, LoadsAfter, WithinCap, Clear, Yields;
      SeedAllGrows(states, creds);
      var usable := Available(creds, now);
      UsableMembers(creds, states, inFlight, maxConcurrent, now);
      if usable == [] {
        return None;
      }
      var c := Choose(usable, stickyKey, now);
      return Some(c);
    }

    /** Of the usable candidates the one a live binding names, or else the strategy's; it is reserved. */
    method Choose(usable: seq<Candidate>, stickyKey: string, now: nat) returns (c: Candidate)
      requires Valid() && usable != [] && forall c :: c in usable ==> Usable(states, inFlight, maxConcurrent, now, c)
      modifies `rrIndex, `priorityRR, `sticky, `slots, `cursor, `inFlight, `log
      ensures Valid() && c in usable
      ensures if OnSticky(old(sticky), old(Live(stickyKey, now)), stickyKey, usable) then
                c.id == old(sticky)[stickyKey].credId && rrIndex == old(rrIndex) && priorityRR == old(priorityRR) && sticky == old(sticky)
              else
                && ByStrategy(Preferred(usable, old(inFlight), quotaReserve), roundRobin, old(inFlight),
                              old(rrIndex), old(priorityRR), c, rrIndex, priorityRR)
                && (!roundRobin ==> forall other :: other in usable ==> Yields(other, c, old(inFlight), quotaReserve))
      ensures inFlight == Reserved(old(inFlight), c.id) && log == old(log) + [Picked(c.id)]
      ensures stickyKey != "" && stickyTTL > 0 && c.id != "" ==> stickyKey in sticky && sticky[stickyKey].credId == c.id
    {
      hide Filter, Usable, ByStrategy, Preferred, RingValid, Reserved, LoadsAfter, WithinCap, Yields;
      if stickyKey != "" {
        var bound := GetSticky(stickyKey, now);
        if bound.Some? {
          var found := FindById(usable, bound.value);
          if found.Some? {
            UsableHasRoom(states, inFlight, maxConcurrent, now, found.value);
            Reserve(found.value.id);
            return found.value;
          }
        }
      }
      c := PickByStrategy(usable);
      if stickyKey != "" {
        BindSticky(stickyKey, c.id, now);
      }
      UsableHasRoom(states, inFlight, maxConcurrent, now, c);
      Reserve(c.id);
    }

    method Reserve(id: string)
      requires Valid() && WithinCap(Reserved(inFlight, id), maxConcurrent)
      modifies `inFlight, `log
      ensures Valid()
      ensures inFlight == Reserved(old(inFlight), id) && log == old(log) + [Picked(id)]
    {
      assert (log + [Picked(id)])[..|log|] == log;
      inFlight := Reserved(inFlight, id);
      log := log + [Picked(id)];
    }

    method CompleteIt(id: string, ghost how: Completion)
      requires Valid()
      modifies `inFlight, `log
      ensures Valid()
      ensures inFlight == Released(old(inFlight), id) && log == old(log) + [Completed(id, how)]
    {
      ghost var call := Completed(id, how);
      ReleasingStaysWithin(inFlight, id, maxConcurrent);
      assert (log + [call])[..|log|] == log;
      inFlight := Released(inFlight, id);
      log := log + [call];
    }

    // -------------------------------------------------------------------------
    // Marks

    /** Completes an attempt that ended before success or a classified failure. */
    method Release(id: string)
      requires Valid()
      modifies `inFlight, `log
      ensures Valid()
      ensures id == "" ==> inFlight == old(inFlight) && log == old(log)
      ensures id != "" ==> inFlight == Released(old(inFlight), id) && log == old(log) + [Completed(id, ReleasedIt)]
    {
      if id == "" {
        return;
      }
      CompleteIt(id, ReleasedIt);
    }

    /** Clears failure and cooldown and refreshes the sticky binding; a held
        success leaves the reservation to the response body. */
    method MarkSuccess(id: string, stickyKey: string, now: nat, release: bool) returns (persist: Option<Snapshot>)
      requires Valid()
      modifies this
      ensures Valid()
      ensures id == "" ==> log == old(log) && inFlight == old(inFlight) && states == old(states) && persist.None?
      ensures id != "" ==>
                && log == old(log) + [if release then Completed(id, SucceededIt) else Kept(id)]
                && inFlight == (if release then Released(old(inFlight), id) else old(inFlight))
                && states == old(states)[id := AfterSuccess(StateOf(old(states), id), now)]
                && persist == (if NeedsPersist(StateOf(old(states), id), now)
                               then Some(Snapshot(states[id].version, 0, None, "", Some(ToSecond(now)))) else None)
      ensures id != "" && stickyKey != "" && stickyTTL > 0 ==>
                var full := stickyKey !in old(sticky) && |old(slots)| == MAX_BINDINGS;
                var kept := if full then old(sticky) - {old(slots)[old(cursor)]} else old(sticky);
                sticky == kept[stickyKey := Binding(id, now + stickyTTL)]
      ensures id == "" || stickyKey == "" || stickyTTL <= 0 ==> sticky == old(sticky)
      ensures rrIndex == old(rrIndex) && priorityRR == old(priorityRR)
      ensures id != "" ==>
                && id in states && states[id].failureCount == 0 && states[id].cooldownUntil == 0 && states[id].lastError == ""
                && (persist.Some? <==> states[id].version != StateOf(old(states), id).version)
                && (persist.None? ==> states[id] == StateOf(old(states), id))
                && (persist.Some? ==> persist.value.lastSuccessAt == Some(states[id].successPersistedAt))
    {
      hide RingValid, WithinCap, LoadsAfter, AfterSuccess, NeedsPersist, ToSecond, Released;
      persist := None;
      if id == "" {
        return;
      }
      if release {
        CompleteIt(id, SucceededIt);
      } else {
        KeepingChangesNoLoad(log, id);
        log := log + [Kept(id)];
      }
      var st := StateOf(states, id);
      SuccessClears(st, now);
      states := states[id := AfterSuccess(st, now)];
      if stickyKey != "" {
        BindSticky(stickyKey, id, now);
      }
      if NeedsPersist(st, now) {
        persist := Some(Snapshot(states[id].version, 0, None, "", Some(ToSecond(now))));
      }
    }

    /** Records a failure: a cooldown by status with up to a tenth of jitter, and
        no sticky traffic to a credential the provider refused. */
    method MarkFailure(id: string, status: int, retryAfter: nat, random: nat, now: nat) returns (persist: Option<Snapshot>)
      requires Valid()
      modifies this
      ensures Valid()
      ensures id == "" ==> log == old(log) && inFlight == old(inFlight) && states == old(states) && sticky == old(sticky) && persist.None?
      ensures id != "" ==>
                var was := StateOf(old(states), id);
                var d := Cooldown(cooldownBase, cooldownMax, status, retryAfter, was.failureCount);
                var until := now + d + Jitter(d, random);
                && log == old(log) + [Completed(id, FailedIt)] && inFlight == Released(old(inFlight), id)
                && states == old(states)[id := was.(failureCount := was.failureCount + 1, cooldownUntil := until,
                                                    lastError := ErrorText(status), version := was.version + 1)]
                && sticky == (if status in {401, 402, 403, 429} then WithoutCredential(old(sticky), id) else old(sticky))
                && persist == Some(Snapshot(was.version + 1, was.failureCount + 1, Some(ToSecond(until)), ErrorText(status), None))
      ensures rrIndex == old(rrIndex) && priorityRR == old(priorityRR)
      ensures id != "" && status in {401, 402, 403, 429} ==> forall key :: key in sticky <==> key in old(sticky) && old(sticky)[key].credId != id
      ensures forall key :: key in sticky ==> sticky[key] == old(sticky)[key]
      ensures id != "" ==> persist.Some? && id in states && now <= states[id].cooldownUntil
    {
      hide RingValid, WithinCap, Cooldown, Jitter, WithoutCredential, ErrorText;
      persist := None;
      if id == "" {
        return;
      }
      CompleteIt(id, FailedIt);
      var st := StateOf(states, id);
      var d := Cooldown(cooldownBase, cooldownMax, status, retryAfter, st.failureCount);
      var until := now + d + Jitter(d, random);
      var after := st.(failureCount := st.failureCount + 1, cooldownUntil := until, lastError := ErrorText(status), version := st.version + 1);
      states := states[id := after];
      if status == 401 || status == 402 || status == 403 || status == 429 {
        ClearStickyFor(id);
      }
      persist := Some(Snapshot(after.version, after.failureCount, Some(ToSecond(until)), after.lastError, None));
    }

    /** A spent quota: cooled until the known reset, or the configured fallback. */
    method MarkQuotaExhaustedUntil(id: string, now: nat, resetAt: nat) returns (persist: Option<Snapshot>)
      requires Valid()
      modifies this
      ensures Valid()
      ensures id == "" ==> log == old(log) && inFlight == old(inFlight) && states == old(states) && sticky == old(sticky) && persist.None?
      ensures id != "" ==>
                var was := StateOf(old(states), id);
                var until := if resetAt > now then resetAt else now + quotaCooldown;
                && log == old(log) + [Completed(id, ExhaustedIt)] && inFlight == Released(old(inFlight), id)
                && states == old(states)[id := was.(failureCount := was.failureCount + 1, cooldownUntil := until,
                                                    lastError := "quota_exhausted", version := was.version + 1)]
                && sticky == WithoutCredential(old(sticky), id)
                && persist == Some(Snapshot(was.version + 1, was.failureCount + 1, Some(ToSecond(until)), "quota_exhausted", None))
      ensures rrIndex == old(rrIndex) && priorityRR == old(priorityRR)
      ensures id != "" ==> forall key :: key in sticky <==> key in old(sticky) && old(sticky)[key].credId != id
      ensures forall key :: key in sticky ==> sticky[key] == old(sticky)[key]
      ensures id != "" ==> persist.Some? && id in states && states[id].cooldownUntil == if resetAt > now then resetAt else now + quotaCooldown
    {
      hide RingValid, WithinCap, WithoutCredential;
      persist := None;
      if id == "" {
        return;
      }
      CompleteIt(id, ExhaustedIt);
      var st := StateOf(states, id);
      var until := if resetAt > now then resetAt else now + quotaCooldown;
      var after := st.(failureCount := st.failureCount + 1, cooldownUntil := until, lastError := "quota_exhausted", version := st.version + 1);
      states := states[id := after];
      ClearStickyFor(id);
      persist := Some(Snapshot(after.version, after.failureCount, Some(ToSecond(until)), after.lastError, None));
    }
  }

  function StateOf(states: States, id: string): Health {
    if id in states then states[id] else UNSEEN
  }

  function ToSecond(t: nat): (second: nat)
    ensures second <= t < second + SECOND && second % SECOND == 0
  {
    t - t % SECOND
  }

  function ErrorText(status: int): string {
    if status > 0 then "http " + Decimal(status) else "network error"
  }

  predicate NeedsPersist(st: Health, now: nat) {
    st.failureCount != 0 || st.cooldownUntil != 0 || st.lastError != "" || st.successPersistedAt == 0
    || now < st.successPersistedAt || now - st.successPersistedAt >= PERSIST_INTERVAL
  }

  function AfterSuccess(st: Health, now: nat): Health {
    if NeedsPersist(st, now) then Health(0, 0, "", ToSecond(now), st.version + 1)
    else Health(0, 0, "", st.successPersistedAt, st.version)
  }

  /** A success clears failure, error and deadline, and raises the version exactly
      when there is something to store; otherwise it changes nothing. */
  lemma SuccessClears(st: Health, now: nat)
    ensures var after := AfterSuccess(st, now);
            && after.failureCount == 0 && after.cooldownUntil == 0 && after.lastError == ""
            && (if NeedsPersist(st, now) then after.version == st.version + 1 else after == st)
            && (st.failureCount != 0 || st.cooldownUntil != 0 || st.lastError != "" ==> NeedsPersist(st, now))
            // A clean record is stored again after half a minute, or when the clock has gone back.
            && (st == Health(0, 0, "", st.successPersistedAt, st.version) ==>
                  (NeedsPersist(st, now) <==>
                     st.successPersistedAt == 0 || now < st.successPersistedAt || st.successPersistedAt + 30_000_000_000 <= now))
            && (NeedsPersist(st, now) ==>
                  after.successPersistedAt == ToSecond(now) && after.successPersistedAt <= now < after.successPersistedAt + 1_000_000_000)
  {
  }

  function Preferred(usable: seq<Candidate>, loads: Loads, reserve: nat): (pool: seq<Candidate>)
    ensures usable != [] ==> pool != []
    ensures forall c :: c in pool ==> c in usable
  {
    FilterKeeps(usable, RoomIn(loads, reserve));
    var roomy := Filter(usable, RoomIn(loads, reserve));
    if roomy != [] then roomy else usable
  }

  /** Candidates with room left under their advertised request budget, or all when none has. */
  method QuotaPreferred(usable: seq<Candidate>, loads: Loads, reserve: nat) returns (pool: seq<Candidate>)
    ensures pool == Preferred(usable, loads, reserve)
  {
    pool := [];
    for i := 0 to |usable|
      invariant pool == Filter(usable[..i], RoomIn(loads, reserve))
    {
      assert usable[..i + 1][..i] == usable[..i];
      var c := usable[i];
      if c.remaining.None? || c.remaining.value > Load(loads, c.id) + reserve {
        pool := pool + [c];
      }
    }
    assert usable[..|usable|] == usable;
    if pool == [] {
      pool := usable;
    }
  }

  function Cursor(cursors: map<int, nat>, priority: int): nat {
    if priority in cursors then cursors[priority] else 0
  }

  /** A priority pick: highest priority, least loaded, first from that priority's cursor. */
  ghost predicate InPriorityTurn(pool: seq<Candidate>, loads: Loads, cursors: map<int, nat>, c: Candidate,
      next: map<int, nat>) {
    var group := Filter(pool, HasPriority(c.priority));
    var start := Cursor(cursors, c.priority);
    && (forall other :: other in pool ==> other.priority <= c.priority)
    && exists i: nat :: i < |group| && group[i] == c
         && FirstLeast(Counts(loads, group), Spot(|group|, start, 0), i)
         && next == cursors[c.priority := Spot(|group|, i, 1)]
  }

  ghost predicate ByStrategy(pool: seq<Candidate>, roundRobin: bool, loads: Loads, rr: nat,
      cursors: map<int, nat>, c: Candidate, rrNext: nat, cursorsNext: map<int, nat>)
    requires pool != []
  {
    if roundRobin then
      c == pool[rr % |pool|] && rrNext == (rr % |pool| + 1) % |pool| && cursorsNext == cursors
    else
      rrNext == rr && InPriorityTurn(pool, loads, cursors, c, cursorsNext)
  }

  /** A candidate that yields to another has no room left where the other has, or
      ranks lower, or ranks the same and has at least as much in flight. */
  predicate Yields(other: Candidate, c: Candidate, loads: Loads, reserve: nat) {
    var room := c.remaining.None? || c.remaining.value > Load(loads, c.id) + reserve;
    var otherRoom := other.remaining.None? || other.remaining.value > Load(loads, other.id) + reserve;
    && (otherRoom ==> room)
    && (otherRoom == room ==> other.priority < c.priority || (other.priority == c.priority && Load(loads, c.id) <= Load(loads, other.id)))
  }

  lemma PriorityPrefers(usable: seq<Candidate>, loads: Loads, reserve: nat, cursors: map<int, nat>,
      c: Candidate, next: map<int, nat>, other: Candidate)
    requires other in usable && c in Preferred(usable, loads, reserve)
    requires InPriorityTurn(Preferred(usable, loads, reserve), loads, cursors, c, next)
    ensures Yields(other, c, loads, reserve)
  {
    FilterKeeps(usable, RoomIn(loads, reserve));
    if other in Preferred(usable, loads, reserve) {
      TurnPrefers(Preferred(usable, loads, reserve), loads, cursors, c, next, other);
    }
  }

  lemma TurnPrefers(pool: seq<Candidate>, loads: Loads, cursors: map<int, nat>, c: Candidate, next: map<int, nat>, other: Candidate)
    requires other in pool && InPriorityTurn(pool, loads, cursors, c, next)
    ensures other.priority < c.priority || (other.priority == c.priority && Load(loads, c.id) <= Load(loads, other.id))
  {
    hide FirstLeast, Load;
    var group := Filter(pool, HasPriority(c.priority));
    FilterKeeps(pool, HasPriority(c.priority));
    var i: nat :| i < |group| && group[i] == c && FirstLeast(Counts(loads, group), Spot(|group|, Cursor(cursors, c.priority), 0), i);
    LeastOfAll(loads, group, Spot(|group|, Cursor(cursors, c.priority), 0), i);
    if other.priority == c.priority {
      assert other in group;
    }
  }

  lemma LeastOfAll(loads: Loads, group: seq<Candidate>, start: nat, i: nat)
    requires i < |group| && FirstLeast(Counts(loads, group), start, i)
    ensures forall other :: other in group ==> Load(loads, group[i].id) <= Load(loads, other.id)
  {
    forall other | other in group ensures Load(loads, group[i].id) <= Load(loads, other.id) {
      var j :| 0 <= j < |group| && group[j] == other;
      assert Counts(loads, group)[i] <= Counts(loads, group)[j];
    }
  }

  predicate OnSticky(sticky: map<string, Binding>, live: bool, key: string, usable: seq<Candidate>) {
    live && key in sticky && exists c | c in usable :: c.id == sticky[key].credId
  }

  method FindById(creds: seq<Candidate>, id: string) returns (found: Option<Candidate>)
    ensures found.Some? <==> exists c :: c in creds && c.id == id
    ensures found.Some? ==> found.value in creds && found.value.id == id
  {
    for i := 0 to |creds|
      invariant forall k :: 0 <= k < i ==> creds[k].id != id
    {
      if creds[i].id == id {
        return Some(creds[i]);
      }
    }
    return None;
  }

  method TopPriority(pool: seq<Candidate>) returns (top: int)
    requires pool != []
    ensures exists c :: c in pool && c.priority == top
    ensures forall c :: c in pool ==> c.priority <= top
  {
    top := pool[0].priority;
    for i := 1 to |pool|
      invariant exists c :: c in pool && c.priority == top
      invariant forall k :: 0 <= k < i ==> pool[k].priority <= top
    {
      if pool[i].priority > top {
        top := pool[i].priority;
      }
    }
  }

  method LeastLoad(group: seq<Candidate>, loads: Loads) returns (least: nat)
    requires group != []
    ensures exists i :: 0 <= i < |group| && Load(loads, group[i].id) == least
    ensures forall i :: 0 <= i < |group| ==> least <= Load(loads, group[i].id)
  {
    least := Load(loads, group[0].id);
    for i := 1 to |group|
      invariant exists k :: 0 <= k < |group| && Load(loads, group[k].id) == least
      invariant forall k :: 0 <= k < i ==> least <= Load(loads, group[k].id)
    {
      if Load(loads, group[i].id) < least {
        least := Load(loads, group[i].id);
      }
    }
  }

  lemma SomeoneIsLeast(counts: seq<nat>, start: nat, least: nat)
    requires start < |counts| && exists i :: 0 <= i < |counts| && counts[i] == least
    requires forall i :: 0 <= i < |counts| ==> least <= counts[i]
    ensures !NoneBefore(counts, start, |counts|)
  {
    var i :| 0 <= i < |counts| && counts[i] == least;
    var offset := Turn(|counts|, start, i);
    SpotWraps(|counts|, start, offset);
    assert Least(counts, Spot(|counts|, start, offset));
  }

  method FirstLeastFrom(group: seq<Candidate>, loads: Loads, start: nat) returns (index: nat)
    requires start < |group|
    ensures index < |group| && FirstLeast(Counts(loads, group), start, index)
  {
    hide Load;
    var least := LeastLoad(group, loads);
    ghost var counts := Counts(loads, group);
    var offset := 0;
    while offset < |group|
      invariant 0 <= offset <= |group|
      invariant NoneBefore(counts, start, offset)
    {
      index := (start + offset) % |group|;
      assert index == Spot(|counts|, start, offset);
      if Load(loads, group[index].id) == least {
        assert Least(counts, index);
        return;
      }
      offset := offset + 1;
    }
    SomeoneIsLeast(counts, start, least);
    assert false;
  }

  lemma UsableMembers(creds: seq<Candidate>, states: States, loads: Loads, cap: int, now: nat)
    ensures forall c :: c in Filter(creds, UsableIn(states, loads, cap, now)) <==> c in creds && Usable(states, loads, cap, now, c)
  {
  }

  lemma SeedingKeeps(states: States, creds: seq<Candidate>, c: Candidate, loads: Loads, cap: int, now: nat)
    ensures var before := SeedAll(states, creds);
            Filter(creds, UsableIn(Seed(before, c), loads, cap, now)) == Filter(creds, UsableIn(before, loads, cap, now))
  {
    SeedAllGrows(states, creds);
    var before := SeedAll(states, creds);
    FilterAgree(creds, UsableIn(Seed(before, c), loads, cap, now), UsableIn(before, loads, cap, now));
  }

  lemma TakesSlot(sticky: map<string, Binding>, slots: seq<string>, cursor: nat, key: string)
    requires cursor < |slots| && forall other :: other in sticky ==> other in slots
    ensures forall other :: other in sticky - {slots[cursor]} ==> other in slots[cursor := key]
    ensures key in slots[cursor := key]
  {
    var after := slots[cursor := key];
    assert after[cursor] == key;
    forall other | other in sticky - {slots[cursor]} ensures other in after {
      var k :| 0 <= k < |slots| && slots[k] == other;
      assert after[k] == other;
    }
  }

  // ---------------------------------------------------------------------------
  // Balance

  predicate Even(creds: seq<Candidate>, priority: int) {
    && (forall i :: 0 <= i < |creds| ==> creds[i].priority == priority && creds[i].enabled && creds[i].remaining.None? && creds[i].id != "")
    && (forall i, j :: 0 <= i < j < |creds| ==> creds[i].id != creds[j].id)
  }

  predicate NoneCooling(states: States, creds: seq<Candidate>, now: nat) {
    forall c :: c in creds ==> !Cooling(states, c, now)
  }

  /** In an even pool every candidate is in play at every stage of the choice. */
  lemma EvenPool(creds: seq<Candidate>, states: States, loads: Loads, cap: int, now: nat, reserve: nat, priority: int)
    requires Even(creds, priority) && NoneCooling(states, creds, now) && cap <= 0
    ensures Filter(creds, UsableIn(states, loads, cap, now)) == creds
    ensures Preferred(creds, loads, reserve) == creds
    ensures Filter(creds, HasPriority(priority)) == creds
  {
    FilterKeeps(creds, UsableIn(states, loads, cap, now));
    FilterKeeps(creds, RoomIn(loads, reserve));
    FilterKeeps(creds, HasPriority(priority));
  }

  lemma OneMore(creds: seq<Candidate>, priority: int, loads: Loads, i: nat)
    requires Even(creds, priority) && i < |creds|
    ensures Counts(Reserved(loads, creds[i].id), creds) == Counts(loads, creds)[i := Counts(loads, creds)[i] + 1]
  {
  }

  method PickEvenly(s: Selector, creds: seq<Candidate>, priority: int, now: nat, ghost from: nat, ghost q: nat, ghost r: nat)
    requires s.Valid() && !s.roundRobin && s.maxConcurrent <= 0
    requires creds != [] && Even(creds, priority) && from < |creds|
    requires NoneCooling(SeedAll(s.states, creds), creds, now)
    requires Shared(Counts(s.inFlight, creds), from, q, r)
    requires Spot(|creds|, Cursor(s.priorityRR, priority), 0) == Spot(|creds|, from, r)
    modifies s
    ensures s.Valid() && s.states == SeedAll(old(s.states), creds)
    ensures if r + 1 == |creds| then Shared(Counts(s.inFlight, creds), from, q + 1, 0)
            else Shared(Counts(s.inFlight, creds), from, q, r + 1)
    ensures Spot(|creds|, Cursor(s.priorityRR, priority), 0) == if r + 1 == |creds| then from else Spot(|creds|, from, r + 1)
  {
    hide Filter, SeedAll, Usable, UsableIn, Preferred, LoadsAfter, RingValid, Shared, FirstLeast, Spot, Reserved, Turn, Selector.Valid;
    EvenPool(creds, SeedAll(s.states, creds), s.inFlight, s.maxConcurrent, now, s.quotaReserve, priority);
    ghost var counts := Counts(s.inFlight, creds);
    ghost var loads, cursors := s.inFlight, s.priorityRR;
    var picked := s.Pick(creds, "", now);
    var c := picked.value;
    ghost var i := TurnOf(creds, priority, loads, cursors, c, s.priorityRR, from, q, r);
    OneMore(creds, priority, loads, i);
    NextShare(counts, from, q, r);
  }

  lemma TurnOf(creds: seq<Candidate>, priority: int, loads: Loads, cursors: map<int, nat>, c: Candidate,
      next: map<int, nat>, from: nat, q: nat, r: nat) returns (i: nat)
    requires Even(creds, priority) && from < |creds| && Filter(creds, HasPriority(priority)) == creds && c in creds
    requires Shared(Counts(loads, creds), from, q, r)
    requires InPriorityTurn(creds, loads, cursors, c, next)
    requires Spot(|creds|, Cursor(cursors, priority), 0) == Spot(|creds|, from, r)
    ensures i < |creds| && creds[i] == c && i == Spot(|creds|, from, r)
    ensures Spot(|creds|, Cursor(next, priority), 0) == Spot(|creds|, i, 1)
  {
    hide FirstLeast, Shared, Spot, Filter;
    i :| i < |creds| && creds[i] == c && FirstLeast(Counts(loads, creds), Spot(|creds|, Cursor(cursors, priority), 0), i)
         && next == cursors[priority := Spot(|creds|, i, 1)];
    NextInTurn(Counts(loads, creds), from, q, r, i);
    SpotWraps(|creds|, Spot(|creds|, i, 1), 0);
  }

  /** Any number m of picks from an idle even pool, one at each of `times`, none
      completed: everyone holds floor(m/n) or ceil(m/n), and the extra ones follow
      the cursor, whether or not the selector has seen the candidates before. */
  method PickBurst(s: Selector, creds: seq<Candidate>, priority: int, times: seq<nat>)
    requires s.Valid() && !s.roundRobin && s.maxConcurrent <= 0
    requires creds != [] && Even(creds, priority)
    requires forall k :: 0 <= k < |times| ==> NoneCooling(SeedAll(s.states, creds), creds, times[k])
    requires forall c :: c in creds ==> Load(s.inFlight, c.id) == 0
    modifies s
    ensures s.Valid()
    ensures var n, m := |creds|, |times|;
            var from := Spot(n, Cursor(old(s.priorityRR), priority), 0);
            forall i :: 0 <= i < n ==>
              Load(s.inFlight, creds[i].id) == m / n + if Turn(n, from, i) < m % n then 1 else 0
  {
    hide Filter, SeedAll, Usable, UsableIn, Preferred, LoadsAfter, RingValid, FirstLeast, Spot, Turn, Shared, Selector.Valid,
      NoneCooling, Load, Even, Cursor;
    var n := |creds|;
    ghost var from := Spot(n, Cursor(s.priorityRR, priority), 0);
    ghost var q, r := 0, 0;
    SpotWraps(n, from, 0);
    IdleIsShared(s.inFlight, creds, from);
    SeedAllTwice(s.states, creds);
    for k := 0 to |times|
      invariant s.Valid() && SeedAll(s.states, creds) == SeedAll(old(s.states), creds)
      invariant k == q * n + r && r < n
      invariant Shared(Counts(s.inFlight, creds), from, q, r)
      invariant Spot(n, Cursor(s.priorityRR, priority), 0) == Spot(n, from, r)
    {
      PickEvenly(s, creds, priority, times[k], from, q, r);
      if r + 1 == n {
        q, r := q + 1, 0;
      } else {
        r := r + 1;
      }
    }
    DivisionIs(|times|, n, q, r);
    SharedCounts(s.inFlight, creds, from, q, r);
  }

  lemma IdleIsShared(loads: Loads, creds: seq<Candidate>, from: nat)
    requires from < |creds| && forall c :: c in creds ==> Load(loads, c.id) == 0
    ensures Shared(Counts(loads, creds), from, 0, 0)
  {
  }

  lemma SharedCounts(loads: Loads, creds: seq<Candidate>, from: nat, q: nat, r: nat)
    requires from < |creds| && Shared(Counts(loads, creds), from, q, r)
    ensures forall i :: 0 <= i < |creds| ==> Load(loads, creds[i].id) == q + if Turn(|creds|, from, i) < r then 1 else 0
  {
  }

  lemma FreshPoolIsReady(creds: seq<Candidate>, now: nat)
    requires forall c :: c in creds ==> OrZero(c.cooldownUntil) <= now
    ensures NoneCooling(SeedAll(map[], creds), creds, now)
  {
    forall c | c in creds ensures !Cooling(SeedAll(map[], creds), c, now) {
      if c.id in SeedAll(map[], creds) {
        SeededFromStored(map[], creds, c.id);
      }
    }
  }

  /** From start-up: a selector that has seen nothing balances the pool at once. */
  method BurstFromStart(creds: seq<Candidate>, priority: int, times: seq<nat>) returns (s: Selector)
    requires creds != [] && Even(creds, priority)
    requires forall c, k :: c in creds && 0 <= k < |times| ==> OrZero(c.cooldownUntil) <= times[k]
    ensures s.Valid()
    ensures forall i :: 0 <= i < |creds| ==>
              Load(s.inFlight, creds[i].id) == |times| / |creds| + if i < |times| % |creds| then 1 else 0
  {
    s := new Selector("priority_rr", 0, 0, 0, 0, 0, 0);
    forall k | 0 <= k < |times| ensures NoneCooling(SeedAll(s.states, creds), creds, times[k]) {
      FreshPoolIsReady(creds, times[k]);
    }
    SpotWraps(|creds|, 0, 0);
    PickBurst(s, creds, priority, times);
  }

  /** Where a round-robin cursor stands after k picks. */
  function Round(n: nat, start: nat, k: nat): (place: nat)
    requires 0 < n
    ensures place < n
  {
    if k == 0 then start % n else if Round(n, start, k - 1) + 1 == n then 0 else Round(n, start, k - 1) + 1
  }

  method PickRound(s: Selector, creds: seq<Candidate>, priority: int, now: nat, ghost start: nat, ghost k: nat) returns (id: string)
    requires s.Valid() && s.roundRobin && s.maxConcurrent <= 0
    requires creds != [] && Even(creds, priority)
    requires NoneCooling(SeedAll(s.states, creds), creds, now)
    requires s.rrIndex % |creds| == Round(|creds|, start, k)
    modifies s
    ensures s.Valid() && s.states == SeedAll(old(s.states), creds)
    ensures id == creds[Round(|creds|, start, k)].id && s.rrIndex % |creds| == Round(|creds|, start, k + 1)
  {
    hide Filter, SeedAll, Usable, UsableIn, Preferred, LoadsAfter, RingValid, Reserved, Selector.Valid, NoneCooling, Even, Clear, Yields,
      InPriorityTurn, Round;
    EvenPool(creds, SeedAll(s.states, creds), s.inFlight, s.maxConcurrent, now, s.quotaReserve, priority);
    RoundGoesOn(|creds|, start, k);
    var picked := s.Pick(creds, "", now);
    id := picked.value.id;
  }

  /** Plain round-robin takes a steady pool in turn, whatever the loads. */
  method RoundRobinTurns(s: Selector, creds: seq<Candidate>, priority: int, times: seq<nat>) returns (picks: seq<string>)
    requires s.Valid() && s.roundRobin && s.maxConcurrent <= 0
    requires creds != [] && Even(creds, priority)
    requires forall k :: 0 <= k < |times| ==> NoneCooling(SeedAll(s.states, creds), creds, times[k])
    modifies s
    ensures s.Valid() && |picks| == |times|
    ensures forall k :: 0 <= k < |times| ==> picks[k] == creds[Round(|creds|, old(s.rrIndex), k)].id
  {
    hide SeedAll, Selector.Valid, NoneCooling, Even, Round;
    picks := [];
    ghost var start := s.rrIndex;
    assert start % |creds| == Round(|creds|, start, 0) by { RoundStarts(|creds|, start); }
    SeedAllTwice(s.states, creds);
    for k := 0 to |times|
      invariant s.Valid() && |picks| == k
      invariant SeedAll(s.states, creds) == SeedAll(old(s.states), creds)
      invariant s.rrIndex % |creds| == Round(|creds|, start, k)
      invariant forall j :: 0 <= j < k ==> picks[j] == creds[Round(|creds|, start, j)].id
    {
      SeedAllTwice(s.states, creds);
      var id := PickRound(s, creds, priority, times[k], start, k);
      picks := picks + [id];
    }
  }

  lemma RoundGoesOn(n: nat, start: nat, k: nat)
    requires 0 < n
    ensures (Round(n, start, k) + 1) % n == Round(n, start, k + 1)
    ensures Round(n, start, k + 1) % n == Round(n, start, k + 1)
  {
    var here, next := Round(n, start, k), Round(n, start, k + 1);
    assert next == if here + 1 == n then 0 else here + 1;
    hide Round;
    NextPlace(n, here);
  }

  lemma NextPlace(n: nat, here: nat)
    requires here < n
    ensures var next := if here + 1 == n then 0 else here + 1;
            (here + 1) % n == next && next % n == next
  {
  }

  lemma RoundStarts(n: nat, start: nat)
    requires 0 < n
    ensures start % n == Round(n, start, 0)
  {
  }

  // ---------------------------------------------------------------------------
  // Successes are stored sparingly

  /** Once a success was handed out to be stored no later one is, for as long as half
      a minute from the stored second and nothing but successes in between. */
  method SuccessesAreThrottled(s: Selector, id: string, stickyKey: string, release: bool, at: nat,
      times: seq<nat>) returns (first: Option<Snapshot>, later: seq<Option<Snapshot>>)
    requires s.Valid() && id != "" && SECOND <= at
    requires forall k :: 0 <= k < |times| ==> at <= times[k] && times[k] + SECOND <= at + PERSIST_INTERVAL
    modifies s
    ensures s.Valid() && |later| == |times|
    ensures first.Some? ==> forall k :: 0 <= k < |later| ==> later[k].None?
  {
    hide Selector.Valid, NeedsPersist, AfterSuccess, ToSecond, Released;
    SuccessClears(StateOf(s.states, id), at);
    first := s.MarkSuccess(id, stickyKey, at, release);
    ghost var st := s.states[id];
    later := [];
    for k := 0 to |times|
      invariant s.Valid() && |later| == k
      invariant first.Some? ==> id in s.states && s.states[id] == st && forall j :: 0 <= j < k ==> later[j].None?
    {
      SuccessClears(StateOf(s.states, id), times[k]);
      var next := s.MarkSuccess(id, stickyKey, times[k], release);
      later := later + [next];
    }
  }

  // ---------------------------------------------------------------------------
  // Cooldowns are kept

  datatype Asked = Asked(creds: seq<Candidate>, key: string, now: nat)

  /** While a credential's remembered deadline lies ahead no pick returns it,
      whatever the candidates' stored deadlines say. */
  method CooledStaysOut(s: Selector, id: string, asks: seq<Asked>) returns (picks: seq<Option<Candidate>>)
    requires s.Valid() && id in s.states
    requires forall k :: 0 <= k < |asks| ==> asks[k].now < s.states[id].cooldownUntil
    modifies s
    ensures s.Valid() && id in s.states && s.states[id] == old(s.states)[id]
    ensures |picks| == |asks| && forall k :: 0 <= k < |picks| ==> picks[k] == None || picks[k].value.id != id
  {
    hide Selector.Valid, Filter, Usable, SeedAll, ByStrategy, Preferred, OnSticky, Clear, Yields;
    picks := [];
    for k := 0 to |asks|
      invariant s.Valid() && id in s.states && s.states[id] == old(s.states)[id]
      invariant |picks| == k && forall j :: 0 <= j < k ==> picks[j] == None || picks[j].value.id != id
    {
      var picked := s.Pick(asks[k].creds, asks[k].key, asks[k].now);
      picks := picks + [picked];
    }
  }

  /** A rate-limited credential stays out for as long as the provider asked, or for
      the base cooldown if it did not say. */
  method RateLimitedStaysOut(s: Selector, id: string, retryAfter: nat, random: nat, now: nat, asks: seq<Asked>)
      returns (picks: seq<Option<Candidate>>)
    requires s.Valid() && id != "" && 0 < s.cooldownBase
    requires forall k :: 0 <= k < |asks| ==> asks[k].now < now + if retryAfter > 0 then retryAfter else s.cooldownBase
    modifies s
    ensures s.Valid() && |picks| == |asks| && forall k :: 0 <= k < |picks| ==> picks[k] == None || picks[k].value.id != id
  {
    hide Selector.Valid, Cooldown;
    var failures := StateOf(s.states, id).failureCount;
    BackoffGrows(s.cooldownBase, s.cooldownMax, failures);
    CooldownRules(s.cooldownBase, s.cooldownMax, 429, retryAfter, failures);
    var _ := s.MarkFailure(id, 429, retryAfter, random, now);
    picks := CooledStaysOut(s, id, asks);
  }

  /** A credential out of quota stays out until its known reset, or for the fallback. */
  method ExhaustedStaysOut(s: Selector, id: string, resetAt: nat, now: nat, asks: seq<Asked>) returns (picks: seq<Option<Candidate>>)
    requires s.Valid() && id != ""
    requires forall k :: 0 <= k < |asks| ==> asks[k].now < if resetAt > now then resetAt else now + s.quotaCooldown
    modifies s
    ensures s.Valid() && |picks| == |asks| && forall k :: 0 <= k < |picks| ==> picks[k] == None || picks[k].value.id != id
  {
    hide Selector.Valid;
    var _ := s.MarkQuotaExhaustedUntil(id, now, resetAt);
    picks := CooledStaysOut(s, id, asks);
  }
}
