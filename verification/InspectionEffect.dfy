/**
  From a verdict to the stored record: what an inspection run leaves behind for each
  credential whose stored revision is still the one it observed.
  (internal/inspection/runner.go, internal/storage/credentials.go)
 */
module InspectionEffect {
  import opened Common
  import opened Credentials
  import opened InspectionBatch
  import opened CredentialLifecycle
  import opened InspectionRunner

  /** The retention deadline of evidence recorded now; none when nothing is ever purged. */
  function Deadline(s: Settings, now: int): Option<int> {
    if s.purgeAfter > 0 then Some(now + s.purgeAfter) else None
  }

  /** Disabled and quarantined for invalid auth. */
  predicate Jailed(st: Standing) {
    !st.enabled && st.state == Quarantined && st.reason == InvalidAuth
  }

  /** Evidence recorded now: this token pair, this clock, and the deadline that follows. */
  predicate FreshEvidence(st: Standing, tokens: Tokens, s: Settings, now: int) {
    && st.fingerprint == Print(tokens.access, tokens.refresh)
    && st.quarantinedAt == Some(now) && st.purgeAfter == Deadline(s, now)
  }

  /** The stale evidence a due purge was found with is still the stored one. */
  predicate StillStale(stored: Credential, c: Checked) {
    && c.resetEvidence && Jailed(stored.standing) && !stored.standing.manualDisabled
    && stored.standing.purgeAfter == c.stalePurgeAfter && stored.standing.fingerprint == c.stalePrint
  }

  /** Only the standing's evidence, if anything, may differ. */
  predicate SameStanding(before: Standing, after: Standing) {
    after.(quarantinedAt := before.quarantinedAt, purgeAfter := before.purgeAfter, fingerprint := before.fingerprint) == before
  }

  /** Evidence that went stale is replaced by fresh evidence, any other is kept. */
  predicate EvidenceMoves(stored: Credential, c: Checked, s: Settings, now: int, after: Standing) {
    if StillStale(stored, c) then FreshEvidence(after, stored.tokens, s, now)
    else
      && after.quarantinedAt == stored.standing.quarantinedAt && after.purgeAfter == stored.standing.purgeAfter
      && after.fingerprint == stored.standing.fingerprint
  }

  /** Nothing but standing, inspection, cooldown and bookkeeping is touched. */
  predicate OnlyInspected(stored: Credential, after: Credential, clock: int) {
    && after.revision == stored.revision + 1 && after.updatedAt == clock
    && after.(standing := stored.standing, inspection := stored.inspection, revision := stored.revision, updatedAt := stored.updatedAt,
              health := after.health.(cooldownUntil := stored.health.cooldownUntil)) == stored
  }

  /** A confirmed 401 outside a mass failure: the credential is out of use, with its
      token pair as evidence unless it was there already, and it is gone if a purge of
      this very record was due. */
  ghost predicate OnUnauthorized(stored: Credential, c: Checked, s: Settings, now: int, clock: int, after: Option<Credential>) {
    var st := stored.standing;
    if c.purgeCandidate then
      if Jailed(st) && !st.manualDisabled && st.purgeAfter.Some? && st.purgeAfter.value <= clock
         && st.fingerprint == Print(stored.tokens.access, stored.tokens.refresh)
      then after.None? else after == Some(stored)
    else if st.manualDisabled then after == Some(stored)
    else
      && after.Some? && OnlyInspected(stored, after.value, clock) && Jailed(after.value.standing)
      && !after.value.standing.manualDisabled
      && after.value.health == stored.health
      && after.value.inspection == Inspection(Some(now), "unauthorized", "confirmed unauthorized", stored.inspection.unauthorized + 1)
      && (st.enabled ==> FreshEvidence(after.value.standing, stored.tokens, s, now))
      && (StillStale(stored, c) ==> FreshEvidence(after.value.standing, stored.tokens, s, now))
      && (Jailed(st) && !StillStale(stored, c) ==>
            && (st.fingerprint != NoPrint ==> after.value.standing.fingerprint == st.fingerprint)
            && (st.quarantinedAt.Some? ==> after.value.standing.quarantinedAt == st.quarantinedAt)
            && (st.purgeAfter.Some? ==> after.value.standing.purgeAfter == st.purgeAfter))
  }

  /** A healthy verdict: a quarantined credential no operator disabled is back in use. */
  ghost predicate OnHealthy(stored: Credential, c: Checked, s: Settings, now: int, clock: int, after: Option<Credential>) {
    && after.Some? && OnlyInspected(stored, after.value, clock) && after.value.health == stored.health
    && after.value.inspection == Inspection(Some(now), "healthy", "", 0)
    && if stored.standing.state == Quarantined && stored.standing.reason == InvalidAuth && !stored.standing.manualDisabled then
         after.value.standing == Standing(true, false, Active, NoReason, None, None, NoPrint)
       else after.value.standing == stored.standing
  }

  /** How long the runner cools a rate-limited or spent credential, in seconds. */
  predicate Cools(v: Verdict, cool: Cooldowns, seconds: int) {
    if v == QuotaExhausted && cool.quota > 0 then seconds == cool.quota
    else if cool.rateLimit > 0 then seconds == cool.rateLimit
    else seconds == 60
  }

  /** Any other verdict leaves the standing; it cools, counts or clears as it says. */
  ghost predicate OnOther(stored: Credential, c: Checked, guard: bool, s: Settings, now: int, clock: int,
      cool: Cooldowns, after: Option<Credential>) {
    && after.Some? && OnlyInspected(stored, after.value, clock)
    && SameStanding(stored.standing, after.value.standing) && EvidenceMoves(stored, c, s, now, after.value.standing)
    && after.value.inspection.at == Some(now)
    && (if c.verdict == RateLimited || c.verdict == QuotaExhausted then
          exists seconds :: Cools(c.verdict, cool, seconds) && after.value.health.cooldownUntil == Some(now + seconds)
        else after.value.health.cooldownUntil == stored.health.cooldownUntil)
    && after.value.inspection.unauthorized ==
         (if c.verdict == StateChanged || c.verdict == SettingsChanged then stored.inspection.unauthorized
          else if c.verdict == IsUnauthorized then stored.inspection.unauthorized + 1
          else 0)
    && (c.verdict == IsUnauthorized ==> after.value.inspection.status == "mass_failure_guard")
    && (c.verdict != IsUnauthorized ==> after.value.inspection.error == c.message)
  }

  /** What a finished inspection does to the record it observed. */
  ghost predicate Told(stored: Credential, c: Checked, guard: bool, s: Settings, now: int, clock: int,
      cool: Cooldowns, after: Option<Credential>) {
    if c.verdict == IsHealthy then OnHealthy(stored, c, s, now, clock, after)
    else if c.verdict == IsUnauthorized && !guard then OnUnauthorized(stored, c, s, now, clock, after)
    else OnOther(stored, c, guard, s, now, clock, cool, after)
  }

  lemma UnauthorizedIsTold(stored: Credential, c: Checked, s: Settings, now: int, clock: int, cool: Cooldowns)
    requires StandingSound(stored.standing) && stored == c.observed && c.verdict == IsUnauthorized
    requires !(c.purgeCandidate && c.resetEvidence)
    ensures OnUnauthorized(stored, c, s, now, clock, Inspect(stored, BuildAction(c, false, s, now, cool), clock).record)
  {
  }

  lemma HealthyIsTold(stored: Credential, c: Checked, guard: bool, s: Settings, now: int, clock: int, cool: Cooldowns)
    requires StandingSound(stored.standing) && stored == c.observed && c.verdict == IsHealthy
    ensures OnHealthy(stored, c, s, now, clock, Inspect(stored, BuildAction(c, guard, s, now, cool), clock).record)
  {
  }

  lemma OtherIsTold(stored: Credential, c: Checked, guard: bool, s: Settings, now: int, clock: int, cool: Cooldowns)
    requires stored == c.observed && c.verdict != IsHealthy && (c.verdict == IsUnauthorized ==> guard)
    ensures OnOther(stored, c, guard, s, now, clock, cool, Inspect(stored, BuildAction(c, guard, s, now, cool), clock).record)
  {
    hide BuildAction, Inspect, ResetEvidence, Cools, EvidenceMoves;
    var a := BuildAction(c, guard, s, now, cool);
    OtherAction(c, guard, s, now, cool);
    EvidenceIsReset(stored, c, guard, s, now, clock, cool);
    OtherRecord(stored, a, clock);
  }

  /** What is asked of the store for such a verdict. */
  lemma OtherAction(c: Checked, guard: bool, s: Settings, now: int, cool: Cooldowns)
    requires c.verdict != IsHealthy && (c.verdict == IsUnauthorized ==> guard)
    ensures var a := BuildAction(c, guard, s, now, cool);
            && a.expectedRevision == c.observed.revision && a.at == Some(now)
            && a.kind == (if c.verdict == StateChanged || c.verdict == SettingsChanged then Attempt else Fail)
            && (if c.verdict == RateLimited || c.verdict == QuotaExhausted then
                  exists seconds :: Cools(c.verdict, cool, seconds) && a.cooldownUntil == Some(now + seconds)
                else a.cooldownUntil == None)
            && (a.status == "mass_failure_guard" <==> c.verdict == IsUnauthorized) && a.status != "unauthorized"
            && (c.verdict != IsUnauthorized ==> a.message == c.message)
  {
    assert Cools(c.verdict, cool, CooldownFor(c.verdict, cool));
  }

  lemma EvidenceIsReset(stored: Credential, c: Checked, guard: bool, s: Settings, now: int, clock: int, cool: Cooldowns)
    requires c.verdict != IsHealthy && (c.verdict == IsUnauthorized ==> guard)
    ensures var reset := ResetEvidence(stored, BuildAction(c, guard, s, now, cool), clock);
            && reset.(standing := stored.standing) == stored
            && SameStanding(stored.standing, reset.standing) && EvidenceMoves(stored, c, s, now, reset.standing)
  {
  }

  lemma OtherRecord(stored: Credential, a: Action, clock: int)
    requires a.expectedRevision == stored.revision && a.at.Some? && (a.kind == Fail || a.kind == Attempt)
    ensures var reset, after := ResetEvidence(stored, a, clock), Inspect(stored, a, clock).record;
            reset.(standing := stored.standing) == stored ==>
              && after.Some? && OnlyInspected(stored, after.value, clock) && after.value.standing == reset.standing
              && after.value.inspection.at == a.at && after.value.inspection.status == a.status && after.value.inspection.error == a.message
              && after.value.health.cooldownUntil ==
                   (if a.kind == Fail && a.cooldownUntil.Some? then a.cooldownUntil else stored.health.cooldownUntil)
              && after.value.inspection.unauthorized ==
                   (if a.kind == Attempt || a.status == "unauthorized" then stored.inspection.unauthorized
                    else if a.status == "mass_failure_guard" then stored.inspection.unauthorized + 1 else 0)
  {
    hide ResetEvidence;
  }

  /** What the listing makes of a credential whose retention is over: a candidate for
      the purge if its evidence is of its present token pair, stale otherwise. */
  lemma JudgeMeans(listed: Credential, observed: Credential, verdict: Verdict, message: string, now: int)
    ensures var c := Judge(listed, observed, verdict, message, now);
            var st := listed.standing;
            var over := st.state == Quarantined && st.reason == InvalidAuth && !st.manualDisabled
                        && st.purgeAfter.Some? && st.purgeAfter.value <= now;
            var own := st.fingerprint == Print(listed.tokens.access, listed.tokens.refresh);
            && c.observed == observed && c.verdict == verdict && c.message == message
            && (c.purgeCandidate <==> over && own)
            && (c.resetEvidence <==> over && !own && Jailed(observed.standing) && !observed.standing.manualDisabled)
            && (c.resetEvidence ==> c.stalePurgeAfter == st.purgeAfter && c.stalePrint == st.fingerprint)
  {
  }

  /** The share of a run that came back unauthorized. */
  function Bad(checked: seq<Checked>): set<nat> {
    set k: nat | k < |checked| && checked[k].verdict == IsUnauthorized
  }

  lemma {:induction false} CountIsBad(checked: seq<Checked>)
    ensures CountUnauthorized(checked) == |Bad(checked)|
  {
    if checked != [] {
      var front, last := checked[..|checked| - 1], checked[|checked| - 1];
      CountIsBad(front);
      assert Bad(checked) == Bad(front) + if last.verdict == IsUnauthorized then {|front|} else {};
    }
  }

  /** What a run may find in the store for an inspection it finished. */
  ghost predicate Readable(doc: seq<Credential>, c: Checked) {
    && !(c.purgeCandidate && c.resetEvidence)
    && (Target(doc, c.observed.id).Some? ==>
          && StandingSound(Target(doc, c.observed.id).value.standing)
          && (Target(doc, c.observed.id).value.revision == c.observed.revision ==> Target(doc, c.observed.id).value == c.observed))
  }

  /** A whole run's storing half. For every inspection whose credential is still at
      the revision it observed the store says afterwards what its verdict calls for. */
  method StoreVerdicts(doc: seq<Credential>, checked: seq<Checked>, s: Settings, now: int, clock: int,
      cool: Cooldowns) returns (next: seq<Credential>, guard: bool)
    requires Normal(doc) && DistinctDoc(doc)
    requires forall j, k :: 0 <= j < k < |checked| ==> checked[j].observed.id != checked[k].observed.id
    requires forall k :: 0 <= k < |checked| ==> Readable(doc, checked[k])
    ensures guard <==>
              && checked != [] && |Bad(checked)| >= s.massFailureMinimum
              && (|Bad(checked)| as real) / (|checked| as real) >= s.massFailureRatio
    ensures forall k :: 0 <= k < |checked| ==>
              var stored := Target(doc, checked[k].observed.id);
              stored.Some? && stored.value.revision == checked[k].observed.revision ==>
                Told(stored.value, checked[k], guard, s, now, clock, cool, Target(next, checked[k].observed.id))
  {
    hide Inspect, BuildAction, MassFailure, Target, Readable, Told, NormalizeAll, Fold, FoldResults, DistinctDoc, Normal, Bad;
    CountIsBad(checked);
    GuardIs(checked, s);
    var actions;
    actions, guard := BuildActions(checked, s, now, cool);
    ActionsAreDistinct(checked, actions, guard, s, now, cool);
    var results, written, changed := ApplyActions(doc, actions, clock);
    next := NormalizeAll(written);
    forall k | 0 <= k < |checked| && Target(doc, checked[k].observed.id).Some?
               && Target(doc, checked[k].observed.id).value.revision == checked[k].observed.revision
      ensures Told(Target(doc, checked[k].observed.id).value, checked[k], guard, s, now, clock, cool, Target(next, checked[k].observed.id))
    {
      assert actions[k] in actions;
      OneIsTold(doc, checked[k], actions, guard, s, now, clock, cool);
    }
  }

  lemma GuardIs(checked: seq<Checked>, s: Settings)
    ensures MassFailure(checked, s) <==>
              && checked != [] && CountUnauthorized(checked) >= s.massFailureMinimum
              && (CountUnauthorized(checked) as real) / (|checked| as real) >= s.massFailureRatio
  {
  }

  lemma ActionsAreDistinct(checked: seq<Checked>, actions: seq<Action>, guard: bool, s: Settings, now: int, cool: Cooldowns)
    requires |actions| == |checked| && forall k :: 0 <= k < |checked| ==> actions[k] == BuildAction(checked[k], guard, s, now, cool)
    requires forall j, k :: 0 <= j < k < |checked| ==> checked[j].observed.id != checked[k].observed.id
    ensures DistinctIds(actions)
  {
    forall k | 0 <= k < |checked| ensures actions[k].id == checked[k].observed.id {
    }
    hide BuildAction;
  }

  lemma OneIsTold(doc: seq<Credential>, c: Checked, actions: seq<Action>, guard: bool, s: Settings, now: int,
      clock: int, cool: Cooldowns)
    requires Normal(doc) && DistinctDoc(doc) && DistinctIds(actions) && BuildAction(c, guard, s, now, cool) in actions && Readable(doc, c)
    requires Target(doc, c.observed.id).Some? && Target(doc, c.observed.id).value.revision == c.observed.revision
    ensures Told(c.observed, c, guard, s, now, clock, cool, Target(NormalizeAll(Fold(doc, actions, clock)), c.observed.id))
    ensures Target(doc, c.observed.id).value == c.observed
  {
    var a := BuildAction(c, guard, s, now, cool);
    assert a.id == c.observed.id;
    hide Inspect, BuildAction, Fold, DistinctDoc, DistinctIds, Told, Normalize, Normal;
    FoldHits(doc, actions, clock, a);
    SavedTarget(Fold(doc, actions, clock), a.id);
    SavedTarget(doc, a.id);
    InspectedIsSaved(c.observed, a, clock);
    if c.verdict == IsHealthy {
      HealthyIsTold(c.observed, c, guard, s, now, clock, cool);
    } else if c.verdict == IsUnauthorized && !guard {
      UnauthorizedIsTold(c.observed, c, s, now, clock, cool);
    } else {
      OtherIsTold(c.observed, c, guard, s, now, clock, cool);
    }
    ToldIs(c.observed, c, guard, s, now, clock, cool, Inspect(c.observed, a, clock).record);
  }

  lemma ToldIs(stored: Credential, c: Checked, guard: bool, s: Settings, now: int, clock: int, cool: Cooldowns,
      after: Option<Credential>)
    ensures c.verdict == IsHealthy && OnHealthy(stored, c, s, now, clock, after) ==> Told(stored, c, guard, s, now, clock, cool, after)
    ensures c.verdict == IsUnauthorized && !guard && OnUnauthorized(stored, c, s, now, clock, after) ==>
              Told(stored, c, guard, s, now, clock, cool, after)
    ensures c.verdict != IsHealthy && (c.verdict == IsUnauthorized ==> guard) && OnOther(stored, c, guard, s, now, clock, cool, after) ==>
              Told(stored, c, guard, s, now, clock, cool, after)
  {
  }

  /** Saving a record an inspection touched changes nothing more. */
  lemma InspectedIsSaved(stored: Credential, a: Action, now: int)
    requires Normalize(stored) == stored
    ensures Saved(Inspect(stored, a, now).record) == Inspect(stored, a, now).record
  {
    InspectKeepsWho(stored, a, now);
    hide Inspect;
  }

  lemma InspectKeepsWho(stored: Credential, a: Action, now: int)
    ensures var after := Inspect(stored, a, now).record;
            after.Some? ==>
              && after.value.who == stored.who && after.value.tokens == stored.tokens && after.value.route == stored.route
              && (stored.standing.state != Unset ==> after.value.standing.state != Unset)
  {
  }
}
