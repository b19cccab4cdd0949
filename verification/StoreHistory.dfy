/**
  What running requests see of the store and the settings is a history: store
  events and settings changes make the instants that revision-bound sends rely on.
  (internal/storage/credentials.go, internal/settings/manager.go)
 */
module StoreHistory {
  import opened Common
  import opened Credentials
  import opened InspectionBatch
  import opened CredentialLifecycle
  import Routing

  function ToRecord(c: Credential): Routing.Record {
    Routing.Record(c.revision, c.standing.enabled, c.standing.manualDisabled, c.tokens.access, c.tokens.refresh,
                   Routing.Proxy(c.route.mode, c.route.url))
  }

  /** A request sees a credential's own revision, standing, tokens and route. */
  lemma RecordShows(c: Credential)
    ensures var r := ToRecord(c);
            && r.revision == c.revision && r.enabled == c.standing.enabled && r.manualDisabled == c.standing.manualDisabled
            && r.access == c.tokens.access && r.refresh == c.tokens.refresh
            && r.proxy.mode == c.route.mode && r.proxy.url == c.route.url
  {
  }

  function RecordsOf(doc: seq<Credential>): map<string, Routing.Record> {
    if doc == [] then map[] else map[doc[0].id := ToRecord(doc[0])] + RecordsOf(doc[1..])
  }

  lemma {:induction false} RecordsAreTargets(doc: seq<Credential>, id: string)
    ensures id in RecordsOf(doc) <==> Target(doc, id).Some?
    ensures id in RecordsOf(doc) ==> RecordsOf(doc)[id] == ToRecord(Target(doc, id).value)
  {
    if doc != [] {
      RecordsAreTargets(doc[1..], id);
    }
  }

  /** The process's stored state: the file, every id ever generated, whether the
      file can be read, and the settings. */
  datatype Pool = Pool(doc: seq<Credential>, used: set<string>, readable: bool, global: Routing.Proxy, revision: nat)

  datatype Change = Stored(event: Event) | Configured(next: Routing.Proxy) | Readable(now: bool)

  function Changed(p: Pool, c: Change): Pool {
    match c
    case Stored(e) => p.(doc := NextDoc(p.doc, e), used := p.used + Generated(e))
    case Configured(next) => p.(global := next, revision := p.revision + 1)
    case Readable(now) => p.(readable := now)
  }

  function Generated(e: Event): set<string> {
    match e
    case Create(_, id, _) => {id}
    case Import(_, id, _) => {id}
    case _ => {}
  }

  /** Generated ids are new, and a batch names each id once. */
  predicate Possible(p: Pool, c: Change) {
    c.Stored? ==> Enabled(p.doc, c.event) && Generated(c.event) !! p.used
  }

  ghost predicate PoolSound(p: Pool) {
    DistinctDoc(p.doc) && Normal(p.doc) && forall id :: Target(p.doc, id).Some? ==> id in p.used
  }

  /** What a request can read at this instant. */
  function View(p: Pool): Routing.World {
    Routing.World(RecordsOf(p.doc), p.used - RecordsOf(p.doc).Keys, p.readable, p.global, p.revision)
  }

  /** A store event: a record that stays is the same or has a higher revision, and
      one that appears has an id never used before. */
  lemma StoredEffect(p: Pool, e: Event, id: string)
    requires PoolSound(p) && Possible(p, Stored(e))
    ensures var after := Target(NextDoc(p.doc, e), id);
            && (after.Some? && Target(p.doc, id).None? ==> id in Generated(e))
            && (after.Some? && Target(p.doc, id).Some? ==>
                  after == Target(p.doc, id) || after.value.revision > Target(p.doc, id).value.revision)
  {
    hide Inspect, MergeInput, NewCredential, PatchRecord, NextDoc, Written;
    EventEffect(p.doc, e, id);
    TargetHasId(Written(p.doc, e), id);
    if e.Create? || e.Import? {
      NewCredentialId(e.input, e.id, e.now);
    }
    if Target(p.doc, id).Some? && Target(NextDoc(p.doc, e), id).Some? {
      ChangeRaisesRevision(p.doc, e, id);
    }
  }

  /** Every possible change keeps the pool sound and evolves what requests see. */
  lemma ChangeEvolves(p: Pool, c: Change)
    requires PoolSound(p) && Possible(p, c)
    ensures PoolSound(Changed(p, c)) && Routing.Evolves(View(p), View(Changed(p, c)))
  {
    hide NextDoc, Enabled, Target, RecordsOf, DistinctDoc, Normal, ToRecord;
    var q := Changed(p, c);
    if c.Stored? {
      EventEffect(p.doc, c.event, "");
    }
    forall id
      ensures id in RecordsOf(p.doc) <==> Target(p.doc, id).Some?
      ensures id in RecordsOf(q.doc) <==> Target(q.doc, id).Some?
      ensures id in RecordsOf(p.doc) ==> id in p.used
      ensures id in RecordsOf(q.doc) && id !in RecordsOf(p.doc) ==> id in q.used && id !in p.used
      ensures id in RecordsOf(p.doc) && id in RecordsOf(q.doc) ==>
                RecordsOf(q.doc)[id] == RecordsOf(p.doc)[id] || RecordsOf(p.doc)[id].revision < RecordsOf(q.doc)[id].revision
    {
      RecordsAreTargets(p.doc, id);
      RecordsAreTargets(q.doc, id);
      if c.Stored? {
        StoredEffect(p, c.event, id);
        RevisionIsKept(p.doc, id);
        RevisionIsKept(q.doc, id);
      }
    }
  }

  lemma RevisionIsKept(doc: seq<Credential>, id: string)
    ensures Target(doc, id).Some? ==> ToRecord(Target(doc, id).value).revision == Target(doc, id).value.revision
  {
  }

  predicate AllPossible(p: Pool, changes: seq<Change>)
    decreases |changes|
  {
    changes == [] || (Possible(p, changes[0]) && AllPossible(Changed(p, changes[0]), changes[1..]))
  }

  function Views(p: Pool, changes: seq<Change>): (views: seq<Routing.World>)
    ensures |views| == |changes| + 1 && views[0] == View(p)
    decreases |changes|
  {
    [View(p)] + if changes == [] then [] else Views(Changed(p, changes[0]), changes[1..])
  }

  /** So over every run of store events and settings changes the instants requests
      read form a history in the sense of Routing. */
  lemma {:induction false} EveryRunIsHistory(p: Pool, changes: seq<Change>)
    requires PoolSound(p) && AllPossible(p, changes)
    ensures Routing.History(Views(p, changes))
    decreases |changes|
  {
    hide View, PoolSound, Changed, Possible, Routing.Evolves;
    if changes == [] {
      NothingReused(p);
    } else {
      NothingReused(p);
      ChangeEvolves(p, changes[0]);
      EveryRunIsHistory(Changed(p, changes[0]), changes[1..]);
      var rest := Views(Changed(p, changes[0]), changes[1..]);
      forall i | 0 < i < |rest| + 1
        ensures Routing.Evolves(Views(p, changes)[i - 1], Views(p, changes)[i])
      {
        if i > 1 {
          assert Views(p, changes)[i] == rest[i - 1] && Views(p, changes)[i - 1] == rest[i - 2];
        }
      }
    }
  }

  lemma NothingReused(p: Pool)
    ensures View(p).records.Keys !! View(p).deleted
  {
  }

  /** The settings manager makes just such changes. */
  method Reconfigure(m: Routing.SettingsManager, p: Pool, next: Routing.Proxy, valid: bool, saves: bool) returns (ok: bool, q: Pool)
    requires p.global == m.current && p.revision == m.revision
    modifies m
    ensures q == if ok then Changed(p, Configured(next)) else p
    ensures q.global == m.current && q.revision == m.revision
  {
    ok := m.Replace(next, valid, saves);
    q := p.(global := m.current, revision := m.revision);
  }
}
