/**
  Credentials and settings as they change under running requests, and the
  outbound route they select. (internal/settings/manager.go, internal/outbound/proxy.go)
 */
module Routing {
  import opened Common

  datatype Proxy = Proxy(mode: string, url: string)

  datatype Route = Direct | Environment | Via(url: string)

  function ProxyUrl(url: string): Option<Route> {
    if url == "" then None else Some(Via(url))
  }

  /** A credential's own proxy, or the global one it inherits; None is a configuration error. */
  function Resolve(own: Proxy, global: Proxy): Option<Route> {
    if own.mode == "direct" then Some(Direct)
    else if own.mode == "url" then ProxyUrl(own.url)
    else if own.mode != "" && own.mode != "inherit" then None
    else if global.mode == "" || global.mode == "environment" then Some(Environment)
    else if global.mode == "direct" then Some(Direct)
    else if global.mode == "url" then ProxyUrl(global.url)
    else None
  }

  /** The rules: a credential's own choice comes first, inheriting takes the global
      one, an address is needed where one is asked for, and nothing else is accepted. */
  lemma RouteRules(own: Proxy, global: Proxy)
    ensures own.mode == "direct" ==> Resolve(own, global) == Some(Direct)
    ensures own.mode == "url" ==> Resolve(own, global) == if own.url != "" then Some(Via(own.url)) else None
    ensures own.mode == "" || own.mode == "inherit" ==>
              && Resolve(own, global) == Resolve(Proxy("inherit", ""), global)
              && (global.mode == "direct" ==> Resolve(own, global) == Some(Direct))
              && (global.mode == "environment" || global.mode == "" ==> Resolve(own, global) == Some(Environment))
              && (global.mode == "url" ==> Resolve(own, global) == if global.url != "" then Some(Via(global.url)) else None)
              && (global.mode !in {"", "direct", "environment", "url"} ==> Resolve(own, global).None?)
    ensures own.mode !in {"", "inherit", "direct", "url"} ==> Resolve(own, global).None?
  {
  }

  datatype Record = Record(revision: nat, enabled: bool, manualDisabled: bool, access: string, refresh: string, proxy: Proxy)

  /** One instant: the stored credentials, the ids deleted so far, whether reads
      succeed, and the settings with their revision. */
  datatype World = World(records: map<string, Record>, deleted: set<string>, readable: bool, global: Proxy, routeRevision: nat)

  /** What any writer may do between two instants: a changed record has a higher
      revision, a deleted id stays deleted, changed settings have a higher revision. */
  ghost predicate Evolves(a: World, b: World) {
    && a.deleted <= b.deleted
    && a.records.Keys - b.records.Keys <= b.deleted
    && b.records.Keys !! b.deleted
    && (forall id :: id in a.records && id in b.records ==>
          a.records[id] == b.records[id] || a.records[id].revision < b.records[id].revision)
    && (a.global == b.global || a.routeRevision < b.routeRevision)
    && a.routeRevision <= b.routeRevision
  }

  ghost predicate History(h: seq<World>) {
    && (forall i :: 0 <= i < |h| ==> h[i].records.Keys !! h[i].deleted)
    && forall i :: 0 < i < |h| ==> Evolves(h[i - 1], h[i])
  }

  lemma {:induction false} EvolvesFar(h: seq<World>, i: nat, j: nat)
    requires History(h) && i <= j < |h|
    ensures Evolves(h[i], h[j])
    decreases j
  {
    if i < j {
      EvolvesFar(h, i, j - 1);
      assert Evolves(h[j - 1], h[j]);
      EvolvesOn(h[i], h[j - 1], h[j]);
    }
  }

  lemma EvolvesOn(a: World, b: World, c: World)
    requires Evolves(a, b) && Evolves(b, c)
    ensures Evolves(a, c)
  {
  }

  /** Equal revisions at two instants mean the same record. */
  lemma SameRevisionSameRecord(h: seq<World>, i: nat, j: nat, id: string)
    requires History(h) && i <= j < |h|
    requires id in h[i].records && id in h[j].records && h[i].records[id].revision == h[j].records[id].revision
    ensures h[i].records[id] == h[j].records[id]
  {
    EvolvesFar(h, i, j);
  }

  /** Equal route revisions at two instants mean the same settings at every instant between. */
  lemma SameRouteThroughout(h: seq<World>, i: nat, k: nat, j: nat)
    requires History(h) && i <= k <= j < |h| && h[i].routeRevision == h[j].routeRevision
    ensures h[i].global == h[k].global == h[j].global
  {
    EvolvesFar(h, i, k);
    EvolvesFar(h, k, j);
  }

  /** Runtime settings in memory over a store that saves all or nothing. */
  class SettingsManager {
    var current: Proxy
    var source: string
    var revision: nat
    var stored: Option<Proxy>

    constructor (stored: Option<Proxy>, defaults: Proxy)
      ensures revision == 1 && this.stored == stored
      ensures current == (if stored.Some? then stored.value else defaults)
      ensures source == if stored.Some? then "runtime" else "config"
    {
      this.stored := stored;
      current := if stored.Some? then stored.value else defaults;
      source := if stored.Some? then "runtime" else "config";
      revision := 1;
    }

    /** Saves first; settings and revision change together or not at all. */
    method Replace(next: Proxy, valid: bool, saves: bool) returns (ok: bool)
      modifies this
      ensures ok == (valid && saves)
      ensures ok ==> current == next && stored == Some(next) && revision == old(revision) + 1 && source == "runtime"
      ensures !ok ==> current == old(current) && stored == old(stored) && revision == old(revision) && source == old(source)
    {
      if !valid {
        return false;
      }
      if !saves {
        return false;
      }
      stored := Some(next);
      current := next;
      source := "runtime";
      revision := revision + 1;
      return true;
    }
  }
}
