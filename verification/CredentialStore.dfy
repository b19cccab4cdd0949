/**
  The credential store of internal/storage: credentials.json, replaced whole or
  not at all by every save, and the in-memory snapshot that is served while the
  file's stamp has not changed.
 */
module CredentialStore {
  import opened Common
  import opened Credentials
  import opened InspectionBatch
  import opened CredentialLifecycle
  import opened Sorting

  /** What identifies a state of the file: size, time and identity, or its absence. */
  datatype Stamp = NoFile | Stamped(id: nat)

  datatype Disk = Disk(content: Option<seq<Credential>>, stamp: Stamp)

  /** What loadCredentials returns for the file as it is. */
  function Decoded(d: Disk): seq<Credential> {
    match d.content
    case None => []
    case Some(doc) => NormalizeAll(doc)
  }

  /** The outcome of one save: the write itself, then the stat of the new file. */
  datatype SaveIo = SaveIo(written: bool, statOk: bool, stamp: Stamp)

  datatype StoreError = NotFound | Exists | InvalidInput | Rejected | DuplicateAction | InvalidAction | Io

  function FindFirst(doc: seq<Credential>, id: string): Option<Credential> {
    if doc == [] then None else if doc[0].id == id then Some(doc[0]) else FindFirst(doc[1..], id)
  }

  predicate IndexOf(index: map<string, Credential>, doc: seq<Credential>) {
    && (forall id :: id in index ==> FindFirst(doc, id) == Some(index[id]))
    && (forall k :: 0 <= k < |doc| ==> doc[k].id in index)
  }

  lemma {:induction false} FindFirstFinds(doc: seq<Credential>, id: string)
    ensures FindFirst(doc, id).None? <==> !HasId(doc, id)
    ensures FindFirst(doc, id).Some? ==>
              exists k :: 0 <= k < |doc| && doc[k] == FindFirst(doc, id).value && doc[k].id == id &&
                          forall j :: 0 <= j < k ==> doc[j].id != id
  {
    if doc != [] {
      FindFirstFinds(doc[1..], id);
      if doc[0].id != id {
        if HasId(doc, id) {
          var k :| 0 <= k < |doc| && doc[k].id == id;
          assert doc[1..][k - 1].id == id;
        }
        if HasId(doc[1..], id) {
          var k :| 0 <= k < |doc[1..]| && doc[1..][k] == FindFirst(doc, id).value && doc[1..][k].id == id &&
                   forall j :: 0 <= j < k ==> doc[1..][j].id != id;
          assert doc[k + 1].id == id;
          forall j | 0 <= j < k + 1 ensures doc[j].id != id {
            if j > 0 {
              assert doc[1..][j - 1].id != id;
            }
          }
        }
      } else {
        assert doc[0].id == id;
      }
    }
  }

  lemma {:induction false} AppendFindFirst(doc: seq<Credential>, c: Credential, id: string)
    ensures FindFirst(doc + [c], id) ==
              if FindFirst(doc, id).Some? then FindFirst(doc, id) else if c.id == id then Some(c) else None
  {
    if doc == [] {
      assert (doc + [c])[1..] == [];
    } else {
      assert (doc + [c])[1..] == doc[1..] + [c];
      AppendFindFirst(doc[1..], c, id);
    }
  }

  // ---------------------------------------------------------------------------
  // Listing order and the request-path view

  /** Highest priority first, then by id. */
  function ListingBefore(): (Credential, Credential) -> bool {
    (a: Credential, b: Credential) =>
      if a.priority != b.priority then a.priority > b.priority else StringBefore(a.id, b.id)
  }

  /** The secret-free view handed to the selector. */
  function CandidateView(c: Credential): Credential {
    var blank := NewCredential(Input("", "", "", "", "", "", "", "", "", "", None, Some(c.standing.enabled), Some(c.priority), "", ""), c.id, 0);
    blank.(revision := 0,
           standing := Standing(c.standing.enabled, false, Unset, NoReason, None, None, NoPrint),
           health := blank.health.(cooldownUntil := c.health.cooldownUntil,
                                   remainingRequests := c.health.remainingRequests, remainingTokens := c.health.remainingTokens))
  }

  /** What the selector is told of a record: whether, when and with how much room it
      may be used, and none of its secrets. */
  lemma ViewTells(c: Credential)
    ensures var v := CandidateView(c);
            && v.id == c.id && v.standing.enabled == c.standing.enabled && v.priority == c.priority
            && v.health.cooldownUntil == c.health.cooldownUntil
            && v.health.remainingRequests == c.health.remainingRequests && v.health.remainingTokens == c.health.remainingTokens
            && v.tokens == Tokens("", "", None) && v.who.email == "" && v.who.userId == "" && v.who.key == "" && v.route.url == ""
            && v.standing.fingerprint == NoPrint && v.health.failureCount == 0 && v.health.lastError == ""
  {
  }

  function CandidateViews(doc: seq<Credential>): seq<Credential> {
    seq(|doc|, i requires 0 <= i < |doc| => CandidateView(doc[i]))
  }

  lemma ListingIsWeakOrder()
    ensures WeakOrder(ListingBefore())
  {
    forall x: Credential, y: Credential | ListingBefore()(x, y) ensures !ListingBefore()(y, x) {
      StringOrder(x.id, y.id, "");
    }
    forall x: Credential, y: Credential, z: Credential | ListingBefore()(x, z)
      ensures ListingBefore()(x, y) || ListingBefore()(y, z)
    {
      StringOrder(x.id, y.id, z.id);
    }
  }

  /** Both listings carry every record and are ordered by priority, then id. */
  lemma ListingIsOrdered(doc: seq<Credential>)
    ensures var r := StableSort(ListingBefore(), doc);
            && multiset(r) == multiset(doc)
            && forall i, j :: 0 <= i < j < |r| ==>
                 r[i].priority > r[j].priority ||
                 (r[i].priority == r[j].priority && (r[i].id == r[j].id || StringBefore(r[i].id, r[j].id)))
  {
    ListingIsWeakOrder();
    SortKeepsAll(ListingBefore(), doc);
    SortSorts(ListingBefore(), doc);
    var r := StableSort(ListingBefore(), doc);
    forall i, j | 0 <= i < j < |r|
      ensures r[i].priority > r[j].priority ||
              (r[i].priority == r[j].priority && (r[i].id == r[j].id || StringBefore(r[i].id, r[j].id)))
    {
      assert !ListingBefore()(r[j], r[i]);
      StringOrder(r[i].id, r[j].id, "");
    }
  }

  // ---------------------------------------------------------------------------
  // The store

  /** What the store asks of an import, apart from URL syntax. */
  predicate ValidInput(i: Input) {
    var mode := Lower(i.proxyMode);
    HasToken(i) && (if mode in ["", "inherit", "direct"] then i.proxyUrl == "" else mode == "url" && i.proxyUrl != "")
  }

  /** What the store asks of an import: a token, and an address exactly where the proxy
      mode needs one; modes are read without regard to case. */
  lemma ValidMeans(i: Input)
    ensures ValidInput(i) ==> i.access != "" || i.refresh != ""
    ensures ValidInput(i) ==> Lower(i.proxyMode) in {"", "inherit", "direct", "url"} && (i.proxyUrl != "" <==> Lower(i.proxyMode) == "url")
    ensures (i.access != "" || i.refresh != "") && i.proxyMode == "" && i.proxyUrl == "" ==> ValidInput(i)
    ensures (i.access != "" || i.refresh != "") && i.proxyMode == "url" && i.proxyUrl != "" ==> ValidInput(i)
    ensures (i.access != "" || i.refresh != "") && i.proxyMode in {"inherit", "direct"} && i.proxyUrl == "" ==> ValidInput(i)
  {
    assert Lower("") == "" && Lower("url") == "url" && Lower("inherit") == "inherit" && Lower("direct") == "direct";
  }

  /** A deletion takes out every record of the id and no other. */
  lemma {:induction false} DeleteRemoves(doc: seq<Credential>, id: string, other: string)
    ensures !HasId(DeleteDoc(doc, id), id)
    ensures other != id ==> FindFirst(DeleteDoc(doc, id), other) == FindFirst(doc, other)
    ensures !HasId(doc, id) ==> DeleteDoc(doc, id) == doc
    ensures forall c :: c in DeleteDoc(doc, id) <==> c in doc && c.id != id
  {
    if doc != [] {
      DeleteRemoves(doc[1..], id, other);
      assert doc == [doc[0]] + doc[1..];
      HasIdFirst(doc[0], doc[1..], id);
      HasIdFirst(doc[0], DeleteDoc(doc[1..], id), id);
    }
  }

  lemma HasIdFirst(c: Credential, rest: seq<Credential>, id: string)
    ensures HasId([c] + rest, id) <==> c.id == id || HasId(rest, id)
  {
    var all := [c] + rest;
    assert all[0] == c && all[1..] == rest;
    if k :| 0 <= k < |rest| && rest[k].id == id {
      assert all[k + 1].id == id;
    }
  }

  /** An action has an id and a kind the store knows. */
  predicate Named(a: Action) {
    a.id != "" && a.kind != Unknown
  }

  predicate AllNamed(actions: seq<Action>) {
    forall k :: 0 <= k < |actions| ==> Named(actions[k])
  }

  /** The loop of DeleteCredential. */
  method Without(doc: seq<Credential>, id: string) returns (found: bool, next: seq<Credential>)
    ensures found <==> HasId(doc, id)
    ensures next == DeleteDoc(doc, id)
  {
    next, found := [], false;
    var k := 0;
    while k < |doc|
      invariant 0 <= k <= |doc|
      invariant found <==> exists j :: 0 <= j < k && doc[j].id == id
      invariant DeleteDoc(doc, id) == next + DeleteDoc(doc[k..], id)
    {
      assert doc[k..][1..] == doc[k + 1..];
      if doc[k].id == id {
        found := true;
      } else {
        next := next + [doc[k]];
      }
      k := k + 1;
    }
  }

  method AllValid(inputs: seq<Input>) returns (valid: bool)
    ensures valid <==> forall k :: 0 <= k < |inputs| ==> ValidInput(inputs[k])
  {
    var k := 0;
    while k < |inputs|
      invariant 0 <= k <= |inputs|
      invariant forall j :: 0 <= j < k ==> ValidInput(inputs[j])
    {
      if !ValidInput(inputs[k]) {
        return false;
      }
      k := k + 1;
    }
    return true;
  }

  /** Each flag tells whether its input, on top of those before it, created a record. */
  predicate FlagsTell(flags: seq<bool>, doc: seq<Credential>, inputs: seq<Input>, ids: seq<string>, now: int)
    requires |flags| <= |inputs| == |ids|
  {
    forall k :: 0 <= k < |flags| ==> (flags[k] <==> Creates(UpsertAll(doc, inputs[..k], ids[..k], now), inputs[k]))
  }

  lemma OneMoreFlag(flags: seq<bool>, doc: seq<Credential>, inputs: seq<Input>, ids: seq<string>, now: int, flag: bool)
    requires |flags| < |inputs| == |ids| && FlagsTell(flags, doc, inputs, ids, now)
    requires flag <==> Creates(UpsertAll(doc, inputs[..|flags|], ids[..|flags|], now), inputs[|flags|])
    ensures FlagsTell(flags + [flag], doc, inputs, ids, now)
  {
    hide Creates, UpsertAll;
  }

  /** The loop of BulkUpsertCredentials. */
  method UpsertEach(start: seq<Credential>, inputs: seq<Input>, ids: seq<string>, now: int)
    returns (doc: seq<Credential>, created: seq<bool>)
    requires |ids| == |inputs|
    ensures doc == UpsertAll(start, inputs, ids, now)
    ensures |created| == |inputs| && Trues(created) == CreatedCount(start, inputs, ids, now)
    ensures FlagsTell(created, start, inputs, ids, now)
  {
    hide UpsertAll, CreatedCount, Trues, FlagsTell;
    doc, created := start, [];
    BulkOf(start, inputs, ids, now);
    for k := 0 to |inputs|
      invariant |created| == k && doc == UpsertAll(start, inputs[..k], ids[..k], now)
      invariant Trues(created) == CreatedCount(start, inputs[..k], ids[..k], now)
      invariant FlagsTell(created, start, inputs, ids, now)
    {
      BulkOneMore(start, inputs, ids, now, k);
      var result, isNew, next := UpsertCredentialDoc(doc, inputs[k], ids[k], now);
      TruesAppend(created, isNew);
      OneMoreFlag(created, start, inputs, ids, now, isNew);
      doc, created := next, created + [isNew];
    }
  }

  lemma BulkOf(doc: seq<Credential>, inputs: seq<Input>, ids: seq<string>, now: int)
    requires |ids| == |inputs|
    ensures inputs[..|inputs|] == inputs && ids[..|inputs|] == ids
    ensures FlagsTell([], doc, inputs, ids, now)
    ensures UpsertAll(doc, inputs[..0], ids[..0], now) == doc && CreatedCount(doc, inputs[..0], ids[..0], now) == Trues([]) == 0
  {
  }

  lemma {:induction false} BulkOneMore(doc: seq<Credential>, inputs: seq<Input>, ids: seq<string>, now: int, k: nat)
    requires |ids| == |inputs| && k < |inputs|
    ensures var before := UpsertAll(doc, inputs[..k], ids[..k], now);
            && UpsertAll(doc, inputs[..k + 1], ids[..k + 1], now) == Upsert(before, inputs[k], ids[k], now)
            && CreatedCount(doc, inputs[..k + 1], ids[..k + 1], now) ==
                 CreatedCount(doc, inputs[..k], ids[..k], now) + if Creates(before, inputs[k]) then 1 else 0
    decreases |inputs|
  {
    hide Upsert, Creates;
    if k > 0 {
      BulkOneMore(Upsert(doc, inputs[0], ids[0], now), inputs[1..], ids[1..], now, k - 1);
      assert inputs[1..][..k] == inputs[..k + 1][1..] && ids[1..][..k] == ids[..k + 1][1..];
      assert inputs[1..][..k - 1] == inputs[..k][1..] && ids[1..][..k - 1] == ids[..k][1..];
    }
  }

  class Store {
    var disk: Disk
    var cache: seq<Credential>
    var index: map<string, Credential>
    var cacheStamp: Stamp
    var cacheValid: bool
    /** What every stamp seen so far stood for: equal stamps mean equal content. */
    ghost var contentAt: map<Stamp, seq<Credential>>

    ghost predicate Valid()
      reads this
    {
      && disk.stamp in contentAt && contentAt[disk.stamp] == Decoded(disk)
      && (cacheValid ==> cacheStamp in contentAt && cache == contentAt[cacheStamp] && IndexOf(index, cache))
    }

    /** The file state fits everything its stamp was seen with. */
    ghost predicate Plausible(next: Disk)
      reads this
    {
      next.stamp in contentAt ==> contentAt[next.stamp] == Decoded(next)
    }

    /** The stamp a save would leave fits the document it would write. */
    ghost predicate Fits(doc: seq<Credential>, io: SaveIo)
      reads this
    {
      Plausible(Disk(Some(NormalizeAll(doc)), io.stamp))
    }

    constructor (d: Disk)
      ensures Valid() && disk == d
    {
      disk, cache, index, cacheStamp, cacheValid := d, [], map[], NoFile, false;
      contentAt := map[d.stamp := Decoded(d)];
    }

    /** An operator edits or replaces the file behind the store's back. */
    method ExternalEdit(next: Disk)
      requires Valid() && Plausible(next)
      modifies this`disk, this`contentAt
      ensures Valid() && disk == next && contentAt == old(contentAt)[next.stamp := Decoded(next)]
    {
      disk := next;
      contentAt := contentAt[next.stamp := Decoded(next)];
    }

    method SetCredentialsCache(doc: seq<Credential>, stamp: Stamp)
      requires stamp in contentAt && contentAt[stamp] == doc
      modifies this`cache, this`index, this`cacheStamp, this`cacheValid
      ensures cacheValid && cache == doc && IndexOf(index, doc) && cacheStamp == stamp
    {
      var built: map<string, Credential> := map[];
      var k := 0;
      while k < |doc|
        invariant 0 <= k <= |doc|
        invariant IndexOf(built, doc[..k])
      {
        assert doc[..k + 1] == doc[..k] + [doc[k]];
        forall id ensures FindFirst(doc[..k + 1], id) ==
            if FindFirst(doc[..k], id).Some? then FindFirst(doc[..k], id) else if doc[k].id == id then Some(doc[k]) else None
        {
          AppendFindFirst(doc[..k], doc[k], id);
        }
        if doc[k].id !in built {
          FindFirstFinds(doc[..k], doc[k].id);
          built := built[doc[k].id := doc[k]];
        }
        k := k + 1;
      }
      assert doc[..|doc|] == doc;
      cache, index, cacheStamp, cacheValid := doc, built, stamp, true;
    }

    /** A read is served from a file that can be read, or from a snapshot of its stamp that is not too old. */
    predicate Serves(readable: bool, aged: bool)
      reads this
    {
      readable || (cacheValid && disk.stamp == cacheStamp && !aged)
    }

    /** Serve the snapshot, or reload it when the stamp changed or it grew too old. */
    method EnsureCredentialsCache(readable: bool, aged: bool) returns (ok: bool)
      requires Valid()
      modifies this`cache, this`index, this`cacheStamp, this`cacheValid
      ensures Valid()
      ensures ok ==> cacheValid && cache == Decoded(disk) && IndexOf(index, Decoded(disk))
      ensures ok <==> old(Serves(readable, aged))
    {
      if cacheValid && disk.stamp == cacheStamp && !aged {
        return true;
      }
      if !readable {
        return false;
      }
      SetCredentialsCache(Decoded(disk), disk.stamp);
      return true;
    }

    /** Every read is the decoded file: by id the first record that carries it. */
    method GetCredential(id: string, readable: bool, aged: bool) returns (r: Result<Credential, StoreError>)
      requires Valid()
      modifies this`cache, this`index, this`cacheStamp, this`cacheValid
      ensures Valid()
      ensures r.Success? ==> FindFirst(Decoded(disk), id) == Some(r.value)
      ensures r.Success? <==> old(Serves(readable, aged)) && HasId(Decoded(disk), id)
      ensures r == Failure(NotFound) <==> old(Serves(readable, aged)) && !HasId(Decoded(disk), id)
      ensures r == Failure(Io) <==> !old(Serves(readable, aged))
    {
      var ok := EnsureCredentialsCache(readable, aged);
      if !ok {
        return Failure(Io);
      }
      FindFirstFinds(Decoded(disk), id);
      if id !in index {
        return Failure(NotFound);
      }
      return Success(index[id]);
    }

    method ListCredentials(readable: bool, aged: bool) returns (r: Result<seq<Credential>, StoreError>)
      requires Valid()
      modifies this`cache, this`index, this`cacheStamp, this`cacheValid
      ensures Valid()
      ensures r.Success? ==> r.value == StableSort(ListingBefore(), Decoded(disk))
      ensures r.Success? <==> old(Serves(readable, aged))
    {
      var ok := EnsureCredentialsCache(readable, aged);
      r := if ok then Success(StableSort(ListingBefore(), cache)) else Failure(Io);
    }

    method ListCredentialCandidates(readable: bool, aged: bool) returns (r: Result<seq<Credential>, StoreError>)
      requires Valid()
      modifies this`cache, this`index, this`cacheStamp, this`cacheValid
      ensures Valid()
      ensures r.Success? ==> r.value == StableSort(ListingBefore(), CandidateViews(Decoded(disk)))
      ensures r.Success? <==> old(Serves(readable, aged))
    {
      var ok := EnsureCredentialsCache(readable, aged);
      r := if ok then Success(StableSort(ListingBefore(), CandidateViews(cache))) else Failure(Io);
    }

    /** All or nothing: a failed write leaves the file and the snapshot alone. */
    method SaveCredentials(doc: seq<Credential>, io: SaveIo) returns (ok: bool)
      requires Valid()
      requires Fits(doc, io)
      modifies this
      ensures Valid()
      ensures ok <==> io.written
      ensures ok ==> disk == Disk(Some(NormalizeAll(doc)), io.stamp) && Decoded(disk) == NormalizeAll(doc)
      ensures !ok ==> disk == old(disk) && cache == old(cache) && index == old(index) &&
                      cacheStamp == old(cacheStamp) && cacheValid == old(cacheValid)
    {
      if !io.written {
        return false;
      }
      NormalizeTwice(doc);
      disk := Disk(Some(NormalizeAll(doc)), io.stamp);
      contentAt := contentAt[io.stamp := Decoded(disk)];
      if !io.statOk {
        cacheValid := false;
      } else {
        SetCredentialsCache(NormalizeAll(doc), io.stamp);
      }
      return true;
    }

    /** Nothing the store holds or serves has changed. */
    twostate predicate Untouched()
      reads this
    {
      disk == old(disk) && cache == old(cache) && index == old(index) && cacheStamp == old(cacheStamp) && cacheValid == old(cacheValid)
    }

    method PatchCredential(id: string, p: Patch, now: int, readable: bool,
        io: SaveIo) returns (r: Result<Credential, StoreError>)
      requires Valid()
      requires var next := PatchDoc(Decoded(disk), id, p, now); next.Some? ==> Fits(next.value, io)
      modifies this
      ensures Valid()
      ensures r.Success? <==> readable && PatchDoc(old(Decoded(disk)), id, p, now).Some? && io.written
      ensures r.Success? ==> Decoded(disk) == NormalizeAll(PatchDoc(old(Decoded(disk)), id, p, now).value)
      ensures r.Success? ==>
                var found := FindFirst(old(Decoded(disk)), id);
                found.Some? && Some(r.value) == PatchRecord(found.value, p, now)
      ensures r.Failure? ==> Untouched()
      ensures r == Failure(NotFound) <==> readable && !HasId(old(Decoded(disk)), id)
      ensures r == Failure(Rejected) <==>
                readable && HasId(old(Decoded(disk)), id) && PatchDoc(old(Decoded(disk)), id, p, now).None?
    {
      hide PatchRecord, PatchDoc, NormalizeAll;
      if !readable {
        return Failure(Io);
      }
      var doc := Decoded(disk);
      var k := 0;
      while k < |doc| && doc[k].id != id
        invariant 0 <= k <= |doc|
        invariant forall j :: 0 <= j < k ==> doc[j].id != id
      {
        k := k + 1;
      }
      if k == |doc| {
        PatchNeedsRecord(doc, id, p, now);
        return Failure(NotFound);
      }
      PatchAt(doc, k, id, p, now);
      var next := PatchRecord(doc[k], p, now);
      if next.None? {
        return Failure(Rejected);
      }
      var ok := SaveCredentials(doc[k := next.value], io);
      r := if ok then Success(next.value) else Failure(Io);
    }

    method DeleteCredential(id: string, readable: bool, io: SaveIo) returns (r: Result<(), StoreError>)
      requires Valid()
      requires Fits(DeleteDoc(Decoded(disk), id), io)
      modifies this
      ensures Valid()
      ensures r.Success? <==> readable && HasId(old(Decoded(disk)), id) && io.written
      ensures r.Success? ==> Decoded(disk) == NormalizeAll(DeleteDoc(old(Decoded(disk)), id))
      ensures r.Failure? ==> Untouched()
      ensures r == Failure(NotFound) <==> readable && !HasId(old(Decoded(disk)), id)
    {
      if !readable {
        return Failure(Io);
      }
      var found, next := Without(Decoded(disk), id);
      if !found {
        return Failure(NotFound);
      }
      var ok := SaveCredentials(next, io);
      r := if ok then Success(()) else Failure(Io);
    }

    method CreateCredential(i: Input, id: string, now: int, readable: bool,
        io: SaveIo) returns (r: Result<Credential, StoreError>)
      requires Valid()
      requires Fits(Decoded(disk) + [NewCredential(i, id, now)], io)
      modifies this
      ensures Valid()
      ensures r.Success? <==> ValidInput(i) && readable && !MatchesSome(old(Decoded(disk)), i) && io.written
      ensures r.Success? ==> r.value == NewCredential(i, id, now)
      ensures r.Success? ==> Decoded(disk) == NormalizeAll(old(Decoded(disk)) + [NewCredential(i, id, now)])
      ensures r.Failure? ==> Untouched()
      ensures r == Failure(InvalidInput) <==> !ValidInput(i)
      ensures r == Failure(Exists) <==> ValidInput(i) && readable && MatchesSome(old(Decoded(disk)), i)
    {
      if !ValidInput(i) {
        return Failure(InvalidInput);
      }
      if !readable {
        return Failure(Io);
      }
      var doc := Decoded(disk);
      if MatchesSome(doc, i) {
        return Failure(Exists);
      }
      var created := NewCredential(i, id, now);
      var ok := SaveCredentials(doc + [created], io);
      r := if ok then Success(created) else Failure(Io);
    }

    method UpsertCredential(i: Input, id: string, now: int, readable: bool, io: SaveIo) returns (r: Result<bool, StoreError>)
      requires Valid()
      requires Fits(Upsert(Decoded(disk), i, id, now), io)
      modifies this
      ensures Valid()
      ensures r.Success? <==> ValidInput(i) && readable && io.written
      ensures r.Success? ==> Decoded(disk) == NormalizeAll(Upsert(old(Decoded(disk)), i, id, now))
      ensures r == Failure(InvalidInput) <==> !ValidInput(i)
      ensures r.Success? ==> (r.value <==> Creates(old(Decoded(disk)), i))
      ensures r.Failure? ==> Untouched()
    {
      if !ValidInput(i) {
        return Failure(InvalidInput);
      }
      if !readable {
        return Failure(Io);
      }
      var result, created, next := UpsertCredentialDoc(Decoded(disk), i, id, now);
      var ok := SaveCredentials(next, io);
      r := if ok then Success(created) else Failure(Io);
    }

    /** One lock, one write: an invalid input or a failed save commits none of the batch. */
    method BulkUpsertCredentials(inputs: seq<Input>, ids: seq<string>, now: int, readable: bool, io: SaveIo)
      returns (r: Result<seq<bool>, StoreError>)
      requires Valid() && |ids| == |inputs|
      requires Fits(UpsertAll(Decoded(disk), inputs, ids, now), io)
      modifies this
      ensures Valid()
      ensures r.Success? && inputs != [] ==> Decoded(disk) == NormalizeAll(UpsertAll(old(Decoded(disk)), inputs, ids, now))
      ensures r.Success? <==> inputs == [] || ((forall k :: 0 <= k < |inputs| ==> ValidInput(inputs[k])) && readable && io.written)
      ensures r.Success? ==> |r.value| == |inputs|
      ensures r.Success? ==> Trues(r.value) == CreatedCount(old(Decoded(disk)), inputs, ids, now)
      ensures r.Success? ==> FlagsTell(r.value, old(Decoded(disk)), inputs, ids, now)
      ensures r.Failure? || inputs == [] ==> Untouched()
      ensures r == Failure(InvalidInput) <==> exists k :: 0 <= k < |inputs| && !ValidInput(inputs[k])
    {
      if inputs == [] {
        return Success([]);
      }
      var valid := AllValid(inputs);
      if !valid {
        return Failure(InvalidInput);
      }
      if !readable {
        return Failure(Io);
      }
      var doc, flags := UpsertEach(Decoded(disk), inputs, ids, now);
      var ok := SaveCredentials(doc, io);
      r := if ok then Success(flags) else Failure(Io);
    }

    /** A whole inspection run under one lock: rejected batches, read errors and
        failed saves commit nothing, and a batch that touches nothing is not saved. */
    method ApplyInspectionActions(actions: seq<Action>, now: int, readable: bool, io: SaveIo)
      returns (r: Result<seq<ActionResult>, StoreError>)
      requires Valid()
      requires Fits(Fold(Decoded(disk), actions, now), io)
      modifies this
      ensures Valid()
      ensures r.Success? && actions != [] ==>
                && DistinctIds(actions)
                && r.value == FoldResults(old(Decoded(disk)), actions, now)
                && Decoded(disk) == NormalizeAll(Fold(old(Decoded(disk)), actions, now))
      ensures r.Success? <==>
                || actions == []
                || (DistinctIds(actions) && AllNamed(actions) && readable
                    && (io.written || forall result :: result in FoldResults(old(Decoded(disk)), actions, now) ==> !Touches(result)))
      ensures actions == [] ==> r == Success([])
      ensures r.Failure? || actions == [] ==> Untouched()
    {
      if actions == [] {
        return Success([]);
      }
      var seen: set<string>, k := {}, 0;
      while k < |actions|
        invariant 0 <= k <= |actions|
        invariant seen == set j | 0 <= j < k :: actions[j].id
        invariant DistinctIds(actions[..k])
        invariant forall j :: 0 <= j < k ==> Named(actions[j])
      {
        if !Named(actions[k]) {
          return Failure(InvalidAction);
        }
        if actions[k].id in seen {
          return Failure(DuplicateAction);
        }
        seen := seen + {actions[k].id};
        k := k + 1;
      }
      assert actions[..|actions|] == actions;
      if !readable {
        return Failure(Io);
      }
      var results, next, changed := ApplyActions(Decoded(disk), actions, now);
      if !changed {
        DecodedIsNormal(disk);
        return Success(results);
      }
      var ok := SaveCredentials(next, io);
      r := if ok then Success(results) else Failure(Io);
    }
  }

  // ---------------------------------------------------------------------------
  // Reads between edits

  /** A request's read by id, or an operator's edit of the file. */
  datatype Moment = Edit(next: Disk) | Get(id: string, readable: bool, aged: bool)

  /** The file as the edits leave it. */
  function DiskAfter(d: Disk, moments: seq<Moment>): Disk {
    if moments == [] then d
    else
      var last := moments[|moments| - 1];
      if last.Edit? then last.next else DiskAfter(d, moments[..|moments| - 1])
  }

  /** Equal stamps mean equal content, over all edits. */
  predicate StampsTell(moments: seq<Moment>) {
    forall j, k :: 0 <= j < k < |moments| && moments[j].Edit? && moments[k].Edit? && moments[j].next.stamp == moments[k].next.stamp ==>
      Decoded(moments[j].next) == Decoded(moments[k].next)
  }

  /** What a read of the file itself would have said; a snapshot may also serve while the file cannot be read. */
  predicate ReadsFile(r: Option<Result<Credential, StoreError>>, m: Moment, d: Disk) {
    m.Get? ==>
      && r.Some?
      && (r.value.Success? ==> FindFirst(Decoded(d), m.id) == Some(r.value.value))
      && (r.value == Failure(NotFound) ==> !HasId(Decoded(d), m.id))
      && (m.readable ==> r.value == Failure(NotFound) || r.value.Success?)
  }

  method AtMoment(store: Store, m: Moment) returns (answer: Option<Result<Credential, StoreError>>)
    requires store.Valid() && (m.Edit? ==> store.Plausible(m.next))
    modifies store
    ensures store.Valid() && store.disk == if m.Edit? then m.next else old(store.disk)
    ensures store.contentAt == if m.Edit? then old(store.contentAt)[m.next.stamp := Decoded(m.next)] else old(store.contentAt)
    ensures ReadsFile(answer, m, old(store.disk))
  {
    hide Decoded, FindFirst, HasId, IndexOf;
    match m
    case Edit(next) =>
      store.ExternalEdit(next);
      answer := None;
    case Get(id, readable, aged) =>
      var r := store.GetCredential(id, readable, aged);
      answer := Some(r);
  }

  /** However edits and reads alternate, no read is older than the last edit. */
  method ReadBetweenEdits(store: Store, moments: seq<Moment>) returns (answers: seq<Option<Result<Credential, StoreError>>>)
    requires store.Valid() && StampsTell(moments)
    requires forall m :: m in moments && m.Edit? ==> store.Plausible(m.next)
    modifies store
    ensures store.Valid() && store.disk == DiskAfter(old(store.disk), moments) && |answers| == |moments|
    ensures forall k :: 0 <= k < |moments| ==> ReadsFile(answers[k], moments[k], DiskAfter(old(store.disk), moments[..k]))
  {
    hide Decoded, FindFirst, HasId, IndexOf, ReadsFile, Store.Valid;
    answers := [];
    assert moments[..0] == [];
    for n := 0 to |moments|
      invariant store.Valid() && |answers| == n && store.disk == DiskAfter(old(store.disk), moments[..n])
      invariant forall k :: n <= k < |moments| && moments[k].Edit? ==> store.Plausible(moments[k].next)
      invariant forall k :: 0 <= k < n ==> ReadsFile(answers[k], moments[k], DiskAfter(old(store.disk), moments[..k]))
    {
      assert moments[..n + 1][..n] == moments[..n];
      var answer := AtMoment(store, moments[n]);
      answers := answers + [answer];
    }
    assert moments[..|moments|] == moments;
  }

  function Trues(flags: seq<bool>): nat {
    if flags == [] then 0 else (if flags[0] then 1 else 0) + Trues(flags[1..])
  }

  lemma {:induction false} TruesAppend(flags: seq<bool>, flag: bool)
    ensures Trues(flags + [flag]) == Trues(flags) + if flag then 1 else 0
  {
    if flags != [] {
      assert (flags + [flag])[1..] == flags[1..] + [flag];
      TruesAppend(flags[1..], flag);
    }
  }

  lemma DecodedIsNormal(d: Disk)
    ensures NormalizeAll(Decoded(d)) == Decoded(d)
  {
  }

  lemma {:induction false} PatchNeedsRecord(doc: seq<Credential>, id: string, p: Patch, now: int)
    ensures PatchDoc(doc, id, p, now).Some? ==> HasId(doc, id)
  {
    if doc != [] && doc[0].id != id {
      PatchNeedsRecord(doc[1..], id, p, now);
      if HasId(doc[1..], id) {
        var k :| 0 <= k < |doc[1..]| && doc[1..][k].id == id;
        assert doc[k + 1].id == id;
      }
    }
  }

  lemma {:induction false} PatchAt(doc: seq<Credential>, k: nat, id: string, p: Patch, now: int)
    requires k < |doc| && doc[k].id == id && forall j :: 0 <= j < k ==> doc[j].id != id
    ensures PatchDoc(doc, id, p, now).Some? <==> PatchRecord(doc[k], p, now).Some?
    ensures PatchRecord(doc[k], p, now).Some? ==> PatchDoc(doc, id, p, now).value == doc[k := PatchRecord(doc[k], p, now).value]
    ensures FindFirst(doc, id) == Some(doc[k]) && HasId(doc, id)
  {
    if k > 0 {
      PatchAt(doc[1..], k - 1, id, p, now);
    }
  }
}
