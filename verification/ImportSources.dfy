/**
  Where import entries come from: the parser of credential documents and the client
  of the SSO converter. Both refuse an entry without a token, so the importer never
  meets one. (internal/auth/import_grok.go, internal/sso/client.go)
 */
module ImportSources {
  import opened Common
  import opened Credentials
  import opened ImportJob

  // ---------------------------------------------------------------------------
  // Credential documents

  /** A decoded object: its token fields, whether its type, expiry and issuer are
      acceptable, and what its other fields make of an input. */
  datatype Entry = Entry(key: string, access: string, refresh: string, proper: bool, rest: Input)

  datatype Raw = Undecodable | Object(entry: Entry)

  /** A member of a document: an account list, an object under a name of its own, or something else. */
  datatype Member = Accounts(values: Option<seq<Raw>>) | Named(value: Raw) | Other

  datatype Document = Malformed | List(values: seq<Raw>) | Members(bare: Raw, members: Option<seq<Member>>)

  predicate EntryHasToken(e: Entry) {
    e.key != "" || e.access != "" || e.refresh != ""
  }

  function InputOf(e: Entry): Input {
    e.rest.(access := FirstNonEmpty(e.key, e.access), refresh := e.refresh)
  }

  /** Any of the three token fields will do; the key goes before the access token. */
  lemma TokensTaken(e: Entry)
    ensures EntryHasToken(e) <==> e.key != "" || e.access != "" || e.refresh != ""
    ensures var i := InputOf(e);
            && i.refresh == e.refresh && (e.key != "" ==> i.access == e.key) && (e.key == "" ==> i.access == e.access)
            && i.(access := e.rest.access, refresh := e.rest.refresh) == e.rest
  {
  }

  predicate Good(raw: Raw) {
    raw.Object? && EntryHasToken(raw.entry) && raw.entry.proper
  }

  /** The values a member offers as entries; an object without a token is passed over with a warning. */
  function Offered(m: Member): seq<Raw> {
    match m
    case Accounts(values) => if values.Some? then values.value else []
    case Named(value) => if value.Object? && !EntryHasToken(value.entry) then [] else [value]
    case Other => []
  }

  function AllOffered(members: seq<Member>): seq<Raw> {
    if members == [] then [] else AllOffered(members[..|members| - 1]) + Offered(members[|members| - 1])
  }

  /** An account list is an array with something in it. */
  predicate ListsAreFilled(members: seq<Member>) {
    forall k :: 0 <= k < |members| && members[k].Accounts? ==> members[k].values.Some? && members[k].values.value != []
  }

  predicate AllGood(values: seq<Raw>) {
    forall k :: 0 <= k < |values| ==> Good(values[k])
  }

  /** What a document offers, or None when it cannot be taken apart. */
  function EntriesIn(d: Document): Option<seq<Raw>> {
    match d
    case Malformed => None
    case List(values) => Some(values)
    case Members(bare, members) =>
      if bare.Undecodable? then None
      else if EntryHasToken(bare.entry) then Some([bare])
      else if members.None? || !ListsAreFilled(members.value) then None
      else Some(AllOffered(members.value))
  }

  /** A document is accepted exactly when everything it offers is good, and then yields just that, in order. */
  predicate ParsedAs(d: Document, doc: JsonDoc) {
    var offered := EntriesIn(d);
    && (doc.Entries? <==> offered.Some? && offered.value != [] && AllGood(offered.value))
    && (doc.Entries? ==> doc.inputs == InputsOfAll(offered.value))
  }

  function InputsOfAll(values: seq<Raw>): (inputs: seq<Input>)
    requires AllGood(values)
    ensures |inputs| == |values| && forall k :: 0 <= k < |inputs| ==> inputs[k] == InputOf(values[k].entry)
  {
    seq(|values|, k requires 0 <= k < |values| => InputOf(values[k].entry))
  }

  /** The loop of normalizeRawEntries, for a list that is not empty. */
  method NormalizeRawEntries(values: seq<Raw>) returns (inputs: Option<seq<Input>>)
    ensures inputs.Some? <==> values != [] && AllGood(values)
    ensures inputs.Some? ==> inputs.value == InputsOfAll(values)
  {
    var taken: seq<Input> := [];
    for k := 0 to |values|
      invariant |taken| == k && forall j :: 0 <= j < k ==> Good(values[j]) && taken[j] == InputOf(values[j].entry)
    {
      if values[k].Undecodable? || !EntryHasToken(values[k].entry) || !values[k].entry.proper {
        assert !Good(values[k]);
        return None;
      }
      taken := taken + [InputOf(values[k].entry)];
    }
    return if taken == [] then None else Some(taken);
  }

  lemma {:induction false} OfferedStays(members: seq<Member>, n: nat)
    requires n <= |members|
    ensures AllOffered(members[..n]) <= AllOffered(members)
    decreases |members|
  {
    if n < |members| {
      OfferedStays(members[..|members| - 1], n);
      assert members[..|members| - 1][..n] == members[..n];
    } else {
      assert members[..n] == members;
    }
  }

  lemma BadSpoils(members: seq<Member>, n: nat)
    requires n < |members| && !AllGood(Offered(members[n]))
    ensures !AllGood(AllOffered(members))
  {
    OfferedStays(members, n + 1);
    OfferedNext(members, n);
    hide AllGood, Offered, AllOffered;
    BadStays(AllOffered(members[..n]), Offered(members[n]), AllOffered(members));
  }

  lemma BadStays(before: seq<Raw>, here: seq<Raw>, all: seq<Raw>)
    requires before + here <= all && !AllGood(here)
    ensures !AllGood(all)
  {
    hide Good;
    var k :| 0 <= k < |here| && !Good(here[k]);
    assert all[|before| + k] == (before + here)[|before| + k];
  }

  lemma OfferedNext(members: seq<Member>, n: nat)
    requires n < |members|
    ensures AllOffered(members[..n + 1]) == AllOffered(members[..n]) + Offered(members[n])
  {
    assert members[..n + 1][..n] == members[..n];
  }

  lemma GoodJoin(a: seq<Raw>, b: seq<Raw>)
    requires AllGood(a)
    ensures AllGood(a + b) <==> AllGood(b)
    ensures AllGood(b) ==> InputsOfAll(a + b) == InputsOfAll(a) + InputsOfAll(b)
  {
    hide Good, InputOf;
    if AllGood(a + b) {
      forall k | 0 <= k < |b| ensures Good(b[k]) {
        assert (a + b)[|a| + k] == b[k];
      }
    }
  }

  method ParseDocument(d: Document) returns (doc: JsonDoc)
    ensures ParsedAs(d, doc)
  {
    hide Good, InputOf, AllOffered, InputsOfAll;
    match d
    case Malformed =>
      return BadJson;
    case List(values) =>
      var inputs := NormalizeRawEntries(values);
      return if inputs.Some? then Entries(inputs.value) else BadJson;
    case Members(bare, members) =>
      if bare.Undecodable? {
        return BadJson;
      }
      if EntryHasToken(bare.entry) {
        var inputs := NormalizeRawEntries([bare]);
        return if inputs.Some? then Entries(inputs.value) else BadJson;
      }
      if members.None? {
        return BadJson;
      }
      doc := ParseMembers(members.value);
  }

  /** The loop over the members of a document. */
  method ParseMembers(members: seq<Member>) returns (doc: JsonDoc)
    ensures doc.Entries? <==> ListsAreFilled(members) && AllOffered(members) != [] && AllGood(AllOffered(members))
    ensures doc.Entries? ==> doc.inputs == InputsOfAll(AllOffered(members))
  {
    hide Good, InputOf, EntryHasToken, InputsOfAll;
    var inputs: seq<Input> := [];
    assert members[..0] == [];
    NoneOffered();
    for n := 0 to |members|
      invariant ListsAreFilled(members[..n])
      invariant AllGood(AllOffered(members[..n])) && inputs == InputsOfAll(AllOffered(members[..n]))
    {
      assert members[..n + 1][..n] == members[..n];
      GoodJoin(AllOffered(members[..n]), Offered(members[n]));
      match members[n]
      case Accounts(values) =>
        if values.None? {
          return BadJson;
        }
        var nested := NormalizeRawEntries(values.value);
        if nested.None? {
          if values.value != [] {
            BadSpoils(members, n);
          }
          return BadJson;
        }
        inputs := inputs + nested.value;
      case Named(value) =>
        if value.Undecodable? || EntryHasToken(value.entry) {
          var nested := NormalizeRawEntries([value]);
          if nested.None? {
            BadSpoils(members, n);
            return BadJson;
          }
          inputs := inputs + nested.value;
        } else {
          assert AllOffered(members[..n]) + [] == AllOffered(members[..n]);
        }
      case Other =>
        assert AllOffered(members[..n]) + [] == AllOffered(members[..n]);
    }
    assert members[..|members|] == members;
    InputsAreAsMany(AllOffered(members));
    return if inputs == [] then BadJson else Entries(inputs);
  }

  lemma NoneOffered()
    ensures AllOffered([]) == [] && AllGood([]) && InputsOfAll([]) == []
  {
  }

  lemma InputsAreAsMany(values: seq<Raw>)
    requires AllGood(values)
    ensures |InputsOfAll(values)| == |values|
  {
  }

  // ---------------------------------------------------------------------------
  // The SSO converter's client

  const MAX_BATCH_ITEMS := 100
  const DEFAULT_MAX_BATCH := 50

  /** One result of the converter service: the position it is for, its tokens,
      whether its expiry can be read, and what else it makes of an input. */
  datatype Answer = Answer(index: int, ok: bool, access: string, refresh: string, expiryOk: bool, rest: Input)

  /** The service's answer to one batch, or none that can be read. */
  datatype Reply = NoReply | Replied(answers: seq<Answer>)

  function Delivered(a: Answer): Option<Input> {
    if a.ok && (a.access != "" || a.refresh != "") && a.expiryOk
    then Some(a.rest.(name := a.rest.email, access := a.access, refresh := a.refresh))
    else None
  }

  /** A result is an input exactly when it succeeded with a token and a readable
      expiry; it goes by its email and carries its own tokens. */
  lemma DeliveredMeans(a: Answer)
    ensures Delivered(a).Some? <==> a.ok && a.expiryOk && !(a.access == "" && a.refresh == "")
    ensures Delivered(a).Some? ==>
              var i := Delivered(a).value;
              && i.access == a.access && i.refresh == a.refresh && i.name == a.rest.email
              && i.email == a.rest.email && i.userId == a.rest.userId && i.expiresAt == a.rest.expiresAt
  {
  }

  /** At most one result for each position asked about. */
  predicate WellIndexed(size: nat, answers: seq<Answer>) {
    && |answers| <= size
    && (forall j :: 0 <= j < |answers| ==> 0 <= answers[j].index < size)
    && (forall i, j :: 0 <= i < j < |answers| ==> answers[i].index != answers[j].index)
  }

  /** What the answers say of a position; a position nobody answered for has failed. */
  function Slot(answers: seq<Answer>, k: int): Option<Input> {
    if answers == [] then None
    else
      var last := answers[|answers| - 1];
      if last.index == k then Delivered(last) else Slot(answers[..|answers| - 1], k)
  }

  /** Each result lands at the position it names. */
  lemma {:induction false} SlotHoldsItsAnswer(size: nat, answers: seq<Answer>, j: nat)
    requires WellIndexed(size, answers) && j < |answers|
    ensures Slot(answers, answers[j].index) == Delivered(answers[j])
  {
    if j < |answers| - 1 {
      SlotHoldsItsAnswer(size, answers[..|answers| - 1], j);
    }
  }

  method ConvertBatch(size: nat, reply: Reply) returns (output: Option<seq<Option<Input>>>)
    ensures output.Some? <==> reply.Replied? && WellIndexed(size, reply.answers)
    ensures output.Some? ==> |output.value| == size && forall k :: 0 <= k < size ==> output.value[k] == Slot(reply.answers, k)
  {
    if reply.NoReply? {
      return None;
    }
    hide Delivered, Slot, WellIndexed, Seen;
    var answers := reply.answers;
    var slots: seq<Option<Input>>, seen := seq(size, _ => None), seq(size, _ => false);
    NothingAnswered(seen, size);
    for n := 0 to |answers|
      invariant |slots| == |seen| == size && WellIndexed(size, answers[..n]) && Seen(seen, answers[..n])
      invariant forall k :: 0 <= k < size ==> slots[k] == Slot(answers[..n], k)
    {
      var at := answers[n].index;
      OneMoreAnswer(size, answers, n, seen);
      if n >= size || at < 0 || at >= size || seen[at] {
        return None;
      }
      seen := seen[at := true];
      slots := slots[at := Delivered(answers[n])];
    }
    assert answers[..|answers|] == answers;
    return Some(slots);
  }

  /** A position is seen when an answer has named it. */
  predicate Seen(seen: seq<bool>, answers: seq<Answer>) {
    forall k :: 0 <= k < |seen| ==> (seen[k] <==> exists j :: 0 <= j < |answers| && answers[j].index == k)
  }

  lemma NothingAnswered(seen: seq<bool>, size: nat)
    requires |seen| == size && forall k :: 0 <= k < size ==> !seen[k]
    ensures WellIndexed(size, []) && Seen(seen, []) && forall k :: Slot([], k) == None
  {
  }

  lemma OneMoreAnswer(size: nat, answers: seq<Answer>, n: nat, seen: seq<bool>)
    requires n < |answers| && |seen| == size && WellIndexed(size, answers[..n]) && Seen(seen, answers[..n])
    ensures var at := answers[n].index;
            if n < size && 0 <= at < size && !seen[at] then
              && WellIndexed(size, answers[..n + 1]) && Seen(seen[at := true], answers[..n + 1])
              && forall k :: Slot(answers[..n + 1], k) == if k == at then Delivered(answers[n]) else Slot(answers[..n], k)
            else !WellIndexed(size, answers)
  {
    hide Delivered;
    var at, before, more := answers[n].index, answers[..n], answers[..n + 1];
    assert more[..n] == before && forall j :: 0 <= j < n ==> more[j] == before[j];
    if n < size && 0 <= at < size && !seen[at] {
      var next := seen[at := true];
      forall k | 0 <= k < |next| ensures next[k] <==> exists j :: 0 <= j < |more| && more[j].index == k {
        if next[k] && k != at {
          var j :| 0 <= j < n && before[j].index == k;
          assert more[j].index == k;
        } else if k == at {
          assert more[n].index == k;
        }
      }
      forall k ensures Slot(more, k) == if k == at then Delivered(answers[n]) else Slot(before, k) {
        assert more[|more| - 1] == answers[n] && more[..|more| - 1] == before;
      }
    } else if n < size && 0 <= at < size {
      var j :| 0 <= j < n && before[j].index == at;
      assert answers[j].index == answers[n].index;
    }
  }

  /** The configured batch size, in its bounds; None above them. */
  function BatchSize(maxBatch: int): Option<nat> {
    if maxBatch <= 0 then Some(DEFAULT_MAX_BATCH) else if maxBatch > MAX_BATCH_ITEMS then None else Some(maxBatch)
  }

  lemma BatchBounds(maxBatch: int)
    ensures BatchSize(maxBatch).None? <==> maxBatch > 100
    ensures 0 < maxBatch <= 100 ==> BatchSize(maxBatch) == Some(maxBatch)
    ensures maxBatch <= 0 ==> BatchSize(maxBatch) == Some(50)
  {
  }

  function ReplyAt(replies: seq<Reply>, b: nat): Reply {
    if b < |replies| then replies[b] else NoReply
  }

  function Least(a: nat, b: nat): nat {
    if a < b then a else b
  }

  /** Every batch that covers the values has a reply that can be read. */
  ghost predicate AllReplied(count: nat, size: nat, replies: seq<Reply>) {
    forall b: nat :: b * size < count ==> RepliedWell(count, size, replies, b)
  }

  /** The b-th batch got a reply that answers its values, each at most once, and no others. */
  ghost predicate RepliedWell(count: nat, size: nat, replies: seq<Reply>, b: nat)
    requires b * size < count
  {
    b < |replies| && replies[b].Replied? && WellIndexed(Least(size, count - b * size), replies[b].answers)
  }

  /** Value k is answered in batch k / size, at position k % size. */
  predicate Lands(output: seq<Option<Input>>, size: nat, replies: seq<Reply>)
    requires size > 0
  {
    forall k :: 0 <= k < |output| ==>
      k / size < |replies| && replies[k / size].Replied? && output[k] == Slot(replies[k / size].answers, k % size)
  }

  /** The converter's client: `ready` with an enabled endpoint and a key, `sendable` with a transport. */
  datatype Client = Client(ready: bool, sendable: bool, maxBatch: int)

  /** The conversion fails as a whole or lands every result at its value. */
  ghost predicate ConvertedAs(count: nat, client: Client, replies: seq<Reply>, c: Conversion) {
    var size := BatchSize(client.maxBatch);
    && !c.NotConfigured?
    && (c.Converted? <==> client.ready && (count == 0 || (size.Some? && client.sendable && AllReplied(count, size.value, replies))))
    && (c.Converted? ==> |c.inputs| == count && (count > 0 ==> Lands(c.inputs, size.value, replies)))
  }

  /** The batches one after another; `replies` are the service's. */
  method Convert(count: nat, client: Client, replies: seq<Reply>) returns (c: Conversion)
    ensures ConvertedAs(count, client, replies, c)
  {
    if !client.ready {
      return ConvertFails;
    }
    if count == 0 {
      return Converted([]);
    }
    if BatchSize(client.maxBatch).None? || !client.sendable {
      return ConvertFails;
    }
    var size := BatchSize(client.maxBatch).value;
    hide BatchSize, Slot, WellIndexed, Lands, RepliedWell;
    var output: seq<Option<Input>> := [];
    ghost var b := 0;
    NothingLanded(size, replies);
    while |output| < count
      invariant |output| == Least(b * size, count) && Lands(output, size, replies)
      invariant forall i: nat :: i < b && i * size < count ==> RepliedWell(count, size, replies, i)
      decreases count - |output|
    {
      BatchNumber(b, size, 0);
      var start := |output|;
      var converted := ConvertBatch(Least(size, count - start), ReplyAt(replies, start / size));
      BatchReply(count, size, replies, b, converted);
      if converted.None? {
        return ConvertFails;
      }
      LandsMore(output, converted.value, b, size, replies);
      output := output + converted.value;
      Rises(b, b, size);
      b := b + 1;
    }
    BatchesDone(b, size, count);
    return Converted(output);
  }

  lemma BatchNumber(b: nat, size: nat, k: nat)
    requires k < size
    ensures (b * size + k) / size == b && (b * size + k) % size == k
  {
    var q := (b * size + k) / size;
    assert b * size + k == q * size + (b * size + k) % size;
    Rises(b + 1, q, size);
    Rises(q + 1, b, size);
  }

  lemma Rises(a: nat, b: nat, size: nat)
    ensures a <= b ==> a * size <= b * size
    ensures (a + 1) * size == a * size + size
  {
  }

  lemma BatchesDone(b: nat, size: nat, count: nat)
    requires b * size >= count
    ensures forall i: nat :: i * size < count ==> i < b
  {
    forall i: nat ensures b <= i ==> b * size <= i * size {
      Rises(b, i, size);
    }
  }

  lemma NothingLanded(size: nat, replies: seq<Reply>)
    requires size > 0
    ensures Lands([], size, replies)
  {
  }

  lemma BatchReply(count: nat, size: nat, replies: seq<Reply>, b: nat, converted: Option<seq<Option<Input>>>)
    requires b * size < count
    requires var reply := ReplyAt(replies, b);
             converted.Some? <==> reply.Replied? && WellIndexed(Least(size, count - b * size), reply.answers)
    ensures converted.Some? <==> RepliedWell(count, size, replies, b)
    ensures converted.Some? ==> b < |replies| && replies[b].Replied? && replies[b] == ReplyAt(replies, b)
  {
  }

  lemma LandsMore(output: seq<Option<Input>>, more: seq<Option<Input>>, b: nat, size: nat, replies: seq<Reply>)
    requires size > 0 && |output| == b * size && |more| <= size && Lands(output, size, replies)
    requires b < |replies| && replies[b].Replied?
    requires forall k :: 0 <= k < |more| ==> more[k] == Slot(replies[b].answers, k)
    ensures Lands(output + more, size, replies)
  {
    hide Slot;
    forall k | |output| <= k < |output + more| ensures k / size == b && k % size == k - b * size {
      BatchNumber(b, size, k - b * size);
    }
  }

  // ---------------------------------------------------------------------------
  // Neither delivers an entry without a token

  lemma DocumentsAreTokened(d: Document, doc: JsonDoc)
    requires ParsedAs(d, doc) && doc.Entries?
    ensures forall k :: 0 <= k < |doc.inputs| ==> HasToken(doc.inputs[k])
  {
    hide EntriesIn;
    var offered := EntriesIn(d).value;
    forall k | 0 <= k < |doc.inputs| ensures HasToken(doc.inputs[k]) {
      assert Good(offered[k]);
    }
  }

  lemma {:induction false} SlotsAreTokened(answers: seq<Answer>, k: int)
    ensures Slot(answers, k).Some? ==> HasToken(Slot(answers, k).value)
  {
    if answers != [] {
      SlotsAreTokened(answers[..|answers| - 1], k);
    }
  }

  /** A file as it is uploaded: what its bytes are as a document, how many values
      they are as an SSO list, and what the service would answer for them. */
  datatype Upload = Upload(name: string, format: Format, looksJson: bool, document: Document, values: Option<nat>, replies: seq<Reply>)

  ghost predicate Produced(u: Upload, client: Option<Client>, file: File) {
    && file.name == u.name && file.format == u.format && file.looksJson == u.looksJson
    && ParsedAs(u.document, file.json)
    && (file.sso.Values? <==> u.values.Some?)
    && (file.sso.Values? ==> file.sso.count == u.values.value)
    && (file.sso.Values? && client.None? ==> file.sso.conversion.NotConfigured?)
    && (file.sso.Values? && client.Some? ==> ConvertedAs(u.values.value, client.value, u.replies, file.sso.conversion))
  }

  method Produce(u: Upload, client: Option<Client>) returns (file: File)
    ensures Produced(u, client, file)
  {
    var json := ParseDocument(u.document);
    var sso := BadSso;
    if u.values.Some? {
      var conversion := NotConfigured;
      if client.Some? {
        conversion := Convert(u.values.value, client.value, u.replies);
      }
      sso := Values(u.values.value, conversion);
    }
    return File(u.name, u.format, u.looksJson, json, sso);
  }

  /** What the two producers make of an upload carries tokens throughout. */
  lemma ProducedIsTokened(u: Upload, client: Option<Client>, file: File)
    requires Produced(u, client, file)
    ensures Tokened(file)
  {
    hide ParsedAs, HasToken, AllReplied, Slot;
    if file.json.Entries? {
      DocumentsAreTokened(u.document, file.json);
    }
    if file.sso.Values? && file.sso.conversion.Converted? {
      var inputs := file.sso.conversion.inputs;
      forall k | 0 <= k < |inputs| && inputs[k].Some? ensures HasToken(inputs[k].value) {
        var size := BatchSize(client.value.maxBatch).value;
        SlotsAreTokened(u.replies[k / size].answers, k % size);
      }
    }
  }

  /** An import from its uploads to its end: whatever they hold and whatever the
      service answers, everybody sent to the store has an identity of their own. */
  method Import(job: Job, uploads: seq<Upload>, client: Option<Client>, limit: nat, clock: Clock, answer: StoreAnswer)
    returns (sent: seq<Input>, files: seq<File>)
    requires job.Waiting() && |job.files| == |uploads| && job.error == "" && clock.ticks == 0
    modifies job, clock
    ensures job.Closed() && OwnIdentities(sent)
    ensures |files| == |uploads| && forall f :: 0 <= f < |files| ==> Produced(uploads[f], client, files[f])
    ensures sent != [] || (2 * |files| + 2 <= clock.deadline && AllEntries(files, limit) <= limit) ==>
              IdsOf(sent) == KeptFrom([], BatchIds(files, limit))
  {
    hide Produced, Tokened, OwnIdentities, Job.Waiting, Job.Closed, KeptFrom, BatchIds, AllEntries, IdsOf;
    files := [];
    for f := 0 to |uploads|
      invariant |files| == f && job.Waiting() && |job.files| == |uploads| && job.error == "" && clock.ticks == 0
      invariant forall k :: 0 <= k < f ==> Tokened(files[k]) && Produced(uploads[k], client, files[k])
    {
      var file := Produce(uploads[f], client);
      ProducedIsTokened(uploads[f], client, file);
      files := files + [file];
    }
    sent := Run(job, files, limit, clock, answer);
  }
}
