/**
  One import job: parse files, drop duplicates, store what is left, and account
  for every item on every exit. (internal/importer/manager.go)
 */
module ImportJob {
  import opened Common
  import opened Credentials

  datatype ItemStatus = Queued | Created | Updated | Skipped | Failed

  datatype Item = Item(source: string, status: ItemStatus, credentialId: string, error: string)

  datatype FileStatus = FileQueued | FileRunning | FileParsed | FileCompleted | FilePartial | FileFailed

  datatype Tally = Tally(total: nat, processed: nat, created: nat, updated: nat, skipped: nat, failed: nat)

  datatype FileResult = FileResult(source: string, name: string, status: FileStatus, results: seq<Item>, tally: Tally)

  datatype JobStatus = JobQueued | JobRunning | JobCompleted | JobPartial | JobFailed

  // ---------------------------------------------------------------------------
  // Files, as their parsers see them

  datatype Format = Auto | Json | Sso

  datatype JsonDoc = Entries(inputs: seq<Input>) | BadJson

  /** What the converter makes of the values; None for an entry it refused. */
  datatype Conversion = NotConfigured | ConvertFails | Converted(inputs: seq<Option<Input>>)

  datatype SsoDoc = Values(count: nat, conversion: Conversion) | BadSso

  datatype File = File(name: string, format: Format, looksJson: bool, json: JsonDoc, sso: SsoDoc)

  datatype ParsedItem = ParsedItem(resultIndex: nat, input: Input)

  function FileReference(file: nat): string {
    "file-" + Decimal(file + 1)
  }

  function EntryReference(file: nat, entry: nat): string {
    FileReference(file) + "/entry-" + Decimal(entry + 1)
  }

  function IsJson(file: File): bool {
    file.format == Json || (file.format == Auto && file.looksJson)
  }

  /** How many entries a file would yield, stopping just past the limit; None when it does not parse. */
  function Estimate(file: File, limit: nat): Option<nat> {
    if IsJson(file) && file.json.Entries? then
      Some(if |file.json.inputs| > limit then limit + 1 else |file.json.inputs|)
    else if IsJson(file) && file.format != Auto then None
    else if file.sso.Values? then Some(if file.sso.count > limit then limit + 1 else file.sso.count)
    else None
  }

  /** How many entries a file counts for once parsed. */
  function Entries(file: File, limit: nat): nat {
    if IsJson(file) && file.json.Entries? then if |file.json.inputs| > limit then limit + 1 else |file.json.inputs|
    else if (IsJson(file) && file.format != Auto) || file.sso.BadSso? then 1
    else if file.sso.count > limit then limit + 1
    else file.sso.count
  }

  function AllEntries(files: seq<File>, limit: nat): nat {
    if files == [] then 0 else AllEntries(files[..|files| - 1], limit) + Entries(files[|files| - 1], limit)
  }

  lemma {:induction false} FewerFilesFewerEntries(files: seq<File>, n: nat, limit: nat)
    requires n <= |files|
    ensures AllEntries(files[..n], limit) <= AllEntries(files, limit)
    decreases |files| - n
  {
    if n < |files| {
      FewerFilesFewerEntries(files, n + 1, limit);
      assert files[..n + 1][..n] == files[..n];
    } else {
      assert files[..n] == files;
    }
  }

  /** Queued results are exactly the parsed items, in order; every other result has failed. */
  ghost predicate Parsed(items: seq<ParsedItem>, results: seq<Item>) {
    && (forall k :: 0 <= k < |items| ==> items[k].resultIndex < |results| && results[items[k].resultIndex].status == Queued)
    && (forall j, k :: 0 <= j < k < |items| ==> items[j].resultIndex < items[k].resultIndex)
    && (forall r :: 0 <= r < |results| ==>
          results[r].status == Failed || (results[r].status == Queued && exists k :: 0 <= k < |items| && items[k].resultIndex == r))
  }

  /** The same input but for what it is called, beginning with its label, where it came from and its proxy mode. */
  predicate Relabelled(input: Input, entry: Input, name: string, mode: string) {
    && input.(name := entry.name, sourceKey := entry.sourceKey, proxyMode := entry.proxyMode) == entry
    && name <= input.name && input.proxyMode == mode
  }

  /** An entry of a document is called by its email or else by its file, and goes by its own proxy if it names one. */
  predicate FromDocument(file: File, input: Input, entry: Input) {
    Relabelled(input, entry, if entry.email != "" then entry.email else file.name, if entry.proxyUrl != "" then "url" else "")
  }

  predicate FromConverter(input: Input, entry: Input) {
    Relabelled(input, entry, if entry.name != "" then entry.name else entry.email, entry.proxyMode)
  }

  /** An input is one of a file's own entries, tokens, identity and all: of its document
      if it is one or looks and reads like one, and only otherwise of its SSO values. */
  ghost predicate ComesFrom(file: File, input: Input) {
    if file.format == Json || (file.format == Auto && file.looksJson && file.json.Entries?) then
      file.json.Entries? && exists entry :: entry in file.json.inputs && FromDocument(file, input, entry)
    else
      && file.sso.Values? && file.sso.conversion.Converted?
      && exists entry :: Some(entry) in file.sso.conversion.inputs && FromConverter(input, entry)
  }

  lemma RelabelKeeps(file: File, input: Input, name: string)
    requires ComesFrom(file, input) && input.name <= name
    ensures ComesFrom(file, input.(name := name))
  {
    if file.format == Json || (file.format == Auto && file.looksJson && file.json.Entries?) {
      var entry :| entry in file.json.inputs && FromDocument(file, input, entry);
      assert FromDocument(file, input.(name := name), entry);
    } else {
      var entry :| Some(entry) in file.sso.conversion.inputs && FromConverter(input, entry);
      assert FromConverter(input.(name := name), entry);
    }
  }

  function FailedItem(source: string, error: string): Item {
    Item(source, Failed, "", error)
  }

  method ParseFile(file: File, index: nat, limit: nat) returns (items: seq<ParsedItem>, results: seq<Item>, entries: nat)
    ensures Parsed(items, results) && ItemIds(items) == FileIds(file, limit)
    ensures entries == Entries(file, limit)
    ensures forall k :: 0 <= k < |items| ==> ComesFrom(file, items[k].input)
  {
    hide ImportIdentity, Parsed, ConvertedIds, FileReference;
    var source := FileReference(index);
    if IsJson(file) {
      if file.json.Entries? {
        if |file.json.inputs| > limit {
          JustFailed(FailedItem(source, "entry limit exceeded"));
          return [], [FailedItem(source, "entry limit exceeded")], limit + 1;
        }
        items, results := ParseEntries(file, index);
        return items, results, |file.json.inputs|;
      }
      if file.format != Auto {
        JustFailed(FailedItem(source, "invalid document"));
        return [], [FailedItem(source, "invalid document")], 1;
      }
    }
    if file.sso.BadSso? {
      JustFailed(FailedItem(source, "invalid document"));
      return [], [FailedItem(source, "invalid document")], 1;
    }
    if file.sso.count > limit {
      JustFailed(FailedItem(source, "entry limit exceeded"));
      return [], [FailedItem(source, "entry limit exceeded")], limit + 1;
    }
    if !file.sso.conversion.Converted? || |file.sso.conversion.inputs| != file.sso.count {
      results := seq(file.sso.count, entry requires 0 <= entry < file.sso.count => FailedItem(EntryReference(index, entry), "SSO conversion failed"));
      AllRefused(results);
      return [], results, file.sso.count;
    }
    items, results := ParseConverted(file.sso.conversion.inputs, index);
    return items, results, file.sso.count;
  }

  lemma JustFailed(item: Item)
    requires item.status == Failed
    ensures Parsed([], [item])
  {
  }

  lemma AllRefused(results: seq<Item>)
    requires forall r :: 0 <= r < |results| ==> results[r].status == Failed
    ensures Parsed([], results)
  {
  }

  method ParseEntries(file: File, index: nat) returns (items: seq<ParsedItem>, results: seq<Item>)
    requires file.json.Entries?
    ensures Parsed(items, results) && |items| == |results| == |file.json.inputs|
    ensures ItemIds(items) == IdsOf(file.json.inputs)
    ensures forall k :: 0 <= k < |items| ==> FromDocument(file, items[k].input, file.json.inputs[k])
  {
    hide ImportIdentity, Parsed;
    items, results := [], [];
    NothingParsedYet();
    for entry := 0 to |file.json.inputs|
      invariant Parsed(items, results) && |items| == |results| == entry
      invariant forall k :: 0 <= k < entry ==> FromDocument(file, items[k].input, file.json.inputs[k])
      invariant forall k :: 0 <= k < entry ==> ImportIdentity(items[k].input) == ImportIdentity(file.json.inputs[k])
    {
      var input := file.json.inputs[entry];
      LabelIsNotIdentity(input, FirstNonEmpty(input.email, file.name), EntryReference(index, entry), if input.proxyUrl != "" then "url" else "");
      var source := EntryReference(index, entry);
      var labelled := input.(name := FirstNonEmpty(input.email, file.name), sourceKey := source,
                             proxyMode := if input.proxyUrl != "" then "url" else "");
      ParsedEntry(items, results, labelled, Item(source, Queued, "", ""));
      items := items + [ParsedItem(entry, labelled)];
      results := results + [Item(source, Queued, "", "")];
    }
  }

  lemma NothingParsedYet()
    ensures Parsed([], [])
  {
  }

  ghost predicate FromEntries(converted: seq<Option<Input>>, items: seq<ParsedItem>) {
    forall k :: 0 <= k < |items| ==> exists entry :: Some(entry) in converted && FromConverter(items[k].input, entry)
  }

  lemma NoEntries(converted: seq<Option<Input>>)
    ensures FromEntries(converted, [])
  {
  }

  lemma OneMoreEntry(converted: seq<Option<Input>>, items: seq<ParsedItem>, item: ParsedItem, entry: Input)
    requires FromEntries(converted, items) && Some(entry) in converted && FromConverter(item.input, entry)
    ensures FromEntries(converted, items + [item])
  {
  }

  method ParseConverted(converted: seq<Option<Input>>, index: nat) returns (items: seq<ParsedItem>, results: seq<Item>)
    ensures Parsed(items, results) && |results| == |converted|
    ensures ItemIds(items) == ConvertedIds(converted)
    ensures FromEntries(converted, items)
  {
    hide ImportIdentity;
    hide FromEntries, Parsed, ConvertedIds, ItemIds, EntryReference;
    items, results := [], [];
    NothingConverted(converted);
    NoEntries(converted);
    for entry := 0 to |converted|
      invariant Parsed(items, results) && |results| == entry
      invariant ItemIds(items) == ConvertedIds(converted[..entry])
      invariant FromEntries(converted, items)
    {
      var source := EntryReference(index, entry);
      OneMoreConverted(converted, entry);
      match converted[entry]
      case None =>
        ParsedFailure(items, results, FailedItem(source, "entry not converted"));
        results := results + [FailedItem(source, "entry not converted")];
      case Some(input) =>
        var named := input.(name := FirstNonEmpty(input.name, FirstNonEmpty(input.email, source)), sourceKey := source);
        LabelIsNotIdentity(input, named.name, source, input.proxyMode);
        OneMoreEntry(converted, items, ParsedItem(entry, named), input);
        ParsedEntry(items, results, named, Item(source, Queued, "", ""));
        items := items + [ParsedItem(entry, named)];
        results := results + [Item(source, Queued, "", "")];
    }
    assert converted[..|converted|] == converted;
  }

  lemma NothingConverted(converted: seq<Option<Input>>)
    ensures Parsed([], []) && ItemIds([]) == ConvertedIds(converted[..0])
  {
  }

  lemma OneMoreConverted(converted: seq<Option<Input>>, entry: nat)
    requires entry < |converted|
    ensures ConvertedIds(converted[..entry + 1]) ==
              ConvertedIds(converted[..entry]) + if converted[entry].Some? then [ImportIdentity(converted[entry].value)] else []
  {
    assert converted[..entry + 1][..entry] == converted[..entry];
  }

  lemma ParsedFailure(items: seq<ParsedItem>, results: seq<Item>, item: Item)
    requires Parsed(items, results) && item.status == Failed
    ensures Parsed(items, results + [item])
  {
  }

  lemma ParsedEntry(items: seq<ParsedItem>, results: seq<Item>, input: Input, item: Item)
    requires Parsed(items, results) && item.status == Queued
    ensures Parsed(items + [ParsedItem(|results|, input)], results + [item])
    ensures ItemIds(items + [ParsedItem(|results|, input)]) == ItemIds(items) + [ImportIdentity(input)]
  {
    hide ImportIdentity;
    var after := items + [ParsedItem(|results|, input)];
    assert after[|items|].resultIndex == |results|;
    forall r | 0 <= r < |results| && results[r].status == Queued ensures exists k :: 0 <= k < |after| && after[k].resultIndex == r {
      var k :| 0 <= k < |items| && items[k].resultIndex == r;
      assert after[k] == items[k];
    }
  }

  /** Where an entry came from and what it is called are no part of its identity. */
  lemma LabelIsNotIdentity(input: Input, name: string, source: string, mode: string)
    ensures ImportIdentity(input.(name := name, sourceKey := source, proxyMode := mode)) == ImportIdentity(input)
  {
  }

  // ---------------------------------------------------------------------------
  // Identities

  /** The identity a batch is deduplicated by; blank when an input names nobody. */
  function ImportIdentity(input: Input): string {
    var issuer := Lower(TrimSlash(input.issuer));
    var client := Lower(input.clientId);
    if input.userId != "" then "oidc:" + issuer + ":" + client + ":" + input.userId + ":" + input.teamId
    else if input.email != "" then "email:" + issuer + ":" + client + ":" + Lower(input.email)
    else if input.refresh != "" then "token:" + input.refresh
    else if input.access != "" then "token:" + input.access
    else ""
  }

  /** An input goes without an identity exactly when it names no user, no email and no token. */
  lemma BlankIdentity(input: Input)
    ensures ImportIdentity(input) == "" <==> input.userId == "" && input.email == "" && input.refresh == "" && input.access == ""
    ensures ImportIdentity(input) == "" ==> !HasToken(input)
  {
  }

  /** A user outranks an email, an email a refresh token, that an access token; scope
      and email spelling aside, different ones are different identities. */
  lemma ImportIdentityTells(input: Input)
    ensures var id := ImportIdentity(input);
            && (input.userId != "" ==> "oidc:" <= id && id == ImportIdentity(input.(email := "", refresh := "", access := "")))
            && (input.userId == "" && input.email != "" ==>
                  "email:" <= id && id == ImportIdentity(input.(refresh := "", access := "", teamId := "", email := Lower(input.email))))
            && (input.userId == "" && input.email == "" && input.refresh != "" ==> id == "token:" + input.refresh)
            && (input.userId == "" && input.email == "" && input.refresh == "" && input.access != "" ==> id == "token:" + input.access)
  {
    LowerIsCaseless(input.email);
    assert Lower(input.email) != "" <==> input.email != "";
  }

  /** Where an input names a user or an email the importer and the store go by the same account. */
  lemma ImportIdentityAgrees(input: Input)
    requires input.userId != "" || input.email != ""
    ensures ImportIdentity(input) ==
              StableIdentity(input.issuer, input.clientId, input.userId, input.teamId, input.email, input.refresh, input.access)
  {
    hide Lower, TrimSlash;
    var a, b := Lower(TrimSlash(input.issuer)), Lower(input.clientId);
    if input.userId != "" {
      assert "oidc:" + a + ":" + b + ":" + input.userId + ":" + input.teamId == "oidc:" + (a + ":" + b + ":") + input.userId + ":" + input.teamId;
    } else {
      assert "email:" + a + ":" + b + ":" + Lower(input.email) == "email:" + (a + ":" + b + ":") + Lower(input.email);
    }
  }

  datatype Pending = Pending(file: nat, result: nat, input: Input)

  /** No two inputs share an identity, unless it is blank. */
  ghost predicate DistinctIdentities(inputs: seq<Input>) {
    NoneTwice(IdsOf(inputs))
  }

  /** The identities that survive deduplication: every blank one, and the first of each other. */
  function KeptFrom(kept: seq<string>, ids: seq<string>): seq<string> {
    if ids == [] then kept
    else
      var before := KeptFrom(kept, ids[..|ids| - 1]);
      var id := ids[|ids| - 1];
      if id != "" && id in before then before else before + [id]
  }

  /** The identities a file's entries carry, in order. */
  function FileIds(file: File, limit: nat): seq<string> {
    if IsJson(file) && file.json.Entries? then
      if |file.json.inputs| > limit then [] else IdsOf(file.json.inputs)
    else if (IsJson(file) && file.format != Auto) || file.sso.BadSso? || file.sso.count > limit then []
    else if file.sso.conversion.Converted? && |file.sso.conversion.inputs| == file.sso.count then ConvertedIds(file.sso.conversion.inputs)
    else []
  }

  function IdsOf(inputs: seq<Input>): (ids: seq<string>)
    ensures |ids| == |inputs| && forall k :: 0 <= k < |inputs| ==> ids[k] == ImportIdentity(inputs[k])
  {
    seq(|inputs|, k requires 0 <= k < |inputs| => ImportIdentity(inputs[k]))
  }

  function ConvertedIds(converted: seq<Option<Input>>): seq<string> {
    if converted == [] then []
    else
      var last := converted[|converted| - 1];
      ConvertedIds(converted[..|converted| - 1]) + if last.Some? then [ImportIdentity(last.value)] else []
  }

  function BatchIds(files: seq<File>, limit: nat): seq<string> {
    if files == [] then [] else BatchIds(files[..|files| - 1], limit) + FileIds(files[|files| - 1], limit)
  }

  function ItemIds(items: seq<ParsedItem>): (ids: seq<string>)
    ensures |ids| == |items| && forall k :: 0 <= k < |items| ==> ids[k] == ImportIdentity(items[k].input)
  {
    seq(|items|, k requires 0 <= k < |items| => ImportIdentity(items[k].input))
  }

  lemma {:induction false} KeptJoin(kept: seq<string>, a: seq<string>, b: seq<string>)
    ensures KeptFrom(kept, a + b) == KeptFrom(KeptFrom(kept, a), b)
    decreases |b|
  {
    if b == [] {
      assert a + b == a;
    } else {
      KeptJoin(kept, a, b[..|b| - 1]);
      assert (a + b)[..|a + b| - 1] == a + b[..|b| - 1];
    }
  }

  /** Deduplication loses no identity and repeats none; the blank one is the
      exception, and is kept exactly as often as it comes. */
  lemma {:induction false} KeptIdentities(ids: seq<string>)
    ensures forall id :: id in KeptFrom([], ids) <==> id in ids
    ensures forall id :: id != "" && id in ids ==> Occurrences(KeptFrom([], ids), id) == 1
    ensures Occurrences(KeptFrom([], ids), "") == Occurrences(ids, "")
  {
    if ids != [] {
      var front, last := ids[..|ids| - 1], ids[|ids| - 1];
      KeptIdentities(front);
      assert ids == front + [last];
      var kept := KeptFrom([], front);
      assert (kept + [last])[..|kept|] == kept;
      NotThere(kept, last);
    }
  }

  /** The identities a batch sends are all real and pairwise distinct exactly when
      no entry of the batch is without one. */
  lemma NamedBatchExactly(ids: seq<string>)
    ensures var kept := KeptFrom([], ids);
            (forall k :: 0 <= k < |kept| ==> kept[k] != "") && (forall j, k :: 0 <= j < k < |kept| ==> kept[j] != kept[k])
            <==> "" !in ids
  {
    KeptIdentities(ids);
    KeptAreDistinct(ids);
    var kept := KeptFrom([], ids);
    assert (forall k :: 0 <= k < |kept| ==> kept[k] != "") <==> "" !in kept;
    assert NoneTwice(kept);
  }

  predicate NoneTwice(ids: seq<string>) {
    forall j, k :: 0 <= j < k < |ids| && ids[j] != "" ==> ids[j] != ids[k]
  }

  lemma {:induction false} KeptAreDistinct(ids: seq<string>)
    ensures NoneTwice(KeptFrom([], ids))
  {
    if ids != [] {
      var before, last := KeptFrom([], ids[..|ids| - 1]), ids[|ids| - 1];
      KeptAreDistinct(ids[..|ids| - 1]);
      if last == "" || last !in before {
        NoneTwiceMore(before, last);
      }
    }
  }

  lemma NoneTwiceMore(kept: seq<string>, id: string)
    requires NoneTwice(kept) && (id == "" || id !in kept)
    ensures NoneTwice(kept + [id])
  {
  }

  function Occurrences(ids: seq<string>, id: string): nat {
    if ids == [] then 0 else Occurrences(ids[..|ids| - 1], id) + if ids[|ids| - 1] == id then 1 else 0
  }

  lemma {:induction false} NotThere(ids: seq<string>, id: string)
    ensures id !in ids ==> Occurrences(ids, id) == 0
  {
    if ids != [] {
      NotThere(ids[..|ids| - 1], id);
    }
  }

  /** Every entry a file yields carries a token, as its producers see to. */
  predicate Tokened(file: File) {
    && (file.json.Entries? ==> forall k :: 0 <= k < |file.json.inputs| ==> HasToken(file.json.inputs[k]))
    && (file.sso.Values? && file.sso.conversion.Converted? ==> AllTokened(file.sso.conversion.inputs))
  }

  predicate AllTokened(converted: seq<Option<Input>>) {
    forall k :: 0 <= k < |converted| && converted[k].Some? ==> HasToken(converted[k].value)
  }

  lemma {:induction false} ConvertedAreNamed(converted: seq<Option<Input>>)
    requires AllTokened(converted)
    ensures "" !in ConvertedIds(converted)
  {
    hide ImportIdentity, HasToken;
    if converted != [] {
      var last := converted[|converted| - 1];
      ConvertedAreNamed(converted[..|converted| - 1]);
      if last.Some? {
        BlankIdentity(last.value);
      }
    }
  }

  /** Such files send nobody without an identity, so what they send is pairwise distinct. */
  lemma {:induction false} TokenedAreNamed(files: seq<File>, limit: nat)
    requires forall f :: 0 <= f < |files| ==> Tokened(files[f])
    ensures "" !in BatchIds(files, limit)
  {
    hide ImportIdentity, HasToken, ConvertedIds;
    if files != [] {
      var last := files[|files| - 1];
      TokenedAreNamed(files[..|files| - 1], limit);
      if last.json.Entries? {
        forall k | 0 <= k < |last.json.inputs| ensures ImportIdentity(last.json.inputs[k]) != "" {
          BlankIdentity(last.json.inputs[k]);
        }
      }
      if last.sso.Values? && last.sso.conversion.Converted? {
        ConvertedAreNamed(last.sso.conversion.inputs);
      }
    }
  }

  lemma KeptFits(kept: seq<string>, ids: seq<string>)
    ensures |KeptFrom(kept, ids)| <= |kept| + |ids|
  {
  }

  lemma ConvertedFit(converted: seq<Option<Input>>)
    ensures |ConvertedIds(converted)| <= |converted|
  {
  }

  /** Nothing is sent that was not counted against the limit. */
  lemma {:induction false} SentIsCounted(files: seq<File>, limit: nat)
    ensures |BatchIds(files, limit)| <= AllEntries(files, limit)
    ensures |KeptFrom([], BatchIds(files, limit))| <= AllEntries(files, limit)
  {
    if files != [] {
      SentIsCounted(files[..|files| - 1], limit);
      var last := files[|files| - 1];
      if last.sso.Values? && last.sso.conversion.Converted? {
        ConvertedFit(last.sso.conversion.inputs);
      }
      assert |FileIds(last, limit)| <= Entries(last, limit);
    }
    KeptFits([], BatchIds(files, limit));
  }

  /** Everybody sent has an identity of their own. */
  predicate OwnIdentities(sent: seq<Input>) {
    && (forall k :: 0 <= k < |sent| ==> ImportIdentity(sent[k]) != "")
    && (forall j, k :: 0 <= j < k < |sent| ==> ImportIdentity(sent[j]) != ImportIdentity(sent[k]))
  }

  lemma TokenedSendOwnIdentities(files: seq<File>, limit: nat, sent: seq<Input>)
    requires forall f :: 0 <= f < |files| ==> Tokened(files[f])
    requires sent == [] || IdsOf(sent) == KeptFrom([], BatchIds(files, limit))
    ensures OwnIdentities(sent)
  {
    hide KeptFrom, BatchIds, ImportIdentity;
    TokenedAreNamed(files, limit);
    NamedBatchExactly(BatchIds(files, limit));
    var ids := IdsOf(sent);
    assert sent != [] ==> forall k :: 0 <= k < |sent| ==> ids[k] != "";
    assert forall k :: 0 <= k < |sent| ==> ids[k] == ImportIdentity(sent[k]);
  }

  const NOBODY := Input("n", "", "", "", "", "", "", "", "", "", None, None, None, "", "")

  /** A file that is not, from a converter that does not check: one SSO value that converts to an entry with nothing but a name. */
  lemma NobodyIsSent(limit: nat)
    requires 0 < limit
    ensures var file := File("f", Sso, false, BadJson, Values(1, Converted([Some(NOBODY)])));
            BatchIds([file], limit) == [""] && KeptFrom([], BatchIds([file], limit)) == [""]
  {
    var converted := [Some(NOBODY)];
    var file := File("f", Sso, false, BadJson, Values(1, Converted(converted)));
    assert converted[..0] == [] && [file][..0] == [] && [""][..0] == [];
    assert ConvertedIds(converted) == [""];
  }

  // ---------------------------------------------------------------------------
  // Queued means pending

  type Results = seq<seq<Item>>

  predicate InRange(results: Results, file: nat, result: nat) {
    file < |results| && result < |results[file]|
  }

  function StatusAt(results: Results, file: nat, result: nat): ItemStatus
    requires InRange(results, file, result)
  {
    results[file][result].status
  }

  predicate IsPending(pending: seq<Pending>, file: nat, result: nat) {
    exists k :: 0 <= k < |pending| && pending[k].file == file && pending[k].result == result
  }

  /** The queued results are exactly the pending items, each pending once. */
  ghost predicate QueuedIsPending(results: Results, pending: seq<Pending>) {
    && (forall k :: 0 <= k < |pending| ==> InRange(results, pending[k].file, pending[k].result))
    && (forall j, k :: 0 <= j < k < |pending| ==> pending[j].file != pending[k].file || pending[j].result != pending[k].result)
    && (forall file, result :: InRange(results, file, result) ==>
          (StatusAt(results, file, result) == Queued <==> IsPending(pending, file, result)))
  }

  ghost predicate NothingQueued(results: Results) {
    forall file, result :: InRange(results, file, result) ==> StatusAt(results, file, result) != Queued
  }

  function SetItem(results: Results, file: nat, result: nat, item: Item): Results
    requires InRange(results, file, result)
  {
    results[file := results[file][result := item]]
  }

  /** Marks one pending item done: it leaves the queue, the others stay. */
  lemma SettleOne(results: Results, pending: seq<Pending>, item: Item)
    requires pending != [] && QueuedIsPending(results, pending) && item.status != Queued
    ensures QueuedIsPending(SetItem(results, pending[0].file, pending[0].result, item), pending[1..])
  {
    var after := SetItem(results, pending[0].file, pending[0].result, item);
    var rest := pending[1..];
    forall k | 0 <= k < |rest| ensures InRange(after, rest[k].file, rest[k].result) {
      assert rest[k] == pending[k + 1];
    }
    forall j, k | 0 <= j < k < |rest| ensures rest[j].file != rest[k].file || rest[j].result != rest[k].result {
      assert rest[j] == pending[j + 1] && rest[k] == pending[k + 1];
    }
    forall file, result | InRange(after, file, result)
      ensures StatusAt(after, file, result) == Queued <==> IsPending(rest, file, result)
    {
      assert InRange(results, file, result);
      if IsPending(pending, file, result) && !(file == pending[0].file && result == pending[0].result) {
        var k :| 0 <= k < |pending| && pending[k].file == file && pending[k].result == result;
        assert rest[k - 1] == pending[k];
      }
    }
  }

  /** Fails whatever is still queued. */
  method FailQueued(items: seq<Item>, error: string) returns (after: seq<Item>)
    ensures |after| == |items|
    ensures forall r :: 0 <= r < |items| ==>
              after[r] == if items[r].status == Queued then items[r].(status := Failed, error := error) else items[r]
  {
    after := items;
    for r := 0 to |items|
      invariant |after| == |items|
      invariant forall k :: r <= k < |items| ==> after[k] == items[k]
      invariant forall k :: 0 <= k < r ==>
                  after[k] == if items[k].status == Queued then items[k].(status := Failed, error := error) else items[k]
    {
      if after[r].status == Queued {
        after := after[r := after[r].(status := Failed, error := error)];
      }
    }
  }

  method FailEverythingQueued(results: Results, error: string) returns (after: Results)
    ensures |after| == |results| && NothingQueued(after)
    ensures forall f :: 0 <= f < |results| ==> |after[f]| == |results[f]|
    ensures forall f: nat, r: nat :: InRange(results, f, r) && results[f][r].status != Queued ==> after[f][r] == results[f][r]
    ensures forall f: nat, r: nat :: InRange(results, f, r) && results[f][r].status == Queued ==> after[f][r].status == Failed
  {
    after := [];
    for f := 0 to |results|
      invariant |after| == f
      invariant forall k :: 0 <= k < f ==> |after[k]| == |results[k]|
      invariant forall k, r :: 0 <= k < f && 0 <= r < |results[k]| ==>
                  if results[k][r].status == Queued then after[k][r].status == Failed else after[k][r] == results[k][r]
    {
      var file := FailQueued(results[f], error);
      after := after + [file];
    }
  }

  /** Fails every pending item, and with that everything queued. */
  method FailPending(results: Results, pending: seq<Pending>, error: string) returns (after: Results)
    requires QueuedIsPending(results, pending)
    ensures NothingQueued(after) && |after| == |results|
    ensures forall f :: 0 <= f < |results| ==> |after[f]| == |results[f]|
    ensures TallyAll(after).created == TallyAll(results).created && TallyAll(after).updated == TallyAll(results).updated
  {
    after := results;
    for k := 0 to |pending|
      invariant QueuedIsPending(after, pending[k..]) && |after| == |results|
      invariant forall f :: 0 <= f < |results| ==> |after[f]| == |results[f]|
      invariant TallyAll(after).created == TallyAll(results).created && TallyAll(after).updated == TallyAll(results).updated
    {
      var item := after[pending[k].file][pending[k].result];
      assert pending[k..][0] == pending[k] && pending[k..][1..] == pending[k + 1..];
      SettleOne(after, pending[k..], item.(status := Failed, error := error));
      QueuedAt(after, pending[k..]);
      SetItemTally(after, pending[k].file, pending[k].result, item.(status := Failed, error := error));
      after := SetItem(after, pending[k].file, pending[k].result, item.(status := Failed, error := error));
    }
    NothingPendingNothingQueued(after, pending[|pending|..]);
  }

  lemma QueuedAt(results: Results, pending: seq<Pending>)
    requires QueuedIsPending(results, pending) && pending != []
    ensures InRange(results, pending[0].file, pending[0].result) && StatusAt(results, pending[0].file, pending[0].result) == Queued
  {
  }

  lemma NothingPendingNothingQueued(results: Results, pending: seq<Pending>)
    requires QueuedIsPending(results, pending) && pending == []
    ensures NothingQueued(results)
  {
  }

  // ---------------------------------------------------------------------------
  // Counting

  function Plus(a: Tally, b: Tally): Tally {
    Tally(a.total + b.total, a.processed + b.processed, a.created + b.created, a.updated + b.updated, a.skipped + b.skipped, a.failed + b.failed)
  }

  const NO_TALLY := Tally(0, 0, 0, 0, 0, 0)

  function One(status: ItemStatus): Tally {
    match status
    case Queued => Tally(1, 0, 0, 0, 0, 0)
    case Created => Tally(1, 1, 1, 0, 0, 0)
    case Updated => Tally(1, 1, 0, 1, 0, 0)
    case Skipped => Tally(1, 1, 0, 0, 1, 0)
    case Failed => Tally(1, 1, 0, 0, 0, 1)
  }

  function TallyOf(items: seq<Item>): Tally {
    if items == [] then NO_TALLY else Plus(TallyOf(items[..|items| - 1]), One(items[|items| - 1].status))
  }

  function TallyAll(results: Results): Tally {
    if results == [] then NO_TALLY else Plus(TallyAll(results[..|results| - 1]), TallyOf(results[|results| - 1]))
  }

  /** Nothing queued: every item is processed, and in exactly one way. */
  predicate Balanced(t: Tally) {
    t.total == t.processed == t.created + t.updated + t.skipped + t.failed
  }

  lemma {:induction false} SettledItemsBalance(items: seq<Item>)
    requires forall r :: 0 <= r < |items| ==> items[r].status != Queued
    ensures Balanced(TallyOf(items)) && TallyOf(items).total == |items|
  {
    if items != [] {
      SettledItemsBalance(items[..|items| - 1]);
    }
  }

  lemma SettledResultsBalance(results: Results)
    requires NothingQueued(results)
    ensures Balanced(TallyAll(results))
    ensures forall f :: 0 <= f < |results| ==> Balanced(TallyOf(results[f])) && TallyOf(results[f]).total == |results[f]|
  {
    hide TallyOf, TallyAll, Balanced;
    forall f | 0 <= f < |results| ensures Balanced(TallyOf(results[f])) && TallyOf(results[f]).total == |results[f]| {
      var items := results[f];
      forall r | 0 <= r < |items| ensures items[r].status != Queued {
        assert InRange(results, f, r) && StatusAt(results, f, r) == items[r].status;
      }
      SettledItemsBalance(items);
    }
    TotalsBalance(results);
  }

  lemma {:induction false} TotalsBalance(results: Results)
    requires forall f :: 0 <= f < |results| ==> Balanced(TallyOf(results[f]))
    ensures Balanced(TallyAll(results))
  {
    hide TallyOf;
    if results != [] {
      TotalsBalance(results[..|results| - 1]);
    }
  }

  /** Changing one queued item adds just what its new status counts. */
  lemma {:induction false} SetOneTally(items: seq<Item>, r: nat, item: Item)
    requires r < |items| && items[r].status == Queued && item.status != Queued
    ensures Plus(TallyOf(items[r := item]), One(Queued)) == Plus(TallyOf(items), One(item.status))
    decreases |items|
  {
    hide One, TallyOf;
    var front, last := items[..|items| - 1], items[|items| - 1];
    var after := items[r := item];
    LastItem(items);
    LastItem(after);
    if r < |items| - 1 {
      assert after[..|items| - 1] == front[r := item] && after[|items| - 1] == last;
      SetOneTally(front, r, item);
    } else {
      assert after[..|items| - 1] == front;
    }
  }

  lemma LastItem(items: seq<Item>)
    requires items != []
    ensures TallyOf(items) == Plus(TallyOf(items[..|items| - 1]), One(items[|items| - 1].status))
  {
  }

  lemma {:induction false} SetItemTally(results: Results, f: nat, r: nat, item: Item)
    requires InRange(results, f, r) && StatusAt(results, f, r) == Queued && item.status != Queued
    ensures Plus(TallyAll(SetItem(results, f, r, item)), One(Queued)) == Plus(TallyAll(results), One(item.status))
  {
    hide One, TallyOf;
    var front, last := results[..|results| - 1], results[|results| - 1];
    var after := SetItem(results, f, r, item);
    if f < |results| - 1 {
      assert after[..|results| - 1] == SetItem(front, f, r, item) && after[|results| - 1] == last;
      SetItemTally(front, f, r, item);
    } else {
      assert after[..|results| - 1] == front && after[|results| - 1] == last[r := item];
      SetOneTally(last, r, item);
    }
  }

  // ---------------------------------------------------------------------------
  // Storing

  datatype Stored = Stored(id: string, created: bool)

  datatype StoreAnswer = StoreFails | StoreTook(stored: seq<Stored>)

  function CreatedIn(stored: seq<Stored>): nat {
    if stored == [] then 0 else CreatedIn(stored[..|stored| - 1]) + if stored[|stored| - 1].created then 1 else 0
  }

  lemma PendingAreApart(results: Results, pending: seq<Pending>)
    requires QueuedIsPending(results, pending)
    ensures forall j, k :: 0 <= j < k < |pending| ==> pending[j].file != pending[k].file || pending[j].result != pending[k].result
    ensures forall k :: 0 <= k < |pending| ==> InRange(results, pending[k].file, pending[k].result)
  {
  }

  /** The first n pending items carry what the store says of their inputs. */
  predicate Told(after: Results, pending: seq<Pending>, stored: seq<Stored>, n: nat)
    requires n <= |pending| == |stored|
  {
    forall k :: 0 <= k < n ==>
      && InRange(after, pending[k].file, pending[k].result)
      && after[pending[k].file][pending[k].result].credentialId == stored[k].id
      && StatusAt(after, pending[k].file, pending[k].result) == if stored[k].created then Created else Updated
  }

  /** Items that are not pending stay as they were. */
  ghost predicate OthersKept(results: Results, after: Results, pending: seq<Pending>) {
    forall f: nat, r: nat :: InRange(results, f, r) && !IsPending(pending, f, r) ==>
      InRange(after, f, r) && after[f][r] == results[f][r]
  }

  lemma NobodyTold(results: Results, pending: seq<Pending>, stored: seq<Stored>)
    requires |stored| == |pending|
    ensures Told(results, pending, stored, 0) && OthersKept(results, results, pending)
  {
  }

  lemma TellOne(results: Results, after: Results, pending: seq<Pending>, stored: seq<Stored>, k: nat, item: Item)
    requires k < |pending| == |stored| && Told(after, pending, stored, k) && OthersKept(results, after, pending)
    requires forall i, j :: 0 <= i < j < |pending| ==> pending[i].file != pending[j].file || pending[i].result != pending[j].result
    requires InRange(after, pending[k].file, pending[k].result)
    requires item.credentialId == stored[k].id && item.status == if stored[k].created then Created else Updated
    ensures var next := SetItem(after, pending[k].file, pending[k].result, item);
            Told(next, pending, stored, k + 1) && OthersKept(results, next, pending)
  {
    var next := SetItem(after, pending[k].file, pending[k].result, item);
    forall f: nat, r: nat | InRange(results, f, r) && !IsPending(pending, f, r)
      ensures InRange(next, f, r) && next[f][r] == results[f][r]
    {
      assert pending[k].file != f || pending[k].result != r;
    }
  }

  /** Gives every pending item the store's verdict, in order. */
  method RecordStored(results: Results, pending: seq<Pending>, stored: seq<Stored>) returns (after: Results)
    requires QueuedIsPending(results, pending) && |stored| == |pending|
    ensures NothingQueued(after) && |after| == |results|
    ensures forall f :: 0 <= f < |results| ==> |after[f]| == |results[f]|
    ensures TallyAll(after).created == TallyAll(results).created + CreatedIn(stored)
    ensures TallyAll(after).updated == TallyAll(results).updated + |stored| - CreatedIn(stored)
    ensures TallyAll(after).failed == TallyAll(results).failed && TallyAll(after).skipped == TallyAll(results).skipped
    // Each pending item gets the store's word for its own input; no other item changes.
    ensures Told(after, pending, stored, |pending|) && OthersKept(results, after, pending)
  {
    hide QueuedIsPending, NothingQueued, Told, OthersKept;
    after := results;
    PendingAreApart(results, pending);
    NobodyTold(results, pending, stored);
    for k := 0 to |pending|
      invariant QueuedIsPending(after, pending[k..]) && |after| == |results|
      invariant forall f :: 0 <= f < |results| ==> |after[f]| == |results[f]|
      invariant TallyAll(after).created == TallyAll(results).created + CreatedIn(stored[..k])
      invariant TallyAll(after).updated == TallyAll(results).updated + k - CreatedIn(stored[..k])
      invariant TallyAll(after).failed == TallyAll(results).failed && TallyAll(after).skipped == TallyAll(results).skipped
      invariant Told(after, pending, stored, k) && OthersKept(results, after, pending)
    {
      assert pending[k..][0] == pending[k] && pending[k..][1..] == pending[k + 1..];
      assert stored[..k + 1][..k] == stored[..k];
      QueuedAt(after, pending[k..]);
      var item := after[pending[k].file][pending[k].result];
      var done := item.(credentialId := stored[k].id, status := if stored[k].created then Created else Updated);
      SettleOne(after, pending[k..], done);
      TellOne(results, after, pending, stored, k, done);
      SetItemTally(after, pending[k].file, pending[k].result, done);
      after := SetItem(after, pending[k].file, pending[k].result, done);
    }
    assert stored[..|stored|] == stored;
    NothingPendingNothingQueued(after, pending[|pending|..]);
  }

  // ---------------------------------------------------------------------------
  // Deduplication

  function InputsOf(pending: seq<Pending>): (inputs: seq<Input>)
    ensures |inputs| == |pending|
    ensures forall k :: 0 <= k < |pending| ==> inputs[k] == pending[k].input
  {
    seq(|pending|, k requires 0 <= k < |pending| => pending[k].input)
  }

  function QueueIds(pending: seq<Pending>): (ids: seq<string>)
    ensures |ids| == |pending| && forall k :: 0 <= k < |pending| ==> ids[k] == ImportIdentity(pending[k].input)
  {
    IdsOf(InputsOf(pending))
  }

  predicate Names(pending: seq<Pending>, identity: string) {
    exists k :: 0 <= k < |pending| && ImportIdentity(pending[k].input) == identity
  }

  /** The identities seen are those of the pending items, each of which has its own. */
  ghost predicate Seen(seen: map<string, string>, pending: seq<Pending>) {
    && (forall identity :: identity in seen <==> identity != "" && Names(pending, identity))
    && forall j, k :: 0 <= j < k < |pending| && ImportIdentity(pending[j].input) != "" ==>
         ImportIdentity(pending[j].input) != ImportIdentity(pending[k].input)
  }

  predicate IsItemFrom(items: seq<ParsedItem>, from: nat, result: nat) {
    exists k :: from <= k < |items| && items[k].resultIndex == result
  }

  /** Midway through a file: its queued results are those already pending and
      those of the items still to come. */
  ghost predicate Midway(items: seq<ParsedItem>, results: seq<Item>, file: nat, pending: seq<Pending>,
      next: nat, before: nat) {
    && before <= |pending| && next <= |items|
    && (forall k :: 0 <= k < |items| ==> items[k].resultIndex < |results|)
    && (forall j, k :: 0 <= j < k < |items| ==> items[j].resultIndex < items[k].resultIndex)
    && (forall k :: 0 <= k < before ==> pending[k].file < file)
    && (forall k :: before <= k < |pending| ==>
          pending[k].file == file && pending[k].result < |results| && (next < |items| ==> pending[k].result < items[next].resultIndex))
    && (forall j, k :: before <= j < k < |pending| ==> pending[j].result < pending[k].result)
    && (forall r: nat :: r < |results| ==>
          (results[r].status == Queued <==> IsPending(pending, file, r) || IsItemFrom(items, next, r)))
  }

  lemma MidwayStart(items: seq<ParsedItem>, results: seq<Item>, file: nat, pending: seq<Pending>)
    requires Parsed(items, results) && forall k :: 0 <= k < |pending| ==> pending[k].file < file
    ensures Midway(items, results, file, pending, 0, |pending|)
  {
  }

  lemma MidwaySkip(items: seq<ParsedItem>, results: seq<Item>, file: nat, pending: seq<Pending>, next: nat,
      before: nat, item: Item)
    requires Midway(items, results, file, pending, next, before) && next < |items| && item.status != Queued
    ensures Midway(items, results[items[next].resultIndex := item], file, pending, next + 1, before)
  {
  }

  lemma MidwayKeep(items: seq<ParsedItem>, results: seq<Item>, file: nat, pending: seq<Pending>, next: nat,
      before: nat, input: Input)
    requires Midway(items, results, file, pending, next, before) && next < |items|
    ensures Midway(items, results, file, pending + [Pending(file, items[next].resultIndex, input)], next + 1, before)
  {
    var after := pending + [Pending(file, items[next].resultIndex, input)];
    forall r: nat | r < |results|
      ensures results[r].status == Queued <==> IsPending(after, file, r) || IsItemFrom(items, next + 1, r)
    {
      if r == items[next].resultIndex {
        assert after[|pending|].file == file && after[|pending|].result == r;
        assert IsItemFrom(items, next, r);
      } else {
        if IsItemFrom(items, next, r) {
          var k :| next <= k < |items| && items[k].resultIndex == r;
          assert next + 1 <= k;
        }
        if IsPending(pending, file, r) {
          var k :| 0 <= k < |pending| && pending[k].file == file && pending[k].result == r;
          assert after[k] == pending[k];
        }
      }
    }
  }

  lemma MidwayEnd(results: Results, items: seq<ParsedItem>, mine: seq<Item>, file: nat, pending: seq<Pending>, before: nat)
    requires file < |results| && results[file] == []
    requires Midway(items, mine, file, pending, |items|, before) && QueuedIsPending(results, pending[..before])
    ensures QueuedIsPending(results[file := mine], pending)
  {
    var after := results[file := mine];
    forall k | 0 <= k < |pending| ensures InRange(after, pending[k].file, pending[k].result) {
      if k < before {
        assert pending[..before][k] == pending[k];
      }
    }
    forall j, k | 0 <= j < k < |pending| ensures pending[j].file != pending[k].file || pending[j].result != pending[k].result {
      if k < before {
        assert pending[..before][j] == pending[j] && pending[..before][k] == pending[k];
      }
    }
    forall f, r | InRange(after, f, r)
      ensures StatusAt(after, f, r) == Queued <==> IsPending(pending, f, r)
    {
      if f != file {
        assert InRange(results, f, r);
        if IsPending(pending[..before], f, r) {
          var k :| 0 <= k < before && pending[..before][k].file == f && pending[..before][k].result == r;
          assert pending[k].file == f;
        }
        if IsPending(pending, f, r) {
          var k :| 0 <= k < |pending| && pending[k].file == f && pending[k].result == r;
          assert pending[..before][k] == pending[k];
        }
      }
    }
  }

  lemma SeenGrows(seen: map<string, string>, pending: seq<Pending>, p: Pending, source: string)
    requires Seen(seen, pending) && ImportIdentity(p.input) !in seen
    ensures Seen(if ImportIdentity(p.input) != "" then seen[ImportIdentity(p.input) := source] else seen, pending + [p])
  {
    hide ImportIdentity;
    var after := pending + [p];
    var identity := ImportIdentity(p.input);
    var more := if identity != "" then seen[identity := source] else seen;
    forall id ensures id in more <==> id != "" && Names(after, id) {
      if Names(pending, id) {
        var k :| 0 <= k < |pending| && ImportIdentity(pending[k].input) == id;
        assert after[k] == pending[k];
      }
      if Names(after, id) && id != identity {
        var k :| 0 <= k < |after| && ImportIdentity(after[k].input) == id;
        assert after[k] == pending[k];
      }
      assert after[|pending|] == p;
    }
    forall j, k | 0 <= j < k < |after| && ImportIdentity(after[j].input) != ""
      ensures ImportIdentity(after[j].input) != ImportIdentity(after[k].input)
    {
      if k == |pending| {
        assert Names(pending, ImportIdentity(pending[j].input));
      }
    }
  }

  predicate NoneStored(items: seq<Item>) {
    forall r :: 0 <= r < |items| ==> items[r].status != Created && items[r].status != Updated
  }

  /** Adds a parsed file's items to the batch: an identity already seen is
      skipped, anything else becomes pending, under a name of its own. */
  method Merge(items: seq<ParsedItem>, results: seq<Item>, file: nat, pending: seq<Pending>,
      seen: map<string, string>, names: map<string, string>, ghost origin: File)
      returns (after: seq<Item>, queue: seq<Pending>, seenNow: map<string, string>, namesNow: map<string, string>)
    requires Parsed(items, results) && Seen(seen, pending)
    requires forall k :: 0 <= k < |pending| ==> pending[k].file < file
    requires forall k :: 0 <= k < |items| ==> ComesFrom(origin, items[k].input)
    ensures forall k :: |pending| <= k < |queue| ==> ComesFrom(origin, queue[k].input)
    ensures |after| == |results| && NoneStored(after) && Seen(seenNow, queue)
    ensures pending <= queue && Midway(items, after, file, queue, |items|, |pending|)
    ensures forall k :: 0 <= k < |items| && after[items[k].resultIndex].status == Skipped ==>
              ImportIdentity(items[k].input) != "" && Names(queue, ImportIdentity(items[k].input))
    ensures QueueIds(queue) == KeptFrom(QueueIds(pending), ItemIds(items))
  {
    hide ComesFrom, ImportIdentity, Midway, Seen, Names, KeptFrom, ItemIds, QueueIds;
    KeptNone(QueueIds(pending), ItemIds(items));
    MidwayStart(items, results, file, pending);
    after, queue, seenNow, namesNow := results, pending, seen, names;
    for k := 0 to |items|
      invariant |after| == |results| && NoneStored(after) && Seen(seenNow, queue)
      invariant forall j :: |pending| <= j < |queue| ==> ComesFrom(origin, queue[j].input)
      invariant pending <= queue && Midway(items, after, file, queue, k, |pending|)
      invariant forall j :: k <= j < |items| ==> after[items[j].resultIndex].status == Queued
      invariant forall j :: 0 <= j < k && after[items[j].resultIndex].status == Skipped ==>
                  ImportIdentity(items[j].input) != "" && Names(queue, ImportIdentity(items[j].input))
      invariant QueueIds(queue) == KeptFrom(QueueIds(pending), ItemIds(items)[..k])
    {
      var item := items[k];
      KeptNext(QueueIds(pending), ItemIds(items), k);
      SeenIsQueued(seenNow, queue, ImportIdentity(item.input));
      var identity := ImportIdentity(item.input);
      var source := after[item.resultIndex].source;
      if identity in seenNow {
        SeenNames(seenNow, queue, identity);
        var skipped := after[item.resultIndex].(status := Skipped);
        MidwaySkip(items, after, file, queue, k, |pending|, skipped);
        after := after[item.resultIndex := skipped];
      } else {
        var input := item.input;
        var name := Lower(input.name);
        if name != "" && name in namesNow && namesNow[name] != identity {
          RelabelKeeps(origin, input, input.name + " (" + source + ")");
          input := input.(name := input.name + " (" + source + ")");
        } else if name != "" {
          namesNow := namesNow[name := identity];
        }
        LabelIsNotIdentity(item.input, input.name, item.input.sourceKey, item.input.proxyMode);
        KeepItem(items, after, file, queue, seenNow, k, |pending|, input, source);
        if identity != "" {
          seenNow := seenNow[identity := source];
        }
        queue := queue + [Pending(file, item.resultIndex, input)];
      }
    }
    assert ItemIds(items)[..|items|] == ItemIds(items);
  }

  /** Queueing one more item keeps all the batch's books. */
  lemma KeepItem(items: seq<ParsedItem>, results: seq<Item>, file: nat, queue: seq<Pending>, seen: map<string, string>,
      k: nat, before: nat, input: Input, source: string)
    requires Midway(items, results, file, queue, k, before) && k < |items| && Seen(seen, queue)
    requires ImportIdentity(input) !in seen
    ensures var identity, after := ImportIdentity(input), queue + [Pending(file, items[k].resultIndex, input)];
            && Midway(items, results, file, after, k + 1, before)
            && Seen(if identity != "" then seen[identity := source] else seen, after)
            && (forall other :: Names(queue, other) ==> Names(after, other))
            && QueueIds(after) == QueueIds(queue) + [identity]
  {
    hide Midway, Seen, Names, QueueIds, ImportIdentity;
    var p := Pending(file, items[k].resultIndex, input);
    MidwayKeep(items, results, file, queue, k, before, input);
    SeenGrows(seen, queue, p, source);
    NamesGrows(queue, p);
    QueueIdsGrow(queue, p);
  }

  lemma KeptNext(kept: seq<string>, ids: seq<string>, k: nat)
    requires k < |ids|
    ensures var before := KeptFrom(kept, ids[..k]);
            KeptFrom(kept, ids[..k + 1]) == if ids[k] != "" && ids[k] in before then before else before + [ids[k]]
  {
    assert ids[..k + 1][..k] == ids[..k];
  }

  lemma KeptNone(kept: seq<string>, ids: seq<string>)
    ensures KeptFrom(kept, ids[..0]) == kept
  {
  }

  lemma SeenIsQueued(seen: map<string, string>, pending: seq<Pending>, identity: string)
    requires Seen(seen, pending)
    ensures identity in seen <==> identity != "" && identity in QueueIds(pending)
  {
    if Names(pending, identity) {
      var k :| 0 <= k < |pending| && ImportIdentity(pending[k].input) == identity;
      assert QueueIds(pending)[k] == identity;
    }
  }

  lemma QueueIdsGrow(pending: seq<Pending>, p: Pending)
    ensures QueueIds(pending + [p]) == QueueIds(pending) + [ImportIdentity(p.input)]
  {
  }

  lemma SeenNames(seen: map<string, string>, pending: seq<Pending>, identity: string)
    requires Seen(seen, pending) && identity in seen
    ensures identity != "" && Names(pending, identity)
  {
  }

  lemma NamesGrows(pending: seq<Pending>, p: Pending)
    ensures forall identity :: Names(pending, identity) ==> Names(pending + [p], identity)
  {
    forall identity | Names(pending, identity) ensures Names(pending + [p], identity) {
      var k :| 0 <= k < |pending| && ImportIdentity(pending[k].input) == identity;
      assert (pending + [p])[k] == pending[k];
    }
  }


  // ---------------------------------------------------------------------------
  // The job record

  const STOPPED_EARLY := "file was not processed because the import batch stopped early"

  /** A file's closing record: a file never reached counts as one failure. */
  function ClosedResults(file: FileResult): seq<Item> {
    if file.status == FileQueued then [FailedItem(file.source, STOPPED_EARLY)] else file.results
  }

  function Verdict(t: Tally): FileStatus {
    if t.failed == 0 then FileCompleted else if t.created + t.updated + t.skipped == 0 then FileFailed else FilePartial
  }

  /** A file is completed without a failure, failed when everything in it failed, partial otherwise. */
  predicate VerdictFits(status: FileStatus, t: Tally) {
    && (status == FileCompleted <==> t.failed == 0)
    && (status == FileFailed <==> t.failed > 0 && t.failed == t.total)
    && (status == FilePartial <==> 0 < t.failed < t.total)
  }

  lemma VerdictMeans(t: Tally)
    requires Balanced(t)
    ensures VerdictFits(Verdict(t), t)
  {
  }

  function Summary(file: FileResult, final: bool): FileResult {
    var results := if final then ClosedResults(file) else file.results;
    file.(results := results, tally := TallyOf(results), status := if final then Verdict(TallyOf(results)) else file.status)
  }

  function ResultsOf(files: seq<FileResult>): (results: Results)
    ensures |results| == |files|
    ensures forall f :: 0 <= f < |files| ==> results[f] == files[f].results
  {
    seq(|files|, f requires 0 <= f < |files| => files[f].results)
  }

  function Concat(results: Results): seq<Item> {
    if results == [] then [] else Concat(results[..|results| - 1]) + results[|results| - 1]
  }

  method CountItems(items: seq<Item>) returns (t: Tally)
    ensures t == TallyOf(items)
  {
    t := NO_TALLY;
    for r := 0 to |items|
      invariant t == TallyOf(items[..r])
    {
      assert items[..r + 1][..r] == items[..r];
      t := Plus(t, One(items[r].status));
    }
    assert items[..|items|] == items;
  }

  /** A deadline: every look takes a tick, and once past it stays past. */
  class Clock {
    const deadline: nat
    var ticks: nat

    constructor (deadline: nat)
      ensures this.deadline == deadline && ticks == 0
    {
      this.deadline, ticks := deadline, 0;
    }

    method Expired() returns (expired: bool)
      modifies this
      ensures ticks == old(ticks) + 1 && expired == (ticks > deadline)
    {
      ticks := ticks + 1;
      expired := ticks > deadline;
    }
  }

  class Job {
    var status: JobStatus
    var files: seq<FileResult>
    var results: seq<Item>
    var tally: Tally
    var error: string
    var finished: bool

    constructor (names: seq<string>)
      ensures Waiting() && |files| == |names|
    {
      status, results, tally, error, finished := JobQueued, [], NO_TALLY, "", false;
      files := seq(|names|, f requires 0 <= f < |names| => FileResult(FileReference(f), names[f], FileQueued, [], NO_TALLY));
    }

    predicate Waiting()
      reads this
    {
      !finished && forall f :: 0 <= f < |files| ==> files[f].status == FileQueued && files[f].results == []
    }

    /** Rebuilds every count from the items. */
    method Summarize(final: bool)
      modifies `files, `results, `tally
      ensures |files| == |old(files)|
      ensures forall f :: 0 <= f < |files| ==> files[f] == Summary(old(files)[f], final)
      ensures tally == TallyAll(ResultsOf(files)) && results == Concat(ResultsOf(files))
    {
      hide TallyAll, Concat, TallyOf, ClosedResults, Verdict, ResultsOf, Plus;
      tally, results := NO_TALLY, [];
      NothingSummed();
      ghost var were := files;
      for f := 0 to |files|
        invariant |files| == |were|
        invariant forall k :: 0 <= k < f ==> files[k] == Summary(were[k], final)
        invariant forall k :: f <= k < |files| ==> files[k] == were[k]
        invariant tally == TallyAll(ResultsOf(files[..f])) && results == Concat(ResultsOf(files[..f]))
      {
        var items := if final then ClosedResults(files[f]) else files[f].results;
        var t := CountItems(items);
        ghost var before := files[..f];
        var summary := files[f].(results := items, tally := t, status := if final then Verdict(t) else files[f].status);
        files := files[f := summary];
        assert files[..f + 1] == before + [summary];
        OneMoreSummed(before, summary);
        tally := Plus(tally, t);
        results := results + items;
      }
      assert files[..|files|] == files;
    }

    /** Progress: one more file's results are in. */
    method Publish(f: nat, items: seq<Item>)
      requires f < |files|
      modifies `files, `results, `tally
      ensures |files| == |old(files)|
      ensures files[f].status == FileParsed && files[f].results == items
      ensures forall k :: 0 <= k < |files| && k != f ==> files[k].status == old(files)[k].status && files[k].results == old(files)[k].results
    {
      files := files[f := files[f].(status := FileParsed, results := items)];
      Summarize(false);
    }

    /** The books are closed and add up: every item is settled in exactly one way,
        file by file and for the whole job. */
    ghost predicate Closed()
      reads this
    {
      && finished
      && results == Concat(ResultsOf(files))
      && tally == TallyAll(ResultsOf(files)) && Balanced(tally)
      && NothingQueued(ResultsOf(files))
      && (forall f :: 0 <= f < |files| ==>
            && files[f].tally == TallyOf(files[f].results) && files[f].tally.total == |files[f].results|
            && Balanced(files[f].tally)
            && VerdictFits(files[f].status, files[f].tally))
      && (status == JobCompleted <==> tally.failed == 0)
      && (status == JobFailed <==> tally.failed > 0 && tally.created + tally.updated + tally.skipped == 0)
      && (status == JobPartial <==> tally.failed > 0 && tally.created + tally.updated + tally.skipped > 0)
    }

    /** Closes the job on its results. */
    method Finish(byFile: Results, timedOut: bool)
      requires |byFile| == |files| && NothingQueued(byFile)
      modifies this
      ensures Closed() && |files| == |old(files)|
      ensures tally.created == TallyAll(byFile).created && tally.updated == TallyAll(byFile).updated
      ensures error == if timedOut && tally.created + tally.updated + tally.skipped == 0 then "import job timed out" else old(error)
      ensures forall f :: 0 <= f < |files| && byFile[f] != [] ==> files[f].results == byFile[f]
      // A file that was never reached is answered for by one failure.
      ensures forall f :: 0 <= f < |files| && byFile[f] == [] && old(files)[f].status == FileQueued ==>
                |files[f].results| == 1 && files[f].results[0].status == Failed && files[f].results[0].error != ""
    {
      hide NothingQueued, TallyOf, TallyAll, Concat, Balanced;
      for f := 0 to |files|
        invariant |files| == |old(files)|
        invariant forall k :: 0 <= k < f ==>
                    && files[k].results == byFile[k]
                    && files[k].status == if old(files)[k].status == FileQueued && byFile[k] != [] then FileParsed else old(files)[k].status
        invariant forall k :: f <= k < |files| ==> files[k] == old(files)[k]
        invariant error == old(error)
      {
        files := files[f := files[f].(results := byFile[f],
                                      status := if files[f].status == FileQueued && byFile[f] != [] then FileParsed else files[f].status)];
      }
      Summarize(true);
      ClosedStaysSettled(byFile, ResultsOf(files));
      SettledResultsBalance(ResultsOf(files));
      forall f | 0 <= f < |files| ensures VerdictFits(files[f].status, files[f].tally) {
        VerdictMeans(files[f].tally);
      }
      status := if tally.failed == 0 then JobCompleted
                else if tally.created + tally.updated + tally.skipped == 0 then JobFailed else JobPartial;
      if timedOut && tally.created + tally.updated + tally.skipped == 0 {
        error := "import job timed out";
      }
      finished := true;
    }
  }

  lemma NothingSummed()
    ensures TallyAll(ResultsOf([])) == NO_TALLY && Concat(ResultsOf([])) == []
  {
  }

  lemma OneMoreSummed(files: seq<FileResult>, file: FileResult)
    ensures TallyAll(ResultsOf(files + [file])) == Plus(TallyAll(ResultsOf(files)), TallyOf(file.results))
    ensures Concat(ResultsOf(files + [file])) == Concat(ResultsOf(files)) + file.results
  {
    hide TallyOf;
    assert ResultsOf(files + [file])[..|files|] == ResultsOf(files);
  }

  /** Filling in a failure for files never reached leaves nothing queued and no other count. */
  lemma ClosedStaysSettled(byFile: Results, closed: Results)
    requires NothingQueued(byFile) && |closed| == |byFile|
    requires forall f :: 0 <= f < |closed| ==> FilledIn(byFile[f], closed[f])
    ensures NothingQueued(closed)
    ensures TallyAll(closed).created == TallyAll(byFile).created && TallyAll(closed).updated == TallyAll(byFile).updated
  {
    hide TallyAll;
    FillingStoresNothing(byFile, closed);
    forall f: nat, r: nat | InRange(closed, f, r) ensures StatusAt(closed, f, r) != Queued {
      if closed[f] == byFile[f] {
        assert InRange(byFile, f, r) && StatusAt(byFile, f, r) == StatusAt(closed, f, r);
      }
    }
  }

  predicate FilledIn(items: seq<Item>, closed: seq<Item>) {
    closed == items || (items == [] && |closed| == 1 && closed[0].status == Failed)
  }

  lemma {:induction false} FillingStoresNothing(byFile: Results, closed: Results)
    requires |closed| == |byFile| && forall f :: 0 <= f < |closed| ==> FilledIn(byFile[f], closed[f])
    ensures SameStored(TallyAll(closed), TallyAll(byFile))
    decreases |closed|
  {
    hide TallyOf, TallyAll, FilledIn;
    if closed == [] {
      assert closed == byFile;
    } else {
      var n := |closed| - 1;
      var front, first := closed[..n], byFile[..n];
      FilledStoresNothing(byFile[n], closed[n]);
      FillingStoresNothing(first, front);
      LastTally(byFile);
      LastTally(closed);
    }
  }

  predicate SameStored(a: Tally, b: Tally) {
    a.created == b.created && a.updated == b.updated
  }

  lemma LastTally(results: Results)
    requires results != []
    ensures TallyAll(results) == Plus(TallyAll(results[..|results| - 1]), TallyOf(results[|results| - 1]))
  {
  }

  lemma FilledStoresNothing(items: seq<Item>, closed: seq<Item>)
    requires FilledIn(items, closed)
    ensures SameStored(TallyOf(closed), TallyOf(items))
  {
  }

  // ---------------------------------------------------------------------------
  // The run

  /** Counts a batch's entries before any of it is parsed for real. */
  /** A file whose entries can be counted before anything is parsed. */
  predicate Countable(file: File) {
    if file.format == Json || (file.format == Auto && file.looksJson && file.json.Entries?) then file.json.Entries? else file.sso.Values?
  }

  lemma EstimateFits(file: File, total: nat, limit: nat)
    requires total <= limit
    ensures var estimate := Estimate(file, if limit - total < 1 then 1 else limit - total);
            estimate.Some? ==>
              && (total + estimate.value <= limit ==> estimate.value <= Entries(file, limit))
              && (total + estimate.value > limit ==> total + Entries(file, limit) > limit)
  {
  }

  lemma EstimateCounts(file: File, total: nat, limit: nat)
    requires Countable(file) && total <= limit
    ensures var estimate := Estimate(file, if limit - total < 1 then 1 else limit - total);
            estimate.Some? && (total + estimate.value <= limit ==> estimate.value == Entries(file, limit))
  {
  }

  method Preflight(files: seq<File>, limit: nat) returns (offending: Option<nat>, total: nat)
    ensures offending.Some? <==> total > limit
    ensures offending.Some? ==> offending.value < |files|
    ensures AllEntries(files, limit) <= limit ==> offending.None?
    // Where every file can be counted, too many entries are found out before anything is parsed.
    ensures (forall f :: 0 <= f < |files| ==> Countable(files[f])) ==> (offending.None? <==> AllEntries(files, limit) <= limit)
  {
    hide Entries, Estimate, Countable;
    total := 0;
    for f := 0 to |files|
      invariant total <= limit && total <= AllEntries(files[..f], limit)
      invariant (forall g :: 0 <= g < |files| ==> Countable(files[g])) ==> total == AllEntries(files[..f], limit)
    {
      assert files[..f + 1][..f] == files[..f];
      FewerFilesFewerEntries(files, f + 1, limit);
      EstimateFits(files[f], total, limit);
      if Countable(files[f]) {
        EstimateCounts(files[f], total, limit);
      }
      var count := Estimate(files[f], if limit - total < 1 then 1 else limit - total);
      if count.Some? {
        total := total + count.value;
        if total > limit {
          return Some(f), total;
        }
      }
    }
    assert files[..|files|] == files;
    return None, total;
  }

  /** What the run has so far: parsed files come first, and only pending items are queued. */
  ghost predicate Sound(byFile: Results, pending: seq<Pending>, next: nat) {
    && next <= |byFile|
    && QueuedIsPending(byFile, pending)
    && (forall f :: 0 <= f < |byFile| ==> NoneStored(byFile[f]))
    && (forall f :: next <= f < |byFile| ==> byFile[f] == [])
    && (forall k :: 0 <= k < |pending| ==> pending[k].file < next)
  }

  lemma {:induction false} NoneStoredTally(items: seq<Item>)
    requires NoneStored(items)
    ensures TallyOf(items).created == 0 && TallyOf(items).updated == 0
  {
    if items != [] {
      NoneStoredTally(items[..|items| - 1]);
    }
  }

  lemma {:induction false} NothingStoredYet(byFile: Results)
    requires forall f :: 0 <= f < |byFile| ==> NoneStored(byFile[f])
    ensures TallyAll(byFile).created == 0 && TallyAll(byFile).updated == 0
  {
    if byFile != [] {
      hide NoneStored;
      NothingStoredYet(byFile[..|byFile| - 1]);
      NoneStoredTally(byFile[|byFile| - 1]);
    }
  }

  predicate AllHaveTokens(inputs: seq<Input>) {
    forall k :: 0 <= k < |inputs| ==> HasToken(inputs[k])
  }

  /** The store takes a batch whole or refuses it; a record without any token is refused. */
  function BulkUpsert(inputs: seq<Input>, answer: StoreAnswer): StoreAnswer {
    if AllHaveTokens(inputs) then answer else StoreFails
  }

  predicate Accepts(inputs: seq<Input>, answer: StoreAnswer) {
    inputs != [] && BulkUpsert(inputs, answer).StoreTook? && |answer.stored| == |inputs|
  }

  /** Sends the pending items to the store, unless the deadline has passed. */
  method Persist(byFile: Results, pending: seq<Pending>, clock: Clock,
      answer: StoreAnswer) returns (after: Results, sent: seq<Input>)
    requires QueuedIsPending(byFile, pending) && forall f :: 0 <= f < |byFile| ==> NoneStored(byFile[f])
    modifies clock
    ensures NothingQueued(after) && |after| == |byFile| && forall f :: 0 <= f < |after| ==> |after[f]| == |byFile[f]|
    ensures sent == [] || sent == InputsOf(pending)
    ensures old(clock.ticks) >= clock.deadline ==> sent == []
    ensures old(clock.ticks) + 2 <= clock.deadline ==> sent == InputsOf(pending)
    ensures TallyAll(after).created == (if Accepts(sent, answer) then CreatedIn(answer.stored) else 0)
    ensures TallyAll(after).updated == (if Accepts(sent, answer) then |sent| - CreatedIn(answer.stored) else 0)
    ensures clock.ticks >= old(clock.ticks)
  {
    hide QueuedIsPending, NothingQueued, TallyAll, CreatedIn, AllHaveTokens, NoneStored;
    NothingStoredYet(byFile);
    sent := [];
    if pending == [] {
      NothingPendingNothingQueued(byFile, pending);
      return byFile, sent;
    }
    var late := clock.Expired();
    if !late {
      late := clock.Expired();
    }
    if late {
      after := FailPending(byFile, pending, "import job timed out");
      return;
    }
    sent := InputsOf(pending);
    var took := BulkUpsert(sent, answer);
    if took.StoreFails? || |took.stored| != |pending| {
      after := FailPending(byFile, pending, "credential storage failed");
      return;
    }
    after := RecordStored(byFile, pending, took.stored);
  }

  /** Every pending input is one of some file's own entries. */
  ghost predicate AllFrom(files: seq<File>, pending: seq<Pending>) {
    forall k :: 0 <= k < |pending| ==> FromSome(files, pending[k].input)
  }

  ghost predicate FromSome(files: seq<File>, input: Input) {
    exists f :: 0 <= f < |files| && ComesFrom(files[f], input)
  }

  lemma NoneFrom(files: seq<File>)
    ensures AllFrom(files, [])
  {
  }

  lemma MoreFrom(files: seq<File>, before: seq<Pending>, after: seq<Pending>, f: nat)
    requires AllFrom(files, before) && before <= after && f < |files|
    requires forall k :: |before| <= k < |after| ==> ComesFrom(files[f], after[k].input)
    ensures AllFrom(files, after)
  {
    hide ComesFrom;
    forall k | 0 <= k < |after| ensures FromSome(files, after[k].input) {
      if k < |before| {
        assert after[k] == before[k];
      } else {
        assert ComesFrom(files[f], after[k].input);
      }
    }
  }

  /** Everything sent is one of some file's own entries. */
  ghost predicate SentFrom(files: seq<File>, sent: seq<Input>) {
    forall k :: 0 <= k < |sent| ==> FromSome(files, sent[k])
  }

  lemma PendingIsSent(files: seq<File>, pending: seq<Pending>, sent: seq<Input>)
    requires AllFrom(files, pending) && (sent == [] || sent == InputsOf(pending))
    ensures SentFrom(files, sent)
  {
    hide ComesFrom;
  }

  /** Parses and merges files until one runs into the deadline or the entry limit. */
  method Collect(job: Job, files: seq<File>, limit: nat, clock: Clock) returns (byFile: Results, pending: seq<Pending>)
    requires job.Waiting() && |job.files| == |files|
    modifies job, clock
    ensures !job.finished && |job.files| == |files| == |byFile| && job.error == old(job.error)
    ensures QueuedIsPending(byFile, pending) && DistinctIdentities(InputsOf(pending))
    ensures forall f :: 0 <= f < |byFile| ==> NoneStored(byFile[f])
    ensures AllFrom(files, pending)
    ensures clock.ticks >= old(clock.ticks)
    ensures pending == [] || clock.ticks > clock.deadline || QueueIds(pending) == KeptFrom([], BatchIds(files, limit))
    ensures AllEntries(files, limit) > limit ==> pending == [] || clock.ticks > clock.deadline
    ensures pending == [] && AllEntries(files, limit) <= limit && clock.ticks <= clock.deadline ==> KeptFrom([], BatchIds(files, limit)) == []
    ensures clock.ticks <= old(clock.ticks) + 2 * |files|
  {
    hide ComesFrom, AllFrom, Parsed, Midway, Seen, QueuedIsPending, NothingQueued, NoneStored, ImportIdentity,
      Names, FileIds, Entries, KeptFrom, IdsOf;
    pending := [];
    byFile := seq(|files|, _ => []);
    var seen: map<string, string>, names: map<string, string> := map[], map[];
    var entries, f := 0, 0;
    NothingParsed(byFile);
    NothingKept(files, limit);
    NoneFrom(files);
    while f < |files|
      invariant 0 <= f <= |files| == |byFile| == |job.files|
      invariant !job.finished && job.error == old(job.error)
      invariant AllFrom(files, pending)
      invariant Sound(byFile, pending, f) && Seen(seen, pending)
      invariant old(clock.ticks) <= clock.ticks <= old(clock.ticks) + 2 * f
      invariant entries == AllEntries(files[..f], limit) <= limit
      invariant QueueIds(pending) == KeptFrom([], BatchIds(files[..f], limit))
    {
      var late := clock.Expired();
      if late {
        break;
      }
      var items, results, count := ParseFile(files[f], f, limit);
      entries := entries + count;
      late := clock.Expired();
      if late {
        var failed := FailQueued(results, "import job timed out");
        FailedFile(byFile, pending, f, items, results, failed);
        byFile := byFile[f := failed];
        job.Publish(f, failed);
        break;
      }
      ghost var before := pending;
      results, pending, seen, names := Merge(items, results, f, pending, seen, names, files[f]);
      MoreFrom(files, before, pending, f);
      MergedFile(byFile, before, pending, f, items, results);
      KeptJoin([], BatchIds(files[..f], limit), FileIds(files[f], limit));
      FewerFilesFewerEntries(files, f + 1, limit);
      assert files[..f + 1][..f] == files[..f];
      byFile := byFile[f := results];
      job.Publish(f, results);
      f := f + 1;
      if entries > limit {
        byFile := OverLimit(byFile, f - 1);
        pending := [];
        NoneFrom(files);
        NothingSeen(byFile);
        seen := map[];
        job.Publish(f - 1, byFile[f - 1]);
        break;
      }
    }
    DistinctWhenSeen(seen, pending);
    assert f == |files| ==> files[..f] == files;
  }

  lemma NothingKept(files: seq<File>, limit: nat)
    ensures QueueIds([]) == KeptFrom([], BatchIds(files[..0], limit))
  {
  }

  /** Too many entries: one more failure on the file that crossed the limit, and all that was queued fails. */
  method OverLimit(byFile: Results, f: nat) returns (after: Results)
    requires f < |byFile| && forall k :: 0 <= k < |byFile| ==> NoneStored(byFile[k])
    ensures |after| == |byFile| && NothingQueued(after) && forall k :: 0 <= k < |after| ==> NoneStored(after[k])
    ensures forall k :: 0 <= k < |after| ==> |after[k]| == |byFile[k]| + if k == f then 1 else 0
  {
    var longer := byFile[f := byFile[f] + [FailedItem(FileReference(f), "entry limit exceeded")]];
    after := FailEverythingQueued(longer, "batch entry limit exceeded");
    forall k | 0 <= k < |after| ensures NoneStored(after[k]) {
      forall r | 0 <= r < |after[k]| ensures after[k][r].status != Created && after[k][r].status != Updated {
        assert InRange(longer, k, r);
      }
    }
  }

  lemma FailedFile(byFile: Results, pending: seq<Pending>, f: nat, items: seq<ParsedItem>, results: seq<Item>,
      failed: seq<Item>)
    requires Sound(byFile, pending, f) && f < |byFile| && Parsed(items, results) && |failed| == |results|
    requires forall r :: 0 <= r < |failed| ==>
               failed[r].status == if results[r].status == Queued then Failed else results[r].status
    ensures NoneStored(failed) && QueuedIsPending(byFile[f := failed], pending)
  {
  }

  lemma MergedFile(byFile: Results, before: seq<Pending>, pending: seq<Pending>, f: nat, items: seq<ParsedItem>,
      results: seq<Item>)
    requires Sound(byFile, before, f) && f < |byFile| && before <= pending && NoneStored(results)
    requires Midway(items, results, f, pending, |items|, |before|)
    ensures Sound(byFile[f := results], pending, f + 1)
  {
    assert pending[..|before|] == before;
    MidwayEnd(byFile, items, results, f, pending, |before|);
    hide QueuedIsPending, NoneStored;
    forall k | 0 <= k < |pending| ensures pending[k].file < f + 1 {
      if k < |before| {
        assert pending[k] == before[k];
      }
    }
  }

  lemma NothingParsed(byFile: Results)
    requires forall f :: 0 <= f < |byFile| ==> byFile[f] == []
    ensures Sound(byFile, [], 0) && Seen(map[], [])
  {
  }

  lemma NothingSeen(byFile: Results)
    requires NothingQueued(byFile)
    ensures QueuedIsPending(byFile, []) && Seen(map[], [])
  {
  }

  lemma DistinctWhenSeen(seen: map<string, string>, pending: seq<Pending>)
    requires Seen(seen, pending)
    ensures DistinctIdentities(InputsOf(pending))
  {
  }

  /** Runs a job to its end. `sent` is what the store was asked to take. */
  method Run(job: Job, files: seq<File>, limit: nat, clock: Clock, answer: StoreAnswer) returns (sent: seq<Input>)
    requires job.Waiting() && |job.files| == |files| && job.error == "" && clock.ticks == 0
    modifies job, clock
    ensures job.Closed() && |job.files| == |files|
    ensures DistinctIdentities(sent)
    ensures SentFrom(files, sent)
    ensures job.tally.created == (if Accepts(sent, answer) then CreatedIn(answer.stored) else 0)
    ensures job.tally.updated == (if Accepts(sent, answer) then |sent| - CreatedIn(answer.stored) else 0)
    ensures (exists k :: 0 <= k < |sent| && ImportIdentity(sent[k]) == "") ==> job.tally.created == 0 && job.tally.updated == 0
    ensures sent != [] || (2 * |files| + 2 <= clock.deadline && AllEntries(files, limit) <= limit) ==>
              IdsOf(sent) == KeptFrom([], BatchIds(files, limit))
    ensures (forall f :: 0 <= f < |files| ==> Tokened(files[f])) ==> OwnIdentities(sent)
    ensures clock.deadline == 0 ==> sent == []
    // Too many entries in all and nothing is sent; never are more sent than allowed.
    ensures (AllEntries(files, limit) > limit ==> sent == []) && |sent| <= limit
  {
    SentIsCounted(files, limit);
    hide AllFrom, SentFrom, OwnIdentities, Tokened, KeptFrom, BatchIds, AllEntries, Accepts, Job.Closed,
      NoneStored, QueuedIsPending, NothingQueued, TallyAll, CreatedIn,
      ImportIdentity, DistinctIdentities, HasToken;
    job.status := JobRunning;
    sent := [];
    NoInputs(answer);
    NoneFrom(files);
    PendingIsSent(files, [], sent);
    if forall f :: 0 <= f < |files| ==> Tokened(files[f]) {
      TokenedSendOwnIdentities(files, limit, sent);
    }
    var byFile: Results;
    var offending, total := Preflight(files, limit);
    if offending.Some? {
      byFile := seq(|files|, f requires 0 <= f < |files| =>
        [FailedItem(FileReference(f), if Some(f) == offending then "entry limit exceeded" else "batch entry limit exceeded")]);
      AllFailed(byFile);
      job.Finish(byFile, false);
      return;
    }
    var pending: seq<Pending>;
    byFile, pending := Collect(job, files, limit, clock);
    byFile, sent := Persist(byFile, pending, clock, answer);
    PendingIsSent(files, pending, sent);
    var late := clock.Expired();
    job.Finish(byFile, late);
    if forall f :: 0 <= f < |files| ==> Tokened(files[f]) {
      TokenedSendOwnIdentities(files, limit, sent);
    }
    if k :| 0 <= k < |sent| && ImportIdentity(sent[k]) == "" {
      BlankIsRefused(sent, answer, k);
    }
  }

  lemma BlankIsRefused(sent: seq<Input>, answer: StoreAnswer, k: nat)
    requires k < |sent| && ImportIdentity(sent[k]) == ""
    ensures !Accepts(sent, answer)
  {
    BlankIdentity(sent[k]);
  }

  lemma NoInputs(answer: StoreAnswer)
    ensures DistinctIdentities([]) && !Accepts([], answer)
  {
  }

  lemma {:induction false} AllFailed(byFile: Results)
    requires forall f :: 0 <= f < |byFile| ==> |byFile[f]| == 1 && byFile[f][0].status == Failed
    ensures NothingQueued(byFile) && TallyAll(byFile).created == 0 && TallyAll(byFile).updated == 0
  {
    hide TallyAll;
    forall f | 0 <= f < |byFile| ensures NoneStored(byFile[f]) {
    }
    NothingStoredYet(byFile);
  }
}
