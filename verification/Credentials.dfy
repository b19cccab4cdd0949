/**
  The credential record of internal/storage/credentials.go and the pure rules
  over it: normalisation, account identity and the upsert merge. Strings are the
  trimmed ones the source works with, times are whole seconds, and a SHA-256
  digest is modelled by the text it digests, hence injective.
 */
module Credentials {
  import opened Common

  datatype LifecycleState = Unset | Active | Quarantined
  datatype DisableReason = NoReason | Manual | InvalidAuth

  /** The digest of a token pair, or the empty string. */
  datatype Fingerprint = NoPrint | Print(access: string, refresh: string)

  datatype Identity = Identity(
    name: string, email: string, userId: string, teamId: string,
    key: string, sourceKey: string, issuer: string, clientId: string)

  datatype Tokens = Tokens(access: string, refresh: string, expiresAt: Option<int>) {
    function Digest(): Fingerprint {
      Print(access, refresh)
    }
  }

  /** Whether a credential may be used, and the evidence when it was taken out of use. */
  datatype Standing = Standing(
    enabled: bool, manualDisabled: bool, state: LifecycleState, reason: DisableReason,
    quarantinedAt: Option<int>, purgeAfter: Option<int>, fingerprint: Fingerprint)

  datatype Route = Route(mode: string, url: string)

  datatype Health = Health(
    failureCount: nat, cooldownUntil: Option<int>, lastError: string,
    lastUsedAt: Option<int>, lastSuccessAt: Option<int>, remainingRequests: Option<int>, remainingTokens: Option<int>)

  datatype Inspection = Inspection(at: Option<int>, status: string, error: string, unauthorized: nat)

  datatype Credential = Credential(
    id: string, revision: nat,
    who: Identity, tokens: Tokens, standing: Standing, priority: int, route: Route,
    health: Health, inspection: Inspection, createdAt: int, updatedAt: int)

  datatype Input = Input(
    name: string, email: string, userId: string, teamId: string,
    key: string, sourceKey: string, issuer: string, clientId: string,
    access: string, refresh: string, expiresAt: Option<int>,
    enabled: Option<bool>, priority: Option<int>, proxyMode: string, proxyUrl: string)

  const IN_USE := Standing(true, false, Active, NoReason, None, None, NoPrint)

  // ---------------------------------------------------------------------------
  // Account identity

  function LowerChar(c: char): char {
    if 'A' <= c <= 'Z' then ((c as int) - ('A' as int) + ('a' as int)) as char else c
  }

  function Lower(s: string): (r: string)
    ensures |r| == |s|
  {
    seq(|s|, i requires 0 <= i < |s| => LowerChar(s[i]))
  }

  function TrimSlash(s: string): string {
    if s != "" && s[|s| - 1] == '/' then TrimSlash(s[..|s| - 1]) else s
  }

  lemma {:induction false} TrimSlashTwice(s: string)
    ensures TrimSlash(TrimSlash(s)) == TrimSlash(s)
  {
    if s != "" && s[|s| - 1] == '/' {
      TrimSlashTwice(s[..|s| - 1]);
    }
  }

  function FirstNonEmpty(a: string, b: string): string {
    if a != "" then a else b
  }

  function StableIdentity(issuer: string, clientId: string, userId: string, teamId: string,
                          email: string, refresh: string, access: string): string {
    var scope := Lower(TrimSlash(issuer)) + ":" + Lower(clientId) + ":";
    if userId != "" then "oidc:" + scope + userId + ":" + teamId
    else if email != "" then "email:" + scope + Lower(email)
    else if refresh != "" then "refresh:" + refresh
    else if access != "" then "access:" + access
    else ""
  }

  function ComputedIdentity(c: Credential): string {
    StableIdentity(c.who.issuer, c.who.clientId, c.who.userId, c.who.teamId, c.who.email, c.tokens.refresh, c.tokens.access)
  }

  function CredentialIdentity(c: Credential): string {
    FirstNonEmpty(c.who.key, ComputedIdentity(c))
  }

  function InputIdentity(i: Input): string {
    FirstNonEmpty(i.key, StableIdentity(i.issuer, i.clientId, i.userId, i.teamId, i.email, i.refresh, i.access))
  }

  predicate ScopeCompatible(c: Credential, i: Input) {
    var oldIssuer, newIssuer := Lower(TrimSlash(c.who.issuer)), Lower(TrimSlash(i.issuer));
    var oldClient, newClient := Lower(c.who.clientId), Lower(i.clientId);
    && (oldIssuer == "" || newIssuer == "" || oldIssuer == newIssuer)
    && (oldClient == "" || newClient == "" || oldClient == newClient)
  }

  /** The four matching rules, in the order the store tries them. */
  predicate SameIdentity(c: Credential, i: Input) {
    if CredentialIdentity(c) != "" && CredentialIdentity(c) == InputIdentity(i) then true
    else if i.userId != "" && c.who.userId == i.userId && ScopeCompatible(c, i) then
      i.teamId == "" || c.who.teamId == "" || c.who.teamId == i.teamId
    else if (i.userId == "" || c.who.userId == "") && i.email != "" && c.who.email != "" &&
            Lower(c.who.email) == Lower(i.email) && ScopeCompatible(c, i) then true
    else i.refresh != "" && c.tokens.refresh == i.refresh
  }

  // ---------------------------------------------------------------------------
  // Normalisation

  function Normalize(c: Credential): Credential {
    var key := if c.who.key == "" then ComputedIdentity(c) else c.who.key;
    var st := c.standing;
    var standing :=
      if st.state != Unset then st
      else if st.enabled then st.(state := Active)
      else st.(state := Active, manualDisabled := true,
               reason := if st.reason == NoReason then Manual else st.reason);
    var route := if c.route.mode == "" then c.route.(mode := "inherit") else c.route;
    c.(who := c.who.(key := key), standing := standing, route := route)
  }

  function NormalizeAll(doc: seq<Credential>): (r: seq<Credential>)
    ensures |r| == |doc|
  {
    seq(|doc|, i requires 0 <= i < |doc| => Normalize(doc[i]))
  }

  lemma NormalizeTwice(doc: seq<Credential>)
    ensures NormalizeAll(NormalizeAll(doc)) == NormalizeAll(doc)
  {
  }

  /** Loading fills in what an old file left out and changes nothing else: an identity
      key, a lifecycle state, by which a disabled record is taken for an operator's, and a route mode. */
  lemma NormalizeFills(c: Credential)
    ensures var n := Normalize(c);
            && n.(who := n.who.(key := c.who.key), standing := c.standing, route := n.route.(mode := c.route.mode)) == c
            && (c.who.key != "" ==> n.who.key == c.who.key) && (c.who.key == "" ==> n.who.key == ComputedIdentity(c))
            && (c.route.mode != "" ==> n.route.mode == c.route.mode) && (c.route.mode == "" ==> n.route.mode == "inherit")
            && (c.standing.state != Unset ==> n.standing == c.standing)
            && (c.standing.state == Unset ==>
                  && n.standing.state == Active && n.standing.enabled == c.standing.enabled
                  && n.standing.manualDisabled == (!c.standing.enabled || c.standing.manualDisabled)
                  && n.standing.fingerprint == c.standing.fingerprint && n.standing.purgeAfter == c.standing.purgeAfter
                  && n.standing.reason == (if !c.standing.enabled && c.standing.reason == NoReason then Manual else c.standing.reason))
  {
  }

  /** What every load from disk returns. */
  predicate Normal(doc: seq<Credential>) {
    NormalizeAll(doc) == doc
  }

  // ---------------------------------------------------------------------------
  // Create and upsert

  function NewCredential(i: Input, id: string, now: int): Credential {
    var enabled := if i.enabled.Some? then i.enabled.value else true;
    Credential(
      id, 1,
      Identity(i.name, i.email, i.userId, i.teamId, InputIdentity(i), i.sourceKey, TrimSlash(i.issuer), i.clientId),
      Tokens(i.access, i.refresh, i.expiresAt),
      Standing(enabled, !enabled, Active, if enabled then NoReason else Manual, None, None, NoPrint),
      if i.priority.Some? then i.priority.value else 100,
      Route(Lower(i.proxyMode), i.proxyUrl),
      Health(0, None, "", None, None, None, None),
      Inspection(None, "", "", 0),
      now, now)
  }

  predicate TokenChanged(c: Credential, i: Input) {
    (i.access != "" && i.access != c.tokens.access) || (i.refresh != "" && i.refresh != c.tokens.refresh)
  }

  /** An upsert's effect on the record it matched. */
  function MergeInput(c: Credential, i: Input, now: int): Credential {
    var who := Identity(
      FirstNonEmpty(i.name, c.who.name), FirstNonEmpty(i.email, c.who.email),
      FirstNonEmpty(i.userId, c.who.userId), FirstNonEmpty(i.teamId, c.who.teamId),
      c.who.key, FirstNonEmpty(i.sourceKey, c.who.sourceKey),
      FirstNonEmpty(TrimSlash(i.issuer), c.who.issuer), FirstNonEmpty(i.clientId, c.who.clientId));
    var tokens := Tokens(
      FirstNonEmpty(i.access, c.tokens.access), FirstNonEmpty(i.refresh, c.tokens.refresh),
      if i.expiresAt.Some? then i.expiresAt else c.tokens.expiresAt);
    var route := if i.proxyMode != "" then Route(Lower(i.proxyMode), i.proxyUrl) else c.route;
    var revived := TokenChanged(c, i) && c.standing.reason == InvalidAuth && !c.standing.manualDisabled;
    var merged := c.(who := who, tokens := tokens, route := route,
                     standing := if revived then IN_USE else c.standing,
                     inspection := if revived then c.inspection.(unauthorized := 0, error := "") else c.inspection,
                     updatedAt := now, revision := c.revision + 1);
    merged.(who := who.(key := if i.key != "" then i.key else ComputedIdentity(merged)))
  }

  /** A field an upsert brings replaces the stored one, a field it lacks is kept. */
  predicate Brought(brought: string, before: string, after: string) {
    (brought != "" ==> after == brought) && (brought == "" ==> after == before)
  }

  /** What an upsert changes of the record it matches, field by field; new tokens
      bring a credential quarantined for invalid auth back into use. */
  lemma MergeBrings(c: Credential, i: Input, now: int)
    ensures var m := MergeInput(c, i, now);
            && Brought(i.access, c.tokens.access, m.tokens.access) && Brought(i.refresh, c.tokens.refresh, m.tokens.refresh)
            && (i.expiresAt.Some? ==> m.tokens.expiresAt == i.expiresAt) && (i.expiresAt.None? ==> m.tokens.expiresAt == c.tokens.expiresAt)
            && Brought(i.name, c.who.name, m.who.name) && Brought(i.email, c.who.email, m.who.email)
            && Brought(i.userId, c.who.userId, m.who.userId) && Brought(i.teamId, c.who.teamId, m.who.teamId)
            && Brought(i.sourceKey, c.who.sourceKey, m.who.sourceKey) && Brought(i.clientId, c.who.clientId, m.who.clientId)
            && Brought(TrimSlash(i.issuer), c.who.issuer, m.who.issuer)
            && (i.key != "" ==> m.who.key == i.key)
            && (i.proxyMode == "" ==> m.route == c.route)
            && (i.proxyMode != "" ==> m.route.mode == Lower(i.proxyMode) && m.route.url == i.proxyUrl)
            && m.id == c.id && m.priority == c.priority && m.health == c.health && m.createdAt == c.createdAt
            && m.revision == c.revision + 1 && m.updatedAt == now
            && (m.standing != c.standing ==> m.tokens != c.tokens && c.standing.reason == InvalidAuth && !c.standing.manualDisabled)
            && (c.standing.reason == InvalidAuth && !c.standing.manualDisabled
                && (m.tokens.access != c.tokens.access || m.tokens.refresh != c.tokens.refresh) ==>
                  m.standing == Standing(true, false, Active, NoReason, None, None, NoPrint) && m.inspection.unauthorized == 0)
            && (m.standing == c.standing && c.standing.reason != InvalidAuth ==> m.inspection == c.inspection)
  {
  }

  /** What a created record holds: what the input brings, in use unless it says
      otherwise, and then disabled as if by an operator. */
  lemma NewHolds(i: Input, id: string, now: int)
    ensures var c := NewCredential(i, id, now);
            && c.id == id && c.revision == 1 && c.createdAt == now && c.updatedAt == now
            && c.tokens.access == i.access && c.tokens.refresh == i.refresh && c.tokens.expiresAt == i.expiresAt
            && c.who.name == i.name && c.who.email == i.email && c.who.userId == i.userId && c.who.teamId == i.teamId
            && c.who.clientId == i.clientId && c.who.sourceKey == i.sourceKey && (i.key != "" ==> c.who.key == i.key)
            && c.standing.enabled == (i.enabled != Some(false)) && c.standing.manualDisabled == !c.standing.enabled
            && c.standing.state == Active && c.standing.fingerprint == NoPrint && c.standing.quarantinedAt.None? && c.standing.purgeAfter.None?
            && c.priority == (match i.priority case Some(p) => p case None => 100)
            && c.health.failureCount == 0 && c.health.cooldownUntil.None? && c.inspection.at.None? && c.inspection.unauthorized == 0
  {
  }

  /** Who a record is taken for: the same identity key, or the same user in a
      compatible scope and team, or, when no user contradicts it, the same email in
      a compatible scope or the same refresh token. */
  lemma SameIdentityExactly(c: Credential, i: Input)
    ensures var key := CredentialIdentity(c) != "" && InputIdentity(i) == CredentialIdentity(c);
            var user := i.userId != "" && i.userId == c.who.userId && ScopeCompatible(c, i);
            var team := i.teamId == "" || c.who.teamId == "" || i.teamId == c.who.teamId;
            var email := (i.userId == "" || c.who.userId == "") && i.email != "" && Lower(i.email) == Lower(c.who.email) && ScopeCompatible(c, i);
            var refresh := i.refresh != "" && i.refresh == c.tokens.refresh;
            SameIdentity(c, i) <==> key || (user && team) || (!user && (email || refresh))
  {
    assert Lower("") == "";
  }

  /** Scopes are compatible unless both sides name different issuers or clients. */
  lemma ScopeExactly(c: Credential, i: Input)
    ensures !ScopeCompatible(c, i) <==>
              || (Lower(TrimSlash(i.issuer)) != "" && Lower(TrimSlash(c.who.issuer)) != ""
                  && Lower(TrimSlash(i.issuer)) != Lower(TrimSlash(c.who.issuer)))
              || (Lower(i.clientId) != "" && Lower(c.who.clientId) != "" && Lower(i.clientId) != Lower(c.who.clientId))
  {
  }

  /** Another user, or another team, is another account. */
  lemma UsersDiffer(issuer: string, client: string, user: string, team: string, user2: string, team2: string)
    requires user != "" && user2 != "" && (user == user2 || team == team2)
    requires StableIdentity(issuer, client, user, team, "", "", "") == StableIdentity(issuer, client, user2, team2, "", "", "")
    ensures user == user2 && team == team2
  {
    hide Lower, TrimSlash;
    var front := "oidc:" + (Lower(TrimSlash(issuer)) + ":" + Lower(client) + ":");
    assert StableIdentity(issuer, client, user, team, "", "", "") == front + user + (":" + team);
    assert StableIdentity(issuer, client, user2, team2, "", "", "") == front + user2 + (":" + team2);
    if user == user2 {
      assert front + user + (":" + team) == (front + user + ":") + team + "";
      assert front + user + (":" + team2) == (front + user + ":") + team2 + "";
      Cancel(front + user + ":", team, team2, "");
    } else {
      Cancel(front, user, user2, ":" + team);
    }
  }

  /** So is another email, where there is no user to go by. */
  lemma EmailsDiffer(issuer: string, client: string, email: string, email2: string)
    requires email != "" && email2 != ""
    requires StableIdentity(issuer, client, "", "", email, "", "") == StableIdentity(issuer, client, "", "", email2, "", "")
    ensures Lower(email) == Lower(email2)
  {
    hide Lower, TrimSlash;
    var front := "email:" + (Lower(TrimSlash(issuer)) + ":" + Lower(client) + ":");
    assert StableIdentity(issuer, client, "", "", email, "", "") == front + Lower(email) + "";
    assert StableIdentity(issuer, client, "", "", email2, "", "") == front + Lower(email2) + "";
    Cancel(front, Lower(email), Lower(email2), "");
  }

  /** And so is the same user or email at another issuer or client. */
  lemma ScopesDiffer(issuer: string, client: string, issuer2: string, client2: string, user: string, team: string, email: string)
    requires user != "" || email != ""
    requires Lower(TrimSlash(issuer)) == Lower(TrimSlash(issuer2)) || Lower(client) == Lower(client2)
    requires StableIdentity(issuer, client, user, team, email, "", "") == StableIdentity(issuer2, client2, user, team, email, "", "")
    ensures Lower(TrimSlash(issuer)) == Lower(TrimSlash(issuer2)) && Lower(client) == Lower(client2)
  {
    hide Lower, TrimSlash;
    var kind, who := if user != "" then "oidc:" else "email:", if user != "" then user + ":" + team else Lower(email);
    var a, b, c, d := Lower(TrimSlash(issuer)), Lower(client), Lower(TrimSlash(issuer2)), Lower(client2);
    assert StableIdentity(issuer, client, user, team, email, "", "") == kind + (a + ":" + b + ":") + who;
    assert StableIdentity(issuer2, client2, user, team, email, "", "") == kind + (c + ":" + d + ":") + who;
    hide StableIdentity;
    Scoped(kind, a, b, who);
    Scoped(kind, c, d, who);
    if a == c {
      Cancel(kind + a + ":", b, d, ":" + who);
    } else {
      Cancel(kind, a, c, ":" + b + ":" + who);
    }
  }

  lemma Scoped(kind: string, a: string, b: string, who: string)
    ensures kind + (a + ":" + b + ":") + who == (kind + a + ":") + b + (":" + who)
    ensures kind + (a + ":" + b + ":") + who == kind + a + (":" + b + ":" + who)
  {
  }

  /** Spelling does not matter: the issuer's case and trailing slashes, the client's
      and the email's case make no other account. */
  lemma IdentityIgnoresSpelling(issuer: string, issuer2: string, client: string, client2: string, user: string, team: string,
      email: string, email2: string, refresh: string, access: string)
    requires Lower(TrimSlash(issuer)) == Lower(TrimSlash(issuer2)) && Lower(client) == Lower(client2) && Lower(email) == Lower(email2)
    ensures StableIdentity(issuer, client, user, team, email, refresh, access) ==
              StableIdentity(issuer2, client2, user, team, email2, refresh, access)
  {
    assert |Lower(email)| == |email| && |Lower(email2)| == |email2|;
  }

  /** A user outranks an email, an email outranks a token, and a refresh token the
      access token; different users, emails or tokens make different accounts. */
  lemma IdentityTells(issuer: string, client: string, user: string, team: string, email: string, refresh: string, access: string)
    ensures var id := StableIdentity(issuer, client, user, team, email, refresh, access);
            && (id == "" <==> user == "" && email == "" && refresh == "" && access == "")
            && (user != "" ==> id == StableIdentity(issuer, client, user, team, "", "", "") && "oidc:" <= id)
            && (user == "" && email != "" ==> id == StableIdentity(issuer, client, "", "", email, "", "") && "email:" <= id)
            && (user == "" && email == "" && refresh != "" ==> id == "refresh:" + refresh)
            && (user == "" && email == "" && refresh == "" && access != "" ==> id == "access:" + access)
  {
  }

  lemma {:induction false} LowerIsCaseless(s: string)
    ensures forall k :: 0 <= k < |s| ==> !('A' <= Lower(s)[k] <= 'Z')
    ensures Lower(Lower(s)) == Lower(s)
    ensures forall k :: 0 <= k < |s| && !('A' <= s[k] <= 'Z') ==> Lower(s)[k] == s[k]
  {
  }

  lemma {:induction false} TrimSlashTrims(s: string)
    ensures TrimSlash(s) <= s && (TrimSlash(s) != "" ==> TrimSlash(s)[|TrimSlash(s)| - 1] != '/')
    ensures forall k :: |TrimSlash(s)| <= k < |s| ==> s[k] == '/'
  {
    if s != "" && s[|s| - 1] == '/' {
      TrimSlashTrims(s[..|s| - 1]);
    }
  }

  /** The first record an input matches, or the length of the file. */
  function FirstMatch(doc: seq<Credential>, i: Input): (k: nat)
    ensures k <= |doc|
    ensures k < |doc| ==> SameIdentity(doc[k], i)
    ensures forall j :: 0 <= j < k ==> !SameIdentity(doc[j], i)
  {
    if doc == [] || SameIdentity(doc[0], i) then 0 else 1 + FirstMatch(doc[1..], i)
  }

  predicate Creates(doc: seq<Credential>, i: Input) {
    FirstMatch(doc, i) == |doc|
  }

  function Upsert(doc: seq<Credential>, i: Input, id: string, now: int): seq<Credential> {
    var k := FirstMatch(doc, i);
    if k < |doc| then doc[k := MergeInput(doc[k], i, now)] else doc + [NewCredential(i, id, now)]
  }

  /** The loop of upsertCredentialDoc. */
  method UpsertCredentialDoc(doc: seq<Credential>, i: Input, id: string, now: int)
    returns (result: Credential, created: bool, next: seq<Credential>)
    ensures next == Upsert(doc, i, id, now)
    ensures created <==> Creates(doc, i)
    ensures created ==> |next| == |doc| + 1 && result == next[|doc|]
    ensures !created ==> |next| == |doc| && result == next[FirstMatch(doc, i)]
  {
    var k := 0;
    while k < |doc|
      invariant 0 <= k <= |doc|
      invariant forall j :: 0 <= j < k ==> !SameIdentity(doc[j], i)
    {
      if SameIdentity(doc[k], i) {
        assert FirstMatch(doc, i) == k;
        result := MergeInput(doc[k], i, now);
        return result, false, doc[k := result];
      }
      k := k + 1;
    }
    assert FirstMatch(doc, i) == |doc|;
    result := NewCredential(i, id, now);
    return result, true, doc + [result];
  }

  // ---------------------------------------------------------------------------
  // Idempotence of the upsert

  /** The input names its account: an explicit key, a user, an email or a refresh token. */
  predicate Names(i: Input) {
    i.key != "" || i.userId != "" || i.email != "" || i.refresh != ""
  }

  predicate HasToken(i: Input) {
    i.access != "" || i.refresh != ""
  }

  lemma MergedScopeMatches(c: Credential, i: Input, now: int)
    ensures ScopeCompatible(MergeInput(c, i, now), i)
  {
    TrimSlashTwice(i.issuer);
  }

  /** The merged record is found again, whichever rule found it first and although
      its identity key was recomputed from the merged fields. */
  lemma MergedMatchesAgain(c: Credential, i: Input, now: int)
    requires Names(i)
    ensures SameIdentity(MergeInput(c, i, now), i)
  {
    MergedScopeMatches(c, i, now);
  }

  lemma NewMatchesAgain(i: Input, id: string, now: int)
    requires Names(i) || HasToken(i)
    ensures SameIdentity(Normalize(NewCredential(i, id, now)), i)
  {
  }

  lemma MergeTwice(c: Credential, i: Input, now: int, later: int)
    ensures var once := MergeInput(c, i, now);
            MergeInput(once, i, later) == once.(revision := once.revision + 1, updatedAt := later)
  {
  }

  /** A record just created takes the input that created it without another change. */
  lemma NewMergesQuietly(i: Input, id: string, now: int, later: int)
    requires Names(i) || HasToken(i)
    ensures var once := Normalize(NewCredential(i, id, now));
            MergeInput(once, i, later) == once.(revision := once.revision + 1, updatedAt := later)
  {
    hide Lower;
    TrimSlashTwice(i.issuer);
  }

  /** What one upsert and the save after it leave in the file. */
  lemma UpsertTouchesOne(doc: seq<Credential>, i: Input, id: string, now: int)
    requires Normal(doc) && (Names(i) || HasToken(i))
    ensures var once := NormalizeAll(Upsert(doc, i, id, now));
            var k := FirstMatch(doc, i);
            && |once| == (if k < |doc| then |doc| else |doc| + 1)
            && (forall j :: 0 <= j < |doc| && j != k ==> once[j] == doc[j])
            && once[k] == (if k < |doc| then MergeInput(doc[k], i, now) else Normalize(NewCredential(i, id, now)))
  {
  }

  /** A second upsert of the same named input finds the record the first one wrote:
      it creates nothing and changes only that record's revision and timestamp. */
  lemma UpsertIdempotent(doc: seq<Credential>, i: Input, id: string, id2: string, now: int, later: int)
    requires Normal(doc) && Names(i)
    ensures var once := NormalizeAll(Upsert(doc, i, id, now));
            var k := FirstMatch(doc, i);
            && k < |once|
            && !Creates(once, i)
            && FirstMatch(once, i) == k
            && Upsert(once, i, id2, later) == once[k := once[k].(revision := once[k].revision + 1, updatedAt := later)]
  {
    UpsertTouchesOne(doc, i, id, now);
    var k := FirstMatch(doc, i);
    var once := NormalizeAll(Upsert(doc, i, id, now));
    if k < |doc| {
      MergedMatchesAgain(doc[k], i, now);
      MergeTwice(doc[k], i, now, later);
    } else {
      NewMatchesAgain(i, id, now);
      NewMergesQuietly(i, id, now, later);
    }
    assert SameIdentity(once[k], i);
  }

  /** Exactly when a second upsert duplicates an account: the input brings nothing
      but an access token, the record it matched by key names an account of its own,
      so its key is recomputed away, and no other record carries that key. */
  lemma UpsertTwiceCreatesExactly(doc: seq<Credential>, i: Input, id: string, now: int)
    requires Normal(doc) && HasToken(i)
    ensures var once := NormalizeAll(Upsert(doc, i, id, now));
            var k := FirstMatch(doc, i);
            Creates(once, i) <==>
              && !Names(i)
              && k < |doc|
              && (doc[k].who.userId != "" || doc[k].who.email != "" || doc[k].tokens.refresh != "")
              && forall j :: k < j < |doc| ==> doc[j].who.key != "access:" + i.access
  {
    if Names(i) {
      UpsertIdempotent(doc, i, id, id, now, now);
      return;
    }
    var k := FirstMatch(doc, i);
    var once := NormalizeAll(Upsert(doc, i, id, now));
    var wanted := "access:" + i.access;
    assert InputIdentity(i) == wanted;
    forall j | 0 <= j < |doc| ensures SameIdentity(doc[j], i) <==> doc[j].who.key == wanted {
      assert NormalizeAll(doc)[j] == Normalize(doc[j]);
    }
    UpsertTouchesOne(doc, i, id, now);
    if k < |doc| {
      var m := MergeInput(doc[k], i, now);
      assert once[k] == m;
      assert wanted[0] == 'a';
      if m.who.userId != "" {
        assert m.who.key[0] == 'o';
      } else if m.who.email != "" {
        assert m.who.key[0] == 'e';
      } else if m.tokens.refresh != "" {
        assert m.who.key[0] == 'r';
      } else {
        assert m.who.key == wanted;
      }
      assert SameIdentity(once[k], i) <==> m.who.key == wanted;
    } else {
      NewMatchesAgain(i, id, now);
      assert SameIdentity(once[k], i);
    }
  }

  const KEY_ONLY := Input("", "", "", "", "", "", "", "", "t", "", None, None, None, "", "")
  const KEYED_USER := Input("", "", "u", "", "access:t", "", "", "", "s", "", None, None, None, "", "")

  /** Such a file: one record, keyed by an access token but naming a user. The first
      upsert of that token alone merges into it, the second creates a record. */
  lemma KeyOnlyUpsertDuplicates(id: string, now: int)
    ensures var doc := NormalizeAll([NewCredential(KEYED_USER, "c", now)]);
            && Normal(doc) && HasToken(KEY_ONLY) && !Creates(doc, KEY_ONLY)
            && Creates(NormalizeAll(Upsert(doc, KEY_ONLY, id, now)), KEY_ONLY)
  {
    var doc := NormalizeAll([NewCredential(KEYED_USER, "c", now)]);
    NormalizeTwice([NewCredential(KEYED_USER, "c", now)]);
    assert doc[0].who.key == "access:t" && doc[0].who.userId == "u";
    UpsertTwiceCreatesExactly(doc, KEY_ONLY, id, now);
  }

  // ---------------------------------------------------------------------------
  // Bulk upsert

  function UpsertAll(doc: seq<Credential>, inputs: seq<Input>, ids: seq<string>, now: int): seq<Credential>
    requires |ids| == |inputs|
    decreases |inputs|
  {
    if inputs == [] then doc else UpsertAll(Upsert(doc, inputs[0], ids[0], now), inputs[1..], ids[1..], now)
  }

  function CreatedCount(doc: seq<Credential>, inputs: seq<Input>, ids: seq<string>, now: int): nat
    requires |ids| == |inputs|
    decreases |inputs|
  {
    if inputs == [] then 0
    else (if Creates(doc, inputs[0]) then 1 else 0) +
         CreatedCount(Upsert(doc, inputs[0], ids[0], now), inputs[1..], ids[1..], now)
  }

  /** A bulk upsert grows the file by exactly its created count and never reorders
      or renames the records that were there. */
  lemma {:induction false} BulkGrowsByCreated(doc: seq<Credential>, inputs: seq<Input>, ids: seq<string>, now: int)
    requires |ids| == |inputs|
    ensures var next := UpsertAll(doc, inputs, ids, now);
            && |next| == |doc| + CreatedCount(doc, inputs, ids, now)
            && forall k :: 0 <= k < |doc| ==> next[k].id == doc[k].id && next[k].createdAt == doc[k].createdAt &&
                                              next[k].revision >= doc[k].revision
    decreases |inputs|
  {
    if inputs != [] {
      BulkGrowsByCreated(Upsert(doc, inputs[0], ids[0], now), inputs[1..], ids[1..], now);
    }
  }
}
