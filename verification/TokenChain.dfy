/** The rotating refresh-token chain of a Microsoft credential: Refresh, refreshSharedDualCredential
    and EnsureAccessToken of backend/internal/providers/microsoft.go against a token server that
    consumes the presented token and may return a replacement. Sealing is the identity where it
    succeeds. */
module TokenChain {
  import opened Wrappers
  import opened Text

  const GRAPH_SCOPE := "https://graph.microsoft.com/Mail.Read offline_access"
  const GRAPH_FALLBACK := "https://graph.microsoft.com/.default"

  datatype Method = MethodUnset | MethodGraph | MethodImap | MethodOther

  datatype Kind = GraphOAuth | ImapOAuth | DualToken | OtherKind

  /** The decrypted credential: one canonical refresh token, two legacy ones, access tokens. */
  datatype Secret = Secret(
    clientID: string, refresh: string, graphRefresh: string, imapRefresh: string,
    access: string, accessMethod: Method, accessExpiresAt: Option<int>,
    graphAccess: string, graphExpiresAt: Option<int>,
    imapAccess: string, imapExpiresAt: Option<int>,
    graphScope: string, imapScope: string)

  datatype Credential = Credential(kind: Kind, clientID: string, secret: Secret, expiresAt: Option<int>)

  datatype Token = Token(access: string, refresh: string, scope: string, expiresAt: Option<int>)

  datatype Failure = InvalidRequest | Unauthorized | Unavailable | SealFailed

  /** How the server answers a request that presents the live token; Lost is a grant whose response
      does not reach the client. */
  datatype Answer = Deny(unauthorized: bool) | Grant(token: Token) | Lost(refresh: string)

  /** The only refresh token the server still accepts, and its answers to come. */
  datatype Server = Server(live: string, answers: seq<Answer>)

  datatype Sealed = Sealed(secret: Secret, expiresAt: Option<int>)

  datatype Outcome = Refreshed(sealed: Sealed) | StillUsable | RefreshFailed(failure: Failure,
      checkpoint: Option<Sealed>)

  // ---------------------------------------------------------------- requests

  /** A grant consumes the presented token: its replacement, if it has one, is the live token. */
  function Request(server: Server, presented: string): (Server, Result<Token, Failure>) {
    if Blank(presented) then (server, Err(InvalidRequest))
    else if server.answers == [] then (server, Err(Unavailable))
    else
      var rest := server.(answers := server.answers[1..]);
      if presented != server.live then (rest, Err(Unauthorized))
      else match server.answers[0]
        case Deny(unauthorized) => (rest, Err(if unauthorized then Unauthorized else Unavailable))
        case Grant(token) => (rest.(live := FirstNonEmpty([token.refresh, presented])), Ok(token))
        case Lost(refresh) => (rest.(live := FirstNonEmpty([refresh, presented])), Err(Unavailable))
  }

  function GraphScope(scope: string): string {
    var normalized := ToLower(TrimSpace(scope));
    if normalized == "" || Contains(normalized, "outlook.office.com/") then GRAPH_SCOPE
    else if Contains(normalized, "graph.microsoft.com/.default") then GRAPH_FALLBACK
    else TrimSpace(scope)
  }

  /** A Graph request with the default scope is repeated once with the fallback scope. */
  function GraphRequest(server: Server, presented: string, scope: string): (Server, Result<Token, Failure>) {
    var (server1, first) := Request(server, presented);
    if first.Ok? || GraphScope(scope) != GRAPH_SCOPE || first.error != Unauthorized then (server1, first)
    else Request(server1, presented)
  }

  function ApplyGraphToken(secret: Secret, token: Token): Secret {
    secret.(graphAccess := token.access, graphExpiresAt := token.expiresAt,
            graphScope := if token.scope != "" then token.scope else secret.graphScope)
  }

  function ApplyImapToken(secret: Secret, token: Token): Secret {
    secret.(imapAccess := token.access, imapExpiresAt := token.expiresAt,
            imapScope := if token.scope != "" then token.scope else secret.imapScope)
  }

  function SetShared(secret: Secret, refresh: string): Secret {
    secret.(refresh := refresh, graphRefresh := "", imapRefresh := "")
  }

  function Earliest(a: Option<int>, b: Option<int>): Option<int> {
    if a.None? then b else if b.None? || a.value <= b.value then a else b
  }

  function Seal(secret: Secret, expiresAt: Option<int>, works: bool): Outcome {
    if works then Refreshed(Sealed(secret, expiresAt)) else RefreshFailed(SealFailed, None)
  }

  // ---------------------------------------------------------------- the three refreshes

  /** The token each kind of credential presents. */
  function Presented(kind: Kind, secret: Secret): string {
    match kind
    case GraphOAuth => FirstNonEmpty([secret.refresh, secret.graphRefresh])
    case ImapOAuth => FirstNonEmpty([secret.refresh, secret.imapRefresh])
    case _ => AnyPresented(secret)
  }

  function AnyPresented(secret: Secret): string {
    FirstNonEmpty([secret.refresh, secret.imapRefresh, secret.graphRefresh])
  }

  function RefreshOne(graph: bool, secret: Secret, source: string, server: Server, seals: bool): (Server, Outcome) {
    var (server1, reply) := if graph then GraphRequest(server, source, secret.graphScope) else Request(server, source);
    match reply
    case Err(e) => (server1, RefreshFailed(e, None))
    case Ok(token) =>
      var applied := if graph then ApplyGraphToken(secret, token) else ApplyImapToken(secret, token);
      (server1, Seal(SetShared(applied, FirstNonEmpty([token.refresh, source])), token.expiresAt, seals))
  }

  /** Graph first; its rotated token is sealed before the IMAP request, so that it can still be stored
      when that request fails. */
  function RefreshDual(credential: Credential, secret: Secret, server: Server, seals: (bool, bool)): (Server, Outcome) {
    var source := AnyPresented(secret);
    var (server1, first) := GraphRequest(server, source, secret.graphScope);
    if first.Err? then (server1, RefreshFailed(first.error, None))
    else
      var canonical := FirstNonEmpty([first.value.refresh, source]);
      var secret1 := SetShared(ApplyGraphToken(secret, first.value), canonical);
      var expiry := Earliest(first.value.expiresAt, if secret.imapExpiresAt.None? then credential.expiresAt
        else secret.imapExpiresAt);
      if !seals.0 then (server1, RefreshFailed(SealFailed, None))
      else
        var checkpoint := Some(Sealed(secret1, expiry));
        var (server2, second) := Request(server1, canonical);
        if second.Err? then (server2, RefreshFailed(second.error, checkpoint))
        else
          var secret2 := SetShared(ApplyImapToken(secret1, second.value),
            FirstNonEmpty([second.value.refresh, canonical]));
          if !seals.1 then (server2, RefreshFailed(SealFailed, checkpoint))
          else (server2, Refreshed(Sealed(secret2, Earliest(first.value.expiresAt, second.value.expiresAt))))
  }

  function Refresh(credential: Credential, server: Server, seals: (bool, bool)): (Server, Outcome) {
    var clientID := if TrimSpace(credential.secret.clientID) != "" then TrimSpace(credential.secret.clientID)
      else TrimSpace(credential.clientID);
    var secret := credential.secret.(clientID := clientID);
    if clientID == "" then (server, RefreshFailed(InvalidRequest, None))
    else match credential.kind
      case GraphOAuth => RefreshOne(true, secret, Presented(GraphOAuth, secret), server, seals.0)
      case ImapOAuth => RefreshOne(false, secret, Presented(ImapOAuth, secret), server, seals.0)
      case DualToken => RefreshDual(credential, secret, server, seals)
      case OtherKind => (server, RefreshFailed(InvalidRequest, None))
  }

  predicate Compatible(kind: Kind, requested: Method) {
    match kind
    case GraphOAuth => requested in {MethodUnset, MethodGraph}
    case ImapOAuth => requested in {MethodUnset, MethodImap}
    case DualToken => requested in {MethodUnset, MethodGraph, MethodImap}
    case OtherKind => false
  }

  function AccessToken(secret: Secret, requested: Method): (string, Option<int>)
    requires requested in {MethodGraph, MethodImap}
  {
    if requested == MethodGraph && !Blank(secret.graphAccess) then (secret.graphAccess, secret.graphExpiresAt)
    else if requested == MethodImap && !Blank(secret.imapAccess) then (secret.imapAccess, secret.imapExpiresAt)
    else if secret.accessMethod == requested && !Blank(secret.access) then (secret.access, secret.accessExpiresAt)
    else ("", None)
  }

  /** `horizon` is the current time plus the refresh lead. */
  function EnsureAccessToken(credential: Credential, requested: Method, force: bool, horizon: int, server: Server,
      seals: bool): (Server, Outcome) {
    var secret := credential.secret;
    if !Compatible(credential.kind, requested)
      || requested == MethodUnset then (server, RefreshFailed(InvalidRequest, None))
    else
      var (token, expiresAt) := AccessToken(secret, requested);
      if !force && !Blank(token) && (expiresAt.None? || expiresAt.value > horizon) then (server, StillUsable)
      else
        var clientID := FirstNonEmpty([secret.clientID, credential.clientID]);
        if Blank(clientID) then (server, RefreshFailed(InvalidRequest, None))
        else RefreshOne(requested == MethodGraph, secret.(clientID := clientID), AnyPresented(secret), server, seals)
  }

  // ---------------------------------------------------------------- the adapter in place

  class TokenServer {
    var live: string
    var answers: seq<Answer>

    ghost function View(): Server
      reads this
    {
      Server(live, answers)
    }

    constructor (live: string, answers: seq<Answer>)
      ensures View() == Server(live, answers)
    {
      this.live, this.answers := live, answers;
    }

    method RefreshAccessToken(refreshToken: string) returns (r: Result<Token, Failure>)
      modifies this
      ensures (View(), r) == Request(old(View()), refreshToken)
    {
      if Blank(refreshToken) {
        return Err(InvalidRequest);
      }
      if answers == [] {
        return Err(Unavailable);
      }
      var answer := answers[0];
      answers := answers[1..];
      if refreshToken != live {
        return Err(Unauthorized);
      }
      match answer {
        case Deny(unauthorized) =>
          return Err(if unauthorized then Unauthorized else Unavailable);
        case Grant(token) =>
          live := FirstNonEmpty([token.refresh, refreshToken]);
          return Ok(token);
        case Lost(refresh) =>
          live := FirstNonEmpty([refresh, refreshToken]);
          return Err(Unavailable);
      }
    }

    method RefreshGraphAccessToken(refreshToken: string, scope: string) returns (r: Result<Token, Failure>)
      modifies this
      ensures (View(), r) == GraphRequest(old(View()), refreshToken, scope)
    {
      var requestedScope := GraphScope(scope);
      r := RefreshAccessToken(refreshToken);
      if r.Ok? || requestedScope != GRAPH_SCOPE || r.error != Unauthorized {
        return;
      }
      r := RefreshAccessToken(refreshToken);
    }
  }

  method RefreshSharedDualCredential(server: TokenServer, credential: Credential, original: Secret,
      seals: (bool, bool)) returns (outcome: Outcome)
    modifies server
    ensures (server.View(), outcome) == RefreshDual(credential, original, old(server.View()), seals)
  {
    var secret := original;
    var canonical := AnyPresented(secret);
    var graphResult := server.RefreshGraphAccessToken(canonical, secret.graphScope);
    if graphResult.Err? {
      return RefreshFailed(graphResult.error, None);
    }
    secret := ApplyGraphToken(secret, graphResult.value);
    canonical := FirstNonEmpty([graphResult.value.refresh, canonical]);
    secret := SetShared(secret, canonical);
    var checkpointExpiry := Earliest(graphResult.value.expiresAt, secret.imapExpiresAt);
    if secret.imapExpiresAt.None? {
      checkpointExpiry := Earliest(graphResult.value.expiresAt, credential.expiresAt);
    }
    if !seals.0 {
      return RefreshFailed(SealFailed, None);
    }
    var checkpoint := Sealed(secret, checkpointExpiry);
    var imapResult := server.RefreshAccessToken(canonical);
    if imapResult.Err? {
      return RefreshFailed(imapResult.error, Some(checkpoint));
    }
    secret := ApplyImapToken(secret, imapResult.value);
    canonical := FirstNonEmpty([imapResult.value.refresh, canonical]);
    secret := SetShared(secret, canonical);
    if !seals.1 {
      return RefreshFailed(SealFailed, Some(checkpoint));
    }
    outcome := Refreshed(Sealed(secret, Earliest(graphResult.value.expiresAt, imapResult.value.expiresAt)));
  }

  method RefreshCredential(server: TokenServer, credential: Credential, seals: (bool, bool)) returns (outcome: Outcome)
    modifies server
    ensures (server.View(), outcome) == Refresh(credential, old(server.View()), seals)
  {
    var secret := credential.secret;
    var clientID := TrimSpace(secret.clientID);
    if clientID == "" {
      clientID := TrimSpace(credential.clientID);
    }
    if clientID == "" {
      return RefreshFailed(InvalidRequest, None);
    }
    secret := secret.(clientID := clientID);
    match credential.kind {
      case GraphOAuth =>
        var source := FirstNonEmpty([secret.refresh, secret.graphRefresh]);
        var result := server.RefreshGraphAccessToken(source, secret.graphScope);
        if result.Err? {
          return RefreshFailed(result.error, None);
        }
        secret := ApplyGraphToken(secret, result.value);
        secret := SetShared(secret, FirstNonEmpty([result.value.refresh, source]));
        outcome := Seal(secret, result.value.expiresAt, seals.0);
      case ImapOAuth =>
        var source := FirstNonEmpty([secret.refresh, secret.imapRefresh]);
        var result := server.RefreshAccessToken(source);
        if result.Err? {
          return RefreshFailed(result.error, None);
        }
        secret := ApplyImapToken(secret, result.value);
        secret := SetShared(secret, FirstNonEmpty([result.value.refresh, source]));
        outcome := Seal(secret, result.value.expiresAt, seals.0);
      case DualToken =>
        outcome := RefreshSharedDualCredential(server, credential, secret, seals);
      case OtherKind =>
        outcome := RefreshFailed(InvalidRequest, None);
    }
  }

  method EnsureMethodToken(server: TokenServer, credential: Credential, requested: Method, force: bool, horizon: int,
      seals: bool) returns (outcome: Outcome)
    modifies server
    ensures (server.View(), outcome)
            == EnsureAccessToken(credential, requested, force, horizon, old(server.View()), seals)
  {
    if !Compatible(credential.kind, requested) || requested == MethodUnset {
      return RefreshFailed(InvalidRequest, None);
    }
    var secret := credential.secret;
    var (token, expiresAt) := AccessToken(secret, requested);
    if !force && !Blank(token) && (expiresAt.None? || expiresAt.value > horizon) {
      return StillUsable;
    }
    var clientID := FirstNonEmpty([secret.clientID, credential.clientID]);
    var refreshToken := AnyPresented(secret);
    if Blank(clientID) {
      return RefreshFailed(InvalidRequest, None);
    }
    var result: Result<Token, Failure>;
    if requested == MethodGraph {
      result := server.RefreshGraphAccessToken(refreshToken, secret.graphScope);
    } else {
      result := server.RefreshAccessToken(refreshToken);
    }
    if result.Err? {
      return RefreshFailed(result.error, None);
    }
    secret := if requested == MethodGraph then ApplyGraphToken(secret, result.value)
      else ApplyImapToken(secret, result.value);
    secret := SetShared(secret.(clientID := clientID), FirstNonEmpty([result.value.refresh, refreshToken]));
    outcome := Seal(secret, result.value.expiresAt, seals);
  }

  // ---------------------------------------------------------------- conservation

  /** One of the two ways to refresh a stored credential. */
  datatype Op = RefreshOp(seals: (bool, bool)) | EnsureOp(requested: Method, force: bool, horizon: int, seal: bool)

  function Perform(op: Op, credential: Credential, server: Server): (Server, Outcome) {
    match op
    case RefreshOp(seals) => Refresh(credential, server, seals)
    case EnsureOp(requested, force, horizon, seal) => EnsureAccessToken(credential, requested, force, horizon, server,
      seal)
  }

  /** What is stored afterwards: the refreshed secret, or the checkpoint of a refresh that failed. */
  function Stored(credential: Credential, outcome: Outcome): Credential {
    match outcome
    case Refreshed(sealed) => credential.(secret := sealed.secret, expiresAt := sealed.expiresAt)
    case RefreshFailed(_, Some(sealed)) => credential.(secret := sealed.secret, expiresAt := sealed.expiresAt)
    case _ => credential
  }

  /** Whatever the next operation is, it presents the server's live token. */
  predicate HoldsLive(credential: Credential, server: Server) {
    && !Blank(server.live)
    && Presented(credential.kind, credential.secret) == server.live
    && AnyPresented(credential.secret) == server.live
  }

  /** The live token is in the canonical field, and the legacy fields are empty. */
  predicate HoldsCanonically(credential: Credential, server: Server) {
    && !Blank(server.live) && credential.secret.refresh == server.live
    && credential.secret.graphRefresh == "" && credential.secret.imapRefresh == ""
  }

  /** The server's live token after an answer. */
  function LiveAfter(answer: Answer, live: string): string {
    match answer
    case Deny(_) => live
    case Grant(token) => FirstNonEmpty([token.refresh, live])
    case Lost(refresh) => FirstNonEmpty([refresh, live])
  }

  /** The answer replaces the live token by one that does not get sealed. */
  predicate Forgotten(answer: Answer, live: string, sealed: bool) {
    LiveAfter(answer, live) != live && !(answer.Grant? && sealed)
  }

  /** The answers that a Graph request uses up. */
  function GraphAnswers(server: Server, scope: string): nat {
    if server.answers != [] && server.answers[0] == Deny(true) && GraphScope(scope) == GRAPH_SCOPE
      && |server.answers| > 1 then 2
    else if server.answers != [] then 1
    else 0
  }

  lemma SharedIsPresented(secret: Secret, token: string, kind: Kind)
    requires !Blank(token)
    ensures Presented(kind, SetShared(secret, token)) == token && AnyPresented(SetShared(secret, token)) == token
  {
  }

  lemma NeverBlank(refresh: string, live: string)
    requires !Blank(live)
    ensures !Blank(FirstNonEmpty([refresh, live]))
  {
    assert [refresh, live][1..] == [live];
  }

  /** A request that presents the live token. */
  lemma RequestMeans(server: Server)
    requires !Blank(server.live)
    ensures var (after, r) := Request(server, server.live);
            && !Blank(after.live)
            && (if server.answers == [] then after == server && r.Err?
                else
                  && after == Server(LiveAfter(server.answers[0], server.live), server.answers[1..])
                  && (r.Ok? <==> server.answers[0].Grant?) && (r.Ok? ==> r.value == server.answers[0].token))
  {
    if server.answers != [] && server.answers[0].Grant? { NeverBlank(server.answers[0].token.refresh, server.live); }
    if server.answers != [] && server.answers[0].Lost? { NeverBlank(server.answers[0].refresh, server.live); }
    hide Blank, FirstNonEmpty;
  }

  lemma GraphRequestMeans(server: Server, scope: string)
    requires !Blank(server.live)
    ensures var (after, r) := GraphRequest(server, server.live, scope);
            var n := GraphAnswers(server, scope);
            && !Blank(after.live)
            && (if n == 0 then after == server && r.Err?
                else
                  && after == Server(LiveAfter(server.answers[n - 1], server.live), server.answers[n..])
                  && (r.Ok? <==> server.answers[n - 1].Grant?) && (r.Ok? ==> r.value == server.answers[n - 1].token))
  {
    RequestMeans(server);
    if server.answers != [] {
      var rest := Server(server.live, server.answers[1..]);
      RequestMeans(rest);
      assert |server.answers| > 1 ==> server.answers[1..][1..] == server.answers[2..];
    }
    hide Blank, FirstNonEmpty, GraphScope;
  }

  predicate ForgottenByOne(graph: bool, secret: Secret, server: Server, seal: bool) {
    var n := if graph then GraphAnswers(server, secret.graphScope) else if server.answers != [] then 1 else 0;
    n > 0 && Forgotten(server.answers[n - 1], server.live, seal)
  }

  predicate ForgottenByDual(secret: Secret, server: Server, seals: (bool, bool)) {
    var n := GraphAnswers(server, secret.graphScope);
    && n > 0
    && (|| Forgotten(server.answers[n - 1], server.live, seals.0)
        || (&& server.answers[n - 1].Grant? && seals.0 && n < |server.answers|
            && Forgotten(server.answers[n], LiveAfter(server.answers[n - 1], server.live), seals.1)))
  }

  /** Whether the operation gets to present its token. */
  predicate Requests(op: Op, credential: Credential) {
    match op
    case RefreshOp(_) =>
      credential.kind != OtherKind
        && (TrimSpace(credential.secret.clientID) != "" || TrimSpace(credential.clientID) != "")
    case EnsureOp(requested, force, horizon, _) =>
      && requested != MethodUnset && Compatible(credential.kind, requested)
      && (force || Blank(AccessToken(credential.secret, requested).0)
          || (var expiresAt := AccessToken(credential.secret, requested).1;
              expiresAt.Some? && expiresAt.value <= horizon))
      && !Blank(FirstNonEmpty([credential.secret.clientID, credential.clientID]))
  }

  /** The operation loses a token: an answer that reaches the server's side only, or that is not
      sealed, replaces the live token. */
  predicate Forgets(op: Op, credential: Credential, server: Server) {
    Requests(op, credential) &&
    match op
    case RefreshOp(seals) =>
      if credential.kind == DualToken then ForgottenByDual(credential.secret, server, seals)
      else ForgottenByOne(credential.kind == GraphOAuth, credential.secret, server, seals.0)
    case EnsureOp(requested, _, _, seal) => ForgottenByOne(requested == MethodGraph, credential.secret, server, seal)
  }

  /** A secret was sealed. */
  predicate Seals(outcome: Outcome) {
    outcome.Refreshed? || (outcome.RefreshFailed? && outcome.checkpoint.Some?)
  }

  lemma OneConserves(graph: bool, credential: Credential, secret: Secret, server: Server, seal: bool)
    requires HoldsLive(credential, server)
    ensures var (after, outcome) := RefreshOne(graph, secret, server.live, server, seal);
            && (HoldsLive(Stored(credential, outcome), after) <==> !ForgottenByOne(graph, secret, server, seal))
            && (Seals(outcome) ==> HoldsCanonically(Stored(credential, outcome), after))
            && (!Seals(outcome) ==> Stored(credential, outcome) == credential)
            && !Blank(after.live)
  {
    var (after, outcome) := RefreshOne(graph, secret, server.live, server, seal);
    RequestMeans(server);
    GraphRequestMeans(server, secret.graphScope);
    hide Blank, GraphScope, Request, GraphRequest;
    if outcome.Refreshed? {
      SharedIsPresented(secret, after.live, credential.kind);
      CanonicalHolds(Stored(credential, outcome), after);
    }
    hide FirstNonEmpty;
  }

  lemma CanonicalHolds(credential: Credential, server: Server)
    requires HoldsCanonically(credential, server)
    ensures HoldsLive(credential, server)
  {
  }

  lemma DualConserves(credential: Credential, secret: Secret, server: Server, seals: (bool, bool))
    requires HoldsLive(credential, server) && AnyPresented(secret) == server.live
    ensures var (after, outcome) := RefreshDual(credential, secret, server, seals);
            && (HoldsLive(Stored(credential, outcome), after) <==> !ForgottenByDual(secret, server, seals))
            && (Seals(outcome) && !ForgottenByDual(secret, server, seals) ==>
              HoldsCanonically(Stored(credential, outcome), after))
            && (!Seals(outcome) ==> Stored(credential, outcome) == credential)
            && !Blank(after.live)
  {
    var (after, outcome) := RefreshDual(credential, secret, server, seals);
    var (server1, first) := GraphRequest(server, server.live, secret.graphScope);
    GraphRequestMeans(server, secret.graphScope);
    hide Blank, GraphScope, Request, GraphRequest, AnyPresented, Presented, FirstNonEmpty;
    if first.Ok? && seals.0 {
      RequestMeans(server1);
      var stored := Stored(credential, outcome);
      SharedHolds(stored, after);
      assert stored.secret.graphRefresh == "" && stored.secret.imapRefresh == "";
    }
  }

  /** A secret whose legacy fields are empty holds the live token exactly in the canonical field. */
  lemma SharedHolds(credential: Credential, server: Server)
    requires credential.secret.graphRefresh == "" && credential.secret.imapRefresh == "" && !Blank(server.live)
    ensures HoldsLive(credential, server) <==> credential.secret.refresh == server.live
  {
    var refresh := credential.secret.refresh;
    assert [refresh, "", ""][1..] == ["", ""] && ["", ""][1..] == [""] && [refresh, ""][1..] == [""] && [""][1..] == [];
    assert FirstNonEmpty([""]) == "" && FirstNonEmpty(["", ""]) == "";
  }

  predicate Conserves(op: Op, credential: Credential, server: Server) {
    var (after, outcome) := Perform(op, credential, server);
    && (HoldsLive(Stored(credential, outcome), after) <==> !Forgets(op, credential, server))
    && (Seals(outcome) && !Forgets(op, credential, server) ==> HoldsCanonically(Stored(credential, outcome), after))
    && (!Seals(outcome) ==> Stored(credential, outcome) == credential)
  }

  lemma RefreshConserves(credential: Credential, server: Server, seals: (bool, bool))
    requires HoldsLive(credential, server)
    ensures Conserves(RefreshOp(seals), credential, server)
  {
    hide RefreshOne, RefreshDual, TrimSpace, Blank, GraphAnswers, Forgotten;
    var clientID := if TrimSpace(credential.secret.clientID) != "" then TrimSpace(credential.secret.clientID)
      else TrimSpace(credential.clientID);
    var secret := credential.secret.(clientID := clientID);
    assert Presented(credential.kind, secret) == server.live && AnyPresented(secret) == server.live;
    hide Presented, AnyPresented;
    if clientID != "" {
      if credential.kind == DualToken {
        DualConserves(credential, secret, server, seals);
      } else if credential.kind != OtherKind {
        OneConserves(credential.kind == GraphOAuth, credential, secret, server, seals.0);
      }
    }
  }

  lemma EnsureConserves(credential: Credential, server: Server, requested: Method, force: bool, horizon: int,
      seal: bool)
    requires HoldsLive(credential, server)
    ensures Conserves(EnsureOp(requested, force, horizon, seal), credential, server)
  {
    hide RefreshOne, Blank, GraphAnswers, Forgotten, FirstNonEmpty, Presented, Compatible;
    var secret := credential.secret.(clientID := FirstNonEmpty([credential.secret.clientID, credential.clientID]));
    OneConserves(requested == MethodGraph, credential, secret, server, seal);
  }

  /** Refresh-token conservation, exactly: the stored credential still presents the live token if and
      only if no replacement was lost on its way or left unsealed; and whenever something was sealed,
      the live token is in the canonical field alone. */
  lemma ConservesIff(op: Op, credential: Credential, server: Server)
    requires HoldsLive(credential, server)
    ensures Conserves(op, credential, server)
  {
    match op
    case RefreshOp(seals) => RefreshConserves(credential, server, seals);
    case EnsureOp(requested, force, horizon, seal) => EnsureConserves(credential, server, requested, force, horizon,
      seal);
  }

  predicate SealsAlways(op: Op) {
    match op
    case RefreshOp(seals) => seals.0 && seals.1
    case EnsureOp(_, _, _, seal) => seal
  }

  predicate NoneLost(answers: seq<Answer>) {
    forall i :: 0 <= i < |answers| ==> !answers[i].Lost?
  }

  function Run(ops: seq<Op>, credential: Credential, server: Server): (Server, Credential)
    decreases |ops|
  {
    if ops == [] then (server, credential)
    else
      var (before, stored) := Run(ops[..|ops| - 1], credential, server);
      var (after, outcome) := Perform(ops[|ops| - 1], stored, before);
      (after, Stored(stored, outcome))
  }

  /** Some operation of the run sealed a secret. */
  predicate RunSeals(ops: seq<Op>, credential: Credential, server: Server)
    decreases |ops|
  {
    ops != [] &&
    (|| RunSeals(ops[..|ops| - 1], credential, server)
     || (var (before, stored) := Run(ops[..|ops| - 1], credential, server);
         Seals(Perform(ops[|ops| - 1], stored, before).1)))
  }

  lemma NoneForgotten(op: Op, credential: Credential, server: Server)
    requires SealsAlways(op) && NoneLost(server.answers)
    ensures !Forgets(op, credential, server)
  {
    hide GraphScope, Blank, FirstNonEmpty, TrimSpace;
  }

  predicate Uses(answers: seq<Answer>, left: seq<Answer>) {
    exists n: nat :: n <= |answers| && left == answers[n..]
  }

  lemma UsesMore(a: seq<Answer>, b: seq<Answer>, c: seq<Answer>)
    requires Uses(a, b) && Uses(b, c)
    ensures Uses(a, c)
  {
    var n: nat :| n <= |a| && b == a[n..];
    var m: nat :| m <= |b| && c == b[m..];
    assert c == a[n + m..];
  }

  lemma RequestUses(server: Server, presented: string)
    ensures Uses(server.answers, Request(server, presented).0.answers)
  {
    assert server.answers == server.answers[0..];
    hide Blank, FirstNonEmpty;
  }

  lemma GraphRequestUses(server: Server, presented: string, scope: string)
    ensures Uses(server.answers, GraphRequest(server, presented, scope).0.answers)
  {
    hide Request, GraphScope, Uses;
    var server1 := Request(server, presented).0;
    RequestUses(server, presented);
    RequestUses(server1, presented);
    UsesMore(server.answers, server1.answers, Request(server1, presented).0.answers);
  }

  lemma RefreshOneUses(graph: bool, secret: Secret, source: string, server: Server, seals: bool)
    ensures Uses(server.answers, RefreshOne(graph, secret, source, server, seals).0.answers)
  {
    hide Request, GraphRequest, Uses, Seal, FirstNonEmpty;
    GraphRequestUses(server, source, secret.graphScope);
    RequestUses(server, source);
  }

  lemma RefreshDualUses(credential: Credential, secret: Secret, server: Server, seals: (bool, bool))
    ensures Uses(server.answers, RefreshDual(credential, secret, server, seals).0.answers)
  {
    hide Request, GraphRequest, Uses, FirstNonEmpty, SetShared, ApplyGraphToken, ApplyImapToken, Earliest;
    var (server1, first) := GraphRequest(server, AnyPresented(secret), secret.graphScope);
    GraphRequestUses(server, AnyPresented(secret), secret.graphScope);
    if first.Ok? {
      var canonical := FirstNonEmpty([first.value.refresh, AnyPresented(secret)]);
      RequestUses(server1, canonical);
      UsesMore(server.answers, server1.answers, Request(server1, canonical).0.answers);
    }
    hide AnyPresented;
  }

  /** A refresh uses up answers from the front. */
  lemma AnswersUsed(op: Op, credential: Credential, server: Server)
    ensures Uses(server.answers, Perform(op, credential, server).0.answers)
  {
    hide RefreshOne, RefreshDual, Uses, Blank, FirstNonEmpty, TrimSpace, Presented, AnyPresented;
    match op
    case RefreshOp(seals) =>
      var clientID := if TrimSpace(credential.secret.clientID) != "" then TrimSpace(credential.secret.clientID)
        else TrimSpace(credential.clientID);
      var secret := credential.secret.(clientID := clientID);
      RefreshOneUses(true, secret, Presented(GraphOAuth, secret), server, seals.0);
      RefreshOneUses(false, secret, Presented(ImapOAuth, secret), server, seals.0);
      RefreshDualUses(credential, secret, server, seals);
      assert Uses(server.answers, server.answers) by { UsesNone(server.answers); }
    case EnsureOp(requested, _, _, seal) =>
      var secret := credential.secret.(clientID := FirstNonEmpty([credential.secret.clientID, credential.clientID]));
      RefreshOneUses(requested == MethodGraph, secret, AnyPresented(secret), server, seal);
      RefreshOneUses(requested == MethodGraph, secret, AnyPresented(credential.secret), server, seal);
      assert Uses(server.answers, server.answers) by { UsesNone(server.answers); }
  }

  lemma UsesNone(answers: seq<Answer>)
    ensures Uses(answers, answers)
  {
    assert answers == answers[0..];
  }

  /** Over whole runs of refreshes of any kind, with sealing that works and no response lost: the
      stored credential always presents the live token, and once a refresh has sealed anything the
      live token is in the canonical field and the legacy fields are empty. */
  lemma {:induction false} RunConserves(ops: seq<Op>, credential: Credential, server: Server)
    requires HoldsLive(credential, server) && NoneLost(server.answers)
    requires forall i :: 0 <= i < |ops| ==> SealsAlways(ops[i])
    ensures var (after, stored) := Run(ops, credential, server);
            && NoneLost(after.answers) && HoldsLive(stored, after)
            && (RunSeals(ops, credential, server) ==> HoldsCanonically(stored, after))
    decreases |ops|
  {
    if ops != [] {
      var op := ops[|ops| - 1];
      var (before, stored) := Run(ops[..|ops| - 1], credential, server);
      RunConserves(ops[..|ops| - 1], credential, server);
      NoneForgotten(op, stored, before);
      ConservesIff(op, stored, before);
      AnswersUsed(op, stored, before);
      hide Perform, Forgets, SealsAlways, Presented, AnyPresented, Blank;
    }
  }

  // ---------------------------------------------------------------- what a refresh is for

  predicate Usable(secret: Secret, requested: Method, horizon: int)
    requires requested in {MethodGraph, MethodImap}
  {
    var (token, expiresAt) := AccessToken(secret, requested);
    !Blank(token) && (expiresAt.None? || expiresAt.value > horizon)
  }

  /** The access tokens that the server grants are not blank and outlive the horizon. */
  predicate GrantsLast(answers: seq<Answer>, horizon: int) {
    forall i :: 0 <= i < |answers| && answers[i].Grant? ==>
      !Blank(answers[i].token.access)
        && (answers[i].token.expiresAt.None? || answers[i].token.expiresAt.value > horizon)
  }

  lemma GrantedLasts(server: Server, presented: string, horizon: int)
    requires GrantsLast(server.answers, horizon)
    ensures var (after, r) := Request(server, presented);
            && GrantsLast(after.answers, horizon)
            && (r.Ok? ==> !Blank(r.value.access) && (r.value.expiresAt.None? || r.value.expiresAt.value > horizon))
  {
    hide Blank, FirstNonEmpty;
  }

  lemma GraphGrantedLasts(server: Server, presented: string, scope: string, horizon: int)
    requires GrantsLast(server.answers, horizon)
    ensures var (after, r) := GraphRequest(server, presented, scope);
            && GrantsLast(after.answers, horizon)
            && (r.Ok? ==> !Blank(r.value.access) && (r.value.expiresAt.None? || r.value.expiresAt.value > horizon))
  {
    GrantedLasts(server, presented, horizon);
    GrantedLasts(Request(server, presented).0, presented, horizon);
    hide Blank, GraphScope, GrantsLast, Request;
  }

  /** After ensuring a token the method has a usable one, the other method keeps what it had, and
      ensuring it again asks the server nothing. */
  lemma EnsuredIsUsable(credential: Credential, requested: Method, force: bool, horizon: int, server: Server,
      seal: bool)
    requires GrantsLast(server.answers, horizon)
    ensures var (after, outcome) := EnsureAccessToken(credential, requested, force, horizon, server, seal);
            var stored := Stored(credential, outcome);
            outcome.Refreshed? || outcome.StillUsable? ==>
              && requested in {MethodGraph, MethodImap} && Usable(stored.secret, requested, horizon)
              && (requested == MethodGraph ==>
                AccessToken(stored.secret, MethodImap) == AccessToken(credential.secret, MethodImap))
              && (requested == MethodImap ==>
                AccessToken(stored.secret, MethodGraph) == AccessToken(credential.secret, MethodGraph))
              && EnsureAccessToken(stored, requested, false, horizon, after, seal) == (after, StillUsable)
  {
    GrantedLasts(server, AnyPresented(credential.secret), horizon);
    GraphGrantedLasts(server, AnyPresented(credential.secret), credential.secret.graphScope, horizon);
    hide Blank, GraphScope, GrantsLast, Request, GraphRequest, FirstNonEmpty, AnyPresented;
  }

  /** A dual refresh leaves both methods a usable token, and expires no later than either. */
  lemma DualMakesBothUsable(credential: Credential, secret: Secret, server: Server, seals: (bool, bool), horizon: int)
    requires GrantsLast(server.answers, horizon)
    ensures var (after, outcome) := RefreshDual(credential, secret, server, seals);
            outcome.Refreshed? ==>
              var stored := outcome.sealed;
              && Usable(stored.secret, MethodGraph, horizon) && Usable(stored.secret, MethodImap, horizon)
              && (stored.secret.graphExpiresAt.Some? ==>
                stored.expiresAt.Some? && stored.expiresAt.value <= stored.secret.graphExpiresAt.value)
              && (stored.secret.imapExpiresAt.Some? ==>
                stored.expiresAt.Some? && stored.expiresAt.value <= stored.secret.imapExpiresAt.value)
  {
    var source := AnyPresented(secret);
    var (server1, first) := GraphRequest(server, source, secret.graphScope);
    GraphGrantedLasts(server, source, secret.graphScope, horizon);
    if first.Ok? {
      GrantedLasts(server1, FirstNonEmpty([first.value.refresh, source]), horizon);
    }
    hide Blank, GraphScope, GrantsLast, Request, GraphRequest, FirstNonEmpty, AnyPresented;
  }
}
