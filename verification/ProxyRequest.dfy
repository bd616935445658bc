/**
 The proxy hot path on the registrations table: from an admitted row and its explicit
 account binding to the upstream request (src/proxy.rs, src/proxy/admission.rs,
 src/proxy/selection.rs).
 */
module ProxyRequest {
  import opened Wrappers
  import opened Primitives
  import opened AuthSpecs
  import opened Registrations
  import A = Admission

  // ---- text ----

  predicate Contains(s: string, part: string) { part <= s || (s != [] && Contains(s[1..], part)) }

  predicate EndsWith(s: string, part: string) { |part| <= |s| && s[|s| - |part|..] == part }

  predicate CodexUpstream(upstream: string) { Contains(Lower(upstream), "/backend-api/codex") }

  function TrimSlashes(s: string): string
  {
    if s != [] && s[|s| - 1] == '/' then TrimSlashes(s[..|s| - 1]) else s
  }

  // ---- targets ----

  datatype OauthToken = OauthToken(accessToken: Option<string>, accountId: Option<string>)

  datatype ProxyAuth =
    | NoInjection
    | HeaderAuth(header: string, override: Option<string>)
    | BearerAuth(override: Option<string>)
    | StoredAuth(storedHeader: Option<string>, secretRef: string, resolved: Option<string>)
    | OpAuth(opHeader: Option<string>, reference: string, resolved: Option<string>)
    | OauthAuth(token: OauthToken)

  /** `oauth` is the session label and the selection itself. */
  datatype Target = Target(
    name: string, upstream: string, bodyLimit: nat, timeouts: Timeouts, egress: Egress, auth: ProxyAuth,
    oauth: Option<(string, AuthSpec)>)

  /** The target a registration's own template gives. */
  function FromRegistration(name: string, r: Registration): Target
  {
    var auth :=
      match r.auth
      case NoAuth => NoInjection
      case Header(h, _) => HeaderAuth(h, None)
      case Bearer(_) => BearerAuth(None)
      case StoredHeader(h, secretRef) => StoredAuth(Some(h), secretRef, None)
      case StoredBearer(secretRef) => StoredAuth(None, secretRef, None)
      case OpHeader(h, reference) => OpAuth(Some(h), reference, None)
      case OpBearer(reference) => OpAuth(None, reference, None)
      case OauthPkce(_, _, _, _, _, _) => OauthAuth(OauthToken(None, None))
      case OauthDeviceCode(_, _, _, _, _) => OauthAuth(OauthToken(None, None));
    Target(name, r.upstream, r.bodyLimit, r.timeouts, r.egress, auth, None)
  }

  /** What lies outside the tables: the environment, the sealed store, the `op` cache, the
      OAuth sessions of a selection, the URL parser and the codex body rewriter. */
  datatype World = World(
    env: map<string, string>,
    stored: string -> Result<string, string>,
    op: map<string, string>,
    sessions: (string, string, AuthSpec) -> Result<OauthToken, string>,
    urlOk: string -> bool,
    fixup: string -> Option<string>)

  datatype Failure = CredentialUnavailable

  function SelectedEnv(w: World, name: string): Result<string, Failure>
  {
    if name in w.env && w.env[name] != "" then Ok(w.env[name]) else Err(CredentialUnavailable)
  }

  /** `apply_spec`: the selected account replaces whatever the template said. */
  function ApplySpec(t: Target, spec: AuthSpec, w: World): Result<Target, Failure>
  {
    match spec
    case NoAuth => Ok(t.(auth := NoInjection))
    case Header(h, env) =>
      var v := SelectedEnv(w, env);
      if v.Ok? then Ok(t.(auth := HeaderAuth(h, Some(v.value)))) else Err(v.error)
    case Bearer(env) =>
      var v := SelectedEnv(w, env);
      if v.Ok? then Ok(t.(auth := BearerAuth(Some(v.value)))) else Err(v.error)
    case StoredHeader(h, secretRef) => Ok(t.(auth := StoredAuth(Some(h), secretRef, None)))
    case StoredBearer(secretRef) => Ok(t.(auth := StoredAuth(None, secretRef, None)))
    case OpHeader(h, reference) => Ok(t.(auth := OpAuth(Some(h), reference, None)))
    case OpBearer(reference) => Ok(t.(auth := OpAuth(None, reference, None)))
    case _ =>
      var sessionLabel := spec.OauthSessionLabel();
      if SelectedParameters(spec, w.urlOk).None? || sessionLabel.None? || Blank(sessionLabel.value) then
        Err(CredentialUnavailable)
      else Ok(t.(auth := OauthAuth(OauthToken(None, None)), oauth := Some((sessionLabel.value, spec))))
  }

  // ---- the handler ----

  type Headers = seq<(string, string)>

  datatype Request = Request(
    tool: string, path: string, requestPath: string, query: Option<string>, verb: string, headers: Headers,
    body: string, identity: Option<A.Identity>, agentName: Option<string>)

  datatype Upstream = Upstream(
    name: string, timeouts: Timeouts, egress: Egress, verb: string, url: string, headers: Headers, body: string)

  datatype Outcome =
    | Denied(denial: A.Denial)
    | Gated(gate: A.Gate)
    | AccountMissing
    | SelectedUnavailable
    | OauthUnavailable(cause: string)
    | CredentialUnresolved(cause: string)
    | BodyUnreadable
    | CodexBodyTooLarge
    | Forwarded(request: Upstream)

  /** `toolsWithAuth`: names the legacy configuration gives a credential. */
  datatype AppState = AppState(
    snapshot: A.Snapshot, catalog: A.Catalog, resolvedCreds: map<string, string>, toolsWithAuth: set<string>,
    storeWired: bool, readable: bool, now: int, world: World)

  /** `legacy_admission::credentialed`. */
  predicate Credentialed(s: AppState, name: string)
  {
    if name in s.catalog && !s.catalog[name].disabled then !s.catalog[name].auth.NoAuth? else name in s.toolsWithAuth
  }

  /** Materialises the selected credential, or says why not. */
  function Resolve(t: Target, w: World): Result<Target, Outcome>
  {
    match t.auth
    case OauthAuth(_) =>
      if t.oauth.None? then Err(SelectedUnavailable)
      else
        var token := w.sessions(t.name, t.oauth.value.0, t.oauth.value.1);
        if token.Err? then Err(OauthUnavailable(token.error)) else Ok(t.(auth := OauthAuth(token.value)))
    case StoredAuth(h, secretRef, _) =>
      var v := w.stored(secretRef);
      if v.Err? then Err(CredentialUnresolved(v.error)) else Ok(t.(auth := StoredAuth(h, secretRef, Some(v.value))))
    case OpAuth(h, reference, _) =>
      if reference in w.op && w.op[reference] != "" then Ok(t.(auth := OpAuth(h, reference, Some(w.op[reference]))))
      else Err(CredentialUnresolved("op_reference_unresolved"))
    case _ => Ok(t)
  }

  function StripHeader(auth: ProxyAuth): Option<string>
  {
    match auth
    case HeaderAuth(h, _) => Some(Lower(h))
    case StoredAuth(h, _, _) => if h.Some? then Some(Lower(h.value)) else None
    case OpAuth(h, _, _) => if h.Some? then Some(Lower(h.value)) else None
    case _ => None
  }

  const ACCOUNT_HEADER := "ChatGPT-Account-ID"

  const ALWAYS_STRIPPED := {"host", "authorization", "x-api-key", "content-length", "transfer-encoding"}

  /** A header of the agent that is not passed on. */
  predicate Stripped(name: string, auth: ProxyAuth, codex: bool)
  {
    || Lower(name) in ALWAYS_STRIPPED
    || (codex && Lower(name) == "openai-beta")
    || StripHeader(auth) == Some(Lower(name))
  }

  function Passed(headers: Headers, auth: ProxyAuth, codex: bool): Headers
  {
    if headers == [] then []
    else
      var front, last := Passed(headers[..|headers| - 1], auth, codex), headers[|headers| - 1];
      if Stripped(last.0, auth, codex) then front else front + [last]
  }

  /** `name: value`, or a bearer token when no header name is given. */
  function Carried(header: Option<string>, value: string): Headers
  {
    if header.Some? then [(header.value, value)] else [("Authorization", "Bearer " + value)]
  }

  /** The injection, with its fallbacks to `resolved_creds`. */
  function Injected(t: Target, resolvedCreds: map<string, string>, codex: bool): Headers
  {
    var fallback := if t.name in resolvedCreds then Some(resolvedCreds[t.name]) else None;
    match t.auth
    case NoInjection => []
    case HeaderAuth(h, v) =>
      if v.Some? then Carried(Some(h), v.value) else if fallback.Some? then Carried(Some(h), fallback.value) else []
    case BearerAuth(v) =>
      if v.Some? then Carried(None, v.value) else if fallback.Some? then Carried(None, fallback.value) else []
    case StoredAuth(h, _, v) => if v.Some? then Carried(h, v.value) else []
    case OpAuth(h, _, v) => if v.Some? then Carried(h, v.value) else []
    case OauthAuth(token) =>
      (if token.accessToken.Some? then Carried(None, token.accessToken.value) else []) +
      (if token.accountId.Some? && codex then [(ACCOUNT_HEADER, token.accountId.value)] else [])
  }

  predicate Sent(headers: Headers, name: string) { exists i | 0 <= i < |headers| :: Lower(headers[i].0) == name }

  function CodexHeaders(req: Request, codex: bool): Headers
  {
    if !codex then []
    else
      [("OpenAI-Beta", "responses=experimental")] +
      (if Sent(req.headers, "originator") then [] else [("originator", req.agentName.GetOr("locksmith-proxy"))])
  }

  function QueryPart(query: Option<string>): string
  {
    if query.Some? && query.value != "" then "?" + query.value else ""
  }

  function Url(t: Target, req: Request): string
  {
    TrimSlashes(t.upstream) + "/" + req.path + QueryPart(req.query)
  }

  /** Only Responses calls to a codex upstream have their body rewritten. */
  predicate Rewritten(upstream: string, req: Request)
  {
    CodexUpstream(upstream) && EndsWith(Lower(req.requestPath), "/responses")
  }

  function Build(t: Target, resolvedCreds: map<string, string>, req: Request, body: string): Upstream
  {
    var codex := CodexUpstream(t.upstream);
    Upstream(t.name, t.timeouts, t.egress, req.verb, Url(t, req),
             Passed(req.headers, t.auth, codex) + Injected(t, resolvedCreds, codex) + CodexHeaders(req, codex), body)
  }

  function Forward(t: Target, s: AppState, req: Request): Outcome
  {
    if |req.body| > t.bodyLimit then BodyUnreadable
    else if Rewritten(t.upstream, req) then
      var body := s.world.fixup(req.body);
      if body.None? then CodexBodyTooLarge else Forwarded(Build(t, s.resolvedCreds, req, body.value))
    else Forwarded(Build(t, s.resolvedCreds, req, req.body))
  }

  /** The admitted target, or the refusal. */
  function AdmittedTarget(s: AppState, req: Request): Result<Target, Outcome>
  {
    var gate := A.DirectGate(s.snapshot, s.catalog, req.identity, s.storeWired, s.readable, req.tool, s.now);
    if !gate.AccountCheck? then Err(Gated(gate))
    else if gate.account.None? then Err(AccountMissing)
    else
      var t := ApplySpec(FromRegistration(req.tool, gate.registration), gate.account.value, s.world);
      if t.Err? then Err(SelectedUnavailable) else Resolve(t.value, s.world)
  }

  /** `proxy_handler`, up to sending. */
  function Handle(s: AppState, req: Request): Outcome
  {
    var denial :=
      if req.identity.None? then None
      else A.Denied(req.identity.value.allowlist, req.identity.value.denylist, req.tool);
    if denial.Some? then Denied(denial.value)
    else if req.identity.None? && Credentialed(s, req.tool) then Gated(A.IdentityRequired)
    else
      var t := AdmittedTarget(s, req);
      if t.Err? then t.error else Forward(t.value, s, req)
  }

  // ---- non-interference ----

  /** The same registration but for its own auth template. */
  ghost predicate ButTemplate(a: Registration, b: Registration) { b == a.(auth := b.auth) }

  /** Two states that may differ in `resolved_creds`, in the template of the named
      registration as long as table and catalog agree or disagree about it alike, and in
      other names' rows. */
  ghost predicate DifferInTemplate(a: AppState, b: AppState, name: string)
  {
    && b == a.(resolvedCreds := b.resolvedCreds, snapshot := b.snapshot, catalog := b.catalog)
    && b.snapshot == a.snapshot.(rows := b.snapshot.rows)
    && (name in a.snapshot.rows <==> name in b.snapshot.rows)
    && (name in a.catalog <==> name in b.catalog)
    && (name in a.catalog ==> ButTemplate(a.catalog[name], b.catalog[name]))
    && (name in a.snapshot.rows ==>
          var p, q := a.snapshot.rows[name], b.snapshot.rows[name];
          && (p.Unreadable? ==> q == p)
          && (p.Readable? ==> q.Readable? && ButTemplate(p.registration, q.registration))
          && (p.Readable? && name in a.catalog ==>
                (p.registration.auth == a.catalog[name].auth <==> q.registration.auth == b.catalog[name].auth)))
  }

  /** Gates do not look at the template. */
  lemma GateIgnoresTemplate(a: AppState, b: AppState, req: Request)
    requires DifferInTemplate(a, b, req.tool)
    ensures var p := A.DirectGate(a.snapshot, a.catalog, req.identity, a.storeWired, a.readable, req.tool, a.now);
      var q := A.DirectGate(b.snapshot, b.catalog, req.identity, b.storeWired, b.readable, req.tool, b.now);
      if p.AccountCheck? then
        q.AccountCheck? && q.account == p.account && ButTemplate(p.registration, q.registration)
      else q == p
  {
  }

  lemma ApplySpecForgets(name: string, a: Registration, b: Registration, spec: AuthSpec, w: World)
    requires ButTemplate(a, b)
    ensures ApplySpec(FromRegistration(name, a), spec, w) == ApplySpec(FromRegistration(name, b), spec, w)
  {
  }

  /** A target whose credential is already decided. */
  predicate Decided(auth: ProxyAuth)
  {
    && (auth.HeaderAuth? || auth.BearerAuth? ==> auth.override.Some?)
    && (auth.StoredAuth? || auth.OpAuth? ==> auth.resolved.Some?)
  }

  /** The fallback branches of header injection are never reached. */
  lemma FallbacksUnreachable(s: AppState, req: Request)
    requires AdmittedTarget(s, req).Ok?
    ensures Decided(AdmittedTarget(s, req).value.auth)
  {
  }

  /**
   Non-interference: neither `resolved_creds` nor the registration's own template has any
   influence on the verdict or on the upstream request; the explicit binding alone does.
   */
  lemma TemplateHasNoInfluence(a: AppState, b: AppState, req: Request)
    requires DifferInTemplate(a, b, req.tool)
    ensures Handle(a, req) == Handle(b, req)
  {
    GateIgnoresTemplate(a, b, req);
    var gate := A.DirectGate(a.snapshot, a.catalog, req.identity, a.storeWired, a.readable, req.tool, a.now);
    var other := A.DirectGate(b.snapshot, b.catalog, req.identity, b.storeWired, b.readable, req.tool, b.now);
    if gate.AccountCheck? && gate.account.Some? {
      ApplySpecForgets(req.tool, gate.registration, other.registration, gate.account.value, a.world);
    }
    assert AdmittedTarget(a, req) == AdmittedTarget(b, req);
    if AdmittedTarget(a, req).Ok? {
      FallbacksUnreachable(a, req);
    }
  }

  // ---- what the binding decides ----

  /** The headers a selected account stands for, read off the selection itself. */
  function CredentialOf(name: string, spec: AuthSpec, w: World, codex: bool): Option<Headers>
  {
    match spec
    case NoAuth => Some([])
    case Header(h, env) => if SelectedEnv(w, env).Ok? then Some([(h, w.env[env])]) else None
    case Bearer(env) => if SelectedEnv(w, env).Ok? then Some([("Authorization", "Bearer " + w.env[env])]) else None
    case StoredHeader(h, secretRef) => if w.stored(secretRef).Ok? then Some([(h, w.stored(secretRef).value)]) else None
    case StoredBearer(secretRef) =>
      if w.stored(secretRef).Ok? then Some([("Authorization", "Bearer " + w.stored(secretRef).value)]) else None
    case OpHeader(h, reference) =>
      if reference in w.op && w.op[reference] != "" then Some([(h, w.op[reference])]) else None
    case OpBearer(reference) =>
      if reference in w.op && w.op[reference] != "" then Some([("Authorization", "Bearer " + w.op[reference])])
      else None
    case _ =>
      if SelectedParameters(spec, w.urlOk).None? || spec.sessionLabel.None? || Blank(spec.sessionLabel.value) then None
      else
        var token := w.sessions(name, spec.sessionLabel.value, spec);
        if token.Err? then None
        else Some(
          (if token.value.accessToken.None? then []
           else [("Authorization", "Bearer " + token.value.accessToken.value)]) +
          (if token.value.accountId.Some? && codex then [(ACCOUNT_HEADER, token.value.accountId.value)] else []))
  }

  /** The header name a selection occupies, besides `Authorization`. */
  function OwnHeader(spec: AuthSpec): Option<string>
  {
    if spec.HeaderName().Some? then Some(Lower(spec.HeaderName().value)) else None
  }

  /** Applying and resolving a selection succeeds exactly when it stands for a credential,
      and then injects that credential and strips its header. */
  lemma SelectionMeans(t: Target, spec: AuthSpec, w: World, resolvedCreds: map<string, string>, codex: bool)
    ensures var applied := ApplySpec(t, spec, w);
      var credential := CredentialOf(t.name, spec, w, codex);
      && (credential.Some? <==> applied.Ok? && Resolve(applied.value, w).Ok?)
      && (credential.Some? ==>
            var r := Resolve(applied.value, w).value;
            && Injected(r, resolvedCreds, codex) == credential.value
            && StripHeader(r.auth) == OwnHeader(spec)
            && r == t.(auth := r.auth, oauth := r.oauth))
  {
  }

  lemma {:induction false} PassedSpec(headers: Headers, auth: ProxyAuth, codex: bool)
    ensures forall h :: h in Passed(headers, auth, codex) <==> h in headers && !Stripped(h.0, auth, codex)
  {
    if headers != [] {
      PassedSpec(headers[..|headers| - 1], auth, codex);
      assert headers == headers[..|headers| - 1] + [headers[|headers| - 1]];
    }
  }

  /** The one binding behind a request that goes upstream. */
  ghost predicate BoundBy(s: AppState, req: Request, r: Registration, spec: AuthSpec)
  {
    && req.identity.Some? && (req.identity.value.id, req.tool) in s.snapshot.bindings
    && s.snapshot.bindings[(req.identity.value.id, req.tool)] == A.Selected(spec)
    && req.tool in s.snapshot.rows && s.snapshot.rows[req.tool] == A.Readable(r) && !r.disabled
    && req.tool in s.catalog && s.catalog[req.tool] == r
  }

  lemma AccountCheckBinds(s: AppState, req: Request)
    requires var gate := A.DirectGate(s.snapshot, s.catalog, req.identity, s.storeWired, s.readable, req.tool, s.now);
      gate.AccountCheck? && gate.account.Some?
    ensures var gate := A.DirectGate(s.snapshot, s.catalog, req.identity, s.storeWired, s.readable, req.tool, s.now);
      BoundBy(s, req, gate.registration, gate.account.value)
  {
  }

  lemma ForwardedTarget(s: AppState, req: Request) returns (r: Registration, spec: AuthSpec, t: Target)
    requires Handle(s, req).Forwarded?
    ensures BoundBy(s, req, r, spec) && AdmittedTarget(s, req) == Ok(t) && Forward(t, s, req) == Handle(s, req)
    ensures var codex := CodexUpstream(r.upstream);
      && CredentialOf(req.tool, spec, s.world, codex).Some?
      && Injected(t, s.resolvedCreds, codex) == CredentialOf(req.tool, spec, s.world, codex).value
      && StripHeader(t.auth) == OwnHeader(spec)
    ensures t.name == req.tool && t.upstream == r.upstream && t.timeouts == r.timeouts && t.egress == r.egress
    ensures t.bodyLimit == r.bodyLimit
  {
    var gate := A.DirectGate(s.snapshot, s.catalog, req.identity, s.storeWired, s.readable, req.tool, s.now);
    t := AdmittedTarget(s, req).value;
    r, spec := gate.registration, gate.account.value;
    AccountCheckBinds(s, req);
    hide A.DirectGate, CredentialOf, BoundBy, Injected;
    SelectionMeans(FromRegistration(req.tool, r), spec, s.world, s.resolvedCreds, CodexUpstream(r.upstream));
  }

  /** The session behind the selection names an account. */
  predicate NamesAccount(name: string, spec: AuthSpec, w: World)
  {
    && spec.IsOauth() && spec.sessionLabel.Some?
    && var token := w.sessions(name, spec.sessionLabel.value, spec);
    && token.Ok? && token.value.accountId.Some?
  }

  /** Some header of the agent's goes upstream under the name of a header of the credential. */
  ghost predicate Shadowed(passed: Headers, credential: Headers)
  {
    exists h, c | h in passed && c in credential :: Lower(h.0) == Lower(c.0)
  }

  lemma LowerNames()
    ensures Lower("Authorization") == "authorization" && Lower(ACCOUNT_HEADER) == "chatgpt-account-id"
  {
  }

  /** The names a credential uses, and the one among them that stripping does not cover. */
  lemma CredentialNames(name: string, spec: AuthSpec, w: World, codex: bool, c: (string, string))
    requires CredentialOf(name, spec, w, codex).Some? && c in CredentialOf(name, spec, w, codex).value
    ensures
      || c.0 == "Authorization"
      || OwnHeader(spec) == Some(Lower(c.0))
      || (c.0 == ACCOUNT_HEADER && codex && NamesAccount(name, spec, w))
  {
  }

  lemma AccountIsCarried(name: string, spec: AuthSpec, w: World)
    requires CredentialOf(name, spec, w, true).Some? && NamesAccount(name, spec, w)
    ensures exists c | c in CredentialOf(name, spec, w, true).value :: c.0 == ACCOUNT_HEADER
    ensures OwnHeader(spec).None?
  {
    var token := w.sessions(name, spec.sessionLabel.value, spec).value;
    assert (ACCOUNT_HEADER, token.accountId.value) in CredentialOf(name, spec, w, true).value;
  }

  lemma ShadowIsAccount(
    name: string, spec: AuthSpec, w: World, codex: bool, headers: Headers, auth: ProxyAuth,
    h: (string, string), c: (string, string))
    requires CredentialOf(name, spec, w, codex).Some? && StripHeader(auth) == OwnHeader(spec)
    requires h in Passed(headers, auth, codex) && c in CredentialOf(name, spec, w, codex).value
    requires Lower(h.0) == Lower(c.0)
    ensures codex && NamesAccount(name, spec, w) && Sent(headers, "chatgpt-account-id")
  {
    CredentialNames(name, spec, w, codex, c);
    LowerNames();
    PassedSpec(headers, auth, codex);
    hide CredentialOf, NamesAccount, Passed, Lower, OwnHeader, StripHeader;
    var i :| 0 <= i < |headers| && headers[i] == h;
  }

  lemma AccountIsShadowed(name: string, spec: AuthSpec, w: World, headers: Headers, auth: ProxyAuth)
    requires CredentialOf(name, spec, w, true).Some? && StripHeader(auth) == OwnHeader(spec)
    requires NamesAccount(name, spec, w) && Sent(headers, "chatgpt-account-id")
    ensures Shadowed(Passed(headers, auth, true), CredentialOf(name, spec, w, true).value)
  {
    AccountIsCarried(name, spec, w);
    LowerNames();
    PassedSpec(headers, auth, true);
    hide CredentialOf, NamesAccount, Passed, Lower, OwnHeader, StripHeader;
    var c :| c in CredentialOf(name, spec, w, true).value && c.0 == ACCOUNT_HEADER;
    var i :| 0 <= i < |headers| && Lower(headers[i].0) == "chatgpt-account-id";
    assert headers[i] in Passed(headers, auth, true);
  }

  /**
   The agent's headers shadow a header of the credential in exactly one case: a codex
   upstream, an OAuth session that names an account, and an agent that sends the account
   header itself, which the strip list does not hold.
   */
  lemma ShadowedExactly(name: string, spec: AuthSpec, w: World, codex: bool, headers: Headers, auth: ProxyAuth)
    requires CredentialOf(name, spec, w, codex).Some? && StripHeader(auth) == OwnHeader(spec)
    ensures Shadowed(Passed(headers, auth, codex), CredentialOf(name, spec, w, codex).value) <==>
      codex && NamesAccount(name, spec, w) && Sent(headers, "chatgpt-account-id")
  {
    hide CredentialOf, NamesAccount, Passed;
    var passed, credential := Passed(headers, auth, codex), CredentialOf(name, spec, w, codex).value;
    if Shadowed(passed, credential) {
      var h, c :| h in passed && c in credential && Lower(h.0) == Lower(c.0);
      ShadowIsAccount(name, spec, w, codex, headers, auth, h, c);
    }
    if codex && NamesAccount(name, spec, w) && Sent(headers, "chatgpt-account-id") {
      AccountIsShadowed(name, spec, w, headers, auth);
    }
  }

  /**
   Every request that leaves the proxy carries exactly the credential of the caller's
   explicit binding and goes to the registration as table and catalog agree on it.  Of the
   agent's headers none under a name that is always stripped, or that is the selection's
   own, goes with it; one goes under the name of a credential header exactly in the case
   of `ShadowedExactly`.
   */
  lemma BindingDecides(s: AppState, req: Request) returns (r: Registration, spec: AuthSpec)
    requires Handle(s, req).Forwarded?
    ensures BoundBy(s, req, r, spec)
    ensures var u, codex := Handle(s, req).request, CodexUpstream(r.upstream);
      var credential := CredentialOf(req.tool, spec, s.world, codex);
      && credential.Some? && u.timeouts == r.timeouts && u.egress == r.egress
      && u.name == req.tool && u.verb == req.verb
      && u.url == TrimSlashes(r.upstream) + "/" + req.path + QueryPart(req.query)
      && |req.body| <= r.bodyLimit
      && (if Rewritten(r.upstream, req) then Some(u.body) == s.world.fixup(req.body) else u.body == req.body)
      && (exists passed: Headers ::
            && u.headers == passed + credential.value + CodexHeaders(req, codex)
            && (forall h | h in passed ::
                  && h in req.headers && Lower(h.0) !in ALWAYS_STRIPPED
                  && OwnHeader(spec) != Some(Lower(h.0)))
            && (Shadowed(passed, credential.value) <==>
                  codex && NamesAccount(req.tool, spec, s.world) && Sent(req.headers, "chatgpt-account-id")))
  {
    var t: Target;
    r, spec, t := ForwardedTarget(s, req);
    var codex := CodexUpstream(r.upstream);
    PassedSpec(req.headers, t.auth, codex);
    ShadowedExactly(req.tool, spec, s.world, codex, req.headers, t.auth);
    hide Shadowed, NamesAccount, Sent;
    hide Handle, BoundBy, CredentialOf, Injected, AdmittedTarget;
    var passed := Passed(req.headers, t.auth, codex);
    assert Handle(s, req).request.headers ==
      passed + CredentialOf(req.tool, spec, s.world, codex).value + CodexHeaders(req, codex);
  }

  // ---- the one case, exhibited ----

  const CODEX_PATH := "/backend-api/codex"

  const CODEX_SPEC := OauthPkce("c", "", [], "", "u", Some("l"))

  const CODEX_ROW := Registration(
    Model, "", CODEX_PATH, NoAuth, Direct, Timeouts(30, 60), 0, "{}", false, false, 0, 0)

  /** A codex registration bound to an OAuth session that names an account. */
  function CodexState(): AppState
  {
    var agents := map[1 := A.Agent("p", None, None, true, A.Names(["t"]), A.Absent)];
    var world := World(
      map[], secretRef => Err("none"), map[], (name, sessionLabel, spec) => Ok(OauthToken(Some("k"), Some("a"))),
      url => true, body => None);
    AppState(A.Snapshot(map["t" := A.Readable(CODEX_ROW)], agents, map[(1, "t") := A.Selected(CODEX_SPEC)]),
             map["t" := CODEX_ROW], map[], {}, true, true, 0, world)
  }

  /** An agent that sends the account header itself. */
  const OWN_ACCOUNT := Request(
    "t", "", "", None, "GET", [("chatgpt-account-id", "x")], "", Some(A.Identity(1, "p", Some(["t"]), None)), None)

  lemma CodexIsCodex()
    ensures CodexUpstream(CODEX_PATH) && !Rewritten(CODEX_PATH, OWN_ACCOUNT)
  {
    assert Lower(CODEX_PATH) == CODEX_PATH;
  }

  lemma CodexSelection()
    ensures SelectedParameters(CODEX_SPEC, CodexState().world.urlOk).Some? && !Blank("l")
  {
    assert !Whitespace("c"[0]) && !Whitespace("l"[0]);
  }

  lemma CodexAdmits()
    ensures AdmittedTarget(CodexState(), OWN_ACCOUNT) == Ok(
      FromRegistration("t", CODEX_ROW).(
        auth := OauthAuth(OauthToken(Some("k"), Some("a"))), oauth := Some(("l", CODEX_SPEC))))
  {
    CodexSelection();
  }

  lemma OwnAccountPasses(token: OauthToken)
    ensures ("chatgpt-account-id", "x") in Passed(OWN_ACCOUNT.headers, OauthAuth(token), true)
  {
    PassedSpec(OWN_ACCOUNT.headers, OauthAuth(token), true);
    hide Passed;
    assert Lower("chatgpt-account-id") == "chatgpt-account-id";
    assert OWN_ACCOUNT.headers[0] == ("chatgpt-account-id", "x");
  }

  lemma AccountIsInjected(t: Target)
    requires t.auth == OauthAuth(OauthToken(Some("k"), Some("a")))
    ensures (ACCOUNT_HEADER, "a") in Injected(t, map[], true)
  {
    assert Injected(t, map[], true)[1] == (ACCOUNT_HEADER, "a");
  }

  /** The account header of the agent's and the one of the session both go upstream. */
  lemma AgentAccountHeaderPasses()
    ensures Handle(CodexState(), OWN_ACCOUNT).Forwarded?
    ensures var headers := Handle(CodexState(), OWN_ACCOUNT).request.headers;
      ("chatgpt-account-id", "x") in headers && (ACCOUNT_HEADER, "a") in headers
  {
    CodexIsCodex();
    CodexAdmits();
    hide AdmittedTarget, CodexUpstream, Rewritten, Passed, Injected, CodexHeaders, Url;
    var t := AdmittedTarget(CodexState(), OWN_ACCOUNT).value;
    OwnAccountPasses(t.auth.token);
    AccountIsInjected(t);
  }
}
