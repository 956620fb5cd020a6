// The billing providers of each workspace: a cache with fallbacks
// (packages/api/src/billing/billing.service.ts).
module ProviderCache {
  import opened Wrappers

  datatype ProviderType = Stripe | Zuora

  datatype Credentials =
    | StripeCredentials(secretKey: string, webhookSecret: string)
    | ZuoraCredentials(clientId: string, clientSecret: string, baseUrl: string, zuoraSecret: Option<string>)

  // A constructed adapter; the serial number tells apart adapters made from the same credentials.
  datatype Adapter = Adapter(serial: nat, credentials: Credentials)

  datatype WorkspaceSettings = WorkspaceSettings(
    stripeSecretKey: Option<string>,
    stripeWebhookSecret: Option<string>,
    zuoraClientId: Option<string>,
    zuoraClientSecret: Option<string>,
    zuoraBaseUrl: Option<string>,
    zuoraWebhookSecret: Option<string>)

  // Neither missing nor empty.
  predicate IsSet(field: Option<string>) {
    field.Some? && field.value != ""
  }

  // The credentials that the settings of a workspace, or the environment, hold for a provider.
  function FromSettings(provider: ProviderType, settings: Option<WorkspaceSettings>): Option<Credentials> {
    if settings.None? then
      None
    else
      var s := settings.value;
      match provider
      case Stripe =>
        if IsSet(s.stripeSecretKey) && IsSet(s.stripeWebhookSecret) then
          Some(StripeCredentials(s.stripeSecretKey.value, s.stripeWebhookSecret.value))
        else
          None
      case Zuora =>
        if IsSet(s.zuoraClientId) && IsSet(s.zuoraClientSecret) && IsSet(s.zuoraBaseUrl) then
          Some(ZuoraCredentials(
            s.zuoraClientId.value, s.zuoraClientSecret.value, s.zuoraBaseUrl.value, s.zuoraWebhookSecret))
        else
          None
  }

  // A configuration counts when it has the shape of its provider and its required fields are not empty.
  predicate Fits(provider: ProviderType, config: Credentials) {
    match config
    case StripeCredentials(key, secret) => provider.Stripe? && key != "" && secret != ""
    case ZuoraCredentials(id, secret, url, _) => provider.Zuora? && id != "" && secret != "" && url != ""
  }

  function NotConfigured(provider: ProviderType): string {
    (if provider.Stripe? then "stripe" else "zuora")
    + " provider not configured for workspace. Add credentials in Settings."
  }

  // Settings that hold just these credentials.
  function SettingsOf(credentials: Credentials): WorkspaceSettings {
    match credentials
    case StripeCredentials(key, secret) => WorkspaceSettings(Some(key), Some(secret), None, None, None, None)
    case ZuoraCredentials(id, secret, url, webhook) =>
      WorkspaceSettings(None, None, Some(id), Some(secret), Some(url), webhook)
  }

  function ProviderOf(credentials: Credentials): ProviderType {
    match credentials
    case StripeCredentials(_, _) => Stripe
    case ZuoraCredentials(_, _, _, _) => Zuora
  }

  // Both keys of Stripe, and the three of Zuora besides its webhook secret, must not be empty.
  predicate IsComplete(credentials: Credentials) {
    match credentials
    case StripeCredentials(key, secret) => |key| > 0 && |secret| > 0
    case ZuoraCredentials(id, secret, url, _) => |id| > 0 && |secret| > 0 && |url| > 0
  }

  // Credentials written into settings field by field are read back unchanged, for their own provider and exactly
  // when they are complete; what the settings hold for the other provider makes no difference.
  lemma SettingsRoundTrip(credentials: Credentials, others: WorkspaceSettings, provider: ProviderType)
    ensures FromSettings(provider, Some(SettingsOf(credentials)))
      == if provider == ProviderOf(credentials) && IsComplete(credentials) then Some(credentials) else None
    ensures var written := SettingsOf(credentials);
      var mixed := if credentials.StripeCredentials?
        then others.(stripeSecretKey := written.stripeSecretKey, stripeWebhookSecret := written.stripeWebhookSecret)
        else written.(stripeSecretKey := others.stripeSecretKey, stripeWebhookSecret := others.stripeWebhookSecret);
      FromSettings(ProviderOf(credentials), Some(mixed))
      == FromSettings(ProviderOf(credentials), Some(written))
    ensures FromSettings(provider, None) == None
  {
  }

  // ---------- The state and its operations ----------

  type Cache = map<ProviderType, Adapter>

  datatype State = State(globals: Cache, workspaces: map<string, Cache>, built: nat) {

    // The adapter cached for a workspace.
    function Cached(workspaceId: string, provider: ProviderType): Option<Adapter> {
      if workspaceId in workspaces && provider in workspaces[workspaceId] then
        Some(workspaces[workspaceId][provider])
      else
        None
    }

    // Builds an adapter and caches it, making the workspace's own map on first use.
    function Store(workspaceId: string, provider: ProviderType, credentials: Credentials): State {
      var own := if workspaceId in workspaces then workspaces[workspaceId] else map[];
      State(
        globals, workspaces[workspaceId := own[provider := Adapter(built, credentials)]], built + 1)
    }

    function Get(workspaceId: string, provider: ProviderType, settings: Option<WorkspaceSettings>)
      : (State, Result<Adapter>)
    {
      var cached, credentials := Cached(workspaceId, provider), FromSettings(provider, settings);
      if cached.Some? then (this, Ok(cached.value))
      else if credentials.Some? then
        (Store(workspaceId, provider, credentials.value), Ok(Adapter(built, credentials.value)))
      else if provider in globals then (this, Ok(globals[provider]))
      else (this, Err(NotConfigured(provider)))
    }

    predicate IsConfigured(workspaceId: string, provider: ProviderType, settings: Option<WorkspaceSettings>) {
      || Cached(workspaceId, provider).Some?
      || FromSettings(provider, settings).Some?
      || provider in globals
    }

    // An incomplete configuration changes nothing, and leaves an earlier adapter in place.
    function Configure(workspaceId: string, provider: ProviderType, config: Credentials): State {
      if Fits(provider, config) then Store(workspaceId, provider, config) else this
    }

    function Clear(workspaceId: string): State {
      this.(workspaces := workspaces - {workspaceId})
    }

    // Only Stripe can be reconfigured globally.
    function ConfigureGlobal(provider: ProviderType, config: Credentials): State {
      if provider.Stripe? && Fits(provider, config) then
        State(globals[provider := Adapter(built, config)], workspaces, built + 1)
      else
        this
    }

    // At start-up: a provider found in the environment becomes global.
    function AddFromEnvironment(provider: ProviderType, environment: Option<WorkspaceSettings>): State {
      var credentials := FromSettings(provider, environment);
      if credentials.Some? then
        State(globals[provider := Adapter(built, credentials.value)], workspaces, built + 1)
      else
        this
    }
  }

  function Initial(environment: Option<WorkspaceSettings>): State {
    State(map[], map[], 0).AddFromEnvironment(Stripe, environment).AddFromEnvironment(Zuora, environment)
  }

  // The service as an object that changes in place.
  class BillingService {
    var globalProviders: Cache
    var workspaceProviders: map<string, Cache>
    var adaptersBuilt: nat

    function Abstract(): State
      reads this
    {
      State(globalProviders, workspaceProviders, adaptersBuilt)
    }

    constructor (environment: Option<WorkspaceSettings>)
      ensures Abstract() == Initial(environment)
    {
      globalProviders, workspaceProviders, adaptersBuilt := map[], map[], 0;
      new;
      InitializeGlobal(Stripe, environment);
      InitializeGlobal(Zuora, environment);
    }

    method InitializeGlobal(provider: ProviderType, environment: Option<WorkspaceSettings>)
      modifies this
      ensures Abstract() == old(Abstract()).AddFromEnvironment(provider, environment)
    {
      var credentials := FromSettings(provider, environment);
      if credentials.Some? {
        globalProviders := globalProviders[provider := Adapter(adaptersBuilt, credentials.value)];
        adaptersBuilt := adaptersBuilt + 1;
      }
    }

    method CacheWorkspaceProvider(workspaceId: string, provider: ProviderType, adapter: Adapter)
      requires adapter.serial == adaptersBuilt
      modifies this
      ensures Abstract() == old(Abstract()).Store(workspaceId, provider, adapter.credentials)
    {
      if workspaceId !in workspaceProviders {
        workspaceProviders := workspaceProviders[workspaceId := map[]];
      }
      var own := workspaceProviders[workspaceId];
      workspaceProviders := workspaceProviders[workspaceId := own[provider := adapter]];
      adaptersBuilt := adaptersBuilt + 1;
    }

    method GetProviderForWorkspace(
        workspaceId: string, provider: ProviderType, settings: Option<WorkspaceSettings>)
      returns (result: Result<Adapter>)
      modifies this
      ensures (Abstract(), result) == old(Abstract()).Get(workspaceId, provider, settings)
    {
      hide FromSettings;
      if workspaceId in workspaceProviders && provider in workspaceProviders[workspaceId] {
        return Ok(workspaceProviders[workspaceId][provider]);
      }
      var credentials := FromSettings(provider, settings);
      if credentials.Some? {
        var adapter := Adapter(adaptersBuilt, credentials.value);
        CacheWorkspaceProvider(workspaceId, provider, adapter);
        return Ok(adapter);
      }
      if provider in globalProviders {
        return Ok(globalProviders[provider]);
      }
      return Err(NotConfigured(provider));
    }

    method IsConfiguredForWorkspace(
        workspaceId: string, provider: ProviderType, settings: Option<WorkspaceSettings>)
      returns (configured: bool)
      ensures configured <==> Abstract().Get(workspaceId, provider, settings).1.Ok?
    {
      if workspaceId in workspaceProviders && provider in workspaceProviders[workspaceId] {
        return true;
      }
      if FromSettings(provider, settings).Some? {
        return true;
      }
      return provider in globalProviders;
    }

    method ConfigureProviderForWorkspace(workspaceId: string, provider: ProviderType, config: Credentials)
      modifies this
      ensures Abstract() == old(Abstract()).Configure(workspaceId, provider, config)
    {
      if provider.Stripe? && config.StripeCredentials? && config.secretKey != "" && config.webhookSecret != "" {
        CacheWorkspaceProvider(workspaceId, provider, Adapter(adaptersBuilt, config));
      }
      if && provider.Zuora? && config.ZuoraCredentials?
         && config.clientId != "" && config.clientSecret != "" && config.baseUrl != "" {
        CacheWorkspaceProvider(workspaceId, provider, Adapter(adaptersBuilt, config));
      }
    }

    method ClearWorkspaceCache(workspaceId: string)
      modifies this
      ensures Abstract() == old(Abstract()).Clear(workspaceId)
    {
      workspaceProviders := workspaceProviders - {workspaceId};
    }

    method ConfigureProvider(provider: ProviderType, config: Credentials)
      modifies this
      ensures Abstract() == old(Abstract()).ConfigureGlobal(provider, config)
    {
      if provider.Stripe? && config.StripeCredentials? && config.secretKey != "" && config.webhookSecret != "" {
        globalProviders := globalProviders[provider := Adapter(adaptersBuilt, config)];
        adaptersBuilt := adaptersBuilt + 1;
      }
    }
  }

  // ---------- What one call does to the next ----------

  // After a workspace has been configured it gets an adapter of just these credentials, whatever settings are
  // passed, provided they are complete and of that provider; otherwise nothing has changed.
  lemma ConfigureThenGet(
      state: State, workspaceId: string, provider: ProviderType, config: Credentials,
      settings: Option<WorkspaceSettings>)
    ensures var after := state.Configure(workspaceId, provider, config);
      if provider == ProviderOf(config) && IsComplete(config) then
        after.Get(workspaceId, provider, settings).1 == Ok(Adapter(state.built, config))
      else
        after == state
  {
  }

  lemma ClearEmpties(state: State, workspaceId: string, provider: ProviderType, other: string)
    ensures var after := state.Clear(workspaceId);
      && after.Cached(workspaceId, provider).None?
      && (other != workspaceId ==> after.Cached(other, provider) == state.Cached(other, provider))
      && after.globals == state.globals && after.built == state.built
  {
  }

  lemma GetUncached(
      state: State, workspaceId: string, provider: ProviderType, settings: Option<WorkspaceSettings>)
    requires state.Cached(workspaceId, provider).None?
    ensures state.Get(workspaceId, provider, settings).1 ==
      if FromSettings(provider, settings).Some? then
        Ok(Adapter(state.built, FromSettings(provider, settings).value))
      else if provider in state.globals then Ok(state.globals[provider])
      else Err(NotConfigured(provider))
  {
    hide FromSettings;
    hide NotConfigured;
  }

  // After its cache has been cleared a workspace gets an adapter newly built from its settings, else the global
  // one, else an error; and the other workspaces keep theirs.
  lemma ClearThenGet(
      state: State, workspaceId: string, provider: ProviderType, credentials: Credentials, other: string)
    ensures var after := state.Clear(workspaceId);
      && (provider == ProviderOf(credentials) && IsComplete(credentials) ==>
            after.Get(workspaceId, provider, Some(SettingsOf(credentials))).1
            == Ok(Adapter(state.built, credentials)))
      && (provider in state.globals ==> after.Get(workspaceId, provider, None).1 == Ok(state.globals[provider]))
      && (provider !in state.globals ==> after.Get(workspaceId, provider, None).1.Err?)
      && (other != workspaceId ==> after.Cached(other, provider) == state.Cached(other, provider))
  {
    SettingsRoundTrip(credentials, SettingsOf(credentials), provider);
    ClearEmpties(state, workspaceId, provider, other);
    GetUncached(state.Clear(workspaceId), workspaceId, provider, Some(SettingsOf(credentials)));
    GetUncached(state.Clear(workspaceId), workspaceId, provider, None);
    hide FromSettings;
    hide SettingsOf;
    hide IsComplete;
  }

  // ---------- Runs ----------

  datatype Op =
    | GetOp(workspaceId: string, provider: ProviderType, settings: Option<WorkspaceSettings>)
    | ConfigureOp(workspaceId: string, provider: ProviderType, config: Credentials)
    | ClearOp(workspaceId: string)
    | ConfigureGlobalOp(provider: ProviderType, config: Credentials)

  function Step(state: State, op: Op): State {
    match op
    case GetOp(w, p, settings) => state.Get(w, p, settings).0
    case ConfigureOp(w, p, config) => state.Configure(w, p, config)
    case ClearOp(w) => state.Clear(w)
    case ConfigureGlobalOp(p, config) => state.ConfigureGlobal(p, config)
  }

  function Run(environment: Option<WorkspaceSettings>, ops: seq<Op>): State {
    if ops == [] then Initial(environment)
    else Step(Run(environment, ops[..|ops| - 1]), ops[|ops| - 1])
  }

  // ---------- The reference: a history read backwards ----------

  // The credentials from which the last operation of a history builds an adapter for a workspace, if it does.
  function BuiltLast(ops: seq<Op>, workspaceId: string, provider: ProviderType): Option<Credentials>
    requires ops != []
    decreases |ops|, 0
  {
    var before := ops[..|ops| - 1];
    match ops[|ops| - 1]
    case GetOp(w, p, settings) =>
      if w == workspaceId && p == provider && LastCached(before, w, p).None? then FromSettings(p, settings) else None
    case ConfigureOp(w, p, config) =>
      if w == workspaceId && p == provider && Fits(p, config) then Some(config) else None
    case _ => None
  }

  // The credentials last cached for a workspace and provider since the workspace was last cleared.
  function LastCached(ops: seq<Op>, workspaceId: string, provider: ProviderType): Option<Credentials>
    decreases |ops|, 1
  {
    if ops == [] then
      None
    else if ops[|ops| - 1] == ClearOp(workspaceId) then
      None
    else if BuiltLast(ops, workspaceId, provider).Some? then
      BuiltLast(ops, workspaceId, provider)
    else
      LastCached(ops[..|ops| - 1], workspaceId, provider)
  }

  // The global credentials: the last valid Stripe configuration, else those of the environment.
  function LastGlobal(environment: Option<WorkspaceSettings>, ops: seq<Op>, provider: ProviderType)
    : Option<Credentials>
  {
    if ops == [] then
      FromSettings(provider, environment)
    else
      var last := ops[|ops| - 1];
      if last.ConfigureGlobalOp? && last.provider == provider == Stripe && Fits(Stripe, last.config) then
        Some(last.config)
      else
        LastGlobal(environment, ops[..|ops| - 1], provider)
  }

  function CredentialsOf(adapter: Option<Adapter>): Option<Credentials> {
    if adapter.Some? then Some(adapter.value.credentials) else None
  }

  lemma {:induction false} CacheFollowsHistory(
      environment: Option<WorkspaceSettings>, ops: seq<Op>, workspaceId: string, provider: ProviderType)
    ensures CredentialsOf(Run(environment, ops).Cached(workspaceId, provider))
      == LastCached(ops, workspaceId, provider)
  {
    if ops != [] {
      var before, last := ops[..|ops| - 1], ops[|ops| - 1];
      CacheFollowsHistory(environment, before, workspaceId, provider);
      if last.GetOp? || last.ConfigureOp? {
        CacheFollowsHistory(environment, before, last.workspaceId, last.provider);
      }
    }
  }

  function GlobalOf(state: State, provider: ProviderType): Option<Adapter> {
    if provider in state.globals then Some(state.globals[provider]) else None
  }

  lemma {:induction false} GlobalsFollowHistory(
      environment: Option<WorkspaceSettings>, ops: seq<Op>, provider: ProviderType)
    ensures CredentialsOf(GlobalOf(Run(environment, ops), provider)) == LastGlobal(environment, ops, provider)
  {
    if ops != [] {
      GlobalsFollowHistory(environment, ops[..|ops| - 1], provider);
    }
  }

  // After any history: a workspace gets what was last cached for it since its last clear, else what its
  // settings give, else the global provider, else an error; and it counts as configured exactly when it
  // does not get the error.
  lemma GetFollowsHistory(
      environment: Option<WorkspaceSettings>, ops: seq<Op>,
      workspaceId: string, provider: ProviderType, settings: Option<WorkspaceSettings>)
    ensures var state := Run(environment, ops);
      var result := state.Get(workspaceId, provider, settings).1;
      var expected :=
        if LastCached(ops, workspaceId, provider).Some? then LastCached(ops, workspaceId, provider)
        else if FromSettings(provider, settings).Some? then FromSettings(provider, settings)
        else LastGlobal(environment, ops, provider);
      && (result.Ok? <==> expected.Some?)
      && (result.Ok? ==> result.value.credentials == expected.value)
      && (state.IsConfigured(workspaceId, provider, settings) <==> result.Ok?)
  {
    CacheFollowsHistory(environment, ops, workspaceId, provider);
    GlobalsFollowHistory(environment, ops, provider);
  }

  // ---------- Workspaces do not disturb each other ----------

  predicate Concerns(op: Op, workspaceId: string) {
    !op.ConfigureGlobalOp? && op.workspaceId == workspaceId
  }

  // The results agree: the same adapter, or one newly built from the same settings, or the same error.
  predicate SameResult(left: Result<Adapter>, right: Result<Adapter>, isNew: bool) {
    match (left, right)
    case (Ok(a), Ok(b)) => if isNew then a.credentials == b.credentials else a == b
    case (Err(e), Err(f)) => e == f
    case _ => false
  }

  lemma OthersKeepTheirCache(state: State, op: Op, workspaceId: string, provider: ProviderType)
    requires !op.ConfigureGlobalOp? && !Concerns(op, workspaceId)
    ensures Step(state, op).Cached(workspaceId, provider) == state.Cached(workspaceId, provider)
    ensures Step(state, op).globals == state.globals
  {
  }

  lemma OthersUnaffected(
      state: State, op: Op, workspaceId: string, provider: ProviderType, settings: Option<WorkspaceSettings>)
    requires !op.ConfigureGlobalOp? && !Concerns(op, workspaceId)
    ensures var after := Step(state, op);
      && after.Cached(workspaceId, provider) == state.Cached(workspaceId, provider)
      && after.globals == state.globals
      && SameResult(
           state.Get(workspaceId, provider, settings).1, after.Get(workspaceId, provider, settings).1,
           state.Cached(workspaceId, provider).None? && FromSettings(provider, settings).Some?)
  {
    hide Step;
    OthersKeepTheirCache(state, op, workspaceId, provider);
  }

  // Operations that can replace or drop what a workspace has cached for a provider.
  predicate Replaces(op: Op, workspaceId: string, provider: ProviderType) {
    op == ClearOp(workspaceId) || (op.ConfigureOp? && op.workspaceId == workspaceId && op.provider == provider)
  }

  function RunFrom(state: State, ops: seq<Op>): State {
    if ops == [] then state else Step(RunFrom(state, ops[..|ops| - 1]), ops[|ops| - 1])
  }

  // Once cached, the same adapter is returned, whatever settings are passed, until the workspace is cleared
  // or the provider configured anew.
  lemma {:induction false} CachedAdapterStays(
      state: State, ops: seq<Op>, workspaceId: string, provider: ProviderType, settings: Option<WorkspaceSettings>)
    requires state.Cached(workspaceId, provider).Some?
    requires forall i | 0 <= i < |ops| :: !Replaces(ops[i], workspaceId, provider)
    ensures RunFrom(state, ops).Cached(workspaceId, provider) == state.Cached(workspaceId, provider)
    ensures RunFrom(state, ops).Get(workspaceId, provider, settings)
      == (RunFrom(state, ops), Ok(state.Cached(workspaceId, provider).value))
  {
    if ops != [] {
      CachedAdapterStays(state, ops[..|ops| - 1], workspaceId, provider, settings);
      assert !Replaces(ops[|ops| - 1], workspaceId, provider);
    }
  }

  // ---------- No adapter serves two workspaces ----------

  predicate OfProvider(provider: ProviderType, credentials: Credentials) {
    match provider
    case Stripe => credentials.StripeCredentials?
    case Zuora => credentials.ZuoraCredentials?
  }

  // Every cached adapter is of its provider, was built before, and is cached in one place only; and no
  // cached adapter is a global one.
  ghost predicate Isolated(state: State) {
    && (forall w, p | state.Cached(w, p).Some? ::
          OfProvider(p, state.Cached(w, p).value.credentials) && state.Cached(w, p).value.serial < state.built)
    && (forall p | p in state.globals ::
          OfProvider(p, state.globals[p].credentials) && state.globals[p].serial < state.built)
    && (forall w, p, v, q | state.Cached(w, p).Some? && state.Cached(v, q).Some? && (w, p) != (v, q) ::
          state.Cached(w, p).value.serial != state.Cached(v, q).value.serial)
    && (forall w, p, q | state.Cached(w, p).Some? && q in state.globals ::
          state.Cached(w, p).value.serial != state.globals[q].serial)
  }

  lemma StoreKeepsIsolation(state: State, workspaceId: string, provider: ProviderType, credentials: Credentials)
    requires Isolated(state) && OfProvider(provider, credentials)
    ensures Isolated(state.Store(workspaceId, provider, credentials))
  {
    var after := state.Store(workspaceId, provider, credentials);
    forall w, p
      ensures after.Cached(w, p)
        == if (w, p) == (workspaceId, provider) then Some(Adapter(state.built, credentials)) else state.Cached(w, p)
    {
    }
  }

  lemma StepKeepsIsolation(state: State, op: Op)
    requires Isolated(state)
    ensures Isolated(Step(state, op))
  {
    match op
    case GetOp(w, p, settings) =>
      if state.Cached(w, p).None? && FromSettings(p, settings).Some? {
        StoreKeepsIsolation(state, w, p, FromSettings(p, settings).value);
      }
    case ConfigureOp(w, p, config) =>
      if Fits(p, config) {
        StoreKeepsIsolation(state, w, p, config);
      }
    case ClearOp(w) =>
      assert forall v, p :: state.Clear(w).Cached(v, p) == if v == w then None else state.Cached(v, p);
    case ConfigureGlobalOp(p, config) =>
      assert forall v, q :: Step(state, op).Cached(v, q) == state.Cached(v, q);
  }

  // In every reachable state no two workspaces, and no two providers, share an adapter.
  lemma {:induction false} AlwaysIsolated(environment: Option<WorkspaceSettings>, ops: seq<Op>)
    ensures Isolated(Run(environment, ops))
  {
    if ops != [] {
      AlwaysIsolated(environment, ops[..|ops| - 1]);
      StepKeepsIsolation(Run(environment, ops[..|ops| - 1]), ops[|ops| - 1]);
    }
  }
}
