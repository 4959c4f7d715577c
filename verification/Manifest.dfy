/**
 * Manifest validation. The presentation and wording checks enter as their verdicts, and the text
 * functions of the Go library as parameters.
 */
module Manifest {
  import opened Options
  import opened ConfigForm
  import opened Slug

  const WATCH_SYNC_PROVIDER := "watch_sync_provider.v1"
  const NETWORK_ACCESS_PROVIDER := "network_access_provider.v1"
  const REQUEST_ROUTER := "request_router.v1"
  const AUTH_PROVIDER := "auth_provider.v1"

  const KNOWN_TYPES: set<string> := {
    "event_consumer.v1", "http_routes.v1", "scheduled_task.v1", REQUEST_ROUTER, "media_analyzer.v1",
    AUTH_PROVIDER, "metadata_provider.v1", "image_resolver.v1", "marker_provider.v1",
    "audiobook_backend.v1", "ebook_backend.v1", "scan_source.v1", WATCH_SYNC_PROVIDER, NETWORK_ACCESS_PROVIDER}

  const PASSWORD := "password"
  const OAUTH2 := "oauth2"
  const NETWORK := "network"
  const KNOWN_MODES := [PASSWORD, OAUTH2, NETWORK]

  const CONNECTION_TEST := "connection_test"
  const CONFIGURATION_CHECK := "configuration_check"

  /** The library functions: JSON schema decoding, case folding, and blankness after trimming. */
  datatype TextLibrary = TextLibrary(parse: string -> Option<Parsed>, fold: string -> string, blank: string -> bool)

  // Enumerations of the protocol: 0 is UNSPECIFIED, and unknown values are kept as numbers.
  const UNSPECIFIED := 0
  const MOVIE := 1
  const EPISODE := 2
  const SERIES := 3
  const DEVICE_CODE := 3
  const BOOLEAN_SETTING := 1
  const MAX_BATCH_SIZE := 1000

  datatype Setting = Setting(key: string, labelText: string, typ: int, defaultValue: Option<Value>)

  datatype Operation =
    | ExportWatched | ExportUnwatched | ImportWatched | ImportProgress
    | ImportFavorites | ExportFavorites | RemoveFavorites
    | ImportWatchlist | ExportWatchlist | RemoveWatchlist
    | ScrobblePlayback | ImportRatings | ExportRatings | SyncDropped

  /** `operations` are the operation flags that are set. */
  datatype WatchSync = WatchSync(
    authMethods: seq<int>, operations: set<Operation>, providesWatchlistOrder: bool, maxBatchSize: int,
    mediaTypes: seq<int>, ratingExportRequiresWatched: seq<int>, namespaces: seq<string>,
    settings: seq<Option<Setting>>)

  /** `wordingAccepted` is the verdict on the router's wording. */
  datatype Router = Router(wordingAccepted: bool)

  datatype Capability = Capability(
    typ: string, id: string, authModes: seq<string>, metadata: map<string, Value>,
    watchSync: Option<WatchSync>, networkAccess: Option<string>, router: Option<Router>,
    configSchema: seq<Option<Schema>>)

  /** `presentationAccepted` is the verdict on the presentation block. */
  datatype PluginManifest = PluginManifest(
    pluginId: string, version: string, presentationAccepted: bool, metadata: map<string, Value>,
    capabilities: seq<Capability>, globalConfigSchema: seq<Option<Schema>>, userConfigSchema: seq<Option<Schema>>)

  // ----- Auth modes

  function EqualFold(text: TextLibrary, a: string, b: string): bool {
    text.fold(a) == text.fold(b)
  }

  /** Not blank, and not a known mode spelled with other letter case. */
  predicate ModeFits(text: TextLibrary, mode: string) {
    !text.blank(mode) && forall known <- KNOWN_MODES :: mode != known ==> !EqualFold(text, mode, known)
  }

  predicate Distinct<T(==)>(s: seq<T>) {
    forall i, j :: 0 <= i < j < |s| ==> s[i] != s[j]
  }

  predicate AuthModesFit(text: TextLibrary, modes: seq<string>) {
    && (forall mode <- modes :: ModeFits(text, mode))
    && Distinct(modes)
    && (NETWORK in modes ==> PASSWORD !in modes && OAUTH2 !in modes)
  }

  predicate BooleanIfPresent(metadata: map<string, Value>, key: string) {
    key in metadata ==> metadata[key].BoolValue?
  }

  predicate AuthProviderFits(text: TextLibrary, c: Capability) {
    c.typ == AUTH_PROVIDER ==> AuthModesFit(text, c.authModes) && BooleanIfPresent(c.metadata, CONNECTION_TEST)
  }

  predicate UsesNetworkIdentity(c: Capability) {
    c.typ == AUTH_PROVIDER && NETWORK in c.authModes
  }

  predicate SupportsConnectionTest(c: Capability) {
    c.typ == AUTH_PROVIDER && CONNECTION_TEST in c.metadata && c.metadata[CONNECTION_TEST] == BoolValue(true)
  }

  predicate SupportsConfigurationCheck(m: PluginManifest) {
    CONFIGURATION_CHECK in m.metadata && m.metadata[CONFIGURATION_CHECK] == BoolValue(true)
  }

  predicate Paired(m: PluginManifest) {
    (exists c <- m.capabilities :: UsesNetworkIdentity(c)) ==> DeclaresOverlay(m)
  }

  predicate DeclaresOverlay(m: PluginManifest) {
    exists c <- m.capabilities :: c.typ == NETWORK_ACCESS_PROVIDER
  }

  predicate DeclaresDeviceCode(m: PluginManifest) {
    exists c <- m.capabilities :: c.watchSync.Some? && DEVICE_CODE in c.watchSync.value.authMethods
  }

  // ----- Watch sync

  predicate SupportsMediaType(mediaTypes: seq<int>, want: int) {
    want != UNSPECIFIED && want in mediaTypes
  }

  /** A media type this SDK does not define counts as rateable. */
  predicate Rateable(mediaType: int) {
    mediaType == MOVIE || mediaType == SERIES || mediaType !in {UNSPECIFIED, MOVIE, EPISODE, SERIES}
  }

  predicate SettingFits(text: TextLibrary, s: Setting) {
    && IsSlug(s.key)
    && !text.blank(s.labelText)
    && (s.typ == BOOLEAN_SETTING && s.defaultValue.Some? ==> AsInterface(s.defaultValue.value) == GoBool)
  }

  predicate SettingsFit(text: TextLibrary, settings: seq<Option<Setting>>) {
    && (forall s <- settings :: s.Some? ==> SettingFits(text, s.value))
    && forall i, j :: 0 <= i < j < |settings| && settings[i].Some? && settings[j].Some? ==>
         settings[i].value.key != settings[j].value.key
  }

  predicate WatchSyncFits(text: TextLibrary, w: WatchSync) {
    && w.authMethods != [] && UNSPECIFIED !in w.authMethods
    && w.operations != {}
    && (w.providesWatchlistOrder ==> ImportWatchlist in w.operations)
    && 1 <= w.maxBatchSize <= MAX_BATCH_SIZE
    && w.mediaTypes != [] && UNSPECIFIED !in w.mediaTypes
    && (ImportRatings in w.operations || ExportRatings in w.operations ==> exists t <- w.mediaTypes :: Rateable(t))
    && (SyncDropped in w.operations ==> SERIES in w.mediaTypes)
    && (w.ratingExportRequiresWatched != [] ==> ExportRatings in w.operations)
    && (forall t <- w.ratingExportRequiresWatched :: SupportsMediaType(w.mediaTypes, t))
    && (forall n <- w.namespaces :: IsSlug(n))
    && SettingsFit(text, w.settings)
  }

  predicate WatchSyncCapabilityFits(text: TextLibrary, c: Capability) {
    if c.typ != WATCH_SYNC_PROVIDER then c.watchSync.None?
    else IsSlug(c.id) && c.watchSync.Some? && WatchSyncFits(text, c.watchSync.value)
  }

  predicate NetworkAccessFits(c: Capability) {
    if c.typ != NETWORK_ACCESS_PROVIDER then c.networkAccess.None?
    else c.networkAccess.Some? && IsSlug(c.networkAccess.value)
  }

  predicate RouterFits(c: Capability) {
    (c.router.Some? ==> c.typ == REQUEST_ROUTER) && (c.router.Some? ==> c.router.value.wordingAccepted)
  }

  // ----- Manifests

  predicate CapabilityFits(text: TextLibrary, c: Capability) {
    && c.typ != "" && c.id != "" && c.typ in KNOWN_TYPES
    && WatchSyncCapabilityFits(text, c)
    && NetworkAccessFits(c)
    && RouterFits(c)
    && AuthProviderFits(text, c)
  }

  predicate SchemasFit(text: TextLibrary, schemas: seq<Option<Schema>>) {
    forall s <- schemas :: ValidSchema(text.parse, s)
  }

  predicate Valid(text: TextLibrary, m: PluginManifest) {
    && m.pluginId != "" && m.version != "" && m.presentationAccepted
    && BooleanIfPresent(m.metadata, CONFIGURATION_CHECK)
    && (forall c <- m.capabilities :: CapabilityFits(text, c))
    && Paired(m)
    && SchemasFit(text, m.globalConfigSchema) && SchemasFit(text, m.userConfigSchema)
    && (forall c <- m.capabilities :: SchemasFit(text, c.configSchema))
  }

  // ----- What is refused, fault by fault

  predicate AuthFault(text: TextLibrary, c: Capability) {
    || (exists mode <- c.authModes ::
         || text.blank(mode)
         || (mode != "password" && text.fold(mode) == text.fold("password"))
         || (mode != "oauth2" && text.fold(mode) == text.fold("oauth2"))
         || (mode != "network" && text.fold(mode) == text.fold("network")))
    || (exists i, j :: 0 <= i < j < |c.authModes| && c.authModes[i] == c.authModes[j])
    || ("network" in c.authModes && ("password" in c.authModes || "oauth2" in c.authModes))
    || ("connection_test" in c.metadata && !c.metadata["connection_test"].BoolValue?)
  }

  /** Media types are 0 unspecified, 1 movie, 2 episode, 3 series; other numbers are from a newer SDK. */
  ghost predicate WatchSyncFault(text: TextLibrary, w: WatchSync) {
    || w.authMethods == [] || 0 in w.authMethods
    || w.operations == {}
    || (w.providesWatchlistOrder && ImportWatchlist !in w.operations)
    || w.maxBatchSize < 1 || w.maxBatchSize > 1000
    || w.mediaTypes == [] || 0 in w.mediaTypes
    || ((ImportRatings in w.operations || ExportRatings in w.operations) && forall t <- w.mediaTypes :: t == 2)
    || (SyncDropped in w.operations && 3 !in w.mediaTypes)
    || (w.ratingExportRequiresWatched != [] && ExportRatings !in w.operations)
    || (exists t <- w.ratingExportRequiresWatched :: t !in w.mediaTypes)
    || (exists n <- w.namespaces :: !Matches(PATTERN, n))
    || (exists s <- w.settings :: s.Some? && SettingFault(text, s.value))
    || (exists i, j :: 0 <= i < j < |w.settings| && w.settings[i].Some? && w.settings[j].Some?
                       && w.settings[i].value.key == w.settings[j].value.key)
  }

  ghost predicate SettingFault(text: TextLibrary, s: Setting) {
    || !Matches(PATTERN, s.key) || text.blank(s.labelText)
    || (s.typ == 1 && s.defaultValue.Some? && !s.defaultValue.value.BoolValue?)
  }

  ghost predicate CapabilityFault(text: TextLibrary, c: Capability) {
    || c.id == ""
    || c.typ !in {"event_consumer.v1", "http_routes.v1", "scheduled_task.v1", "request_router.v1", "media_analyzer.v1",
                  "auth_provider.v1", "metadata_provider.v1", "image_resolver.v1", "marker_provider.v1",
                  "audiobook_backend.v1", "ebook_backend.v1", "scan_source.v1", "watch_sync_provider.v1",
                  "network_access_provider.v1"}
    || (c.typ == "watch_sync_provider.v1" &&
         (!Matches(PATTERN, c.id) || c.watchSync.None? || WatchSyncFault(text, c.watchSync.value)))
    || (c.typ != "watch_sync_provider.v1" && c.watchSync.Some?)
    || (c.typ == "network_access_provider.v1" &&
         (c.networkAccess.None? || !Matches(PATTERN, c.networkAccess.value)))
    || (c.typ != "network_access_provider.v1" && c.networkAccess.Some?)
    || (c.router.Some? && (c.typ != "request_router.v1" || !c.router.value.wordingAccepted))
    || (c.typ == "auth_provider.v1" && AuthFault(text, c))
  }

  /** A manifest is refused exactly for one of these faults. */
  lemma RefusedManifests(text: TextLibrary, m: PluginManifest)
    ensures !Valid(text, m) <==>
            || m.pluginId == "" || m.version == "" || !m.presentationAccepted
            || ("configuration_check" in m.metadata && !m.metadata["configuration_check"].BoolValue?)
            || (exists c <- m.capabilities :: CapabilityFault(text, c))
            || ((exists c <- m.capabilities :: c.typ == "auth_provider.v1" && "network" in c.authModes)
                && forall c <- m.capabilities :: c.typ != "network_access_provider.v1")
            || (exists s <- m.globalConfigSchema :: !ValidSchema(text.parse, s))
            || (exists s <- m.userConfigSchema :: !ValidSchema(text.parse, s))
            || (exists c <- m.capabilities :: exists s <- c.configSchema :: !ValidSchema(text.parse, s))
  {
    forall c: Capability ensures CapabilityFault(text, c) <==> !CapabilityFits(text, c) {
      FaultyCapability(text, c);
    }
    hide CapabilityFault, CapabilityFits, ValidSchema;
    assert forall c: Capability :: UsesNetworkIdentity(c) <==> c.typ == "auth_provider.v1" && "network" in c.authModes;
  }

  lemma FaultyCapability(text: TextLibrary, c: Capability)
    ensures CapabilityFault(text, c) <==> !CapabilityFits(text, c)
  {
    hide AuthFault, WatchSyncFault, WatchSyncFits, AuthModesFit, Matches, IsSlug;
    PatternIsSlug(c.id);
    if c.watchSync.Some? { FaultyWatchSync(text, c.watchSync.value); }
    if c.networkAccess.Some? { PatternIsSlug(c.networkAccess.value); }
    FaultyAuth(text, c);
    assert c.typ in KNOWN_TYPES ==> c.typ != "";
  }

  lemma FaultyAuth(text: TextLibrary, c: Capability)
    ensures AuthFault(text, c) <==> !(AuthModesFit(text, c.authModes) && BooleanIfPresent(c.metadata, CONNECTION_TEST))
  {
    assert forall mode :: ModeFits(text, mode) <==>
        && !text.blank(mode)
        && (mode != "password" ==> text.fold(mode) != text.fold("password"))
        && (mode != "oauth2" ==> text.fold(mode) != text.fold("oauth2"))
        && (mode != "network" ==> text.fold(mode) != text.fold("network")) by { KnownModes(text); }
    hide ModeFits;
  }

  lemma KnownModes(text: TextLibrary)
    ensures forall mode :: ModeFits(text, mode) <==>
        && !text.blank(mode)
        && (mode != "password" ==> text.fold(mode) != text.fold("password"))
        && (mode != "oauth2" ==> text.fold(mode) != text.fold("oauth2"))
        && (mode != "network" ==> text.fold(mode) != text.fold("network"))
  {
    assert KNOWN_MODES[0] == "password" && KNOWN_MODES[1] == "oauth2" && KNOWN_MODES[2] == "network";
    assert "password" in KNOWN_MODES && "oauth2" in KNOWN_MODES && "network" in KNOWN_MODES;
  }

  lemma FaultyWatchSync(text: TextLibrary, w: WatchSync)
    ensures WatchSyncFault(text, w) <==> !WatchSyncFits(text, w)
  {
    hide Matches, IsSlug;
    forall n <- w.namespaces ensures Matches(PATTERN, n) <==> IsSlug(n) {
      PatternIsSlug(n);
    }
    forall s: Setting ensures SettingFault(text, s) <==> !SettingFits(text, s) {
      PatternIsSlug(s.key);
    }
    hide SettingFault, SettingFits;
    assert 0 !in w.mediaTypes ==>
        ((exists t <- w.mediaTypes :: Rateable(t)) <==> !forall t <- w.mediaTypes :: t == 2);
  }

  // ----- Main results

  /** In a valid manifest a network provider stands alone and comes with its overlay. */
  lemma NetworkModeIsExclusive(text: TextLibrary, m: PluginManifest, c: Capability)
    requires Valid(text, m) && c in m.capabilities && UsesNetworkIdentity(c)
    ensures PASSWORD !in c.authModes && OAUTH2 !in c.authModes
    ensures exists d <- m.capabilities :: d.typ == NETWORK_ACCESS_PROVIDER
  {
    assert CapabilityFits(text, c);
  }

  /** The library knows "network" for a word of its own. */
  predicate TellsNetworkApart(text: TextLibrary) {
    !text.blank(NETWORK) && !EqualFold(text, NETWORK, PASSWORD) && !EqualFold(text, NETWORK, OAUTH2)
  }

  /** Network sign-in with its overlay, and watch sync with device codes. */
  const EXAMPLE := PluginManifest(
    "p", "1", true, map[],
    [Capability(AUTH_PROVIDER, "a", [NETWORK], map[], None, None, None, []),
     Capability(NETWORK_ACCESS_PROVIDER, "n", [], map[], None, Some("n"), None, []),
     Capability(WATCH_SYNC_PROVIDER, "w", [], map[], Some(DEVICE_CODE_SYNC), None, None, [])],
    [], [])

  const DEVICE_CODE_SYNC := WatchSync([DEVICE_CODE], {ExportWatched}, false, 1, [MOVIE], [], [], [])

  lemma ExampleIsValid(text: TextLibrary)
    requires TellsNetworkApart(text)
    ensures Valid(text, EXAMPLE)
  {
    var cs := EXAMPLE.capabilities;
    assert cs[0] in cs && cs[1] in cs;
    assert ModeFits(text, NETWORK);
    assert IsSlug("n") && IsSlug("w");
    assert CapabilityFits(text, cs[0]) && CapabilityFits(text, cs[1]) && CapabilityFits(text, cs[2]);
    assert forall c <- cs :: c == cs[0] || c == cs[1] || c == cs[2];
  }

  lemma ExampleDeclares()
    ensures DeclaresOverlay(EXAMPLE) && DeclaresDeviceCode(EXAMPLE)
  {
    var cs := EXAMPLE.capabilities;
    assert cs[1] in cs && cs[1].typ == NETWORK_ACCESS_PROVIDER;
    assert cs[2] in cs && DEVICE_CODE in cs[2].watchSync.value.authMethods;
  }

  /** `s` with `x` put in at position `at`. */
  function Inserted(s: seq<string>, at: nat, x: string): (t: seq<string>)
    requires at <= |s|
    ensures |t| == |s| + 1 && t[at] == x
    ensures forall k :: 0 <= k < at ==> t[k] == s[k]
    ensures forall k :: at < k < |t| ==> t[k] == s[k - 1]
  {
    s[..at] + [x] + s[at..]
  }

  /** The manifest with one more auth mode, at position `at`, in capability `i`. */
  function WithMode(m: PluginManifest, i: nat, at: nat, mode: string): PluginManifest
    requires i < |m.capabilities| && at <= |m.capabilities[i].authModes|
  {
    var c := m.capabilities[i];
    m.(capabilities := m.capabilities[i := c.(authModes := Inserted(c.authModes, at, mode))])
  }

  lemma InsertedMembers(s: seq<string>, at: nat, x: string)
    requires at <= |s|
    ensures forall y :: y in Inserted(s, at, x) <==> y in s || y == x
  {
    hide Inserted;
    var t := Inserted(s, at, x);
    forall y <- s ensures y in t {
      var k :| 0 <= k < |s| && s[k] == y;
      assert k < at ==> t[k] == y;
      assert k >= at ==> t[k + 1] == y;
    }
  }

  lemma DistinctInsert(s: seq<string>, at: nat, x: string)
    requires at <= |s| && Distinct(s)
    ensures Distinct(Inserted(s, at, x)) <==> x !in s
  {
    hide Inserted;
    var t := Inserted(s, at, x);
    if k :| 0 <= k < |s| && s[k] == x {
      assert k < at ==> t[k] == x;
      assert k >= at ==> t[k + 1] == x;
    }
  }

  /**
   * Open vocabulary. A mode this SDK does not know may join a valid manifest, at any place, exactly
   * when it is not blank, not a known mode in other letters, and not there yet. Only auth providers
   * have their modes looked at.
   */
  lemma OpenVocabulary(text: TextLibrary, m: PluginManifest, i: nat, at: nat, mode: string)
    requires Valid(text, m) && i < |m.capabilities| && at <= |m.capabilities[i].authModes|
    requires mode !in KNOWN_MODES
    ensures Valid(text, WithMode(m, i, at, mode)) <==>
            (m.capabilities[i].typ == AUTH_PROVIDER ==>
              ModeFits(text, mode) && mode !in m.capabilities[i].authModes)
  {
    hide WatchSyncCapabilityFits, NetworkAccessFits, RouterFits, SchemasFit, ModeFits;
    var n := WithMode(m, i, at, mode);
    var c, d := m.capabilities[i], n.capabilities[i];
    assert c in m.capabilities && d in n.capabilities && CapabilityFits(text, c);
    SameButMode(text, c, d);
    assert forall k :: 0 <= k < |m.capabilities| && k != i ==> n.capabilities[k] == m.capabilities[k];
    if c.typ == AUTH_PROVIDER {
      InsertedMembers(c.authModes, at, mode);
      DistinctInsert(c.authModes, at, mode);
    }
    OthersStayValid(text, m, i, d);
  }

  lemma SameButMode(text: TextLibrary, c: Capability, d: Capability)
    requires d == c.(authModes := d.authModes)
    ensures WatchSyncCapabilityFits(text, d) == WatchSyncCapabilityFits(text, c)
    ensures NetworkAccessFits(d) == NetworkAccessFits(c) && RouterFits(d) == RouterFits(c)
  {}

  /** Replacing one capability of a valid manifest leaves validity to that capability alone. */
  lemma OthersStayValid(text: TextLibrary, m: PluginManifest, i: nat, d: Capability)
    requires Valid(text, m) && i < |m.capabilities|
    requires var c := m.capabilities[i];
             d.typ == c.typ && d.configSchema == c.configSchema && (UsesNetworkIdentity(d) ==> UsesNetworkIdentity(c))
    ensures Valid(text, m.(capabilities := m.capabilities[i := d])) <==> CapabilityFits(text, d)
  {
    hide CapabilityFits, SchemasFit;
    var cs := m.capabilities;
    var ds := cs[i := d];
    assert cs[i] in cs && ds[i] == d && d in ds;
    forall e <- ds ensures e == d || e in cs {}
    if j :| 0 <= j < |cs| && cs[j].typ == NETWORK_ACCESS_PROVIDER {
      assert ds[j].typ == NETWORK_ACCESS_PROVIDER && ds[j] in ds;
    }
    assert Paired(m.(capabilities := ds)) by {
      if e :| e in ds && UsesNetworkIdentity(e) {
        assert exists c <- cs :: UsesNetworkIdentity(c) by { assert e in cs || UsesNetworkIdentity(cs[i]); }
      }
    }
  }

  /** Accepted settings have keys in the slug pattern's language, all different. */
  lemma SettingKeys(text: TextLibrary, settings: seq<Option<Setting>>, i: nat, j: nat)
    requires SettingsFit(text, settings) && i < j < |settings| && settings[i].Some? && settings[j].Some?
    ensures Matches(PATTERN, settings[i].value.key) && Matches(PATTERN, settings[j].value.key)
    ensures settings[i].value.key != settings[j].value.key
  {
    assert settings[i] in settings && settings[j] in settings;
    PatternIsSlug(settings[i].value.key);
    PatternIsSlug(settings[j].value.key);
  }

  // ----- The source's own form

  method ValidateAuthProviderCapability(text: TextLibrary, c: Capability) returns (ok: bool)
    ensures ok == AuthProviderFits(text, c)
  {
    if c.typ != AUTH_PROVIDER {
      return true;
    }
    var seen: set<string> := {};
    for i := 0 to |c.authModes|
      invariant forall k :: k in seen <==> k in c.authModes[..i]
      invariant forall j :: 0 <= j < i ==> ModeFits(text, c.authModes[j])
      invariant Distinct(c.authModes[..i])
    {
      var mode := c.authModes[i];
      assert mode in c.authModes;
      assert c.authModes[..i + 1] == c.authModes[..i] + [mode];
      var fits := CheckMode(text, mode);
      if !fits {
        return false;
      }
      if mode in seen {
        var j :| 0 <= j < i && c.authModes[..i][j] == mode;
        assert c.authModes[j] == c.authModes[i];
        return false;
      }
      seen := seen + {mode};
    }
    assert c.authModes[..|c.authModes|] == c.authModes;
    if NETWORK in seen && (PASSWORD in seen || OAUTH2 in seen) {
      return false;
    }
    ok := BooleanIfPresent(c.metadata, CONNECTION_TEST);
  }

  method CheckMode(text: TextLibrary, mode: string) returns (ok: bool)
    ensures ok == ModeFits(text, mode)
  {
    if text.blank(mode) {
      return false;
    }
    for k := 0 to |KNOWN_MODES|
      invariant forall j :: 0 <= j < k ==> mode == KNOWN_MODES[j] || !EqualFold(text, mode, KNOWN_MODES[j])
    {
      if mode != KNOWN_MODES[k] && EqualFold(text, mode, KNOWN_MODES[k]) {
        assert KNOWN_MODES[k] in KNOWN_MODES;
        return false;
      }
    }
    ok := true;
  }

  method ValidateNetworkAuthPairing(m: PluginManifest) returns (ok: bool)
    ensures ok == Paired(m)
  {
    var networkAuth: Option<Capability> := None;
    var hasNetworkAccess := false;
    for i := 0 to |m.capabilities|
      invariant networkAuth.Some? <==> exists j :: 0 <= j < i && UsesNetworkIdentity(m.capabilities[j])
      invariant hasNetworkAccess <==> exists j :: 0 <= j < i && m.capabilities[j].typ == NETWORK_ACCESS_PROVIDER
    {
      var c := m.capabilities[i];
      if UsesNetworkIdentity(c) && networkAuth.None? {
        networkAuth := Some(c);
      }
      if c.typ == NETWORK_ACCESS_PROVIDER {
        hasNetworkAccess := true;
      }
    }
    ok := networkAuth.None? || hasNetworkAccess;
  }

  method ValidateConnectionSettings(text: TextLibrary, settings: seq<Option<Setting>>) returns (ok: bool)
    ensures ok == SettingsFit(text, settings)
  {
    var seen: set<string> := {};
    for i := 0 to |settings|
      invariant forall k :: k in seen <==> exists j :: 0 <= j < i && settings[j].Some? && settings[j].value.key == k
      invariant SettingsFit(text, settings[..i])
    {
      assert settings[..i + 1] == settings[..i] + [settings[i]];
      if settings[i].Some? {
        var s := settings[i].value;
        assert settings[i] in settings;
        if !IsSlug(s.key) || s.key in seen || text.blank(s.labelText) {
          return false;
        }
        seen := seen + {s.key};
        if s.typ == BOOLEAN_SETTING && s.defaultValue.Some? && AsInterface(s.defaultValue.value) != GoBool {
          return false;
        }
      }
    }
    assert settings[..|settings|] == settings;
    ok := true;
  }

  method SupportsRatedMediaType(mediaTypes: seq<int>) returns (yes: bool)
    ensures yes <==> exists t <- mediaTypes :: Rateable(t)
  {
    for i := 0 to |mediaTypes|
      invariant forall j :: 0 <= j < i ==> !Rateable(mediaTypes[j])
    {
      if mediaTypes[i] == MOVIE || mediaTypes[i] == SERIES || mediaTypes[i] !in {UNSPECIFIED, MOVIE, EPISODE, SERIES} {
        assert Rateable(mediaTypes[i]);
        return true;
      }
    }
    yes := false;
  }

  method ValidateWatchSyncCapability(text: TextLibrary, c: Capability) returns (ok: bool)
    ensures ok == WatchSyncCapabilityFits(text, c)
  {
    if c.typ != WATCH_SYNC_PROVIDER {
      return c.watchSync.None?;
    }
    if !IsSlug(c.id) || c.watchSync.None? {
      return false;
    }
    var w := c.watchSync.value;
    if |w.authMethods| == 0 || UNSPECIFIED in w.authMethods || w.operations == {} {
      return false;
    }
    if w.providesWatchlistOrder && ImportWatchlist !in w.operations {
      return false;
    }
    if w.maxBatchSize < 1 || w.maxBatchSize > MAX_BATCH_SIZE {
      return false;
    }
    if |w.mediaTypes| == 0 || UNSPECIFIED in w.mediaTypes {
      return false;
    }
    var rated := SupportsRatedMediaType(w.mediaTypes);
    if (ImportRatings in w.operations || ExportRatings in w.operations) && !rated {
      return false;
    }
    if SyncDropped in w.operations && !SupportsMediaType(w.mediaTypes, SERIES) {
      return false;
    }
    if |w.ratingExportRequiresWatched| > 0 && ExportRatings !in w.operations {
      return false;
    }
    for i := 0 to |w.ratingExportRequiresWatched|
      invariant forall j :: 0 <= j < i ==> SupportsMediaType(w.mediaTypes, w.ratingExportRequiresWatched[j])
    {
      if !SupportsMediaType(w.mediaTypes, w.ratingExportRequiresWatched[i]) {
        return false;
      }
    }
    for i := 0 to |w.namespaces|
      invariant forall j :: 0 <= j < i ==> IsSlug(w.namespaces[j])
    {
      if !IsSlug(w.namespaces[i]) {
        return false;
      }
    }
    ok := ValidateConnectionSettings(text, w.settings);
  }

  method ValidateSchemas(text: TextLibrary, schemas: seq<Option<Schema>>) returns (ok: bool)
    ensures ok == SchemasFit(text, schemas)
  {
    for i := 0 to |schemas|
      invariant forall j :: 0 <= j < i ==> ValidSchema(text.parse, schemas[j])
    {
      ok := ValidateConfigSchema(text.parse, schemas[i]);
      if !ok {
        assert schemas[i] in schemas;
        return;
      }
    }
    ok := true;
  }

  method ValidateCapability(text: TextLibrary, c: Capability) returns (ok: bool)
    ensures ok == CapabilityFits(text, c)
  {
    if c.typ == "" || c.id == "" || c.typ !in KNOWN_TYPES {
      return false;
    }
    ok := ValidateWatchSyncCapability(text, c);
    if !ok || !NetworkAccessFits(c) || !RouterFits(c) {
      return false;
    }
    ok := ValidateAuthProviderCapability(text, c);
  }

  method Validate(text: TextLibrary, manifest: Option<PluginManifest>) returns (ok: bool)
    ensures ok <==> manifest.Some? && Valid(text, manifest.value)
  {
    hide CapabilityFits, SchemasFit, Paired;
    if manifest.None? {
      return false;
    }
    var m := manifest.value;
    if m.pluginId == "" || m.version == "" || !m.presentationAccepted {
      return false;
    }
    if CONFIGURATION_CHECK in m.metadata && !m.metadata[CONFIGURATION_CHECK].BoolValue? {
      return false;
    }
    for i := 0 to |m.capabilities|
      invariant forall j :: 0 <= j < i ==> CapabilityFits(text, m.capabilities[j])
    {
      ok := ValidateCapability(text, m.capabilities[i]);
      if !ok {
        assert m.capabilities[i] in m.capabilities;
        return;
      }
    }
    ok := ValidateNetworkAuthPairing(m);
    if !ok {
      return;
    }
    ok := ValidateSchemas(text, m.globalConfigSchema);
    if !ok {
      return;
    }
    ok := ValidateSchemas(text, m.userConfigSchema);
    if !ok {
      return;
    }
    for i := 0 to |m.capabilities|
      invariant forall j :: 0 <= j < i ==> SchemasFit(text, m.capabilities[j].configSchema)
    {
      ok := ValidateSchemas(text, m.capabilities[i].configSchema);
      if !ok {
        assert m.capabilities[i] in m.capabilities;
        return;
      }
    }
    ok := true;
  }
}
