/**
 Resolution of a bearer token to a class and a namespace
 (`authorizedAccess`, `token` and `authorize` in internal/server/server.go).
 */
module Access {
  import opened Objects

  /** `nameOf` stands for `sandboxName`; nothing is assumed of it, so names may collide. */
  datatype Config = Config(
    namespace: string,
    className: string,
    token: string,
    tokenSecretName: string,
    nameOf: string -> string)

  /** What `New` insists on. */
  predicate ValidConfig(cfg: Config) {
    cfg.namespace != "" && cfg.className != ""
  }

  datatype Grant = Grant(className: string, namespace: string)

  const NO_GRANT := Grant("", "")

  datatype AccessResult = Granted(grant: Grant) | Unavailable

  const ACCESS_LABEL_VALUE := "true"

  predicate TokenMatches(got: string, expected: string) {
    got != "" && got == expected
  }

  /** A missing key reads as the empty string. */
  function Field(secret: Secret, key: DataKey): string {
    if key in secret.data then secret.data[key] else ""
  }

  function GrantOf(secret: Secret): Grant {
    Grant(Field(secret, ClassNameData), Field(secret, NamespaceData))
  }

  predicate Incomplete(g: Grant) {
    g.className == "" || g.namespace == ""
  }

  /** The default token, from the configuration or the token secret. */
  function DefaultToken(cfg: Config, s: Store): Option<string> {
    if cfg.token != "" then Some(cfg.token)
    else
      var key := Key(cfg.namespace, cfg.tokenSecretName);
      if key !in s.secrets || Field(s.secrets[key], TokenData) == "" then None
      else Some(Field(s.secrets[key], TokenData))
  }

  predicate IsAccessSecret(cfg: Config, key: Key, secret: Secret) {
    && key.namespace == cfg.namespace
    && AccessKey in secret.labels && secret.labels[AccessKey] == ACCESS_LABEL_VALUE
  }

  function AccessSecrets(cfg: Config, s: Store): set<Secret> {
    set k | k in s.secrets && IsAccessSecret(cfg, k, s.secrets[k]) :: s.secrets[k]
  }

  function MatchingGrants(secrets: set<Secret>, got: string): set<Grant> {
    set x | x in secrets && TokenMatches(got, Field(x, TokenData)) :: GrantOf(x)
  }

  /**
   The order-free meaning of the scan: it fails when a matching secret is incomplete or two
   matching secrets disagree, and otherwise yields the common grant, or none.
   */
  ghost function Resolve(grants: set<Grant>): AccessResult {
    if exists g :: g in grants && Incomplete(g) then Unavailable
    else if exists g, h :: g in grants && h in grants && g != h then Unavailable
    else if grants == {} then Granted(NO_GRANT)
    else
      var g :| g in grants;
      Granted(g)
  }

  function Elements(items: seq<Secret>): set<Secret> {
    set x | x in items
  }

  lemma ResolveSingle(grants: set<Grant>, g: Grant)
    requires grants == {g} && !Incomplete(g)
    ensures Resolve(grants) == Granted(g)
  {
  }

  /** The scan over the listed secrets, in whatever order the list call returned them. */
  method ScanAccessSecrets(items: seq<Secret>, got: string) returns (r: AccessResult)
    ensures r == Resolve(MatchingGrants(Elements(items), got))
  {
    ghost var all := MatchingGrants(Elements(items), got);
    var matched := NO_GRANT;
    for i := 0 to |items|
      invariant matched == NO_GRANT || !Incomplete(matched)
      invariant MatchingGrants(Elements(items[..i]), got) == if matched == NO_GRANT then {} else {matched}
    {
      ghost var before := MatchingGrants(Elements(items[..i]), got);
      ghost var after := MatchingGrants(Elements(items[..i + 1]), got);
      assert forall x :: x in items[..i + 1] <==> x in items[..i] || x == items[i];
      assert forall x :: x in items[..i + 1] ==> x in items;
      assert after <= all;
      if TokenMatches(got, Field(items[i], TokenData)) {
        var candidate := GrantOf(items[i]);
        assert after == before + {candidate};
        if Incomplete(candidate) || (matched.className != "" && matched != candidate) {
          assert candidate in all && (matched != NO_GRANT ==> matched in all);
          return Unavailable;
        }
        matched := candidate;
      } else {
        assert after == before;
      }
    }
    assert items[..|items|] == items;
    if matched != NO_GRANT {
      ResolveSingle(all, matched);
    }
    return Granted(matched);
  }

  /** What a token is worth in a store. */
  ghost function AuthorizedAccess(cfg: Config, s: Store, got: string): AccessResult {
    var expected := DefaultToken(cfg, s);
    if expected.None? then Unavailable
    else if TokenMatches(got, expected.value) then Granted(Grant(cfg.className, cfg.namespace))
    else Resolve(MatchingGrants(AccessSecrets(cfg, s), got))
  }

  /** The whole resolution; `items` is what the list call returned. */
  method ResolveToken(cfg: Config, s: Store, items: seq<Secret>, got: string) returns (r: AccessResult)
    requires Elements(items) == AccessSecrets(cfg, s)
    ensures r == AuthorizedAccess(cfg, s, got)
  {
    var expected := DefaultToken(cfg, s);
    if expected.None? {
      return Unavailable;
    }
    if TokenMatches(got, expected.value) {
      return Granted(Grant(cfg.className, cfg.namespace));
    }
    r := ScanAccessSecrets(items, got);
  }

  /** Both exact error conditions of the scan, spelled out over the stored secrets. */
  lemma ErrsExactlyOnBadSecrets(cfg: Config, s: Store, got: string)
    requires DefaultToken(cfg, s).Some? && !TokenMatches(got, DefaultToken(cfg, s).value)
    ensures
      AuthorizedAccess(cfg, s, got).Unavailable? <==>
      || (exists x :: x in AccessSecrets(cfg, s) && TokenMatches(got, Field(x, TokenData)) && Incomplete(GrantOf(x)))
      || (exists x, y :: x in AccessSecrets(cfg, s) && y in AccessSecrets(cfg, s)
                         && TokenMatches(got, Field(x, TokenData)) && TokenMatches(got, Field(y, TokenData))
                         && GrantOf(x) != GrantOf(y))
  {
    var grants := MatchingGrants(AccessSecrets(cfg, s), got);
    assert forall x :: x in AccessSecrets(cfg, s) && TokenMatches(got, Field(x, TokenData)) ==> GrantOf(x) in grants;
    assert forall g :: g in grants ==>
      exists x :: x in AccessSecrets(cfg, s) && TokenMatches(got, Field(x, TokenData)) && GrantOf(x) == g;
  }

  /** A stored access secret of the configured namespace that carries the token. */
  predicate Carries(cfg: Config, s: Store, k: Key, got: string) {
    && k in s.secrets && k.namespace == cfg.namespace
    && AccessKey in s.secrets[k].labels && s.secrets[k].labels[AccessKey] == "true"
    && TokenData in s.secrets[k].data && s.secrets[k].data[TokenData] == got
  }

  /** Both entries of the secret are there, and they are these. */
  predicate Names(secret: Secret, className: string, namespace: string) {
    && ClassNameData in secret.data && secret.data[ClassNameData] == className
    && NamespaceData in secret.data && secret.data[NamespaceData] == namespace
  }

  lemma MatchingIsCarried(cfg: Config, s: Store, got: string, g: Grant)
    requires got != ""
    ensures g in MatchingGrants(AccessSecrets(cfg, s), got)
            <==> exists k :: Carries(cfg, s, k, got) && GrantOf(s.secrets[k]) == g
  {
    if g in MatchingGrants(AccessSecrets(cfg, s), got) {
      var x :| x in AccessSecrets(cfg, s) && TokenMatches(got, Field(x, TokenData)) && GrantOf(x) == g;
      var k :| k in s.secrets && IsAccessSecret(cfg, k, s.secrets[k]) && s.secrets[k] == x;
      assert Carries(cfg, s, k, got);
    }
    if k :| Carries(cfg, s, k, got) && GrantOf(s.secrets[k]) == g {
      assert s.secrets[k] in AccessSecrets(cfg, s);
    }
  }

  lemma ResolvesToIff(grants: set<Grant>, g: Grant)
    requires !Incomplete(g)
    ensures Resolve(grants) == Granted(g) <==> grants == {g}
  {
    if grants == {g} {
      ResolveSingle(grants, g);
    } else if g in grants {
      var h :| h in grants && h != g;
    }
  }

  lemma SingleGrantIff(cfg: Config, s: Store, got: string, g: Grant)
    requires got != ""
    ensures
      MatchingGrants(AccessSecrets(cfg, s), got) == {g}
      <==> (exists k :: Carries(cfg, s, k, got)) && forall k :: Carries(cfg, s, k, got) ==> GrantOf(s.secrets[k]) == g
  {
    var grants := MatchingGrants(AccessSecrets(cfg, s), got);
    forall h: Grant
      ensures h in grants <==> exists k :: Carries(cfg, s, k, got) && GrantOf(s.secrets[k]) == h
    {
      MatchingIsCarried(cfg, s, got, h);
    }
    hide MatchingGrants, AccessSecrets, Carries, GrantOf;
    assert forall k :: Carries(cfg, s, k, got) ==> GrantOf(s.secrets[k]) in grants;
    if grants == {g} {
      assert g in grants;
    }
  }

  lemma NamesIff(secret: Secret, className: string, namespace: string)
    requires className != "" && namespace != ""
    ensures Names(secret, className, namespace) <==> GrantOf(secret) == Grant(className, namespace)
  {
  }

  /**
   Past the default token, a token is worth a class and a namespace exactly when some access secret
   carries it and every one that does names this class and this namespace.
   */
  lemma GrantsExactlyWhatSecretsName(cfg: Config, s: Store, got: string, className: string, namespace: string)
    requires DefaultToken(cfg, s).Some? && got != DefaultToken(cfg, s).value
    requires className != "" && namespace != ""
    ensures
      AuthorizedAccess(cfg, s, got) == Granted(Grant(className, namespace))
      <==> && got != "" && (exists k :: Carries(cfg, s, k, got))
           && (forall k :: Carries(cfg, s, k, got) ==> Names(s.secrets[k], className, namespace))
  {
    var g := Grant(className, namespace);
    ResolvesToIff(MatchingGrants(AccessSecrets(cfg, s), got), g);
    if got == "" {
      assert MatchingGrants(AccessSecrets(cfg, s), got) == {};
    } else {
      SingleGrantIff(cfg, s, got, g);
      forall k | Carries(cfg, s, k, got)
        ensures Names(s.secrets[k], className, namespace) <==> GrantOf(s.secrets[k]) == g
      {
        NamesIff(s.secrets[k], className, namespace);
      }
      hide Resolve, MatchingGrants, AccessSecrets, Carries, Names, GrantOf;
    }
  }

  /** A token that no access secret carries is worth nothing, and the default token the configured pair. */
  lemma OtherTokens(cfg: Config, s: Store, got: string)
    requires DefaultToken(cfg, s).Some?
    ensures got != "" && got == DefaultToken(cfg, s).value ==>
      AuthorizedAccess(cfg, s, got) == Granted(Grant(cfg.className, cfg.namespace))
    ensures got != DefaultToken(cfg, s).value ==>
      (AuthorizedAccess(cfg, s, got) == Granted(Grant("", "")) <==> got == "" || forall k :: !Carries(cfg, s, k, got))
  {
    var grants := MatchingGrants(AccessSecrets(cfg, s), got);
    if got != "" {
      forall h: Grant
        ensures h in grants <==> exists k :: Carries(cfg, s, k, got) && GrantOf(s.secrets[k]) == h
      {
        MatchingIsCarried(cfg, s, got, h);
      }
      assert forall k :: Carries(cfg, s, k, got) ==> GrantOf(s.secrets[k]) in grants;
    }
  }

  /** The default token is the configured one, or else the non-empty one of the token secret. */
  lemma DefaultTokenIs(cfg: Config, s: Store, token: string)
    ensures
      var q := Key(cfg.namespace, cfg.tokenSecretName);
      DefaultToken(cfg, s) == Some(token) <==>
      || (cfg.token != "" && token == cfg.token)
      || (&& cfg.token == "" && token != "" && q in s.secrets
          && TokenData in s.secrets[q].data && s.secrets[q].data[TokenData] == token)
  {
  }

  /** A result is never half empty: it names both a class and a namespace, or neither. */
  lemma GrantIsWholeOrEmpty(cfg: Config, s: Store, got: string)
    requires ValidConfig(cfg)
    requires AuthorizedAccess(cfg, s, got).Granted?
    ensures
      var g := AuthorizedAccess(cfg, s, got).grant;
      g == NO_GRANT || !Incomplete(g)
  {
  }

  /** The grant a request acts under; none when `authorize` answers 401 or 503. */
  ghost function Authorize(cfg: Config, s: Store, got: string): Option<Grant> {
    var r := AuthorizedAccess(cfg, s, got);
    if r.Unavailable? || Incomplete(r.grant) then None else Some(r.grant)
  }

  /** A request is let through exactly under a result that names a class and a namespace. */
  lemma AuthorizedIff(cfg: Config, s: Store, got: string, className: string, namespace: string)
    ensures
      Authorize(cfg, s, got) == Some(Grant(className, namespace)) <==>
      AuthorizedAccess(cfg, s, got) == Granted(Grant(className, namespace)) && className != "" && namespace != ""
  {
  }
}
