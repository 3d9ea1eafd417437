/** Registry authentication (`src/registry/auth.rs`): users with
    repository-pattern permissions, scope strings, and the self-contained
    tokens the registry issues and checks. Password hashing, the token
    encoding (JSON then base64) and the clock are parameters. */
module RegistryAuth {
  import opened Common

  datatype AuthConfig = AuthConfig(enabled: bool, realm: string, service: string, issuer: string, tokenExpiry: nat)

  /** `AuthConfig::default`. */
  function DefaultAuthConfig(): (c: AuthConfig)
    ensures !c.enabled && c.tokenExpiry == 3600
    ensures c.realm == "Rune Registry" && c.service == "rune-registry" && c.issuer == "rune"
  {
    AuthConfig(false, "Rune Registry", "rune-registry", "rune", 3600)
  }

  datatype Action = Pull | Push | Delete

  /** Actions granted on the repositories a pattern matches. */
  datatype Permission = Permission(repository: string, actions: seq<Action>)

  datatype User = User(username: string, passwordHash: string, permissions: seq<Permission>)

  /** One `type:name:actions` entry of a scope. */
  datatype AccessClaim = AccessClaim(resourceType: string, name: string, actions: seq<string>)

  datatype TokenClaim = TokenClaim(
    iss: string, sub: string, aud: string,
    exp: nat, nbf: nat, iat: nat,
    jti: string, access: seq<AccessClaim>)

  datatype TokenResponse = TokenResponse(token: string, accessToken: string, expiresIn: nat, issuedAt: string)

  // ---------------------------------------------------------------------
  // Repository patterns

  /** `matches_repository` as written: `*` matches everything, a pattern
      ending in slash-star matches every repository that starts with the text
      before that suffix, and any other pattern only itself. */
  predicate MatchesRepositoryAsWritten(pattern: string, repository: string)
  {
    if pattern == "*" then true
    else if IsSuffix("/*", pattern) then IsPrefix(pattern[..|pattern| - 2], repository)
    else pattern == repository
  }

  /** The prefix test drops the `/` as well as the `*`, so a namespace
      pattern also matches sibling repositories whose name merely starts
      with the namespace's name. */
  lemma NamespacePatternLeaks()
    ensures MatchesRepositoryAsWritten("library/*", "library-private/app")
    ensures !IsPrefix("library/", "library-private/app")
  {
    assert "library/*"[..7] == "library";
    assert "library-private/app"[..7] == "library";
    assert "library-private/app"[..8][7] == '-';
  }

  /** The evidently intended matching: a namespace pattern `ns` + slash-star covers exactly the
      repositories inside namespace `ns/`. */
  predicate MatchesRepository(pattern: string, repository: string)
  {
    if pattern == "*" then true
    else if IsSuffix("/*", pattern) then IsPrefix(pattern[..|pattern| - 1], repository)
    else pattern == repository
  }

  /** a lone star matches all; `ns` + slash-star matches a repository iff it lies under `ns/`;
      any other pattern matches only the identical name. */
  lemma MatchesRepositorySpec(pattern: string, repository: string)
    ensures pattern == "*" ==> MatchesRepository(pattern, repository)
    ensures forall ns :: pattern == ns + "/*" ==>
      (MatchesRepository(pattern, repository) <==> IsPrefix(ns + "/", repository))
    ensures pattern != "*" && !IsSuffix("/*", pattern) ==>
      (MatchesRepository(pattern, repository) <==> pattern == repository)
  {
    forall ns | pattern == ns + "/*"
      ensures MatchesRepository(pattern, repository) <==> IsPrefix(ns + "/", repository)
    {
      assert pattern[|pattern| - 2..] == "/*";
      assert pattern[..|pattern| - 1] == ns + "/";
      assert |pattern| == |ns| + 2;
    }
  }

  /** The intended matching never admits more than the written one. */
  lemma MatchesRepositoryNarrower(pattern: string, repository: string)
    requires MatchesRepository(pattern, repository)
    ensures MatchesRepositoryAsWritten(pattern, repository)
  {
    if pattern != "*" && IsSuffix("/*", pattern) {
      PrefixTrans(pattern[..|pattern| - 2], pattern[..|pattern| - 1], repository);
    }
  }

  /** A permission grants an action on a repository, as `is_allowed`
      decides it (with the matching as written). */
  predicate Grants(p: Permission, repository: string, action: Action)
  {
    MatchesRepositoryAsWritten(p.repository, repository) && action in p.actions
  }

  /** The same decision with the intended namespace matching. */
  predicate GrantsIntended(p: Permission, repository: string, action: Action)
  {
    MatchesRepository(p.repository, repository) && action in p.actions
  }

  // ---------------------------------------------------------------------
  // Scopes

  /** The claims of the space-separated scope entries that have at least
      three `:`-separated fields; the third field is split on `,`. */
  function ScopeClaims(entries: seq<string>): (r: seq<AccessClaim>)
    ensures |r| <= |entries|
    ensures forall k :: 0 <= k < |r| ==>
      ':' !in r[k].resourceType && ':' !in r[k].name && |r[k].actions| >= 1
    decreases |entries|
  {
    if entries == [] then []
    else
      var fields := Split(entries[0], ':');
      var rest := ScopeClaims(entries[1..]);
      if |fields| >= 3 then [AccessClaim(fields[0], fields[1], Split(fields[2], ','))] + rest
      else rest
  }

  /** `parse_scope`. */
  function ParseScope(scope: string): (r: seq<AccessClaim>)
    ensures forall k :: 0 <= k < |r| ==> ' ' !in r[k].resourceType && ' ' !in r[k].name
  {
    var entries := Split(scope, ' ');
    ScopeClaimsFrom(entries);
    ScopeClaims(entries)
  }

  lemma {:induction false} ScopeClaimsFrom(entries: seq<string>)
    requires forall i :: 0 <= i < |entries| ==> ' ' !in entries[i]
    ensures forall k :: 0 <= k < |ScopeClaims(entries)| ==>
      ' ' !in ScopeClaims(entries)[k].resourceType && ' ' !in ScopeClaims(entries)[k].name
    decreases |entries|
  {
    if entries != [] {
      ScopeClaimsFrom(entries[1..]);
      var fields := Split(entries[0], ':');
      if |fields| >= 3 {
        NotInJoin(fields, ':', ' ');
        var rest := ScopeClaims(entries[1..]);
        var c := AccessClaim(fields[0], fields[1], Split(fields[2], ','));
        assert ScopeClaims(entries) == [c] + rest;
      }
    }
  }

  /** A claim that survives formatting: its fields hold no separator and it
      names at least one action. */
  predicate Printable(c: AccessClaim)
  {
    && ' ' !in c.resourceType && ':' !in c.resourceType
    && ' ' !in c.name && ':' !in c.name
    && |c.actions| >= 1
    && forall i :: 0 <= i < |c.actions| ==> ' ' !in c.actions[i] && ':' !in c.actions[i] && ',' !in c.actions[i]
  }

  function ClaimText(c: AccessClaim): string
  {
    c.resourceType + ":" + c.name + ":" + Join(c.actions, ',')
  }

  function ClaimTexts(cs: seq<AccessClaim>): (r: seq<string>)
    ensures |r| == |cs|
    ensures forall k :: 0 <= k < |cs| ==> r[k] == ClaimText(cs[k])
  {
    if cs == [] then [] else [ClaimText(cs[0])] + ClaimTexts(cs[1..])
  }

  /** The scope string of a list of claims. */
  function FormatScope(cs: seq<AccessClaim>): (r: string)
    ensures cs != [] && (forall k :: 0 <= k < |cs| ==> Printable(cs[k])) ==> Split(r, ' ') == ClaimTexts(cs)
  {
    if cs != [] && (forall k :: 0 <= k < |cs| ==> Printable(cs[k])) then
      ClaimTextsSpaceFree(cs);
      SplitJoin(ClaimTexts(cs), ' ');
      Join(ClaimTexts(cs), ' ')
    else Join(ClaimTexts(cs), ' ')
  }

  /** The text of a printable claim holds no space. */
  lemma ClaimTextsSpaceFree(cs: seq<AccessClaim>)
    requires forall k :: 0 <= k < |cs| ==> Printable(cs[k])
    ensures forall i :: 0 <= i < |cs| ==> ' ' !in ClaimTexts(cs)[i]
  {
    forall i | 0 <= i < |cs| ensures ' ' !in ClaimTexts(cs)[i] { ClaimTextFields(cs[i]); }
  }

  lemma ClaimTextFields(c: AccessClaim)
    requires Printable(c)
    ensures Split(ClaimText(c), ':') == [c.resourceType, c.name, Join(c.actions, ',')]
    ensures ' ' !in ClaimText(c)
  {
    NotInJoin(c.actions, ',', ':');
    NotInJoin(c.actions, ',', ' ');
    var parts := [c.resourceType, c.name, Join(c.actions, ',')];
    assert Join(parts, ':') == ClaimText(c) by {
      assert Join(parts[2..], ':') == parts[2];
    }
    SplitJoin(parts, ':');
    NotInJoin(parts, ':', ' ');
  }

  lemma {:induction false} ScopeClaimsTexts(cs: seq<AccessClaim>)
    requires forall k :: 0 <= k < |cs| ==> Printable(cs[k])
    ensures ScopeClaims(ClaimTexts(cs)) == cs
    decreases |cs|
  {
    if cs != [] {
      var c := cs[0];
      ClaimTextFields(c);
      SplitJoin(c.actions, ',');
      ScopeClaimsTexts(cs[1..]);
      assert ClaimTexts(cs)[1..] == ClaimTexts(cs[1..]);
      assert cs == [c] + cs[1..];
    }
  }

  /** Parsing a formatted scope gives back its claims. */
  lemma ParseFormatScope(cs: seq<AccessClaim>)
    requires forall k :: 0 <= k < |cs| ==> Printable(cs[k])
    ensures ParseScope(FormatScope(cs)) == cs
  {
    var texts := ClaimTexts(cs);
    if cs == [] {
      assert Split("", ' ') == [""];
      assert Split("", ':') == [""];
    } else {
      forall i | 0 <= i < |texts| ensures ' ' !in texts[i] { ClaimTextFields(cs[i]); }
      SplitJoin(texts, ' ');
      ScopeClaimsTexts(cs);
    }
  }

  // ---------------------------------------------------------------------
  // Tokens

  /** `verify_token`: a token that does not decode is refused; so is one
      past its expiry or before its start. */
  function VerifyToken(token: string, now: nat, decode: string -> Result<TokenClaim>): (r: Result<TokenClaim>)
    ensures r.Ok? <==> decode(token).Ok? && decode(token).value.nbf <= now <= decode(token).value.exp
    ensures r.Ok? ==> r.value == decode(token).value
    ensures decode(token).Ok? && decode(token).value.exp < now ==> r == Err(PermissionDenied("Token expired"))
    ensures decode(token).Ok? && now <= decode(token).value.exp && decode(token).value.nbf > now ==>
      r == Err(PermissionDenied("Token not yet valid"))
  {
    match decode(token)
    case Err(e) => Err(e)
    case Ok(claim) =>
      if claim.exp < now then Err(PermissionDenied("Token expired"))
      else if claim.nbf > now then Err(PermissionDenied("Token not yet valid"))
      else Ok(claim)
  }

  class Auth {
    const config: AuthConfig
    /** `bcrypt::verify(password, hash)`. */
    const verifyPassword: (string, string) -> bool
    var users: map<string, User>

    constructor(config: AuthConfig, verifyPassword: (string, string) -> bool)
      ensures this.config == config && this.verifyPassword == verifyPassword && users == map[]
    {
      this.config := config;
      this.verifyPassword := verifyPassword;
      users := map[];
    }

    /** `add_user`; `passwordHash` is the salted hash of the password,
        computed by the caller. */
    method AddUser(username: string, passwordHash: string, permissions: seq<Permission>)
      modifies this
      ensures users == old(users)[username := User(username, passwordHash, permissions)]
    {
      users := users[username := User(username, passwordHash, permissions)];
    }

    method RemoveUser(username: string)
      modifies this
      ensures users == old(users) - {username}
    {
      users := users - {username};
    }

    function Credentials(username: string, password: string): bool
      reads this
    {
      username in users && verifyPassword(password, users[username].passwordHash)
    }

    /** `verify_credentials`: an unknown user is refused. */
    method VerifyCredentials(username: string, password: string) returns (ok: bool)
      ensures ok <==> username in users && verifyPassword(password, users[username].passwordHash)
    {
      if username in users {
        ok := verifyPassword(password, users[username].passwordHash);
      } else {
        ok := false;
      }
    }

    /** Whether some permission of the user grants the action on the repository. */
    predicate Allowed(username: string, repository: string, action: Action)
      reads this
    {
      username in users
      && exists i :: 0 <= i < |users[username].permissions| && Grants(users[username].permissions[i], repository, action)
    }

    /** Whether some permission of the user grants the action under the
        intended namespace matching. */
    predicate AllowedIntended(username: string, repository: string, action: Action)
      reads this
    {
      username in users
      && exists i :: 0 <= i < |users[username].permissions| && GrantsIntended(users[username].permissions[i], repository, action)
    }

    /** The intended decision never allows more than the program's. */
    lemma AllowedIntendedNarrower(username: string, repository: string, action: Action)
      requires AllowedIntended(username, repository, action)
      ensures Allowed(username, repository, action)
    {
      var i :| 0 <= i < |users[username].permissions| && GrantsIntended(users[username].permissions[i], repository, action);
      MatchesRepositoryNarrower(users[username].permissions[i].repository, repository);
      assert Grants(users[username].permissions[i], repository, action);
    }

    // A user whose one permission is Pull on the namespace pattern of
    // `library` is allowed to pull `library-private/app`, which the
    // intended matching refuses.
    lemma NamespaceGrantLeaks(username: string)
      requires username in users
      requires |users[username].permissions| == 1
      requires users[username].permissions[0] == Permission("library/*", [Pull])
      ensures Allowed(username, "library-private/app", Pull)
      ensures !AllowedIntended(username, "library-private/app", Pull)
    {
      NamespacePatternLeaks();
      assert Grants(users[username].permissions[0], "library-private/app", Pull);
      MatchesRepositorySpec("library/*", "library-private/app");
      assert "library/*" == "library" + "/*";
    }

    /** `is_allowed`: scans the user's permissions for one that grants the
        action; an unknown user is allowed nothing. */
    method IsAllowed(username: string, repository: string, action: Action) returns (r: bool)
      ensures r <==> Allowed(username, repository, action)
      ensures username !in users ==> !r
    {
      if username !in users {
        return false;
      }
      var perms := users[username].permissions;
      var i := 0;
      while i < |perms|
        invariant 0 <= i <= |perms|
        invariant forall j :: 0 <= j < i ==> !Grants(perms[j], repository, action)
        decreases |perms| - i
      {
        if MatchesRepositoryAsWritten(perms[i].repository, repository) && action in perms[i].actions {
          return true;
        }
        i := i + 1;
      }
      r := false;
    }

    /** The claim `generate_token` issues at time `now`. */
    function TokenFor(username: string, scope: string, now: nat, jti: string): (c: TokenClaim)
      ensures c.sub == username && c.iss == config.issuer && c.aud == config.service
      ensures c.nbf == c.iat == now && c.exp == now + config.tokenExpiry
      ensures c.access == ParseScope(scope)
    {
      TokenClaim(config.issuer, username, config.service, now + config.tokenExpiry, now, now, jti, ParseScope(scope))
    }

    /** `generate_token`: the encoded claim as both token fields. */
    function GenerateToken(username: string, scope: string, now: nat, jti: string, issuedAt: string,
                           encode: TokenClaim -> string): (r: TokenResponse)
      ensures r.token == r.accessToken == encode(TokenFor(username, scope, now, jti))
      ensures r.expiresIn == config.tokenExpiry
    {
      var token := encode(TokenFor(username, scope, now, jti));
      TokenResponse(token, token, config.tokenExpiry, issuedAt)
    }

    /** A token issued at `now` verifies, to the issued claim, at every time
        from `now` to its expiry, and at no later time. */
    lemma TokenRoundTrip(username: string, scope: string, now: nat, jti: string, issuedAt: string,
                         encode: TokenClaim -> string, decode: string -> Result<TokenClaim>, t: nat)
      requires forall c :: decode(encode(c)) == Ok(c)
      ensures var token := GenerateToken(username, scope, now, jti, issuedAt, encode).token;
        && (now <= t <= now + config.tokenExpiry ==>
              VerifyToken(token, t, decode) == Ok(TokenFor(username, scope, now, jti)))
        && (t > now + config.tokenExpiry ==> VerifyToken(token, t, decode) == Err(PermissionDenied("Token expired")))
    {
      var c := TokenFor(username, scope, now, jti);
      assert decode(encode(c)) == Ok(c);
    }

    /** `www_authenticate`: the realm and service, then the scope when given. */
    function WwwAuthenticate(scope: Option<string>): (r: string)
      ensures var base := "Bearer realm=\"" + config.realm + "\",service=\"" + config.service + "\"";
        && IsPrefix(base, r)
        && (scope.None? ==> r == base)
        && (scope.Some? ==> r[|base|..] == ",scope=\"" + scope.value + "\"")
    {
      var header := "Bearer realm=\"" + config.realm + "\",service=\"" + config.service + "\"";
      if scope.Some? then header + ",scope=\"" + scope.value + "\"" else header
    }
  }
}
