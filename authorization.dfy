/**
 * The authorization record of package `auth` (authorization.go): its validity and
 * scope predicates, identity comparison, the seven-field text form and its parser,
 * the constructor, and the in-process store indexed by token and by identity.
 *
 * The clock `timestamp.Now()` is the parameter `now`; the token generator
 * `CreateSimpleToken()` is the parameter `token` of `NewAuthorization`.
 */
module Authorization {
  import opened Wrappers
  import opened GoStrings
  import opened GoStrconv

  const UserTokenType := "user"
  const AppTokenType := "app"
  const APITokenType := "api"
  const BotTokenType := "bot"
  const DefaultTokenType := UserTokenType

  const ScopeRead := "api:read"
  const ScopeWrite := "api:write"
  const ScopeAdmin := "api:admin"
  const DefaultScope := "api:read api:write"

  /** Seconds in a day, the unit of `NewAuthorization`'s expiry argument. */
  const SecondsPerDay := 86400

  /** The errors the package produces. `NumError` is what `strconv.ParseInt` returns. */
  datatype Error =
    | NotAuthorized
    | NoSuchEntity
    | NoToken
    | NotImplemented
    | NumError(kind: GoStrconv.NumError)

  /** A user, app or bot and its permissions. `expires == 0` means it never expires. */
  datatype Authorization = Authorization(
    clientID: string,
    realm: string,
    token: string,
    tokenType: string,
    userID: string,
    scope: string,
    expires: Int64,
    revoked: bool,
    created: Int64,
    updated: Int64)

  /** A login/authorization request; its `token` is never used. */
  datatype AuthorizationRequest = AuthorizationRequest(
    realm: string,
    userID: string,
    clientID: string,
    token: string,
    scope: string)

  /**
   * Identity comparison: a nil other record is never equal; otherwise exactly the
   * token, the realm, the client and the user are compared.
   */
  function Equal(auth: Authorization, other: Option<Authorization>): (r: bool)
    ensures other.None? ==> !r
    ensures other.Some? ==> (r <==> Identity(auth) == Identity(other.value))
  {
    if other.None? then false
    else
      var a := other.value;
      var r := auth.token == a.token && auth.realm == a.realm && auth.clientID == a.clientID && auth.userID == a.userID;
      assert r <==> Identity(auth) == Identity(a) by {
        if Identity(auth) == Identity(a) {
          assert Identity(auth)[0] == Identity(a)[0] && Identity(auth)[1] == Identity(a)[1];
          assert Identity(auth)[2] == Identity(a)[2] && Identity(auth)[3] == Identity(a)[3];
        }
      }
      r
  }

  /** The four fields `Equal` compares. */
  function Identity(a: Authorization): seq<string>
  {
    [a.token, a.realm, a.clientID, a.userID]
  }

  lemma EqualIsEquivalence(a: Authorization, b: Authorization, c: Authorization)
    ensures Equal(a, Some(a))
    ensures Equal(a, Some(b)) ==> Equal(b, Some(a))
    ensures Equal(a, Some(b)) && Equal(b, Some(c)) ==> Equal(a, Some(c))
  {
  }

  /** Scope, token type, expiry, revocation and timestamps play no part in `Equal`. */
  lemma EqualIgnoresGrant(a: Authorization, scope: string, tokenType: string, expires: Int64, revoked: bool, stamp: Int64)
    ensures Equal(a, Some(a.(scope := scope, tokenType := tokenType, expires := expires, revoked := revoked, created := stamp, updated := stamp)))
  {
  }

  /** The seven fields of the text form, in order. */
  function Fields(a: Authorization): seq<string>
  {
    [a.clientID, a.realm, a.token, a.tokenType, a.userID, a.scope, FormatInt(a.expires)]
  }

  /**
   * `fmt.Sprintf("%s,%s,%s,%s,%s,%s,%d", ...)` over client, realm, token, token type,
   * user, scope and expiry. No field is escaped.
   */
  function String(a: Authorization): (s: string)
    ensures |s| >= 6
  {
    Join(Fields(a), ',')
  }

  /** None of the six text fields holds a comma: the condition under which the text form can be read back. */
  predicate NoCommas(a: Authorization)
  {
    ',' !in a.clientID && ',' !in a.realm && ',' !in a.token &&
    ',' !in a.tokenType && ',' !in a.userID && ',' !in a.scope
  }

  lemma FieldsHaveNoCommas(a: Authorization)
    requires NoCommas(a)
    ensures forall k :: 0 <= k < |Fields(a)| ==> ',' !in Fields(a)[k]
  {
  }

  /** Without commas in the text fields, the text form has exactly these seven comma-separated fields. */
  lemma StringFields(a: Authorization)
    requires NoCommas(a)
    ensures Split(String(a), ',') == Fields(a)
    ensures |Split(String(a), ',')| == 7
    ensures Count(String(a), ',') == 6
  {
    FieldsHaveNoCommas(a);
    SplitJoin(Fields(a), ',');
  }

  /**
   * `parse`: the inverse of `String`. The empty string and a string without exactly
   * seven comma-separated fields are `NoSuchEntity`; a seventh field that is not a
   * base-10 `int64` is `strconv.ParseInt`'s error. A parsed record is never revoked
   * and is stamped as created and updated at `now`.
   */
  function Parse(s: string, now: Int64): (r: Result<Authorization, Error>)
    ensures s == "" ==> r == Failure(NoSuchEntity)
    ensures Count(s, ',') != 6 ==> r == Failure(NoSuchEntity)
    ensures Count(s, ',') == 6 ==>
      (r.Success? <==> IsDecimal(Split(s, ',')[6]) && MinInt64 <= DecimalValue(Split(s, ',')[6]) <= MaxInt64)
    ensures r.Failure? ==> r.error == NoSuchEntity || r.error.NumError?
    ensures Count(s, ',') == 6 && r.Failure? ==> r == Failure(NumError(ParseInt(Split(s, ',')[6]).error))
    ensures r.Success? ==> !r.value.revoked && r.value.created == now && r.value.updated == now
    ensures r.Success? ==> NoCommas(r.value) && Fields(r.value)[..6] == Split(s, ',')[..6]
    ensures r.Success? ==>
      |Split(s, ',')| == 7 && IsDecimal(Split(s, ',')[6]) && r.value.expires == DecimalValue(Split(s, ',')[6])
  {
    if s == "" then Failure(NoSuchEntity)
    else
      var parts := Split(s, ',');
      if |parts| != 7 then Failure(NoSuchEntity)
      else
        var a := Authorization(parts[0], parts[1], parts[2], parts[3], parts[4], parts[5], 0, false, now, now);
        match ParseInt(parts[6])
        case Failure(e) => Failure(NumError(e))
        case Success(n) =>
          var b := a.(expires := n);
          assert Fields(b)[..6] == parts[..6];
          Success(b)
  }

  /**
   * Round trip: reading back the text form of a comma-free record reproduces its
   * seven carried fields; revocation and timestamps are not carried and come back
   * as "not revoked" and `now`.
   */
  lemma ParseString(a: Authorization, now: Int64)
    requires NoCommas(a)
    ensures Parse(String(a), now) == Success(a.(revoked := false, created := now, updated := now))
    ensures Equal(a, Some(Parse(String(a), now).value))
    ensures !a.revoked ==> (IsValid(Parse(String(a), now).value, now) <==> IsValid(a, now))
  {
    StringFields(a);
    ParseFormat(a.expires);
  }

  /** Printing a parsed record and parsing it again gives the same record. */
  lemma ParseStable(s: string, now: Int64)
    requires Parse(s, now).Success?
    ensures Parse(String(Parse(s, now).value), now) == Parse(s, now)
  {
    ParseString(Parse(s, now).value, now);
  }

  /** Comma-free fields of any number other than seven are rejected as `NoSuchEntity`. */
  lemma ParseRejectsFieldCount(fields: seq<string>, now: Int64)
    requires |fields| >= 1 && |fields| != 7
    requires forall k :: 0 <= k < |fields| ==> ',' !in fields[k]
    ensures Parse(Join(fields, ','), now) == Failure(NoSuchEntity)
  {
    SplitJoin(fields, ',');
  }

  /**
   * Seven comma-free fields are read back field by field; the record is rejected
   * with `strconv.ParseInt`'s error exactly when the last field is not a base-10 `int64`.
   */
  lemma ParseSevenFields(fields: seq<string>, now: Int64)
    requires |fields| == 7
    requires forall k :: 0 <= k < |fields| ==> ',' !in fields[k]
    ensures ParseInt(fields[6]).Failure? ==> Parse(Join(fields, ','), now) == Failure(NumError(ParseInt(fields[6]).error))
    ensures ParseInt(fields[6]).Success? ==>
      Parse(Join(fields, ','), now) ==
      Success(Authorization(fields[0], fields[1], fields[2], fields[3], fields[4], fields[5], ParseInt(fields[6]).value, false, now, now))
  {
    SplitJoin(fields, ',');
  }

  /** The record of the package's parse test with the user field missing. */
  lemma ParseRejectsMissingField(now: Int64)
    ensures Parse(Join(["client@example.com", "realm", "cdeba542-ebb0-4cae-9544-df6059ba1752", "user",
                        "api:read api:write", "1637152046"], ','), now) == Failure(NoSuchEntity)
  {
    var fields := ["client@example.com", "realm", "cdeba542-ebb0-4cae-9544-df6059ba1752", "user",
                   "api:read api:write", "1637152046"];
    assert ',' !in fields[0] && ',' !in fields[1] && ',' !in fields[2];
    assert ',' !in fields[3] && ',' !in fields[4] && ',' !in fields[5];
    ParseRejectsFieldCount(fields, now);
  }

  /** The record of the package's parse test whose expiry is not a number. */
  lemma ParseRejectsNonNumericExpiry(now: Int64)
    ensures Parse(Join(["client@example.com", "realm", "cdeba542-ebb0-4cae-9544-df6059ba1752", "user",
                        "userid", "api:read api:write", "nonumber"], ','), now) == Failure(NumError(ErrSyntax))
  {
    var fields := ["client@example.com", "realm", "cdeba542-ebb0-4cae-9544-df6059ba1752", "user",
                   "userid", "api:read api:write", "nonumber"];
    assert ',' !in fields[0] && ',' !in fields[1] && ',' !in fields[2] && ',' !in fields[3];
    assert ',' !in fields[4] && ',' !in fields[5] && ',' !in fields[6];
    ParseSevenFields(fields, now);
    ParseIntRejectsWord();
  }

  /** Not revoked, and either never expiring or expiring no earlier than `now`. */
  function IsValid(auth: Authorization, now: Int64): (r: bool)
    ensures auth.revoked ==> !r
    ensures !auth.revoked ==> (r <==> auth.expires == 0 || auth.expires >= now)
  {
    if auth.revoked then false
    else if auth.expires == 0 then true
    else if auth.expires < now then false
    else true
  }

  /** The scope holds `api:admin` anywhere, as a substring. */
  function HasAdminScope(auth: Authorization): (r: bool)
    ensures r <==> IsSubstring(ScopeAdmin, auth.scope)
  {
    Contains(auth.scope, ScopeAdmin)
  }

  lemma AdminScopeExamples(a: Authorization)
    ensures a.scope == DefaultScope ==> !HasAdminScope(a)
    ensures a.scope == "production:read api:admin" ==> HasAdminScope(a)
  {
    if a.scope == DefaultScope {
      NotContainsMissingChar(a.scope, ScopeAdmin, 'm');
    }
    if a.scope == "production:read api:admin" {
      assert OccursAt(a.scope, ScopeAdmin, 16);
    }
  }

  /**
   * `hasScope`: an empty scope list or an empty requested scope never matches;
   * otherwise the requested scope matches when it occurs anywhere in the list.
   */
  function HasScope(scopes: string, scope: string): (r: bool)
    ensures scopes == "" || scope == "" ==> !r
    ensures scopes != "" && scope != "" ==> (r <==> IsSubstring(scope, scopes))
  {
    if scopes == "" || scope == "" then false
    else Contains(scopes, scope)
  }

  /** The comma-joined scope list `production:read,production:write,production:build` of the package's scope test. */
  const ProductionScopes := "production:read" + "," + "production:write" + "," + "production:build"

  lemma HasScopeMatchesListedScope()
    ensures HasScope(ProductionScopes, "production:read")
  {
    assert OccursAt(ProductionScopes, "production:read", 0);
  }

  lemma HasScopeMissesUnlistedScope()
    ensures !HasScope(ProductionScopes, "resource:read")
  {
    NotContainsMissingChar(ProductionScopes, "resource:read", 's');
  }

  /** The match is on substrings, not on whole scope names: `api:read` matches `api:readonly`. */
  lemma HasScopeMatchesPrefixOfName()
    ensures HasScope("api:readonly", ScopeRead)
  {
    assert OccursAt("api:readonly", ScopeRead, 0);
  }

  /**
   * The expiry `NewAuthorization` computes: `now + days * 86400` in wrapping 64-bit
   * arithmetic, replaced by 0 ("never") when `days` is 0.
   */
  function ExpiresAfter(days: Int64, now: Int64): (e: Int64)
    ensures days == 0 ==> e == 0
    ensures days != 0 && MinInt64 <= days * SecondsPerDay <= MaxInt64 && MinInt64 <= now + days * SecondsPerDay <= MaxInt64
      ==> e == now + days * SecondsPerDay
  {
    if days == 0 then 0 else Wrap64(now + Wrap64(days * SecondsPerDay))
  }

  /**
   * A fresh record for the request: client, realm, user and scope are copied, the
   * request's token is ignored in favour of the freshly generated `token`, the type
   * is `user`, it is not revoked, it is created and updated at `now`, and it expires
   * `days` days from `now` (never when `days` is 0).
   */
  method NewAuthorization(req: AuthorizationRequest, days: Int64, now: Int64, token: string) returns (a: Authorization)
    ensures a.clientID == req.clientID && a.realm == req.realm && a.userID == req.userID && a.scope == req.scope
    ensures a.token == token && a.tokenType == DefaultTokenType
    ensures !a.revoked && a.created == now && a.updated == now
    ensures a.expires == ExpiresAfter(days, now)
  {
    a := Authorization(req.clientID, req.realm, token, DefaultTokenType, req.userID, req.scope,
                       Wrap64(now + Wrap64(days * SecondsPerDay)), false, now, now);
    if days == 0 {
      a := a.(expires := 0);
    }
  }

  /**
   * Validity of an issued record at any time `later`, without overflow: it holds
   * when it never expires (`days == 0`, or the computed expiry happens to be 0)
   * and otherwise until the expiry instant.
   */
  lemma IssuedValidity(a: Authorization, days: Int64, now: Int64, later: Int64)
    requires !a.revoked && a.expires == ExpiresAfter(days, now)
    requires MinInt64 <= days * SecondsPerDay <= MaxInt64 && MinInt64 <= now + days * SecondsPerDay <= MaxInt64
    ensures IsValid(a, later) <==> days == 0 || now + days * SecondsPerDay == 0 || later <= now + days * SecondsPerDay
  {
  }

  /** One day: the expiry lies after `now` and the record is valid. */
  lemma IssuedForOneDay(a: Authorization, now: Int64)
    requires !a.revoked && a.expires == ExpiresAfter(1, now)
    requires now + SecondsPerDay <= MaxInt64
    ensures a.expires > now && IsValid(a, now)
  {
  }

  /** Minus one day: already expired, unless the computed expiry lands exactly on the sentinel 0. */
  lemma IssuedForMinusOneDay(a: Authorization, now: Int64)
    requires !a.revoked && a.expires == ExpiresAfter(-1, now)
    requires MinInt64 <= now - SecondsPerDay
    ensures !IsValid(a, now) <==> now != SecondsPerDay
  {
  }

  /** Zero days: the expiry is 0 and the record is valid at every time. */
  lemma IssuedForever(a: Authorization, now: Int64, later: Int64)
    requires !a.revoked && a.expires == ExpiresAfter(0, now)
    ensures a.expires == 0 && IsValid(a, later)
  {
  }

  /** The key `realm.clientID` of the identity index. */
  function NamedKey(part1: string, part2: string): (k: string)
    ensures |k| == |part1| + |part2| + 1 && k[|part1|] == '.'
    ensures k[..|part1|] == part1 && k[|part1| + 1..] == part2
  {
    part1 + "." + part2
  }

  /** Realms without a dot give distinct keys to distinct identities. */
  lemma NamedKeyInjective(realm1: string, client1: string, realm2: string, client2: string)
    requires '.' !in realm1 && '.' !in realm2
    requires NamedKey(realm1, client1) == NamedKey(realm2, client2)
    ensures realm1 == realm2 && client1 == client2
  {
  }

  /** With a dot in the realm, two identities share one key, and the later registration hides the earlier. */
  lemma NamedKeyCollision()
    ensures NamedKey("a.b", "c") == NamedKey("a", "b.c")
  {
  }

  /**
   * The two package-level lookup tables: by token and by `realm.clientID`.
   * Records are stored as values.
   */
  class Store {
    var tokenToAuth: map<string, Authorization>
    var idToAuth: map<string, Authorization>

    /** Every record sits under its own token and under its own identity key. */
    ghost predicate Valid()
      reads this
    {
      && (forall t :: t in tokenToAuth ==> tokenToAuth[t].token == t)
      && (forall k :: k in idToAuth ==> NamedKey(idToAuth[k].realm, idToAuth[k].clientID) == k)
    }

    /** `init()`: both tables start empty. */
    constructor ()
      ensures Valid()
      ensures tokenToAuth == map[] && idToAuth == map[]
    {
      tokenToAuth := map[];
      idToAuth := map[];
    }

    /**
     * Store `auth` under its token and under its identity key, overwriting whatever
     * was there; every other key of both tables keeps its record.
     */
    method RegisterAuthorization(auth: Authorization)
      modifies this
      ensures tokenToAuth == old(tokenToAuth)[auth.token := auth]
      ensures idToAuth == old(idToAuth)[NamedKey(auth.realm, auth.clientID) := auth]
      ensures old(Valid()) ==> Valid()
      ensures auth.token != "" ==> FindAuthorizationByToken(auth.token) == Success(Some(auth))
      ensures LookupAuthorization(auth.realm, auth.clientID) == Success(Some(auth))
      ensures forall t :: t != auth.token ==> FindAuthorizationByToken(t) == old(FindAuthorizationByToken(t))
      ensures forall r, c :: NamedKey(r, c) != NamedKey(auth.realm, auth.clientID) ==>
        LookupAuthorization(r, c) == old(LookupAuthorization(r, c))
    {
      tokenToAuth := tokenToAuth[auth.token := auth];
      idToAuth := idToAuth[NamedKey(auth.realm, auth.clientID) := auth];
    }

    /**
     * The empty token is `NoToken`; an unknown token is "no record, no error";
     * otherwise the record stored under the token.
     */
    function FindAuthorizationByToken(token: string): (r: Result<Option<Authorization>, Error>)
      reads this
      ensures r.Failure? <==> token == ""
      ensures r.Failure? ==> r.error == NoToken
      ensures r.Success? ==> (r.value.Some? <==> token in tokenToAuth)
      ensures r.Success? && r.value.Some? ==> r.value.value == tokenToAuth[token]
      ensures Valid() && r.Success? && r.value.Some? ==> r.value.value.token == token
    {
      if token == "" then Failure(NoToken)
      else if token in tokenToAuth then Success(Some(tokenToAuth[token]))
      else Success(None)
    }

    /** The record registered for the identity, or "no record, no error"; it never fails. */
    function LookupAuthorization(realm: string, clientID: string): (r: Result<Option<Authorization>, Error>)
      reads this
      ensures r.Success?
      ensures r.value.Some? <==> NamedKey(realm, clientID) in idToAuth
      ensures r.value.Some? ==> r.value.value == idToAuth[NamedKey(realm, clientID)]
    {
      var key := NamedKey(realm, clientID);
      if key in idToAuth then Success(Some(idToAuth[key])) else Success(None)
    }

    /** In a valid store with dot-free realms, a lookup by identity finds a record of exactly that identity. */
    lemma LookupFindsOwnIdentity(realm: string, clientID: string)
      requires Valid()
      requires LookupAuthorization(realm, clientID).value.Some?
      requires '.' !in realm && '.' !in LookupAuthorization(realm, clientID).value.value.realm
      ensures LookupAuthorization(realm, clientID).value.value.realm == realm
      ensures LookupAuthorization(realm, clientID).value.value.clientID == clientID
    {
      var a := LookupAuthorization(realm, clientID).value.value;
      NamedKeyInjective(a.realm, a.clientID, realm, clientID);
    }

    /** Deletion is not implemented: it always fails and changes nothing. */
    method DeleteAuthorization(realm: string, clientID: string) returns (r: Result<Option<Authorization>, Error>)
      ensures r == Failure(NotImplemented)
    {
      r := Failure(NotImplemented);
    }
  }
}
