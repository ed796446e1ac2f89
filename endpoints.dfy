/**
 * The request-time decisions of endpoints.go, with the HTTP request replaced by
 * the value of its `Authorization` header and the package-level tables by a `Store`.
 */
module Endpoints {
  import opened Wrappers
  import opened GoStrconv
  import opened Authorization
  import opened Util

  /** A record admits a request for `scope` at `now`: it is valid, and it is an admin or holds the scope. */
  predicate Admits(auth: Authorization, scope: string, now: Int64)
  {
    IsValid(auth, now) && (HasAdminScope(auth) || HasScope(auth.scope, scope))
  }

  /** The header presents a non-empty token that the store knows under that token. */
  predicate Known(store: Store, header: string)
    reads store
  {
    IsBearerHeader(header) && PresentedToken(header) != "" && PresentedToken(header) in store.tokenToAuth
  }

  /**
   * `CheckAuthorization`: a malformed header fails with `NoToken`; otherwise an
   * empty or unknown token, an invalid record, and a non-admin record lacking the
   * scope all fail with the same `NotAuthorized`; otherwise the stored record.
   */
  function CheckAuthorization(store: Store, header: string, scope: string, now: Int64): (r: Result<Authorization, Error>)
    reads store
    ensures GetBearerToken(header).Failure? ==> r == Failure(GetBearerToken(header).error)
    ensures !IsBearerHeader(header) ==> r == Failure(NoToken)
    ensures IsBearerHeader(header) && r.Failure? ==> r.error == NotAuthorized
    ensures r.Success? <==> Known(store, header) && Admits(store.tokenToAuth[PresentedToken(header)], scope, now)
    ensures r.Success? ==> r.value == store.tokenToAuth[PresentedToken(header)] && IsValid(r.value, now)
  {
    match GetBearerToken(header)
    case Failure(e) => Failure(e)
    case Success(token) =>
      var found := store.FindAuthorizationByToken(token);
      if found.Failure? || found.value.None? || !IsValid(found.value.value, now) then Failure(NotAuthorized)
      else
        var auth := found.value.value;
        if HasAdminScope(auth) then Success(auth)
        else if !HasScope(auth.scope, scope) then Failure(NotAuthorized)
        else Success(auth)
  }

  /** An admin record is granted whatever scope the request names. */
  lemma AdminIgnoresRequestedScope(store: Store, header: string, scope: string, other: string, now: Int64)
    requires CheckAuthorization(store, header, scope, now).Success?
    requires HasAdminScope(CheckAuthorization(store, header, scope, now).value)
    ensures CheckAuthorization(store, header, other, now) == CheckAuthorization(store, header, scope, now)
  {
  }

  /** A revoked or expired record is refused with `NotAuthorized`, even when its scope matches. */
  lemma InvalidRecordRefused(store: Store, token: string, scope: string, now: Int64)
    requires ' ' !in token && token in store.tokenToAuth
    requires !IsValid(store.tokenToAuth[token], now)
    ensures CheckAuthorization(store, "Bearer " + token, scope, now) == Failure(NotAuthorized)
  {
    BearerRoundTrip(token);
  }

  /** A stored, valid record holding the scope is granted under its own token. */
  lemma ScopedRecordGranted(store: Store, token: string, scope: string, now: Int64)
    requires ' ' !in token && token != "" && token in store.tokenToAuth
    requires IsValid(store.tokenToAuth[token], now) && HasScope(store.tokenToAuth[token].scope, scope)
    ensures CheckAuthorization(store, "Bearer " + token, scope, now) == Success(store.tokenToAuth[token])
  {
    BearerRoundTrip(token);
  }

  /** `Bearer ` with nothing after it presents the empty token, which is refused as `NotAuthorized`. */
  lemma EmptyBearerRefused(store: Store, scope: string, now: Int64)
    ensures CheckAuthorization(store, "Bearer ", scope, now) == Failure(NotAuthorized)
  {
    BearerRoundTrip("");
    assert "Bearer " + "" == "Bearer ";
  }

  /** In a valid store, a granted record carries the token that was presented. */
  lemma GrantedCarriesPresentedToken(store: Store, header: string, scope: string, now: Int64)
    requires store.Valid()
    requires CheckAuthorization(store, header, scope, now).Success?
    ensures CheckAuthorization(store, header, scope, now).value.token == PresentedToken(header)
  {
  }

  /**
   * `GetClientID`: extraction and lookup errors are passed on (`NoToken`), a token
   * without a record is `NotAuthorized`, and otherwise the record's client, with no
   * check of revocation, expiry or scope.
   */
  function GetClientID(store: Store, header: string): (r: Result<string, Error>)
    reads store
    ensures !IsBearerHeader(header) ==> r == Failure(NoToken)
    ensures IsBearerHeader(header) && PresentedToken(header) == "" ==> r == Failure(NoToken)
    ensures IsBearerHeader(header) && PresentedToken(header) != "" && !Known(store, header) ==> r == Failure(NotAuthorized)
    ensures r.Success? <==> Known(store, header)
    ensures r.Success? ==> r.value == store.tokenToAuth[PresentedToken(header)].clientID
  {
    match GetBearerToken(header)
    case Failure(e) => Failure(e)
    case Success(token) =>
      match store.FindAuthorizationByToken(token)
      case Failure(e) => Failure(e)
      case Success(found) =>
        if found.None? then Failure(NotAuthorized)
        else Success(found.value.clientID)
  }

  /** A stored record's client is resolved whether or not the record is revoked or expired. */
  lemma ClientIDIgnoresValidity(store: Store, token: string)
    requires ' ' !in token && token != "" && token in store.tokenToAuth
    ensures GetClientID(store, "Bearer " + token) == Success(store.tokenToAuth[token].clientID)
  {
    BearerRoundTrip(token);
  }

  /** Whenever a request is authorized, the same header resolves to the granted record's client. */
  lemma GrantedResolvesClient(store: Store, header: string, scope: string, now: Int64)
    requires CheckAuthorization(store, header, scope, now).Success?
    ensures GetClientID(store, header) == Success(CheckAuthorization(store, header, scope, now).value.clientID)
  {
  }
}
