/** Bearer-token extraction (util.go), taking the value of the `Authorization` header. */
module Util {
  import opened Wrappers
  import opened GoStrings
  import opened Authorization

  /** The reference shape of an accepted header: `Bearer`, one space, then a token without spaces. */
  predicate IsBearerHeader(header: string)
  {
    |header| >= 7 && header[..7] == "Bearer " && ' ' !in header[7..]
  }

  /** The token an accepted header presents. */
  function PresentedToken(header: string): string
    requires IsBearerHeader(header)
  {
    header[7..]
  }

  /** Splitting on single spaces yields exactly `Bearer` and one more piece only for bearer-shaped headers. */
  lemma SplitBearer(header: string)
    ensures (|Split(header, ' ')| == 2 && Split(header, ' ')[0] == "Bearer") <==> IsBearerHeader(header)
    ensures IsBearerHeader(header) ==> Split(header, ' ')[1] == PresentedToken(header)
  {
    var parts := Split(header, ' ');
    if |parts| == 2 && parts[0] == "Bearer" {
      JoinSplit(header, ' ');
      assert header == "Bearer" + [' '] + parts[1];
      assert header[7..] == parts[1];
    }
    if IsBearerHeader(header) {
      var pieces := ["Bearer", header[7..]];
      assert Join(pieces, ' ') == header;
      SplitJoin(pieces, ' ');
    }
  }

  /**
   * `GetBearerToken`: the empty header, a header that does not split on single
   * spaces into exactly two pieces, and a first piece other than `Bearer` (compared
   * case-sensitively) are all `NoToken`; otherwise the second piece, which may be empty.
   */
  function GetBearerToken(header: string): (r: Result<string, Error>)
    ensures r.Failure? ==> r.error == NoToken
    ensures r.Success? <==> IsBearerHeader(header)
    ensures r.Success? ==> r.value == PresentedToken(header) && ' ' !in r.value
  {
    if |header| == 0 then Failure(NoToken)
    else
      var parts := Split(header, ' ');
      SplitBearer(header);
      if |parts| != 2 then Failure(NoToken)
      else if parts[0] == "Bearer" then Success(parts[1])
      else Failure(NoToken)
  }

  /** Any space-free token, the empty one included, comes back from its `Bearer` header. */
  lemma BearerRoundTrip(token: string)
    requires ' ' !in token
    ensures GetBearerToken("Bearer " + token) == Success(token)
  {
    var header := "Bearer " + token;
    assert header[..7] == "Bearer " && header[7..] == token;
  }

  /** Malformed headers: empty, no token part, a doubled space, a lower-case scheme. */
  lemma MalformedHeadersHaveNoToken(token: string)
    ensures GetBearerToken("") == Failure(NoToken)
    ensures GetBearerToken("Bearer") == Failure(NoToken)
    ensures GetBearerToken("Bearer  " + token) == Failure(NoToken)
    ensures GetBearerToken("bearer " + token) == Failure(NoToken)
  {
    assert ("Bearer  " + token)[7..][0] == ' ';
    assert ("bearer " + token)[..7] != "Bearer ";
  }
}
