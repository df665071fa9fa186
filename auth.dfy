/** The decision every handler makes on the `Authorization` header
    (main.py:88-101, 106-114, 140-150), and the reverse lookup of the
    username that goes into a usage row (main.py:64). */
module Auth {
  import opened Wrappers
  import opened Text
  import opened ConfigLoader

  const BearerPrefix := "Bearer "

  /** The three outcomes: no `Bearer ` prefix (400), a configured key (200 or
      forward), any other token (401). */
  datatype Decision = BadFormat | Accepted(token: string) | Rejected(token: string)

  /** `request.headers.get("Authorization", "")`. */
  function HeaderValue(authorization: Option<string>): string
  {
    authorization.GetOr("")
  }

  /** The prefix test, `authorization[7:]`, and `api_key in VALID_API_KEYS.values()`. */
  function Authenticate(authorization: string, apiKeys: seq<Binding>): (d: Decision)
    ensures d.BadFormat? <==> !StartsWith(authorization, BearerPrefix)
    ensures !d.BadFormat? ==> authorization == BearerPrefix + d.token
    ensures d.Accepted? ==> d.token in Keys(apiKeys)
    ensures d.Rejected? ==> d.token !in Keys(apiKeys)
  {
    if !StartsWith(authorization, BearerPrefix) then BadFormat
    else
      var token := authorization[|BearerPrefix|..];
      assert authorization == BearerPrefix + token;
      if token in Keys(apiKeys) then Accepted(token) else Rejected(token)
  }

  /** The header that is accepted is exactly `Bearer ` followed by a configured
      key, character for character: no trimming, no unquoting. */
  lemma AcceptedExactly(authorization: string, apiKeys: seq<Binding>, token: string)
    ensures Authenticate(authorization, apiKeys) == Accepted(token)
            <==> authorization == BearerPrefix + token && token in Keys(apiKeys)
    ensures Authenticate(authorization, apiKeys) == Rejected(token)
            <==> authorization == BearerPrefix + token && token !in Keys(apiKeys)
  {
    if authorization == BearerPrefix + token {
      assert StartsWith(authorization, BearerPrefix);
      assert authorization[|BearerPrefix|..] == token;
    }
  }

  /** A missing header is handled as the empty one: format error. */
  lemma MissingHeaderIsBadFormat(apiKeys: seq<Binding>)
    ensures Authenticate(HeaderValue(None), apiKeys) == BadFormat
  {
  }

  /** `next((user for user, key in VALID_API_KEYS.items() if key == api_key), None)`. */
  function UsernameFor(apiKeys: seq<Binding>, token: string): (r: Option<string>)
    ensures r.Some? <==> token in Keys(apiKeys)
  {
    if apiKeys == [] then None
    else if apiKeys[0].key == token then Some(apiKeys[0].name)
    else
      assert Keys(apiKeys) == [apiKeys[0].key] + Keys(apiKeys[1..]);
      UsernameFor(apiKeys[1..], token)
  }

  /** The name found is the first one, in insertion order, bound to `token`. */
  lemma {:induction false} UsernameForSpec(apiKeys: seq<Binding>, token: string)
    ensures var r := UsernameFor(apiKeys, token);
            r.Some? ==> exists i :: 0 <= i < |apiKeys| && apiKeys[i] == Binding(r.value, token)
                                    && forall j :: 0 <= j < i ==> apiKeys[j].key != token
  {
    if apiKeys != [] && apiKeys[0].key != token {
      var tail := apiKeys[1..];
      UsernameForSpec(tail, token);
      var r := UsernameFor(tail, token);
      if r.Some? {
        var i :| 0 <= i < |tail| && tail[i] == Binding(r.value, token)
                 && forall j :: 0 <= j < i ==> tail[j].key != token;
        assert apiKeys[i + 1] == Binding(r.value, token);
        assert forall j :: 1 <= j < i + 1 ==> apiKeys[j] == tail[j - 1];
      }
    } else if apiKeys != [] {
      assert apiKeys[0] == Binding(apiKeys[0].name, token);
    }
  }

  /** An accepted request always has a username: the reverse lookup runs over
      the same table that accepted the key. */
  lemma AcceptedHasUsername(authorization: string, apiKeys: seq<Binding>)
    requires Authenticate(authorization, apiKeys).Accepted?
    ensures UsernameFor(apiKeys, Authenticate(authorization, apiKeys).token).Some?
  {
  }

  /** In a table loaded from a file, the name found for a token is bound to
      that token: looking the name up again gives the token back. */
  lemma UsernameRoundTrip(apiKeys: seq<Binding>, token: string)
    requires Distinct(Names(apiKeys))
    requires UsernameFor(apiKeys, token).Some?
    ensures Lookup(apiKeys, UsernameFor(apiKeys, token).value) == Some(token)
  {
    UsernameForSpec(apiKeys, token);
    var name := UsernameFor(apiKeys, token).value;
    var i :| 0 <= i < |apiKeys| && apiKeys[i] == Binding(name, token);
    LookupAt(apiKeys, i);
  }
}
