/** The bearer-token check of the HTTP power-off endpoint. */
module Webserver {
  import opened Wrappers

  /** The response to one request, and how many times the power-off
      callback ran before it was sent. */
  datatype Outcome = Outcome(callbackCalls: nat, status: int)

  const Unauthorized := Outcome(0, 401)
  const PoweredOff := Outcome(1, 200)

  /** The scheme prefix of the Authorization header, space included. */
  const BearerPrefix := "Bearer "

  /** The inner `power_off_handler`: the Authorization header (None when
      absent) checked against the configured secret. */
  function Authorize(authHeader: Option<string>, secret: string): (r: Outcome)
    ensures r == Unauthorized || r == PoweredOff
    ensures authHeader.None? || authHeader == Some("") ==> r == Unauthorized
    ensures authHeader.Some? && !(BearerPrefix <= authHeader.value) ==> r == Unauthorized
    ensures r == PoweredOff <==> authHeader == Some(BearerPrefix + secret)
  {
    if authHeader.None? || authHeader.value == "" || !(BearerPrefix <= authHeader.value) then
      Unauthorized
    else if authHeader.value[|BearerPrefix|..] != secret then
      assert authHeader.value == BearerPrefix + authHeader.value[|BearerPrefix|..];
      Unauthorized
    else
      assert authHeader.value == BearerPrefix + secret;
      PoweredOff
  }

  /** A well-formed header carrying any token other than the secret is
      refused, and the callback does not run. */
  lemma WrongTokenRejected(token: string, secret: string)
    requires token != secret
    ensures Authorize(Some(BearerPrefix + token), secret) == Unauthorized
  {
    assert (BearerPrefix + token)[|BearerPrefix|..] == token;
  }
}
