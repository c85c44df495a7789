/** Token issuance: the claims the backend signs and the `jsonwebtoken`
    library, kept as an uninterpreted pair of functions. */
module Jwt {
  import opened Common
  import opened Text
  import opened Models

  /** The claims of a session token. `tv` is `None` when the claim is
      missing or is not a number. */
  datatype Payload = Payload(sub: Id, role: Role, email: string, tv: Option<int>)

  /** `jwt.sign(payload, secret)` and `jwt.verify(token, secret)`. Verify
      returns `None` where the library throws (bad signature, expired,
      malformed); expiry is decided inside it at the instant of the call. */
  datatype Codec = Codec(sign: (Payload, string) -> string, verify: (string, string) -> Option<Payload>)

  /** What the model assumes of the library: under a non-empty secret a
      token it signed verifies back to its claims (before it expires), and a
      signed token is a non-empty string with no white space at its ends. */
  ghost predicate Sound(c: Codec) {
    forall p: Payload, key: string {:trigger c.sign(p, key)} :: key != "" ==>
      && c.verify(c.sign(p, key), key) == Some(p)
      && c.sign(p, key) != []
      && Trimmed(c.sign(p, key))
  }

  /** A token handed back to a client together with the claims it carries. */
  datatype Session = Session(payload: Payload, token: string)

  /** `signJWT` of utils/jwt.js: throws when the secret is missing or empty,
      otherwise signs. A sound library makes the token verify to `p`. */
  function SignJwt(c: Codec, p: Payload, secret: string): (r: Option<Session>)
    ensures r.Some? <==> secret != ""
    ensures r.Some? ==> r.value.payload == p && r.value.token == c.sign(p, secret)
    ensures Sound(c) && r.Some? ==> c.verify(r.value.token, secret) == Some(p)
  {
    if secret == "" then None else Some(Session(p, c.sign(p, secret)))
  }
}
