/** The guard in front of every admin route after login: take the token out of the
    Authorization header, verify it, and let only admin tokens through. Token verification
    (signature and expiry) is the parameter `verify`. */
module AdminAuth {
  import opened Base
  import opened Strings
  import opened AdminModel

  const BEARER := "Bearer "

  /** `header?.replace('Bearer ', '')`: the first "Bearer " is removed wherever it stands;
      a header without one is used as it is. */
  function ExtractToken(header: Option<string>): (t: Option<string>)
    ensures header.None? ==> t.None?
    ensures header.Some? && !Contains(header.value, BEARER) ==> t == header
    ensures header.Some? && Contains(header.value, BEARER) ==> t.Some? && |t.value| == |header.value| - |BEARER|
    ensures header.Some? && Contains(header.value, BEARER) ==>
              var h, k := header.value, IndexOf(header.value, BEARER);
              h == h[..k] + BEARER + h[k + |BEARER|..] && t == Some(h[..k] + h[k + |BEARER|..])
  {
    if header.None? then None
    else
      var h := header.value;
      var k := IndexOf(h, BEARER);
      assert k >= 0 ==> h[..k] + "" + h[k + |BEARER|..] == h[..k] + h[k + |BEARER|..];
      Some(ReplaceFirst(h, BEARER, ""))
  }

  /** The guard's verdict: answer with `status`, or call the next handler once with the
      decoded claims as `req.admin`. */
  datatype Decision = Reject(status: Status) | Next(admin: Claims)

  /** 401 without a token or for a token that fails verification, 403 for a valid token
      without the admin flag, otherwise pass. */
  function Guard(header: Option<string>, verify: string -> Option<Claims>): (d: Decision)
    ensures !Truthy(ExtractToken(header)) ==> d == Reject(Unauthorized)
    ensures Truthy(ExtractToken(header)) && verify(ExtractToken(header).value).None? ==> d == Reject(Unauthorized)
    ensures (Truthy(ExtractToken(header)) && verify(ExtractToken(header).value).Some? &&
             !verify(ExtractToken(header).value).value.isAdmin) ==> d == Reject(Forbidden)
    ensures d.Next? <==> && Truthy(ExtractToken(header))
                         && verify(ExtractToken(header).value).Some?
                         && verify(ExtractToken(header).value).value.isAdmin
    ensures d.Next? ==> d.admin == verify(ExtractToken(header).value).value && d.admin.isAdmin
  {
    var token := ExtractToken(header);
    if !Truthy(token) then Reject(Unauthorized)
    else
      var decoded := verify(token.value);
      if decoded.None? then Reject(Unauthorized)
      else if !decoded.value.isAdmin then Reject(Forbidden)
      else Next(decoded.value)
  }

  /** A "Bearer <token>" header yields exactly the token. */
  lemma BearerHeaderYieldsToken(t: string)
    ensures ExtractToken(Some(BEARER + t)) == Some(t)
  {
    var h := BEARER + t;
    assert h[..|BEARER|] == BEARER;
    assert IndexOf(h, BEARER) == 0;
    assert ReplaceFirst(h, BEARER, "") == h[..0] + "" + h[|BEARER|..];
    assert h[..0] + "" + h[|BEARER|..] == t;
    assert ExtractToken(Some(h)) == Some(ReplaceFirst(h, BEARER, ""));
  }

  /** The token minted at admin login, presented as "Bearer <token>", lets its admin through
      whenever verification gives back the claims it was signed with. */
  lemma AdminTokenPasses(a: Admin, token: string, verify: string -> Option<Claims>)
    requires token != "" && verify(token) == Some(AdminClaims(a))
    ensures Guard(Some(BEARER + token), verify) == Next(AdminClaims(a))
  {
    BearerHeaderYieldsToken(token);
  }

  /** A user's token, whose claims carry no admin flag, is refused with 403 once verified. */
  lemma UserTokenForbidden(token: string, verify: string -> Option<Claims>)
    requires token != "" && verify(token).Some? && !verify(token).value.isAdmin
    ensures Guard(Some(BEARER + token), verify) == Reject(Forbidden)
  {
    BearerHeaderYieldsToken(token);
  }
}
