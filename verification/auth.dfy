/** The bearer-token gate `authoriseUser` that runs before every protected
    route. It reads only the `Authorization` header and the token library;
    it never touches the store. */
module Auth {
  import opened Wrappers
  import opened Text
  import opened Crypto
  import opened Messages

  /** The principal the gate attaches as `req.user`: the role and the one
      identifying field of that role, copied from the token (and possibly
      missing from it), nothing else. */
  datatype Principal = StudentP(registrationId: Option<string>) | AdminP(staffId: Option<string>)

  /** `Pass` is the gate calling `next()` with the principal attached;
      `Reject` is the gate answering the request itself. */
  datatype Verdict = Pass(user: Principal) | Reject(code: int, message: Message)

  const BearerPrefix: string := "Bearer "

  /** A header that is present, truthy and starts with "Bearer ". */
  predicate BearerShaped(header: Option<string>) {
    !Falsy(header) && StartsWith(header.value, BearerPrefix)
  }

  /** `header.split(" ")[1]`: the second space-separated piece, which is the
      run of non-space characters right after "Bearer " (possibly empty). */
  function BearerToken(header: string): (token: string)
    requires StartsWith(header, BearerPrefix)
    ensures token == TakeUntil(header[|BearerPrefix|..], ' ')
    ensures ' ' !in token
  {
    var rest := header[|BearerPrefix|..];
    assert header == "Bearer" + [' '] + rest;
    SplitAfterPiece("Bearer", ' ', rest);
    SplitHead(rest, ' ');
    Split(header, ' ')[1]
  }

  /** `authoriseUser`: shape check, token extraction, verification, role check,
      principal construction, in that order. */
  function Authorise(c: Primitives, header: Option<string>): (r: Verdict)
    ensures !BearerShaped(header) ==> r == Reject(401, NotAuthorized)
    ensures BearerShaped(header) && c.verify(TakeUntil(header.value[|BearerPrefix|..], ' ')).None? ==>
              r == Reject(401, TokenInvalid)
    ensures r.Pass? <==>
              && BearerShaped(header)
              && var claims := c.verify(TakeUntil(header.value[|BearerPrefix|..], ' '));
                 claims.Some? && claims.value.role in {Some("student"), Some("admin")}
    ensures r.Reject? ==> r.code in {401, 403}
    ensures BearerShaped(header) ==>
              var claims := c.verify(TakeUntil(header.value[|BearerPrefix|..], ' '));
              && (claims.Some? && claims.value.role !in {Some("student"), Some("admin")} ==>
                    r == Reject(403, InvalidRole))
              && (claims.Some? && claims.value.role == Some("student") ==>
                    r == Pass(StudentP(claims.value.registrationId)))
              && (claims.Some? && claims.value.role == Some("admin") ==>
                    r == Pass(AdminP(claims.value.staffId)))
  {
    if Falsy(header) || !StartsWith(header.value, BearerPrefix) then
      Reject(401, NotAuthorized)
    else
      var token := BearerToken(header.value);
      match c.verify(token)
      case None => Reject(401, TokenInvalid)
      case Some(claims) =>
        if claims.role != Some("student") && claims.role != Some("admin") then
          Reject(403, InvalidRole)
        else if claims.role == Some("student") then
          Pass(StudentP(claims.registrationId))
        else
          Pass(AdminP(claims.staffId))
  }

  /** The header a client builds from a login response is let through, with
      the principal naming the logged-in user. */
  lemma {:induction false} IssuedTokenPasses(c: Primitives, claims: Claims)
    requires Sound(c)
    requires claims.role in {Some("student"), Some("admin")}
    ensures Authorise(c, Some(BearerPrefix + c.sign(claims))) ==
              if claims.role == Some("student") then Pass(StudentP(claims.registrationId))
              else Pass(AdminP(claims.staffId))
  {
    var token := c.sign(claims);
    var header := BearerPrefix + token;
    assert StartsWith(header, BearerPrefix);
    assert header[|BearerPrefix|..] == token;
    assert TakeUntil(token, ' ') == token by {
      TakeUntilWhole(token, ' ');
    }
    assert c.verify(token) == Some(claims);
  }

  /** A string without the separator is taken whole. */
  lemma {:induction false} TakeUntilWhole(s: string, d: char)
    requires d !in s
    ensures TakeUntil(s, d) == s
    decreases |s|
  {
    if |s| > 0 {
      TakeUntilWhole(s[1..], d);
      assert s == [s[0]] + s[1..];
    }
  }
}
