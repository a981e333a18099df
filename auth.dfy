/** The authentication middleware (middlewares/auth.js): reading the bearer
    credential, verifying it (JWT verification is an opaque function from
    token to claims) and the role gate. */
module Auth {
  import opened Wrappers
  import opened Text
  import opened Http

  /** The JWT payload `{ id, email, role }` that `auth` signs. */
  datatype Claims = Claims(id: string, email: string, role: string)

  /** `extractToken`: no credential when the header is absent or empty;
      `Bearer <token>` (the word in any case, one space) yields the token;
      anything else yields the whole trimmed header. */
  function ExtractToken(header: Option<string>): (r: Option<string>)
    ensures r.None? <==> header.None? || header.value == []
    ensures r.Some? && r.value != Trim(header.value) ==>
              var t := Trim(header.value);
              && |r.value| < |t|
              && t == t[..|t| - |r.value| - 1] + [' '] + r.value
              && EqualsIgnoreCase(t[..|t| - |r.value| - 1], "Bearer")
              && ' ' !in r.value
    ensures r.Some? && Trim(header.value) != [] ==> r.value != []
  {
    match header
    case None => None
    case Some(h) =>
      if h == [] then None
      else
        var t := Trim(h);
        var parts := Split(t, ' ');
        if |parts| == 2 && EqualsIgnoreCase(parts[0], "Bearer") then
          BearerParts(t, parts);
          Some(parts[1])
        else Some(t)
  }

  lemma BearerParts(t: string, parts: seq<string>)
    requires IsTrimmed(t) && parts == Split(t, ' ') && |parts| == 2
    ensures t == parts[0] + [' '] + parts[1] && parts[1] != [] && ' ' !in parts[1]
    ensures |parts[1]| < |t| && t[..|t| - |parts[1]| - 1] == parts[0]
  {
    JoinSplit(t, ' ');
    assert Join(parts[1..], ' ') == parts[1];
    assert t[..|parts[0]|] == parts[0];
  }

  /** Round trip: a header built as `"Bearer " + t` gives back `t`, for a
      non-empty `t` without spaces and without whitespace at its ends. */
  lemma {:induction false} ExtractBearer(t: string)
    requires t != [] && ' ' !in t && IsTrimmed(t)
    ensures ExtractToken(Some("Bearer " + t)) == Some(t)
  {
    var h := "Bearer " + t;
    assert h == "Bearer" + [' '] + t;
    assert IsTrimmed(h);
    TrimNoEdges(h);
    ExtractBearerAnyCase(h, "Bearer", t);
  }

  /** The scheme word may come in any case: whenever the trimmed header is
      `b + " " + t` with `b` equal to "Bearer" ignoring case and `t` a
      non-empty token without spaces, the token is `t`. */
  lemma {:induction false} ExtractBearerAnyCase(h: string, b: string, t: string)
    requires Trim(h) == b + [' '] + t && EqualsIgnoreCase(b, "Bearer")
    requires t != [] && ' ' !in t
    ensures ExtractToken(Some(h)) == Some(t)
  {
    assert |b| == 6 by {
      assert |Lower(b)| == |Lower("Bearer")|;
    }
    forall k | 0 <= k < |b| ensures b[k] != ' ' {
      assert LowerChar(b[k]) == Lower(b)[k] == Lower("Bearer")[k];
    }
    assert Join([b, t], ' ') == Trim(h);
    SplitJoin([b, t], ' ');
  }

  /** A header that is already a bare token (trimmed, no space) is returned as it is. */
  lemma {:induction false} ExtractBare(t: string)
    requires t != [] && ' ' !in t && IsTrimmed(t)
    ensures ExtractToken(Some(t)) == Some(t)
  {
    TrimNoEdges(t);
    SplitPrefix(t, [], ' ');
    assert t + [] == t;
  }

  /** The step a middleware takes: continue with the principal, or answer. */
  datatype Step = Next(user: Claims) | Halt(status: nat, reason: Reason)

  /** `validarToken`: 401 without a credential, 403 when verification fails,
      otherwise continue with the verified payload as `req.user`. */
  function ValidarToken(header: Option<string>, verify: string -> Option<Claims>): (s: Step)
    ensures s.Halt? ==> s.status == 401 || s.status == 403
    ensures s.Next? <==> ExtractToken(header).Some? && ExtractToken(header).value != []
                         && verify(ExtractToken(header).value).Some?
    ensures s.Next? ==> s.user == verify(ExtractToken(header).value).value
    ensures s == Halt(401, TokenRequired) <==> ExtractToken(header).None? || ExtractToken(header).value == []
    ensures s == Halt(403, TokenInvalid) <==> ExtractToken(header).Some? && ExtractToken(header).value != []
                                              && verify(ExtractToken(header).value).None?
  {
    match ExtractToken(header)
    case None => Halt(401, TokenRequired)
    case Some(t) =>
      if t == [] then Halt(401, TokenRequired)
      else match verify(t)
        case None => Halt(403, TokenInvalid)
        case Some(claims) => Next(claims)
  }

  datatype Gate = Pass | Stop(status: nat, reason: Reason)

  /** `checkRole(roles)`: 401 without a principal, 403 when its role is not
      in the list, pass otherwise; nothing but list membership decides. */
  function CheckRole(roles: seq<string>, user: Option<Claims>): (g: Gate)
    ensures g.Pass? <==> user.Some? && user.value.role in roles
    ensures g.Stop? ==> g == (if user.None? then Stop(401, NotAuthenticated) else Stop(403, RoleForbidden))
  {
    if user.None? then Stop(401, NotAuthenticated)
    else if user.value.role !in roles then Stop(403, RoleForbidden)
    else Pass
  }

  /** Whether a request reaches its controller, and with which `req.user`. */
  datatype Admission = Admitted(user: Option<Claims>) | Refused(status: nat, reason: Reason)

  /** The chain `[validators], validarToken, checkRole(roles), validar` of an
      authenticated route (`roles == None` when the route has no role gate,
      `valid` is the verdict of its validators, which `validar` reports
      only after authentication and the role gate). */
  function Protected(header: Option<string>, verify: string -> Option<Claims>,
                     roles: Option<seq<string>>, valid: bool): (a: Admission)
    ensures a.Admitted? <==> ValidarToken(header, verify).Next?
                             && (roles.Some? ==> ValidarToken(header, verify).user.role in roles.value)
                             && valid
    ensures a.Admitted? ==> a.user == Some(ValidarToken(header, verify).user)
    ensures ValidarToken(header, verify).Halt? ==>
              a == Refused(ValidarToken(header, verify).status, ValidarToken(header, verify).reason)
    ensures (ValidarToken(header, verify).Next? && roles.Some?
             && ValidarToken(header, verify).user.role !in roles.value) ==> a == Refused(403, RoleForbidden)
    ensures (ValidarToken(header, verify).Next?
             && (roles.Some? ==> ValidarToken(header, verify).user.role in roles.value)
             && !valid) ==> a == Refused(400, ValidationErrors)
  {
    match ValidarToken(header, verify)
    case Halt(status, reason) => Refused(status, reason)
    case Next(user) =>
      var gate := if roles.Some? then CheckRole(roles.value, Some(user)) else Pass;
      if gate.Stop? then Refused(gate.status, gate.reason)
      else if !valid then Refused(400, ValidationErrors)
      else Admitted(Some(user))
  }

  /** The chain `[validators], validar` of a route without `validarToken`:
      the controller then runs with no `req.user`. */
  function Open(valid: bool): (a: Admission)
    ensures a.Admitted? <==> valid
    ensures a.Admitted? ==> a.user.None?
    ensures a.Refused? ==> a == Refused(400, ValidationErrors)
  {
    if valid then Admitted(None) else Refused(400, ValidationErrors)
  }
}
