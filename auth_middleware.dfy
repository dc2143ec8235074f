/** The admin authentication middleware: the bearer token is taken from
    the `Authorization` header, verified, and resolved to an admin, who is
    attached to the request before the next handler runs; every failure
    answers 401. Token verification is a parameter of the model. */
module AuthMiddleware {
  import opened Common
  import opened Text
  import opened Store

  const BearerPrefix: string := "Bearer "
  const Unauthorized: nat := 401
  const NoTokenMessage: string := "No token, authorization denied"
  const AdminNotFoundMessage: string := "Admin not found"
  const TokenInvalidMessage: string := "Token is not valid"

  /** What token verification yields: it throws, or returns a payload
      whose `adminId` may be missing. */
  datatype Decoded = Invalid | Valid(adminId: Option<Id>)

  datatype Outcome = Denied(reply: Reply) | Authorized(admin: Admin)

  /** `header?.replace('Bearer ', '')`: the first occurrence of the prefix
      is removed wherever it stands; a header without it is kept whole. */
  function ExtractToken(header: Option<string>): (token: Option<string>)
    ensures header.None? <==> token.None?
    ensures header.Some? && !Contains(header.value, BearerPrefix) ==> token == header
    ensures header.Some? && Contains(header.value, BearerPrefix) ==>
              |token.value| == |header.value| - |BearerPrefix|
  {
    if header.None? then None else Some(ReplaceFirst(header.value, BearerPrefix, ""))
  }

  /** The decision of `verifyAdmin` for a header, a verifier and the stored admins. */
  function Classify(header: Option<string>, verify: string -> Decoded, admins: seq<Admin>): (o: Outcome)
    ensures o.Denied? ==> o.reply.status == Unauthorized
    ensures header.None? ==> o == Denied(Reply(Unauthorized, NoTokenMessage))
    ensures !Present(ExtractToken(header)) <==> o == Denied(Reply(Unauthorized, NoTokenMessage))
    ensures Present(ExtractToken(header)) && verify(ExtractToken(header).value).Invalid? ==>
              o == Denied(Reply(Unauthorized, TokenInvalidMessage))
    ensures o.Authorized? <==>
              Present(ExtractToken(header))
              && verify(ExtractToken(header).value).Valid?
              && verify(ExtractToken(header).value).adminId.Some?
              && FindAdminById(admins, verify(ExtractToken(header).value).adminId.value).Some?
    ensures o.Authorized? ==>
              o.admin in admins && verify(ExtractToken(header).value).adminId == Some(o.admin.id)
    ensures Present(ExtractToken(header)) && verify(ExtractToken(header).value).Valid? ==>
              var adminId := verify(ExtractToken(header).value).adminId;
              (adminId.None? || FindAdminById(admins, adminId.value).None?) ==>
                o == Denied(Reply(Unauthorized, AdminNotFoundMessage))
  {
    var token := ExtractToken(header);
    if !Present(token) then Denied(Reply(Unauthorized, NoTokenMessage))
    else match verify(token.value)
      case Invalid => Denied(Reply(Unauthorized, TokenInvalidMessage))
      case Valid(adminId) =>
        if adminId.None? then Denied(Reply(Unauthorized, AdminNotFoundMessage))
        else match FindAdminById(admins, adminId.value)
          case None => Denied(Reply(Unauthorized, AdminNotFoundMessage))
          case Some(i) => Authorized(admins[i])
  }

  /** The token is what follows the first `"Bearer "`, even when that is
      not at the start of the header: the text before it is kept. */
  lemma ExtractTokenAnywhere(before: string, after: string)
    requires forall j :: 0 <= j < |before| ==> !OccursAt(before + BearerPrefix + after, BearerPrefix, j)
    ensures ExtractToken(Some(before + BearerPrefix + after)) == Some(before + after)
  {
    var h := before + BearerPrefix + after;
    assert h[|before|..|before| + |BearerPrefix|] == BearerPrefix;
    assert OccursAt(h, BearerPrefix, |before|);
    assert IndexOf(h, BearerPrefix) == Some(|before|);
    assert h[..|before|] == before;
    assert h[|before| + |BearerPrefix|..] == after;
    assert ReplaceFirst(h, BearerPrefix, "") == before + "" + after;
    assert before + "" + after == before + after;
  }

  /** A header that is exactly `"Bearer "` leaves an empty token, which is
      refused as a missing one. */
  lemma BareBearerRefused(verify: string -> Decoded, admins: seq<Admin>)
    ensures ExtractToken(Some(BearerPrefix)) == Some("")
    ensures Classify(Some(BearerPrefix), verify, admins) == Denied(Reply(Unauthorized, NoTokenMessage))
  {
    ReplaceFirstPrefix(BearerPrefix, "", "");
    assert BearerPrefix + "" == BearerPrefix;
  }

  /** The request as the middleware sees it: the header it reads, the
      admin it attaches, how often it passed control on, and the reply it
      sent. */
  class Request {
    const authorization: Option<string>
    var admin: Option<Admin>
    var nextCalls: nat
    var response: Option<Reply>

    constructor (authorization: Option<string>)
      ensures this.authorization == authorization
      ensures admin.None? && nextCalls == 0 && response.None?
    {
      this.authorization := authorization;
      admin := None;
      nextCalls := 0;
      response := None;
    }

    /** `verifyAdmin`: on success the admin is attached and `next` is called
        exactly once with no reply sent; otherwise the 401 reply is sent and
        neither happens. */
    method VerifyAdmin(db: Database, verify: string -> Decoded)
      modifies this`admin, this`nextCalls, this`response
      ensures var o := Classify(authorization, verify, db.admins);
              o.Authorized? ==>
                admin == Some(o.admin) && nextCalls == old(nextCalls) + 1 && response == old(response)
      ensures var o := Classify(authorization, verify, db.admins);
              o.Denied? ==>
                response == Some(o.reply) && admin == old(admin) && nextCalls == old(nextCalls)
    {
      var token := ExtractToken(authorization);
      if !Present(token) {
        response := Some(Reply(Unauthorized, NoTokenMessage));
        return;
      }
      var decoded := verify(token.value);
      if decoded.Invalid? {
        response := Some(Reply(Unauthorized, TokenInvalidMessage));
        return;
      }
      var found := if decoded.adminId.None? then None else FindAdminById(db.admins, decoded.adminId.value);
      if found.None? {
        response := Some(Reply(Unauthorized, AdminNotFoundMessage));
        return;
      }
      admin := Some(db.admins[found.value]);
      nextCalls := nextCalls + 1;
    }
  }
}
