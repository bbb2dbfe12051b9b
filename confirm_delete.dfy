/** GET /api/auth/confirm-delete (app/api/auth/confirm-delete/route.ts):
    the link in the deletion email. The token must name exactly one
    pending request; an expired request is discarded; otherwise the user is
    deleted and then the request. */
module ConfirmDelete {
  import opened JsRuntime
  import opened ServerTables

  /** Where the route redirects. */
  datatype Redirect = InvalidToken | TokenExpired | UserNotFound | DeletionFailed | Deleted

  function Location(r: Redirect): string {
    match r
    case InvalidToken => "/?error=invalid-token"
    case TokenExpired => "/?error=token-expired"
    case UserNotFound => "/?error=user-not-found"
    case DeletionFailed => "/?error=deletion-failed"
    case Deleted => "/?deleted=success"
  }

  /** The redirect and the two tables after the route. */
  datatype Outcome = Outcome(redirect: Redirect, requests: seq<DeletionRequest>, users: set<string>)

  /** The route on table values: `.single()` finds a request only when
      exactly one row holds the token; the request is expired when its
      expiry is strictly before now. */
  function Confirm(requests: seq<DeletionRequest>, users: set<string>, token: Option<string>,
                   now: int, deleteFails: bool): (o: Outcome)
    ensures o.redirect == InvalidToken <==> !Truthy(token) || |WithToken(requests, token.value)| != 1
    ensures o.redirect == TokenExpired <==>
      Truthy(token) && |WithToken(requests, token.value)| == 1 && WithToken(requests, token.value)[0].expiresAt < now
    ensures o.redirect == UserNotFound <==>
      Truthy(token) && |WithToken(requests, token.value)| == 1 && WithToken(requests, token.value)[0].expiresAt >= now
      && WithToken(requests, token.value)[0].userId !in users
    ensures o.redirect == DeletionFailed <==>
      Truthy(token) && |WithToken(requests, token.value)| == 1 && WithToken(requests, token.value)[0].expiresAt >= now
      && WithToken(requests, token.value)[0].userId in users && deleteFails
    ensures o.redirect in {InvalidToken, UserNotFound, DeletionFailed} ==> o.requests == requests
    ensures o.redirect in {TokenExpired, Deleted} ==> o.requests == WithoutToken(requests, token.value)
    ensures o.redirect != Deleted ==> o.users == users
    ensures o.redirect == Deleted ==>
      var owner := WithToken(requests, token.value)[0].userId;
      owner in users && o.users == users - {owner}
  {
    if !Truthy(token) then Outcome(InvalidToken, requests, users)
    else
      var found := WithToken(requests, token.value);
      if |found| != 1 then Outcome(InvalidToken, requests, users)
      else if found[0].expiresAt < now then Outcome(TokenExpired, WithoutToken(requests, token.value), users)
      else if found[0].userId !in users then Outcome(UserNotFound, requests, users)
      else if deleteFails then Outcome(DeletionFailed, requests, users)
      else Outcome(Deleted, WithoutToken(requests, token.value), users - {found[0].userId})
  }

  /** The route against the tables: each step reads or writes them in the
      order the handler does, returning at the first failure. */
  method ConfirmDeleteRoute(db: ServerDb, token: Option<string>, now: int, deleteFails: bool) returns (redirect: Redirect)
    modifies db
    ensures var o := Confirm(old(db.deletionRequests), old(db.authUsers), token, now, deleteFails);
      redirect == o.redirect && db.deletionRequests == o.requests && db.authUsers == o.users
    ensures db.welcomeSent == old(db.welcomeSent)
  {
    if !Truthy(token) {
      return InvalidToken;
    }
    var found := WithToken(db.deletionRequests, token.value);
    if |found| != 1 {
      return InvalidToken;
    }
    var request := found[0];
    if request.expiresAt < now {
      db.deletionRequests := WithoutToken(db.deletionRequests, token.value);
      return TokenExpired;
    }
    if request.userId !in db.authUsers {
      return UserNotFound;
    }
    if deleteFails {
      return DeletionFailed;
    }
    db.authUsers := db.authUsers - {request.userId};
    db.deletionRequests := WithoutToken(db.deletionRequests, token.value);
    return Deleted;
  }

  /** A request is honoured up to and including the millisecond of its
      expiry, and refused as expired from the next one on. */
  lemma ExpiryIsInclusive(requests: seq<DeletionRequest>, users: set<string>, owner: string, token: string,
                          expiresAt: int, now: int)
    requires token != ""
    requires WithToken(requests, token) == [DeletionRequest(owner, token, expiresAt)]
    requires owner in users
    ensures Confirm(requests, users, Some(token), now, false).redirect == (if now <= expiresAt then Deleted else TokenExpired)
  {
  }

  /** A token is used at most once: after the route has discarded the
      request, either way, the same link is an invalid token. */
  lemma TokenSingleUse(requests: seq<DeletionRequest>, users: set<string>, token: Option<string>,
                       now: int, deleteFails: bool, later: int, laterFails: bool)
    requires Confirm(requests, users, token, now, deleteFails).redirect in {TokenExpired, Deleted}
    ensures var o := Confirm(requests, users, token, now, deleteFails);
      Confirm(o.requests, o.users, token, later, laterFails) == Outcome(InvalidToken, o.requests, o.users)
  {
    var o := Confirm(requests, users, token, now, deleteFails);
    WithTokenNone(o.requests, token.value);
  }
}
