/** POST /api/auth/welcome (app/api/auth/welcome/route.ts): records, once
    per confirmed user, that the welcome email was sent. */
module Welcome {
  import opened JsRuntime
  import opened ServerTables

  datatype WelcomeReply = Unauthorized | EmailNotConfirmed | AlreadySent | TrackingFailed | Sent

  function Reply(r: WelcomeReply): JsonReply {
    match r
    case Unauthorized => JsonReply(401, "Unauthorized")
    case EmailNotConfirmed => JsonReply(400, "Email not confirmed")
    case AlreadySent => JsonReply(200, "Welcome email already sent")
    case TrackingFailed => JsonReply(500, "Failed to track welcome email")
    case Sent => JsonReply(200, "Welcome email sent successfully")
  }

  /** The number of welcome_emails_sent rows for a user. */
  function Records(sent: seq<string>, userId: string): nat {
    multiset(sent)[userId]
  }

  /** At most one row per user. */
  ghost predicate AtMostOnce(sent: seq<string>) {
    forall u :: Records(sent, u) <= 1
  }

  datatype WelcomeOutcome = WelcomeOutcome(reply: WelcomeReply, sent: seq<string>)

  /** The route on the table value. `.single()` yields the existing record
      only when exactly one row matches the user. */
  function Welcome(sent: seq<string>, user: Option<SessionUser>, insertFails: bool): (o: WelcomeOutcome)
    ensures o.reply == Unauthorized <==> user.None?
    ensures o.reply == EmailNotConfirmed <==> user.Some? && !Truthy(user.value.emailConfirmedAt)
    ensures o.reply == AlreadySent <==>
      user.Some? && Truthy(user.value.emailConfirmedAt) && Records(sent, user.value.id) == 1
    ensures o.reply == TrackingFailed <==>
      user.Some? && Truthy(user.value.emailConfirmedAt) && Records(sent, user.value.id) != 1 && insertFails
    ensures o.reply == Sent <==>
      user.Some? && Truthy(user.value.emailConfirmedAt) && Records(sent, user.value.id) != 1 && !insertFails
    ensures o.reply == Sent ==> o.sent == sent + [user.value.id]
    ensures o.reply != Sent ==> o.sent == sent
    ensures o.reply == Sent || o.reply == TrackingFailed ==> Records(sent, user.value.id) != 1
  {
    if user.None? then WelcomeOutcome(Unauthorized, sent)
    else if !Truthy(user.value.emailConfirmedAt) then WelcomeOutcome(EmailNotConfirmed, sent)
    else if Records(sent, user.value.id) == 1 then WelcomeOutcome(AlreadySent, sent)
    else if insertFails then WelcomeOutcome(TrackingFailed, sent)
    else WelcomeOutcome(Sent, sent + [user.value.id])
  }

  /** The route against the table, step by step. */
  method WelcomeRoute(db: ServerDb, user: Option<SessionUser>, insertFails: bool) returns (reply: JsonReply)
    modifies db
    ensures var o := Welcome(old(db.welcomeSent), user, insertFails);
      reply == Reply(o.reply) && db.welcomeSent == o.sent
    ensures db.deletionRequests == old(db.deletionRequests) && db.authUsers == old(db.authUsers)
  {
    if user.None? {
      return Reply(Unauthorized);
    }
    var u := user.value;
    if !Truthy(u.emailConfirmedAt) {
      return Reply(EmailNotConfirmed);
    }
    if Records(db.welcomeSent, u.id) == 1 {
      return Reply(AlreadySent);
    }
    if insertFails {
      return Reply(TrackingFailed);
    }
    db.welcomeSent := db.welcomeSent + [u.id];
    return Reply(Sent);
  }

  /** Starting from at most one row per user, the route keeps it so. */
  lemma WelcomeKeepsAtMostOnce(sent: seq<string>, user: Option<SessionUser>, insertFails: bool)
    requires AtMostOnce(sent)
    ensures AtMostOnce(Welcome(sent, user, insertFails).sent)
  {
    var o := Welcome(sent, user, insertFails);
    if o.reply == Sent {
      forall u ensures Records(o.sent, u) <= 1 {
        assert multiset(o.sent) == multiset(sent) + multiset{user.value.id};
        assert Records(sent, u) <= 1;
        if u == user.value.id {
          assert Records(sent, u) == 0;
          assert Records(o.sent, u) == 1;
        } else {
          assert Records(o.sent, u) == Records(sent, u);
        }
      }
    }
  }

  /** Once the route has answered "sent", calling it again for the same
      user answers "already sent" and inserts nothing. */
  lemma WelcomeIdempotent(sent: seq<string>, user: Option<SessionUser>, insertFails: bool, againFails: bool)
    requires AtMostOnce(sent)
    requires Welcome(sent, user, insertFails).reply == Sent
    ensures var o := Welcome(sent, user, insertFails);
      Welcome(o.sent, user, againFails) == WelcomeOutcome(AlreadySent, o.sent)
  {
    var o := Welcome(sent, user, insertFails);
    assert multiset(o.sent) == multiset(sent) + multiset{user.value.id};
    assert Records(sent, user.value.id) == 0;
  }

  /** Why the invariant matters: with two rows for a user `.single()` finds
      no record, and the route inserts a third. */
  lemma DuplicateRowsDefeatCheck(id: string, confirmedAt: string)
    requires confirmedAt != ""
    ensures Welcome([id, id], Some(SessionUser(id, None, Some(confirmedAt))), false) ==
      WelcomeOutcome(Sent, [id, id, id])
  {
    assert multiset([id, id])[id] == 2;
  }
}
