/** POST /api/auth/delete-account (app/api/auth/delete-account/route.ts):
    records a deletion request valid for 24 hours and, when an email
    service is configured, mails the confirmation link built from the
    delete-account template. */
module DeleteAccount {
  import opened JsRuntime
  import opened ServerTables
  import opened ConfirmDelete

  /** 24 hours in milliseconds. */
  const RequestLifetime: int := 24 * 60 * 60 * 1000

  const DefaultSiteUrl: string := "http://localhost:3000"

  const Subject: string := "Confirm Account Deletion - CalTrack"

  /** The text the token encodes: the user id, a colon, and the clock in
      milliseconds. */
  function TokenSource(userId: string, issuedAt: nat): (r: string)
    ensures |r| > |userId| && r[..|userId|] == userId && r[|userId|] == ':'
    ensures r[|userId| + 1..] == NatToString(issuedAt)
  {
    userId + ":" + NatToString(issuedAt)
  }

  /** Two requests made by the same user at different milliseconds encode
      different texts. */
  lemma TokenSourceInjective(userId: string, a: nat, b: nat)
    requires TokenSource(userId, a) == TokenSource(userId, b)
    ensures a == b
  {
    assert NatToString(a) == TokenSource(userId, a)[|userId| + 1..];
    NatToStringInjective(a, b);
  }

  /** The row the route inserts. The clock is read twice: once for the
      token, once for the expiry. */
  function NewRequest(userId: string, issuedAt: nat, now: nat, encode: string -> string): (q: DeletionRequest)
    ensures q.userId == userId && q.token == encode(TokenSource(userId, issuedAt))
    ensures q.expiresAt == now + RequestLifetime
  {
    DeletionRequest(userId, encode(TokenSource(userId, issuedAt)), now + RequestLifetime)
  }

  function SiteUrl(configured: Option<string>): (r: string)
    ensures Truthy(configured) ==> r == configured.value
    ensures !Truthy(configured) ==> r == DefaultSiteUrl
  {
    if Truthy(configured) then configured.value else DefaultSiteUrl
  }

  function ConfirmationUrl(siteUrl: string, token: string): string {
    siteUrl + "/api/auth/confirm-delete?token=" + token
  }

  // ---------------------------------------------------------------------
  // Placeholder substitution: `{{`, optional white space, `.Name`,
  // optional white space, `}}`, every occurrence, left to right.

  /** Every character of s is white space. */
  ghost predicate AllSpace(s: string) {
    forall i | 0 <= i < |s| :: IsSpace(s[i])
  }

  /** A placeholder for the name with the given white space inside its
      braces, followed by the text rest. */
  function Placeholder(name: string, before: string, after: string, rest: string): string {
    "{{" + (before + ("." + (name + (after + ("}}" + rest)))))
  }

  /** Two braces, the white space, the dot, the name, two braces. */
  function PlaceholderLength(name: string, before: string, after: string): nat {
    5 + |before| + |name| + |after|
  }

  /** The length of the placeholder for name that s starts with, if any:
      the regular expression reads `{{` and then goes on in DotAndName. */
  function PlaceholderAt(s: string, name: string): (r: Option<nat>)
    ensures r.Some? ==> 4 <= r.value <= |s|
  {
    if |s| >= 2 && s[0] == '{' && s[1] == '{' then DotAndName(s[2..], name, 2) else None
  }

  /** After `{{`: white space, then `.` and the name, then Closing. n
      counts the characters read so far. */
  function DotAndName(s: string, name: string, n: nat): (r: Option<nat>)
    ensures r.Some? ==> n + 2 <= r.value <= n + |s|
    decreases |s|
  {
    if s != [] && IsSpace(s[0]) then DotAndName(s[1..], name, n + 1)
    else if s != [] && s[0] == '.' && StartsWith(s[1..], name) then Closing(s[1 + |name|..], n + 1 + |name|)
    else None
  }

  /** After the name: white space, then `}}`. */
  function Closing(s: string, n: nat): (r: Option<nat>)
    ensures r.Some? ==> n + 2 <= r.value <= n + |s|
    decreases |s|
  {
    if s != [] && IsSpace(s[0]) then Closing(s[1..], n + 1)
    else if |s| >= 2 && s[0] == '}' && s[1] == '}' then Some(n + 2)
    else None
  }

  /** White space and `}}` are read to the end of the braces. */
  lemma {:induction false} ClosingOf(after: string, t: string, n: nat)
    requires AllSpace(after)
    ensures var s := after + ("}}" + t);
      Closing(s, n) == Some(n + |after| + 2) && s[|after| + 2..] == t
  {
    var s := after + ("}}" + t);
    if after != [] {
      assert s[0] == after[0] && s[1..] == after[1..] + ("}}" + t);
      ClosingOf(after[1..], t, n + 1);
    } else {
      assert s == "}}" + t;
    }
  }

  /** White space, the dot and the name, and then ClosingOf. */
  lemma {:induction false} DotAndNameOf(name: string, before: string, after: string, t: string, n: nat)
    requires AllSpace(before) && AllSpace(after)
    ensures var s := before + ("." + (name + (after + ("}}" + t))));
      var m := |before| + 1 + |name| + |after| + 2;
      DotAndName(s, name, n) == Some(n + m) && s[m..] == t
  {
    var rest := after + ("}}" + t);
    var s := before + ("." + (name + rest));
    if before != [] {
      assert s[0] == before[0] && s[1..] == before[1..] + ("." + (name + rest));
      DotAndNameOf(name, before[1..], after, t, n + 1);
    } else {
      assert s == "." + (name + rest);
      assert s[1..] == name + rest;
      assert s[1..][..|name|] == name;
      assert s[1 + |name|..] == rest;
      ClosingOf(after, t, n + 1 + |name|);
    }
  }

  /** A placeholder for the name is recognised, whatever white space it
      holds, and measured exactly: the rest follows it. */
  lemma PlaceholderAtOf(name: string, before: string, after: string, t: string)
    requires AllSpace(before) && AllSpace(after)
    ensures var s := Placeholder(name, before, after, t);
      PlaceholderAt(s, name) == Some(PlaceholderLength(name, before, after))
      && s[PlaceholderLength(name, before, after)..] == t
  {
    var s := Placeholder(name, before, after, t);
    assert s[2..] == before + ("." + (name + (after + ("}}" + t))));
    DotAndNameOf(name, before, after, t, 2);
  }

  /** What Closing reads, up to m, is white space and `}}`. */
  lemma {:induction false} ClosingSound(s: string, n: nat, m: nat) returns (after: string)
    requires Closing(s, n) == Some(m)
    ensures AllSpace(after) && s == after + ("}}" + s[m - n..])
  {
    if s != [] && IsSpace(s[0]) {
      var after' := ClosingSound(s[1..], n + 1, m);
      assert s[1..][m - n - 1..] == s[m - n..];
      after := [s[0]] + after';
      PrependFirst(s, after', "}}" + s[m - n..]);
      PrependSpace(s[0], after');
    } else {
      after := [];
      assert s == after + ("}}" + s[2..]);
    }
  }

  /** What DotAndName reads, up to m, is white space, the dot, the name,
      and what Closing reads. */
  lemma {:induction false} DotAndNameSound(s: string, name: string, n: nat, m: nat) returns (before: string, after: string)
    requires DotAndName(s, name, n) == Some(m)
    ensures AllSpace(before) && AllSpace(after)
    ensures s == before + ("." + (name + (after + ("}}" + s[m - n..]))))
    decreases |s|, 1
  {
    if s != [] && IsSpace(s[0]) {
      before, after := SpaceSound(s, name, n, m);
    } else {
      after := DotSound(s, name, n, m);
      before := [];
    }
  }

  /** The case of DotAndNameSound where s starts with white space. */
  lemma SpaceSound(s: string, name: string, n: nat, m: nat) returns (before: string, after: string)
    requires s != [] && IsSpace(s[0]) && DotAndName(s[1..], name, n + 1) == Some(m)
    ensures AllSpace(before) && AllSpace(after)
    ensures s == before + ("." + (name + (after + ("}}" + s[m - n..]))))
    decreases |s|, 0
  {
    var before';
    before', after := DotAndNameSound(s[1..], name, n + 1, m);
    assert s[1..][m - n - 1..] == s[m - n..];
    before := [s[0]] + before';
    PrependFirst(s, before', "." + (name + (after + ("}}" + s[m - n..]))));
    PrependSpace(s[0], before');
  }

  /** The case of DotAndNameSound where s starts with the dot. */
  lemma DotSound(s: string, name: string, n: nat, m: nat) returns (after: string)
    requires s != [] && s[0] == '.' && StartsWith(s[1..], name)
    requires Closing(s[1 + |name|..], n + 1 + |name|) == Some(m)
    ensures AllSpace(after)
    ensures s == "." + (name + (after + ("}}" + s[m - n..])))
  {
    var k := 1 + |name|;
    after := ClosingSound(s[k..], n + k, m);
    assert s[k..][m - n - k..] == s[m - n..];
    DotThenName(s, name);
  }

  /** White space followed by white space is white space. */
  lemma PrependSpace(c: char, w: string)
    requires IsSpace(c) && AllSpace(w)
    ensures AllSpace([c] + w)
  {
    forall i | 0 <= i < |[c] + w| ensures IsSpace(([c] + w)[i]) {
      if i > 0 { assert ([c] + w)[i] == w[i - 1]; }
    }
  }

  /** s is its first character followed by the rest. */
  lemma PrependFirst(s: string, w: string, x: string)
    requires s != [] && s[1..] == w + x
    ensures s == ([s[0]] + w) + x
  {
    assert s == [s[0]] + s[1..];
  }

  /** Text that starts with `.` and the name is those followed by the rest. */
  lemma DotThenName(s: string, name: string)
    requires s != [] && s[0] == '.' && StartsWith(s[1..], name)
    ensures s == "." + (name + s[1 + |name|..])
  {
    assert s[1..] == s[1..][..|name|] + s[1 + |name|..];
  }

  /** What PlaceholderAt finds is a placeholder for the name: s is that
      placeholder followed by the rest of s. */
  lemma PlaceholderAtSound(s: string, name: string)
    requires PlaceholderAt(s, name).Some?
    ensures exists before, after ::
      AllSpace(before) && AllSpace(after)
      && s == Placeholder(name, before, after, s[PlaceholderAt(s, name).value..])
  {
    var m := PlaceholderAt(s, name).value;
    var before, after := DotAndNameSound(s[2..], name, 2, m);
    var rest := s[2..][m - 2..];
    assert rest == s[m..];
    assert s == "{{" + s[2..] by {
      assert s == s[..2] + s[2..];
    }
    assert s == Placeholder(name, before, after, rest);
  }

  /** String.prototype.replace with a global regular expression for the
      placeholder of name. Text without an opening brace holds no
      placeholder and passes through unchanged. */
  function Replace(s: string, name: string, value: string): (r: string)
    ensures NoBrace(s) ==> r == s
    decreases |s|
  {
    if s == [] then []
    else
      assert NoBrace(s) ==> NoBrace(s[1..]) && PlaceholderAt(s, name).None? by {
        if NoBrace(s) { assert s[0] != '{'; }
      }
      match PlaceholderAt(s, name)
      case Some(n) => value + Replace(s[n..], name, value)
      case None => [s[0]] + Replace(s[1..], name, value)
  }

  ghost predicate NoBrace(s: string) {
    '{' !in s
  }

  /** A first character that is not a brace is copied. */
  lemma ReplaceStep(s: string, name: string, value: string)
    requires s != [] && s[0] != '{'
    ensures Replace(s, name, value) == [s[0]] + Replace(s[1..], name, value)
  {
  }

  /** A brace-free prefix passes through unchanged. */
  lemma {:induction false} ReplacePrefix(a: string, t: string, name: string, value: string)
    requires NoBrace(a)
    ensures Replace(a + t, name, value) == a + Replace(t, name, value)
  {
    if a != [] {
      assert (a + t)[0] == a[0] && (a + t)[1..] == a[1..] + t;
      calc {
        Replace(a + t, name, value);
        == { ReplaceStep(a + t, name, value); }
        [a[0]] + Replace(a[1..] + t, name, value);
        == { assert NoBrace(a[1..]); ReplacePrefix(a[1..], t, name, value); }
        [a[0]] + (a[1..] + Replace(t, name, value));
        == { assert [a[0]] + a[1..] == a; }
        a + Replace(t, name, value);
      }
    } else {
      assert a + t == t;
    }
  }

  /** Every placeholder for the name, whatever white space it holds, is
      replaced by the value. */
  lemma ReplacePlaceholder(name: string, before: string, after: string, t: string, value: string)
    requires AllSpace(before) && AllSpace(after)
    ensures Replace(Placeholder(name, before, after, t), name, value) == value + Replace(t, name, value)
  {
    PlaceholderAtOf(name, before, after, t);
  }

  /** The email body: the three placeholders substituted in turn. A
      template without placeholders is mailed as it is. */
  function EmailHtml(template: string, confirmationUrl: string, email: string, siteUrl: string): (r: string)
    ensures NoBrace(template) ==> r == template
  {
    Replace(Replace(Replace(template, "ConfirmationURL", confirmationUrl), "Email", email), "SiteURL", siteUrl)
  }

  /** Substituting into brace-free text around one placeholder gives the
      text with the value in its place. */
  lemma ReplaceInContext(head: string, before: string, after: string, tail: string, name: string, value: string)
    requires NoBrace(head) && NoBrace(tail)
    requires AllSpace(before) && AllSpace(after)
    ensures Replace(head + Placeholder(name, before, after, tail), name, value) == head + value + tail
  {
    ReplacePrefix(head, Placeholder(name, before, after, tail), name, value);
    ReplacePlaceholder(name, before, after, tail, value);
  }

  /** A template whose only brace is one confirmation-link placeholder
      yields the text around it with the link in its place. */
  lemma LinkTemplateFilled(head: string, before: string, after: string, tail: string,
                           url: string, email: string, siteUrl: string)
    requires NoBrace(head) && NoBrace(tail) && NoBrace(url)
    requires AllSpace(before) && AllSpace(after)
    ensures EmailHtml(head + Placeholder("ConfirmationURL", before, after, tail), url, email, siteUrl)
      == head + url + tail
  {
    var filled := head + url + tail;
    ReplaceInContext(head, before, after, tail, "ConfirmationURL", url);
    assert NoBrace(filled);
  }

  // ---------------------------------------------------------------------
  // The route

  /** The message the route mails. */
  datatype Email = Email(from: string, to: Option<string>, subject: string, html: string)

  datatype DeleteReply = Unauthorized | SendFailed | Requested

  function Reply(r: DeleteReply): JsonReply {
    match r
    case Unauthorized => JsonReply(401, "Unauthorized")
    case SendFailed => JsonReply(500, "Failed to send confirmation email")
    case Requested => JsonReply(200, "Confirmation email sent successfully")
  }

  /** The environment the route reads: the email service key, the sender
      address, and the site address. */
  datatype Mailer = Mailer(apiKey: Option<string>, fromEmail: Option<string>, siteUrl: Option<string>)

  predicate Configured(m: Mailer) {
    Truthy(m.apiKey) && Truthy(m.fromEmail)
  }

  /** The route: the clock readings, the base64url encoding, the template
      file and whether the insert or the send fails are parameters. The
      insert's error is not looked at; a template read or a send that
      throws gives 500 after the row is in place. */
  method DeleteAccountRoute(db: ServerDb, user: Option<SessionUser>, issuedAt: nat, now: nat,
                            encode: string -> string, insertFails: bool, mailer: Mailer,
                            template: string, sendThrows: bool)
    returns (reply: JsonReply, sent: Option<Email>)
    modifies db
    ensures db.authUsers == old(db.authUsers) && db.welcomeSent == old(db.welcomeSent)
    ensures user.None? ==> reply == Reply(Unauthorized) && sent.None? && db.deletionRequests == old(db.deletionRequests)
    ensures user.Some? ==>
      db.deletionRequests == old(db.deletionRequests) + (if insertFails then [] else [NewRequest(user.value.id, issuedAt, now, encode)])
    ensures user.Some? ==> reply == Reply(if Configured(mailer) && sendThrows then SendFailed else Requested)
    ensures sent.Some? <==> user.Some? && Configured(mailer) && !sendThrows
    ensures sent.Some? ==>
      var site := SiteUrl(mailer.siteUrl);
      var token := encode(TokenSource(user.value.id, issuedAt));
      sent.value == Email(mailer.fromEmail.value, user.value.email, Subject,
        EmailHtml(template, ConfirmationUrl(site, token), user.value.email.GetOr(""), site))
  {
    if user.None? {
      return Reply(Unauthorized), None;
    }
    var u := user.value;
    var token := encode(TokenSource(u.id, issuedAt));
    var expiresAt := now + RequestLifetime;
    if !insertFails {
      db.deletionRequests := db.deletionRequests + [DeletionRequest(u.id, token, expiresAt)];
    }
    if Configured(mailer) {
      var site := SiteUrl(mailer.siteUrl);
      var url := ConfirmationUrl(site, token);
      var html := template;
      html := Replace(html, "ConfirmationURL", url);
      html := Replace(html, "Email", if Truthy(u.email) then u.email.value else "");
      html := Replace(html, "SiteURL", site);
      if sendThrows {
        return Reply(SendFailed), None;
      }
      return Reply(Requested), Some(Email(mailer.fromEmail.value, u.email, Subject, html));
    }
    return Reply(Requested), None;
  }

  /** The request a successful call records is honoured by the
      confirmation link until its expiry, inclusive, and then refused as
      expired; honouring it deletes exactly the requesting user. */
  lemma RequestThenConfirm(requests: seq<DeletionRequest>, users: set<string>, userId: string,
                           issuedAt: nat, now: nat, encode: string -> string, clickedAt: int)
    requires encode(TokenSource(userId, issuedAt)) != ""
    requires forall i | 0 <= i < |requests| :: requests[i].token != encode(TokenSource(userId, issuedAt))
    requires userId in users
    ensures var q := NewRequest(userId, issuedAt, now, encode);
      var o := Confirm(requests + [q], users, Some(q.token), clickedAt, false);
      && o.redirect == (if clickedAt <= now + RequestLifetime then Deleted else TokenExpired)
      && o.requests == requests
      && (o.redirect == Deleted ==> o.users == users - {userId})
  {
    var q := NewRequest(userId, issuedAt, now, encode);
    WithTokenSnoc(requests, q);
    WithTokenNone(requests, q.token);
    assert WithToken(requests + [q], q.token) == [q];
    FilterSnoc(requests, q, (x: DeletionRequest) => x.token != q.token);
    WithoutAbsentToken(requests, q.token);
  }
}
