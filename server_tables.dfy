/** The server-side tables the account routes under app/api/auth read and
    write: the pending account-deletion requests, the registered users,
    and the record of welcome emails sent. */
module ServerTables {
  import opened JsRuntime

  /** A row of account_deletion_requests; expiresAt is in milliseconds
      since the epoch. */
  datatype DeletionRequest = DeletionRequest(userId: string, token: string, expiresAt: int)

  /** The signed-in user a request carries: id, email, and the time the
      email was confirmed, if it was. */
  datatype SessionUser = SessionUser(id: string, email: Option<string>, emailConfirmedAt: Option<string>)

  /** A JSON response: its status code and its message or error text. */
  datatype JsonReply = JsonReply(status: nat, text: string)

  class ServerDb {
    var deletionRequests: seq<DeletionRequest>
    /** The ids of the users the auth service knows. */
    var authUsers: set<string>
    /** The user_id of each welcome_emails_sent row. */
    var welcomeSent: seq<string>

    constructor(deletionRequests: seq<DeletionRequest>, authUsers: set<string>, welcomeSent: seq<string>)
      ensures this.deletionRequests == deletionRequests && this.authUsers == authUsers && this.welcomeSent == welcomeSent
    {
      this.deletionRequests := deletionRequests;
      this.authUsers := authUsers;
      this.welcomeSent := welcomeSent;
    }
  }

  /** The requests carrying the token (`.eq('token', token)`). */
  function WithToken(requests: seq<DeletionRequest>, token: string): (r: seq<DeletionRequest>)
    ensures forall i | 0 <= i < |r| :: r[i].token == token
    ensures forall i | 0 <= i < |requests| :: requests[i].token == token ==> requests[i] in r
  {
    Filter(requests, (q: DeletionRequest) => q.token == token)
  }

  /** The table after `.delete().eq('token', token)`. */
  function WithoutToken(requests: seq<DeletionRequest>, token: string): (r: seq<DeletionRequest>)
    ensures forall i | 0 <= i < |r| :: r[i].token != token
    ensures forall i | 0 <= i < |requests| :: requests[i].token != token ==> requests[i] in r
  {
    Filter(requests, (q: DeletionRequest) => q.token != token)
  }

  /** Deleting a token nobody holds changes nothing. */
  lemma WithoutAbsentToken(requests: seq<DeletionRequest>, token: string)
    requires forall i | 0 <= i < |requests| :: requests[i].token != token
    ensures WithoutToken(requests, token) == requests
  {
    FilterAll(requests, (q: DeletionRequest) => q.token != token);
  }

  /** A table with one more request appended has that request among the
      holders of its token. */
  lemma WithTokenSnoc(requests: seq<DeletionRequest>, q: DeletionRequest)
    ensures WithToken(requests + [q], q.token) == WithToken(requests, q.token) + [q]
  {
    FilterSnoc(requests, q, (x: DeletionRequest) => x.token == q.token);
  }

  /** Nobody else holds the token. */
  lemma WithTokenNone(requests: seq<DeletionRequest>, token: string)
    requires forall i | 0 <= i < |requests| :: requests[i].token != token
    ensures WithToken(requests, token) == []
  {
    FilterNone(requests, (x: DeletionRequest) => x.token == token);
  }
}
