/** The hosted backend as the client hooks see it. Only the requests that
    change something are recorded, in the order they are sent; what the
    backend answers (an error, rows, or nothing) is supplied to each
    operation by its caller. */
module Remote {
  import opened JsRuntime
  import opened Types
  import opened GuestStore

  /** The answer to a query: an error, the rows returned, or no rows and no
      error (`data` null); a thrown exception leaves the hooks in the same
      state as no rows. */
  datatype Response<T> = Failed | Rows(rows: T) | NoRows

  /** A request that writes to the backend. */
  datatype Write =
    | SignUpRequest(email: string, password: string)
    | SignOutRequest
    | InsertLog(userId: Option<string>, entry: LogEntry)
    | InsertFood(userId: Option<string>, food: FoodEntry)
    | DeleteLog(logId: string)
    | PatchProfile(profileId: string, fields: PartialProfile)

  class RemoteStore {
    /** Every write request sent so far, oldest first. */
    var journal: seq<Write>

    constructor()
      ensures journal == []
    {
      journal := [];
    }

    method Send(w: Write)
      modifies this
      ensures journal == old(journal) + [w]
    {
      journal := journal + [w];
    }
  }
}
