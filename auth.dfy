/** The account operations of lib/hooks/use-auth.ts: signing up (and
    carrying a guest's data over to the new account), updating the
    profile, signing out, and the user id the rest of the application
    uses. */
module Auth {
  import opened JsRuntime
  import opened Types
  import opened GuestStore
  import opened Remote

  datatype AuthUser = AuthUser(id: string, email: string)

  /** What the backend's sign-up answers: an error, no user and no error,
      or the new user. */
  datatype SignUpOutcome = SignUpFailed | NoUserCreated | Created(user: AuthUser)

  /** The six profile fields a guest's profile is carried over with. */
  const BackfillKeys: set<ProfileField> := {HeightKey, WeightKey, AgeKey, GenderKey, ActivityKey, GoalKey}

  /** The profile update sent on sign-up: the six fields, each only when
      the guest profile has it (JSON drops the undefined ones). */
  function Backfill(profile: PartialProfile): (r: PartialProfile)
    ensures r.Keys == profile.Keys * BackfillKeys
    ensures forall k | k in r :: r[k] == profile[k]
  {
    map k | k in profile && k in BackfillKeys :: profile[k]
  }

  /** The insert that carries one guest log over: same food id (not
      remapped), weight, meal and date. */
  function LogInsert(userId: string, log: FoodLog): Write {
    InsertLog(Some(userId), LogEntry(log.foodItemId, log.weightGrams, log.mealTime, log.date))
  }

  /** The insert that carries one custom food over (never a default one). */
  function FoodInsert(userId: string, food: FoodItem): Write {
    InsertFood(Some(userId), FoodEntry(food.categoryId, food.name, food.caloriesPer100g,
      food.proteinPer100g, food.carbsPer100g, food.fatPer100g, food.imageUrl))
  }

  function LogInserts(userId: string, logs: seq<FoodLog>): (r: seq<Write>)
    ensures |r| == |logs|
    ensures forall i | 0 <= i < |r| :: r[i] == LogInsert(userId, logs[i])
  {
    seq(|logs|, i requires 0 <= i < |logs| => LogInsert(userId, logs[i]))
  }

  function FoodInserts(userId: string, foods: seq<FoodItem>): (r: seq<Write>)
    ensures |r| == |foods|
    ensures forall i | 0 <= i < |r| :: r[i] == FoodInsert(userId, foods[i])
  {
    seq(|foods|, i requires 0 <= i < |foods| => FoodInsert(userId, foods[i]))
  }

  /** The writes that carry a guest's data to a new account, in order: the
      profile back-fill when the guest profile has any field, then one
      insert per log, then one insert per custom food. */
  function MigrationWrites(userId: string, data: GuestData): (r: seq<Write>)
    ensures |r| == (if |data.profile| > 0 then 1 else 0) + |data.foodLogs| + |data.customFoods|
    ensures |data.profile| > 0 <==> |r| > 0 && r[0].PatchProfile?
  {
    (if |data.profile| > 0 then [PatchProfile(userId, Backfill(data.profile))] else [])
    + LogInserts(userId, data.foodLogs)
    + FoodInserts(userId, data.customFoods)
  }

  /** The migration's shape: at most one profile update, first; every log
      insert before every food insert; one insert per log and per food,
      each under the new user id. */
  lemma MigrationWritesOrdered(userId: string, data: GuestData)
    ensures var w := MigrationWrites(userId, data);
      var p := if |data.profile| > 0 then 1 else 0;
      && |w| == p + |data.foodLogs| + |data.customFoods|
      && (|data.profile| > 0 <==> (|w| > 0 && w[0].PatchProfile?))
      && (forall i | 0 <= i < |w| :: w[i].PatchProfile? <==> i < p)
      && (forall i | p <= i < p + |data.foodLogs| :: w[i] == LogInsert(userId, data.foodLogs[i - p]))
      && (forall i | p + |data.foodLogs| <= i < |w| :: w[i] == FoodInsert(userId, data.customFoods[i - p - |data.foodLogs|]))
      && (forall i, j | 0 <= i < j < |w| :: w[j].InsertLog? ==> !w[i].InsertFood?)
  {
    var w := MigrationWrites(userId, data);
    var p := if |data.profile| > 0 then 1 else 0;
    var logs := LogInserts(userId, data.foodLogs);
    var foods := FoodInserts(userId, data.customFoods);
    assert w == (if |data.profile| > 0 then [PatchProfile(userId, Backfill(data.profile))] else []) + logs + foods;
    forall i | p <= i < p + |logs| ensures w[i] == logs[i - p] { }
    forall i | p + |logs| <= i < |w| ensures w[i] == foods[i - p - |logs|] { }
  }

  /** Every custom food is carried over as the new user's own food. */
  lemma MigratedFoodsOwned(userId: string, data: GuestData)
    ensures forall i | |MigrationWrites(userId, data)| - |data.customFoods| <= i < |MigrationWrites(userId, data)| ::
      MigrationWrites(userId, data)[i].InsertFood? && MigrationWrites(userId, data)[i].userId == Some(userId)
  {
    MigrationWritesOrdered(userId, data);
  }

  class AuthHook {
    var user: Option<AuthUser>
    var profile: Option<PartialProfile>
    var isGuest: bool
    var isLoading: bool
    const guest: GuestStorage
    const remote: RemoteStore

    constructor(guest: GuestStorage, remote: RemoteStore)
      ensures this.guest == guest && this.remote == remote
      ensures user == None && profile == None && isGuest && isLoading
    {
      this.guest := guest;
      this.remote := remote;
      user := None;
      profile := None;
      isGuest := true;
      isLoading := true;
    }

    /** signUp: reads the guest data first, then asks the backend for an
        account; only when an account comes back are the guest's profile,
        logs and custom foods written to it, in that order, and the guest
        data cleared, whatever those writes answered. */
    method SignUp(email: string, password: string, outcome: SignUpOutcome) returns (created: Option<AuthUser>, failed: bool)
      modifies guest, remote
      ensures created.Some? <==> outcome.Created?
      ensures outcome.Created? ==> created == Some(outcome.user)
      ensures failed <==> outcome.SignUpFailed?
      ensures outcome.Created? ==>
        remote.journal == old(remote.journal) + [SignUpRequest(email, password)] + MigrationWrites(outcome.user.id, old(guest.GetGuestData()))
      ensures outcome.Created? ==> guest.GetGuestData() == EmptyGuestData
      ensures !outcome.Created? ==> remote.journal == old(remote.journal) + [SignUpRequest(email, password)]
      ensures !outcome.Created? ==> guest.guestSlot == old(guest.guestSlot)
      ensures guest.macroSlot == old(guest.macroSlot)
    {
      var guestData := guest.GetGuestData();
      remote.Send(SignUpRequest(email, password));
      match outcome {
        case SignUpFailed =>
          return None, true;
        case NoUserCreated =>
          return None, false;
        case Created(u) =>
          if |guestData.profile| > 0 {
            remote.Send(PatchProfile(u.id, Backfill(guestData.profile)));
          }
          SendLogInserts(u.id, guestData.foodLogs);
          SendFoodInserts(u.id, guestData.customFoods);
          guest.ClearGuestData();
          return Some(u), false;
      }
    }

    /** The migration's log inserts, one per guest log, in order. */
    method SendLogInserts(userId: string, logs: seq<FoodLog>)
      modifies remote
      ensures remote.journal == old(remote.journal) + LogInserts(userId, logs)
    {
      var i := 0;
      while i < |logs|
        invariant 0 <= i <= |logs|
        invariant remote.journal == old(remote.journal) + LogInserts(userId, logs[..i])
        modifies remote
      {
        remote.Send(LogInsert(userId, logs[i]));
        assert logs[..i + 1] == logs[..i] + [logs[i]];
        i := i + 1;
      }
      assert logs[..i] == logs;
    }

    /** The migration's food inserts, one per custom food, in order. */
    method SendFoodInserts(userId: string, foods: seq<FoodItem>)
      modifies remote
      ensures remote.journal == old(remote.journal) + FoodInserts(userId, foods)
    {
      var j := 0;
      while j < |foods|
        invariant 0 <= j <= |foods|
        invariant remote.journal == old(remote.journal) + FoodInserts(userId, foods[..j])
        modifies remote
      {
        remote.Send(FoodInsert(userId, foods[j]));
        assert foods[..j + 1] == foods[..j] + [foods[j]];
        j := j + 1;
      }
      assert foods[..j] == foods;
    }

    /** signOut: on success the hook returns to the guest state, with a
        profile holding only the guest id. */
    method SignOut(failed: bool) returns (error: bool)
      modifies this, remote
      ensures remote.journal == old(remote.journal) + [SignOutRequest]
      ensures error == failed
      ensures !failed ==> user == None && profile == Some(map[IdKey := Text(GuestId)]) && isGuest && !isLoading
      ensures failed ==> user == old(user) && profile == old(profile) && isGuest == old(isGuest) && isLoading == old(isLoading)
    {
      remote.Send(SignOutRequest);
      if !failed {
        user := None;
        profile := Some(map[IdKey := Text(GuestId)]);
        isGuest := true;
        isLoading := false;
      }
      return failed;
    }

    /** updateProfile: a guest's updates are merged into the store and the
        state; a signed-in user's are sent to the backend and merged into the
        state only when it accepts them; without a user nothing happens. */
    method UpdateProfile(updates: PartialProfile, backendFailed: bool) returns (result: ProfileUpdate)
      modifies this, guest, remote
      ensures isGuest == old(isGuest) && user == old(user) && isLoading == old(isLoading)
      ensures isGuest ==> result == Updated && remote.journal == old(remote.journal)
      ensures isGuest && guest.inBrowser ==>
        guest.GetGuestData() == old(guest.GetGuestData()).(profile := MergeProfile(old(guest.GetGuestData()).profile, updates))
      ensures !isGuest || !guest.inBrowser ==> guest.guestSlot == old(guest.guestSlot)
      ensures guest.macroSlot == old(guest.macroSlot)
      ensures !isGuest && user.None? ==> result == NoUser && remote.journal == old(remote.journal)
      ensures !isGuest && user.Some? ==>
        remote.journal == old(remote.journal) + [PatchProfile(user.value.id, updates)]
        && result == (if backendFailed then Rejected else Updated)
      ensures result == Updated ==> profile == Some(MergeProfile(old(profile).GetOr(map[]), updates))
      ensures result != Updated ==> profile == old(profile)
    {
      if isGuest {
        guest.UpdateGuestProfile(updates);
        profile := Some(MergeProfile(profile.GetOr(map[]), updates));
        return Updated;
      }
      if user.None? {
        return NoUser;
      }
      remote.Send(PatchProfile(user.value.id, updates));
      if backendFailed {
        return Rejected;
      }
      profile := Some(MergeProfile(profile.GetOr(map[]), updates));
      return Updated;
    }

    /** userId: the signed-in user's id, or the guest id when there is no
        user (or its id is empty). */
    function UserId(): (id: string)
      reads this
      ensures id != ""
      ensures user.Some? && user.value.id != "" ==> id == user.value.id
      ensures (user.None? || user.value.id == "") ==> id == GuestId
    {
      if user.Some? && user.value.id != "" then user.value.id else GuestId
    }
  }

  /** How a profile update ends: applied, refused for want of a user (the
      'No user' error), or refused by the backend. */
  datatype ProfileUpdate = Updated | NoUser | Rejected
}
