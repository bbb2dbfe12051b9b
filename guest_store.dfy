/** The guest store of lib/storage/local-storage.ts: everything a guest
    records lives in one GuestData record under one browser-storage key,
    and every operation reads the whole record, changes it and writes it
    back. A second key holds the last macro recommendation. */
module GuestStore {
  import opened JsRuntime
  import opened Types

  /** GUEST_ID: the user id every guest record carries. */
  const GuestId := "guest-user"

  /** What a storage key holds: nothing, text that JSON.parse rejects, or
      a serialised value. */
  datatype Slot<T> = Missing | Unparsable | Stored(value: T)

  /** The fields of a new log that the caller supplies. */
  datatype LogEntry = LogEntry(foodItemId: string, weightGrams: real, mealTime: MealTime, date: string)

  /** The fields of a new custom food that the caller supplies. */
  datatype FoodEntry = FoodEntry(
    categoryId: string,
    name: string,
    caloriesPer100g: real,
    proteinPer100g: real,
    carbsPer100g: real,
    fatPer100g: real,
    imageUrl: Option<string>)

  function LogIds(logs: seq<FoodLog>): seq<string> {
    seq(|logs|, i requires 0 <= i < |logs| => logs[i].id)
  }

  /** No two logs share an id. */
  predicate UniqueLogIds(logs: seq<FoodLog>) {
    forall i, j | 0 <= i < j < |logs| :: logs[i].id != logs[j].id
  }

  /** The logs without those carrying the given id. */
  function WithoutLog(logs: seq<FoodLog>, logId: string): (r: seq<FoodLog>)
    ensures forall i | 0 <= i < |r| :: r[i].id != logId
  {
    Filter(logs, (l: FoodLog) => l.id != logId)
  }

  /** Removing an id no log carries changes nothing. */
  lemma WithoutAbsentLog(logs: seq<FoodLog>, logId: string)
    requires logId !in LogIds(logs)
    ensures WithoutLog(logs, logId) == logs
  {
    forall i | 0 <= i < |logs| ensures logs[i].id != logId {
      assert LogIds(logs)[i] == logs[i].id;
    }
    FilterAll(logs, (l: FoodLog) => l.id != logId);
  }

  /** Removal keeps every other log, in order: removing from a longer
      list is removing from each part. */
  lemma WithoutLogAppend(a: seq<FoodLog>, b: seq<FoodLog>, logId: string)
    ensures WithoutLog(a + b, logId) == WithoutLog(a, logId) + WithoutLog(b, logId)
  {
    FilterAppend(a, b, (l: FoodLog) => l.id != logId);
  }

  /** Removal keeps ids unique. */
  lemma {:induction false} WithoutLogKeepsUnique(logs: seq<FoodLog>, logId: string)
    requires UniqueLogIds(logs)
    ensures UniqueLogIds(WithoutLog(logs, logId))
  {
    if logs != [] {
      WithoutLogKeepsUnique(logs[1..], logId);
      var rest := WithoutLog(logs[1..], logId);
      if logs[0].id != logId {
        assert WithoutLog(logs, logId) == [logs[0]] + rest;
        assert forall k | 0 <= k < |logs[1..]| :: logs[1..][k].id != logs[0].id by {
          forall k | 0 <= k < |logs[1..]| ensures logs[1..][k].id != logs[0].id {
            assert logs[1..][k] == logs[k + 1];
          }
        }
        IdStaysAbsent(logs[1..], logId, logs[0].id);
        PrependUnique(logs[0], rest);
      } else {
        assert WithoutLog(logs, logId) == rest;
      }
    }
  }

  /** An id no log carries is carried by none of the logs that remain. */
  lemma IdStaysAbsent(logs: seq<FoodLog>, logId: string, id: string)
    requires forall k | 0 <= k < |logs| :: logs[k].id != id
    ensures forall j | 0 <= j < |WithoutLog(logs, logId)| :: WithoutLog(logs, logId)[j].id != id
  {
    var rest := WithoutLog(logs, logId);
    FilterSubMultiset(logs, (l: FoodLog) => l.id != logId);
    forall j | 0 <= j < |rest| ensures rest[j].id != id {
      assert rest[j] in multiset(logs);
      var k :| 0 <= k < |logs| && logs[k] == rest[j];
    }
  }

  /** A log whose id is new keeps a list of unique ids unique. */
  lemma PrependUnique(x: FoodLog, rest: seq<FoodLog>)
    requires UniqueLogIds(rest)
    requires forall j | 0 <= j < |rest| :: rest[j].id != x.id
    ensures UniqueLogIds([x] + rest)
  {
    var l := [x] + rest;
    forall i, j | 0 <= i < j < |l| ensures l[i].id != l[j].id {
      assert l[j] == rest[j - 1];
      if i > 0 { assert l[i] == rest[i - 1]; }
    }
  }

  /** { ...profile, ...updates }: a shallow merge in which the updates win. */
  function MergeProfile(profile: PartialProfile, updates: PartialProfile): (r: PartialProfile)
    ensures r.Keys == profile.Keys + updates.Keys
    ensures forall k | k in updates :: r[k] == updates[k]
    ensures forall k | k in profile && k !in updates :: r[k] == profile[k]
  {
    profile + updates
  }

  /** Merging the same updates twice is merging them once. */
  lemma MergeProfileIdempotent(profile: PartialProfile, updates: PartialProfile)
    ensures MergeProfile(MergeProfile(profile, updates), updates) == MergeProfile(profile, updates)
  {
  }

  /** Appending a log with a fresh id and then removing that id restores
      the logs: addGuestFoodLog followed by removeGuestFoodLog is a no-op. */
  lemma AddThenRemoveLog(logs: seq<FoodLog>, log: FoodLog)
    requires log.id !in LogIds(logs)
    ensures WithoutLog(logs + [log], log.id) == logs
  {
    WithoutLogAppend(logs, [log], log.id);
    WithoutAbsentLog(logs, log.id);
    assert WithoutLog([log], log.id) == [];
  }

  /** getGuestFoodLogs: the logs of the given day, in stored order; all of
      them when no day (or the empty string) is given. */
  function LogsOn(logs: seq<FoodLog>, date: Option<string>): (r: seq<FoodLog>)
    ensures Truthy(date) ==> forall i | 0 <= i < |r| :: r[i].date == date.value
    ensures Truthy(date) ==> forall i | 0 <= i < |logs| :: logs[i].date == date.value ==> logs[i] in r
    ensures !Truthy(date) ==> r == logs
  {
    if Truthy(date) then Filter(logs, (l: FoodLog) => l.date == date.value) else logs
  }

  /** The same, for a list split before its last log. */
  lemma LogsOnLast(logs: seq<FoodLog>, date: Option<string>)
    requires logs != []
    ensures var last := logs[|logs| - 1];
      LogsOn(logs, date) == LogsOn(logs[..|logs| - 1], date) + (if !Truthy(date) || last.date == date.value then [last] else [])
  {
    LogsOnSnoc(logs[..|logs| - 1], logs[|logs| - 1], date);
    assert logs[..|logs| - 1] + [logs[|logs| - 1]] == logs;
  }

  /** With a day given, the selected logs are exactly the stored logs of
      that day. */
  lemma LogsOnExactly(logs: seq<FoodLog>, date: Option<string>)
    requires Truthy(date)
    ensures forall x :: x in LogsOn(logs, date) <==> x in logs && x.date == date.value
  {
    FilterSubMultiset(logs, (l: FoodLog) => l.date == date.value);
    forall x | x in LogsOn(logs, date) ensures x in logs && x.date == date.value {
      assert x in multiset(LogsOn(logs, date));
    }
  }

  /** Selecting a day keeps the stored order: the logs of a day of a longer
      list are those of each part. */
  lemma LogsOnAppend(a: seq<FoodLog>, b: seq<FoodLog>, date: Option<string>)
    ensures LogsOn(a + b, date) == LogsOn(a, date) + LogsOn(b, date)
  {
    if Truthy(date) {
      FilterAppend(a, b, (l: FoodLog) => l.date == date.value);
    }
  }

  /** A log added at the end is selected, or not, on its own. */
  lemma LogsOnSnoc(logs: seq<FoodLog>, last: FoodLog, date: Option<string>)
    ensures LogsOn(logs + [last], date) == LogsOn(logs, date) + (if !Truthy(date) || last.date == date.value then [last] else [])
  {
    if Truthy(date) {
      var onDay := (l: FoodLog) => l.date == date.value;
      FilterSnoc(logs, last, onDay);
    }
  }

  class GuestStorage {
    /** False when the code runs on the server (`typeof window === 'undefined'`),
        where nothing is read or written. */
    const inBrowser: bool
    /** The key calories_tracker_guest_data. */
    var guestSlot: Slot<GuestData>
    /** The key calories_tracker_macro_recommendation. */
    var macroSlot: Slot<MacroRecommendation>

    constructor(inBrowser: bool, guestSlot: Slot<GuestData>, macroSlot: Slot<MacroRecommendation>)
      ensures this.inBrowser == inBrowser && this.guestSlot == guestSlot && this.macroSlot == macroSlot
    {
      this.inBrowser := inBrowser;
      this.guestSlot := guestSlot;
      this.macroSlot := macroSlot;
    }

    /** getGuestData: the stored record, or the empty record when the code
        is not in a browser, the key is absent or its text does not parse. */
    function GetGuestData(): (d: GuestData)
      reads this
      ensures (!inBrowser || !guestSlot.Stored?) ==> d == EmptyGuestData
      ensures inBrowser && guestSlot.Stored? ==> d == guestSlot.value
    {
      if !inBrowser then EmptyGuestData
      else match guestSlot
        case Stored(data) => data
        case _ => EmptyGuestData
    }

    /** saveGuestData: serialises the whole record under the key. */
    method SaveGuestData(data: GuestData)
      modifies this
      ensures inBrowser ==> guestSlot == Stored(data)
      ensures !inBrowser ==> guestSlot == old(guestSlot)
      ensures macroSlot == old(macroSlot)
      ensures inBrowser ==> GetGuestData() == data
    {
      if inBrowser {
        guestSlot := Stored(data);
      }
    }

    /** addGuestFoodLog: appends one log, with a new id, the guest user id
        and the current time, and returns it; nothing else changes. */
    method AddGuestFoodLog(entry: LogEntry, freshId: string, now: string) returns (newLog: FoodLog)
      modifies this
      ensures newLog == FoodLog(freshId, GuestId, entry.foodItemId, entry.weightGrams, entry.mealTime, entry.date, now)
      ensures inBrowser ==> GetGuestData() == old(GetGuestData()).(foodLogs := old(GetGuestData()).foodLogs + [newLog])
      ensures !inBrowser ==> guestSlot == old(guestSlot)
      ensures macroSlot == old(macroSlot)
      ensures UniqueLogIds(old(GetGuestData()).foodLogs) && freshId !in LogIds(old(GetGuestData()).foodLogs)
        ==> UniqueLogIds(GetGuestData().foodLogs)
    {
      var data := GetGuestData();
      newLog := FoodLog(freshId, GuestId, entry.foodItemId, entry.weightGrams, entry.mealTime, entry.date, now);
      if freshId !in LogIds(data.foodLogs) {
        forall i | 0 <= i < |data.foodLogs| ensures data.foodLogs[i].id != freshId {
          assert LogIds(data.foodLogs)[i] == data.foodLogs[i].id;
        }
      }
      SaveGuestData(data.(foodLogs := data.foodLogs + [newLog]));
    }

    /** removeGuestFoodLog: drops every log with the id and keeps the rest in order. */
    method RemoveGuestFoodLog(logId: string)
      modifies this
      ensures inBrowser ==> GetGuestData() == old(GetGuestData()).(foodLogs := WithoutLog(old(GetGuestData()).foodLogs, logId))
      ensures !inBrowser ==> guestSlot == old(guestSlot)
      ensures macroSlot == old(macroSlot)
      ensures UniqueLogIds(old(GetGuestData()).foodLogs) ==> UniqueLogIds(GetGuestData().foodLogs)
    {
      var data := GetGuestData();
      if UniqueLogIds(data.foodLogs) {
        WithoutLogKeepsUnique(data.foodLogs, logId);
      }
      SaveGuestData(data.(foodLogs := WithoutLog(data.foodLogs, logId)));
    }

    /** getGuestFoodLogs over the stored record. */
    function GetGuestFoodLogs(date: Option<string>): (r: seq<FoodLog>)
      reads this
      ensures !inBrowser ==> r == []
      ensures Truthy(date) ==> forall i | 0 <= i < |r| :: r[i].date == date.value
      ensures Truthy(date) ==> forall x | x in GetGuestData().foodLogs && x.date == date.value :: x in r
      ensures !Truthy(date) ==> r == GetGuestData().foodLogs
    {
      LogsOn(GetGuestData().foodLogs, date)
    }

    /** addGuestCustomFood: appends one food owned by the guest, never a
        default one, with a new id and the current time, and returns it. */
    method AddGuestCustomFood(entry: FoodEntry, freshId: string, now: string) returns (newFood: FoodItem)
      modifies this
      ensures newFood == FoodItem(freshId, Some(GuestId), entry.categoryId, entry.name,
        entry.caloriesPer100g, entry.proteinPer100g, entry.carbsPer100g, entry.fatPer100g,
        entry.imageUrl, false, now)
      ensures inBrowser ==> GetGuestData() == old(GetGuestData()).(customFoods := old(GetGuestData()).customFoods + [newFood])
      ensures !inBrowser ==> guestSlot == old(guestSlot)
      ensures macroSlot == old(macroSlot)
    {
      var data := GetGuestData();
      newFood := FoodItem(freshId, Some(GuestId), entry.categoryId, entry.name,
        entry.caloriesPer100g, entry.proteinPer100g, entry.carbsPer100g, entry.fatPer100g,
        entry.imageUrl, false, now);
      SaveGuestData(data.(customFoods := data.customFoods + [newFood]));
    }

    function GetGuestCustomFoods(): (r: seq<FoodItem>)
      reads this
      ensures !inBrowser ==> r == []
      ensures inBrowser && guestSlot.Stored? ==> r == guestSlot.value.customFoods
      ensures !guestSlot.Stored? ==> r == []
      ensures r == GetGuestData().customFoods
    {
      GetGuestData().customFoods
    }

    /** updateGuestProfile: shallow-merges the updates into the stored profile. */
    method UpdateGuestProfile(updates: PartialProfile)
      modifies this
      ensures inBrowser ==> GetGuestData() == old(GetGuestData()).(profile := MergeProfile(old(GetGuestData()).profile, updates))
      ensures !inBrowser ==> guestSlot == old(guestSlot)
      ensures macroSlot == old(macroSlot)
    {
      var data := GetGuestData();
      SaveGuestData(data.(profile := MergeProfile(data.profile, updates)));
    }

    function GetGuestProfile(): (r: PartialProfile)
      reads this
      ensures !inBrowser ==> r == map[]
      ensures inBrowser && guestSlot.Stored? ==> r == guestSlot.value.profile
      ensures !guestSlot.Stored? ==> r == map[]
      ensures r == GetGuestData().profile
    {
      GetGuestData().profile
    }

    /** clearGuestData: removes the key, after which the empty record is read. */
    method ClearGuestData()
      modifies this
      ensures inBrowser ==> guestSlot == Missing
      ensures !inBrowser ==> guestSlot == old(guestSlot)
      ensures macroSlot == old(macroSlot)
      ensures GetGuestData() == EmptyGuestData
    {
      if inBrowser {
        guestSlot := Missing;
      }
    }

    method SaveMacroRecommendation(macros: MacroRecommendation)
      modifies this
      ensures inBrowser ==> macroSlot == Stored(macros)
      ensures !inBrowser ==> macroSlot == old(macroSlot)
      ensures guestSlot == old(guestSlot)
      ensures inBrowser ==> GetMacroRecommendation() == Some(macros)
    {
      if inBrowser {
        macroSlot := Stored(macros);
      }
    }

    /** getMacroRecommendation: the saved value, or null when the code is
        not in a browser, the key is absent or its text does not parse. */
    function GetMacroRecommendation(): (r: Option<MacroRecommendation>)
      reads this
      ensures r.Some? <==> inBrowser && macroSlot.Stored?
      ensures r.Some? ==> r.value == macroSlot.value
    {
      if !inBrowser then None
      else match macroSlot
        case Stored(m) => Some(m)
        case _ => None
    }

    method ClearMacroRecommendation()
      modifies this
      ensures inBrowser ==> macroSlot == Missing
      ensures !inBrowser ==> macroSlot == old(macroSlot)
      ensures guestSlot == old(guestSlot)
      ensures GetMacroRecommendation() == None
    {
      if inBrowser {
        macroSlot := Missing;
      }
    }
  }

}
