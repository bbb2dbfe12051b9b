# CalTrack, modelled in Dafny

CalTrack is a calorie tracker. A visitor can use it as a guest, with
everything kept in the browser's local storage, or sign up and keep the data
in a hosted database. This project models the logic under its screens:

- the nutrition arithmetic (Mifflin–St Jeor BMR, TDEE, macro split,
  per-serving scaling, daily totals, the U.S. Navy body-fat lookup);
- the guest store in local storage;
- the food-log access layer, which serves either the guest store or the
  remote tables;
- sign-up with its migration of guest data, profile updates and sign-out;
- the vegetable-mix picker, the calorie warning, the daily summary card and
  the food search page;
- the three server routes for the welcome e-mail and for account deletion.

One Dafny module stands for each source file. `JsRuntime` gives the
JavaScript semantics the code relies on:

- `Math.round` is `(x + 0.5).Floor`, which is proved to give a nearest
  integer;
- rounding to a tenth;
- division that yields infinities and NaN, modelled by `JsNumber`;
- truthiness of optional strings;
- `Array.filter`, ASCII `toLowerCase` and `String.includes`.

Quantities are `real`.

Several things in the source change state in place, and they are modelled as
classes whose methods are proved against pure specification functions:

- local storage: `GuestStore.GuestStorage`, with one slot per key;
- the React state of the two hooks: `FoodLogAccess.FoodLogHook` and
  `Auth.AuthHook`;
- the hosted backend: `Remote.RemoteStore`, a journal of the write requests
  sent;
- the server tables: `ServerTables.ServerDb`.

The outside world enters as method parameters: the answers of the backend,
fresh ids, the clock, the base64url encoder and whether the mailer throws.

Where the code's behaviour is easy to misread, the model follows the code:

- `getDailySummary` sums unrounded values and rounds once. It does not add
  up per-log rounded values the way `calculateDailyTotals` does.
  `FoodLogAccess.SummaryRoundsOnce` exhibits two logs on which the two totals
  differ (1 kcal against 2 kcal).
- The three macro calories are rounded separately, so they add up to the
  target only to within 1.5 kcal, not exactly (`Nutrition.MacroCaloriesNearTarget`).
- TDEE multiplies the unrounded BMR, not the rounded one.
- The ring colour `stroke-destructive` cannot appear with the card's own
  goals. It does appear when the calorie goal is 0 and the total is 0, because
  `0/0` is NaN and every comparison with NaN is false
  (`DailySummaryView.RingColor`).
- The card reads "0 kcal over" when the total equals the goal exactly
  (`DailySummaryView.RemainingText`).

## Model

| member | source | states |
|---|---|---|
| JsRuntime.Round | lib/utils.ts:47-50 | `Math.round` returns an integer within one half of its argument: x − ½ < r ≤ x + ½ |
| JsRuntime.RoundTenth | lib/utils.ts:84 | `Math.round(x*10)/10` is a multiple of a tenth within 0.05 of x |
| JsRuntime.RoundShift | lib/utils.ts:49-50 | rounding commutes with adding an integer, so rounding `tdee ± 500` gives the rounded tdee ± 500 |
| JsRuntime.RoundMonotone | lib/utils.ts:95 | `Math.round` is monotone |
| JsRuntime.RoundOfInt | lib/utils.ts:180-190 | `Math.round` leaves an integer unchanged |
| JsRuntime.RoundTenthMonotone | lib/utils.ts:96-98 | rounding to a tenth is monotone |
| JsRuntime.Divide | components/log/daily-summary.tsx:25 | JavaScript division: a quotient for a non-zero divisor; for a zero divisor, NaN exactly when the dividend is 0, and otherwise an infinity with the dividend's sign |
| JsRuntime.Scale | components/log/daily-summary.tsx:25 | multiplying by a positive constant keeps NaN and the infinities, and scales a finite number |
| JsRuntime.Min | components/log/daily-summary.tsx:25 | `Math.min(n, c)` is NaN exactly when n is, and a finite result is at most c and is c or n |
| JsRuntime.Filter | lib/storage/local-storage.ts:52 | `Array.filter` keeps only elements that pass, keeps every element that passes, and never lengthens |
| JsRuntime.FilterSubMultiset | lib/storage/local-storage.ts:52 | a filtered array is a sub-multiset of the original |
| JsRuntime.FilterAppend | lib/storage/local-storage.ts:59 | filtering distributes over concatenation, so it keeps order |
| JsRuntime.FilterSnoc | lib/storage/local-storage.ts:59 | filtering an array with one more element adds that element at the end exactly when it passes |
| JsRuntime.FilterAll | app/foods/page.tsx:28-31 | a filter that every element passes returns the array unchanged |
| JsRuntime.FilterNone | lib/storage/local-storage.ts:52 | a filter that no element passes returns the empty array |
| JsRuntime.FilterTwice | lib/hooks/use-food-log.ts:200-206 | filtering twice equals filtering once by the conjunction |
| JsRuntime.IncludesIffOccurs | app/foods/page.tsx:29 | `includes` holds exactly when the substring occurs at some index |
| JsRuntime.IncludesEmpty | app/foods/page.tsx:29 | every string includes the empty string |
| JsRuntime.LowerChar | app/foods/page.tsx:29 | ASCII `toLowerCase` maps each of A–Z to its own lower-case letter (code point + 32) and leaves every other character alone |
| JsRuntime.ToLower | app/foods/page.tsx:29 | `toLowerCase` keeps the length and lowers each character |
| JsRuntime.DigitChar | app/api/auth/delete-account/route.ts:24 | a digit d renders as the character '0' + d |
| JsRuntime.NatToString | app/api/auth/delete-account/route.ts:24 | a timestamp renders as a non-empty string of digits whose last is the character of its units digit |
| JsRuntime.NatToStringInjective | app/api/auth/delete-account/route.ts:24 | distinct timestamps render differently |
| Types.MealTimesEnumerate | types/index.ts:8 | there are exactly four meal times, all distinct |
| Types.ActivityRank | types/index.ts:10 | each of the five activity levels gets a rank below 5, which orders the multipliers |
| Types.ActivityMultiplier | types/index.ts:72-78 | every multiplier lies strictly between 1 and 2 |
| Types.ActivityMultiplierIncreasing | types/index.ts:72-78 | a higher activity level has a strictly larger multiplier, and conversely |
| Types.GoalLabel | types/index.ts:49-53 | every goal has a non-empty label |
| Types.GoalIcon | types/index.ts:55-59 | every goal has a non-empty icon |
| Constants.CategoryIds | lib/constants.ts:3-11 | the category ids, one per category, in order |
| Constants.DefaultCategoryIdsDistinct | lib/constants.ts:3-11 | there are seven default categories and their ids are distinct |
| Constants.DefaultFoodsWellFormed | lib/constants.ts:13-51 | there are 24 seeded foods, each marked default and with non-negative nutrient values |
| Constants.DefaultFoodsCategorised | lib/constants.ts:13-51 | every seeded food belongs to one of the default categories |
| Constants.BodyFatTablesWellFormed | lib/constants.ts:53-68 | each gender's table has five bands with strictly increasing maxima, the first positive and the last 100 |
| Nutrition.BmrGenderGap | lib/utils.ts:32-33 | for equal inputs, male BMR exceeds female BMR by exactly 166 |
| Nutrition.BmrMonotone | lib/utils.ts:32-33 | BMR grows with weight and height and falls with age |
| Nutrition.Bmr | lib/utils.ts:25-34 | the Mifflin–St Jeor value 10·weight + 6.25·height − 5·age, plus 5 for a man and minus 161 for a woman |
| Nutrition.Tdee | lib/utils.ts:36-52 | bmr and tdee are the nearest integers to BMR and to BMR × multiplier; deficit and surplus are tdee ∓ 500 |
| Nutrition.TdeeAtLeastBmr | lib/utils.ts:43-48 | for a positive BMR, tdee is never below bmr |
| Nutrition.TdeeExample | lib/utils.ts:36-52 | 70 kg, 175 cm, 30 years, male, moderate gives bmr 1649, tdee 2556, deficit 2056, surplus 3056 |
| Nutrition.Clamp | lib/utils.ts:77 | the percentage is clamped into [0, 100] and kept as it is when already inside |
| Nutrition.FirstBand | lib/utils.ts:81 | `find` returns the first band whose max is at least the percentage, or no band |
| Nutrition.Category | lib/utils.ts:79-80 | 'Unknown' exactly when the percentage exceeds 100; otherwise the category of a band whose maximum covers the percentage |
| Nutrition.CategoryInTable | lib/utils.ts:80-81 | for a percentage in [0, 100], the category is never 'Unknown': it is that of the first band that covers the percentage |
| Nutrition.Classify | lib/utils.ts:76-86 | the result is the clamped percentage rounded to a tenth, lies in [0, 100], and carries the category of the clamped percentage, never 'Unknown' |
| Nutrition.BodyFat | lib/utils.ts:54-87 | the calculation fails (hip required) exactly for a female without a non-zero hip; otherwise it classifies the Navy estimate |
| Nutrition.CaloriesFromFood | lib/utils.ts:89-100 | calories are the nearest integer to per-100 g × grams/100; each macro is `Math.round(x * 10) / 10` of its scaled value x, so a multiple of 0.1 within 0.05 of x |
| Nutrition.CaloriesFromFoodNonNegative | lib/utils.ts:89-100 | non-negative foods at non-negative weights give non-negative nutrients |
| Nutrition.CaloriesFromFoodNearlyLinear | lib/utils.ts:93-95 | doubling the weight doubles the calories to within 1 kcal |
| Nutrition.DailyTotalsAppend | lib/utils.ts:102-117 | the totals of two lists of logs concatenated are the sums of their totals |
| Nutrition.MatchFirst | lib/utils.ts:102-117 | the first log of one arrangement occurs in any other arrangement, and the remaining logs are again arrangements of each other |
| Nutrition.DailyTotalsMiddle | lib/utils.ts:102-117 | a log in the middle of a list contributes the same as one at the front |
| Nutrition.DailyTotalsPermutation | lib/utils.ts:102-117 | the totals do not depend on the order of the logs |
| Nutrition.DailyTotalsNonNegative | lib/utils.ts:102-117 | logs of non-negative foods at non-negative weights give non-negative totals |
| Nutrition.DailyTotalsOnGrid | lib/utils.ts:102-117 | the day's totals are whole calories and macros in multiples of 0.1, since each log's share is rounded before summing |
| Nutrition.SumOnGrid | lib/utils.ts:108-113 | adding two rounded nutrient records keeps whole calories and macros in tenths |
| Nutrition.PercentageBelow | lib/utils.ts:120 | for a positive goal, current/goal×100 < k exactly when current < k/100 × goal |
| Nutrition.ProgressColorOf | lib/utils.ts:119-126 | the colour bands are 50, 75, 100 and 110 % of a positive goal; a zero goal gives red unless current is negative |
| Nutrition.RatiosFor | lib/utils.ts:143-147 | each goal's ratios are positive and add up to 1 |
| Nutrition.Share | lib/utils.ts:166-190 | a macro's calories, grams and percentage are the nearest integers to target × ratio, calories / kcal-per-gram and ratio × 100 |
| Nutrition.MacroSplit | lib/utils.ts:163-192 | calories are the target, and each macro's calories and grams are the nearest integers to target × ratio and to calories/4 (protein, carbs) or calories/9 (fat) |
| Nutrition.CalculateMacros | lib/utils.ts:149-194 | the goal is echoed back, the calories are tdee − 500, tdee + 500 or tdee by goal, and the result splits them by the goal's ratios |
| Nutrition.MacroPercentages | lib/utils.ts:143-147 | the percentages are 40/35/25, 30/40/30 or 30/45/25 by goal, and always add up to 100 |
| Nutrition.MacroCaloriesNearTarget | lib/utils.ts:166-168 | the three macro calories add up to the target to within 1.5 kcal |
| Nutrition.SharesNear | lib/utils.ts:166-168 | shares of a target by ratios adding up to 1, each rounded, add up to the target to within 1.5 kcal |
| Nutrition.RoundedSharesNear | lib/utils.ts:166-168 | three nearest integers to three parts of a whole add up to the whole to within 1.5 |
| GuestStore.WithoutLog | lib/storage/local-storage.ts:52 | no remaining log has the removed id |
| GuestStore.WithoutAbsentLog | lib/storage/local-storage.ts:50-54 | removing an id that no log has changes nothing |
| GuestStore.WithoutLogAppend | lib/storage/local-storage.ts:52 | removal works element by element and keeps the order of the rest |
| GuestStore.WithoutLogKeepsUnique | lib/storage/local-storage.ts:50-54 | removal keeps the log ids distinct |
| GuestStore.IdStaysAbsent | lib/storage/local-storage.ts:52 | removal never brings in an id that was absent |
| GuestStore.PrependUnique | lib/storage/local-storage.ts:52 | a log with a new id in front of distinct ids keeps them distinct |
| GuestStore.MergeProfile | lib/storage/local-storage.ts:85 | the merged profile has the keys of both; updated keys take the new values and all others are kept |
| GuestStore.MergeProfileIdempotent | lib/storage/local-storage.ts:83-87 | applying the same update twice is the same as once |
| GuestStore.AddThenRemoveLog | lib/storage/local-storage.ts:37-54 | adding a log with a new id and then removing that id restores the logs |
| GuestStore.LogsOn | lib/storage/local-storage.ts:56-62 | with a date, only and all logs of that date; without one (or an empty one), every log |
| GuestStore.LogsOnLast | lib/storage/local-storage.ts:58-61 | the last log is kept at the end exactly when it is on the date |
| GuestStore.LogsOnExactly | lib/storage/local-storage.ts:58-59 | a log is selected exactly when it is stored and on the date |
| GuestStore.LogsOnAppend | lib/storage/local-storage.ts:58-59 | selection by date keeps the stored order |
| GuestStore.LogsOnSnoc | lib/storage/local-storage.ts:58-61 | appending a log adds it to the selection exactly when it is on the date |
| GuestStore.GuestStorage.constructor | lib/storage/local-storage.ts:6-9 | the storage starts with the given slots |
| GuestStore.GuestStorage.GetGuestData | lib/storage/local-storage.ts:15-30 | the stored record, or the empty record outside a browser or when the key is absent or does not parse |
| GuestStore.GuestStorage.SaveGuestData | lib/storage/local-storage.ts:32-35 | in a browser the record is stored and read back unchanged; the macro key is untouched |
| GuestStore.GuestStorage.AddGuestFoodLog | lib/storage/local-storage.ts:37-48 | exactly one log is appended, with the fresh id, the guest user id and the caller's fields; foods and profile are unchanged, and distinct ids stay distinct |
| GuestStore.GuestStorage.RemoveGuestFoodLog | lib/storage/local-storage.ts:50-54 | the logs become those without the id, in order; distinct ids stay distinct |
| GuestStore.GuestStorage.GetGuestFoodLogs | lib/storage/local-storage.ts:56-62 | outside a browser there are no logs; with a date, only and all the stored logs of that date; without one (or with an empty one), all stored logs |
| GuestStore.GuestStorage.AddGuestCustomFood | lib/storage/local-storage.ts:64-76 | exactly one food is appended, with the fresh id, the guest owner and `is_default` false |
| GuestStore.GuestStorage.GetGuestCustomFoods | lib/storage/local-storage.ts:78-81 | the custom foods of the stored guest data; none outside a browser or when the key is missing or unparsable |
| GuestStore.GuestStorage.UpdateGuestProfile | lib/storage/local-storage.ts:83-87 | the stored profile becomes the shallow merge with the updates |
| GuestStore.GuestStorage.GetGuestProfile | lib/storage/local-storage.ts:89-92 | the profile of the stored guest data; an empty one outside a browser or when the key is missing or unparsable |
| GuestStore.GuestStorage.ClearGuestData | lib/storage/local-storage.ts:94-97 | afterwards the guest data reads as the empty record |
| GuestStore.GuestStorage.SaveMacroRecommendation | lib/storage/local-storage.ts:99-102 | in a browser a later read returns the saved recommendation |
| GuestStore.GuestStorage.GetMacroRecommendation | lib/storage/local-storage.ts:104-113 | a recommendation exactly when one is stored and parses, and null otherwise |
| GuestStore.GuestStorage.ClearMacroRecommendation | lib/storage/local-storage.ts:115-118 | afterwards no recommendation is read |
| Remote.RemoteStore.constructor | lib/hooks/use-food-log.ts:22 | a new client has sent nothing |
| Remote.RemoteStore.Send | lib/hooks/use-food-log.ts:139-145 | each request to the backend is appended to the journal, after all earlier ones |
| ServerTables.ServerDb.constructor | app/api/auth/confirm-delete/route.ts:16-20 | the tables start with the given rows |
| ServerTables.WithToken | app/api/auth/confirm-delete/route.ts:16-20 | the lookup returns only and all the requests with the token |
| ServerTables.WithoutToken | app/api/auth/confirm-delete/route.ts:57-60 | the delete removes only and all the requests with the token |
| ServerTables.WithoutAbsentToken | app/api/auth/confirm-delete/route.ts:57-60 | deleting an absent token changes nothing |
| ServerTables.WithTokenSnoc | app/api/auth/delete-account/route.ts:28-34 | a newly inserted request is found by its token after the earlier ones |
| ServerTables.WithTokenNone | app/api/auth/confirm-delete/route.ts:16-24 | an absent token finds nothing |
| FoodLogAccess.DefaultFoodItems | lib/hooks/use-food-log.ts:30-35 | one item per seeded food, in order, with id `default-<index>` |
| FoodLogAccess.GuestCatalogue | lib/hooks/use-food-log.ts:36-39 | the default food items, then the custom foods in stored order |
| FoodLogAccess.DefaultFoodItemsWellFormed | lib/hooks/use-food-log.ts:30-35 | the default items have distinct ids, no owner and the default mark |
| FoodLogAccess.FoodIndex | lib/hooks/use-food-log.ts:91 | `find` stops at the first food with the id |
| FoodLogAccess.FindFood | lib/hooks/use-food-log.ts:91 | a found food is in the list and has the id; nothing is found exactly when no food has it |
| FoodLogAccess.JoinLogs | lib/hooks/use-food-log.ts:88-99 | each joined entry pairs a stored log with a listed food of its id, and there are no more entries than logs |
| FoodLogAccess.JoinLogsAppend | lib/hooks/use-food-log.ts:90-96 | the join keeps the order of the logs |
| FoodLogAccess.JoinLogsComplete | lib/hooks/use-food-log.ts:90-96 | every log whose food is found is joined, and no log is dropped exactly when every food is found |
| FoodLogAccess.OnDate | lib/hooks/use-food-log.ts:200 | only and all the entries of the date |
| FoodLogAccess.AtMeal | lib/hooks/use-food-log.ts:202-207 | only and all the entries of the meal |
| FoodLogAccess.DaySummary | lib/hooks/use-food-log.ts:199-230 | buckets hold the day's entries by meal; calories are the nearest integer to the unrounded day total; each macro is `Math.round(x * 10) / 10` of its unrounded total x, within 0.05 of it |
| FoodLogAccess.RawTotals | lib/hooks/use-food-log.ts:209-220 | the unrounded sums over the entries; non-negative when every food and weight is |
| FoodLogAccess.MealBucketsPartition | lib/hooks/use-food-log.ts:202-207 | the sizes of the four meal buckets add up to the number of entries |
| FoodLogAccess.SummaryBucketsCoverDay | lib/hooks/use-food-log.ts:200-207 | the bucket sizes add up to the day's entry count |
| FoodLogAccess.PerLogRoundingDrift | lib/utils.ts:102-117 | per-log rounding drifts from the unrounded total by at most half a kcal per log |
| FoodLogAccess.LogRoundingDrift | lib/utils.ts:95 | one log's rounded calories are within half a kcal of its unrounded calories |
| FoodLogAccess.TwoEntryTotals | lib/hooks/use-food-log.ts:209-220 | the totals of two entries are the sums of their parts, unrounded and rounded per log |
| FoodLogAccess.OnDateAll | lib/hooks/use-food-log.ts:200 | entries all on the date are kept unchanged |
| FoodLogAccess.SummaryRoundsOnce | lib/hooks/use-food-log.ts:224 | two 1 g logs of a 50 kcal food give a summary of 1 kcal but per-log totals of 2 kcal |
| FoodLogAccess.RowsTotalAbsent | lib/hooks/use-food-log.ts:261-276 | a date without a resolved row totals 0 |
| FoodLogAccess.WeekRows | lib/hooks/use-food-log.ts:250-258 | one row per log, carrying its date and weight |
| FoodLogAccess.GuestDayCaloriesSnoc | lib/hooks/use-food-log.ts:238-244 | each further log adds its calories, or nothing when its food is not found |
| FoodLogAccess.RowsTotalSnoc | lib/hooks/use-food-log.ts:265-271 | each further row adds its calories to its date only |
| FoodLogAccess.WeeklyBranchesAgree | lib/hooks/use-food-log.ts:235-277 | for the same logs and foods, the remote grouping and the guest scan give the same daily total |
| FoodLogAccess.RemoteWeek | lib/hooks/use-food-log.ts:274-277 | one entry per requested date, in order, each the rounded total of that date's rows |
| FoodLogAccess.GuestWeek | lib/hooks/use-food-log.ts:236-246 | one entry per requested date, in order, each the rounded total of that date's logs |
| FoodLogAccess.FoodLogHook.constructor | lib/hooks/use-food-log.ts:17-21 | empty logs and foods, the default categories, and loading |
| FoodLogAccess.FoodLogHook.FetchFoods | lib/hooks/use-food-log.ts:24-82 | `FoodsFetched`: a guest gets the guest catalogue and the default categories; signed in, a foods error empties the cache, rows replace it, no rows keep it; a categories error falls back to the defaults, rows replace them, no rows keep them |
| FoodLogAccess.FoodLogHook.FetchLogs | lib/hooks/use-food-log.ts:84-117 | a guest's logs of the date are joined with the catalogue; signed in, the returned rows replace the cache, or [] is returned without rows; foods and categories are as `FoodsFetched` states |
| FoodLogAccess.FoodLogHook.AddLog | lib/hooks/use-food-log.ts:119-152 | a guest log is always stored, the rest of the guest record and the macro key untouched, and appended to the cache only if its food is cached, foods and categories unchanged; signed in, one insert is sent and only success re-fetches logs, foods and categories as `FoodsFetched` states |
| FoodLogAccess.FoodLogHook.RemoveLog | lib/hooks/use-food-log.ts:154-171 | a guest's log leaves the store, the rest of the guest record and the macro key untouched; the entries with the id leave the cache unless the backend reports an error; one delete is sent when signed in; foods and categories unchanged |
| FoodLogAccess.FoodLogHook.AddCustomFood | lib/hooks/use-food-log.ts:173-197 | a guest food with a new id, the guest owner, the entry's name, category, nutrients and image and the current time is appended to the stored custom foods, the rest of the guest record and the macro key untouched, and cached; signed in, one insert is sent and the row the backend returns is the result and is cached; logs and categories unchanged |
| FoodLogAccess.FoodLogHook.GetDailySummary | lib/hooks/use-food-log.ts:199-230 | the summary of the cached logs for the date |
| FoodLogAccess.FoodLogHook.FetchWeeklyCalories | lib/hooks/use-food-log.ts:232-278 | the guest week from the stored logs, or the remote week from the returned rows; foods and categories as `FoodsFetched` states |
| FoodLogAccess.CaloriesByDate | lib/hooks/use-food-log.ts:261-272 | every requested date has an entry, and each entry is the total of that date's resolved rows |
| FoodLogAccess.WithoutEntry | lib/hooks/use-food-log.ts:157 | only and all the cached entries without the id |
| Auth.Backfill | lib/hooks/use-auth.ts:113-123 | the update carries only the six profile fields the guest has, with their values |
| Auth.LogInserts | lib/hooks/use-auth.ts:127-137 | one insert per guest log, in order, under the new user id with its original food id |
| Auth.FoodInserts | lib/hooks/use-auth.ts:140-154 | one insert per custom food, in order, under the new user id |
| Auth.MigrationWrites | lib/hooks/use-auth.ts:112-154 | one write per log and per custom food, plus the profile update exactly when the guest profile has a key, which then comes first |
| Auth.MigrationWritesOrdered | lib/hooks/use-auth.ts:112-154 | at most one profile update, only when the guest profile has a key, and first; then the log inserts, then the food inserts |
| Auth.MigratedFoodsOwned | lib/hooks/use-auth.ts:140-154 | every migrated food is inserted as the new user's |
| Auth.AuthHook.constructor | lib/hooks/use-auth.ts:17-22 | a new hook has no user, a guest state and is loading |
| Auth.AuthHook.SignUp | lib/hooks/use-auth.ts:103-161 | the guest data is read before sign-up; with a new user that user is returned, the migration writes follow in order and the guest data is cleared; otherwise nothing more is sent or cleared |
| Auth.AuthHook.SendLogInserts | lib/hooks/use-auth.ts:127-137 | the journal gains exactly the log inserts, in order |
| Auth.AuthHook.SendFoodInserts | lib/hooks/use-auth.ts:140-154 | the journal gains exactly the food inserts, in order |
| Auth.AuthHook.SignOut | lib/hooks/use-auth.ts:163-174 | on success the state becomes a guest with profile `{id: guest}`; on error nothing changes |
| Auth.AuthHook.UpdateProfile | lib/hooks/use-auth.ts:176-201 | a guest's updates are merged into store and state, the rest of the guest record and the macro key untouched; without a user it fails with no write; otherwise one update is sent and the state merges only on success |
| Auth.AuthHook.UserId | lib/hooks/use-auth.ts:209 | the user's id when there is a non-empty one, else the guest id |
| VegetableMix.Chosen | components/food/vegetable-mix-customizer.tsx:12 | only and all the options whose names are selected |
| VegetableMix.TotalBounds | components/food/vegetable-mix-customizer.tsx:17-20 | a sum of values between lo and hi lies between n·lo and n·hi |
| VegetableMix.MeanBounds | components/food/vegetable-mix-customizer.tsx:15-20 | a mean lies between the bounds of the values |
| VegetableMix.AveragedNutrients | components/food/vegetable-mix-customizer.tsx:11-22 | zeros when nothing is chosen; otherwise the rounded means of the chosen options |
| VegetableMix.NoMatchAveragesZero | components/food/vegetable-mix-customizer.tsx:12-13 | a selection matching no option averages to zeros |
| VegetableMix.AverageBetweenBounds | components/food/vegetable-mix-customizer.tsx:15-21 | each average lies between the rounded bounds of the chosen values |
| VegetableMix.Toggle | components/food/vegetable-mix-customizer.tsx:30-39 | nothing changes exactly for a selected name in a selection of at most one; otherwise only that name flips, so a non-empty selection stays non-empty |
| VegetableMix.ToggleAll | components/food/vegetable-mix-customizer.tsx:27-48 | all selected gives the first option alone; otherwise every option is selected |
| VegetableMix.NamesCount | components/food/vegetable-mix-customizer.tsx:27 | distinct option names number as many as the options |
| VegetableMix.NamesSnoc | components/food/vegetable-mix-customizer.tsx:46 | the names of the options are those before the last plus the last's |
| VegetableMix.LastNameIsNew | components/food/vegetable-mix-customizer.tsx:27 | with distinct names the last name is not among the earlier ones |
| VegetableMix.AllSelectedMeansEveryName | components/food/vegetable-mix-customizer.tsx:27 | with distinct names and a selection of option names, the size test holds exactly when every name is selected |
| VegetableMix.SameSizeSubset | components/food/vegetable-mix-customizer.tsx:27 | a subset of the same size is the whole set |
| VegetableMix.ToggleAllTwice | components/food/vegetable-mix-customizer.tsx:41-48 | from all selected, toggling all twice selects all again |
| CalorieWarning.Projected | components/ui/calorie-warning.tsx:16-19 | projected calories are current plus additional, which defaults to 0 |
| CalorieWarning.Warn | components/ui/calorie-warning.tsx:19-60 | for a positive target: none below 85 %, approaching below 100 %, at the limit below 110 %, exceeded from 110 %; for a 0 target: none only for a negative projection, 'approaching' with 0 left at 0, and exceeded above 0; the messages carry round(projected − target), round(target − projected) and the target |
| CalorieWarning.WarningMonotone | components/ui/calorie-warning.tsx:19-30 | more additional calories never lower the warning level |
| CalorieWarning.WarningNumbersNonNegative | components/ui/calorie-warning.tsx:32-60 | the calories left and the calories over are never negative |
| CalorieWarning.ShowsProjection | components/ui/calorie-warning.tsx:78-82 | the projection line appears exactly when additional calories are positive |
| DailySummaryView.OrElse | components/log/daily-summary.tsx:20-23 | `target \|\| fallback`: a present non-zero target, else the fallback |
| DailySummaryView.GoalsFor | components/log/daily-summary.tsx:18-23 | the macro targets where present and non-zero, else the calorie goal (2000 by default) and 150, 250, 65 g |
| DailySummaryView.GoalsPositive | components/log/daily-summary.tsx:18-23 | every goal is positive for a positive calorie goal and non-negative targets |
| DailySummaryView.Percentage | components/log/daily-summary.tsx:25 | the percentage is capped at 100, is the ratio for a positive goal, and is NaN exactly for 0 of 0 |
| DailySummaryView.Remaining | components/log/daily-summary.tsx:26 | never negative; goal − total below the goal, else 0 |
| DailySummaryView.RingColor | components/log/daily-summary.tsx:65-73 | for a positive goal: sage below 75 %, coral below 100 %, honey from there; destructive exactly for 0 of 0 |
| DailySummaryView.NeverDestructive | components/log/daily-summary.tsx:18-73 | with the card's own goals the ring is never destructive |
| DailySummaryView.RemainingText | components/log/daily-summary.tsx:76-78 | "remaining" exactly below the goal, with goal − total; otherwise "over" with total − goal |
| DailySummaryView.SummaryCard | components/log/daily-summary.tsx:18-78 | the card uses the fallback goals, its ring percentage is the capped share of the calorie goal, and it shows the warning only with macro targets and with no additional calories |
| FoodsPage.FilterFoods | app/foods/page.tsx:27-33 | only and all the foods whose lower-cased name includes the lower-cased query and whose category matches when one is selected |
| FoodsPage.EmptySearchKeepsAll | app/foods/page.tsx:28-31 | an empty query with no category keeps every food |
| FoodsPage.FilterKeepsOrder | app/foods/page.tsx:28-32 | filtering keeps the order of the foods |
| FoodsPage.InCategory | app/foods/page.tsx:35-44 | only and all the foods of the category |
| FoodsPage.InCategorySnoc | app/foods/page.tsx:41 | a further food goes to the end of its own category's group only |
| FoodsPage.InCategoryAbsent | app/foods/page.tsx:107 | a category no food has gets an empty group |
| FoodsPage.CategoryIdsSnoc | app/foods/page.tsx:38-40 | a further food adds its category to the keys |
| FoodsPage.PushKeepsGroups | app/foods/page.tsx:37-42 | one loop step keeps each group equal to its category's foods, in order |
| FoodsPage.Grouping | app/foods/page.tsx:35-44 | one non-empty group per category present, holding that category's foods in list order |
| FoodsPage.GroupFoods | app/foods/page.tsx:35-44 | the result is `Grouping`: the keys are exactly the categories present, and each group holds its category's foods in order and is non-empty |
| FoodsPage.GroupedCountSnoc | app/foods/page.tsx:106-108 | a further food adds the number of times its category is listed |
| FoodsPage.OccursOnce | app/foods/page.tsx:106 | an id listed among distinct ids occurs once |
| FoodsPage.OccursNever | app/foods/page.tsx:106 | an unlisted id occurs zero times |
| FoodsPage.GroupSizesSum | app/foods/page.tsx:106-108 | with distinct listed categories covering every food, the group sizes add up to the food count |
| FoodsPage.GroupedCountEmpty | app/foods/page.tsx:106-108 | no foods count zero |
| FoodsPage.Sections | app/foods/page.tsx:106-108 | the section headings are exactly the listed categories with a non-empty group, in list order, and each section holds its group |
| FoodsPage.SectionsSizeIsGroupedCount | app/foods/page.tsx:106-108 | the shown foods number the filtered foods of the listed categories |
| FoodsPage.Render | app/foods/page.tsx:87-130 | loading, then "no foods", then a flat grid for a selected category, else the sections of the listed categories over the grouping of the filtered foods |
| FoodsPage.GroupedShowsEveryFood | app/foods/page.tsx:106-108 | when every category is listed once, the sections show every filtered food |
| ConfirmDelete.Confirm | app/api/auth/confirm-delete/route.ts:4-63 | invalid token exactly without a token or without a single match; expired exactly when expires_at < now, deleting the request only; user-not-found exactly when the unexpired request's user is missing, deletion-failed exactly when the user is present and the delete fails, both keeping the request; success removes the user and the request |
| ConfirmDelete.ConfirmDeleteRoute | app/api/auth/confirm-delete/route.ts:4-68 | the tables change as the decision says and the welcome table is untouched |
| ConfirmDelete.ExpiryIsInclusive | app/api/auth/confirm-delete/route.ts:27 | a request expiring exactly now is still honoured |
| ConfirmDelete.TokenSingleUse | app/api/auth/confirm-delete/route.ts:27-60 | after an expired or successful use, the same token is invalid |
| Welcome.Welcome | app/api/auth/welcome/route.ts:4-64 | 401 exactly without a user, 400 exactly with an unconfirmed e-mail, already-sent exactly when a single record exists; otherwise 500 exactly when the insert fails and a send exactly when it succeeds, adding one record; nothing else writes |
| Welcome.WelcomeRoute | app/api/auth/welcome/route.ts:4-64 | the welcome table changes as the decision says and the other tables are untouched |
| Welcome.WelcomeKeepsAtMostOnce | app/api/auth/welcome/route.ts:27-46 | at most one record per user is preserved |
| Welcome.WelcomeIdempotent | app/api/auth/welcome/route.ts:27-38 | after a send, calling again answers already-sent and writes nothing |
| Welcome.DuplicateRowsDefeatCheck | app/api/auth/welcome/route.ts:27-33 | with two records for a user the single-row lookup fails, so a third record is inserted |
| DeleteAccount.TokenSource | app/api/auth/delete-account/route.ts:24 | the token text is the user id, a colon and the timestamp's digits |
| DeleteAccount.TokenSourceInjective | app/api/auth/delete-account/route.ts:24 | for one user, distinct timestamps give distinct token texts |
| DeleteAccount.NewRequest | app/api/auth/delete-account/route.ts:24-34 | the request carries the user id, the encoded token and an expiry 24 h after now |
| DeleteAccount.SiteUrl | app/api/auth/delete-account/route.ts:42 | the configured site URL when non-empty, else http://localhost:3000 |
| DeleteAccount.PlaceholderAt | app/api/auth/delete-account/route.ts:45-47 | a recognised placeholder spans at least four characters and ends within the text |
| DeleteAccount.DotAndName | app/api/auth/delete-account/route.ts:45-47 | the recogniser's middle part ends within the text |
| DeleteAccount.Closing | app/api/auth/delete-account/route.ts:45-47 | the recogniser's closing part ends within the text |
| DeleteAccount.ClosingOf | app/api/auth/delete-account/route.ts:45-47 | white space then `}}` is recognised, and recognition ends right after it |
| DeleteAccount.DotAndNameOf | app/api/auth/delete-account/route.ts:45-47 | white space, `.Name`, white space and `}}` are recognised, ending right after |
| DeleteAccount.PlaceholderAtOf | app/api/auth/delete-account/route.ts:45-47 | every `{{ .Name }}` with any white space is recognised, ending right after it |
| DeleteAccount.ClosingSound | app/api/auth/delete-account/route.ts:45-47 | whatever the closing part recognises is white space then `}}` |
| DeleteAccount.DotAndNameSound | app/api/auth/delete-account/route.ts:45-47 | whatever the middle part recognises is white space, `.Name`, white space and `}}` |
| DeleteAccount.SpaceSound | app/api/auth/delete-account/route.ts:45-47 | a leading white-space character joins the recognised white space |
| DeleteAccount.DotSound | app/api/auth/delete-account/route.ts:45-47 | after the dot and the name, what is recognised is white space and `}}` |
| DeleteAccount.PlaceholderAtSound | app/api/auth/delete-account/route.ts:45-47 | whatever is recognised is a `{{ .Name }}` placeholder with white space only |
| DeleteAccount.Replace | app/api/auth/delete-account/route.ts:45-47 | text without `{` holds no placeholder and is left unchanged |
| DeleteAccount.ReplacePrefix | app/api/auth/delete-account/route.ts:45-47 | a brace-free prefix passes through unchanged |
| DeleteAccount.ReplacePlaceholder | app/api/auth/delete-account/route.ts:45-47 | a placeholder at the front becomes the value, and replacement continues after it |
| DeleteAccount.ReplaceInContext | app/api/auth/delete-account/route.ts:45-47 | one placeholder between brace-free text becomes the value |
| DeleteAccount.EmailHtml | app/api/auth/delete-account/route.ts:45-47 | a template without placeholders is mailed unchanged |
| DeleteAccount.LinkTemplateFilled | app/api/auth/delete-account/route.ts:43-47 | a template with one `{{ .ConfirmationURL }}` gets the confirmation link in its place |
| DeleteAccount.DeleteAccountRoute | app/api/auth/delete-account/route.ts:9-71 | 401 without a user and no insert; otherwise one request is inserted unless the insert fails, which the route never notices; when the mailer is configured the filled-in e-mail goes to the user, and a send failure answers 500 with the request kept |
| DeleteAccount.RequestThenConfirm | app/api/auth/delete-account/route.ts:24-34 | a fresh request confirmed within 24 h deletes the user and clears the request; later it expires |

## Left out

- Presentation: markup, icons, charts, class names other than the colours modelled, `cn`, `getMacroColor` and the date formatting helpers. They compute no state.
- `signIn`, the initial session load and the auth-state listener of `lib/hooks/use-auth.ts`. They only forward to the hosted auth service.
- The logarithms of the Navy formula: `log10` is a parameter of `Nutrition.BodyFat`. A NaN from the logarithm of a negative number is not modelled.
- JSON parsing: a stored value is missing, unparsable, or a well-formed record. A parsable record of the wrong shape is not modelled.
- Query-builder semantics of the hosted backend (`or`, `order`, `in`, joins). Their answers are parameters, and only the requests sent are recorded.
- The asynchronous interleaving of React state updates, and the intermediate `isLoading` values. The hook methods run to completion one at a time.
- Thrown exceptions: the 500 `catch` paths of the routes and a failed `getUserById` call. Only the answers the code checks are modelled.
- The unchecked answers of the confirm route's deletions of the request row and of the sign-up writes. Their results are never read by the code, so the model records each request and the intended change. The deletion-request insert's failure is a parameter of `DeleteAccount.DeleteAccountRoute`: it leaves the table unchanged and the answer the same.
- Cascade deletion of a deleted user's rows, which the database performs.
- Reading the e-mail template file, and the Resend client. The template text and whether sending throws are parameters.
- `$` patterns in replacement strings passed to `String.replace`. A value containing `$&` or `$1` would be expanded by JavaScript; the model inserts it verbatim.
- `toLowerCase` beyond ASCII: the model lowers A–Z only.
- IEEE-754 doubles: quantities are exact reals, so results can differ from the program's at rounding and threshold boundaries, for example `Math.round(x * 10) / 10` at a value whose double lies just below a half-tenth, or `(p / t) * 100 < 85` against the exact `p < 0.85 t`.
- A `Record` key that collides with an `Object.prototype` property in the grouping of the foods page.
- `MIXED_VEGETABLES_OPTIONS`: the options are a parameter of the vegetable-mix functions rather than the fixed list.
- Nutrition.CalculateMacros: the contract ties the result to `Nutrition.MacroSplit` of the target; the nearest-integer facts are stated there.
