# Expiration tracking and reminder scheduling, in Dafny

This project models the core logic of a supermarket expiration-control app, a
React Native screen. The app keeps products with expiration dates, shows how
many days each has left and how urgent that is, and schedules push
reminders at expiration and 7 and 30 days before. The model covers four parts:

- **Expiration classifier** (`expiration.dfy`, module `Expiration`). The days
  left are the ceiling of (expiration − now) / one day, in integer
  milliseconds. A first-match threshold table maps that number to one of five
  statuses: expired, today, warning, caution and ok.
- **Name trimming** (`text.dfy`, module `Text`). This is JavaScript's `trim`,
  which is used to validate and store product names.
- **Reminder plan** (`reminders.dfy`, module `Reminders`). A product yields up
  to three reminders. Their keys are `<id>_exp`, `<id>_7d` and `<id>_30d`, and
  each one fires at expiration minus 0, 7 or 30 whole days. A reminder whose
  fire instant is not strictly after now is dropped. The dispatcher's pending
  reminders are a map from key to fire instant, and scheduling a key again
  replaces it.
- **Product lifecycle** (`inventory.dfy`, module `Inventory`). A class
  `Tracker` holds three things: the product store (a map from id to product,
  standing for the Realm database), the pending reminders, and the on-screen
  list. Its methods are `Add` (validate, store, schedule, reload),
  `ScheduleNotifications`, `Delete` (the confirmed deletion: remove the record
  and cancel its three keys) and `LoadProducts` (list the store sorted by
  expiration).

The class invariant `Tracker.Valid` says four things:
- Every record sits under its own id.
- Every stored name is non-empty, trimmed and at most 50 characters long.
- The pending reminders are exactly the union of the plans each product got
  when it was created (`RemindersMatchStore`), and every pending key belongs
  to a stored product.
- The on-screen list is a permutation of the stored products, sorted by
  expiration.

Reminder keys are proved injective for arbitrary ids (`KeyInjective`). No
suffix ends with another suffix, so two products can never share a key, even
if their ids contain `_`.

Behaviour of the code worth knowing:
- **Zero days ("today").** The days left are a ceiling, so zero days left
  means the expiration instant lies in the last 24 hours up to now, not on
  the same calendar day. An expiration later today counts as 1 day left,
  which is the "warning" status (`DueTodayIff`).
- **Past expiration.** The reminder at expiration is dropped when the
  expiration is not after now, just like the other two
  (backup/supermercado_app.js:149).
- **Reminder order.** Reminders are issued in the order expiration, 7 days,
  30 days, so fire instants decrease in issue order.
- **No update or sync.** There is no update operation, no re-sync, no
  per-item key index and no handling of dispatcher failures.
- **Delete order.** Deletion removes the record first and then issues the
  three cancels, inside one database write; the list is reloaded after the
  write.
- **Validation.** Names are validated only by trimming: an empty or
  all-white-space name is refused. The 50-character limit is enforced only
  by the text field, so it is a precondition of `Add`. The expiration date
  is not validated at all.

## Model

| member | source | states |
|---|---|---|
| Expiration.DaysUntilExpiration | backup/supermercado_app.js:236-242 | the result is the unique d with (d−1)·DAY < exp − now ≤ d·DAY, i.e. the ceiling of the difference in days |
| Expiration.DaysUntilIsUnique | backup/supermercado_app.js:239-240 | any integer bracketing exp − now that way is the days count |
| Expiration.DueTodayIff | backup/supermercado_app.js:236-241 | zero days left iff now − DAY < exp ≤ now; an expiration within the next 24 hours gives 1 |
| Expiration.WholeDaysAway | backup/supermercado_app.js:239-240 | an expiration exactly n days away gives n |
| Expiration.DaysMonotoneInExpiration | backup/supermercado_app.js:239-240 | a later expiration never has fewer days left |
| Expiration.DaysShrinkOverTime | backup/supermercado_app.js:237-240 | a later now never has more days left |
| Expiration.StatusOf | backup/supermercado_app.js:244-251 | the threshold table as a partition: expired iff d < 0, today iff d = 0, warning iff 1..7, caution iff 8..30, ok iff d > 30 |
| Expiration.ExpirationStatus | backup/supermercado_app.js:244-252 | the status as windows of the expiration instant around now: expired iff exp ≤ now − DAY, today iff now − DAY < exp ≤ now, warning iff now < exp ≤ now + 7 days, caution iff now + 7 days < exp ≤ now + 30 days, ok iff exp > now + 30 days |
| Expiration.Status.Color | backup/supermercado_app.js:247-251 | the colour returned with a status is a `#rrggbb` code: seven characters, `#` followed by six lower-case hex digits |
| Expiration.ColorIdentifiesStatus | backup/supermercado_app.js:247-251 | the five statuses have five different colours |
| Expiration.StatusMonotone | backup/supermercado_app.js:247-251 | more days left never gives a more urgent status |
| Expiration.StatusMonotoneInExpiration | backup/supermercado_app.js:244-251 | at one instant, a later expiration is never more urgent |
| Expiration.StatusEscalatesOverTime | backup/supermercado_app.js:244-251 | as now advances, an item's status never becomes less urgent |
| Expiration.ExpiredIff | backup/supermercado_app.js:244-247 | status expired iff the expiration lies at least one full day before now (a named corollary of ExpirationStatus) |
| Expiration.ExpiredFiveDaysAgo | backup/supermercado_app.js:236-247 | an item that expired 5 days ago has −5 days and status expired |
| Text.TrimStart | backup/supermercado_app.js:108 | the result is a suffix of the input that does not start with white space, and all that was cut is white space |
| Text.TrimEnd | backup/supermercado_app.js:108 | the result is a prefix of the input that does not end with white space, and all that was cut is white space |
| Text.Trim | backup/supermercado_app.js:108 | the trimmed name has no white space at either end and is no longer than the input |
| Text.TrimSpec | backup/supermercado_app.js:122 | the trimmed name is a contiguous piece of the input, and everything cut off before and after it is white space |
| Text.TrimEmptyIff | backup/supermercado_app.js:108-111 | the trimmed name is empty iff the input is empty or all white space |
| Text.TrimOfTrimmed | backup/supermercado_app.js:122 | a string without white space at its ends is left unchanged |
| Text.TrimIdempotent | backup/supermercado_app.js:122 | trimming twice equals trimming once |
| Reminders.Plan | backup/supermercado_app.js:144-188 | at most three reminders; none when exp ≤ now; every planned key is one of the product's three keys and fires strictly after now |
| Reminders.SuffixDistinguishesKey | backup/supermercado_app.js:151-181 | two keys of one product are equal only for the same horizon |
| Reminders.OneProductKeysDistinct | backup/supermercado_app.js:151-181 | the keys `_exp`, `_7d` and `_30d` of one product are pairwise distinct |
| Reminders.KeyInjective | backup/supermercado_app.js:151-181 | equal keys have equal ids and equal horizons, for all ids |
| Reminders.KeyOwnerUnique | backup/supermercado_app.js:208-216 | a key is one of the cancel keys of at most one product |
| Reminders.CancelKeysInTurn | backup/supermercado_app.js:208-216 | the three cancels in a row remove exactly the product's key set from the pending reminders |
| Reminders.PlanMembership | backup/supermercado_app.js:149-179 | each horizon's reminder is in the plan iff its fire instant is strictly after now |
| Reminders.PlanNested | backup/supermercado_app.js:149-188 | a 30-day reminder implies a 7-day one, which implies one at expiration |
| Reminders.PlanWellFormed | backup/supermercado_app.js:149-188 | within a plan the keys are distinct and fire instants strictly decrease in issue order |
| Reminders.PlanTenDaysAhead | backup/supermercado_app.js:149-188 | expiring in 10 days: reminders at +10 days and +3 days only |
| Reminders.PlanFortyDaysAhead | backup/supermercado_app.js:149-188 | expiring in 40 days: reminders at +40, +33 and +10 days |
| Reminders.ScheduleAllOptional | backup/supermercado_app.js:149-179 | issuing a reminder only when its fire instant is after now is scheduling a plan that contains it only then |
| Reminders.ScheduleAllPlanSteps | backup/supermercado_app.js:149-188 | scheduling the plan is the three guarded schedule calls in the order expiration, 7 days, 30 days |
| Reminders.ScheduleAllPlanAt | backup/supermercado_app.js:149-188 | for one horizon: its key is pending at its fire instant if that is after now, and is as before otherwise |
| Reminders.ScheduleAllPlan | backup/supermercado_app.js:149-188 | after scheduling a plan, each key whose fire instant is after now is pending at that instant; every other key is as before |
| Reminders.RescheduleIsIdempotent | backup/supermercado_app.js:149-188 | scheduling the same plan twice leaves the same pending reminders as scheduling it once |
| Inventory.InsertByExpiration | backup/supermercado_app.js:103 | inserting adds exactly one element (multiset) |
| Inventory.InsertKeepsSorted | backup/supermercado_app.js:103 | inserting into a list sorted by expiration keeps it sorted |
| Inventory.SortedListing | backup/supermercado_app.js:103 | the result is sorted ascending by expiration and is a permutation of the stored products |
| Inventory.ListingShowsStore | backup/supermercado_app.js:103-104 | a product is on the list iff it is stored |
| Inventory.AddKeepsRemindersMatched | backup/supermercado_app.js:119-131 | storing a fresh product and scheduling its plan keeps the reminders exactly in step with the store |
| Inventory.DeleteKeepsRemindersMatched | backup/supermercado_app.js:202-217 | removing a product and cancelling its three keys keeps the reminders in step with the store |
| Inventory.AbsentProductHasNoReminders | backup/supermercado_app.js:203-217 | no key of an unstored product is pending, so deleting an absent id has nothing to cancel |
| Inventory.AddKeepsRecordsValid | backup/supermercado_app.js:119-124 | storing a product with a valid name under its own id keeps every record under its id and every name valid |
| Inventory.AddKeepsValid | backup/supermercado_app.js:119-131 | storing a fresh product, scheduling its plan and reloading the list keeps the whole invariant |
| Inventory.DeleteKeepsRecordsValid | backup/supermercado_app.js:203-205 | removing a record keeps every record under its id and every name valid |
| Inventory.DeleteKeepsValid | backup/supermercado_app.js:202-220 | removing a product, cancelling its keys and reloading the list keeps the whole invariant |
| Inventory.AddThenDeleteRestores | backup/supermercado_app.js:107-217 | deleting a product just added restores the store and the pending reminders |
| Inventory.Tracker.constructor | backup/supermercado_app.js:33-37 | the screen starts with an empty product list and no reminders, and the invariant holds |
| Inventory.Tracker.LoadProducts | backup/supermercado_app.js:102-105 | the on-screen list becomes the store sorted by expiration |
| Inventory.Tracker.ScheduleNotifications | backup/supermercado_app.js:144-189 | the pending reminders become the old ones with the product's plan scheduled |
| Inventory.Tracker.Add | backup/supermercado_app.js:107-142 | all-white-space name, then missing database, then an existing primary key, are each rejected with no change; the add succeeds iff none of them applies, and then the product with the trimmed name is stored, its plan scheduled and the list reloaded; the invariant is kept |
| Inventory.Tracker.CreateAndSchedule | backup/supermercado_app.js:118-135 | the database write and the reload after it: the record is stored under its id, its plan is scheduled at its creation instant, the list is reloaded, and the invariant is kept |
| Inventory.Tracker.Delete | backup/supermercado_app.js:200-225 | with the database open, the id is removed from the store, its three keys are cancelled, nothing else changes, and none of its keys stays pending; an absent id changes nothing; the invariant is kept |
| Inventory.Tracker.RemoveAndCancel | backup/supermercado_app.js:202-220 | the database write for a found record and the reload after it: the record is removed, exactly its three keys are cancelled, the list is reloaded, and the invariant is kept |

## Left out

- User interface: rendering, styles, alert dialogs, the date picker and the `pt-BR` date formatting. These are presentation only. After a successful add the form is reset, and that reset is not modelled.
- Platform setup: opening and closing the database, configuring notifications, requesting permissions and creating the channel are foreign library calls. Instead, the `Tracker` constructor is told whether the database handle is open. The store starts empty, so records and reminders left over from an earlier session are not modelled.
- The clock and id generation are parameters (`now`, `id`). The creation timestamp and the instant `scheduleNotifications` reads are two separate clock reads in the code. The model uses one instant for both.
- Notification payloads (title, message, channel, idle flag) are opaque data for the library. Only the key and fire instant are modelled.
- Delivery: a reminder that has fired stays in the pending map. The model tracks what was registered, not what the operating system has already delivered.
- Calendar effects: `setDate(d − 7)` and `setDate(d − 30)` are modelled as subtracting exactly 7 or 30 days of milliseconds. Daylight-saving shifts in local time are not modelled.
- Floating point: `Math.ceil(diff / 86400000)` is modelled as exact integer ceiling division. This is exact for integer differences of realistic size.
- Errors from the database other than a duplicate primary key, and the rollback of the write transaction, are not modelled.
- Strings: characters are Unicode scalar values, not UTF-16 code units.
- Inventory.SortedListing: only states sorted order and the permutation. The order of products with equal expiration instants is left open, because the database query does not fix it.
- Inventory.Tracker.Add: `|name| <= 50` is a precondition, because only the text field's `maxLength` enforces that limit.
