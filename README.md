# Cybersecurity incident reporting: a verified model of its rule sets

This project models the rules behind a Laravel incident-reporting application and the Python
scoring script that feeds it. It leaves out the page rendering, the ORM and the redirects.
Each rule set is stated over sequences, maps and sets, and its properties are proved:

- **Alert notification fan-out** (`Alerts`). Creating an alert notifies people in three steps:
  - a self-acknowledgement to the acting user;
  - for a `critical` alert, a broadcast to every Admin and Analyst;
  - a role-matrix step that skips the acting user.

  The first two steps have no local error handling, so the first failure ends the dispatch.
  The role-matrix step catches each recipient's failure on its own. `store` plans this
  fan-out and then runs it. It also validates the alert, creates it with status `new`, and
  keeps it when the dispatch fails. `update` keeps every field the request leaves out.
- **Dashboard aggregation** (`Dashboard`). It computes:
  - the headline counts;
  - the attack-type distribution over the last 30 days;
  - the seven-day histogram;
  - the severity distribution with its colours;
  - the system-health panel;
  - the five most recent alerts.

  The fixed placeholder series replace empty results.
- **Notification inbox** (`Notifications`). It covers the latest-ten projection with payload
  defaults, the unread count, mark-one-read, mark-all-read, delete-one and delete-all. Each
  changes only the acting user's inbox.
- **Network-log records** (`NetworkLogs`). It covers:
  - the role-based visibility filter;
  - an upload that stores a file and creates a `pending` record;
  - the status-only update;
  - removal of a record together with its file, on a disk modelled as a set of paths.
- **ML model table** (`MLModels`). It covers `store`, `update` and `destroy` over a table
  whose names stay pairwise distinct under any sequence of requests.
- **User creation hook** (`Users`). Every new user gets exactly one preference row, with
  the fixed defaults.
- **Severity scoring** (`Predict`). It covers:
  - the attack-type table with its confidence adjustment;
  - the `is_attack` flag;
  - the per-model attack counts and summaries;
  - the 38-column feature matrix.

`Common` holds the shared vocabulary:
- `Option`;
- a three-way `Input`: the key was absent, present but null, or given;
- the `Outcome` of a request (success, info, error, not found);
- `Filter`;
- `Tally`, a grouped count kept as an insertion-ordered association list, as a Python dict
  yields it;
- a descending sort that promises no order among ties;
- the string helpers.

State that a controller changes in place lives in a class. `UserDirectory`, `AlertTable`,
`LogStore`, `ModelTable` and `NotificationTable` each have `modifies` clauses. Each method's
`ensures` ties its new state to a pure function of the old state, and the properties are
proved about those functions. The loops of the source are methods with loop invariants:
- the role-matrix outbox loop;
- the critical broadcast;
- the seven-day histogram;
- the attack counts of `batch_predict`;
- the summary loop of `generate_summary`;
- the fill of the feature matrix.

Time is integer seconds, and the calendar day of a time `t` is `t / 86400`. The request
time, the roster of users and the set of deliveries that throw are parameters.

Notes on the code the model follows:

- Notification failures: `sendNotificationsByRole` wraps each recipient in its own `try`.
  The self-acknowledgement and the critical broadcast in `sendAlertNotifications` do not.
  So a failure there ends the whole dispatch, role step included, and `store`'s inner
  `catch` only logs it. The model makes this early stop explicit.
- With no acting user, the role-matrix query becomes `where('id', '!=', null)`. Laravel
  turns that into `whereNotNull('id')`, so nobody is excluded.
- The attack-type query calls `$now->subDays(30)`, which moves `$now` itself. Every later
  use of the current time reads the clock afresh. So only the 30-day window sees the change,
  and the model treats it as a window ending at the request time.
- The seven-day series is replaced by the placeholder when the seven daily counts sum to zero.

## Model

| member | source | states |
|---|---|---|
| Alerts.TargetRoles | app/Http/Controllers/AlertController.php:192-199 | Admin is always a target. Analyst is a target exactly for critical, high and medium. No other role is ever a target; a low or unknown severity falls back to Admin alone. |
| Alerts.DeliveriesOfFilter | app/Http/Controllers/AlertController.php:200-210 | Notifying the users a query selects reaches a given user id once for each selected user carrying that id. |
| Alerts.ActingUserNotifiedOnce | app/Http/Controllers/AlertController.php:168-171 | The acting user gets no AlertCreated delivery from the role step. Whatever their role, they get exactly one AlertCreated delivery in the whole plan. |
| Alerts.NoActingUser | app/Http/Controllers/AlertController.php:166-181 | With no acting user there is no self-acknowledgement. Nobody is excluded: the plan is the critical step followed by AlertCreated to every user whose role the matrix selects. |
| Alerts.RoleMatrixRecipient | app/Http/Controllers/AlertController.php:200-202 | A user with an eligible role who is not the acting user gets exactly one AlertCreated delivery; every other user gets none. Assumes unique user ids. |
| Alerts.CriticalRecipient | app/Http/Controllers/AlertController.php:173-178 | For a critical alert, each Admin or Analyst gets exactly one CriticalThreatDetected delivery and no other user gets one. |
| Alerts.NonCriticalSendsNoCritical | app/Http/Controllers/AlertController.php:173-178 | For any other severity, every planned delivery is AlertCreated. |
| Alerts.CriticalAudienceNotifiedTwice | app/Http/Controllers/AlertController.php:173-180 | For a critical alert, an Admin or Analyst other than the acting user gets one AlertCreated delivery and one CriticalThreatDetected delivery, with no de-duplication. |
| Alerts.LowAlertByOrdinaryUser | app/Http/Controllers/AlertController.php:166-211 | A low alert created by a user who is neither Admin nor Analyst plans: the self-acknowledgement, then AlertCreated to every Admin other than that user, and nothing critical. |
| Alerts.Unguarded | app/Http/Controllers/AlertController.php:168-178 | An unguarded loop sends the longest prefix free of failing deliveries. It stops short exactly when some delivery fails, and the delivery it stops at is a failing one. |
| Alerts.UnguardedAppend | app/Http/Controllers/AlertController.php:168-178 | A sequence of unguarded steps in which the first sends everything continues with the second. |
| Alerts.DispatchWithoutFailures | app/Http/Controllers/AlertController.php:166-211 | When nothing fails, the dispatch sends exactly the planned deliveries, reports no failures and does not stop early. |
| Alerts.OnlyUnguardedFailuresAbort | app/Http/Controllers/AlertController.php:166-181 | A dispatch stops early exactly when a self-acknowledgement or critical-broadcast delivery fails. |
| Alerts.RoleFailuresAreIsolated | app/Http/Controllers/AlertController.php:204-210 | When the role step is reached, each of its deliveries is sent exactly when it does not fail and is recorded as failed exactly when it does. One failure does not stop the rest. |
| Alerts.DispatchAccountsForAll | app/Http/Controllers/AlertController.php:166-211 | A dispatch that runs to the end sends or records as failed every planned delivery, as multisets. |
| Alerts.AbortedDispatch | app/Http/Controllers/AlertController.php:144-149 | A dispatch that stops early sends only an unguarded prefix of the first two steps and never reaches the role step. |
| Alerts.FilterPartition | app/Http/Controllers/AlertController.php:204-210 | Splitting a step's deliveries into sent and failed loses and duplicates nothing. |
| Alerts.SendNotificationsByRole | app/Http/Controllers/AlertController.php:190-211 | The loop appends to the outbox exactly the role-step deliveries that do not fail, in order, and records exactly those that fail. |
| Alerts.BroadcastCritical | app/Http/Controllers/AlertController.php:173-178 | The broadcast appends the longest prefix of the audience's deliveries without a failure. It reports stopping exactly when one of them fails. |
| Alerts.SendAlertNotifications | app/Http/Controllers/AlertController.php:166-181 | The three steps together produce the dispatch the pure model defines: what is sent, what failed and whether it stopped early. |
| Alerts.Created | app/Http/Controllers/AlertController.php:123-139 | A validated request creates an alert under the given id with status `new`, detected at the request time. Every other column is the requested value: network log and model (both existing), attack type, severity, and the IPs, confidence and description, each none when not given. The result meets every validation rule: severity in the four levels, attack type at most 255 characters, confidence absent or in [0,1], description at most 1000 characters. |
| Alerts.Updated | app/Http/Controllers/AlertController.php:279-293 | An accepted update keeps the alert's id and detection time and still meets every rule. Network log, model, attack type and severity take the requested values. The IPs, confidence and description take the sent value, become none when sent as null, and keep the old value when not sent. The status is unchanged unless the request gives one. |
| Alerts.InsertKeepsInvariant | app/Http/Controllers/AlertController.php:136-139 | Inserting a well-formed alert under the next id keeps every stored alert well formed, keeps ids pairwise distinct and keeps every id below the next one. |
| Alerts.AlertTable.Store | app/Http/Controllers/AlertController.php:118-158 | Invalid input changes nothing and yields an error. Valid input appends the created alert and runs the dispatch. The outcome is success however the dispatch ends, and the alert stays. |
| Alerts.AlertTable.Update | app/Http/Controllers/AlertController.php:276-302 | A missing alert yields not-found. Invalid input changes nothing. Otherwise only that alert is replaced by its updated form. Ids stay distinct and below the next id. |
| Alerts.IndexOfAlert | app/Http/Controllers/AlertController.php:276 | Finds the position of the alert with a given id, or reports that there is none. |
| Dashboard.ComputeStats | app/Http/Controllers/DashboardController.php:45-60 | The four totals are the sizes of the four tables. The critical count is the number of occurrences of "critical" among the alerts' severities, so at most the alert total and zero exactly when no alert is critical. The pending count is likewise the number of logs whose status is "pending". |
| Common.FilterCountsValue | app/Http/Controllers/DashboardController.php:57 | Counting the rows whose column equals a value gives the number of occurrences of that value in the column. |
| Dashboard.RecentAttackTypes | app/Http/Controllers/DashboardController.php:63-67 | The attack types listed are exactly those of alerts detected in the last 30 days, each once. |
| Dashboard.AttackTypeDistribution | app/Http/Controllers/DashboardController.php:63-72 | With no recent alert the result is the five-entry placeholder. Otherwise there is one entry per recent attack type with its count, sorted by count descending. |
| Dashboard.SortedGroups | app/Http/Controllers/DashboardController.php:63-69 | Sorting the grouped counts keeps every group and its count, and orders them by count descending. |
| Dashboard.CountInDaysGrow | app/Http/Controllers/DashboardController.php:76-84 | Counting over one more day adds exactly that day's alerts. |
| Dashboard.PlaceholderSeries | app/Http/Controllers/DashboardController.php:167-175 | The placeholder histogram has the seven days from today-6 to today, oldest first, with the counts 5, 8, 12, 7, 15, 10, 6. |
| Dashboard.DaySeries | app/Http/Controllers/DashboardController.php:76-84 | The real histogram has the seven days from today-6 to today, oldest first, each with the number of alerts detected on that calendar day. |
| Dashboard.DailyCounts | app/Http/Controllers/DashboardController.php:75-84 | The loop builds exactly that histogram, and its running total is the number of alerts in those seven days. |
| Dashboard.SeriesTotalCounts | app/Http/Controllers/DashboardController.php:85 | A run of consecutive days whose entries count each day's alerts sums to the number of alerts in that run of days. |
| Dashboard.DaySeriesTotal | app/Http/Controllers/DashboardController.php:85 | The sum of the histogram's counts is the number of alerts in the seven days, so the placeholder test `sum('count') == 0` is the test that no alert falls in the week. |
| Dashboard.AlertsOverTime | app/Http/Controllers/DashboardController.php:75-87 | The series is the placeholder exactly when no alert falls in the seven days; otherwise it is the real histogram. |
| Dashboard.SeverityColor | app/Http/Controllers/DashboardController.php:140-149 | Ignoring case: critical maps to #ef4444, high to #f97316, medium to #eab308 and low to #22c55e. Anything else maps to #6b7280. Each is an if and only if. |
| Dashboard.SeverityColorIgnoresCase | app/Http/Controllers/DashboardController.php:142 | For every string, the colour is that of its lower-case form. |
| Dashboard.SeverityColorSpellings | app/Http/Controllers/DashboardController.php:142 | Mixed- and upper-case spellings of the four levels get their colours, and an unknown word gets grey. |
| Dashboard.SeverityPlaceholderMatchesLabels | app/Http/Controllers/DashboardController.php:176-181 | The four placeholder entries carry ucfirst labels, the counts 5, 12, 18 and 8, and the colours of their severities. |
| Dashboard.SeverityGroups | app/Http/Controllers/DashboardController.php:90-93 | The severities grouped are exactly those present among the alerts, each listed once. |
| Dashboard.TotalCountOfEntries | app/Http/Controllers/DashboardController.php:90-98 | The entries' counts add up to the groups' counts. |
| Dashboard.SeverityDistribution | app/Http/Controllers/DashboardController.php:90-100 | With no alert the result is the placeholder. Otherwise there is one entry per severity present, with its count, label and colour, and the counts add up to the number of alerts. |
| Dashboard.ComputeSystemHealth | app/Http/Controllers/DashboardController.php:103-108 | The active-model count is the model total. The logs processed today are the number of logs whose creation day is today's calendar day, and the alerts today the number whose detection day is; each is the number of occurrences of today among those days. The processing time is the constant "2.3s". |
| Dashboard.ModelName | app/Http/Controllers/DashboardController.php:118 | The linked model's name, or "Unknown" when no model has that id. |
| Dashboard.NewestAreStored | app/Http/Controllers/DashboardController.php:111-113 | Every alert among the newest comes from the store. |
| Dashboard.LeftOutAreOlder | app/Http/Controllers/DashboardController.php:111-113 | No alert left out of the newest five is more recent than one that was kept. |
| Dashboard.UnshownAreOlder | app/Http/Controllers/DashboardController.php:111-122 | No stored alert that the panel does not show is newer than a shown one. |
| Dashboard.RecentOrdered | app/Http/Controllers/DashboardController.php:112 | The panel rows are ordered by detection time, newest first. No order is promised among ties. |
| Dashboard.RecentFromStore | app/Http/Controllers/DashboardController.php:114-121 | Each panel row is the projection of a stored alert. |
| Dashboard.RecentAlerts | app/Http/Controllers/DashboardController.php:111-122 | The panel has min(5, number of alerts) rows, newest first. The rows project a sub-multiset of the stored alerts, so no stored alert is shown twice, and no unshown alert is newer than a shown one. |
| Dashboard.Index | app/Http/Controllers/DashboardController.php:40-132 | The page combines the parts above. The models-active figure equals the active-models stat. The series always has seven entries: the placeholder when no alert falls in the week, otherwise the real histogram, whose last entry counts today's alerts. |
| Dashboard.EmptyStoreShowsPlaceholders | app/Http/Controllers/DashboardController.php:69-100 | An empty store shows both placeholder distributions and an empty week, and lists no recent alerts. |
| Notifications.Unread | app/Http/Controllers/NotificationController.php:69 | The unread notifications are exactly the user's notifications without a read time. |
| Notifications.Find | app/Http/Controllers/NotificationController.php:88 | Finds the user's notification with the given id, or reports that there is none. Another user's notification is never found. |
| Notifications.Present | app/Http/Controllers/NotificationController.php:51-67 | The view keeps the id and times. It is read exactly when a read time is set. Each missing payload field takes its default: type "default", title "Notification", message "", severity "medium", icon "📄", colour "gray", priority "normal", no action URL. Each present field, the action URL included, is copied from the payload. |
| Notifications.EmptyPayloadShowsDefaults | app/Http/Controllers/NotificationController.php:55-65 | An empty payload shows all the defaults, including the page icon. |
| Notifications.LatestAreTheUsers | app/Http/Controllers/NotificationController.php:47-50 | Every notification among the latest belongs to the user. |
| Notifications.LeftOutAreOlder | app/Http/Controllers/NotificationController.php:48-49 | None of the user's notifications left out of the latest ten is newer than one that was kept. |
| Notifications.UnlistedAreOlder | app/Http/Controllers/NotificationController.php:47-67 | None of the user's notifications that is not listed is newer than a listed one. |
| Notifications.ViewsOrdered | app/Http/Controllers/NotificationController.php:48 | The list is ordered newest first. |
| Notifications.ViewsFromInbox | app/Http/Controllers/NotificationController.php:47-67 | Each listed view presents one of the user's own notifications. |
| Notifications.LatestViews | app/Http/Controllers/NotificationController.php:47-67 | The list has min(10, inbox size) entries, newest first. They present a sub-multiset of the user's own notifications, so none is listed twice, and none left out is newer. |
| Notifications.Feed | app/Http/Controllers/NotificationController.php:43-75 | The response is that list plus the unread count, which is at most the inbox size. |
| Notifications.MarkedAsRead | app/Http/Controllers/NotificationController.php:88-96 | A missing or already-read notification changes nothing and yields info. An unread one gets the request time as its read time and yields success. |
| Notifications.MarkAsReadChangesOnlyTarget | app/Http/Controllers/NotificationController.php:88-96 | A successful mark stamps only that row with the request time. The user's unread count drops by one, their inbox keeps its size, and every other user's inbox is the same. |
| Notifications.AllMarkedRead | app/Http/Controllers/NotificationController.php:114-118 | Marking all keeps the table's length and applies the mark to each row. |
| Notifications.MarkAllAsReadClearsUnread | app/Http/Controllers/NotificationController.php:114-123 | Afterwards the user has no unread notification. Rows keep their ids and owners, rows already read keep their old read time, and every other user's inbox is the same. |
| Notifications.Destroyed | app/Http/Controllers/NotificationController.php:142-150 | A missing notification yields error with no change. Otherwise exactly that row is removed and the outcome is success. |
| Notifications.DestroyRemovesExactlyOne | app/Http/Controllers/NotificationController.php:142-150 | A successful destroy shrinks the table and the user's inbox by exactly one, and leaves every other user's inbox the same. |
| Notifications.DestroyAllEmptiesOnlyThatInbox | app/Http/Controllers/NotificationController.php:168-175 | Deleting all leaves the user's inbox empty and every other user's inbox the same. |
| Notifications.FilterSplitCount | app/Http/Controllers/NotificationController.php:168-171 | The user's notifications and everyone else's add up to the whole table. |
| Notifications.NotificationTable.MarkAsRead | app/Http/Controllers/NotificationController.php:83-102 | The table after the request and its outcome are those of the mark-as-read transition. |
| Notifications.NotificationTable.MarkAllAsRead | app/Http/Controllers/NotificationController.php:109-129 | The count reported is the number of unread notifications. With none, nothing changes and the outcome is info; otherwise all are marked read. |
| Notifications.NotificationTable.Destroy | app/Http/Controllers/NotificationController.php:137-156 | The table after the request and its outcome are those of the destroy transition. |
| Notifications.NotificationTable.DestroyAll | app/Http/Controllers/NotificationController.php:163-182 | The count reported is the inbox size before the request. With none, nothing changes and the outcome is info; otherwise exactly the user's rows are removed. |
| NetworkLogs.VisibleLogs | app/Http/Controllers/NetworkLogController.php:36-48 | An Admin sees every log. Anyone else sees exactly the logs whose owner is themselves. |
| NetworkLogs.FilesAfterDestroy | app/Http/Controllers/NetworkLogController.php:166-168 | The file is deleted only when its path is non-empty and not "0" and the file exists. Nothing else on the disk is touched. |
| NetworkLogs.UploadedFileIsDeletedWithItsRecord | app/Http/Controllers/NetworkLogController.php:166-168 | A path made by an upload is always deletable, so destroying its record removes exactly that file. |
| NetworkLogs.IndexOfLog | app/Http/Controllers/NetworkLogController.php:163 | Finds the position of the log with a given id, or reports that there is none. |
| NetworkLogs.RemoveLogAt | app/Http/Controllers/NetworkLogController.php:170 | Removing a record keeps ids unique and leaves exactly the records with another id. |
| NetworkLogs.LogStore.Store | app/Http/Controllers/NetworkLogController.php:66-108 | A missing upload, a wrong type or a file over 10240 KB changes nothing and yields an error. Otherwise the file is stored at `network_logs/<time>_<original name>` and a `pending` record is added, owned by the user and named after the original file. |
| NetworkLogs.LogStore.Update | app/Http/Controllers/NetworkLogController.php:145-155 | Only a status among pending, processing, processed and failed is accepted. It changes that record's status and nothing else. |
| NetworkLogs.LogStore.Destroy | app/Http/Controllers/NetworkLogController.php:163-174 | The record is removed in every case. Its file is removed only under the guard, so a missing file does not prevent the deletion. |
| MLModels.StoreModel | app/Http/Controllers/MLModelController.php:59-78 | The store succeeds exactly when the request passes every rule: a non-blank name of at most 255 characters, not taken, and a description of at most 1000 characters or none. On success it appends the row with the next id; otherwise nothing changes. A valid table stays valid. |
| MLModels.UpdateModel | app/Http/Controllers/MLModelController.php:113-132 | A missing id yields not-found. The update succeeds exactly when the rules pass, with the row's own name not counting as taken. On success only that row changes; otherwise nothing does. A valid table stays valid. |
| MLModels.DestroyModel | app/Http/Controllers/MLModelController.php:140-152 | Removes exactly the row with that id and keeps the table valid. A missing id yields not-found. |
| MLModels.RemoveRowKeepsTable | app/Http/Controllers/MLModelController.php:143 | Removing a row keeps names distinct and ids unique, and leaves exactly the rows with another id. |
| MLModels.Run | app/Http/Controllers/MLModelController.php:59-152 | After any sequence of requests against a valid table, the table is valid and its names are pairwise distinct. |
| MLModels.StoreRejectsTakenName | app/Http/Controllers/MLModelController.php:63 | A name some row already has is refused and nothing changes. |
| MLModels.UpdateMayKeepOwnName | app/Http/Controllers/MLModelController.php:117 | A row may be updated with its own name. |
| MLModels.UpdateRejectsOthersName | app/Http/Controllers/MLModelController.php:117 | A row may not take another row's name. |
| MLModels.ModelTable.Store | app/Http/Controllers/MLModelController.php:59-78 | In place, the table and outcome are those of the pure store, and the table stays valid. |
| MLModels.ModelTable.Update | app/Http/Controllers/MLModelController.php:113-132 | In place, the table and outcome are those of the pure update, and the table stays valid. |
| MLModels.ModelTable.Destroy | app/Http/Controllers/MLModelController.php:140-152 | In place, the table and outcome are those of the pure destroy, and the table stays valid. |
| Users.CreatedHookGivesOnePreference | app/Models/User.php:43-60 | After a user is added with the default row, every user has exactly one preference row. That user's is the default: all three channels on, not critical-only, alert types critical, high, medium and low. |
| Users.FreshIdKeepsUnique | app/Models/User.php:53 | A user with a fresh id keeps the ids unique. |
| Users.UserDirectory.Create | app/Models/User.php:53-60 | Creating a user appends it and its default preference row. Afterwards its only preference row is the default, and every user still has exactly one. |
| Predict.BaseSeverity | ml_scripts/predict.py:195-209 | A type whose lower-case form is in the table gets the table's severity; any other type gets medium. The result is medium, high or critical. |
| Predict.BaseSeverityIgnoresCase | ml_scripts/predict.py:209 | The base severity of a type is that of its lower-case form. |
| Predict.GetSeverity | ml_scripts/predict.py:190-223 | The result is low exactly when the type is exactly "normal". Above confidence 0.9, medium rises to high and high to critical. Below 0.6, critical drops to high and high to medium. Between 0.6 and 0.9 inclusive, the base is returned unchanged. |
| Predict.CapitalisedNormalIsMedium | ml_scripts/predict.py:192-209 | "Normal" is not the normal class and scores medium, while "normal" scores low at any confidence. "DDoS" at 0.5 drops from critical to high. |
| Predict.MakeResult | ml_scripts/predict.py:180-186 | A result is an attack exactly when the prediction is not "normal", and its severity is low exactly when it is not an attack. |
| Predict.BuildResults | ml_scripts/predict.py:178-188 | One result per paired label and confidence, with index, prediction and attack flag as above. |
| Predict.CountValues | ml_scripts/predict.py:237-240 | The loop's counts are the grouped count of the column. |
| Common.Tally | ml_scripts/predict.py:237-240 | The grouped count lists each distinct value once, with its number of occurrences. The counts add up to the number of values. |
| Predict.KeptExactly | ml_scripts/predict.py:233-234 | Every run that returned a non-empty list has its (name, results) entry kept, and every kept entry is that of such a run. |
| Predict.BatchPredict | ml_scripts/predict.py:225-258 | Only models that returned a non-empty result are kept, in order. Each kept model's attack counts are the grouped count of its predictions, and they add up to its number of results. |
| Predict.AttackRateIsFraction | ml_scripts/predict.py:278 | The rate is 0 when there are no samples. Otherwise it times the total is the attack count, and it lies in [0,1]. |
| Predict.SummaryCountsAddUp | ml_scripts/predict.py:264-280 | Attack plus normal samples is the total. The severity counts add up to the total. The rate is 0 for an empty run. |
| Predict.CountAttacks | ml_scripts/predict.py:266 | The loop counts exactly the results flagged as attacks. |
| Predict.SummarizeOne | ml_scripts/predict.py:265-280 | One model's summary, built by loops, is the pure summary of its results. |
| Predict.GenerateSummary | ml_scripts/predict.py:260-282 | One summary per kept model, each the pure summary of its results. |
| Predict.CreateDummyFeatures | ml_scripts/predict.py:136-147 | A fresh matrix with one row per sample and 38 columns. The first min(columns, 38) columns are copied from the input, and the rest are zero. |

## Left out

- HTTP, Inertia page rendering, redirects, flash message texts and `Log::` calls. Outcomes are `Outcome` tags (success, info, error, not found).
- Pagination and the ordering of the index pages, and the show, edit and create pages. The alert `index` and `destroy` actions are plain ORM calls without a rule of their own.
- The authentication controllers, the Swagger annotations, the migrations and the training script `ml_scripts/train_model.py` are not part of this model. The schema's enum values and defaults are used as constants.
- The notification classes `AlertCreatedNotification` and `CriticalThreatDetectedNotification` are not part of this model. A delivery is a (user id, kind) pair, and the payload contents are not modelled.
- Why a delivery fails is not modelled. The deliveries that throw are a parameter, `failing`.
- Database exceptions inside the `try` blocks other than validation and delivery failures. Each such `catch` only logs and redirects.
- `Alerts.Created`, `Alerts.Updated`: IP-address syntax (`ip`, via PHP's address filter) is a flag carried on the input, not parsed.
- Case-insensitive database collation: role, name and attack-type comparisons are exact.
- Concurrency: two requests racing past the same uniqueness check are not modelled.
- `Dashboard.Index`: alert severity is a non-null string. The schema allows null, and null would make `getSeverityColor` throw a type error, but every path modelled here writes a severity.
- Carbon formatting, time zones and `diffForHumans`. Times are integer seconds, days are `t / 86400`, and dates appear as day numbers.
- The `decimal(3,2)` rounding of stored confidence scores, and floating point in general: confidences and rates are reals.
- The `varchar(255)` column for model descriptions, against the 1000-character validation limit: the model follows the validation.
- `NetworkLogs.LogStore.Store`: the `ids:process-log` Artisan command is not modelled. Its failure is caught and only logged, so the stored record and the outcome do not depend on it, and its own effect on the record is outside this model. The file's MIME detection is an extension the upload carries.
- There is no ownership check on network-log `update` and `destroy`: any authenticated user may change any record, and the model does the same.
- `Predict`: model loading, preprocessing, the sample-data generator, the classifier calls and the JSON report writing are not modelled. The predicted labels and confidences are inputs.
- `Predict.BaseSeverity`: lower-casing is ASCII only, where Python's `lower()` handles all of Unicode.
- `Predict.BatchPredict`: the dict `all_results` is a sequence of (name, results) pairs. The names are the keys of `self.models`, so they are distinct and no entry is overwritten; the model does not carry that fact.
- `Dashboard.SeverityDistribution`: SQL leaves the order of the severity groups open, since the query has no `orderBy`. The model lists them in first-appearance order.
- `Notifications.Find`: returns the first match in row order, where the query returns the newest. These agree because notification ids are UUID primary keys; the table does not carry a distinct-id invariant.
- `Predict.CountValues`: its contract is equality with `Tally`. The counting facts are `Tally`'s own `ensures`.
