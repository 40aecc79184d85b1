# Health-monitoring backend: appointments, daily health records, utilities

This project models three parts of a NestJS/Prisma backend for remote patient monitoring, and proves properties of the model in Dafny.

- **Daily health submission** (`HealthRecordService`). A patient submits seven vital numbers: height, weight, cholesterol, systolic, diastolic, glucose and heartbeat.
  - `create` validates the numbers.
  - It writes today's rows of the five metric tables, one row per metric per day. An existing row is updated in place; a missing one is created.
  - Five classifier labels are counted. The count is banded into SAFE, DANGER or CRITIAL.
  - The band is stored on the health record, and the patient's doctor gets a warning notification that names the flagged metrics.
  - `findHealthRecordDay` reads today's rows back, with '' for a metric that has no row.
- **Appointments** (`AppointmentService`). A table of appointments, each with a status and a soft-delete flag, plus the notification log. The operations are:
  - the existence check;
  - the id filter of the listing (`search` and `ids`);
  - booking by a patient (`create`) and by a doctor (`post`);
  - `approve`, `refuse`, `cancel` and the partial `update`;
  - soft `delete`;
  - the completion sweep of the patient listing: an APPROVED appointment whose meeting time has passed becomes COMPLETED.

  The booking, decision, update and delete handlers end in an empty `catch`. A failing request therefore answers `undefined` (`None`) and writes nothing after the failing step.
- **Utilities** (`FunctionUtil`):
  - `numberToColumn`, spreadsheet column names in bijective base 26;
  - `getIdPageWithFbUrl`, the page id after the last '-' of a Facebook url with its first '/' removed.

Stores are classes whose fields are maps and sequences. Handlers are methods that state their whole new state. What they compute is stated through functions (`WriteRows`, `DayViewOf`, `Message`, `AbnormalCount`, `Swept`, `Patched`, `FindAllFilter`), and lemmas prove the properties of those functions. The files are `wrappers.dfy`, `notifications.dfy`, `function_util.dfy`, `health_record_service.dfy` and `appointment_service.dfy`.

Points where the code does something other than its plain intent, and the model follows the code:

- **The vital guard.** Each check is `!Number(x) && Number(x) <= 0`, which rejects only a value equal to 0. Negative numbers and NaN pass. `Rejects` and `ValidateAcceptsNonZero` state this.
- **The warning is always sent.** `create` notifies the doctor even when nothing is flagged; the metric list is then empty.
- **`post` and `cancel` read the patient table.** `post` reads the caller's name from the patient table, so a doctor caller who is not in it makes the request fail. `cancel` does both its "patient" and its "doctor" lookup in the patient table with the caller's id. A patient caller therefore sends two notifications, and any other caller sends none.
- **`isDeleted` is ignored by most handlers.** `approve`, `refuse`, `cancel` and `update` look the appointment up by id alone, so they also change soft-deleted appointments.
- **Vietnamese strings.** The flagged-metric names for blood pressure and heartbeat are Vietnamese strings that come garbled in the source text. The model writes them as "huyết áp" and "nhịp tim".
- **`delete`.** It passes `{ id }` to the existence check; see "Findings".

## Model

| member | source | states |
|---|---|---|
| FunctionUtil.Letter | src/utils/function.util.ts:4 | the digit `d < 26` gives an upper-case letter |
| FunctionUtil.LetterInAlphabet | src/utils/function.util.ts:4 | the letter of `d` is the character at index `d` of the alphabet the function indexes |
| FunctionUtil.LetterIndex | src/utils/function.util.ts:4 | every column letter is the letter of exactly one digit below 26 |
| FunctionUtil.NumberToColumn | src/utils/function.util.ts:3-6 | the name is all upper-case letters and ends with the letter of `n % 26`; it is one letter exactly for `n < 26` |
| FunctionUtil.ColumnToNumber | src/utils/function.util.ts:3-6 | decoding a column name gives a number below 26 exactly when the name has one letter |
| FunctionUtil.ColumnRoundTrip | src/utils/function.util.ts:3-6 | decoding the name of `n` gives back `n` |
| FunctionUtil.ColumnRoundTripInverse | src/utils/function.util.ts:3-6 | every non-empty upper-case string is the name of some number, so the naming is onto |
| FunctionUtil.NumberToColumnStep | src/utils/function.util.ts:5 | the name of `q*26+d`, for `q >= 1`, is the name of `q-1` followed by the letter of `d` |
| FunctionUtil.NumberToColumnInjective | src/utils/function.util.ts:3-6 | different numbers get different names |
| FunctionUtil.ColumnLengthMonotone | src/utils/function.util.ts:3-6 | a larger number never gets a shorter name |
| FunctionUtil.ColumnExamples | src/utils/function.util.ts:3-6 | 0 is "A", 25 is "Z", 26 is "AA", 701 is "ZZ" and 702 is "AAA" |
| FunctionUtil.IndexOf | src/utils/function.util.ts:19 | the position found is within the string and holds the character sought |
| FunctionUtil.IndexOfAbsent | src/utils/function.util.ts:19 | the search reaches the end exactly when the character does not occur |
| FunctionUtil.IndexOfFirst | src/utils/function.util.ts:19 | no earlier position holds the character, so the first occurrence is found |
| FunctionUtil.LastSegmentUnique | src/utils/function.util.ts:18 | a string has only one segment after its last separator |
| FunctionUtil.Split | src/utils/function.util.ts:18 | `split` always gives at least one piece |
| FunctionUtil.SplitJoin | src/utils/function.util.ts:18 | joining the pieces with the separator gives back the string |
| FunctionUtil.SplitLastOfRest | src/utils/function.util.ts:18 | after the first separator, the split ends with the same piece as the split of the rest |
| FunctionUtil.SplitLastIsLastSegment | src/utils/function.util.ts:18 | the last piece is the separator-free suffix after the last '-' (the whole string when there is none) |
| FunctionUtil.LastSegmentWhole | src/utils/function.util.ts:18 | a string without the separator is its own last segment |
| FunctionUtil.RemoveFirst | src/utils/function.util.ts:19 | `replace('/', '')` leaves a string without '/' unchanged and otherwise removes exactly one character |
| FunctionUtil.RemoveFirstContents | src/utils/function.util.ts:19 | the result holds the characters of the input less one '/' (as multisets) |
| FunctionUtil.RemoveFirstAddsNothing | src/utils/function.util.ts:19 | removing the '/' never introduces a character the input lacked |
| FunctionUtil.GetIdPageWithFbUrl | src/utils/function.util.ts:16-23 | '' gives ''; the result never holds '-' and is never longer than the url |
| FunctionUtil.GetIdPageWithFbUrlSegment | src/utils/function.util.ts:16-23 | for a non-empty url the result is the segment after the last '-' with its first '/' removed, and is one shorter when that segment held a '/' |
| FunctionUtil.GetIdPageWithFbUrlNoDash | src/utils/function.util.ts:16-23 | a url without '-' keeps all of itself except its first '/' |
| HealthRecordService.Rejects | src/api/health-record/health-record.service.ts:192-201 | the guard `!Number(x) && Number(x) <= 0` holds exactly for a value equal to 0: negatives and NaN pass |
| HealthRecordService.FirstRejected | src/api/health-record/health-record.service.ts:192-201 | the position reported is a rejected check, or the end when none is |
| HealthRecordService.FirstRejectedIsFirst | src/api/health-record/health-record.service.ts:192-201 | no check before that position rejects |
| HealthRecordService.FirstRejectedSteps | src/api/health-record/health-record.service.ts:192-201 | the first rejected check, spelled out over the order height, weight, cholesterol, diastolic, glucose, systolic, heartbeat |
| HealthRecordService.Checks | src/api/health-record/health-record.service.ts:192-201 | the seven checks, one per vital, each with its own error |
| HealthRecordService.Validate | src/api/health-record/health-record.service.ts:192-201 | the error raised is that of the first check in service order that rejects; no error when none does |
| HealthRecordService.ValidateAcceptsNonZero | src/api/health-record/health-record.service.ts:192-201 | a submission passes exactly when none of its seven numbers is 0 |
| HealthRecordService.MetricName | src/api/health-record/health-record.service.ts:492-496 | each metric is named in the message by a non-empty word |
| HealthRecordService.NormalNeverFlagged | src/api/health-record/health-record.service.ts:399-489 | the label tests `Abnormal` (BMI LIGHT or FAT, blood pressure LOW or HIGH, the others CRITIAL) never flag a NORMAL label |
| HealthRecordService.FlaggedIn | src/api/health-record/health-record.service.ts:399-489 | the flagged metrics of a list are no more than the list |
| HealthRecordService.FlaggedInMember | src/api/health-record/health-record.service.ts:399-489 | a metric is flagged exactly when it is in the list and its label is abnormal |
| HealthRecordService.FlaggedSteps | src/api/health-record/health-record.service.ts:492-496 | the flagged list in message order, one metric at a time |
| HealthRecordService.Flagged | src/api/health-record/health-record.service.ts:399-496 | the flagged metrics, in message order (BMI, blood pressure, cholesterol, glucose, heartbeat); a metric is in it exactly when its label is abnormal (BMI LIGHT or FAT, blood pressure LOW or HIGH, the others CRITIAL) |
| HealthRecordService.AbnormalCount | src/api/health-record/health-record.service.ts:399-489 | `num` is the number of abnormal labels: one per abnormal metric, at most 5; 0 exactly when none is abnormal, 5 exactly when all are |
| HealthRecordService.Render | src/api/health-record/health-record.service.ts:491-496 | the `str +=` accumulation is empty exactly when nothing is rendered |
| HealthRecordService.Message | src/api/health-record/health-record.service.ts:491-496 | the metric list is empty exactly when no label is abnormal |
| HealthRecordService.StatusFor | src/api/health-record/health-record.service.ts:500-505 | SAFE below 2, DANGER for 2 and 3, CRITIAL from 4 |
| HealthRecordService.StatusMonotone | src/api/health-record/health-record.service.ts:500-505 | more abnormal metrics never give a milder status |
| HealthRecordService.InitialsDiffer | src/api/health-record/health-record.service.ts:492-496 | the five metric names start with five different characters |
| HealthRecordService.RenderCons | src/api/health-record/health-record.service.ts:491-496 | a list starting with `m` renders as the name of `m`, ", ", then the rest |
| HealthRecordService.NotRenderedFirst | src/api/health-record/health-record.service.ts:491-496 | a list starting with another metric does not render starting with the name of `m` |
| HealthRecordService.ParseRender | src/api/health-record/health-record.service.ts:491-496 | reading the message back recovers the flagged list |
| HealthRecordService.MessageOrderDistinct | src/api/health-record/health-record.service.ts:492-496 | the message names each metric at most once |
| HealthRecordService.MessageOrderComplete | src/api/health-record/health-record.service.ts:492-496 | the message order covers every metric |
| HealthRecordService.MessageDeterminesFlagged | src/api/health-record/health-record.service.ts:491-496 | two submissions with the same metric list flagged exactly the same metrics: the message is unambiguous |
| HealthRecordService.Piece | src/api/health-record/health-record.service.ts:492-496 | the fragment of one metric is empty exactly when that metric is not flagged |
| HealthRecordService.PieceText | src/api/health-record/health-record.service.ts:492-496 | the five fragments are the literal texts appended ("BMI, ", "huyết áp, ", "cholesterol, ", "glucose, ", "nhịp tim, ") |
| HealthRecordService.MessageUnfold | src/api/health-record/health-record.service.ts:491-496 | the message is the five fragments in the order they are appended |
| HealthRecordService.RenderOne | src/api/health-record/health-record.service.ts:492-496 | one metric's rendering is its fragment |
| HealthRecordService.RenderAppend | src/api/health-record/health-record.service.ts:491-496 | rendering distributes over concatenation: appending fragments in order builds the list |
| HealthRecordService.FatAndHighGlucoseFlags | src/api/health-record/health-record.service.ts:399-489 | BMI FAT and glucose CRITIAL are abnormal and NORMAL labels are not |
| HealthRecordService.FatAndHighGlucoseFlagged | src/api/health-record/health-record.service.ts:399-489 | with BMI FAT and glucose CRITIAL the flagged list is BMI, then glucose |
| HealthRecordService.RenderPair | src/api/health-record/health-record.service.ts:491-496 | two flagged metrics render as both names, each followed by ", " |
| HealthRecordService.TwoAbnormalScenario | src/api/health-record/health-record.service.ts:399-505 | BMI FAT plus glucose CRITIAL give DANGER and name BMI, then glucose |
| HealthRecordService.AllNormalScenario | src/api/health-record/health-record.service.ts:399-505 | all labels normal give SAFE and an empty metric list |
| HealthRecordService.Submitted | src/api/health-record/health-record.service.ts:266-374 | each metric's write carries a reading of that metric |
| HealthRecordService.UpsertRow | src/api/health-record/health-record.service.ts:268-291 | one metric's write on today's key: an existing row gets the new values and the updater and keeps its id and creator; a missing one is created with the next id and the member as creator; every other row is kept |
| HealthRecordService.WriteRows | src/api/health-record/health-record.service.ts:266-374 | the writes one after the other never lower the id counter (what they write is stated by WriteRowsUpserted) |
| HealthRecordService.LinkedStatusUpdate | src/api/health-record/health-record.service.ts:507-514 | changing a health record's status keeps patients and records linked |
| HealthRecordService.UpsertStep | src/api/health-record/health-record.service.ts:266-374 | one more metric's upsert extends the set of written rows by that row and leaves the others |
| HealthRecordService.WriteRowsUpserted | src/api/health-record/health-record.service.ts:266-374 | writing a list of distinct metrics writes exactly their rows: new values, kept id and creator plus the updater for an existing row, a fresh id for a new one |
| HealthRecordService.WriteOrderKeys | src/api/health-record/health-record.service.ts:266-374 | the transaction writes each of the five metric tables exactly once |
| HealthRecordService.WriteDayUpserted | src/api/health-record/health-record.service.ts:266-374 | the transaction upserts today's five rows of the health record with the submitted values and leaves every other row as it was |
| HealthRecordService.UpsertRowWellFormed | src/api/health-record/health-record.service.ts:266-374 | an upsert keeps every row in its own table with a distinct id below the counter |
| HealthRecordService.WriteRowsWellFormed | src/api/health-record/health-record.service.ts:266-374 | the transaction keeps the rows well formed and never lowers the id counter |
| HealthRecordService.WriteDayResubmit | src/api/health-record/health-record.service.ts:217-374 | a second submission on the same day updates the five rows in place: no row or id is added, and ids are kept |
| HealthRecordService.DayViewOf | src/api/health-record/health-record.service.ts:593-675 | each of the nine fields of today's view (height, weight, index, creation day, heartbeat, systolic, diastolic, glucose, cholesterol) is blank exactly when its metric has no row today |
| HealthRecordService.WriteDayReadings | src/api/health-record/health-record.service.ts:266-374 | after the transaction each of today's five rows exists and holds the submitted values |
| HealthRecordService.WriteDayThenView | src/api/health-record/health-record.service.ts:266-374 | after the transaction today's view shows exactly the submitted values |
| HealthRecordService.HealthRecordStore.constructor | src/api/health-record/health-record.service.ts:189-537 | a store over linked patients and records, with no readings |
| HealthRecordService.HealthRecordStore.HealthRecordOf | src/api/health-record/health-record.service.ts:584-591 | the member's health record is the one whose `patientId` is the member |
| HealthRecordService.HealthRecordStore.FindHealthRecordDay | src/api/health-record/health-record.service.ts:578-681 | fails exactly when the member has no health record; otherwise today's view of its rows |
| HealthRecordService.HealthRecordStore.Upsert | src/api/health-record/health-record.service.ts:268-291 | one metric's write, update in place or create with the next id, and nothing else changes |
| HealthRecordService.HealthRecordStore.WriteDay | src/api/health-record/health-record.service.ts:266-374 | the five upserts in the service's order (bmi, cholesterol, glucose, heartbeat, blood pressure), keeping the store valid |
| HealthRecordService.HealthRecordStore.Classify | src/api/health-record/health-record.service.ts:384-496 | the flags and count give `num == AbnormalCount` and `str == Message` |
| HealthRecordService.HealthRecordStore.Create | src/api/health-record/health-record.service.ts:189-537 | an invalid vital, a missing patient or a missing health record fails and writes nothing; otherwise the request succeeds, the five rows are written, the banded status is stored, one warning goes to the doctor, the summary holds the submitted values, labels and status, and today's view shows the submission |
| HealthRecordService.HealthRecordStore.Record | src/api/health-record/health-record.service.ts:266-533 | the transaction, the read-back, the new status and the doctor's notification of a valid submission |
| HealthRecordService.HealthRecordStore.Assess | src/api/health-record/health-record.service.ts:384-531 | the status is the band of the abnormal count, stored on the record, and the doctor gets one warning listing the flagged metrics |
| AppointmentService.Patched | src/api/appointment/appointment.service.ts:484-501 | each field of the patch that is defined is written, and each undefined field keeps its value |
| AppointmentService.PatchedLaws | src/api/appointment/appointment.service.ts:484-501 | an empty patch writes nothing, and writing a patch twice is writing it once |
| AppointmentService.PatchedFull | src/api/appointment/appointment.service.ts:484-501 | a patch defining every field gives exactly those fields |
| AppointmentService.Swept | src/api/appointment/appointment.service.ts:211-223 | an appointment is completed afterwards exactly when it was completed before, or was APPROVED with its meeting time passed; the only change is APPROVED to COMPLETED |
| AppointmentService.SweptIdempotent | src/api/appointment/appointment.service.ts:208-225 | sweeping twice changes nothing more |
| AppointmentService.SweptMonotone | src/api/appointment/appointment.service.ts:208-225 | once completed at some instant, an appointment stays completed at every later one |
| AppointmentService.SweptPage | src/api/appointment/appointment.service.ts:208-225 | the returned page has the same length and order, each row swept |
| AppointmentService.SweptStore | src/api/appointment/appointment.service.ts:208-225 | the table after the sweep keeps its ids; listed rows are swept and the others are untouched |
| AppointmentService.TrimStart | src/api/appointment/appointment.service.ts:41 | the result is the suffix left after the leading whitespace: everything dropped is whitespace and the result does not start with whitespace |
| AppointmentService.TrimEnd | src/api/appointment/appointment.service.ts:41 | the result is the prefix left before the trailing whitespace: everything dropped is whitespace and the result does not end with whitespace |
| AppointmentService.Trim | src/api/appointment/appointment.service.ts:41 | `trim()` is the slice of the input between its leading and its trailing whitespace, and neither starts nor ends with whitespace |
| AppointmentService.TrimParts | src/api/appointment/appointment.service.ts:41 | the kept text sits right after the leading whitespace, and all that follows it is whitespace |
| AppointmentService.Contains | src/api/appointment/appointment.service.ts:41 | the Prisma `contains` filter: a prefix is contained, and a contained text is no longer than the id |
| AppointmentService.ContainsEmpty | src/api/appointment/appointment.service.ts:41 | every id contains the empty search |
| AppointmentService.ContainsAt | src/api/appointment/appointment.service.ts:41 | `contains` holds exactly when the text occurs at some position of the id |
| AppointmentService.OccursShift | src/api/appointment/appointment.service.ts:41 | the occurrences of a text in an id without its first character are those in the id past position 0, moved one back |
| AppointmentService.Listed | src/api/appointment/appointment.service.ts:29-48 | a listed row is not deleted, and passes the OR clause: any id, an id in which the search text occurs at some position, or an id in the list |
| AppointmentService.FindAllFilter | src/api/appointment/appointment.service.ts:40-48 | a non-empty ids list decides the OR clause; otherwise a non-empty search gives `contains` on its trimmed text; otherwise there is no id filter |
| AppointmentService.IdsOverrideSearch | src/api/appointment/appointment.service.ts:40-48 | with an ids list the search text plays no part: a row is listed exactly when it is not deleted and its id is in the list |
| AppointmentService.BlankSearchListsAll | src/api/appointment/appointment.service.ts:37-48 | a search made only of whitespace lists every row that is not deleted |
| AppointmentService.FreshIdExists | src/api/appointment/appointment.service.ts:258-271 | the table can always hand out an id it has not used |
| AppointmentService.SweptStoreFiled | src/api/appointment/appointment.service.ts:208-225 | the sweep keeps every appointment filed under its own id |
| AppointmentService.SweepAdvance | src/api/appointment/appointment.service.ts:208-225 | sweeping one more row extends both the swept page and the swept table by that row |
| AppointmentService.SweepStep | src/api/appointment/appointment.service.ts:212-219 | updating one more listed row is the same as sweeping the table over one more id |
| AppointmentService.Ids | src/api/appointment/appointment.service.ts:208-225 | the ids of a page are its rows' ids, position by position |
| AppointmentService.AppointmentStore.constructor | src/api/appointment/appointment.service.ts:13 | an empty table over the given patients and doctors |
| AppointmentService.AppointmentStore.CheckAppointmentExist | src/api/appointment/appointment.service.ts:15-23 | found exactly when the id is in the table and not deleted; it is then that row |
| AppointmentService.AppointmentStore.FindAll | src/api/appointment/appointment.service.ts:25-155 | exactly the rows that are not deleted and pass the id filter |
| AppointmentService.AppointmentStore.Insert | src/api/appointment/appointment.service.ts:258-271 | a new row under an unused id, not deleted and not yet updated; nothing else changes |
| AppointmentService.AppointmentStore.Create | src/api/appointment/appointment.service.ts:236-274 | a caller who is not a patient fails and writes nothing; otherwise the doctor is notified and a CREATED appointment of the patient with their doctor is inserted and then exists |
| AppointmentService.AppointmentStore.Post | src/api/appointment/appointment.service.ts:276-314 | a caller missing from the patient table fails and writes nothing; otherwise patient `id` is notified and an APPROVED appointment with the caller as doctor is inserted |
| AppointmentService.AppointmentStore.Decide | src/api/appointment/appointment.service.ts:316-413 | a caller who is not a doctor, or a missing id, fails and writes nothing; otherwise the patient is notified and the status and updater are overwritten |
| AppointmentService.AppointmentStore.Approve | src/api/appointment/appointment.service.ts:316-364 | as Decide, with APPROVED and the accepted title |
| AppointmentService.AppointmentStore.Refuse | src/api/appointment/appointment.service.ts:366-413 | as Decide, with REFUSED and the rejected title |
| AppointmentService.AppointmentStore.Cancel | src/api/appointment/appointment.service.ts:415-482 | a missing id fails and writes nothing; otherwise the appointment becomes CANCELED with the updater recorded, and a patient caller sends two notifications (to their doctor, then to the appointment's doctor) while any other caller sends none |
| AppointmentService.AppointmentStore.Update | src/api/appointment/appointment.service.ts:484-501 | a missing id fails; otherwise the patch is written over the details with the updater recorded, and status, parties and deletion flag stay |
| AppointmentService.AppointmentStore.DeleteWith | src/api/appointment/appointment.service.ts:503-517 | a failed or empty existence check writes nothing; otherwise the row is soft-deleted by the caller |
| AppointmentService.AppointmentStore.Delete | src/api/appointment/appointment.service.ts:503-517 | an existing, undeleted appointment is soft-deleted with its status kept, and no longer passes the existence check; anything else fails |
| AppointmentService.AppointmentStore.DeleteAsWritten | src/api/appointment/appointment.service.ts:503-517 | as written, `delete` always fails and changes nothing |
| AppointmentService.AppointmentStore.CheckExistWith | src/api/appointment/appointment.service.ts:505 | the existence check on an id string works as intended; on the object `{ id }` the data store rejects the filter |
| AppointmentService.AppointmentStore.SweepItem | src/api/appointment/appointment.service.ts:209-224 | the callback returns the swept row and stores it |
| AppointmentService.AppointmentStore.GetAppointmentPatient | src/api/appointment/appointment.service.ts:157-234 | the returned page is the fetched page swept, row by row in order, and the table is swept on exactly the page's ids |

## Left out

- NumberToColumn: takes a natural number only. For a negative or fractional argument the JavaScript function returns `undefined` or a string ending in "undefined"; that behaviour is not modelled.
- The deletion flag of a health record is not modelled: no modelled operation reads or writes it.
- funcIndexBmi (`src/utils/function.util.ts:8-14`) and the `toFixed` rounding of the BMI: these are floating-point arithmetic. The BMI index is an input string.
- The five classifiers `create` calls are not part of this model. Their `status` labels are inputs (`Labels`).
- `emergency` (`health-record.service.ts:539-576`) is outside the modelled core.
- `findAll`'s date range, ordering, pagination, `count`, `cleanup` and `convertFilterStringToArray` are left out. The `ids` list arrives already converted. FindAll returns the set of listed ids and does not model order or paging.
- The patient and doctor lookups that `getAppointmentPatient` joins, and its `count`, are left out. GetAppointmentPatient takes the fetched page as a parameter. Its `requires` says where the page came from: rows of the caller, of the requested status.
- `findOne`, `getAppointmentDoctor` and the other reads of the services are left out, because they only query.
- Dates and clocks are parameters: `today` is a calendar day and `now` an instant. `moment`'s day boundaries and time zones are not modelled.
- Errors thrown by the data store itself, such as not-null or foreign-key failures, are not modelled. Neither is what such a failure leaves behind partway through a handler.
- The `$transaction` of the five upserts is modelled as five sequential writes. Its atomicity is not modelled, because no write in the model can fail.
- Notification texts keep only what they address and splice in: kind, title, recipient, actor name and metric list. The surrounding templates, i18n messages, the formatted date and the real-time socket push are left out.
- The `ResponseSuccess` wrapping is left out. Handlers return their data object, or `None` or `Failure` when they fail.
- Trim: removes ASCII whitespace only. JavaScript's `trim` also removes Unicode spaces and line terminators.
- `Promise.all` over the sweep is modelled as one update after another. The updates touch distinct rows, so order does not change the outcome.
- Fresh appointment ids are chosen by `:|` among unused ids. Their generation scheme (uuid) is left out.
- Fresh metric-row ids are a counter. Only their distinctness is modelled.
- The controllers, DTO validation decorators and authorization guards are left out. `memberId` is the authenticated caller.
- The classifiers run on the submitted values and the computed BMI index (`recordIndexBmi`, `recordCholesterol`, `recordHeartBeat`, `recordGlucose`, `recordBloodPressure`), not on the rows read back. They are not part of this model: their labels are inputs.
- TwoAbnormalScenario: states the message as the two metric names each followed by ", ", not as a literal string; PieceText gives the literal fragments.

## Findings

| source | as written | input that shows it | evidently intended | confidence | as-written member | corrected member |
|---|---|---|---|---|---|---|
| src/api/appointment/appointment.service.ts:505 | `delete` calls `checkAppointmentExist({ id })`, so the existence filter becomes `id: { id }`, a filter shape Prisma rejects. The empty `catch` swallows the error. | any id, including that of an existing undeleted appointment: nothing is deleted and the answer is `undefined` | `checkAppointmentExist(id)`: an existing undeleted appointment is soft-deleted | not executed | AppointmentService.AppointmentStore.DeleteAsWritten | AppointmentService.AppointmentStore.Delete |
