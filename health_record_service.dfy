/**
 * The daily vital-sign submission of the health-record service and the
 * lookup of today's readings.
 *
 * A patient owns one health record; each day holds at most one row per
 * metric (BMI, blood pressure, cholesterol, glucose, heartbeat). A
 * submission validates the seven numbers, writes today's five rows (update
 * in place when one exists), counts the abnormal classifier labels, stores
 * the banded status on the health record and notifies the patient's doctor.
 * The classifiers live outside this model: their labels are inputs.
 */
module HealthRecordService {
  import opened Wrappers
  import opened Notifications

  type HealthRecordId = string

  /** A calendar day: the granularity of the service's "today" queries. */
  type Day = int

  // ---------------------------------------------------------------------
  // Validation
  // ---------------------------------------------------------------------

  /** What `Number(x)` makes of a submitted field: a number, or NaN. */
  datatype JsNumber = NaN | Num(value: real)

  /** `!Number(x)`: true for 0 and for NaN. */
  predicate Falsy(x: JsNumber) {
    x == NaN || x == Num(0.0)
  }

  /** `Number(x) <= 0`: every comparison with NaN is false. */
  predicate AtMostZero(x: JsNumber) {
    x.Num? && x.value <= 0.0
  }

  /**
   * The guard of one vital, `!Number(x) && Number(x) <= 0`. It rejects
   * exactly a value that converts to 0: negative numbers and NaN pass.
   */
  function Rejects(x: JsNumber): (r: bool)
    ensures r <==> x == Num(0.0)
  {
    Falsy(x) && AtMostZero(x)
  }

  /** The submitted body, each field as `Number` converts it. */
  datatype CreateHealthRecord = CreateHealthRecord(
    height: JsNumber,
    weight: JsNumber,
    cholesterol: JsNumber,
    systolic: JsNumber,
    diastolic: JsNumber,
    glucose: JsNumber,
    heartRateIndicator: JsNumber)

  datatype VitalError =
    | InvalidHeight | InvalidWeight | InvalidCholesterol | InvalidDiastolic
    | InvalidGlucose | InvalidSystolic | InvalidHeartbeat

  datatype HealthError =
    | Invalid(vital: VitalError)
    | PatientNotFound        // `patient` is null: reading its health record throws
    | HealthRecordMissing    // the patient (or member) has no health record

  /** The seven checks, in the order the service runs them. */
  function Checks(dto: CreateHealthRecord): (c: seq<(VitalError, JsNumber)>)
    ensures |c| == 7
    ensures forall i, j :: 0 <= i < j < |c| ==> c[i].0 != c[j].0
  {
    [ (InvalidHeight, dto.height), (InvalidWeight, dto.weight),
      (InvalidCholesterol, dto.cholesterol), (InvalidDiastolic, dto.diastolic),
      (InvalidGlucose, dto.glucose), (InvalidSystolic, dto.systolic),
      (InvalidHeartbeat, dto.heartRateIndicator) ]
  }

  /** The position of the first rejected check, `|checks|` when none is. */
  function FirstRejected(checks: seq<(VitalError, JsNumber)>): (i: nat)
    ensures i <= |checks|
    ensures i < |checks| ==> Rejects(checks[i].1)
  {
    if checks == [] then 0
    else if Rejects(checks[0].1) then 0
    else 1 + FirstRejected(checks[1..])
  }

  /** No check before the first rejected one rejects. */
  lemma {:induction false} FirstRejectedIsFirst(checks: seq<(VitalError, JsNumber)>, j: nat)
    requires j < FirstRejected(checks)
    ensures !Rejects(checks[j].1)
  {
    if j > 0 {
      FirstRejectedIsFirst(checks[1..], j - 1);
    }
  }

  /** FirstRejected over the seven checks, one step per check. */
  lemma {:induction false} FirstRejectedSteps(dto: CreateHealthRecord)
    ensures FirstRejected(Checks(dto)) ==
      if Rejects(dto.height) then 0
      else if Rejects(dto.weight) then 1
      else if Rejects(dto.cholesterol) then 2
      else if Rejects(dto.diastolic) then 3
      else if Rejects(dto.glucose) then 4
      else if Rejects(dto.systolic) then 5
      else if Rejects(dto.heartRateIndicator) then 6
      else 7
  {
    var c := Checks(dto);
    var c1, c2, c3, c4, c5, c6, c7 := c[1..], c[2..], c[3..], c[4..], c[5..], c[6..], c[7..];
    assert c1[1..] == c2 && c2[1..] == c3 && c3[1..] == c4 && c4[1..] == c5;
    assert c5[1..] == c6 && c6[1..] == c7 && c7 == [];
    assert FirstRejected(c6) == if Rejects(dto.heartRateIndicator) then 0 else 1;
    assert FirstRejected(c5) == if Rejects(dto.systolic) then 0 else 1 + FirstRejected(c6);
    assert FirstRejected(c4) == if Rejects(dto.glucose) then 0 else 1 + FirstRejected(c5);
    assert FirstRejected(c3) == if Rejects(dto.diastolic) then 0 else 1 + FirstRejected(c4);
    assert FirstRejected(c2) == if Rejects(dto.cholesterol) then 0 else 1 + FirstRejected(c3);
    assert FirstRejected(c1) == if Rejects(dto.weight) then 0 else 1 + FirstRejected(c2);
  }

  /** The chain of guards at the top of `create`: the first failure decides. */
  function Validate(dto: CreateHealthRecord): (r: Option<VitalError>)
    ensures var checks := Checks(dto); var i := FirstRejected(checks);
      r == if i < |checks| then Some(checks[i].0) else None
  {
    FirstRejectedSteps(dto);
    if Rejects(dto.height) then Some(InvalidHeight)
    else if Rejects(dto.weight) then Some(InvalidWeight)
    else if Rejects(dto.cholesterol) then Some(InvalidCholesterol)
    else if Rejects(dto.diastolic) then Some(InvalidDiastolic)
    else if Rejects(dto.glucose) then Some(InvalidGlucose)
    else if Rejects(dto.systolic) then Some(InvalidSystolic)
    else if Rejects(dto.heartRateIndicator) then Some(InvalidHeartbeat)
    else None
  }

  /** A submission passes validation exactly when none of its seven numbers is 0. */
  lemma {:induction false} ValidateAcceptsNonZero(dto: CreateHealthRecord)
    ensures Validate(dto) == None <==>
      forall j :: 0 <= j < |Checks(dto)| ==> Checks(dto)[j].1 != Num(0.0)
  {
    var checks := Checks(dto);
    var i := FirstRejected(checks);
    if i < |checks| {
      assert checks[i].1 == Num(0.0);
    } else {
      forall j | 0 <= j < |checks| ensures checks[j].1 != Num(0.0) {
        FirstRejectedIsFirst(checks, j);
      }
    }
  }

  // ---------------------------------------------------------------------
  // Classification, count, status and message
  // ---------------------------------------------------------------------

  /** The `status` strings the five classifiers returned for this submission. */
  datatype Labels = Labels(
    bmi: string,
    cholesterol: string,
    heartBeat: string,
    glucose: string,
    bloodPressure: string)

  datatype Metric = Bmi | BloodPressure | Cholesterol | Glucose | HeartBeat

  /** The label the classifier of metric `m` returned. */
  function LabelOf(m: Metric, labels: Labels): string {
    match m
    case Bmi => labels.bmi
    case BloodPressure => labels.bloodPressure
    case Cholesterol => labels.cholesterol
    case Glucose => labels.glucose
    case HeartBeat => labels.heartBeat
  }

  /** The label tests of `create`; 'CRITIAL' is the spelling the service compares with. */
  predicate Abnormal(m: Metric, labels: Labels) {
    match m
    case Bmi => labels.bmi == "LIGHT" || labels.bmi == "FAT"
    case BloodPressure => labels.bloodPressure == "LOW" || labels.bloodPressure == "HIGH"
    case Cholesterol => labels.cholesterol == "CRITIAL"
    case Glucose => labels.glucose == "CRITIAL"
    case HeartBeat => labels.heartBeat == "CRITIAL"
  }

  /** A NORMAL label is never flagged, whatever the metric. */
  lemma {:induction false} NormalNeverFlagged(m: Metric, labels: Labels)
    requires LabelOf(m, labels) == "NORMAL"
    ensures !Abnormal(m, labels)
  {
    assert "NORMAL"[0] != "CRITIAL"[0] && "NORMAL"[0] != "LOW"[0] && "NORMAL"[0] != "HIGH"[0];
    assert "NORMAL"[0] != "LIGHT"[0] && "NORMAL"[0] != "FAT"[0];
  }

  /** The order in which the warning message names the metrics. */
  const MessageOrder: seq<Metric> := [Bmi, BloodPressure, Cholesterol, Glucose, HeartBeat]

  /** The name the warning message uses for a metric. */
  function MetricName(m: Metric): (name: string)
    ensures |name| >= 1
  {
    match m
    case Bmi => "BMI"
    case BloodPressure => "huyết áp"
    case Cholesterol => "cholesterol"
    case Glucose => "glucose"
    case HeartBeat => "nhịp tim"
  }

  /** `[m]` when `m` is flagged, else nothing. */
  function One(m: Metric, labels: Labels): seq<Metric> {
    if Abnormal(m, labels) then [m] else []
  }

  /** The abnormal metrics of `ms`, in the order of `ms`. */
  function FlaggedIn(ms: seq<Metric>, labels: Labels): (f: seq<Metric>)
    ensures |f| <= |ms|
  {
    if ms == [] then [] else One(ms[0], labels) + FlaggedIn(ms[1..], labels)
  }

  /** A metric is in the flagged list of `ms` exactly when it is in `ms` and abnormal. */
  lemma {:induction false} FlaggedInMember(ms: seq<Metric>, labels: Labels, m: Metric)
    ensures m in FlaggedIn(ms, labels) <==> m in ms && Abnormal(m, labels)
  {
    if ms != [] {
      FlaggedInMember(ms[1..], labels, m);
      assert ms == [ms[0]] + ms[1..];
    }
  }

  /** FlaggedIn over the message order, one metric at a time. */
  lemma {:induction false} FlaggedSteps(labels: Labels)
    ensures FlaggedIn(MessageOrder, labels) ==
      One(Bmi, labels) + One(BloodPressure, labels) + One(Cholesterol, labels) +
      One(Glucose, labels) + One(HeartBeat, labels)
  {
    var s1, s2, s3, s4 := MessageOrder[1..], MessageOrder[2..], MessageOrder[3..], MessageOrder[4..];
    assert s1[1..] == s2 && s2[1..] == s3 && s3[1..] == s4 && s4[1..] == [];
    assert FlaggedIn(s4, labels) == One(HeartBeat, labels);
    assert FlaggedIn(s3, labels) == One(Glucose, labels) + FlaggedIn(s4, labels);
    assert FlaggedIn(s2, labels) == One(Cholesterol, labels) + FlaggedIn(s3, labels);
    assert FlaggedIn(s1, labels) == One(BloodPressure, labels) + FlaggedIn(s2, labels);
    AppendNested(One(Bmi, labels), One(BloodPressure, labels), One(Cholesterol, labels),
                 One(Glucose, labels), One(HeartBeat, labels));
  }

  /** Regrouping a concatenation of five pieces. */
  lemma {:induction false} AppendNested<T>(a: seq<T>, b: seq<T>, c: seq<T>, d: seq<T>, e: seq<T>)
    ensures a + b + c + d + e == a + (b + (c + (d + e)))
  {
  }

  /** The flagged metrics of a submission, in message order. */
  function Flagged(labels: Labels): (f: seq<Metric>)
    ensures f == One(Bmi, labels) + One(BloodPressure, labels) + One(Cholesterol, labels) +
                 One(Glucose, labels) + One(HeartBeat, labels)
    ensures forall m :: m in f <==> Abnormal(m, labels)
  {
    FlaggedSteps(labels);
    FlaggedIn(MessageOrder, labels)
  }

  /** `num`: how many of the five labels are abnormal. */
  function AbnormalCount(labels: Labels): (n: nat)
    ensures n == |Flagged(labels)|
    ensures n ==
      (if Abnormal(Bmi, labels) then 1 else 0) + (if Abnormal(BloodPressure, labels) then 1 else 0) +
      (if Abnormal(Cholesterol, labels) then 1 else 0) + (if Abnormal(Glucose, labels) then 1 else 0) +
      (if Abnormal(HeartBeat, labels) then 1 else 0)
    ensures n <= 5
    ensures n == 0 <==> forall m :: !Abnormal(m, labels)
    ensures n == 5 <==> forall m :: Abnormal(m, labels)
  {
    |Flagged(labels)|
  }

  /** Each flagged name followed by ", ": the `str +=` accumulation of `create`. */
  function Render(ms: seq<Metric>): (s: string)
    ensures s == [] <==> ms == []
  {
    if ms == [] then "" else MetricName(ms[0]) + ", " + Render(ms[1..])
  }

  /** The metric list of the warning: empty exactly when nothing is flagged. */
  function Message(labels: Labels): (s: string)
    ensures s == "" <==> forall m :: !Abnormal(m, labels)
  {
    var f := Flagged(labels);
    if f != [] then assert f[0] in f; Render(f) else Render(f)
  }

  /** Health-record status (the data store spells the top band CRITIAL). */
  datatype Status = Safe | Danger | Critial

  /** The banding of `num`. */
  function StatusFor(num: nat): (s: Status)
    ensures s == Safe <==> num < 2
    ensures s == Danger <==> 2 <= num < 4
    ensures s == Critial <==> num >= 4
  {
    if num >= 2 && num < 4 then Danger
    else if num >= 4 then Critial
    else Safe
  }

  function Severity(s: Status): nat {
    match s
    case Safe => 0
    case Danger => 1
    case Critial => 2
  }

  /** More abnormal metrics never give a milder status. */
  lemma {:induction false} StatusMonotone(a: nat, b: nat)
    requires a <= b
    ensures Severity(StatusFor(a)) <= Severity(StatusFor(b))
  {
  }

  // The message is unambiguous: a reader can recover the flagged metrics.

  /** Different metrics have names that start with different characters. */
  lemma {:induction false} InitialsDiffer(m1: Metric, m2: Metric)
    requires m1 != m2
    ensures MetricName(m1)[0] != MetricName(m2)[0]
  {
  }

  /** Reads a message back: the metrics of `ms` whose "name, " comes next, in order. */
  function Parse(ms: seq<Metric>, s: string): seq<Metric> {
    if ms == [] then []
    else
      var w := MetricName(ms[0]) + ", ";
      if w <= s then [ms[0]] + Parse(ms[1..], s[|w|..]) else Parse(ms[1..], s)
  }

  /** Rendering a list that starts with `m` starts with the name of `m`. */
  lemma {:induction false} RenderCons(m: Metric, f: seq<Metric>)
    ensures Render([m] + f) == MetricName(m) + ", " + Render(f)
  {
    assert ([m] + f)[1..] == f;
  }

  /** The rendering of a list that starts with another metric does not start with the name of `m`. */
  lemma {:induction false} NotRenderedFirst(m: Metric, f: seq<Metric>)
    requires f != [] && f[0] != m
    ensures !(MetricName(m) + ", " <= Render(f))
  {
    InitialsDiffer(m, f[0]);
    assert Render(f)[0] == MetricName(f[0])[0];
  }

  /** Parsing the rendered flagged list of `ms` gives back that list. */
  lemma {:induction false} ParseRender(ms: seq<Metric>, labels: Labels)
    requires NoDuplicates(ms)
    ensures Parse(ms, Render(FlaggedIn(ms, labels))) == FlaggedIn(ms, labels)
  {
    if ms != [] {
      var m, rest := ms[0], ms[1..];
      var w := MetricName(m) + ", ";
      var f := FlaggedIn(rest, labels);
      NoDuplicatesTail(ms);
      ParseRender(rest, labels);
      if Abnormal(m, labels) {
        assert FlaggedIn(ms, labels) == [m] + f;
        RenderCons(m, f);
        var s := w + Render(f);
        assert w <= s && s[|w|..] == Render(f);
        assert Parse(ms, s) == [m] + Parse(rest, Render(f));
      } else {
        assert FlaggedIn(ms, labels) == f;
        if f != [] {
          FlaggedInMember(rest, labels, f[0]);
          NotRenderedFirst(m, f);
        }
        assert !(w <= Render(f));
        assert Parse(ms, Render(f)) == Parse(rest, Render(f));
      }
    }
  }

  /** The message order names each metric once. */
  lemma {:induction false} MessageOrderDistinct()
    ensures NoDuplicates(MessageOrder)
  {
  }

  /** The message order names every metric. */
  lemma {:induction false} MessageOrderComplete(m: Metric)
    ensures m in MessageOrder
  {
    match m
    case Bmi => assert MessageOrder[0] == m;
    case BloodPressure => assert MessageOrder[1] == m;
    case Cholesterol => assert MessageOrder[2] == m;
    case Glucose => assert MessageOrder[3] == m;
    case HeartBeat => assert MessageOrder[4] == m;
  }

  /** Two submissions with the same message flagged exactly the same metrics. */
  lemma {:induction false} MessageDeterminesFlagged(l1: Labels, l2: Labels)
    requires Message(l1) == Message(l2)
    ensures forall m :: Abnormal(m, l1) <==> Abnormal(m, l2)
  {
    MessageOrderDistinct();
    var f1, f2 := FlaggedIn(MessageOrder, l1), FlaggedIn(MessageOrder, l2);
    assert Render(f1) == Message(l1) && Render(f2) == Message(l2);
    ParseRender(MessageOrder, l1);
    ParseRender(MessageOrder, l2);
    assert f1 == f2;
    forall m ensures Abnormal(m, l1) <==> Abnormal(m, l2) {
      FlaggedInMember(MessageOrder, l1, m);
      FlaggedInMember(MessageOrder, l2, m);
      MessageOrderComplete(m);
    }
  }

  /** The fragment `create` appends for one metric: its name and ", " when it is flagged. */
  function Piece(m: Metric, labels: Labels): (s: string)
    ensures s == [] <==> !Abnormal(m, labels)
  {
    if Abnormal(m, labels) then MetricName(m) + ", " else ""
  }

  /** The five fragments as the literal text `create` appends. */
  lemma {:induction false} PieceText(labels: Labels)
    ensures Piece(Bmi, labels) == if Abnormal(Bmi, labels) then "BMI, " else ""
    ensures Piece(BloodPressure, labels) == if Abnormal(BloodPressure, labels) then "huyết áp, " else ""
    ensures Piece(Cholesterol, labels) == if Abnormal(Cholesterol, labels) then "cholesterol, " else ""
    ensures Piece(Glucose, labels) == if Abnormal(Glucose, labels) then "glucose, " else ""
    ensures Piece(HeartBeat, labels) == if Abnormal(HeartBeat, labels) then "nhịp tim, " else ""
  {
  }

  /** The message written out metric by metric, as `create` builds it. */
  lemma {:induction false} MessageUnfold(labels: Labels)
    ensures Message(labels) ==
      Piece(Bmi, labels) + Piece(BloodPressure, labels) + Piece(Cholesterol, labels) +
      Piece(Glucose, labels) + Piece(HeartBeat, labels)
  {
    var a, b, c, d, e := One(Bmi, labels), One(BloodPressure, labels), One(Cholesterol, labels),
                         One(Glucose, labels), One(HeartBeat, labels);
    assert Flagged(labels) == a + b + c + d + e;
    RenderAppend(a + b + c + d, e);
    RenderAppend(a + b + c, d);
    RenderAppend(a + b, c);
    RenderAppend(a, b);
    RenderOne(Bmi, labels);
    RenderOne(BloodPressure, labels);
    RenderOne(Cholesterol, labels);
    RenderOne(Glucose, labels);
    RenderOne(HeartBeat, labels);
  }

  lemma {:induction false} RenderOne(m: Metric, labels: Labels)
    ensures Render(One(m, labels)) == Piece(m, labels)
  {
    if Abnormal(m, labels) {
      assert One(m, labels)[1..] == [];
    }
  }

  /** Rendering distributes over concatenation. */
  lemma {:induction false} RenderAppend(a: seq<Metric>, b: seq<Metric>)
    ensures Render(a + b) == Render(a) + Render(b)
  {
    if a != [] {
      assert (a + b)[0] == a[0];
      assert (a + b)[1..] == a[1..] + b;
      RenderAppend(a[1..], b);
    } else {
      assert a + b == b;
    }
  }

  /** The labels of the two-abnormal scenario: BMI FAT, glucose CRITIAL, the rest NORMAL. */
  const FatAndHighGlucose := Labels("FAT", "NORMAL", "NORMAL", "CRITIAL", "NORMAL")

  lemma {:induction false} FatAndHighGlucoseFlags()
    ensures Abnormal(Bmi, FatAndHighGlucose) && Abnormal(Glucose, FatAndHighGlucose)
    ensures !Abnormal(BloodPressure, FatAndHighGlucose) && !Abnormal(Cholesterol, FatAndHighGlucose)
    ensures !Abnormal(HeartBeat, FatAndHighGlucose)
  {
    assert "NORMAL"[0] != "CRITIAL"[0] && "NORMAL"[0] != "LOW"[0] && "NORMAL"[0] != "HIGH"[0];
  }

  /** Two abnormal labels (BMI FAT, glucose CRITIAL) give DANGER and name both, BMI first. */
  lemma {:induction false} TwoAbnormalScenario()
    ensures StatusFor(AbnormalCount(FatAndHighGlucose)) == Danger
    ensures Flagged(FatAndHighGlucose) == [Bmi, Glucose]
    ensures Message(FatAndHighGlucose) == (MetricName(Bmi) + ", ") + (MetricName(Glucose) + ", ")
  {
    FatAndHighGlucoseFlagged();
    RenderPair(Bmi, Glucose);
  }

  lemma {:induction false} FatAndHighGlucoseFlagged()
    ensures Flagged(FatAndHighGlucose) == [Bmi, Glucose]
  {
    var labels := FatAndHighGlucose;
    FatAndHighGlucoseFlags();
    assert One(Bmi, labels) == [Bmi] && One(Glucose, labels) == [Glucose];
    assert One(BloodPressure, labels) == [] && One(Cholesterol, labels) == [] && One(HeartBeat, labels) == [];
    assert Flagged(labels) == [Bmi] + [] + [] + [Glucose] + [];
    assert [Bmi] + [] + [] + [Glucose] + [] == [Bmi, Glucose];
  }

  /** A two-metric list renders as both names, each followed by ", ". */
  lemma {:induction false} RenderPair(a: Metric, b: Metric)
    ensures Render([a, b]) == (MetricName(a) + ", ") + (MetricName(b) + ", ")
  {
    assert [a, b][1..] == [b];
    assert [b][1..] == [];
  }

  /** All five labels normal: SAFE and an empty metric list. */
  lemma {:induction false} AllNormalScenario(labels: Labels)
    requires forall m :: !Abnormal(m, labels)
    ensures StatusFor(AbnormalCount(labels)) == Safe && Message(labels) == ""
  {
  }

  // ---------------------------------------------------------------------
  // The store
  // ---------------------------------------------------------------------

  datatype Patient = Patient(fullName: string, doctorId: UserId, healthRecord: Option<HealthRecordId>)

  /** A health record: whose it is and its banded status. */
  datatype HealthRecord = HealthRecord(patientId: UserId, status: Status)

  /** The values one per-metric row holds. */
  datatype Reading =
    | BmiReading(height: JsNumber, weight: JsNumber, indexBmi: string)
    | BloodPressureReading(systolic: JsNumber, diastolic: JsNumber)
    | CholesterolReading(cholesterol: JsNumber)
    | GlucoseReading(glucose: JsNumber)
    | HeartBeatReading(heartRateIndicator: JsNumber)

  function MetricOf(r: Reading): Metric {
    match r
    case BmiReading(_, _, _) => Bmi
    case BloodPressureReading(_, _) => BloodPressure
    case CholesterolReading(_) => Cholesterol
    case GlucoseReading(_) => Glucose
    case HeartBeatReading(_) => HeartBeat
  }

  /** What a submission writes into the row of metric `m`. */
  function Submitted(m: Metric, dto: CreateHealthRecord, indexBmi: string): (r: Reading)
    ensures MetricOf(r) == m
  {
    match m
    case Bmi => BmiReading(dto.height, dto.weight, indexBmi)
    case BloodPressure => BloodPressureReading(dto.systolic, dto.diastolic)
    case Cholesterol => CholesterolReading(dto.cholesterol)
    case Glucose => GlucoseReading(dto.glucose)
    case HeartBeat => HeartBeatReading(dto.heartRateIndicator)
  }

  /** A row of one metric table, found by health record and creation day. */
  datatype RowKey = RowKey(metric: Metric, healthRecordId: HealthRecordId, day: Day)

  datatype Row = Row(id: nat, reading: Reading, createdBy: UserId, updatedBy: Option<UserId>)

  /** The five keys of one health record's day. */
  function DayKeys(h: HealthRecordId, day: Day): set<RowKey> {
    { RowKey(Bmi, h, day), RowKey(BloodPressure, h, day), RowKey(Cholesterol, h, day),
      RowKey(Glucose, h, day), RowKey(HeartBeat, h, day) }
  }

  /** A patient and its health record point at each other. */
  predicate Linked(patients: map<UserId, Patient>, records: map<HealthRecordId, HealthRecord>) {
    && (forall p :: p in patients && patients[p].healthRecord.Some? ==>
          patients[p].healthRecord.value in records &&
          records[patients[p].healthRecord.value].patientId == p)
    && (forall h :: h in records ==>
          records[h].patientId in patients &&
          patients[records[h].patientId].healthRecord == Some(h))
  }

  /** Changing a health record's status keeps every patient linked to its record. */
  lemma {:induction false} LinkedStatusUpdate(patients: map<UserId, Patient>, records: map<HealthRecordId, HealthRecord>,
                           h: HealthRecordId, status: Status)
    requires Linked(patients, records) && h in records
    ensures Linked(patients, records[h := records[h].(status := status)])
  {
  }

  /** Each row sits in its own metric's table. */
  predicate RowsTyped(rows: map<RowKey, Row>) {
    forall k :: k in rows ==> MetricOf(rows[k].reading) == k.metric
  }

  /** Each row sits in its own metric's table and has a distinct id below `nextId`. */
  predicate RowsWellFormed(rows: map<RowKey, Row>, nextId: nat) {
    && RowsTyped(rows)
    && (forall k :: k in rows ==> rows[k].id < nextId)
    && (forall k1, k2 :: k1 in rows && k2 in rows && k1 != k2 ==> rows[k1].id != rows[k2].id)
  }

  /**
   * One metric's write, on the table and the id counter: a row that exists
   * at `k` is updated in place (new values, the updater recorded), a
   * missing one is created with the next id.
   */
  function UpsertRow(rows: map<RowKey, Row>, nextId: nat, k: RowKey, reading: Reading, member: UserId)
    : (r: (map<RowKey, Row>, nat))
    ensures r.0.Keys == rows.Keys + {k}
    ensures r.0[k].reading == reading
    ensures r.0 == rows[k := r.0[k]]
    ensures k in rows ==>
      r.0[k].id == rows[k].id && r.0[k].createdBy == rows[k].createdBy &&
      r.0[k].updatedBy == Some(member) && r.1 == nextId
    ensures k !in rows ==> r.0[k] == Row(nextId, reading, member, None) && r.1 == nextId + 1
  {
    if k in rows then (rows[k := rows[k].(reading := reading, updatedBy := Some(member))], nextId)
    else (rows[k := Row(nextId, reading, member, None)], nextId + 1)
  }

  /** The metric tables of the transaction, in the order the service writes them. */
  const WriteOrder: seq<Metric> := [Bmi, Cholesterol, Glucose, HeartBeat, BloodPressure]

  /** The writes of `ms`, one after the other, into the rows of health record `h` on `day`. */
  function WriteRows(rows: map<RowKey, Row>, nextId: nat, h: HealthRecordId, day: Day, ms: seq<Metric>,
                     dto: CreateHealthRecord, indexBmi: string, member: UserId): (r: (map<RowKey, Row>, nat))
    ensures r.1 >= nextId
    decreases |ms|
  {
    if ms == [] then (rows, nextId)
    else
      var (r1, n1) := UpsertRow(rows, nextId, RowKey(ms[0], h, day), Submitted(ms[0], dto, indexBmi), member);
      WriteRows(r1, n1, h, day, ms[1..], dto, indexBmi, member)
  }

  /** The keys of the metrics `ms` in the rows of `h` on `day`. */
  function KeysOf(ms: seq<Metric>, h: HealthRecordId, day: Day): set<RowKey> {
    set m | m in ms :: RowKey(m, h, day)
  }

  /**
   * The rows at the keys `ks` were written with the submitted values: each
   * holds the values of its metric; an existing one keeps its id and
   * creator and records the updater; a missing one is created once, with a
   * fresh id; every row outside `ks` is as before.
   */
  ghost predicate UpsertedOn(before: map<RowKey, Row>, after: map<RowKey, Row>, ks: set<RowKey>,
                             dto: CreateHealthRecord, indexBmi: string, member: UserId, firstId: nat)
  {
    && after.Keys == before.Keys + ks
    && (forall k :: k in before && k !in ks ==> after[k] == before[k])
    && (forall k :: k in ks ==>
          && after[k].reading == Submitted(k.metric, dto, indexBmi)
          && (k in before ==>
                after[k].id == before[k].id && after[k].createdBy == before[k].createdBy &&
                after[k].updatedBy == Some(member))
          && (k !in before ==>
                after[k].id >= firstId && after[k].createdBy == member && after[k].updatedBy == None))
  }

  /** Today's five rows after a submission. */
  ghost predicate DayUpserted(before: map<RowKey, Row>, after: map<RowKey, Row>,
                              h: HealthRecordId, day: Day, dto: CreateHealthRecord,
                              indexBmi: string, member: UserId, firstId: nat)
  {
    UpsertedOn(before, after, DayKeys(h, day), dto, indexBmi, member, firstId)
  }

  /** No metric occurs twice in `ms`. */
  predicate NoDuplicates(ms: seq<Metric>) {
    forall i, j :: 0 <= i < j < |ms| ==> ms[i] != ms[j]
  }

  lemma {:induction false} NoDuplicatesTail(ms: seq<Metric>)
    requires ms != [] && NoDuplicates(ms)
    ensures NoDuplicates(ms[1..]) && ms[0] !in ms[1..]
  {
    var rest := ms[1..];
    forall i, j | 0 <= i < j < |rest| ensures rest[i] != rest[j] {
      assert rest[i] == ms[i + 1] && rest[j] == ms[j + 1];
    }
  }

  /** One more metric's write extends the set of written keys by that key. */
  lemma {:induction false} UpsertStep(before: map<RowKey, Row>, mid: map<RowKey, Row>, nextId: nat, ks: set<RowKey>, k: RowKey,
                   dto: CreateHealthRecord, indexBmi: string, member: UserId, firstId: nat)
    requires UpsertedOn(before, mid, ks, dto, indexBmi, member, firstId)
    requires k !in ks && nextId >= firstId
    ensures var (after, n) := UpsertRow(mid, nextId, k, Submitted(k.metric, dto, indexBmi), member);
      UpsertedOn(before, after, ks + {k}, dto, indexBmi, member, firstId) && n >= nextId
  {
  }

  /** Writing the metrics `ms` extends the written keys by theirs. */
  lemma {:induction false} WriteRowsUpserted(before: map<RowKey, Row>, rows: map<RowKey, Row>, nextId: nat,
                                             ks: set<RowKey>, h: HealthRecordId, day: Day, ms: seq<Metric>,
                                             dto: CreateHealthRecord, indexBmi: string, member: UserId, firstId: nat)
    requires UpsertedOn(before, rows, ks, dto, indexBmi, member, firstId) && nextId >= firstId
    requires NoDuplicates(ms) && forall m :: m in ms ==> RowKey(m, h, day) !in ks
    ensures var (after, n) := WriteRows(rows, nextId, h, day, ms, dto, indexBmi, member);
      UpsertedOn(before, after, ks + KeysOf(ms, h, day), dto, indexBmi, member, firstId) && n >= nextId
    decreases |ms|
  {
    if ms == [] {
      assert KeysOf(ms, h, day) == {};
    } else {
      var k := RowKey(ms[0], h, day);
      UpsertStep(before, rows, nextId, ks, k, dto, indexBmi, member, firstId);
      var (r1, n1) := UpsertRow(rows, nextId, k, Submitted(ms[0], dto, indexBmi), member);
      NoDuplicatesTail(ms);
      WriteRowsUpserted(before, r1, n1, ks + {k}, h, day, ms[1..], dto, indexBmi, member, firstId);
      KeysOfCons(ms, h, day);
      assert ks + {k} + KeysOf(ms[1..], h, day) == ks + KeysOf(ms, h, day);
    }
  }

  /** The keys of a list of metrics: the first one's key and the keys of the rest. */
  lemma {:induction false} KeysOfCons(ms: seq<Metric>, h: HealthRecordId, day: Day)
    requires ms != []
    ensures KeysOf(ms, h, day) == {RowKey(ms[0], h, day)} + KeysOf(ms[1..], h, day)
  {
    assert ms == [ms[0]] + ms[1..];
  }

  /** The transaction writes today's five rows and touches nothing else. */
  lemma {:induction false} WriteDayUpserted(rows: map<RowKey, Row>, nextId: nat, h: HealthRecordId, day: Day,
                         dto: CreateHealthRecord, indexBmi: string, member: UserId)
    ensures DayUpserted(rows, WriteRows(rows, nextId, h, day, WriteOrder, dto, indexBmi, member).0,
                        h, day, dto, indexBmi, member, nextId)
  {
    WriteOrderKeys(h, day);
    assert UpsertedOn(rows, rows, {}, dto, indexBmi, member, nextId);
    WriteRowsUpserted(rows, rows, nextId, {}, h, day, WriteOrder, dto, indexBmi, member, nextId);
    assert {} + KeysOf(WriteOrder, h, day) == DayKeys(h, day);
  }

  /** The transaction writes each of the five metric tables exactly once. */
  lemma {:induction false} WriteOrderKeys(h: HealthRecordId, day: Day)
    ensures NoDuplicates(WriteOrder)
    ensures KeysOf(WriteOrder, h, day) == DayKeys(h, day)
  {
    forall k | k in DayKeys(h, day) ensures k in KeysOf(WriteOrder, h, day) {
      match k.metric
      case Bmi => assert WriteOrder[0] == Bmi;
      case Cholesterol => assert WriteOrder[1] == Cholesterol;
      case Glucose => assert WriteOrder[2] == Glucose;
      case HeartBeat => assert WriteOrder[3] == HeartBeat;
      case BloodPressure => assert WriteOrder[4] == BloodPressure;
    }
  }

  /** A write keeps every row in its own metric's table with a distinct id below the counter. */
  lemma {:induction false} UpsertRowWellFormed(rows: map<RowKey, Row>, nextId: nat, k: RowKey, reading: Reading, member: UserId)
    requires RowsWellFormed(rows, nextId) && MetricOf(reading) == k.metric
    ensures var (after, n) := UpsertRow(rows, nextId, k, reading, member); RowsWellFormed(after, n)
  {
  }

  lemma {:induction false} WriteRowsWellFormed(rows: map<RowKey, Row>, nextId: nat, h: HealthRecordId, day: Day,
                                               ms: seq<Metric>, dto: CreateHealthRecord, indexBmi: string,
                                               member: UserId)
    requires RowsWellFormed(rows, nextId)
    ensures var (after, n) := WriteRows(rows, nextId, h, day, ms, dto, indexBmi, member);
      RowsWellFormed(after, n) && n >= nextId
    decreases |ms|
  {
    if ms != [] {
      var k := RowKey(ms[0], h, day);
      UpsertRowWellFormed(rows, nextId, k, Submitted(ms[0], dto, indexBmi), member);
      var (r1, n1) := UpsertRow(rows, nextId, k, Submitted(ms[0], dto, indexBmi), member);
      WriteRowsWellFormed(r1, n1, h, day, ms[1..], dto, indexBmi, member);
    }
  }

  /** Submitting again on the same day updates the five rows in place: no row and no id is added. */
  lemma {:induction false} WriteDayResubmit(rows: map<RowKey, Row>, nextId: nat, h: HealthRecordId, day: Day,
                         dto1: CreateHealthRecord, dto2: CreateHealthRecord, indexBmi1: string, indexBmi2: string,
                         member: UserId)
    ensures var (r1, n1) := WriteRows(rows, nextId, h, day, WriteOrder, dto1, indexBmi1, member);
      var (r2, n2) := WriteRows(r1, n1, h, day, WriteOrder, dto2, indexBmi2, member);
      r2.Keys == r1.Keys && n2 == n1 &&
      forall k :: k in r1 ==> r2[k].id == r1[k].id
  {
    var (r1, n1) := WriteRows(rows, nextId, h, day, WriteOrder, dto1, indexBmi1, member);
    WriteDayUpserted(rows, nextId, h, day, dto1, indexBmi1, member);
    WriteDayUpserted(r1, n1, h, day, dto2, indexBmi2, member);
  }

  /** The `data` object `create` returns. */
  datatype DaySummary = DaySummary(
    healthRecordId: HealthRecordId,
    createdAt: Day,
    indexBmi: string,
    recordBmi: string,
    cholesterol: JsNumber,
    recordCholesterol: string,
    heartRateIndicator: JsNumber,
    recordHeartBeat: string,
    glucose: JsNumber,
    recordGlucose: string,
    systolic: JsNumber,
    diastolic: JsNumber,
    recordBloodPressure: string,
    status: Status)

  /** A field of `findHealthRecordDay`: the stored value, or '' when there is no row. */
  datatype Cell<T> = Blank | Value(value: T)

  /** The `data` object `findHealthRecordDay` returns. */
  datatype DayView = DayView(
    healthRecordId: HealthRecordId,
    height: Cell<JsNumber>,
    weight: Cell<JsNumber>,
    indexBmi: Cell<string>,
    createdAt: Cell<Day>,
    heartRateIndicator: Cell<JsNumber>,
    systolic: Cell<JsNumber>,
    diastolic: Cell<JsNumber>,
    glucose: Cell<JsNumber>,
    cholesterol: Cell<JsNumber>)

  /** The fields of `findHealthRecordDay` for health record `h`: each from `today`'s row of its metric. */
  function DayViewOf(rows: map<RowKey, Row>, h: HealthRecordId, today: Day): (v: DayView)
    requires RowsTyped(rows)
    ensures v.healthRecordId == h
    ensures (v.height == Blank) == (RowKey(Bmi, h, today) !in rows)
    ensures (v.weight == Blank) == (RowKey(Bmi, h, today) !in rows)
    ensures (v.indexBmi == Blank) == (RowKey(Bmi, h, today) !in rows)
    ensures (v.createdAt == Blank) == (RowKey(Bmi, h, today) !in rows)
    ensures (v.heartRateIndicator == Blank) == (RowKey(HeartBeat, h, today) !in rows)
    ensures (v.systolic == Blank) == (RowKey(BloodPressure, h, today) !in rows)
    ensures (v.diastolic == Blank) == (RowKey(BloodPressure, h, today) !in rows)
    ensures (v.glucose == Blank) == (RowKey(Glucose, h, today) !in rows)
    ensures (v.cholesterol == Blank) == (RowKey(Cholesterol, h, today) !in rows)
  {
    var bmi := RowKey(Bmi, h, today);
    var heartbeat := RowKey(HeartBeat, h, today);
    var bloodPressure := RowKey(BloodPressure, h, today);
    var glucose := RowKey(Glucose, h, today);
    var cholesterol := RowKey(Cholesterol, h, today);
    DayView(
      h,
      if bmi in rows then Value(rows[bmi].reading.height) else Blank,
      if bmi in rows then Value(rows[bmi].reading.weight) else Blank,
      if bmi in rows then Value(rows[bmi].reading.indexBmi) else Blank,
      if bmi in rows then Value(today) else Blank,
      if heartbeat in rows then
        Value(rows[heartbeat].reading.heartRateIndicator) else Blank,
      if bloodPressure in rows then
        Value(rows[bloodPressure].reading.systolic) else Blank,
      if bloodPressure in rows then
        Value(rows[bloodPressure].reading.diastolic) else Blank,
      if glucose in rows then Value(rows[glucose].reading.glucose) else Blank,
      if cholesterol in rows then
        Value(rows[cholesterol].reading.cholesterol) else Blank)
  }

  /** After the transaction, each of today's five rows holds the value submitted for its metric. */
  lemma {:induction false} WriteDayReadings(rows: map<RowKey, Row>, nextId: nat, h: HealthRecordId, day: Day,
                         dto: CreateHealthRecord, indexBmi: string, member: UserId)
    ensures var after := WriteRows(rows, nextId, h, day, WriteOrder, dto, indexBmi, member).0;
      && RowKey(Bmi, h, day) in after && after[RowKey(Bmi, h, day)].reading == Submitted(Bmi, dto, indexBmi)
      && RowKey(Cholesterol, h, day) in after
      && after[RowKey(Cholesterol, h, day)].reading == Submitted(Cholesterol, dto, indexBmi)
      && RowKey(Glucose, h, day) in after && after[RowKey(Glucose, h, day)].reading == Submitted(Glucose, dto, indexBmi)
      && RowKey(HeartBeat, h, day) in after
      && after[RowKey(HeartBeat, h, day)].reading == Submitted(HeartBeat, dto, indexBmi)
      && RowKey(BloodPressure, h, day) in after
      && after[RowKey(BloodPressure, h, day)].reading == Submitted(BloodPressure, dto, indexBmi)
  {
    WriteDayUpserted(rows, nextId, h, day, dto, indexBmi, member);
    assert RowKey(Bmi, h, day) in DayKeys(h, day);
    assert RowKey(HeartBeat, h, day) in DayKeys(h, day);
    assert RowKey(BloodPressure, h, day) in DayKeys(h, day);
    assert RowKey(Glucose, h, day) in DayKeys(h, day);
    assert RowKey(Cholesterol, h, day) in DayKeys(h, day);
  }

  /** After the transaction, today's view of the health record shows exactly the submitted values. */
  lemma {:induction false} WriteDayThenView(rows: map<RowKey, Row>, nextId: nat, h: HealthRecordId, day: Day,
                         dto: CreateHealthRecord, indexBmi: string, member: UserId)
    requires RowsTyped(rows)
    ensures RowsTyped(WriteRows(rows, nextId, h, day, WriteOrder, dto, indexBmi, member).0)
    ensures DayViewOf(WriteRows(rows, nextId, h, day, WriteOrder, dto, indexBmi, member).0, h, day) ==
      DayView(h, Value(dto.height), Value(dto.weight), Value(indexBmi), Value(day),
              Value(dto.heartRateIndicator), Value(dto.systolic), Value(dto.diastolic),
              Value(dto.glucose), Value(dto.cholesterol))
  {
    var after := WriteRows(rows, nextId, h, day, WriteOrder, dto, indexBmi, member).0;
    WriteDayUpserted(rows, nextId, h, day, dto, indexBmi, member);
    assert RowKey(Bmi, h, day) in DayKeys(h, day);
    assert RowKey(HeartBeat, h, day) in DayKeys(h, day);
    assert RowKey(BloodPressure, h, day) in DayKeys(h, day);
    assert RowKey(Glucose, h, day) in DayKeys(h, day);
    assert RowKey(Cholesterol, h, day) in DayKeys(h, day);
  }

  class HealthRecordStore {
    var patients: map<UserId, Patient>
    var healthRecords: map<HealthRecordId, HealthRecord>
    var rows: map<RowKey, Row>
    var nextRowId: nat
    var notifications: seq<Notification>

    ghost predicate Valid()
      reads this
    {
      Linked(patients, healthRecords) && RowsWellFormed(rows, nextRowId)
    }

    /** A store over existing patients and health records, with no readings yet. */
    constructor (patients0: map<UserId, Patient>, records0: map<HealthRecordId, HealthRecord>)
      requires Linked(patients0, records0)
      ensures Valid()
      ensures patients == patients0 && healthRecords == records0
      ensures rows == map[] && notifications == []
    {
      patients := patients0;
      healthRecords := records0;
      rows := map[];
      nextRowId := 0;
      notifications := [];
    }

    /**
     * The health record of a member. Equivalently, the record whose
     * `patientId` is the member: the query `findHealthRecordDay` runs.
     */
    function HealthRecordOf(memberId: UserId): (r: Option<HealthRecordId>)
      reads this
      requires Valid()
      ensures r.Some? ==> r.value in healthRecords
      ensures forall h :: h in healthRecords ==> (healthRecords[h].patientId == memberId <==> r == Some(h))
    {
      if memberId in patients then patients[memberId].healthRecord else None
    }

    /**
     * `findHealthRecordDay`: today's readings of the member's health record,
     * '' for a metric without a row today. A member without one is an error.
     */
    function FindHealthRecordDay(memberId: UserId, today: Day): (r: Result<DayView, HealthError>)
      reads this
      requires Valid()
      ensures r.Failure? <==> HealthRecordOf(memberId) == None
      ensures r.Failure? ==> r.error == HealthRecordMissing
      ensures r.Success? ==> r.value == DayViewOf(rows, HealthRecordOf(memberId).value, today)
    {
      match HealthRecordOf(memberId)
      case None => Failure(HealthRecordMissing)
      case Some(h) => Success(DayViewOf(rows, h, today))
    }

    /** One metric's write in the transaction: update today's row in place, or create it. */
    method Upsert(k: RowKey, reading: Reading, memberId: UserId)
      modifies this
      ensures (rows, nextRowId) == UpsertRow(old(rows), old(nextRowId), k, reading, memberId)
      ensures patients == old(patients) && healthRecords == old(healthRecords)
      ensures notifications == old(notifications)
    {
      if k !in rows {
        rows := rows[k := Row(nextRowId, reading, memberId, None)];
        nextRowId := nextRowId + 1;
      } else {
        rows := rows[k := rows[k].(reading := reading, updatedBy := Some(memberId))];
      }
    }

    /** The transaction of `create`: today's row of each metric table, in the service's order. */
    method WriteDay(h: HealthRecordId, today: Day, dto: CreateHealthRecord, indexBmi: string, memberId: UserId)
      requires Valid()
      modifies this
      ensures Valid()
      ensures (rows, nextRowId) == WriteRows(old(rows), old(nextRowId), h, today, WriteOrder, dto, indexBmi, memberId)
      ensures patients == old(patients) && healthRecords == old(healthRecords)
      ensures notifications == old(notifications)
    {
      WriteRowsWellFormed(rows, nextRowId, h, today, WriteOrder, dto, indexBmi, memberId);
      ghost var goal := WriteRows(rows, nextRowId, h, today, WriteOrder, dto, indexBmi, memberId);
      assert WriteOrder[1..] == [Cholesterol, Glucose, HeartBeat, BloodPressure];
      Upsert(RowKey(Bmi, h, today), Submitted(Bmi, dto, indexBmi), memberId);
      assert goal == WriteRows(rows, nextRowId, h, today, [Cholesterol, Glucose, HeartBeat, BloodPressure], dto, indexBmi, memberId);
      assert [Cholesterol, Glucose, HeartBeat, BloodPressure][1..] == [Glucose, HeartBeat, BloodPressure];
      Upsert(RowKey(Cholesterol, h, today), Submitted(Cholesterol, dto, indexBmi), memberId);
      assert goal == WriteRows(rows, nextRowId, h, today, [Glucose, HeartBeat, BloodPressure], dto, indexBmi, memberId);
      assert [Glucose, HeartBeat, BloodPressure][1..] == [HeartBeat, BloodPressure];
      Upsert(RowKey(Glucose, h, today), Submitted(Glucose, dto, indexBmi), memberId);
      assert goal == WriteRows(rows, nextRowId, h, today, [HeartBeat, BloodPressure], dto, indexBmi, memberId);
      assert [HeartBeat, BloodPressure][1..] == [BloodPressure];
      Upsert(RowKey(HeartBeat, h, today), Submitted(HeartBeat, dto, indexBmi), memberId);
      assert goal == WriteRows(rows, nextRowId, h, today, [BloodPressure], dto, indexBmi, memberId);
      assert [BloodPressure][1..] == [];
      Upsert(RowKey(BloodPressure, h, today), Submitted(BloodPressure, dto, indexBmi), memberId);
      assert goal == WriteRows(rows, nextRowId, h, today, [], dto, indexBmi, memberId);
    }

    /**
     * The classification half of `create`: a flag and a count per abnormal
     * label, then the metric list in message order.
     */
    static method Classify(labels: Labels) returns (num: nat, str: string)
      ensures num == AbnormalCount(labels)
      ensures str == Message(labels)
    {
      var checkBmi, checkGlucose, checkCholesterol, checkBloodPressure, checkHeartbeat := false, false, false, false, false;
      num := 0;
      if labels.bmi == "LIGHT" || labels.bmi == "FAT" {
        checkBmi := true;
        num := num + 1;
      }
      if labels.cholesterol == "CRITIAL" {
        checkCholesterol := true;
        num := num + 1;
      }
      if labels.heartBeat == "CRITIAL" {
        checkHeartbeat := true;
        num := num + 1;
      }
      if labels.glucose == "CRITIAL" {
        checkGlucose := true;
        num := num + 1;
      }
      if labels.bloodPressure == "LOW" || labels.bloodPressure == "HIGH" {
        checkBloodPressure := true;
        num := num + 1;
      }

      assert checkBmi == Abnormal(Bmi, labels) && checkBloodPressure == Abnormal(BloodPressure, labels);
      assert checkCholesterol == Abnormal(Cholesterol, labels) && checkGlucose == Abnormal(Glucose, labels);
      assert checkHeartbeat == Abnormal(HeartBeat, labels);
      PieceText(labels);
      ghost var p1, p2, p3, p4 := Piece(Bmi, labels), Piece(BloodPressure, labels),
                                  Piece(Cholesterol, labels), Piece(Glucose, labels);

      str := "";
      if checkBmi { str := str + "BMI, "; }
      assert str == p1;
      if checkBloodPressure { str := str + "huyết áp, "; }
      assert str == p1 + p2;
      if checkCholesterol { str := str + "cholesterol, "; }
      assert str == p1 + p2 + p3;
      if checkGlucose { str := str + "glucose, "; }
      assert str == p1 + p2 + p3 + p4;
      if checkHeartbeat { str := str + "nhịp tim, "; }
      MessageUnfold(labels);
    }

    /**
     * `create`: validate, write today's five rows, classify, band, store the
     * status and notify the doctor. A failed submission writes nothing.
     */
    method Create(memberId: UserId, dto: CreateHealthRecord, indexBmi: string, labels: Labels, today: Day)
      returns (r: Result<DaySummary, HealthError>)
      requires Valid()
      modifies this
      ensures Valid()
      ensures patients == old(patients)
      ensures Validate(dto).Some? ==> r == Failure(Invalid(Validate(dto).value))
      ensures Validate(dto).None? && memberId !in old(patients) ==> r == Failure(PatientNotFound)
      ensures Validate(dto).None? && memberId in old(patients) && old(patients)[memberId].healthRecord.None? ==>
        r == Failure(HealthRecordMissing)
      ensures Validate(dto).None? && memberId in old(patients) && old(patients)[memberId].healthRecord.Some? ==>
        r.Success?
      ensures r.Failure? ==>
        rows == old(rows) && nextRowId == old(nextRowId) &&
        healthRecords == old(healthRecords) && notifications == old(notifications)
      ensures r.Success? ==>
        && Validate(dto).None? && memberId in old(patients) && old(patients)[memberId].healthRecord.Some?
        && var p := old(patients)[memberId];
           var h := p.healthRecord.value;
           var status := StatusFor(AbnormalCount(labels));
           && (rows, nextRowId) == WriteRows(old(rows), old(nextRowId), h, today, WriteOrder, dto, indexBmi, memberId)
           && healthRecords == old(healthRecords)[h := old(healthRecords)[h].(status := status)]
           && notifications == old(notifications) +
                [Notification(WarningType, HealthWarning, p.doctorId, p.fullName, Message(labels), false)]
           && r.value == DaySummary(h, today, indexBmi, labels.bmi, dto.cholesterol, labels.cholesterol,
                                    dto.heartRateIndicator, labels.heartBeat, dto.glucose, labels.glucose,
                                    dto.systolic, dto.diastolic, labels.bloodPressure, status)
           && r.value.status == healthRecords[h].status
           && FindHealthRecordDay(memberId, today) ==
                Success(DayView(h, Value(dto.height), Value(dto.weight), Value(indexBmi), Value(today),
                                Value(dto.heartRateIndicator), Value(dto.systolic), Value(dto.diastolic),
                                Value(dto.glucose), Value(dto.cholesterol)))
    {
      var invalid := Validate(dto);
      if invalid.Some? {
        return Failure(Invalid(invalid.value));
      }
      if memberId !in patients {
        return Failure(PatientNotFound);
      }
      var patient := patients[memberId];
      if patient.healthRecord.None? {
        return Failure(HealthRecordMissing);
      }
      var summary := Record(memberId, patient.healthRecord.value, dto, indexBmi, labels, today);
      r := Success(summary);
    }

    /**
     * The part of `create` after the checks: the transaction, the read-back,
     * the classification, the health record's new status and the doctor's
     * notification.
     */
    method Record(memberId: UserId, h: HealthRecordId, dto: CreateHealthRecord, indexBmi: string,
                  labels: Labels, today: Day) returns (summary: DaySummary)
      requires Valid()
      requires memberId in patients && patients[memberId].healthRecord == Some(h)
      modifies this
      ensures Valid()
      ensures patients == old(patients)
      ensures var p := old(patients)[memberId];
        var status := StatusFor(AbnormalCount(labels));
        && (rows, nextRowId) == WriteRows(old(rows), old(nextRowId), h, today, WriteOrder, dto, indexBmi, memberId)
        && healthRecords == old(healthRecords)[h := old(healthRecords)[h].(status := status)]
        && notifications == old(notifications) +
             [Notification(WarningType, HealthWarning, p.doctorId, p.fullName, Message(labels), false)]
        && summary == DaySummary(h, today, indexBmi, labels.bmi, dto.cholesterol, labels.cholesterol,
                                 dto.heartRateIndicator, labels.heartBeat, dto.glucose, labels.glucose,
                                 dto.systolic, dto.diastolic, labels.bloodPressure, status)
        && summary.status == healthRecords[h].status
        && FindHealthRecordDay(memberId, today) ==
             Success(DayView(h, Value(dto.height), Value(dto.weight), Value(indexBmi), Value(today),
                             Value(dto.heartRateIndicator), Value(dto.systolic), Value(dto.diastolic),
                             Value(dto.glucose), Value(dto.cholesterol)))
    {
      WriteDay(h, today, dto, indexBmi, memberId);
      WriteDayThenView(old(rows), old(nextRowId), h, today, dto, indexBmi, memberId);
      WriteDayReadings(old(rows), old(nextRowId), h, today, dto, indexBmi, memberId);

      // Read today's rows back, then classify.
      var bmi := rows[RowKey(Bmi, h, today)].reading;
      var cholesterol := rows[RowKey(Cholesterol, h, today)].reading;
      var heartbeat := rows[RowKey(HeartBeat, h, today)].reading;
      var glucose := rows[RowKey(Glucose, h, today)].reading;
      var bloodPressure := rows[RowKey(BloodPressure, h, today)].reading;
      var status := Assess(memberId, h, labels);

      summary := DaySummary(
        h, today, bmi.indexBmi, labels.bmi, cholesterol.cholesterol, labels.cholesterol,
        heartbeat.heartRateIndicator, labels.heartBeat, glucose.glucose, labels.glucose,
        bloodPressure.systolic, bloodPressure.diastolic, labels.bloodPressure, status);
    }

    /**
     * Classify the labels, store the banded status on the health record and
     * notify the patient's doctor with the flagged metrics.
     */
    method Assess(memberId: UserId, h: HealthRecordId, labels: Labels) returns (status: Status)
      requires Valid()
      requires memberId in patients && patients[memberId].healthRecord == Some(h)
      modifies this
      ensures Valid()
      ensures patients == old(patients) && rows == old(rows) && nextRowId == old(nextRowId)
      ensures status == StatusFor(AbnormalCount(labels))
      ensures healthRecords == old(healthRecords)[h := old(healthRecords)[h].(status := status)]
      ensures notifications == old(notifications) +
        [Notification(WarningType, HealthWarning, patients[memberId].doctorId, patients[memberId].fullName,
                      Message(labels), false)]
    {
      var patient := patients[memberId];
      var num, str := Classify(labels);
      status := StatusFor(num);
      LinkedStatusUpdate(patients, healthRecords, h, status);
      healthRecords := healthRecords[h := healthRecords[h].(status := status)];
      notifications := notifications +
        [Notification(WarningType, HealthWarning, patient.doctorId, patient.fullName, str, false)];
    }
  }
}
