/** Schema-driven validation of the ingested train and test frames
    (`DataValidation` in components/data_validation.py).

    The validator owns one report record. Each call of `ValidateSchema` walks
    the schema's columns in order, stops at the first column that fails, and
    writes the report only when every column passed. `ValidateData` runs it on
    the train frame and then on the test frame against the same report. */
module Validation {
  import opened Outcomes
  import opened Frames

  // ---------------------------------------------------------------------
  // Column-name normalisation
  // ---------------------------------------------------------------------

  predicate IsUpper(c: char)
  {
    'A' <= c <= 'Z'
  }

  /** `str.lower` on one character, for the ASCII letters. */
  function LowerChar(c: char): char
  {
    if IsUpper(c) then (c as int + 32) as char else c
  }

  /** `str.lower` */
  function Lower(s: string): (r: string)
    ensures |r| == |s|
    ensures forall i :: 0 <= i < |s| ==> r[i] == LowerChar(s[i])
  {
    if |s| == 0 then [] else [LowerChar(s[0])] + Lower(s[1..])
  }

  /** `str.replace(from, to)` for one-character arguments. */
  function Replace(s: string, from: char, to: char): (r: string)
    ensures |r| == |s|
    ensures forall i :: 0 <= i < |s| ==> r[i] == (if s[i] == from then to else s[i])
  {
    if |s| == 0 then []
    else [if s[0] == from then to else s[0]] + Replace(s[1..], from, to)
  }

  /** A header as it leaves `transform_column_names`: lower case, no spaces. */
  function NormalizeName(name: string): (r: string)
    ensures |r| == |name|
    ensures forall i :: 0 <= i < |name| ==>
      r[i] == (if name[i] == ' ' then '_' else LowerChar(name[i]))
    ensures IsNormal(r)
  {
    Replace(Lower(name), ' ', '_')
  }

  /** A name with no space and no upper-case ASCII letter. */
  predicate IsNormal(name: string)
  {
    forall i :: 0 <= i < |name| ==> name[i] != ' ' && !IsUpper(name[i])
  }

  /** Normalisation leaves exactly the normal names unchanged. */
  lemma NormalizeFixesExactlyNormal(name: string)
    ensures NormalizeName(name) == name <==> IsNormal(name)
  {
    if IsNormal(name) {
      assert forall i :: 0 <= i < |name| ==> NormalizeName(name)[i] == name[i];
    }
  }

  /** Normalising twice is normalising once. */
  lemma NormalizeIdempotent(name: string)
    ensures NormalizeName(NormalizeName(name)) == NormalizeName(name)
  {
    NormalizeFixesExactlyNormal(NormalizeName(name));
  }

  /** `transform_column_names`: every header normalised, in place. */
  function TransformColumnNames(df: Frame): (r: Frame)
    ensures |r| == |df|
    ensures forall i :: 0 <= i < |df| ==>
      r[i] == df[i].(name := NormalizeName(df[i].name))
    ensures forall i :: 0 <= i < |r| ==> IsNormal(r[i].name)
  {
    if |df| == 0 then []
    else [df[0].(name := NormalizeName(df[0].name))] + TransformColumnNames(df[1..])
  }

  /** Transforming an already transformed frame changes nothing. */
  lemma TransformIdempotent(df: Frame)
    ensures TransformColumnNames(TransformColumnNames(df)) == TransformColumnNames(df)
  {
    var once := TransformColumnNames(df);
    forall i | 0 <= i < |once|
      ensures TransformColumnNames(once)[i] == once[i]
    {
      NormalizeIdempotent(df[i].name);
    }
  }

  // ---------------------------------------------------------------------
  // Schema and report
  // ---------------------------------------------------------------------

  /** One entry of the schema's `columns` mapping. Either key may be absent. */
  datatype ColumnSpec = ColumnSpec(
    name: string,
    dataType: Option<string>,
    allowedUniqueValues: Option<seq<Value>>)

  /** The loaded schema file; `columns` is None when the key is missing. */
  datatype Schema = Schema(columns: Option<seq<ColumnSpec>>)

  /** Python truthiness of the `data_type` entry. */
  predicate Truthy(dataType: Option<string>)
  {
    dataType.Some? && dataType.value != ""
  }

  /** `set(column_data.get("allowed_unique_values", []))` */
  function AllowedSet(spec: ColumnSpec): (r: set<Value>)
    ensures spec.allowedUniqueValues.None? ==> r == {}
    ensures spec.allowedUniqueValues.Some? ==>
      && |r| <= |spec.allowedUniqueValues.value|
      && forall v :: v in r <==> v in spec.allowedUniqueValues.value
  {
    match spec.allowedUniqueValues
    case None => {}
    case Some(vs) => ValueSet(vs)
  }

  datatype Status = Pending | Passed | Failed

  datatype Summary = Summary(
    totalColumnsChecked: nat,
    columnsPassed: nat,
    columnsFailed: nat)

  /** The three recorded failures, with the data their messages print. */
  datatype ValidationError =
    | MissingColumn(column: string)
    | TypeMismatch(column: string, actual: string, expected: string)
    | UnexpectedValues(column: string, observed: set<Value>, allowed: set<Value>)

  /** The errors `validate_schema` raises rather than records. */
  datatype Fault =
    | NoExpectedColumns
    | AmbiguousColumn(column: string)

  /** The validation report; `details` maps a column to its `status` entry. */
  datatype Report = Report(
    schemaVersion: real,
    validationDate: string,
    validationStatus: Status,
    summary: Summary,
    details: map<string, Status>,
    errors: seq<ValidationError>)

  /** The report as the validator's constructor builds it; the timestamp is
      taken from the clock, so it is a parameter here. */
  function NewReport(validationDate: string): (r: Report)
    ensures NoFailures(r)
    ensures r.schemaVersion == 1.0
    ensures r.validationStatus == Pending && r.validationDate == validationDate
    ensures r.summary == Summary(0, 0, 0) && r.details == map[] && r.errors == []
  {
    Report(1.0, validationDate, Pending, Summary(0, 0, 0), map[], [])
  }

  /** No column was ever counted as failed or given status Failed. */
  predicate NoFailures(rep: Report)
  {
    && rep.summary.columnsFailed == 0
    && forall n :: n in rep.details ==> rep.details[n] != Failed
  }

  // ---------------------------------------------------------------------
  // One column
  // ---------------------------------------------------------------------

  /** The outcome of the three checks on one schema column. */
  datatype ColumnCheck = Ok | Fail(error: ValidationError) | Raise(fault: Fault)

  /** Every cell of the column lies in the allowed set. */
  predicate ValuesAllowed(spec: ColumnSpec, col: Column)
  {
    forall i :: 0 <= i < |col.values| ==> col.values[i] in AllowedSet(spec)
  }

  /** Presence, dtype and allowed values, in that order. When the name matches
      two frame columns, pandas hands back a frame rather than a column and the
      next attribute access raises, with or without a `data_type`. */
  function CheckColumn(spec: ColumnSpec, df: Frame): (c: ColumnCheck)
    ensures c.Fail? ==> c.error.column == spec.name
  {
    if !HasColumn(df, spec.name) then Fail(MissingColumn(spec.name))
    else if Occurrences(df, spec.name) > 1 then Raise(AmbiguousColumn(spec.name))
    else
      var col := Find(df, spec.name);
      if Truthy(spec.dataType) && col.dtype != spec.dataType.value then
        Fail(TypeMismatch(spec.name, col.dtype, spec.dataType.value))
      else if !(DistinctValues(col) <= AllowedSet(spec)) then
        Fail(UnexpectedValues(spec.name, DistinctValues(col), AllowedSet(spec)))
      else Ok
  }

  /** When each check fails, raises or passes: the dtype test decides before
      the value test, and each error carries what its message prints. */
  lemma CheckColumnOutcomes(spec: ColumnSpec, df: Frame)
    ensures var c := CheckColumn(spec, df);
      && (c.Fail? && c.error.MissingColumn? <==> !HasColumn(df, spec.name))
      && (c.Raise? <==> Occurrences(df, spec.name) > 1)
      && (c.Fail? && c.error.TypeMismatch? <==>
            && Occurrences(df, spec.name) == 1
            && Truthy(spec.dataType)
            && Find(df, spec.name).dtype != spec.dataType.value)
      && (c.Fail? && c.error.TypeMismatch? ==>
            c.error.actual == Find(df, spec.name).dtype && c.error.expected == spec.dataType.value)
      && (c.Fail? && c.error.UnexpectedValues? ==>
            c.error.observed == DistinctValues(Find(df, spec.name)) && c.error.allowed == AllowedSet(spec))
      && (c == Ok <==>
            && Occurrences(df, spec.name) == 1
            && (Truthy(spec.dataType) ==> Find(df, spec.name).dtype == spec.dataType.value)
            && ValuesAllowed(spec, Find(df, spec.name)))
  {
  }

  /** A column whose spec lists no allowed values passes only when it is empty. */
  lemma MissingAllowedListRejectsValues(spec: ColumnSpec, df: Frame)
    requires spec.allowedUniqueValues.None? && HasColumn(df, spec.name)
    requires |Find(df, spec.name).values| > 0
    ensures CheckColumn(spec, df) != Ok
  {
    assert Find(df, spec.name).values[0] !in AllowedSet(spec);
  }

  /** The outcome of each schema column's checks, in schema order. */
  function Checks(cols: seq<ColumnSpec>, df: Frame): (cs: seq<ColumnCheck>)
    ensures |cs| == |cols|
  {
    if |cols| == 0 then [] else [CheckColumn(cols[0], df)] + Checks(cols[1..], df)
  }

  /** Outcome `i` is the result of checking schema column `i`. */
  lemma {:induction false} ChecksAt(cols: seq<ColumnSpec>, df: Frame)
    ensures forall i :: 0 <= i < |cols| ==> Checks(cols, df)[i] == CheckColumn(cols[i], df)
    decreases |cols|
  {
    if |cols| > 0 {
      ChecksAt(cols[1..], df);
      assert forall i :: 1 <= i < |cols| ==> cols[i] == cols[1..][i - 1];
    }
  }

  /** The index of the first outcome that is not a pass, or the number of
      outcomes when all pass. */
  function FirstFailure(cs: seq<ColumnCheck>): (k: nat)
    ensures k <= |cs|
    ensures forall i :: 0 <= i < k ==> cs[i] == Ok
    ensures k < |cs| ==> cs[k] != Ok
  {
    if |cs| == 0 || cs[0] != Ok then 0
    else
      var k := FirstFailure(cs[1..]);
      assert forall i :: 1 <= i <= k ==> cs[i] == cs[1..][i - 1];
      1 + k
  }

  /** The index of the first schema column whose check does not pass on
      `df`, or the number of columns when all pass. */
  function FailureIndex(cols: seq<ColumnSpec>, df: Frame): (k: nat)
    ensures k <= |cols|
  {
    FirstFailure(Checks(cols, df))
  }

  /** Every column before the failure index passes; the one at it does not. */
  lemma FailureIndexIsFirst(cols: seq<ColumnSpec>, df: Frame)
    ensures var k := FailureIndex(cols, df);
      && (forall i :: 0 <= i < k ==> CheckColumn(cols[i], df) == Ok)
      && (k < |cols| ==> CheckColumn(cols[k], df) != Ok)
  {
    ChecksAt(cols, df);
  }

  /** The names of the first `k` schema columns. */
  function PrefixNames(cols: seq<ColumnSpec>, k: nat): (ns: set<string>)
    requires k <= |cols|
    ensures forall i :: 0 <= i < k ==> cols[i].name in ns
    ensures forall n :: n in ns ==> exists i :: 0 <= i < k && cols[i].name == n
  {
    if k == 0 then {}
    else
      var rest := PrefixNames(cols[1..], k - 1);
      assert forall i :: 1 <= i < k ==> cols[i] == cols[1..][i - 1];
      assert forall n :: n in rest ==> exists i :: 0 <= i < k && cols[i].name == n by {
        forall n | n in rest ensures exists i :: 0 <= i < k && cols[i].name == n {
          var j :| 0 <= j < k - 1 && cols[1..][j].name == n;
          assert cols[j + 1].name == n;
        }
      }
      {cols[0].name} + rest
  }

  // ---------------------------------------------------------------------
  // The column walk
  // ---------------------------------------------------------------------

  /** The bookkeeping after a column's checks. `checkPassed` is `validate_schema`'s
      per-column flag; both branches are kept, although the walk only ever
      reaches this point with the flag still set. */
  function RecordColumn(rep: Report, name: string, checkPassed: bool): (r: Report)
    ensures r.summary.totalColumnsChecked == rep.summary.totalColumnsChecked + 1
    ensures r.summary.columnsPassed == rep.summary.columnsPassed + (if checkPassed then 1 else 0)
    ensures r.summary.columnsFailed == rep.summary.columnsFailed + (if checkPassed then 0 else 1)
    ensures r.details.Keys == rep.details.Keys + {name}
    ensures r.details[name] == (if checkPassed then Passed else Failed)
    ensures forall n :: n in rep.details && n != name ==> r.details[n] == rep.details[n]
    ensures r.errors == rep.errors && r.validationStatus == rep.validationStatus
    ensures r.schemaVersion == rep.schemaVersion && r.validationDate == rep.validationDate
  {
    var s := rep.summary.(totalColumnsChecked := rep.summary.totalColumnsChecked + 1);
    if checkPassed then
      rep.(summary := s.(columnsPassed := s.columnsPassed + 1),
           details := rep.details[name := Passed])
    else
      rep.(summary := s.(columnsFailed := s.columnsFailed + 1),
           details := rep.details[name := Failed])
  }

  datatype Verdict = Valid | Invalid | Raised(fault: Fault)

  /** The loop of `validate_schema` over the schema columns, before the final
      status update and write. `cs[i]` is the outcome of column `i`'s checks. */
  function Walk(cols: seq<ColumnSpec>, cs: seq<ColumnCheck>, rep: Report): (o: (Verdict, Report))
    requires |cs| == |cols|
    ensures var k := FirstFailure(cs);
      && o.1.summary.totalColumnsChecked == rep.summary.totalColumnsChecked + k
      && o.1.summary.columnsPassed == rep.summary.columnsPassed + k
      && o.1.summary.columnsFailed == rep.summary.columnsFailed
      && (o.0 == Valid <==> k == |cols|)
      && (k == |cols| ==> o.1.errors == rep.errors)
      && (k < |cols| && cs[k].Fail? ==> o.0 == Invalid && o.1.errors == rep.errors + [cs[k].error])
      && (k < |cols| && cs[k].Raise? ==> o.0 == Raised(cs[k].fault) && o.1.errors == rep.errors)
    ensures o.1.validationStatus == rep.validationStatus
    ensures NoFailures(rep) ==> NoFailures(o.1)
    ensures o.1.schemaVersion == rep.schemaVersion && o.1.validationDate == rep.validationDate
    decreases |cols|
  {
    if |cols| == 0 then (Valid, rep)
    else
      match cs[0]
      case Fail(e) => (Invalid, rep.(errors := rep.errors + [e]))
      case Raise(f) => (Raised(f), rep)
      case Ok =>
        var next := RecordColumn(rep, cols[0].name, true);
        var o := Walk(cols[1..], cs[1..], next);
        assert FirstFailure(cs) == 1 + FirstFailure(cs[1..]);
        o
  }

  /** The detail entries after the walk: the columns before the first
      failure are "Passed", every other entry is as it was. */
  lemma WalkDetails(cols: seq<ColumnSpec>, cs: seq<ColumnCheck>, rep: Report)
    requires |cs| == |cols|
    ensures var k := FirstFailure(cs);
      var d := Walk(cols, cs, rep).1.details;
      && d.Keys == rep.details.Keys + PrefixNames(cols, k)
      && (forall i :: 0 <= i < k ==> cols[i].name in d && d[cols[i].name] == Passed)
      && (forall n :: n in rep.details && n !in PrefixNames(cols, k) ==> d[n] == rep.details[n])
  {
    WalkDetailKeys(cols, cs, rep);
    WalkDetailsPassed(cols, cs, rep);
    WalkDetailsUntouched(cols, cs, rep);
  }

  /** The detail keys after a walk: the prior keys plus the passing prefix. */
  lemma {:induction false} WalkDetailKeys(cols: seq<ColumnSpec>, cs: seq<ColumnCheck>, rep: Report)
    requires |cs| == |cols|
    ensures Walk(cols, cs, rep).1.details.Keys
         == rep.details.Keys + PrefixNames(cols, FirstFailure(cs))
    decreases |cols|
  {
    if |cols| > 0 && cs[0] == Ok {
      var next := RecordColumn(rep, cols[0].name, true);
      WalkDetailKeys(cols[1..], cs[1..], next);
      assert Walk(cols, cs, rep) == Walk(cols[1..], cs[1..], next);
    }
  }

  /** Every column of the passing prefix is recorded as "Passed". */
  lemma {:induction false} WalkDetailsPassed(cols: seq<ColumnSpec>, cs: seq<ColumnCheck>, rep: Report)
    requires |cs| == |cols|
    ensures var d := Walk(cols, cs, rep).1.details;
      forall i :: 0 <= i < FirstFailure(cs) ==> cols[i].name in d && d[cols[i].name] == Passed
    decreases |cols|
  {
    if |cols| > 0 && cs[0] == Ok {
      var rest := cols[1..];
      var next := RecordColumn(rep, cols[0].name, true);
      WalkDetailsPassed(rest, cs[1..], next);
      WalkDetailsUntouched(rest, cs[1..], next);
      var k := FirstFailure(cs[1..]);
      var d := Walk(rest, cs[1..], next).1.details;
      assert Walk(cols, cs, rep).1.details == d;
      assert cols[0].name in d && d[cols[0].name] == Passed by {
        if cols[0].name in PrefixNames(rest, k) {
          var j :| 0 <= j < k && rest[j].name == cols[0].name;
        }
      }
      forall i | 1 <= i < k + 1
        ensures cols[i].name in d && d[cols[i].name] == Passed
      {
        assert cols[i] == rest[i - 1];
      }
    }
  }

  /** A detail entry outside the passing prefix keeps its prior value. */
  lemma {:induction false} WalkDetailsUntouched(cols: seq<ColumnSpec>, cs: seq<ColumnCheck>, rep: Report)
    requires |cs| == |cols|
    ensures var d := Walk(cols, cs, rep).1.details;
      forall n :: n in rep.details && n !in PrefixNames(cols, FirstFailure(cs)) ==>
        n in d && d[n] == rep.details[n]
    decreases |cols|
  {
    if |cols| > 0 && cs[0] == Ok {
      var next := RecordColumn(rep, cols[0].name, true);
      WalkDetailsUntouched(cols[1..], cs[1..], next);
      assert Walk(cols, cs, rep) == Walk(cols[1..], cs[1..], next);
    }
  }

  /** What one call of `validate_schema` leaves behind: its verdict, the
      report in its state afterwards, and the reports written to storage. */
  datatype Run = Run(verdict: Verdict, report: Report, written: seq<Report>)

  /** `validate_schema` */
  function ValidateSchema(schema: Schema, df: Frame, rep: Report): (o: Run)
    ensures schema.columns.None? || |schema.columns.value| == 0 ==>
      o == Run(Raised(NoExpectedColumns), rep, [])
    ensures schema.columns.Some? && |schema.columns.value| > 0 ==>
      var cols := schema.columns.value;
      var k := FailureIndex(cols, df);
      && (o.verdict == Valid <==> k == |cols|)
      && o.report.summary.totalColumnsChecked == rep.summary.totalColumnsChecked + k
      && o.report.summary.columnsPassed == rep.summary.columnsPassed + k
      && (o.verdict == Valid ==>
            && o.written == [o.report]
            && o.report.validationStatus == Passed
            && o.report.errors == rep.errors
            && forall i :: 0 <= i < |cols| ==>
                 cols[i].name in o.report.details && o.report.details[cols[i].name] == Passed)
      && (o.verdict != Valid ==>
            && o.written == []
            && o.report.validationStatus == rep.validationStatus)
      && (o.verdict == Invalid ==>
            && CheckColumn(cols[k], df).Fail?
            && o.report.errors == rep.errors + [CheckColumn(cols[k], df).error]
            && o.report.errors[|rep.errors|].column == cols[k].name)
      && (o.verdict.Raised? ==>
            && CheckColumn(cols[k], df) == Raise(o.verdict.fault)
            && o.report.errors == rep.errors)
    ensures schema.columns.Some? && |schema.columns.value| > 0 ==>
      var cols := schema.columns.value;
      var k := FailureIndex(cols, df);
      && o.report.details.Keys == rep.details.Keys + PrefixNames(cols, k)
      && (forall i :: 0 <= i < k ==> o.report.details[cols[i].name] == Passed)
      && (forall n :: n in rep.details && n !in PrefixNames(cols, k) ==> o.report.details[n] == rep.details[n])
    ensures o.report.schemaVersion == rep.schemaVersion && o.report.validationDate == rep.validationDate
    ensures o.report.summary.columnsFailed == rep.summary.columnsFailed
    ensures NoFailures(rep) ==> NoFailures(o.report)
  {
    if schema.columns.None? || |schema.columns.value| == 0 then
      Run(Raised(NoExpectedColumns), rep, [])
    else
      var cols := schema.columns.value;
      var cs := Checks(cols, df);
      ChecksAt(cols, df);
      var (verdict, walked) := Walk(cols, cs, rep);
      WalkDetails(cols, cs, rep);
      if verdict == Valid then
        var final := walked.(validationStatus := Passed);
        Run(Valid, final, [final])
      else Run(verdict, walked, [])
  }

  /** Columns after the first failing one are never looked at: changing them
      does not change anything `validate_schema` produces. */
  lemma NoLaterColumnExamined(cols: seq<ColumnSpec>, cols': seq<ColumnSpec>, df: Frame, rep: Report)
    requires FailureIndex(cols, df) < |cols|
    requires |cols'| > FailureIndex(cols, df)
    requires forall i :: 0 <= i <= FailureIndex(cols, df) ==> cols'[i] == cols[i]
    ensures ValidateSchema(Schema(Some(cols')), df, rep) == ValidateSchema(Schema(Some(cols)), df, rep)
  {
    var cs, cs' := Checks(cols, df), Checks(cols', df);
    ChecksAt(cols, df);
    ChecksAt(cols', df);
    WalkPrefix(cols, cs, cols', cs', rep);
  }

  /** Two walks that agree up to and including the first failure agree. */
  lemma {:induction false} WalkPrefix(
    cols: seq<ColumnSpec>, cs: seq<ColumnCheck>, cols': seq<ColumnSpec>, cs': seq<ColumnCheck>, rep: Report)
    requires |cs| == |cols| && |cs'| == |cols'|
    requires FirstFailure(cs) < |cs| && FirstFailure(cs) < |cs'|
    requires forall i :: 0 <= i <= FirstFailure(cs) ==> cols'[i] == cols[i] && cs'[i] == cs[i]
    ensures Walk(cols', cs', rep) == Walk(cols, cs, rep)
    decreases |cols|
  {
    var k := FirstFailure(cs);
    assert cols'[0] == cols[0] && cs'[0] == cs[0];
    if cs[0] == Ok {
      var next := RecordColumn(rep, cols[0].name, true);
      assert forall i :: 0 <= i <= k - 1 ==>
        cols'[1..][i] == cols'[i + 1] && cols[1..][i] == cols[i + 1] &&
        cs'[1..][i] == cs'[i + 1] && cs[1..][i] == cs[i + 1];
      WalkPrefix(cols[1..], cs[1..], cols'[1..], cs'[1..], next);
      assert Walk(cols', cs', rep) == Walk(cols'[1..], cs'[1..], next);
    }
  }

  // ---------------------------------------------------------------------
  // Train, then test
  // ---------------------------------------------------------------------

  /** Where the validated frames are saved. */
  datatype ValidationArtifact = ValidationArtifact(validatedTrain: Frame, validatedTest: Frame)

  /** The effect of `validate_data`: the artifact or the raised error, the
      shared report afterwards, and every report written on the way. */
  datatype DataRun = DataRun(
    result: Result<ValidationArtifact, Fault>,
    report: Report,
    written: seq<Report>)

  /** The first column of `cols` that does not pass on `df` raised. */
  predicate Raises(cols: seq<ColumnSpec>, df: Frame)
  {
    var cs := Checks(cols, df);
    FirstFailure(cs) < |cs| && cs[FirstFailure(cs)].Raise?
  }

  function Indicator(b: bool): nat
  {
    if b then 1 else 0
  }

  /** `validate_data`: normalise and validate the train frame, then the test
      frame, with one report; save both whatever the verdicts were. */
  function ValidateData(schema: Schema, train: Frame, test: Frame, rep: Report): (o: DataRun)
    ensures schema.columns.None? || |schema.columns.value| == 0 ==>
      o == DataRun(Failure(NoExpectedColumns), rep, [])
    ensures schema.columns.Some? && |schema.columns.value| > 0 ==>
      var cols := schema.columns.value;
      var tr := TransformColumnNames(train);
      var te := TransformColumnNames(test);
      && (o.result.Success? <==> !Raises(cols, tr) && !Raises(cols, te))
      && (o.result.Success? ==> o.result.value == ValidationArtifact(tr, te))
    ensures schema.columns.Some? && |schema.columns.value| > 0 ==>
      var cols := schema.columns.value;
      var tr := TransformColumnNames(train);
      var te := TransformColumnNames(test);
      var first := ValidateSchema(schema, tr, rep);
      var second := ValidateSchema(schema, te, first.report);
      && (Raises(cols, tr) ==>
            && o.result.Failure? && first.verdict == Raised(o.result.error)
            && o.report == first.report && o.written == [])
      && (!Raises(cols, tr) ==>
            && o.report == second.report && o.written == first.written + second.written
            && (Raises(cols, te) ==> o.result.Failure? && second.verdict == Raised(o.result.error)))
    ensures o.report.summary.columnsFailed == rep.summary.columnsFailed
    ensures NoFailures(rep) ==> NoFailures(o.report)
  {
    var tr := TransformColumnNames(train);
    var first := ValidateSchema(schema, tr, rep);
    if first.verdict.Raised? then DataRun(Failure(first.verdict.fault), first.report, first.written)
    else
      var te := TransformColumnNames(test);
      var second := ValidateSchema(schema, te, first.report);
      if second.verdict.Raised? then
        DataRun(Failure(second.verdict.fault), second.report, first.written + second.written)
      else
        DataRun(Success(ValidationArtifact(tr, te)), second.report, first.written + second.written)
  }

  /** When neither run raises, the shared report adds up both runs: the
      counters grow by both failure indexes, the errors are the earlier ones
      followed by the train run's error and then the test run's, if any,
      and each valid run contributes one write. */
  lemma ValidateDataAccumulates(schema: Schema, train: Frame, test: Frame, rep: Report)
    requires schema.columns.Some? && |schema.columns.value| > 0
    requires ValidateData(schema, train, test, rep).result.Success?
    ensures var cols := schema.columns.value;
      var o := ValidateData(schema, train, test, rep);
      var k1 := FailureIndex(cols, TransformColumnNames(train));
      var k2 := FailureIndex(cols, TransformColumnNames(test));
      && o.report.summary.totalColumnsChecked == rep.summary.totalColumnsChecked + k1 + k2
      && o.report.summary.columnsPassed == rep.summary.columnsPassed + k1 + k2
      && o.report.errors == rep.errors + FailureError(cols, TransformColumnNames(train)) + FailureError(cols, TransformColumnNames(test))
      && |o.report.errors| == |rep.errors| + Indicator(k1 < |cols|) + Indicator(k2 < |cols|)
      && |o.written| == Indicator(k1 == |cols|) + Indicator(k2 == |cols|)
  {
    var tr, te := TransformColumnNames(train), TransformColumnNames(test);
    var first := ValidateSchema(schema, tr, rep);
    var second := ValidateSchema(schema, te, first.report);
    var o := ValidateData(schema, train, test, rep);
    assert o.report == second.report && o.written == first.written + second.written;
    RunErrors(schema, tr, rep);
    RunErrors(schema, te, first.report);
  }

  /** A run that does not raise appends one error exactly when it is invalid,
      after the errors already there, and writes once exactly when valid. */
  lemma RunErrors(schema: Schema, df: Frame, rep: Report)
    requires schema.columns.Some? && |schema.columns.value| > 0
    requires !ValidateSchema(schema, df, rep).verdict.Raised?
    ensures var o := ValidateSchema(schema, df, rep);
      var k := FailureIndex(schema.columns.value, df);
      && o.report.errors == rep.errors + FailureError(schema.columns.value, df)
      && |o.report.errors| == |rep.errors| + Indicator(k < |schema.columns.value|)
      && |o.written| == Indicator(k == |schema.columns.value|)
  {
  }

  /** The error the first failing column records, if it failed rather than
      raised; nothing when every column passes. */
  function FailureError(cols: seq<ColumnSpec>, df: Frame): seq<ValidationError>
  {
    var k := FailureIndex(cols, df);
    if k < |cols| then
      match CheckColumn(cols[k], df)
      case Fail(e) => [e]
      case _ => []
    else []
  }

  /** From a fresh report, however the two frames fare, no column is ever
      counted as failed and no detail is ever marked Failed. */
  lemma FreshReportNeverRecordsFailure(schema: Schema, train: Frame, test: Frame, date: string)
    ensures NoFailures(ValidateData(schema, train, test, NewReport(date)).report)
  {
  }

  /** A schema asking for `age` (int64) and `country` (US or UK) against a
      frame that only has `age`: the run is invalid, records the missing
      column, counts `age` as passed and marks only it "Passed", and
      writes nothing. */
  lemma MissingCountryExample(date: string)
    ensures var age := ColumnSpec("age", Some("int64"), Some([Int(30), Int(40)]));
      var country := ColumnSpec("country", None, Some([Text("US"), Text("UK")]));
      var df := [Column("age", "int64", [Int(30)])];
      var o := ValidateSchema(Schema(Some([age, country])), df, NewReport(date));
      && o.verdict == Invalid
      && o.report.errors == [MissingColumn("country")]
      && o.report.summary == Summary(1, 1, 0)
      && o.report.details == map["age" := Passed]
      && o.written == []
  {
    var age := ColumnSpec("age", Some("int64"), Some([Int(30), Int(40)]));
    var country := ColumnSpec("country", None, Some([Text("US"), Text("UK")]));
    var df := [Column("age", "int64", [Int(30)])];
    ChecksAt([age, country], df);
    assert FailureIndex([age, country], df) == 1;
  }
}
