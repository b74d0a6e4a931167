/**
 * 05_langgraph_foundation.py, example 7: a data-processing pipeline wired
 * START -> load -> clean -> validate, then on route_validation either
 * `process` or `handle_invalid`, then END. A record is one line
 * "email, age, status". `errors` carries the `operator.add` reducer; the
 * other fields are overwritten.
 */
module DataPipeline {
  import opened Wrappers
  import opened Reducers
  import opened Text
  import opened Graph

  /** `processed_data`: the empty dictionary, or the parsed person. */
  datatype Processed = NoData | Person(email: string, age: int, status: string, category: string)

  datatype PipelineState = PipelineState(
    rawData: string,
    cleanedData: string,
    validated: bool,
    processedData: Processed,
    errors: seq<string>)

  datatype PipelineUpdate = PipelineUpdate(
    rawData: Option<string>,
    cleanedData: Option<string>,
    validated: Option<bool>,
    processedData: Option<Processed>,
    errors: Option<seq<string>>)

  const NoWrites := PipelineUpdate(None, None, None, None, None)

  function Apply(s: PipelineState, u: PipelineUpdate): PipelineState {
    PipelineState(
      Overwrite(s.rawData, u.rawData),
      Overwrite(s.cleanedData, u.cleanedData),
      Overwrite(s.validated, u.validated),
      Overwrite(s.processedData, u.processedData),
      Accumulate(s.errors, u.errors))
  }

  /** The line load_data returns: "user@example.com, 25, active" with two
      spaces on either side. */
  const SampleLine := "user@example.com, 25, active"
  const SampleRecord := "  " + SampleLine + "  "

  const FieldCountError := "Invalid data format: expected 3 fields"
  const EmailError := "Invalid email format"
  const AgeNotNumberError := "Age must be a number"
  const AgeRangeError := "Age out of valid range"

  /** load_data: the record is a fixed line. */
  function LoadData(s: PipelineState): PipelineUpdate {
    NoWrites.(rawData := Some(SampleRecord))
  }

  /** clean_data */
  function CleanData(s: PipelineState): PipelineUpdate {
    NoWrites.(cleanedData := Some(Strip(s.rawData)))
  }

  /** `[p.strip() for p in cleaned.split(",")]`: one field per
      comma-separated piece. */
  function Fields(cleaned: string): (fields: seq<string>)
    ensures |fields| == |Split(cleaned, ',')|
  {
    StripEach(Split(cleaned, ','))
  }

  function StripEach(parts: seq<string>): (stripped: seq<string>)
    ensures |stripped| == |parts|
    decreases |parts|
  {
    if |parts| == 0 then [] else [Strip(parts[0])] + StripEach(parts[1..])
  }

  /** Each field is the stripped piece at the same position, so no field
      starts or ends with whitespace. */
  lemma {:induction false} FieldsAreStrippedPieces(parts: seq<string>, i: nat)
    requires i < |parts|
    ensures StripEach(parts)[i] == Strip(parts[i])
    ensures var f := StripEach(parts)[i]; f == [] || (!IsSpace(f[0]) && !IsSpace(f[|f| - 1]))
    decreases i
  {
    if i > 0 {
      FieldsAreStrippedPieces(parts[1..], i - 1);
    }
  }

  function Reject(message: string): PipelineUpdate {
    NoWrites.(validated := Some(false), errors := Some([message]))
  }

  /** validate_data: writes only `validated` and `errors`; it either
      accepts, writing no error, or rejects with exactly one error. */
  function ValidateData(s: PipelineState): (u: PipelineUpdate)
    ensures u.rawData.None? && u.cleanedData.None? && u.processedData.None?
    ensures u.validated.Some?
    ensures u.validated == Some(true) <==> u.errors.None?
    ensures u.errors.Some? ==> |u.errors.value| == 1
  {
    var fields := Fields(s.cleanedData);
    if |fields| != 3 then Reject(FieldCountError)
    else if '@' !in fields[0] then Reject(EmailError)
    else
      match ParseInt(fields[1])
      case None => Reject(AgeNotNumberError)
      case Some(age) =>
        if age < 0 || age > 150 then Reject(AgeRangeError) else NoWrites.(validated := Some(true))
  }

  /** A record validate_data is meant to accept: three fields, an email
      containing `@`, an integer age between 0 and 150. */
  predicate WellFormed(cleaned: string) {
    var fields := Fields(cleaned);
    && |fields| == 3
    && '@' in fields[0]
    && ParseInt(fields[1]).Some?
    && 0 <= ParseInt(fields[1]).value <= 150
  }

  /** The checks run in a fixed order, field count, then email, then age,
      and the first one that fails names the error. The field count is
      wrong exactly when the line does not hold two commas. */
  lemma ValidateChecksInOrder(s: PipelineState)
    ensures var c := s.cleanedData;
            var fields := Fields(c);
            var u := ValidateData(s);
            && (multiset(c)[','] != 2 <==> |fields| != 3)
            && (|fields| != 3 ==> u.errors == Some([FieldCountError]))
            && (|fields| == 3 && '@' !in fields[0] ==> u.errors == Some([EmailError]))
            && (|fields| == 3 && '@' in fields[0] && ParseInt(fields[1]).None? ==> u.errors == Some([AgeNotNumberError]))
            && (|fields| == 3 && '@' in fields[0] && ParseInt(fields[1]).Some? && !(0 <= ParseInt(fields[1]).value <= 150) ==> u.errors == Some([AgeRangeError]))
  {
    SplitLength(s.cleanedData, ',');
  }

  /** validate_data accepts exactly the well-formed records. */
  lemma ValidateAcceptsWellFormed(s: PipelineState)
    ensures ValidateData(s).validated == Some(WellFormed(s.cleanedData))
  {
  }

  /** The category is "adult" exactly from 18 on, "minor" below. */
  function CategoryOf(age: int): (category: string)
    ensures category == "adult" <==> age >= 18
    ensures category == "minor" <==> age < 18
  {
    if age >= 18 then "adult" else "minor"
  }

  /** process_data: the three stripped fields with the age parsed and the
      category derived from it. Unpacking a line that does not split into
      three pieces, or `int()` on an age that is not a number, raises
      (`None`). */
  function ProcessData(s: PipelineState): Option<PipelineUpdate> {
    var fields := Fields(s.cleanedData);
    if |fields| != 3 then None
    else
      match ParseInt(fields[1])
      case None => None
      case Some(age) => Some(NoWrites.(processedData := Some(PersonFrom(fields, age))))
  }

  /** The dictionary process_data builds from the three fields and the
      parsed age. */
  function PersonFrom(fields: seq<string>, age: int): Processed
    requires |fields| == 3
  {
    Person(fields[0], age, fields[2], CategoryOf(age))
  }

  /** The record process_data builds from a well-formed line. */
  function PersonOf(cleaned: string): Processed
    requires WellFormed(cleaned)
  {
    PersonFrom(Fields(cleaned), ParseInt(Fields(cleaned)[1]).value)
  }

  /** A record that passed validation is processed without raising: the
      email keeps its `@`, the age is in range, status is copied and the
      category agrees with the age. Only `processed_data` is written. */
  lemma ValidatedRecordIsProcessed(s: PipelineState)
    requires ValidateData(s).validated == Some(true)
    ensures ProcessData(s).Some?
    ensures ProcessData(s).value == NoWrites.(processedData := Some(PersonOf(s.cleanedData)))
    ensures var p := PersonOf(s.cleanedData);
            && p.email == Fields(s.cleanedData)[0] && '@' in p.email
            && p.status == Fields(s.cleanedData)[2]
            && 0 <= p.age <= 150
            && (p.category == "adult" <==> p.age >= 18)
  {
  }

  /** handle_invalid_data */
  function HandleInvalidData(s: PipelineState): PipelineUpdate {
    NoWrites.(processedData := Some(NoData))
  }

  /** route_validation */
  function RouteValidation(s: PipelineState): Option<string> {
    Some(if s.validated then "valid" else "invalid")
  }

  datatype Node = Load | Clean | Validate | Process | HandleInvalid

  const ValidationRoutes: map<string, Target<Node>> := map["valid" := To(Process), "invalid" := To(HandleInvalid)]

  /** The function `add_node` registers under each name. */
  function NodeFunction(n: Node): PipelineState -> Option<PipelineUpdate> {
    match n
    case Load => s => Some(LoadData(s))
    case Clean => s => Some(CleanData(s))
    case Validate => s => Some(ValidateData(s))
    case Process => ProcessData
    case HandleInvalid => s => Some(HandleInvalidData(s))
  }

  function Step(n: Node, s: PipelineState): Option<PipelineUpdate> {
    NodeFunction(n)(s)
  }

  function Edges(n: Node): Edge<PipelineState, Node> {
    match n
    case Load => Direct(To(Clean))
    case Clean => Direct(To(Validate))
    case Validate => Conditional(RouteValidation, ValidationRoutes)
    case Process => Direct(End)
    case HandleInvalid => Direct(End)
  }

  function PipelineGraph(): Graph<PipelineState, PipelineUpdate, Node> {
    Graph(Step, Apply, Edges)
  }

  function Invoke(s: PipelineState, fuel: nat): Outcome<PipelineState, Node> {
    Run(PipelineGraph(), Load, s, fuel)
  }

  /** After validate, the router's key is always in the mapping, and leads
      to `process` exactly when the record was accepted. */
  lemma ValidationAlwaysRouted(s: PipelineState)
    ensures var t := Apply(s, ValidateData(s));
            && RouteValidation(t).Some?
            && RouteValidation(t).value in ValidationRoutes
            && (ValidationRoutes[RouteValidation(t).value] == To(Process) <==> WellFormed(s.cleanedData))
            && (ValidationRoutes[RouteValidation(t).value] == To(HandleInvalid) <==> !WellFormed(s.cleanedData))
  {
  }

  /** From `validate` on, for any cleaned line: a well-formed line ends
      processed with no new error; any other line ends with empty processed
      data and exactly the one error validation reported appended to the old
      ones. The raw and cleaned lines are never changed. */
  lemma PipelineFromValidate(s: PipelineState, spare: nat)
    ensures WellFormed(s.cleanedData) ==>
              Run(PipelineGraph(), Validate, s, spare + 2)
              == Done(s.(validated := true, processedData := PersonOf(s.cleanedData)), [Validate, Process])
    ensures !WellFormed(s.cleanedData) ==>
              && ValidateData(s).errors.Some?
              && Run(PipelineGraph(), Validate, s, spare + 2)
                 == Done(s.(validated := false, processedData := NoData, errors := s.errors + ValidateData(s).errors.value),
                         [Validate, HandleInvalid])
  {
    if WellFormed(s.cleanedData) {
      ValidFromValidate(s, spare);
    } else {
      InvalidFromValidate(s, spare);
    }
  }

  /** From `clean` on, for any raw line: the stripped line is stored and
      then validated, ending as `PipelineFromValidate` describes. */
  lemma PipelineFromClean(s: PipelineState, spare: nat)
    ensures WellFormed(Strip(s.rawData)) ==>
              Run(PipelineGraph(), Clean, s, spare + 3)
              == Done(s.(cleanedData := Strip(s.rawData), validated := true, processedData := PersonOf(Strip(s.rawData))),
                      [Clean, Validate, Process])
    ensures !WellFormed(Strip(s.rawData)) ==>
              && ValidateData(s.(cleanedData := Strip(s.rawData))).errors.Some?
              && Run(PipelineGraph(), Clean, s, spare + 3)
                 == Done(s.(cleanedData := Strip(s.rawData), validated := false, processedData := NoData,
                            errors := s.errors + ValidateData(s.(cleanedData := Strip(s.rawData))).errors.value),
                         [Clean, Validate, HandleInvalid])
  {
    assert [Clean] + [Validate, Process] == [Clean, Validate, Process];
    assert [Clean] + [Validate, HandleInvalid] == [Clean, Validate, HandleInvalid];
    CleanThenValidate(s, spare + 2);
    PipelineFromValidate(s.(cleanedData := Strip(s.rawData)), spare);
  }

  /** An accepted record only gains `validated`. */
  lemma AcceptedWrites(s: PipelineState)
    requires WellFormed(s.cleanedData)
    ensures Apply(s, ValidateData(s)) == s.(validated := true)
  {
    ValidateAcceptsWellFormed(s);
  }

  /** A rejected record gains `validated` false and the one error. */
  lemma RejectedWrites(s: PipelineState)
    requires !WellFormed(s.cleanedData)
    ensures ValidateData(s).errors.Some?
    ensures Apply(s, ValidateData(s)) == s.(validated := false, errors := s.errors + ValidateData(s).errors.value)
  {
    ValidateAcceptsWellFormed(s);
  }

  /** A well-formed line is processed and the run ends. */
  lemma ValidFromValidate(s: PipelineState, spare: nat)
    requires WellFormed(s.cleanedData)
    ensures Run(PipelineGraph(), Validate, s, spare + 2)
         == Done(s.(validated := true, processedData := PersonOf(s.cleanedData)), [Validate, Process])
  {
    assert [Validate] + [Process] == [Validate, Process];
    ValidateThenProcess(s, spare + 1);
    ProcessThenEnd(s.(validated := true), spare);
  }

  /** validate accepts a well-formed line and hands it to process. */
  lemma ValidateThenProcess(s: PipelineState, rest: nat)
    requires WellFormed(s.cleanedData)
    ensures Run(PipelineGraph(), Validate, s, rest + 1) == After(Validate, Run(PipelineGraph(), Process, s.(validated := true), rest))
  {
    AcceptedWrites(s);
    StepTo(PipelineGraph(), Validate, s, rest + 1, ValidateData(s), Process);
  }

  /** validate rejects any other line and hands it to handle_invalid. */
  lemma ValidateThenHandleInvalid(s: PipelineState, rest: nat)
    requires !WellFormed(s.cleanedData)
    ensures ValidateData(s).errors.Some?
    ensures Run(PipelineGraph(), Validate, s, rest + 1)
         == After(Validate, Run(PipelineGraph(), HandleInvalid,
                                s.(validated := false, errors := s.errors + ValidateData(s).errors.value), rest))
  {
    RejectedWrites(s);
    StepTo(PipelineGraph(), Validate, s, rest + 1, ValidateData(s), HandleInvalid);
  }

  /** Any other line is handled as invalid and the run ends. */
  lemma InvalidFromValidate(s: PipelineState, spare: nat)
    requires !WellFormed(s.cleanedData)
    ensures ValidateData(s).errors.Some?
    ensures Run(PipelineGraph(), Validate, s, spare + 2)
         == Done(s.(validated := false, processedData := NoData, errors := s.errors + ValidateData(s).errors.value),
                 [Validate, HandleInvalid])
  {
    assert [Validate] + [HandleInvalid] == [Validate, HandleInvalid];
    ValidateThenHandleInvalid(s, spare + 1);
    HandleInvalidThenEnd(s.(validated := false, errors := s.errors + ValidateData(s).errors.value), spare);
  }

  /** process runs on a well-formed line and the run ends. */
  lemma ProcessThenEnd(t: PipelineState, spare: nat)
    requires WellFormed(t.cleanedData)
    ensures Run(PipelineGraph(), Process, t, spare + 1) == Done(t.(processedData := PersonOf(t.cleanedData)), [Process])
  {
    var u := NoWrites.(processedData := Some(PersonOf(t.cleanedData)));
    assert ProcessData(t) == Some(u);
    assert Step(Process, t) == Some(u);
    assert Apply(t, u) == t.(processedData := PersonOf(t.cleanedData));
    StepToEnd(PipelineGraph(), Process, t, spare + 1, u);
  }

  /** handle_invalid runs and the run ends. */
  lemma HandleInvalidThenEnd(t: PipelineState, spare: nat)
    ensures Run(PipelineGraph(), HandleInvalid, t, spare + 1) == Done(t.(processedData := NoData), [HandleInvalid])
  {
    assert Apply(t, HandleInvalidData(t)) == t.(processedData := NoData);
    StepToEnd(PipelineGraph(), HandleInvalid, t, spare + 1, HandleInvalidData(t));
  }

  /** The fixed line strips to "user@example.com, 25, active". */
  lemma SampleRecordStripped()
    ensures Strip(SampleRecord) == SampleLine
  {
    StripPadded("  ", SampleLine, "  ");
  }

  /** The cleaned line splits into three pieces. */
  lemma SampleRecordSplit()
    ensures Split(SampleLine, ',') == ["user@example.com", " 25", " active"]
  {
    var pieces := ["user@example.com", " 25", " active"];
    assert Join(pieces[2..], ',') == " active";
    assert Join(pieces[1..], ',') == " 25" + [','] + " active";
    assert Join(pieces, ',') == SampleLine;
    assert ',' !in pieces[0] && ',' !in pieces[1] && ',' !in pieces[2];
    SplitJoin(pieces, ',');
  }

  /** Its stripped fields are the email, the age and the status. */
  lemma SampleRecordFields()
    ensures Fields(SampleLine) == ["user@example.com", "25", "active"]
  {
    SampleFieldsArePieces();
    SampleEmailStripped();
    SampleAgeStripped();
    SampleStatusStripped();
  }

  lemma SampleFieldsArePieces()
    ensures Fields(SampleLine) == [Strip("user@example.com"), Strip(" 25"), Strip(" active")]
  {
    SampleRecordSplit();
    ThreeFields(SampleLine, "user@example.com", " 25", " active");
  }

  /** A line of three comma-separated pieces has their stripped forms as fields. */
  lemma ThreeFields(line: string, a: string, b: string, c: string)
    requires Split(line, ',') == [a, b, c]
    ensures Fields(line) == [Strip(a), Strip(b), Strip(c)]
  {
    StripEachThree(a, b, c);
  }

  /** Stripping each of three pieces, one step at a time. */
  lemma StripEachThree(a: string, b: string, c: string)
    ensures StripEach([a, b, c]) == [Strip(a), Strip(b), Strip(c)]
  {
    assert [c][1..] == [];
    assert StripEach([c]) == [Strip(c)];
    assert [b, c][1..] == [c];
    assert StripEach([b, c]) == [Strip(b), Strip(c)];
    assert [a, b, c][1..] == [b, c];
  }

  lemma SampleEmailStripped()
    ensures Strip("user@example.com") == "user@example.com"
  {
    SamplePieceStripped("", "user@example.com", "user@example.com");
  }

  lemma SampleAgeStripped()
    ensures Strip(" 25") == "25"
  {
    SamplePieceStripped(" ", "25", " 25");
  }

  lemma SampleStatusStripped()
    ensures Strip(" active") == "active"
  {
    SamplePieceStripped(" ", "active", " active");
  }

  /** A piece made of at most one space and a field without whitespace at
      either end strips to that field. */
  lemma SamplePieceStripped(pad: string, field: string, piece: string)
    requires pad == "" || pad == " "
    requires |field| > 0 && !IsSpace(field[0]) && !IsSpace(field[|field| - 1])
    requires piece == pad + field
    ensures Strip(piece) == field
  {
    StripPadded(pad, field, "");
    assert pad + field + "" == pad + field;
  }

  lemma SampleAgeParsed()
    ensures ParseInt("25") == Some(25)
  {
    assert NatToString(25) == NatToString(2) + ['5'];
    assert IntToString(25) == "25";
    ParseIntToString(25);
  }

  /** The cleaned sample is well formed and yields an adult aged 25. */
  lemma SampleRecordWellFormed()
    ensures WellFormed(SampleLine)
    ensures PersonOf(SampleLine) == Person("user@example.com", 25, "active", "adult")
  {
    SampleRecordFields();
    SampleEmailHasAt();
    SampleAgeParsed();
  }

  lemma SampleEmailHasAt()
    ensures '@' in "user@example.com"
  {
    assert "user@example.com"[4] == '@';
  }

  /** The person the script's run produces. */
  const SamplePerson := Person("user@example.com", 25, "active", "adult")

  /** The script's run: whatever the initial state, the fixed line is
      cleaned, validated and processed into {email "user@example.com",
      age 25, status "active", category "adult"} with no error added. Any
      budget of at least four node executions suffices. */
  lemma PipelineExample(s: PipelineState, spare: nat)
    ensures Invoke(s, spare + 4) == Done(
              PipelineState(SampleRecord, SampleLine, true, SamplePerson, s.errors),
              [Load, Clean, Validate, Process])
  {
    assert [Load] + [Clean, Validate, Process] == [Load, Clean, Validate, Process];
    LoadThenClean(s, spare + 3);
    ExampleFromClean(s, spare);
  }

  /** From clean on, with the fixed line loaded. */
  lemma ExampleFromClean(s: PipelineState, spare: nat)
    ensures Run(PipelineGraph(), Clean, s.(rawData := SampleRecord), spare + 3)
         == Done(s.(rawData := SampleRecord, cleanedData := SampleLine, validated := true, processedData := SamplePerson),
                 [Clean, Validate, Process])
  {
    assert [Clean] + [Validate, Process] == [Clean, Validate, Process];
    SampleCleanStep(s, spare + 2);
    SampleFromValidate(s.(rawData := SampleRecord), spare);
  }

  /** clean hands the stripped fixed line to validate. */
  lemma SampleCleanStep(s: PipelineState, rest: nat)
    ensures Run(PipelineGraph(), Clean, s.(rawData := SampleRecord), rest + 1)
         == After(Clean, Run(PipelineGraph(), Validate, s.(rawData := SampleRecord, cleanedData := SampleLine), rest))
  {
    SampleRecordStripped();
    CleanThenValidate(s.(rawData := SampleRecord), rest);
  }

  /** clean stores the stripped raw line and hands the run to validate. */
  lemma CleanThenValidate(s: PipelineState, rest: nat)
    ensures Run(PipelineGraph(), Clean, s, rest + 1)
         == After(Clean, Run(PipelineGraph(), Validate, s.(cleanedData := Strip(s.rawData)), rest))
  {
    var u := CleanData(s);
    assert Step(Clean, s) == Some(u);
    assert Apply(s, u) == s.(cleanedData := Strip(s.rawData));
    StepTo(PipelineGraph(), Clean, s, rest + 1, u, Validate);
  }

  /** load runs first and hands the fixed line to clean. */
  lemma LoadThenClean(s: PipelineState, rest: nat)
    ensures Invoke(s, rest + 1) == After(Load, Run(PipelineGraph(), Clean, s.(rawData := SampleRecord), rest))
  {
    assert Apply(s, LoadData(s)) == s.(rawData := SampleRecord);
    StepTo(PipelineGraph(), Load, s, rest + 1, LoadData(s), Clean);
  }

  /** From validate on, with the fixed line cleaned. */
  lemma SampleFromValidate(s: PipelineState, spare: nat)
    ensures Run(PipelineGraph(), Validate, s.(cleanedData := SampleLine), spare + 2)
         == Done(s.(cleanedData := SampleLine, validated := true, processedData := SamplePerson), [Validate, Process])
  {
    SampleRecordWellFormed();
    ValidFromValidate(s.(cleanedData := SampleLine), spare);
  }
}
