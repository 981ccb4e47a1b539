/** The record parsers `value<fit::FileCreatorMesg>`, `value<fit::FileIdMesg>`
    and `value<fit::WorkoutMesg>`, each an instance of the field loop.

    A record is a datatype with one component per field the parser can set;
    a FIT field the parser never sets and that no default gives a value is
    `None` (the message's "invalid" value).  FIT enumeration values are
    plain integer codes of the FIT profile.
 */
module Messages {
  import opened Common
  import opened Text
  import opened Values
  import opened Fields

  // FIT profile codes used by the defaults.
  const FILE_WORKOUT := 5                    // FIT_FILE_WORKOUT
  const MANUFACTURER_GARMIN := 1             // FIT_MANUFACTURER_GARMIN
  const GARMIN_PRODUCT_EDGE500 := 1036       // FIT_GARMIN_PRODUCT_EDGE500
  const WORKOUT_CAPABILITIES_INVALID := 0    // FIT_WORKOUT_CAPABILITIES_INVALID
  const SPORT_CYCLING := 2                   // FIT_SPORT_CYCLING
  const DEFAULT_SERIAL_NUMBER := 54321

  /** The sport names the workout parser accepts and their FIT_SPORT codes
      (a map, so the order of the entries does not matter). */
  const SPORTS: map<string, int> := map[
    "generic"                := 0,
    "running"                := 1,
    "transition"             := 3,
    "fitness_equipment"      := 4,
    "swimming"               := 5,
    "basketball"             := 6,
    "soccer"                 := 7,
    "tennis"                 := 8,
    "american_football"      := 9,
    "training"               := 10,
    "walking"                := 11,
    "cross_country_skiing"   := 12,
    "alpine_skiing"          := 13,
    "snowboarding"           := 14,
    "rowing"                 := 15,
    "mountaineering"         := 16,
    "hiking"                 := 17,
    "multisport"             := 18,
    "paddling"               := 19,
    "flying"                 := 20,
    "e_biking"               := 21,
    "motorcycling"           := 22,
    "boating"                := 23,
    "driving"                := 24,
    "golf"                   := 25,
    "hang_gliding"           := 26,
    "horseback_riding"       := 27,
    "hunting"                := 28,
    "fishing"                := 29,
    "inline_skating"         := 30,
    "rock_climbing"          := 31,
    "sailing"                := 32,
    "ice_skating"            := 33,
    "sky_diving"             := 34,
    "snowshoeing"            := 35,
    "snowmobiling"           := 36,
    "stand_up_paddleboarding":= 37,
    "surfing"                := 38,
    "wakeboarding"           := 39,
    "water_skiing"           := 40,
    "kayaking"               := 41,
    "rafting"                := 42,
    "windsurfing"            := 43,
    "kitesurfing"            := 44,
    "cycling"                := 2    // listed last: the default sport
  ]

  /** The default sport is in the table under its name. */
  lemma SportCycling()
    ensures "cycling" in SPORTS && SPORTS["cycling"] == SPORT_CYCLING
  {
  }

  //==========================================================================
  // file_creator

  datatype FileCreator = FileCreator(hardwareVersion: Option<int>, softwareVersion: Option<int>)

  /** `fit::FileCreatorMesg` as constructed: the parser sets no defaults. */
  const FILE_CREATOR_DEFAULTS := FileCreator(None, None)

  datatype CreatorField = HardwareVersion | SoftwareVersion

  /** A call of one of the message's setters. */
  datatype CreatorSet = SetHardwareVersion(n: int) | SetSoftwareVersion(n: int)

  const CREATOR_FIELDS: map<string, Key<CreatorField>> := map[
    "hardware_version" := FieldKey(HardwareVersion),
    "software_version" := FieldKey(SoftwareVersion),
    "end"              := EndKey
  ]

  /** The token that names a field in the input. */
  function CreatorFieldName(f: CreatorField): string {
    match f
    case HardwareVersion => "hardware_version"
    case SoftwareVersion => "software_version"
  }

  lemma CreatorFieldKey(f: CreatorField)
    ensures CreatorFieldName(f) in CREATOR_FIELDS && CREATOR_FIELDS[CreatorFieldName(f)] == FieldKey(f)
  {
  }

  function CreatorFieldOf(a: CreatorSet): CreatorField {
    match a
    case SetHardwareVersion(_) => HardwareVersion
    case SetSoftwareVersion(_) => SoftwareVersion
  }

  function ApplyCreator(c: FileCreator, a: CreatorSet): FileCreator {
    match a
    case SetHardwareVersion(n) => c.(hardwareVersion := Some(n))
    case SetSoftwareVersion(n) => c.(softwareVersion := Some(n))
  }

  /** The record holds the value of the setting. */
  predicate CreatorHolds(c: FileCreator, a: CreatorSet) {
    match a
    case SetHardwareVersion(n) => c.hardwareVersion == Some(n)
    case SetSoftwareVersion(n) => c.softwareVersion == Some(n)
  }

  /** Reads the value of a field: hardware_version is a FIT_UINT8 (one
      character), software_version a FIT_UINT16. */
  function ReadCreator(input: string, ex: Extractor, f: CreatorField): (r: Parsed<CreatorSet>)
    ensures r.rest == DropLine(input)
    ensures r.Ok? ==> CreatorFieldOf(r.value) == f
  {
    match f
    case HardwareVersion => ValueChar(input).Map(n => SetHardwareVersion(n))
    case SoftwareVersion => ValueNum(input, ex, UInt16).Map(n => SetSoftwareVersion(n))
  }

  /** The field loop's reader: the outcome of `ReadCreator`, the line it
      consumes being implied. */
  function CreatorReader(ex: Extractor): (string, CreatorField) -> Result<CreatorSet> {
    (s, f) => ReadCreator(s, ex, f).ToResult()
  }

  /** The outcome of reading a complete line does not depend on what
      follows it. */
  lemma ReadCreatorAppend(s: string, t: string, ex: Extractor, f: CreatorField)
    requires s != [] && Terminated(s)
    ensures ReadCreator(s + t, ex, f).ToResult() == ReadCreator(s, ex, f).ToResult()
  {
    ValueStringAppend(s, t);
  }

  /** The reader is stable under appended input. */
  lemma CreatorReaderFacts(ex: Extractor)
    ensures Stable(CreatorReader(ex))
  {
    var read := CreatorReader(ex);
    forall s, t, f ensures StableAt(read, s, t, f) {
      if s != [] && Terminated(s) {
        assert read(s, f) == ReadCreator(s, ex, f).ToResult() && read(s + t, f) == ReadCreator(s + t, ex, f).ToResult();
        ReadCreatorAppend(s, t, ex, f);
      }
    }
  }

  /** `value<fit::FileCreatorMesg>`. */
  function ParseFileCreator(input: string, ex: Extractor): (r: Parsed<FileCreator>)
    ensures IsSuffixOf(r.rest, input)
    ensures r.Ok? ==> |r.rest| < |input|
  {
    FieldLoop(input, CREATOR_FIELDS, CreatorReader(ex), ApplyCreator, "file_creator", FILE_CREATOR_DEFAULTS)
  }

  /** The two lines `item` spell the setting `a`. */
  predicate SpellsCreator(ex: Extractor, item: (string, string), a: CreatorSet) {
    && '\n' !in item.0 && '\n' !in item.1
    && Trim(item.0) == CreatorFieldName(CreatorFieldOf(a))
    && match a
       case SetHardwareVersion(n) =>
         Trim(item.1) != [] && n == Utf8(Trim(item.1)[0])[0]
       case SetSoftwareVersion(n) =>
         ex(UInt16, Trim(item.1)) == Some(n)
  }

  lemma CreatorSpelled(ex: Extractor, item: (string, string), a: CreatorSet)
    requires SpellsCreator(ex, item, a)
    ensures Spelled(CREATOR_FIELDS, CreatorReader(ex), item, CreatorFieldOf(a), a)
  {
    ReadCreatorLine(ex, item, a);
    assert CreatorReader(ex)(item.1 + "\n", CreatorFieldOf(a)) == ReadCreator(item.1 + "\n", ex, CreatorFieldOf(a)).ToResult();
    CreatorFieldKey(CreatorFieldOf(a));
  }

  /** The value line of a spelled setting, on its own, reads as the setting. */
  lemma ReadCreatorLine(ex: Extractor, item: (string, string), a: CreatorSet)
    requires SpellsCreator(ex, item, a)
    ensures ReadCreator(item.1 + "\n", ex, CreatorFieldOf(a)) == Ok(a, [])
  {
    ValueLine(item.1);
    match a
    case SetHardwareVersion(_) =>
    case SetSoftwareVersion(_) =>
  }

  /** Settings stored in a creator record leave every other field as it was. */
  lemma {:induction false} CreatorUnsetKept(c: FileCreator, sets: seq<CreatorSet>)
    ensures (forall j :: 0 <= j < |sets| ==> !sets[j].SetHardwareVersion?) ==>
              ApplyAll(ApplyCreator, c, sets).hardwareVersion == c.hardwareVersion
    ensures (forall j :: 0 <= j < |sets| ==> !sets[j].SetSoftwareVersion?) ==>
              ApplyAll(ApplyCreator, c, sets).softwareVersion == c.softwareVersion
    decreases |sets|
  {
    if sets != [] {
      CreatorUnsetKept(ApplyCreator(c, sets[0]), sets[1..]);
      assert forall j :: 0 <= j < |sets[1..]| ==> sets[1..][j] == sets[j + 1];
    }
  }

  /** Reading a spelled FileCreator body: the result is the defaults with the
      settings stored in input order, and the input after the end marker is
      left unread. */
  lemma ParseFileCreatorBody(ex: Extractor, items: seq<(string, string)>, sets: seq<CreatorSet>,
                             e: string, k: string, rest: string)
    requires |items| == |sets|
    requires forall i :: 0 <= i < |items| ==> SpellsCreator(ex, items[i], sets[i])
    requires '\n' !in e && '\n' !in k && Trim(e) == "end" && Trim(k) == "file_creator"
    ensures ParseFileCreator(Render(items) + (e + "\n" + (k + "\n" + rest)), ex)
            == Ok(ApplyAll(ApplyCreator, FILE_CREATOR_DEFAULTS, sets), rest)
  {
    CreatorReaderFacts(ex);
    var fields := seq(|sets|, i requires 0 <= i < |sets| => CreatorFieldOf(sets[i]));
    forall i | 0 <= i < |items|
      ensures Spelled(CREATOR_FIELDS, CreatorReader(ex), items[i], fields[i], sets[i])
    {
      CreatorSpelled(ex, items[i], sets[i]);
    }
    FieldLoopReadsBody(items, fields, sets, e, k, rest, CREATOR_FIELDS, CreatorReader(ex), ApplyCreator,
                       "file_creator", FILE_CREATOR_DEFAULTS);
  }

  /** Storing a setting makes the record hold it and leaves the other
      fields as they were. */
  lemma CreatorSetterLaws()
    ensures SetterLaws(ApplyCreator, CreatorFieldOf, CreatorHolds)
  {
    forall r, a ensures CreatorHolds(ApplyCreator(r, a), a) { }
    forall r, a, b | CreatorFieldOf(a) != CreatorFieldOf(b) && CreatorHolds(r, a)
      ensures CreatorHolds(ApplyCreator(r, b), a) { }
  }

  /** The record built from the defaults by a sequence of settings: a field
      no setting stores keeps its default, and the last setting of a field
      is the one kept. */
  lemma CreatorSettings(sets: seq<CreatorSet>)
    ensures var c := ApplyAll(ApplyCreator, FILE_CREATOR_DEFAULTS, sets);
            && ((forall j :: 0 <= j < |sets| ==> !sets[j].SetHardwareVersion?) ==> c.hardwareVersion == None)
            && ((forall j :: 0 <= j < |sets| ==> !sets[j].SetSoftwareVersion?) ==> c.softwareVersion == None)
            && (forall i :: 0 <= i < |sets| && (forall j :: i < j < |sets| ==> CreatorFieldOf(sets[j]) != CreatorFieldOf(sets[i])) ==>
                  CreatorHolds(c, sets[i]))
  {
    CreatorUnsetKept(FILE_CREATOR_DEFAULTS, sets);
    CreatorSetterLaws();
    forall i | 0 <= i < |sets| && (forall j :: i < j < |sets| ==> CreatorFieldOf(sets[j]) != CreatorFieldOf(sets[i]))
      ensures CreatorHolds(ApplyAll(ApplyCreator, FILE_CREATOR_DEFAULTS, sets), sets[i])
    {
      LastSetWins(ApplyCreator, CreatorFieldOf, CreatorHolds, FILE_CREATOR_DEFAULTS, sets, i);
    }
  }

  //==========================================================================
  // file_id

  datatype FileId = FileId(fileType: int, manufacturer: int, product: int, serialNumber: int,
                           timeCreated: int, number: Option<int>)

  /** The defaults set before any input is read: a workout file made by a
      Garmin Edge 500 with serial number 54321, created `now` (the FIT
      timestamp of the wall clock, a parameter here). */
  function FileIdDefaults(now: int): FileId {
    FileId(FILE_WORKOUT, MANUFACTURER_GARMIN, GARMIN_PRODUCT_EDGE500, DEFAULT_SERIAL_NUMBER, now, None)
  }

  datatype FileIdField = Number | SerialNumber | TimeCreated

  datatype FileIdSet = SetNumber(n: int) | SetSerialNumber(n: int) | SetTimeCreated(n: int)

  const FILE_ID_FIELDS: map<string, Key<FileIdField>> := map[
    "number"        := FieldKey(Number),
    "serial_number" := FieldKey(SerialNumber),
    "time_created"  := FieldKey(TimeCreated),
    "end"           := EndKey
  ]

  /** The token that names a field in the input. */
  function FileIdFieldName(f: FileIdField): string {
    match f
    case Number => "number"
    case SerialNumber => "serial_number"
    case TimeCreated => "time_created"
  }

  lemma FileIdFieldKey(f: FileIdField)
    ensures FileIdFieldName(f) in FILE_ID_FIELDS && FILE_ID_FIELDS[FileIdFieldName(f)] == FieldKey(f)
  {
  }

  function FileIdFieldOf(a: FileIdSet): FileIdField {
    match a
    case SetNumber(_) => Number
    case SetSerialNumber(_) => SerialNumber
    case SetTimeCreated(_) => TimeCreated
  }

  function ApplyFileId(d: FileId, a: FileIdSet): FileId {
    match a
    case SetNumber(n) => d.(number := Some(n))
    case SetSerialNumber(n) => d.(serialNumber := n)
    case SetTimeCreated(n) => d.(timeCreated := n)
  }

  predicate FileIdHolds(d: FileId, a: FileIdSet) {
    match a
    case SetNumber(n) => d.number == Some(n)
    case SetSerialNumber(n) => d.serialNumber == n
    case SetTimeCreated(n) => d.timeCreated == n
  }

  /** number is a FIT_UINT16; serial_number (FIT_UINT32Z) and time_created
      (FIT_DATE_TIME) are 32-bit unsigned. */
  function ReadFileId(input: string, ex: Extractor, f: FileIdField): (r: Parsed<FileIdSet>)
    ensures r.rest == DropLine(input)
    ensures r.Ok? ==> FileIdFieldOf(r.value) == f
  {
    match f
    case Number => ValueNum(input, ex, UInt16).Map(n => SetNumber(n))
    case SerialNumber => ValueNum(input, ex, UInt32).Map(n => SetSerialNumber(n))
    case TimeCreated => ValueNum(input, ex, UInt32).Map(n => SetTimeCreated(n))
  }

  /** The field loop's reader: the outcome of `ReadFileId`, the line it
      consumes being implied. */
  function FileIdReader(ex: Extractor): (string, FileIdField) -> Result<FileIdSet> {
    (s, f) => ReadFileId(s, ex, f).ToResult()
  }

  /** The outcome of reading a complete line does not depend on what
      follows it. */
  lemma ReadFileIdAppend(s: string, t: string, ex: Extractor, f: FileIdField)
    requires s != [] && Terminated(s)
    ensures ReadFileId(s + t, ex, f).ToResult() == ReadFileId(s, ex, f).ToResult()
  {
    match f
    case Number => ValueNumAppendOutcome(s, t, ex, UInt16);
    case SerialNumber => ValueNumAppendOutcome(s, t, ex, UInt32);
    case TimeCreated => ValueNumAppendOutcome(s, t, ex, UInt32);
  }

  /** The reader is stable under appended input. */
  lemma FileIdReaderFacts(ex: Extractor)
    ensures Stable(FileIdReader(ex))
  {
    var read := FileIdReader(ex);
    forall s, t, f ensures StableAt(read, s, t, f) {
      if s != [] && Terminated(s) {
        assert read(s, f) == ReadFileId(s, ex, f).ToResult() && read(s + t, f) == ReadFileId(s + t, ex, f).ToResult();
        ReadFileIdAppend(s, t, ex, f);
      }
    }
  }

  /** `value<fit::FileIdMesg>`. */
  function ParseFileId(input: string, ex: Extractor, now: int): (r: Parsed<FileId>)
    ensures IsSuffixOf(r.rest, input)
    ensures r.Ok? ==> |r.rest| < |input|
  {
    FieldLoop(input, FILE_ID_FIELDS, FileIdReader(ex), ApplyFileId, "file_id", FileIdDefaults(now))
  }

  predicate SpellsFileId(ex: Extractor, item: (string, string), a: FileIdSet) {
    && '\n' !in item.0 && '\n' !in item.1
    && Trim(item.0) == FileIdFieldName(FileIdFieldOf(a))
    && match a
       case SetNumber(n) => ex(UInt16, Trim(item.1)) == Some(n)
       case SetSerialNumber(n) => ex(UInt32, Trim(item.1)) == Some(n)
       case SetTimeCreated(n) => ex(UInt32, Trim(item.1)) == Some(n)
  }

  lemma FileIdSpelled(ex: Extractor, item: (string, string), a: FileIdSet)
    requires SpellsFileId(ex, item, a)
    ensures Spelled(FILE_ID_FIELDS, FileIdReader(ex), item, FileIdFieldOf(a), a)
  {
    ReadFileIdLine(ex, item, a);
    assert FileIdReader(ex)(item.1 + "\n", FileIdFieldOf(a)) == ReadFileId(item.1 + "\n", ex, FileIdFieldOf(a)).ToResult();
    FileIdFieldKey(FileIdFieldOf(a));
  }

  /** The value line of a spelled setting, on its own, reads as the setting. */
  lemma ReadFileIdLine(ex: Extractor, item: (string, string), a: FileIdSet)
    requires SpellsFileId(ex, item, a)
    ensures ReadFileId(item.1 + "\n", ex, FileIdFieldOf(a)) == Ok(a, [])
  {
    match a
    case SetNumber(n) => ValueNumLine(item.1, ex, UInt16, n);
    case SetSerialNumber(n) => ValueNumLine(item.1, ex, UInt32, n);
    case SetTimeCreated(n) => ValueNumLine(item.1, ex, UInt32, n);
  }

  lemma {:induction false} FileIdUnsetKept(d: FileId, sets: seq<FileIdSet>)
    ensures var r := ApplyAll(ApplyFileId, d, sets);
            && r.fileType == d.fileType && r.manufacturer == d.manufacturer && r.product == d.product
            && ((forall j :: 0 <= j < |sets| ==> !sets[j].SetNumber?) ==> r.number == d.number)
            && ((forall j :: 0 <= j < |sets| ==> !sets[j].SetSerialNumber?) ==> r.serialNumber == d.serialNumber)
            && ((forall j :: 0 <= j < |sets| ==> !sets[j].SetTimeCreated?) ==> r.timeCreated == d.timeCreated)
    decreases |sets|
  {
    if sets != [] {
      FileIdUnsetKept(ApplyFileId(d, sets[0]), sets[1..]);
      assert forall j :: 0 <= j < |sets[1..]| ==> sets[1..][j] == sets[j + 1];
    }
  }

  /** Reading a spelled FileId body: the result is the defaults with the
      settings stored in input order, and the input after the end marker is
      left unread. */
  lemma ParseFileIdBody(ex: Extractor, now: int, items: seq<(string, string)>, sets: seq<FileIdSet>,
                        e: string, k: string, rest: string)
    requires |items| == |sets|
    requires forall i :: 0 <= i < |items| ==> SpellsFileId(ex, items[i], sets[i])
    requires '\n' !in e && '\n' !in k && Trim(e) == "end" && Trim(k) == "file_id"
    ensures ParseFileId(Render(items) + (e + "\n" + (k + "\n" + rest)), ex, now)
            == Ok(ApplyAll(ApplyFileId, FileIdDefaults(now), sets), rest)
  {
    FileIdReaderFacts(ex);
    var fields := seq(|sets|, i requires 0 <= i < |sets| => FileIdFieldOf(sets[i]));
    forall i | 0 <= i < |items|
      ensures Spelled(FILE_ID_FIELDS, FileIdReader(ex), items[i], fields[i], sets[i])
    {
      FileIdSpelled(ex, items[i], sets[i]);
    }
    FieldLoopReadsBody(items, fields, sets, e, k, rest, FILE_ID_FIELDS, FileIdReader(ex), ApplyFileId,
                       "file_id", FileIdDefaults(now));
  }

  /** Storing a setting makes the record hold it and leaves the other
      fields as they were. */
  lemma FileIdSetterLaws()
    ensures SetterLaws(ApplyFileId, FileIdFieldOf, FileIdHolds)
  {
    forall r, a ensures FileIdHolds(ApplyFileId(r, a), a) { }
    forall r, a, b | FileIdFieldOf(a) != FileIdFieldOf(b) && FileIdHolds(r, a)
      ensures FileIdHolds(ApplyFileId(r, b), a) { }
  }

  /** The record built from the defaults by a sequence of settings: a field
      no setting stores keeps its default, and the last setting of a field
      is the one kept. */
  lemma FileIdSettings(now: int, sets: seq<FileIdSet>)
    ensures var d := ApplyAll(ApplyFileId, FileIdDefaults(now), sets);
            && d.fileType == FILE_WORKOUT && d.manufacturer == MANUFACTURER_GARMIN
            && d.product == GARMIN_PRODUCT_EDGE500
            && ((forall j :: 0 <= j < |sets| ==> !sets[j].SetNumber?) ==> d.number == None)
            && ((forall j :: 0 <= j < |sets| ==> !sets[j].SetSerialNumber?) ==> d.serialNumber == DEFAULT_SERIAL_NUMBER)
            && ((forall j :: 0 <= j < |sets| ==> !sets[j].SetTimeCreated?) ==> d.timeCreated == now)
            && (forall i :: 0 <= i < |sets| && (forall j :: i < j < |sets| ==> FileIdFieldOf(sets[j]) != FileIdFieldOf(sets[i])) ==>
                  FileIdHolds(d, sets[i]))
  {
    FileIdUnsetKept(FileIdDefaults(now), sets);
    FileIdSetterLaws();
    forall i | 0 <= i < |sets| && (forall j :: i < j < |sets| ==> FileIdFieldOf(sets[j]) != FileIdFieldOf(sets[i]))
      ensures FileIdHolds(ApplyAll(ApplyFileId, FileIdDefaults(now), sets), sets[i])
    {
      LastSetWins(ApplyFileId, FileIdFieldOf, FileIdHolds, FileIdDefaults(now), sets, i);
    }
  }

  //==========================================================================
  // workout

  datatype Workout = Workout(sport: int, capabilities: int, numValidSteps: int, wktName: Option<string>)

  /** The defaults set before any input is read: cycling, no capabilities,
      one valid step, no name. */
  const WORKOUT_DEFAULTS := Workout(SPORT_CYCLING, WORKOUT_CAPABILITIES_INVALID, 1, None)

  /** The range `num_valid_steps` is checked against. */
  const MIN_STEPS := 1
  const MAX_STEPS := 10000

  datatype WorkoutField = Capabilities | NumValidSteps | Sport | WktName

  datatype WorkoutSet =
    | SetCapabilities(n: int)
    | SetNumValidSteps(n: int)
    | SetSport(code: int)
    | SetWktName(name: string)

  const WORKOUT_FIELDS: map<string, Key<WorkoutField>> := map[
    "capabilities"    := FieldKey(Capabilities),
    "num_valid_steps" := FieldKey(NumValidSteps),
    "sport"           := FieldKey(Sport),
    "wkt_name"        := FieldKey(WktName),
    "end"             := EndKey
  ]

  /** The token that names a field in the input. */
  function WorkoutFieldName(f: WorkoutField): string {
    match f
    case Capabilities => "capabilities"
    case NumValidSteps => "num_valid_steps"
    case Sport => "sport"
    case WktName => "wkt_name"
  }

  lemma WorkoutFieldKey(f: WorkoutField)
    ensures WorkoutFieldName(f) in WORKOUT_FIELDS && WORKOUT_FIELDS[WorkoutFieldName(f)] == FieldKey(f)
  {
  }

  function WorkoutFieldOf(a: WorkoutSet): WorkoutField {
    match a
    case SetCapabilities(_) => Capabilities
    case SetNumValidSteps(_) => NumValidSteps
    case SetSport(_) => Sport
    case SetWktName(_) => WktName
  }

  function ApplyWorkout(w: Workout, a: WorkoutSet): Workout {
    match a
    case SetCapabilities(n) => w.(capabilities := n)
    case SetNumValidSteps(n) => w.(numValidSteps := n)
    case SetSport(c) => w.(sport := c)
    case SetWktName(s) => w.(wktName := Some(s))
  }

  predicate WorkoutHolds(w: Workout, a: WorkoutSet) {
    match a
    case SetCapabilities(n) => w.capabilities == n
    case SetNumValidSteps(n) => w.numValidSteps == n
    case SetSport(c) => w.sport == c
    case SetWktName(s) => w.wktName == Some(s)
  }

  /** capabilities is a 32-bit unsigned number; num_valid_steps a FIT_UINT16
      checked against [1, 10000]; sport a name of the sport table; wkt_name
      the trimmed line (the source widens it to a wide string). */
  function ReadWorkout(input: string, ex: Extractor, f: WorkoutField): (r: Parsed<WorkoutSet>)
    ensures r.rest == DropLine(input)
    ensures r.Ok? ==> WorkoutFieldOf(r.value) == f
    ensures r.Ok? && r.value.SetNumValidSteps? ==> MIN_STEPS <= r.value.n <= MAX_STEPS
  {
    match f
    case Capabilities => ValueNum(input, ex, UInt32).Map(n => SetCapabilities(n))
    case NumValidSteps => ValueInRange(input, ex, UInt16, MIN_STEPS, MAX_STEPS).Map(n => SetNumValidSteps(n))
    case Sport => ValueEnum(input, SPORTS).Map(c => SetSport(c))
    case WktName => ValueString(input).Map(s => SetWktName(s))
  }

  /** The field loop's reader: the outcome of `ReadWorkout`, the line it
      consumes being implied. */
  function WorkoutReader(ex: Extractor): (string, WorkoutField) -> Result<WorkoutSet> {
    (s, f) => ReadWorkout(s, ex, f).ToResult()
  }

  /** The outcome of reading a complete line does not depend on what
      follows it. */
  lemma ReadWorkoutAppend(s: string, t: string, ex: Extractor, f: WorkoutField)
    requires s != [] && Terminated(s)
    ensures ReadWorkout(s + t, ex, f).ToResult() == ReadWorkout(s, ex, f).ToResult()
  {
    ValueStringAppend(s, t);
  }

  /** The reader is stable under appended input. */
  lemma WorkoutReaderFacts(ex: Extractor)
    ensures Stable(WorkoutReader(ex))
  {
    var read := WorkoutReader(ex);
    forall s, t, f ensures StableAt(read, s, t, f) {
      if s != [] && Terminated(s) {
        assert read(s, f) == ReadWorkout(s, ex, f).ToResult() && read(s + t, f) == ReadWorkout(s + t, ex, f).ToResult();
        ReadWorkoutAppend(s, t, ex, f);
      }
    }
  }

  /** `value<fit::WorkoutMesg>`. */
  function ParseWorkout(input: string, ex: Extractor): (r: Parsed<Workout>)
    ensures IsSuffixOf(r.rest, input)
    ensures r.Ok? ==> |r.rest| < |input|
  {
    FieldLoop(input, WORKOUT_FIELDS, WorkoutReader(ex), ApplyWorkout, "workout", WORKOUT_DEFAULTS)
  }

  predicate SpellsWorkout(ex: Extractor, item: (string, string), a: WorkoutSet) {
    && '\n' !in item.0 && '\n' !in item.1
    && Trim(item.0) == WorkoutFieldName(WorkoutFieldOf(a))
    && match a
       case SetCapabilities(n) => ex(UInt32, Trim(item.1)) == Some(n)
       case SetNumValidSteps(n) =>
         ex(UInt16, Trim(item.1)) == Some(n) && MIN_STEPS <= n <= MAX_STEPS
       case SetSport(c) => Trim(item.1) in SPORTS && SPORTS[Trim(item.1)] == c
       case SetWktName(s) => Trim(item.1) == s
  }

  lemma WorkoutSpelled(ex: Extractor, item: (string, string), a: WorkoutSet)
    requires SpellsWorkout(ex, item, a)
    ensures Spelled(WORKOUT_FIELDS, WorkoutReader(ex), item, WorkoutFieldOf(a), a)
  {
    ReadWorkoutLine(ex, item, a);
    assert WorkoutReader(ex)(item.1 + "\n", WorkoutFieldOf(a)) == ReadWorkout(item.1 + "\n", ex, WorkoutFieldOf(a)).ToResult();
    WorkoutFieldKey(WorkoutFieldOf(a));
  }

  /** The value line of a spelled setting, on its own, reads as the setting. */
  lemma ReadWorkoutLine(ex: Extractor, item: (string, string), a: WorkoutSet)
    requires SpellsWorkout(ex, item, a)
    ensures ReadWorkout(item.1 + "\n", ex, WorkoutFieldOf(a)) == Ok(a, [])
  {
    match a
    case SetCapabilities(n) => ReadCapabilitiesLine(ex, item.1, n);
    case SetNumValidSteps(n) => ReadStepsLine(ex, item.1, n);
    case SetSport(c) => ReadSportLine(item.1, ex, c);
    case SetWktName(_) => ValueLine(item.1);
  }

  lemma ReadCapabilitiesLine(ex: Extractor, v: string, n: int)
    requires '\n' !in v && ex(UInt32, Trim(v)) == Some(n)
    ensures ReadWorkout(v + "\n", ex, Capabilities) == Ok(SetCapabilities(n), [])
  {
    ValueLine(v);
  }

  lemma ReadStepsLine(ex: Extractor, v: string, n: int)
    requires '\n' !in v && ex(UInt16, Trim(v)) == Some(n) && MIN_STEPS <= n <= MAX_STEPS
    ensures ReadWorkout(v + "\n", ex, NumValidSteps) == Ok(SetNumValidSteps(n), [])
  {
    ValueLine(v);
  }

  lemma ReadSportLine(v: string, ex: Extractor, c: int)
    requires '\n' !in v && Trim(v) in SPORTS && SPORTS[Trim(v)] == c
    ensures ReadWorkout(v + "\n", ex, Sport) == Ok(SetSport(c), [])
  {
    ValueEnumLine(v, SPORTS, c);
  }

  lemma {:induction false} WorkoutUnsetKept(w: Workout, sets: seq<WorkoutSet>)
    ensures var r := ApplyAll(ApplyWorkout, w, sets);
            && ((forall j :: 0 <= j < |sets| ==> !sets[j].SetCapabilities?) ==> r.capabilities == w.capabilities)
            && ((forall j :: 0 <= j < |sets| ==> !sets[j].SetNumValidSteps?) ==> r.numValidSteps == w.numValidSteps)
            && ((forall j :: 0 <= j < |sets| ==> !sets[j].SetSport?) ==> r.sport == w.sport)
            && ((forall j :: 0 <= j < |sets| ==> !sets[j].SetWktName?) ==> r.wktName == w.wktName)
    decreases |sets|
  {
    if sets != [] {
      WorkoutUnsetKept(ApplyWorkout(w, sets[0]), sets[1..]);
      assert forall j :: 0 <= j < |sets[1..]| ==> sets[1..][j] == sets[j + 1];
    }
  }

  /** Reading a spelled Workout body: the result is the defaults with the
      settings stored in input order, and the input after the end marker is
      left unread. */
  lemma ParseWorkoutBody(ex: Extractor, items: seq<(string, string)>, sets: seq<WorkoutSet>,
                         e: string, k: string, rest: string)
    requires |items| == |sets|
    requires forall i :: 0 <= i < |items| ==> SpellsWorkout(ex, items[i], sets[i])
    requires '\n' !in e && '\n' !in k && Trim(e) == "end" && Trim(k) == "workout"
    ensures ParseWorkout(Render(items) + (e + "\n" + (k + "\n" + rest)), ex)
            == Ok(ApplyAll(ApplyWorkout, WORKOUT_DEFAULTS, sets), rest)
  {
    WorkoutReaderFacts(ex);
    var fields := seq(|sets|, i requires 0 <= i < |sets| => WorkoutFieldOf(sets[i]));
    forall i | 0 <= i < |items|
      ensures Spelled(WORKOUT_FIELDS, WorkoutReader(ex), items[i], fields[i], sets[i])
    {
      WorkoutSpelled(ex, items[i], sets[i]);
    }
    FieldLoopReadsBody(items, fields, sets, e, k, rest, WORKOUT_FIELDS, WorkoutReader(ex), ApplyWorkout,
                       "workout", WORKOUT_DEFAULTS);
  }

  /** Storing a setting makes the record hold it and leaves the other
      fields as they were. */
  lemma WorkoutSetterLaws()
    ensures SetterLaws(ApplyWorkout, WorkoutFieldOf, WorkoutHolds)
  {
    forall r, a ensures WorkoutHolds(ApplyWorkout(r, a), a) { }
    forall r, a, b | WorkoutFieldOf(a) != WorkoutFieldOf(b) && WorkoutHolds(r, a)
      ensures WorkoutHolds(ApplyWorkout(r, b), a) { }
  }

  /** The record built from the defaults by a sequence of settings: a field
      no setting stores keeps its default, and the last setting of a field
      is the one kept. */
  lemma WorkoutSettings(sets: seq<WorkoutSet>)
    ensures var w := ApplyAll(ApplyWorkout, WORKOUT_DEFAULTS, sets);
            && ((forall j :: 0 <= j < |sets| ==> !sets[j].SetCapabilities?) ==> w.capabilities == WORKOUT_CAPABILITIES_INVALID)
            && ((forall j :: 0 <= j < |sets| ==> !sets[j].SetNumValidSteps?) ==> w.numValidSteps == 1)
            && ((forall j :: 0 <= j < |sets| ==> !sets[j].SetSport?) ==> w.sport == SPORT_CYCLING)
            && ((forall j :: 0 <= j < |sets| ==> !sets[j].SetWktName?) ==> w.wktName == None)
            && (forall i :: 0 <= i < |sets| && (forall j :: i < j < |sets| ==> WorkoutFieldOf(sets[j]) != WorkoutFieldOf(sets[i])) ==>
                  WorkoutHolds(w, sets[i]))
  {
    WorkoutUnsetKept(WORKOUT_DEFAULTS, sets);
    WorkoutSetterLaws();
    forall i | 0 <= i < |sets| && (forall j :: i < j < |sets| ==> WorkoutFieldOf(sets[j]) != WorkoutFieldOf(sets[i]))
      ensures WorkoutHolds(ApplyAll(ApplyWorkout, WORKOUT_DEFAULTS, sets), sets[i])
    {
      LastSetWins(ApplyWorkout, WorkoutFieldOf, WorkoutHolds, WORKOUT_DEFAULTS, sets, i);
    }
  }

  /** Every workout the parser returns has between 1 and 10000 valid steps
      and a sport code taken from the sport table. */
  lemma ParseWorkoutValid(input: string, ex: Extractor)
    ensures ParseWorkout(input, ex).Ok? ==>
              && MIN_STEPS <= ParseWorkout(input, ex).value.numValidSteps <= MAX_STEPS
              && ParseWorkout(input, ex).value.sport in SPORTS.Values
  {
    var read := WorkoutReader(ex);
    var inv := (w: Workout) => MIN_STEPS <= w.numValidSteps <= MAX_STEPS && w.sport in SPORTS.Values;
    assert inv(WORKOUT_DEFAULTS) by {
      SportCycling();
    }
    forall w, s, f | inv(w) && read(s, f).Success?
      ensures inv(ApplyWorkout(w, read(s, f).value))
    {
      assert read(s, f) == ReadWorkout(s, ex, f).ToResult();
      ReadWorkoutSport(s, ex, f);
    }
    FieldLoopPreserves(input, WORKOUT_FIELDS, read, ApplyWorkout, "workout", WORKOUT_DEFAULTS, inv);
  }

  /** A sport the reader accepts is a code of the sport table. */
  lemma ReadWorkoutSport(s: string, ex: Extractor, f: WorkoutField)
    ensures ReadWorkout(s, ex, f).Ok? && ReadWorkout(s, ex, f).value.SetSport? ==>
              ReadWorkout(s, ex, f).value.code in SPORTS.Values
  {
    if f == Sport && ValueEnum(s, SPORTS).Ok? {
      InValues(SPORTS, ValueString(s).value);
    }
  }

  lemma InValues<K, V>(m: map<K, V>, k: K)
    requires k in m
    ensures m[k] in m.Values
  {
  }

  /** A num_valid_steps value outside [1, 10000] stops the parser with the
      range error, whatever follows. */
  lemma ParseWorkoutStepsOutOfRange(ex: Extractor, n: string, v: string, rest: string, steps: int)
    requires '\n' !in n && '\n' !in v
    requires Trim(n) == "num_valid_steps" && ex(UInt16, Trim(v)) == Some(steps)
    requires steps < MIN_STEPS || MAX_STEPS < steps
    ensures ParseWorkout(n + "\n" + (v + "\n" + rest), ex) == Fail(OutOfRange(steps, MIN_STEPS, MAX_STEPS), rest)
  {
    var input := n + "\n" + (v + "\n" + rest);
    ValueStringOfLine(n, v + "\n" + rest);
    WorkoutFieldKey(NumValidSteps);
    assert Match(input, WORKOUT_FIELDS) == Ok(FieldKey(NumValidSteps), DropLine(input));
    ValueStringOfLine(v, rest);
    assert ReadWorkout(v + "\n" + rest, ex, NumValidSteps) == Fail(OutOfRange(steps, MIN_STEPS, MAX_STEPS), rest);
    FieldLoopBadValue(input, WORKOUT_FIELDS, WorkoutReader(ex), ApplyWorkout, "workout", WORKOUT_DEFAULTS, NumValidSteps);
  }
}
