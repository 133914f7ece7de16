/** The YAML configuration schemas of the `h264`, `jpeg` and
    `lvgl_camera_display` components, as data, with the validation the
    schemas rely on: inclusive integer ranges (with a step), booleans,
    millisecond periods (zero included), references to declared components of a
    given class, generated IDs, required keys and defaults for optional
    keys. */
module ConfigSchema {
  import opened Common

  /** A configuration value, before or after validation. */
  datatype Value =
    | IntV(i: int)
    | BoolV(b: bool)
    | StrV(s: string)
    | IdV(id: string)
    | MillisV(ms: nat)

  /** What a key's validator accepts. */
  datatype Kind =
    | IntRange(min: int, max: int, step: nat)  // cv.int_range
    | Boolean                                  // cv.boolean
    | PositiveMillis                           // cv.positive_time_period_milliseconds (bound 0 included)
    | UseId(cls: string)                       // cv.use_id(cls)
    | DeclareId(cls: string)                   // cv.declare_id(cls)

  /** How a key may be absent. */
  datatype Presence =
    | Required                // cv.Required
    | Optional(default: Value) // cv.Optional(key, default=...)
    | GenerateId              // cv.GenerateID()

  datatype Field = Field(name: string, kind: Kind, presence: Presence)

  datatype Result<T> = Success(value: T) | Failure(key: string)

  /** The component IDs declared elsewhere in the configuration, with the
      class of each. */
  type Symbols = map<string, string>

  // ---- millisecond periods written "<digits>ms" ----

  predicate IsDigit(c: char)
  {
    '0' <= c <= '9'
  }

  predicate AllDigits(s: string)
  {
    forall k :: 0 <= k < |s| ==> IsDigit(s[k])
  }

  /** The decimal value of a digit string, most significant digit first. */
  function DigitsValue(s: string): nat
    requires AllDigits(s)
  {
    if |s| == 0 then 0
    else DigitsValue(s[..|s| - 1]) * 10 + (s[|s| - 1] as int - '0' as int)
  }

  /** The decimal digits of `n`, without leading zeros. */
  function ShowNat(n: nat): (s: string)
    ensures |s| > 0 && AllDigits(s)
  {
    var d := [('0' as int + n % 10) as char];
    if n < 10 then d else ShowNat(n / 10) + d
  }

  /** Decimal printing and parsing are inverse. */
  lemma {:induction false} DigitsValueShowNat(n: nat)
    ensures DigitsValue(ShowNat(n)) == n
  {
    var s := ShowNat(n);
    if n >= 10 {
      DigitsValueShowNat(n / 10);
      assert s[..|s| - 1] == ShowNat(n / 10);
    }
  }

  /** A period written as one or more digits followed by `ms`. */
  function ParseMillis(s: string): (r: Option<nat>)
    ensures r.Some? ==> |s| > 2 && s[|s| - 2..] == "ms" && AllDigits(s[..|s| - 2])
  {
    if |s| > 2 && s[|s| - 2..] == "ms" && AllDigits(s[..|s| - 2])
    then Some(DigitsValue(s[..|s| - 2]))
    else None
  }

  /** Every number of milliseconds, written out, parses back to itself. */
  lemma ParseShowMillis(n: nat)
    ensures ParseMillis(ShowNat(n) + "ms") == Some(n)
  {
    var s := ShowNat(n) + "ms";
    assert s[..|s| - 2] == ShowNat(n);
    assert s[|s| - 2..] == "ms";
    DigitsValueShowNat(n);
  }

  /** The default update interval "33ms" is 33 milliseconds. */
  lemma DefaultIntervalIs33()
    ensures ParseMillis("33ms") == Some(33)
  {
    assert ShowNat(33) == "33";
    ParseShowMillis(33);
    assert ShowNat(33) + "ms" == "33ms";
  }

  // ---- one key ----

  /** An integer in `[min, max]` reached from `min` in whole steps (a step
      of 0 or 1 allows every integer in range). */
  predicate InRange(k: Kind, i: int)
    requires k.IntRange?
  {
    k.min <= i <= k.max && (k.step <= 1 || (i - k.min) % k.step == 0)
  }

  /** A validated value has the shape its kind promises. */
  predicate Conforms(k: Kind, v: Value, symbols: Symbols)
  {
    match k
    case IntRange(_, _, _) => v.IntV? && InRange(k, v.i)
    case Boolean => v.BoolV?
    case PositiveMillis => v.MillisV?
    case UseId(cls) => v.IdV? && v.id in symbols && symbols[v.id] == cls
    case DeclareId(_) => v.IdV?
  }

  /** The period validator's lower bound is inclusive: "0ms" is accepted
      as a period of zero milliseconds. */
  lemma ZeroPeriodAccepted(key: string, symbols: Symbols)
    ensures CheckKind(key, PositiveMillis, StrV("0ms"), symbols) == Success(MillisV(0))
  {
    assert ShowNat(0) == "0";
    ParseShowMillis(0);
    assert ShowNat(0) + "ms" == "0ms";
  }

  /** The validator of one kind applied to `v`. */
  function CheckKind(key: string, k: Kind, v: Value, symbols: Symbols): (r: Result<Value>)
    ensures r.Success? ==> Conforms(k, r.value, symbols)
    ensures r.Failure? ==> r.key == key
    ensures k.IntRange? ==> (r.Success? <==> v.IntV? && InRange(k, v.i))
    ensures r.Success? && !k.PositiveMillis? ==> r.value == v
  {
    match k
    case IntRange(_, _, _) =>
      if v.IntV? && InRange(k, v.i) then Success(v) else Failure(key)
    case Boolean =>
      if v.BoolV? then Success(v) else Failure(key)
    case PositiveMillis =>
      if v.StrV? && ParseMillis(v.s).Some?
      then Success(MillisV(ParseMillis(v.s).value))
      else Failure(key)
    case UseId(cls) =>
      if v.IdV? && v.id in symbols && symbols[v.id] == cls then Success(v) else Failure(key)
    case DeclareId(_) =>
      if v.IdV? then Success(v) else Failure(key)
  }

  /** One key of the configuration: a given value is checked; an absent
      required key is an error; an absent optional key takes its default,
      which is checked like a given value; an absent ID is generated. */
  function CheckField(f: Field, input: map<string, Value>, symbols: Symbols, autoId: string): (r: Result<Value>)
    ensures f.name in input ==> r == CheckKind(f.name, f.kind, input[f.name], symbols)
    ensures f.name !in input && f.presence.Required? ==> r.Failure?
    ensures r.Success? && (f.presence.GenerateId? ==> f.kind.DeclareId?) ==> Conforms(f.kind, r.value, symbols)
    ensures r.Failure? ==> r.key == f.name
  {
    if f.name in input then CheckKind(f.name, f.kind, input[f.name], symbols)
    else match f.presence
      case Required => Failure(f.name)
      case Optional(d) => CheckKind(f.name, f.kind, d, symbols)
      case GenerateId => Success(IdV(autoId))
  }

  // ---- a whole schema ----

  /** The keys a schema names. */
  function Names(schema: seq<Field>): set<string>
  {
    if |schema| == 0 then {} else {schema[0].name} + Names(schema[1..])
  }

  predicate DistinctNames(schema: seq<Field>)
  {
    forall i, j :: 0 <= i < j < |schema| ==> schema[i].name != schema[j].name
  }

  lemma {:induction false} NamesIndex(schema: seq<Field>, i: nat)
    requires i < |schema|
    ensures schema[i].name in Names(schema)
    decreases i
  {
    if i > 0 {
      NamesIndex(schema[1..], i - 1);
    }
  }

  /** `m` maps `k` to `v`. */
  predicate Has(m: map<string, Value>, k: string, v: Value)
  {
    k in m && m[k] == v
  }

  /** Validates every key of `schema`; the result holds exactly the
      schema's keys, each with the value its own validator gave, and the
      whole configuration is refused as soon as one key is. */
  function Validate(schema: seq<Field>, input: map<string, Value>, symbols: Symbols, autoId: string)
    : (r: Result<map<string, Value>>)
    requires DistinctNames(schema)
    ensures r.Success? <==> forall i :: 0 <= i < |schema| ==> CheckField(schema[i], input, symbols, autoId).Success?
    ensures r.Success? ==> r.value.Keys == Names(schema)
    ensures r.Success? ==> forall i :: 0 <= i < |schema| ==>
      schema[i].name in r.value && r.value[schema[i].name] == CheckField(schema[i], input, symbols, autoId).value
    ensures r.Failure? ==> r.key in Names(schema)
    decreases |schema|
  {
    if |schema| == 0 then Success(map[])
    else
      var rest := schema[1..];
      assert forall i :: 0 <= i < |rest| ==> rest[i] == schema[i + 1];
      match CheckField(schema[0], input, symbols, autoId)
      case Failure(k) => Failure(k)
      case Success(v) =>
        match Validate(rest, input, symbols, autoId)
        case Failure(k) => Failure(k)
        case Success(m) =>
          assert forall i :: 0 < i < |schema| ==> schema[i].name != schema[0].name;
          Success(m[schema[0].name := v])
  }

  /** The Python type a validated value of kind `k` has, which is all
      code generation looks at. */
  predicate HasShape(k: Kind, v: Value)
  {
    match k
    case IntRange(_, _, _) => v.IntV?
    case Boolean => v.BoolV?
    case PositiveMillis => v.MillisV?
    case UseId(_) => v.IdV?
    case DeclareId(_) => v.IdV?
  }

  /** Every key of `schema` is present in `config` with its kind's shape. */
  predicate Shaped(schema: seq<Field>, config: map<string, Value>)
  {
    forall i :: 0 <= i < |schema| ==> schema[i].name in config && HasShape(schema[i].kind, config[schema[i].name])
  }

  /** Generated keys are IDs. */
  predicate GeneratesIds(schema: seq<Field>)
  {
    forall i :: 0 <= i < |schema| ==> schema[i].presence.GenerateId? ==> schema[i].kind.DeclareId?
  }

  /** A configuration the validator accepted has every key `to_code` reads,
      each with the shape its kind promises. */
  lemma ValidatedIsShaped(schema: seq<Field>, input: map<string, Value>, symbols: Symbols, autoId: string)
    requires DistinctNames(schema) && GeneratesIds(schema)
    requires Validate(schema, input, symbols, autoId).Success?
    ensures Shaped(schema, Validate(schema, input, symbols, autoId).value)
  {
    var m := Validate(schema, input, symbols, autoId).value;
    forall i | 0 <= i < |schema|
      ensures schema[i].name in m && HasShape(schema[i].kind, m[schema[i].name])
    {
      var f := schema[i];
      assert Conforms(f.kind, CheckField(f, input, symbols, autoId).value, symbols);
    }
  }

  // ---- the three schemas ----

  const CONF_ID: string := "id"
  const CONF_CAMERA_ID: string := "camera_id"
  const CONF_BITRATE: string := "bitrate"
  const CONF_GOP_SIZE: string := "gop_size"
  const CONF_QUALITY: string := "quality"
  const CONF_UPDATE_INTERVAL: string := "update_interval"
  const CONF_DIRECT_MODE: string := "direct_mode"
  const CONF_USE_PPA: string := "use_ppa"
  const CONF_ROTATION: string := "rotation"
  const CONF_MIRROR_X: string := "mirror_x"
  const CONF_MIRROR_Y: string := "mirror_y"

  const H264_SCHEMA: seq<Field> := [
    Field(CONF_ID, DeclareId("H264Encoder"), GenerateId),
    Field(CONF_CAMERA_ID, UseId("MipiDsiCam"), Required),
    Field(CONF_BITRATE, IntRange(100000, 20000000, 1), Optional(IntV(2000000))),
    Field(CONF_GOP_SIZE, IntRange(1, 300, 1), Optional(IntV(30)))
  ]

  const JPEG_SCHEMA: seq<Field> := [
    Field(CONF_ID, DeclareId("JPEGEncoder"), GenerateId),
    Field(CONF_QUALITY, IntRange(1, 100, 1), Optional(IntV(80)))
  ]

  const LVGL_CAMERA_DISPLAY_SCHEMA: seq<Field> := [
    Field(CONF_ID, DeclareId("LVGLCameraDisplay"), GenerateId),
    Field(CONF_CAMERA_ID, UseId("ESP32Camera"), Required),
    Field(CONF_UPDATE_INTERVAL, PositiveMillis, Optional(StrV("33ms"))),
    Field(CONF_DIRECT_MODE, Boolean, Optional(BoolV(true))),
    Field(CONF_USE_PPA, Boolean, Optional(BoolV(true))),
    Field(CONF_ROTATION, IntRange(0, 270, 90), Optional(IntV(0))),
    Field(CONF_MIRROR_X, Boolean, Optional(BoolV(false))),
    Field(CONF_MIRROR_Y, Boolean, Optional(BoolV(true)))
  ]

  /** What a component needs present (`DEPENDENCIES`) and what it loads
      itself (`AUTO_LOAD`). */
  datatype Manifest = Manifest(component: string, dependencies: set<string>, autoLoad: set<string>)

  const H264_MANIFEST: Manifest := Manifest("h264", {"mipi_dsi_cam"}, {})
  const JPEG_MANIFEST: Manifest := Manifest("jpeg", {"mipi_dsi_cam"}, {})
  const LVGL_CAMERA_DISPLAY_MANIFEST: Manifest :=
    Manifest("lvgl_camera_display", {"esp32_camera", "lvgl"}, {"esp32_camera"})

  /** Every dependency is configured or loaded by the component itself. */
  predicate DependenciesMet(m: Manifest, configured: set<string>)
  {
    m.dependencies <= configured + m.autoLoad
  }

  /** The encoders need `mipi_dsi_cam` configured; the display needs only
      `lvgl`, since it loads `esp32_camera` itself. */
  lemma ManifestRequirements(configured: set<string>)
    ensures DependenciesMet(H264_MANIFEST, configured) <==> "mipi_dsi_cam" in configured
    ensures DependenciesMet(JPEG_MANIFEST, configured) <==> "mipi_dsi_cam" in configured
    ensures DependenciesMet(LVGL_CAMERA_DISPLAY_MANIFEST, configured) <==> "lvgl" in configured
  {
  }

  /** Each schema's keys are distinct, so a validated configuration maps
      each of them to one value. */
  lemma SchemasWellFormed()
    ensures DistinctNames(H264_SCHEMA) && DistinctNames(JPEG_SCHEMA)
    ensures DistinctNames(LVGL_CAMERA_DISPLAY_SCHEMA)
    ensures GeneratesIds(H264_SCHEMA) && GeneratesIds(JPEG_SCHEMA)
    ensures GeneratesIds(LVGL_CAMERA_DISPLAY_SCHEMA)
  {
  }

  /** `h264` with only a camera reference to a declared `MipiDsiCam`:
      accepted, with a generated ID, 2 Mbit/s and a GOP of 30. */
  lemma H264Defaults(cam: string, symbols: Symbols, autoId: string)
    requires cam in symbols && symbols[cam] == "MipiDsiCam"
    ensures DistinctNames(H264_SCHEMA)
    ensures var r := Validate(H264_SCHEMA, map[CONF_CAMERA_ID := IdV(cam)], symbols, autoId);
      r.Success? &&
      Has(r.value, CONF_ID, IdV(autoId)) && Has(r.value, CONF_CAMERA_ID, IdV(cam)) &&
      Has(r.value, CONF_BITRATE, IntV(2000000)) && Has(r.value, CONF_GOP_SIZE, IntV(30))
  {
    var input := map[CONF_CAMERA_ID := IdV(cam)];
    var s := H264_SCHEMA;
    assert CheckField(s[0], input, symbols, autoId) == Success(IdV(autoId));
    assert CheckField(s[1], input, symbols, autoId) == Success(IdV(cam));
    assert CheckField(s[2], input, symbols, autoId) == Success(IntV(2000000));
    assert CheckField(s[3], input, symbols, autoId) == Success(IntV(30));
  }

  /** `h264` needs its camera: without `camera_id`, or with one that does
      not name a declared `MipiDsiCam`, the configuration is refused. */
  lemma H264CameraRequired(input: map<string, Value>, symbols: Symbols, autoId: string)
    requires CONF_CAMERA_ID !in input ||
      !(input[CONF_CAMERA_ID].IdV? && input[CONF_CAMERA_ID].id in symbols &&
        symbols[input[CONF_CAMERA_ID].id] == "MipiDsiCam")
    ensures DistinctNames(H264_SCHEMA)
    ensures Validate(H264_SCHEMA, input, symbols, autoId).Failure?
  {
    assert CheckField(H264_SCHEMA[1], input, symbols, autoId).Failure?;
  }

  /** A given bitrate or GOP size is accepted exactly inside its inclusive
      range. */
  lemma H264Ranges(input: map<string, Value>, symbols: Symbols, autoId: string)
    ensures DistinctNames(H264_SCHEMA)
    ensures CONF_BITRATE in input && input[CONF_BITRATE].IntV? ==>
      (CheckField(H264_SCHEMA[2], input, symbols, autoId).Success? <==>
        100000 <= input[CONF_BITRATE].i <= 20000000)
    ensures CONF_GOP_SIZE in input && input[CONF_GOP_SIZE].IntV? ==>
      (CheckField(H264_SCHEMA[3], input, symbols, autoId).Success? <==>
        1 <= input[CONF_GOP_SIZE].i <= 300)
  {
  }

  /** `jpeg` with nothing configured: accepted with a generated ID and
      quality 80; a given quality is accepted exactly in [1, 100]. */
  lemma JpegDefaults(input: map<string, Value>, symbols: Symbols, autoId: string)
    ensures DistinctNames(JPEG_SCHEMA)
    ensures var r := Validate(JPEG_SCHEMA, map[], symbols, autoId);
      r.Success? &&
      Has(r.value, CONF_ID, IdV(autoId)) && Has(r.value, CONF_QUALITY, IntV(80))
    ensures CONF_QUALITY in input && input[CONF_QUALITY].IntV? ==>
      (CheckField(JPEG_SCHEMA[1], input, symbols, autoId).Success? <==> 1 <= input[CONF_QUALITY].i <= 100)
  {
    var s := JPEG_SCHEMA;
    assert CheckField(s[0], map[], symbols, autoId) == Success(IdV(autoId));
    assert CheckField(s[1], map[], symbols, autoId) == Success(IntV(80));
  }

  /** `lvgl_camera_display` with only a camera reference to a declared
      `ESP32Camera`: 33 ms, direct mode, PPA, rotation 0, mirrored on Y
      only. */
  lemma LvglCameraDisplayDefaults(cam: string, symbols: Symbols, autoId: string)
    requires cam in symbols && symbols[cam] == "ESP32Camera"
    ensures DistinctNames(LVGL_CAMERA_DISPLAY_SCHEMA)
    ensures var r := Validate(LVGL_CAMERA_DISPLAY_SCHEMA, map[CONF_CAMERA_ID := IdV(cam)], symbols, autoId);
      r.Success? &&
      Has(r.value, CONF_ID, IdV(autoId)) && Has(r.value, CONF_CAMERA_ID, IdV(cam)) &&
      Has(r.value, CONF_UPDATE_INTERVAL, MillisV(33)) &&
      Has(r.value, CONF_DIRECT_MODE, BoolV(true)) && Has(r.value, CONF_USE_PPA, BoolV(true)) &&
      Has(r.value, CONF_ROTATION, IntV(0)) &&
      Has(r.value, CONF_MIRROR_X, BoolV(false)) && Has(r.value, CONF_MIRROR_Y, BoolV(true))
  {
    var input := map[CONF_CAMERA_ID := IdV(cam)];
    var s := LVGL_CAMERA_DISPLAY_SCHEMA;
    DefaultIntervalIs33();
    assert CheckField(s[0], input, symbols, autoId) == Success(IdV(autoId));
    assert CheckField(s[1], input, symbols, autoId) == Success(IdV(cam));
    assert CheckField(s[2], input, symbols, autoId) == Success(MillisV(33));
    assert CheckField(s[3], input, symbols, autoId) == Success(BoolV(true));
    assert CheckField(s[4], input, symbols, autoId) == Success(BoolV(true));
    assert CheckField(s[5], input, symbols, autoId) == Success(IntV(0));
    assert CheckField(s[6], input, symbols, autoId) == Success(BoolV(false));
    assert CheckField(s[7], input, symbols, autoId) == Success(BoolV(true));
  }

  /** The rotation key accepts exactly the four right angles. */
  lemma RotationRightAngles(r: int)
    ensures InRange(IntRange(0, 270, 90), r) <==> r in {0, 90, 180, 270}
  {
    if 0 <= r <= 270 && r % 90 == 0 {
      assert r == 90 * (r / 90);
    }
  }
}
