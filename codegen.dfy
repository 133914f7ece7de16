/** The `to_code` steps of the `h264`, `jpeg` and `lvgl_camera_display`
    components: each appends, in a fixed order, the C++ statements that
    construct the component from its validated configuration. */
module CodeGen {
  import opened ConfigSchema

  /** An argument of a generated setter call. */
  datatype Arg = IntArg(i: int) | BoolArg(b: bool) | MillisArg(ms: nat) | VarArg(id: string)

  /** One step of the generated program. */
  datatype Emission =
    | NewPvariable(id: string, cls: string)        // cg.new_Pvariable
    | RegisterComponent(id: string)                // cg.register_component
    | GetVariable(id: string)                      // cg.get_variable
    | Call(target: string, setter: string, arg: Arg) // cg.add(var.setter(arg))
    | AddDefine(name: string)                      // cg.add_define
    | AddLibrary(name: string, version: string)    // cg.add_library

  /** The variables a step reads. */
  function Uses(e: Emission): set<string>
  {
    match e
    case RegisterComponent(id) => {id}
    case Call(target, _, arg) => if arg.VarArg? then {target, arg.id} else {target}
    case _ => {}
  }

  /** The variable a step makes available. */
  function Declares(e: Emission): set<string>
  {
    match e
    case NewPvariable(id, _) => {id}
    case GetVariable(id) => {id}
    case _ => {}
  }

  /** No step reads a variable before an earlier step made it available. */
  predicate DeclaredBeforeUse(ops: seq<Emission>)
  {
    forall i, x :: 0 <= i < |ops| && x in Uses(ops[i]) ==>
      exists j :: 0 <= j < i && x in Declares(ops[j])
  }

  /** The setters called, in order. */
  function Setters(ops: seq<Emission>): (r: seq<string>)
    ensures |r| <= |ops|
  {
    if |ops| == 0 then []
    else
      Setters(ops[..|ops| - 1]) + (if ops[|ops| - 1].Call? then [ops[|ops| - 1].setter] else [])
  }

  /** Where `ops[lo..hi]` are exactly the calls, the setters are theirs. */
  lemma {:induction false} SettersFramed(ops: seq<Emission>, lo: nat, hi: nat)
    requires lo <= hi <= |ops|
    requires forall i :: 0 <= i < |ops| ==> (ops[i].Call? <==> lo <= i < hi)
    ensures Setters(ops) == seq(hi - lo, k requires 0 <= k < hi - lo => ops[lo + k].setter)
    decreases |ops|
  {
    if |ops| == 0 {
    } else {
      var init := ops[..|ops| - 1];
      if hi < |ops| {
        SettersFramed(init, lo, hi);
      } else if lo < hi {
        SettersFramed(init, lo, hi - 1);
      } else {
        SettersFramed(init, |init|, |init|);
      }
    }
  }

  /** The preprocessor symbols defined. */
  function Defines(ops: seq<Emission>): set<string>
  {
    set i | 0 <= i < |ops| && ops[i].AddDefine? :: ops[i].name
  }

  // ---- the three plans ----

  /** The keys each `to_code` reads, with their shapes. */
  predicate H264Config(c: map<string, Value>)
  {
    CONF_ID in c && c[CONF_ID].IdV? && CONF_CAMERA_ID in c && c[CONF_CAMERA_ID].IdV? &&
    CONF_BITRATE in c && c[CONF_BITRATE].IntV? && CONF_GOP_SIZE in c && c[CONF_GOP_SIZE].IntV?
  }

  predicate JpegConfig(c: map<string, Value>)
  {
    CONF_ID in c && c[CONF_ID].IdV? && CONF_QUALITY in c && c[CONF_QUALITY].IntV?
  }

  predicate LvglCameraDisplayConfig(c: map<string, Value>)
  {
    CONF_ID in c && c[CONF_ID].IdV? && CONF_CAMERA_ID in c && c[CONF_CAMERA_ID].IdV? &&
    CONF_UPDATE_INTERVAL in c && c[CONF_UPDATE_INTERVAL].MillisV? &&
    CONF_DIRECT_MODE in c && c[CONF_DIRECT_MODE].BoolV? && CONF_USE_PPA in c && c[CONF_USE_PPA].BoolV? &&
    CONF_ROTATION in c && c[CONF_ROTATION].IntV? &&
    CONF_MIRROR_X in c && c[CONF_MIRROR_X].BoolV? && CONF_MIRROR_Y in c && c[CONF_MIRROR_Y].BoolV?
  }

  /** A configuration shaped by a schema has every key that schema's
      `to_code` reads. */
  lemma ShapedConfigs(c: map<string, Value>)
    ensures Shaped(H264_SCHEMA, c) ==> H264Config(c)
    ensures Shaped(JPEG_SCHEMA, c) ==> JpegConfig(c)
    ensures Shaped(LVGL_CAMERA_DISPLAY_SCHEMA, c) ==> LvglCameraDisplayConfig(c)
  {
    if Shaped(H264_SCHEMA, c) {
      var s := H264_SCHEMA;
      assert s[0].name in c && HasShape(s[0].kind, c[s[0].name]);
      assert s[1].name in c && HasShape(s[1].kind, c[s[1].name]);
      assert s[2].name in c && HasShape(s[2].kind, c[s[2].name]);
      assert s[3].name in c && HasShape(s[3].kind, c[s[3].name]);
    }
    if Shaped(JPEG_SCHEMA, c) {
      var s := JPEG_SCHEMA;
      assert s[0].name in c && HasShape(s[0].kind, c[s[0].name]);
      assert s[1].name in c && HasShape(s[1].kind, c[s[1].name]);
    }
    if Shaped(LVGL_CAMERA_DISPLAY_SCHEMA, c) {
      var s := LVGL_CAMERA_DISPLAY_SCHEMA;
      assert s[0].name in c && HasShape(s[0].kind, c[s[0].name]);
      assert s[1].name in c && HasShape(s[1].kind, c[s[1].name]);
      assert s[2].name in c && HasShape(s[2].kind, c[s[2].name]);
      assert s[3].name in c && HasShape(s[3].kind, c[s[3].name]);
      assert s[4].name in c && HasShape(s[4].kind, c[s[4].name]);
      assert s[5].name in c && HasShape(s[5].kind, c[s[5].name]);
      assert s[6].name in c && HasShape(s[6].kind, c[s[6].name]);
      assert s[7].name in c && HasShape(s[7].kind, c[s[7].name]);
    }
  }

  function H264Plan(c: map<string, Value>): (ops: seq<Emission>)
    requires H264Config(c)
    ensures |ops| == 7
  {
    var id := c[CONF_ID].id;
    var cam := c[CONF_CAMERA_ID].id;
    [ NewPvariable(id, "H264Encoder"),
      RegisterComponent(id),
      GetVariable(cam),
      Call(id, "set_camera", VarArg(cam)),
      Call(id, "set_bitrate", IntArg(c[CONF_BITRATE].i)),
      Call(id, "set_gop_size", IntArg(c[CONF_GOP_SIZE].i)),
      AddDefine("USE_H264_ENCODER") ]
  }

  function JpegPlan(c: map<string, Value>): (ops: seq<Emission>)
    requires JpegConfig(c)
    ensures |ops| == 4
  {
    var id := c[CONF_ID].id;
    [ NewPvariable(id, "JPEGEncoder"),
      RegisterComponent(id),
      Call(id, "set_quality", IntArg(c[CONF_QUALITY].i)),
      AddDefine("USE_JPEG_ENCODER") ]
  }

  function LvglCameraDisplayPlan(c: map<string, Value>): (ops: seq<Emission>)
    requires LvglCameraDisplayConfig(c)
    ensures |ops| == (if c[CONF_USE_PPA].b then 12 else 11)
  {
    var id := c[CONF_ID].id;
    var cam := c[CONF_CAMERA_ID].id;
    [ NewPvariable(id, "LVGLCameraDisplay"),
      RegisterComponent(id),
      GetVariable(cam),
      Call(id, "set_camera", VarArg(cam)),
      Call(id, "set_update_interval", MillisArg(c[CONF_UPDATE_INTERVAL].ms)),
      Call(id, "set_direct_mode", BoolArg(c[CONF_DIRECT_MODE].b)),
      Call(id, "set_use_ppa", BoolArg(c[CONF_USE_PPA].b)),
      Call(id, "set_rotation", IntArg(c[CONF_ROTATION].i)),
      Call(id, "set_mirror_x", BoolArg(c[CONF_MIRROR_X].b)),
      Call(id, "set_mirror_y", BoolArg(c[CONF_MIRROR_Y].b)),
      AddLibrary("lvgl/lvgl", "8.3.11") ] +
    (if c[CONF_USE_PPA].b then [AddDefine("USE_PPA_ACCELERATION")] else [])
  }

  /** A setter call on the component carries the configured value of its
      key. */
  predicate SetsFrom(ops: seq<Emission>, id: string, setter: string, arg: Arg)
  {
    Call(id, setter, arg) in ops
  }

  // ---- properties of the plans ----

  lemma H264PlanProperties(c: map<string, Value>)
    requires H264Config(c)
    ensures var ops := H264Plan(c);
      DeclaredBeforeUse(ops) &&
      Setters(ops) == ["set_camera", "set_bitrate", "set_gop_size"] &&
      Defines(ops) == {"USE_H264_ENCODER"} && ops[|ops| - 1] == AddDefine("USE_H264_ENCODER") &&
      SetsFrom(ops, c[CONF_ID].id, "set_bitrate", IntArg(c[CONF_BITRATE].i)) &&
      SetsFrom(ops, c[CONF_ID].id, "set_gop_size", IntArg(c[CONF_GOP_SIZE].i)) &&
      SetsFrom(ops, c[CONF_ID].id, "set_camera", VarArg(c[CONF_CAMERA_ID].id))
  {
    var ops := H264Plan(c);
    SettersFramed(ops, 3, 6);
    DeclaredBeforeUseByIndex(ops);
    DefinesOfPlan(ops);
  }

  /** The `jpeg` schema names no camera, so its plan looks nothing up and
      never calls `set_camera`. */
  lemma JpegPlanProperties(c: map<string, Value>)
    requires JpegConfig(c)
    ensures var ops := JpegPlan(c);
      DeclaredBeforeUse(ops) &&
      Setters(ops) == ["set_quality"] &&
      Defines(ops) == {"USE_JPEG_ENCODER"} && ops[|ops| - 1] == AddDefine("USE_JPEG_ENCODER") &&
      (forall e :: e in ops ==> !e.GetVariable? && !(e.Call? && e.setter == "set_camera")) &&
      SetsFrom(ops, c[CONF_ID].id, "set_quality", IntArg(c[CONF_QUALITY].i))
  {
    var ops := JpegPlan(c);
    SettersFramed(ops, 2, 3);
    DeclaredBeforeUseByIndex(ops);
    DefinesOfPlan(ops);
  }

  /** `USE_PPA_ACCELERATION` is defined exactly when `use_ppa` is set, and
      the library comes after every setter. */
  lemma LvglCameraDisplayPlanProperties(c: map<string, Value>)
    requires LvglCameraDisplayConfig(c)
    ensures var ops := LvglCameraDisplayPlan(c);
      DeclaredBeforeUse(ops) &&
      Setters(ops) == ["set_camera", "set_update_interval", "set_direct_mode", "set_use_ppa",
                       "set_rotation", "set_mirror_x", "set_mirror_y"] &&
      ("USE_PPA_ACCELERATION" in Defines(ops) <==> c[CONF_USE_PPA].b) &&
      Defines(ops) <= {"USE_PPA_ACCELERATION"} &&
      ops[10] == AddLibrary("lvgl/lvgl", "8.3.11") &&
      (forall i :: 10 < i < |ops| ==> !ops[i].Call?) &&
      SetsFrom(ops, c[CONF_ID].id, "set_rotation", IntArg(c[CONF_ROTATION].i)) &&
      SetsFrom(ops, c[CONF_ID].id, "set_update_interval", MillisArg(c[CONF_UPDATE_INTERVAL].ms))
  {
    LvglPlanDeclaredBeforeUse(c);
    LvglPlanSetters(c);
    DefinesOfPlan(LvglCameraDisplayPlan(c));
  }

  /** Every name the display's plan uses is declared earlier in it. */
  lemma LvglPlanDeclaredBeforeUse(c: map<string, Value>)
    requires LvglCameraDisplayConfig(c)
    ensures DeclaredBeforeUse(LvglCameraDisplayPlan(c))
  {
    DeclaredBeforeUseByIndex(LvglCameraDisplayPlan(c));
  }

  /** The display's plan calls its seven setters in source order. */
  lemma LvglPlanSetters(c: map<string, Value>)
    requires LvglCameraDisplayConfig(c)
    ensures Setters(LvglCameraDisplayPlan(c)) ==
      ["set_camera", "set_update_interval", "set_direct_mode", "set_use_ppa",
       "set_rotation", "set_mirror_x", "set_mirror_y"]
  {
    SettersFramed(LvglCameraDisplayPlan(c), 3, 10);
  }

  /** Every use in a plan is declared at index 0 (the component) or at
      index 2 (the camera). */
  lemma DeclaredBeforeUseByIndex(ops: seq<Emission>)
    requires |ops| >= 3 && ops[0].NewPvariable?
    requires forall i :: 1 <= i < |ops| ==> !ops[i].Call? || ops[i].target == ops[0].id
    requires forall i :: 1 <= i < |ops| ==> ops[i].RegisterComponent? ==> ops[i].id == ops[0].id
    requires forall i :: 0 <= i < 3 && ops[i].Call? ==> !ops[i].arg.VarArg?
    requires forall i :: 3 <= i < |ops| && ops[i].Call? && ops[i].arg.VarArg? ==>
      ops[2] == GetVariable(ops[i].arg.id)
    ensures DeclaredBeforeUse(ops)
  {
    forall i, x | 0 <= i < |ops| && x in Uses(ops[i])
      ensures exists j :: 0 <= j < i && x in Declares(ops[j])
    {
      if ops[i].Call? && ops[i].arg.VarArg? && x == ops[i].arg.id {
        assert x in Declares(ops[2]);
      } else {
        assert x in Declares(ops[0]);
      }
    }
  }

  /** The defines of a plan are those of its `AddDefine` steps. */
  lemma DefinesOfPlan(ops: seq<Emission>)
    ensures forall d :: d in Defines(ops) <==> AddDefine(d) in ops
  {
    forall d ensures d in Defines(ops) <==> AddDefine(d) in ops {
      if AddDefine(d) in ops {
        var i :| 0 <= i < |ops| && ops[i] == AddDefine(d);
        assert ops[i].AddDefine? && ops[i].name == d;
      }
    }
  }

  /** `h264` with only a camera configured: the generated program sets
      2 Mbit/s and a GOP of 30. */
  lemma H264DefaultsReachCode(cam: string, symbols: Symbols, autoId: string)
    requires cam in symbols && symbols[cam] == "MipiDsiCam"
    ensures DistinctNames(H264_SCHEMA) && GeneratesIds(H264_SCHEMA)
    ensures var r := Validate(H264_SCHEMA, map[CONF_CAMERA_ID := IdV(cam)], symbols, autoId);
      r.Success? && H264Config(r.value) &&
      H264Plan(r.value)[4..6] == [Call(autoId, "set_bitrate", IntArg(2000000)),
                                  Call(autoId, "set_gop_size", IntArg(30))]
  {
    SchemasWellFormed();
    H264Defaults(cam, symbols, autoId);
    ValidatedIsShaped(H264_SCHEMA, map[CONF_CAMERA_ID := IdV(cam)], symbols, autoId);
    ShapedConfigs(Validate(H264_SCHEMA, map[CONF_CAMERA_ID := IdV(cam)], symbols, autoId).value);
  }

  /** The generated program under construction. */
  class CodeGenerator {
    var ops: seq<Emission>

    constructor()
      ensures ops == []
    {
      ops := [];
    }

    /** One `cg.add` (or declaration, define or library) appended in order. */
    method Emit(e: Emission)
      modifies this
      ensures ops == old(ops) + [e]
    {
      ops := ops + [e];
    }

    /** `h264`'s `to_code`. */
    method H264ToCode(c: map<string, Value>)
      requires H264Config(c)
      modifies this
      ensures ops == old(ops) + H264Plan(c)
    {
      var id := c[CONF_ID].id;
      Emit(NewPvariable(id, "H264Encoder"));
      Emit(RegisterComponent(id));
      var cam := c[CONF_CAMERA_ID].id;
      Emit(GetVariable(cam));
      Emit(Call(id, "set_camera", VarArg(cam)));
      Emit(Call(id, "set_bitrate", IntArg(c[CONF_BITRATE].i)));
      Emit(Call(id, "set_gop_size", IntArg(c[CONF_GOP_SIZE].i)));
      Emit(AddDefine("USE_H264_ENCODER"));
    }

    /** `jpeg`'s `to_code`. */
    method JpegToCode(c: map<string, Value>)
      requires JpegConfig(c)
      modifies this
      ensures ops == old(ops) + JpegPlan(c)
    {
      var id := c[CONF_ID].id;
      Emit(NewPvariable(id, "JPEGEncoder"));
      Emit(RegisterComponent(id));
      Emit(Call(id, "set_quality", IntArg(c[CONF_QUALITY].i)));
      Emit(AddDefine("USE_JPEG_ENCODER"));
    }

    /** `lvgl_camera_display`'s `to_code`. */
    method LvglCameraDisplayToCode(c: map<string, Value>)
      requires LvglCameraDisplayConfig(c)
      modifies this
      ensures ops == old(ops) + LvglCameraDisplayPlan(c)
    {
      var id := c[CONF_ID].id;
      Emit(NewPvariable(id, "LVGLCameraDisplay"));
      Emit(RegisterComponent(id));
      var cam := c[CONF_CAMERA_ID].id;
      Emit(GetVariable(cam));
      Emit(Call(id, "set_camera", VarArg(cam)));
      Emit(Call(id, "set_update_interval", MillisArg(c[CONF_UPDATE_INTERVAL].ms)));
      Emit(Call(id, "set_direct_mode", BoolArg(c[CONF_DIRECT_MODE].b)));
      Emit(Call(id, "set_use_ppa", BoolArg(c[CONF_USE_PPA].b)));
      Emit(Call(id, "set_rotation", IntArg(c[CONF_ROTATION].i)));
      Emit(Call(id, "set_mirror_x", BoolArg(c[CONF_MIRROR_X].b)));
      Emit(Call(id, "set_mirror_y", BoolArg(c[CONF_MIRROR_Y].b)));
      Emit(AddLibrary("lvgl/lvgl", "8.3.11"));
      if c[CONF_USE_PPA].b {
        Emit(AddDefine("USE_PPA_ACCELERATION"));
      }
    }
  }
}
