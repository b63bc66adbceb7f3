/** The MuJoCo-facing accessors of `MuJoCoInstance`, over an abstract model and
    simulation record whose arrays are plain sequences. Control values and
    positions are mathematical reals (the source's `Float32Array`/`Float64Array`
    rounding is not modelled); names stay as bytes (UTF-8 decoding is foreign). */
module MujocoInstance {
  import opened Common

  /** The fields of MuJoCo's `mjModel` the accessors read. The force-limited array
      may be missing from the bindings, which the source tests for. */
  datatype Model = Model(
    nu: nat,
    njnt: nat,
    names: seq<byte>,
    nameActuatorAdr: seq<nat>,
    nameJntAdr: seq<nat>,
    actuatorCtrlLimited: seq<bool>,
    actuatorCtrlRange: seq<real>,
    actuatorForceLimited: Option<seq<bool>>,
    actuatorForceRange: seq<real>,
    actuatorTrnType: seq<int>,
    actuatorTrnId: seq<int>,
    actuatorBiasType: seq<int>,
    jntType: seq<int>,
    jntQposAdr: seq<nat>)

  /** The fields of `mjData` the accessors read or write. */
  datatype Simulation = Simulation(ctrl: seq<real>, qpos: seq<real>)

  /** MuJoCo's joint type enumeration `mjtJoint`. */
  const MJ_JNT_FREE: int := 0
  const MJ_JNT_BALL: int := 1
  const MJ_JNT_SLIDE: int := 2
  const MJ_JNT_HINGE: int := 3
  /** MuJoCo's transmission type `mjTRN_JOINT`. */
  const MJ_TRN_JOINT: int := 0

  /** Joint type name and the number of `qpos` entries the source reads for it. */
  datatype JointKind = JointKind(name: string, dofDim: nat)

  function JointKindOf(jntType: int): (k: JointKind)
    ensures jntType == MJ_JNT_HINGE ==> k == JointKind("hinge", 1)
    ensures jntType == MJ_JNT_SLIDE ==> k == JointKind("slide", 1)
    ensures jntType == MJ_JNT_BALL ==> k == JointKind("ball", 3)
    ensures jntType == MJ_JNT_FREE ==> k == JointKind("free", 6)
    ensures !(0 <= jntType <= 3) ==> k == JointKind("unknown", 0)
    ensures k.dofDim <= 6
  {
    if jntType == MJ_JNT_HINGE then JointKind("hinge", 1)
    else if jntType == MJ_JNT_SLIDE then JointKind("slide", 1)
    else if jntType == MJ_JNT_BALL then JointKind("ball", 3)
    else if jntType == MJ_JNT_FREE then JointKind("free", 6)
    else JointKind("unknown", 0)
  }

  /** The array layout MuJoCo guarantees for a loaded model and its data. */
  predicate WellFormed(m: Model, sim: Simulation) {
    && |m.nameActuatorAdr| == m.nu
    && |m.actuatorCtrlLimited| == m.nu
    && |m.actuatorCtrlRange| == 2 * m.nu
    && (m.actuatorForceLimited.Some? ==> |m.actuatorForceLimited.value| == m.nu)
    && |m.actuatorForceRange| == 2 * m.nu
    && |m.actuatorTrnType| == m.nu
    && |m.actuatorTrnId| == 2 * m.nu
    && |m.actuatorBiasType| == m.nu
    && |m.nameJntAdr| == m.njnt
    && |m.jntType| == m.njnt
    && |m.jntQposAdr| == m.njnt
    && |sim.ctrl| == m.nu
    && (forall j :: 0 <= j < m.njnt ==>
          m.jntQposAdr[j] < |sim.qpos| && m.jntQposAdr[j] + JointKindOf(m.jntType[j]).dofDim <= |sim.qpos|)
  }

  function Max(a: real, b: real): real { if a >= b then a else b }
  function Min(a: real, b: real): real { if a <= b then a else b }

  /** The stored control value: out-of-range values are clamped with
      `Math.max(min, Math.min(max, value))`, in-range values are kept. */
  function ClampControl(value: real, lo: real, hi: real): (r: real)
    ensures lo <= hi ==> lo <= r <= hi
    ensures lo <= value <= hi ==> r == value
    ensures lo <= hi && value < lo ==> r == lo
    ensures lo <= hi && value > hi ==> r == hi
  {
    if value < lo || value > hi then Max(lo, Min(hi, value)) else value
  }

  /** The value `setActuatorControl` stores for actuator `i`. */
  function StoredControl(m: Model, sim: Simulation, i: nat, value: real): (r: real)
    requires WellFormed(m, sim) && i < m.nu
    ensures !m.actuatorCtrlLimited[i] ==> r == value
    ensures m.actuatorCtrlLimited[i] && m.actuatorCtrlRange[2 * i] <= m.actuatorCtrlRange[2 * i + 1] ==>
      m.actuatorCtrlRange[2 * i] <= r <= m.actuatorCtrlRange[2 * i + 1]
  {
    if m.actuatorCtrlLimited[i] then ClampControl(value, m.actuatorCtrlRange[2 * i], m.actuatorCtrlRange[2 * i + 1])
    else value
  }

  datatype ControlWrite = ControlWrite(ok: bool, sim: Simulation)

  /** `setActuatorControl(index, value)`. */
  function SetActuatorControl(m: Model, sim: Simulation, index: int, value: real): (w: ControlWrite)
    requires WellFormed(m, sim)
    ensures WellFormed(m, w.sim)
    ensures w.ok <==> 0 <= index < m.nu
    ensures !w.ok ==> w.sim == sim
    ensures w.ok ==> w.sim.qpos == sim.qpos && |w.sim.ctrl| == |sim.ctrl|
    ensures w.ok ==> w.sim.ctrl[index] == StoredControl(m, sim, index, value)
    ensures w.ok ==> forall j :: 0 <= j < |sim.ctrl| && j != index ==> w.sim.ctrl[j] == sim.ctrl[j]
  {
    if index < 0 || index >= m.nu then ControlWrite(false, sim)
    else ControlWrite(true, sim.(ctrl := sim.ctrl[index := StoredControl(m, sim, index, value)]))
  }

  /** The first position whose index is out of `[0, nu)`, or the length. */
  function FirstBadIndex(m: Model, indices: seq<int>): (k: nat)
    ensures k <= |indices|
    ensures forall j :: 0 <= j < k ==> 0 <= indices[j] < m.nu
    ensures k < |indices| ==> !(0 <= indices[k] < m.nu)
    decreases |indices|
  {
    if |indices| == 0 then 0
    else if !(0 <= indices[0] < m.nu) then 0
    else 1 + FirstBadIndex(m, indices[1..])
  }

  /** The simulation after writing the first `k` (index, value) pairs in order. */
  function ApplyControls(m: Model, sim: Simulation, indices: seq<int>, values: seq<real>, k: nat): (s: Simulation)
    requires WellFormed(m, sim) && k <= |indices| && |indices| == |values|
    requires forall j :: 0 <= j < k ==> 0 <= indices[j] < m.nu
    ensures WellFormed(m, s) && s.qpos == sim.qpos
    decreases k
  {
    if k == 0 then sim
    else
      var before := ApplyControls(m, sim, indices, values, k - 1);
      SetActuatorControl(m, before, indices[k - 1], values[k - 1]).sim
  }

  /** `setActuatorControls(indices, values)`: `Some(false)` for a failure and
      `None` for the source's fall-through `undefined` on success. */
  method SetActuatorControls(m: Model, sim: Simulation, indices: seq<int>, values: seq<real>)
    returns (r: Option<bool>, sim': Simulation)
    requires WellFormed(m, sim)
    ensures WellFormed(m, sim')
    ensures r.None? || r == Some(false)
    ensures |indices| != |values| ==> r == Some(false) && sim' == sim
    ensures |indices| == |values| ==>
      && (r.None? <==> FirstBadIndex(m, indices) == |indices|)
      && sim' == ApplyControls(m, sim, indices, values, FirstBadIndex(m, indices))
  {
    if |indices| != |values| {
      return Some(false), sim;
    }
    sim' := sim;
    var i := 0;
    while i < |indices|
      invariant 0 <= i <= |indices|
      invariant forall j :: 0 <= j < i ==> 0 <= indices[j] < m.nu
      invariant i <= FirstBadIndex(m, indices)
      invariant sim' == ApplyControls(m, sim, indices, values, i)
    {
      var w := SetActuatorControl(m, sim', indices[i], values[i]);
      if !w.ok {
        return Some(false), sim';
      }
      sim' := w.sim;
      i := i + 1;
    }
    r := None;
  }

  /** A control vector respects the ranges of the control-limited actuators. */
  predicate ControlsInRange(m: Model, sim: Simulation)
    requires WellFormed(m, sim)
  {
    forall j :: 0 <= j < m.nu && m.actuatorCtrlLimited[j] ==>
      m.actuatorCtrlRange[2 * j] <= sim.ctrl[j] <= m.actuatorCtrlRange[2 * j + 1]
  }

  predicate RangesOrdered(m: Model)
    requires |m.actuatorCtrlRange| == 2 * m.nu
  {
    forall j :: 0 <= j < m.nu ==> m.actuatorCtrlRange[2 * j] <= m.actuatorCtrlRange[2 * j + 1]
  }

  /** Writing controls never leaves a limited actuator outside its range. */
  lemma {:induction false} ControlsStayInRange(m: Model, sim: Simulation, indices: seq<int>, values: seq<real>, k: nat)
    requires WellFormed(m, sim) && k <= |indices| && |indices| == |values|
    requires forall j :: 0 <= j < k ==> 0 <= indices[j] < m.nu
    requires RangesOrdered(m) && ControlsInRange(m, sim)
    ensures ControlsInRange(m, ApplyControls(m, sim, indices, values, k))
    decreases k
  {
    if k > 0 {
      ControlsStayInRange(m, sim, indices, values, k - 1);
      var before := ApplyControls(m, sim, indices, values, k - 1);
      var after := ApplyControls(m, sim, indices, values, k);
      assert after == SetActuatorControl(m, before, indices[k - 1], values[k - 1]).sim;
      forall j | 0 <= j < m.nu && m.actuatorCtrlLimited[j]
        ensures m.actuatorCtrlRange[2 * j] <= after.ctrl[j] <= m.actuatorCtrlRange[2 * j + 1]
      {
        if j != indices[k - 1] {
          assert after.ctrl[j] == before.ctrl[j];
        }
      }
    }
  }

  /** The NUL-terminated name at `adr` in the model's name table. */
  function Name(m: Model, adr: nat): (s: seq<byte>)
    ensures NoNul(s)
    ensures adr <= |m.names| ==> adr + |s| <= |m.names| && s == m.names[adr..adr + |s|]
    ensures adr <= |m.names| ==> adr + |s| == |m.names| || m.names[adr + |s|] == 0
  {
    CStringAt(m.names, adr)
  }

  /** `getJointPos`: one entry per joint, the first `qpos` entry of each. */
  method GetJointPos(m: Model, sim: Simulation) returns (r: seq<real>)
    requires WellFormed(m, sim)
    ensures |r| == m.njnt
    ensures forall j :: 0 <= j < m.njnt ==> r[j] == sim.qpos[m.jntQposAdr[j]]
  {
    r := [];
    var i := 0;
    while i < m.njnt
      invariant 0 <= i <= m.njnt && |r| == i
      invariant forall j :: 0 <= j < i ==> r[j] == sim.qpos[m.jntQposAdr[j]]
    {
      r := r + [sim.qpos[m.jntQposAdr[i]]];
      i := i + 1;
    }
  }

  datatype ActuatorKind = Motor | Position

  datatype ActuatorInfo = ActuatorInfo(
    name: seq<byte>, id: nat, jointId: int, kind: ActuatorKind, vendor: string, model: string,
    ctrl: real, ctrlMin: real, ctrlMax: real, forceMin: real, forceMax: real)

  function ForceLimited(m: Model, i: nat): bool
    requires m.actuatorForceLimited.Some? ==> i < |m.actuatorForceLimited.value|
  {
    m.actuatorForceLimited.Some? && m.actuatorForceLimited.value[i]
  }

  /** The `ActuatorInfo` of actuator `i`. */
  function ActuatorInfoAt(m: Model, sim: Simulation, i: nat): (a: ActuatorInfo)
    requires WellFormed(m, sim) && i < m.nu
    ensures a.id == i && a.name == Name(m, m.nameActuatorAdr[i]) && a.ctrl == sim.ctrl[i]
    ensures a.vendor == "mujoco" && a.model == "generic"
    ensures a.kind == (if m.actuatorBiasType[i] == 1 then Position else Motor)
    ensures m.actuatorCtrlLimited[i] ==> a.ctrlMin == m.actuatorCtrlRange[2 * i] && a.ctrlMax == m.actuatorCtrlRange[2 * i + 1]
    ensures !m.actuatorCtrlLimited[i] ==> a.ctrlMin == -1.0 && a.ctrlMax == 1.0
    ensures ForceLimited(m, i) ==> a.forceMin == m.actuatorForceRange[2 * i] && a.forceMax == m.actuatorForceRange[2 * i + 1]
    ensures !ForceLimited(m, i) ==> a.forceMin == -1.0 && a.forceMax == 1.0
    ensures m.actuatorTrnType[i] == MJ_TRN_JOINT ==> a.jointId == m.actuatorTrnId[2 * i]
    ensures m.actuatorTrnType[i] != MJ_TRN_JOINT ==> a.jointId == -1
  {
    var limited := m.actuatorCtrlLimited[i];
    var forced := ForceLimited(m, i);
    ActuatorInfo(
      Name(m, m.nameActuatorAdr[i]),
      i,
      if m.actuatorTrnType[i] == MJ_TRN_JOINT then m.actuatorTrnId[2 * i] else -1,
      if m.actuatorBiasType[i] == 1 then Position else Motor,
      "mujoco", "generic",
      sim.ctrl[i],
      if limited then m.actuatorCtrlRange[2 * i] else -1.0,
      if limited then m.actuatorCtrlRange[2 * i + 1] else 1.0,
      if forced then m.actuatorForceRange[2 * i] else -1.0,
      if forced then m.actuatorForceRange[2 * i + 1] else 1.0)
  }

  /** `getActuatorInfo`: one entry per actuator, in index order, with `id = i`. */
  method GetActuatorInfo(m: Model, sim: Simulation) returns (r: seq<ActuatorInfo>)
    requires WellFormed(m, sim)
    ensures |r| == m.nu
    ensures forall i :: 0 <= i < m.nu ==> r[i].id == i && r[i] == ActuatorInfoAt(m, sim, i)
  {
    r := [];
    var i := 0;
    while i < m.nu
      invariant 0 <= i <= m.nu && |r| == i
      invariant forall j :: 0 <= j < i ==> r[j] == ActuatorInfoAt(m, sim, j)
    {
      r := r + [ActuatorInfoAt(m, sim, i)];
      i := i + 1;
    }
  }

  datatype NameAndRange = NameAndRange(name: seq<byte>, min: real, max: real)

  /** `getActuatorNamesAndRanges`: the same name scan, with the defaults -3.14 and
      3.14 for actuators that are not control-limited. */
  method GetActuatorNamesAndRanges(m: Model, sim: Simulation) returns (r: seq<NameAndRange>)
    requires WellFormed(m, sim)
    ensures |r| == m.nu
    ensures forall i :: 0 <= i < m.nu ==> r[i].name == Name(m, m.nameActuatorAdr[i])
    ensures forall i :: 0 <= i < m.nu && m.actuatorCtrlLimited[i] ==>
      r[i].min == m.actuatorCtrlRange[2 * i] && r[i].max == m.actuatorCtrlRange[2 * i + 1]
    ensures forall i :: 0 <= i < m.nu && !m.actuatorCtrlLimited[i] ==> r[i].min == -3.14 && r[i].max == 3.14
  {
    r := [];
    var i := 0;
    while i < m.nu
      invariant 0 <= i <= m.nu && |r| == i
      invariant forall j :: 0 <= j < i ==> r[j].name == Name(m, m.nameActuatorAdr[j])
      invariant forall j :: 0 <= j < i && m.actuatorCtrlLimited[j] ==>
        r[j].min == m.actuatorCtrlRange[2 * j] && r[j].max == m.actuatorCtrlRange[2 * j + 1]
      invariant forall j :: 0 <= j < i && !m.actuatorCtrlLimited[j] ==> r[j].min == -3.14 && r[j].max == 3.14
    {
      var start := m.nameActuatorAdr[i];
      var end := ScanCString(m.names, start);
      var name := if start <= |m.names| then m.names[start..end] else [];
      var lo, hi := -3.14, 3.14;
      if m.actuatorCtrlLimited[i] {
        lo, hi := m.actuatorCtrlRange[2 * i], m.actuatorCtrlRange[2 * i + 1];
      }
      r := r + [NameAndRange(name, lo, hi)];
      i := i + 1;
    }
  }

  datatype JointInfo = JointInfo(name: seq<byte>, id: nat, kind: string, dofDim: nat, jointPos: seq<real>)

  /** `getJointInfo`: per joint, its type, its dimension from the table, and that
      many `qpos` entries starting at the joint's address. */
  method GetJointInfo(m: Model, sim: Simulation) returns (r: seq<JointInfo>)
    requires WellFormed(m, sim)
    ensures |r| == m.njnt
    ensures forall j :: 0 <= j < m.njnt ==>
      && r[j].id == j
      && r[j].name == Name(m, m.nameJntAdr[j])
      && r[j].kind == JointKindOf(m.jntType[j]).name
      && r[j].dofDim == JointKindOf(m.jntType[j]).dofDim
      && |r[j].jointPos| == r[j].dofDim
      && (forall d :: 0 <= d < r[j].dofDim ==> r[j].jointPos[d] == sim.qpos[m.jntQposAdr[j] + d])
  {
    r := [];
    var i := 0;
    while i < m.njnt
      invariant 0 <= i <= m.njnt && |r| == i
      invariant forall j :: 0 <= j < i ==>
        && r[j].id == j
        && r[j].name == Name(m, m.nameJntAdr[j])
        && r[j].kind == JointKindOf(m.jntType[j]).name
        && r[j].dofDim == JointKindOf(m.jntType[j]).dofDim
        && |r[j].jointPos| == r[j].dofDim
        && (forall d :: 0 <= d < r[j].dofDim ==> r[j].jointPos[d] == sim.qpos[m.jntQposAdr[j] + d])
    {
      var kind := JointKindOf(m.jntType[i]);
      var adr := m.jntQposAdr[i];
      var pos: seq<real> := [];
      var d := 0;
      while d < kind.dofDim
        invariant 0 <= d <= kind.dofDim && |pos| == d
        invariant forall e :: 0 <= e < d ==> pos[e] == sim.qpos[adr + e]
      {
        pos := pos + [sim.qpos[adr + d]];
        d := d + 1;
      }
      r := r + [JointInfo(Name(m, m.nameJntAdr[i]), i, kind.name, kind.dofDim, pos)];
      i := i + 1;
    }
  }

  /** A point or vector in three.js's Y-up frame. */
  datatype Vec3 = Vec3(x: real, y: real, z: real)

  /** A quaternion in three.js's `(x, y, z, w)` order. */
  datatype Quat = Quat(x: real, y: real, z: real, w: real)

  /** `getPosition`: MuJoCo's Z-up `(x, y, z)` at `index` becomes `(x, z, -y)`. */
  function GetPosition(buffer: seq<real>, index: nat): (v: Vec3)
    requires 3 * index + 2 < |buffer|
    ensures PositionToZUp(v) == buffer[3 * index..3 * index + 3]
  {
    Vec3(buffer[3 * index], buffer[3 * index + 2], -buffer[3 * index + 1])
  }

  /** The inverse swizzle, Y-up back to MuJoCo's Z-up order. */
  function PositionToZUp(v: Vec3): seq<real> {
    [v.x, -v.z, v.y]
  }

  /** `getQuaternion`: MuJoCo's `[w, x, y, z]` at `index` becomes `(x, z, -y, w)`. */
  function GetQuaternion(buffer: seq<real>, index: nat): (q: Quat)
    requires 4 * index + 3 < |buffer|
    ensures QuaternionToZUp(q) == buffer[4 * index..4 * index + 4]
    ensures NormSquared(q) == buffer[4 * index] * buffer[4 * index] + buffer[4 * index + 1] * buffer[4 * index + 1]
                             + buffer[4 * index + 2] * buffer[4 * index + 2] + buffer[4 * index + 3] * buffer[4 * index + 3]
  {
    var w := buffer[4 * index];
    var x := buffer[4 * index + 1];
    var y := buffer[4 * index + 2];
    var z := buffer[4 * index + 3];
    Quat(x, z, -y, w)
  }

  function QuaternionToZUp(q: Quat): seq<real> {
    [q.w, q.x, -q.z, q.y]
  }

  function NormSquared(q: Quat): real {
    q.x * q.x + q.y * q.y + q.z * q.z + q.w * q.w
  }
}
