/** The auto-ranging of shared/lighting/Veml7700AutoRange.h: a gain index
    (0 = x2 .. 3 = x1/8) and an integration-time index (0 = 25 ms .. 5 = 800 ms)
    stepped toward less or more sensitivity. Raw ALS readings are an input
    stream; each configuration pushed to the sensor is recorded. */
module VemlAutoRange {
  import opened Common

  const SAT_HIGH_RAW: int := 60000
  const TOO_LOW_RAW: int := 200
  const GAIN_COUNT: int := 4
  const IT_COUNT: int := 6
  /** Each auto-range loop makes at most this many adjustments. */
  const MAX_STEPS: int := 6

  datatype Gain = Gain2 | Gain1 | GainQuarter | GainEighth
  datatype IntegrationTime = It25ms | It50ms | It100ms | It200ms | It400ms | It800ms

  datatype Setting = Setting(gainIdx: int, itIdx: int)

  predicate InRange(s: Setting)
  {
    0 <= s.gainIdx < GAIN_COUNT && 0 <= s.itIdx < IT_COUNT
  }

  /** gainForIdx: every index past 2 means x1/8. */
  function GainForIdx(idx: int): Gain
  {
    if idx == 0 then Gain2 else if idx == 1 then Gain1 else if idx == 2 then GainQuarter else GainEighth
  }

  /** itForIdx: every index past 4 means 800 ms. */
  function ItForIdx(idx: int): IntegrationTime
  {
    match idx
    case 0 => It25ms
    case 1 => It50ms
    case 2 => It100ms
    case 3 => It200ms
    case 4 => It400ms
    case _ => It800ms
  }

  /** Gain in eighths and integration time in milliseconds; their product is
      proportional to the sensor's counts per lux. */
  function GainEighths(g: Gain): nat
  {
    match g
    case Gain2 => 16
    case Gain1 => 8
    case GainQuarter => 2
    case GainEighth => 1
  }

  function ItMs(t: IntegrationTime): nat
  {
    match t
    case It25ms => 25
    case It50ms => 50
    case It100ms => 100
    case It200ms => 200
    case It400ms => 400
    case It800ms => 800
  }

  function Sensitivity(s: Setting): nat
  {
    GainEighths(GainForIdx(s.gainIdx)) * ItMs(ItForIdx(s.itIdx))
  }

  function GainLabel(g: Gain): string
  {
    match g
    case Gain2 => "GAIN_2"
    case Gain1 => "GAIN_1"
    case GainQuarter => "GAIN_1_4"
    case GainEighth => "GAIN_1_8"
  }

  function ItLabel(t: IntegrationTime): string
  {
    match t
    case It25ms => "IT_25MS"
    case It50ms => "IT_50MS"
    case It100ms => "IT_100MS"
    case It200ms => "IT_200MS"
    case It400ms => "IT_400MS"
    case It800ms => "IT_800MS"
  }

  /** gainName: the label of the gain an index selects, "?" past the table. */
  function GainName(idx: int): (name: string)
    ensures 0 <= idx < GAIN_COUNT ==> name == GainLabel(GainForIdx(idx))
    ensures name == "?" <==> !(0 <= idx < GAIN_COUNT)
  {
    match idx
    case 0 => "GAIN_2"
    case 1 => "GAIN_1"
    case 2 => "GAIN_1_4"
    case 3 => "GAIN_1_8"
    case _ => "?"
  }

  /** itName: the label of the integration time an index selects, "?" past the table. */
  function ItName(idx: int): (name: string)
    ensures 0 <= idx < IT_COUNT ==> name == ItLabel(ItForIdx(idx))
    ensures name == "?" <==> !(0 <= idx < IT_COUNT)
  {
    match idx
    case 0 => "IT_25MS"
    case 1 => "IT_50MS"
    case 2 => "IT_100MS"
    case 3 => "IT_200MS"
    case 4 => "IT_400MS"
    case 5 => "IT_800MS"
    case _ => "?"
  }

  /** Distinct indices in range have distinct names. */
  lemma NamesAreDistinct(i: int, j: int)
    ensures 0 <= i < GAIN_COUNT && 0 <= j < GAIN_COUNT && i != j ==> GainName(i) != GainName(j)
    ensures 0 <= i < IT_COUNT && 0 <= j < IT_COUNT && i != j ==> ItName(i) != ItName(j)
  {
  }

  /** makeLessSensitive: shorten the integration time first, then lower the gain. */
  function LessSensitive(s: Setting): (r: Option<Setting>)
    requires InRange(s)
    ensures r.None? <==> s.itIdx == 0 && s.gainIdx == GAIN_COUNT - 1
    ensures r.Some? ==>
      && InRange(r.value)
      && (if s.itIdx > 0 then r.value == s.(itIdx := s.itIdx - 1) else r.value == s.(gainIdx := s.gainIdx + 1))
  {
    if s.itIdx > 0 then Some(s.(itIdx := s.itIdx - 1))
    else if s.gainIdx + 1 < GAIN_COUNT then Some(s.(gainIdx := s.gainIdx + 1))
    else None
  }

  /** makeMoreSensitive: raise the gain first, then lengthen the integration time. */
  function MoreSensitive(s: Setting): (r: Option<Setting>)
    requires InRange(s)
    ensures r.None? <==> s.gainIdx == 0 && s.itIdx == IT_COUNT - 1
    ensures r.Some? ==>
      && InRange(r.value)
      && (if s.gainIdx > 0 then r.value == s.(gainIdx := s.gainIdx - 1) else r.value == s.(itIdx := s.itIdx + 1))
  {
    if s.gainIdx > 0 then Some(s.(gainIdx := s.gainIdx - 1))
    else if s.itIdx + 1 < IT_COUNT then Some(s.(itIdx := s.itIdx + 1))
    else None
  }

  /** Steps left to the least / most sensitive setting. */
  function StepsToLeast(s: Setting): int
  {
    s.itIdx + (GAIN_COUNT - 1 - s.gainIdx)
  }

  function StepsToMost(s: Setting): int
  {
    s.gainIdx + (IT_COUNT - 1 - s.itIdx)
  }

  /** Each successful step really lowers (raises) the sensitivity and brings
      the least (most) sensitive setting one step closer. */
  lemma LessSensitiveLowers(s: Setting)
    requires InRange(s) && LessSensitive(s).Some?
    ensures Sensitivity(LessSensitive(s).value) < Sensitivity(s)
    ensures StepsToLeast(LessSensitive(s).value) == StepsToLeast(s) - 1
  {
  }

  lemma MoreSensitiveRaises(s: Setting)
    requires InRange(s) && MoreSensitive(s).Some?
    ensures Sensitivity(MoreSensitive(s).value) > Sensitivity(s)
    ensures StepsToMost(MoreSensitive(s).value) == StepsToMost(s) - 1
  {
  }

  /** What read() reports; the lux value is not modelled. */
  datatype Reading = Reading(raw: u16, gainIdx: int, itIdx: int, saturated: bool, adjustments: nat)

  /** The saturated branch of read, from iteration i on: `als` holds the raw
      value of each readALS, in order. */
  function Desaturate(s: Setting, als: seq<u16>, i: nat, raw: u16): (r: (Setting, u16, nat))
    requires InRange(s) && i <= MAX_STEPS && |als| > MAX_STEPS
    ensures InRange(r.0) && i <= r.2 <= MAX_STEPS
    decreases MAX_STEPS - i
  {
    if i >= MAX_STEPS then (s, raw, i)
    else match LessSensitive(s)
      case None => (s, raw, i)
      case Some(t) =>
        var next := als[i + 1];
        if next < SAT_HIGH_RAW then (t, next, i + 1) else Desaturate(t, als, i + 1, next)
  }

  /** The too-dark branch of read, from iteration i on. */
  function Brighten(s: Setting, als: seq<u16>, i: nat, raw: u16): (r: (Setting, u16, nat))
    requires InRange(s) && i <= MAX_STEPS && |als| > MAX_STEPS
    ensures InRange(r.0) && i <= r.2 <= MAX_STEPS
    decreases MAX_STEPS - i
  {
    if i >= MAX_STEPS then (s, raw, i)
    else match MoreSensitive(s)
      case None => (s, raw, i)
      case Some(t) =>
        var next := als[i + 1];
        if next > TOO_LOW_RAW then (t, next, i + 1) else Brighten(t, als, i + 1, next)
  }

  /** The setting and reading after one read(). */
  function AutoRange(s: Setting, als: seq<u16>): (r: (Setting, Reading))
    requires InRange(s) && |als| > MAX_STEPS
    ensures InRange(r.0) && r.1.adjustments <= MAX_STEPS
    ensures r.1.gainIdx == r.0.gainIdx && r.1.itIdx == r.0.itIdx
    ensures r.1.saturated <==> r.1.raw >= SAT_HIGH_RAW
  {
    var raw := als[0];
    var (t, last, n) :=
      if raw >= SAT_HIGH_RAW then Desaturate(s, als, 0, raw)
      else if raw <= TOO_LOW_RAW then Brighten(s, als, 0, raw)
      else (s, raw, 0);
    (t, Reading(last, t.gainIdx, t.itIdx, last >= SAT_HIGH_RAW, n))
  }

  /** The saturated loop moves toward less sensitivity only, one step per
      adjustment, and stops early only when the reading is no longer saturated
      or the least sensitive setting is reached. */
  lemma DesaturateOutcome(s: Setting, als: seq<u16>, i: nat, raw: u16)
    requires InRange(s) && i <= MAX_STEPS && |als| > MAX_STEPS
    ensures var r := Desaturate(s, als, i, raw);
      var t, last, n := r.0, r.1, r.2;
      && StepsToLeast(t) == StepsToLeast(s) - (n - i)
      && (n > i ==> Sensitivity(t) < Sensitivity(s))
      && (n > i ==> last == als[n])
      && (last >= SAT_HIGH_RAW && n > i ==> n == MAX_STEPS || StepsToLeast(t) == 0)
      && (n == i ==> t == s && last == raw && (i == MAX_STEPS || StepsToLeast(s) == 0))
  {
    DesaturateSteps(s, als, i, raw);
    DesaturateSensitivity(s, als, i, raw);
  }

  /** The step count, the last reading and the stopping conditions of the loop. */
  lemma {:induction false} DesaturateSteps(s: Setting, als: seq<u16>, i: nat, raw: u16)
    requires InRange(s) && i <= MAX_STEPS && |als| > MAX_STEPS
    ensures var r := Desaturate(s, als, i, raw);
      var t, last, n := r.0, r.1, r.2;
      && StepsToLeast(t) == StepsToLeast(s) - (n - i)
      && (n > i ==> last == als[n])
      && (last >= SAT_HIGH_RAW && n > i ==> n == MAX_STEPS || StepsToLeast(t) == 0)
      && (n == i ==> t == s && last == raw && (i == MAX_STEPS || StepsToLeast(s) == 0))
    decreases MAX_STEPS - i
  {
    if i < MAX_STEPS && LessSensitive(s).Some? {
      var t := LessSensitive(s).value;
      LessSensitiveLowers(s);
      if als[i + 1] >= SAT_HIGH_RAW {
        DesaturateSteps(t, als, i + 1, als[i + 1]);
        assert Desaturate(s, als, i, raw) == Desaturate(t, als, i + 1, als[i + 1]);
      } else {
        assert Desaturate(s, als, i, raw) == (t, als[i + 1], i + 1);
      }
    } else {
      assert Desaturate(s, als, i, raw) == (s, raw, i);
    }
  }

  /** Each adjustment of the loop makes the setting strictly less sensitive. */
  lemma {:induction false} DesaturateSensitivity(s: Setting, als: seq<u16>, i: nat, raw: u16)
    requires InRange(s) && i <= MAX_STEPS && |als| > MAX_STEPS
    ensures var r := Desaturate(s, als, i, raw);
      r.2 > i ==> Sensitivity(r.0) < Sensitivity(s)
    decreases MAX_STEPS - i
  {
    if i < MAX_STEPS && LessSensitive(s).Some? {
      var t := LessSensitive(s).value;
      LessSensitiveLowers(s);
      if als[i + 1] >= SAT_HIGH_RAW {
        DesaturateSensitivity(t, als, i + 1, als[i + 1]);
        var r := Desaturate(t, als, i + 1, als[i + 1]);
        assert Desaturate(s, als, i, raw) == r;
        assert r.2 == i + 1 ==> r.0 == t by {
          DesaturateSteps(t, als, i + 1, als[i + 1]);
        }
      }
    }
  }

  /** Symmetrically, the dark loop moves toward more sensitivity only. */
  lemma BrightenOutcome(s: Setting, als: seq<u16>, i: nat, raw: u16)
    requires InRange(s) && i <= MAX_STEPS && |als| > MAX_STEPS
    ensures var r := Brighten(s, als, i, raw);
      var t, last, n := r.0, r.1, r.2;
      && StepsToMost(t) == StepsToMost(s) - (n - i)
      && (n > i ==> Sensitivity(t) > Sensitivity(s))
      && (n > i ==> last == als[n])
      && (last <= TOO_LOW_RAW && n > i ==> n == MAX_STEPS || StepsToMost(t) == 0)
      && (n == i ==> t == s && last == raw && (i == MAX_STEPS || StepsToMost(s) == 0))
  {
    BrightenSteps(s, als, i, raw);
    BrightenSensitivity(s, als, i, raw);
  }

  /** The step count, the last reading and the stopping conditions of the loop. */
  lemma {:induction false} BrightenSteps(s: Setting, als: seq<u16>, i: nat, raw: u16)
    requires InRange(s) && i <= MAX_STEPS && |als| > MAX_STEPS
    ensures var r := Brighten(s, als, i, raw);
      var t, last, n := r.0, r.1, r.2;
      && StepsToMost(t) == StepsToMost(s) - (n - i)
      && (n > i ==> last == als[n])
      && (last <= TOO_LOW_RAW && n > i ==> n == MAX_STEPS || StepsToMost(t) == 0)
      && (n == i ==> t == s && last == raw && (i == MAX_STEPS || StepsToMost(s) == 0))
    decreases MAX_STEPS - i
  {
    if i < MAX_STEPS && MoreSensitive(s).Some? {
      var t := MoreSensitive(s).value;
      MoreSensitiveRaises(s);
      if als[i + 1] <= TOO_LOW_RAW {
        BrightenSteps(t, als, i + 1, als[i + 1]);
        assert Brighten(s, als, i, raw) == Brighten(t, als, i + 1, als[i + 1]);
      } else {
        assert Brighten(s, als, i, raw) == (t, als[i + 1], i + 1);
      }
    } else {
      assert Brighten(s, als, i, raw) == (s, raw, i);
    }
  }

  /** Each adjustment of the loop makes the setting strictly more sensitive. */
  lemma {:induction false} BrightenSensitivity(s: Setting, als: seq<u16>, i: nat, raw: u16)
    requires InRange(s) && i <= MAX_STEPS && |als| > MAX_STEPS
    ensures var r := Brighten(s, als, i, raw);
      r.2 > i ==> Sensitivity(r.0) > Sensitivity(s)
    decreases MAX_STEPS - i
  {
    if i < MAX_STEPS && MoreSensitive(s).Some? {
      var t := MoreSensitive(s).value;
      MoreSensitiveRaises(s);
      if als[i + 1] <= TOO_LOW_RAW {
        BrightenSensitivity(t, als, i + 1, als[i + 1]);
        var r := Brighten(t, als, i + 1, als[i + 1]);
        assert Brighten(s, als, i, raw) == r;
        assert r.2 == i + 1 ==> r.0 == t by {
          BrightenSteps(t, als, i + 1, als[i + 1]);
        }
      }
    }
  }

  /** The settings the saturated loop applies from iteration i on, after
      those already `sent`. */
  function DesaturateTrail(s: Setting, als: seq<u16>, i: nat, raw: u16, sent: seq<Setting>): seq<Setting>
    requires InRange(s) && i <= MAX_STEPS && |als| > MAX_STEPS
    decreases MAX_STEPS - i
  {
    if i >= MAX_STEPS then sent
    else match LessSensitive(s)
      case None => sent
      case Some(t) =>
        var next := als[i + 1];
        if next < SAT_HIGH_RAW then sent + [t] else DesaturateTrail(t, als, i + 1, next, sent + [t])
  }

  /** The settings the dark loop applies from iteration i on, after
      those already `sent`. */
  function BrightenTrail(s: Setting, als: seq<u16>, i: nat, raw: u16, sent: seq<Setting>): seq<Setting>
    requires InRange(s) && i <= MAX_STEPS && |als| > MAX_STEPS
    decreases MAX_STEPS - i
  {
    if i >= MAX_STEPS then sent
    else match MoreSensitive(s)
      case None => sent
      case Some(t) =>
        var next := als[i + 1];
        if next > TOO_LOW_RAW then sent + [t] else BrightenTrail(t, als, i + 1, next, sent + [t])
  }

  /** The saturated loop adds one setting per adjustment to those already
      sent; the first one is one step less sensitive than `s`, and the last
      one is the setting it stops at. */
  lemma {:induction false} DesaturateTrailSteps(s: Setting, als: seq<u16>, i: nat, raw: u16, sent: seq<Setting>)
    requires InRange(s) && i <= MAX_STEPS && |als| > MAX_STEPS
    ensures var r := Desaturate(s, als, i, raw);
      var tr := DesaturateTrail(s, als, i, raw, sent);
      && |tr| == |sent| + r.2 - i
      && tr[..|sent|] == sent
      && (r.2 > i ==> tr[|tr| - 1] == r.0 && LessSensitive(s) == Some(tr[|sent|]))
    decreases MAX_STEPS - i
  {
    DesaturateTrailKeeps(s, als, i, raw, sent);
    if i < MAX_STEPS && LessSensitive(s).Some? {
      var t := LessSensitive(s).value;
      if als[i + 1] >= SAT_HIGH_RAW {
        DesaturateTrailSteps(t, als, i + 1, als[i + 1], sent + [t]);
        var tr := DesaturateTrail(t, als, i + 1, als[i + 1], sent + [t]);
        assert DesaturateTrail(s, als, i, raw, sent) == tr;
        assert Desaturate(s, als, i, raw) == Desaturate(t, als, i + 1, als[i + 1]);
        assert tr[|sent|] == tr[..|sent| + 1][|sent|] == (sent + [t])[|sent|];
      } else {
        assert DesaturateTrail(s, als, i, raw, sent) == sent + [t];
        assert Desaturate(s, als, i, raw) == (t, als[i + 1], i + 1);
      }
    }
  }

  /** The saturated loop only appends: it adds one setting per adjustment. */
  lemma {:induction false} DesaturateTrailKeeps(s: Setting, als: seq<u16>, i: nat, raw: u16, sent: seq<Setting>)
    requires InRange(s) && i <= MAX_STEPS && |als| > MAX_STEPS
    ensures var r := Desaturate(s, als, i, raw);
      var tr := DesaturateTrail(s, als, i, raw, sent);
      |tr| == |sent| + r.2 - i && tr[..|sent|] == sent
    decreases MAX_STEPS - i
  {
    if i < MAX_STEPS && LessSensitive(s).Some? {
      var t := LessSensitive(s).value;
      if als[i + 1] >= SAT_HIGH_RAW {
        DesaturateTrailKeeps(t, als, i + 1, als[i + 1], sent + [t]);
        var tr := DesaturateTrail(t, als, i + 1, als[i + 1], sent + [t]);
        assert DesaturateTrail(s, als, i, raw, sent) == tr;
        assert Desaturate(s, als, i, raw) == Desaturate(t, als, i + 1, als[i + 1]);
        assert tr[..|sent| + 1][..|sent|] == tr[..|sent|];
      } else {
        assert DesaturateTrail(s, als, i, raw, sent) == sent + [t];
        assert Desaturate(s, als, i, raw) == (t, als[i + 1], i + 1);
        assert (sent + [t])[..|sent|] == sent;
      }
    } else {
      assert DesaturateTrail(s, als, i, raw, sent) == sent;
      assert Desaturate(s, als, i, raw) == (s, raw, i);
    }
  }

  /** Each setting the saturated loop adds is one step less sensitive than the one before it. */
  lemma {:induction false} DesaturateTrailChain(s: Setting, als: seq<u16>, i: nat, raw: u16, sent: seq<Setting>)
    requires InRange(s) && i <= MAX_STEPS && |als| > MAX_STEPS
    ensures var tr := DesaturateTrail(s, als, i, raw, sent);
      forall k :: |sent| <= k < |tr| - 1 ==> InRange(tr[k]) && LessSensitive(tr[k]) == Some(tr[k + 1])
    decreases MAX_STEPS - i
  {
    if i < MAX_STEPS && LessSensitive(s).Some? {
      var t := LessSensitive(s).value;
      if als[i + 1] >= SAT_HIGH_RAW {
        DesaturateTrailChain(t, als, i + 1, als[i + 1], sent + [t]);
        DesaturateTrailSteps(t, als, i + 1, als[i + 1], sent + [t]);
        var tr := DesaturateTrail(t, als, i + 1, als[i + 1], sent + [t]);
        assert DesaturateTrail(s, als, i, raw, sent) == tr;
        assert tr[|sent|] == (sent + [t])[|sent|] == t;
      } else {
        assert DesaturateTrail(s, als, i, raw, sent) == sent + [t];
      }
    } else {
      assert DesaturateTrail(s, als, i, raw, sent) == sent;
    }
  }

  /** The dark loop likewise, its first setting one step more sensitive. */
  lemma {:induction false} BrightenTrailSteps(s: Setting, als: seq<u16>, i: nat, raw: u16, sent: seq<Setting>)
    requires InRange(s) && i <= MAX_STEPS && |als| > MAX_STEPS
    ensures var r := Brighten(s, als, i, raw);
      var tr := BrightenTrail(s, als, i, raw, sent);
      && |tr| == |sent| + r.2 - i
      && tr[..|sent|] == sent
      && (r.2 > i ==> tr[|tr| - 1] == r.0 && MoreSensitive(s) == Some(tr[|sent|]))
    decreases MAX_STEPS - i
  {
    BrightenTrailKeeps(s, als, i, raw, sent);
    if i < MAX_STEPS && MoreSensitive(s).Some? {
      var t := MoreSensitive(s).value;
      if als[i + 1] <= TOO_LOW_RAW {
        BrightenTrailSteps(t, als, i + 1, als[i + 1], sent + [t]);
        var tr := BrightenTrail(t, als, i + 1, als[i + 1], sent + [t]);
        assert BrightenTrail(s, als, i, raw, sent) == tr;
        assert Brighten(s, als, i, raw) == Brighten(t, als, i + 1, als[i + 1]);
        assert tr[|sent|] == tr[..|sent| + 1][|sent|] == (sent + [t])[|sent|];
      } else {
        assert BrightenTrail(s, als, i, raw, sent) == sent + [t];
        assert Brighten(s, als, i, raw) == (t, als[i + 1], i + 1);
      }
    }
  }

  /** The dark loop only appends: it adds one setting per adjustment. */
  lemma {:induction false} BrightenTrailKeeps(s: Setting, als: seq<u16>, i: nat, raw: u16, sent: seq<Setting>)
    requires InRange(s) && i <= MAX_STEPS && |als| > MAX_STEPS
    ensures var r := Brighten(s, als, i, raw);
      var tr := BrightenTrail(s, als, i, raw, sent);
      |tr| == |sent| + r.2 - i && tr[..|sent|] == sent
    decreases MAX_STEPS - i
  {
    if i < MAX_STEPS && MoreSensitive(s).Some? {
      var t := MoreSensitive(s).value;
      if als[i + 1] <= TOO_LOW_RAW {
        BrightenTrailKeeps(t, als, i + 1, als[i + 1], sent + [t]);
        var tr := BrightenTrail(t, als, i + 1, als[i + 1], sent + [t]);
        assert BrightenTrail(s, als, i, raw, sent) == tr;
        assert Brighten(s, als, i, raw) == Brighten(t, als, i + 1, als[i + 1]);
        assert tr[..|sent| + 1][..|sent|] == tr[..|sent|];
      } else {
        assert BrightenTrail(s, als, i, raw, sent) == sent + [t];
        assert Brighten(s, als, i, raw) == (t, als[i + 1], i + 1);
        assert (sent + [t])[..|sent|] == sent;
      }
    } else {
      assert BrightenTrail(s, als, i, raw, sent) == sent;
      assert Brighten(s, als, i, raw) == (s, raw, i);
    }
  }

  /** Each setting the dark loop adds is one step more sensitive than the one before it. */
  lemma {:induction false} BrightenTrailChain(s: Setting, als: seq<u16>, i: nat, raw: u16, sent: seq<Setting>)
    requires InRange(s) && i <= MAX_STEPS && |als| > MAX_STEPS
    ensures var tr := BrightenTrail(s, als, i, raw, sent);
      forall k :: |sent| <= k < |tr| - 1 ==> InRange(tr[k]) && MoreSensitive(tr[k]) == Some(tr[k + 1])
    decreases MAX_STEPS - i
  {
    if i < MAX_STEPS && MoreSensitive(s).Some? {
      var t := MoreSensitive(s).value;
      if als[i + 1] <= TOO_LOW_RAW {
        BrightenTrailChain(t, als, i + 1, als[i + 1], sent + [t]);
        BrightenTrailSteps(t, als, i + 1, als[i + 1], sent + [t]);
        var tr := BrightenTrail(t, als, i + 1, als[i + 1], sent + [t]);
        assert BrightenTrail(s, als, i, raw, sent) == tr;
        assert tr[|sent|] == (sent + [t])[|sent|] == t;
      } else {
        assert BrightenTrail(s, als, i, raw, sent) == sent + [t];
      }
    } else {
      assert BrightenTrail(s, als, i, raw, sent) == sent;
    }
  }

  /** What the loop adds does not depend on what was sent before it. */
  lemma {:induction false} DesaturateTrailAfter(s: Setting, als: seq<u16>, i: nat, raw: u16, sent: seq<Setting>)
    requires InRange(s) && i <= MAX_STEPS && |als| > MAX_STEPS
    ensures DesaturateTrail(s, als, i, raw, sent) == sent + DesaturateTrail(s, als, i, raw, [])
    decreases MAX_STEPS - i
  {
    if i < MAX_STEPS && LessSensitive(s).Some? {
      var t := LessSensitive(s).value;
      if als[i + 1] >= SAT_HIGH_RAW {
        DesaturateTrailAfter(t, als, i + 1, als[i + 1], sent + [t]);
        DesaturateTrailAfter(t, als, i + 1, als[i + 1], [t]);
        assert [] + [t] == [t];
        assert (sent + [t]) + DesaturateTrail(t, als, i + 1, als[i + 1], []) == sent + ([t] + DesaturateTrail(t, als, i + 1, als[i + 1], []));
      } else {
        assert [] + [t] == [t];
      }
    }
  }

  /** What the loop adds does not depend on what was sent before it. */
  lemma {:induction false} BrightenTrailAfter(s: Setting, als: seq<u16>, i: nat, raw: u16, sent: seq<Setting>)
    requires InRange(s) && i <= MAX_STEPS && |als| > MAX_STEPS
    ensures BrightenTrail(s, als, i, raw, sent) == sent + BrightenTrail(s, als, i, raw, [])
    decreases MAX_STEPS - i
  {
    if i < MAX_STEPS && MoreSensitive(s).Some? {
      var t := MoreSensitive(s).value;
      if als[i + 1] <= TOO_LOW_RAW {
        BrightenTrailAfter(t, als, i + 1, als[i + 1], sent + [t]);
        BrightenTrailAfter(t, als, i + 1, als[i + 1], [t]);
        assert [] + [t] == [t];
        assert (sent + [t]) + BrightenTrail(t, als, i + 1, als[i + 1], []) == sent + ([t] + BrightenTrail(t, als, i + 1, als[i + 1], []));
      } else {
        assert [] + [t] == [t];
      }
    }
  }

  /** The settings one read() applies, in order. */
  function AutoRangeTrail(s: Setting, als: seq<u16>): seq<Setting>
    requires InRange(s) && |als| > MAX_STEPS
  {
    var raw := als[0];
    if raw >= SAT_HIGH_RAW then DesaturateTrail(s, als, 0, raw, [])
    else if raw <= TOO_LOW_RAW then BrightenTrail(s, als, 0, raw, [])
    else []
  }

  /** One read() applies exactly `adjustments` settings, the last of which is
      the setting it reports. */
  lemma AutoRangeTrailEnds(s: Setting, als: seq<u16>)
    requires InRange(s) && |als| > MAX_STEPS
    ensures var tr := AutoRangeTrail(s, als);
      var r := AutoRange(s, als);
      && |tr| == r.1.adjustments
      && (|tr| > 0 ==> tr[|tr| - 1] == r.0)
  {
    if als[0] >= SAT_HIGH_RAW {
      DesaturateTrailSteps(s, als, 0, als[0], []);
    } else if als[0] <= TOO_LOW_RAW {
      BrightenTrailSteps(s, als, 0, als[0], []);
    }
  }

  /** A first reading inside the working band changes nothing. */
  lemma InBandKeepsSetting(s: Setting, als: seq<u16>)
    requires InRange(s) && |als| > MAX_STEPS && TOO_LOW_RAW < als[0] < SAT_HIGH_RAW
    ensures AutoRange(s, als).0 == s && AutoRange(s, als).1.adjustments == 0
  {
  }

  class Veml7700AutoRange {
    var gainIdx: int
    var itIdx: int
    /** Every setting apply() sent to the sensor, in order; each one goes out
        as the pair (GainForIdx(gainIdx), ItForIdx(itIdx)). */
    var applied: seq<Setting>

    function Current(): Setting
      reads this
    {
      Setting(gainIdx, itIdx)
    }

    constructor ()
      ensures Current() == Setting(1, 2) && applied == []
    {
      gainIdx := 1;
      itIdx := 2;
      applied := [];
    }

    /** Restores the indoor baseline, x1 gain and 100 ms. */
    method Begin() returns (ok: bool)
      modifies this
      ensures ok && Current() == Setting(1, 2)
      ensures applied == old(applied) + [Setting(1, 2)]
    {
      gainIdx := 1;
      itIdx := 2;
      Apply();
      return true;
    }

    method Apply()
      modifies this
      ensures Current() == old(Current())
      ensures applied == old(applied) + [Current()]
    {
      applied := applied + [Current()];
    }

    method MakeLessSensitive() returns (changed: bool)
      requires InRange(Current())
      modifies this
      ensures changed <==> LessSensitive(old(Current())).Some?
      ensures changed ==>
        && Current() == LessSensitive(old(Current())).value
        && applied == old(applied) + [Current()]
      ensures !changed ==> Current() == old(Current()) && applied == old(applied)
    {
      if itIdx > 0 {
        itIdx := itIdx - 1;
        Apply();
        return true;
      }
      if gainIdx + 1 < GAIN_COUNT {
        gainIdx := gainIdx + 1;
        Apply();
        return true;
      }
      return false;
    }

    method MakeMoreSensitive() returns (changed: bool)
      requires InRange(Current())
      modifies this
      ensures changed <==> MoreSensitive(old(Current())).Some?
      ensures changed ==>
        && Current() == MoreSensitive(old(Current())).value
        && applied == old(applied) + [Current()]
      ensures !changed ==> Current() == old(Current()) && applied == old(applied)
    {
      if gainIdx > 0 {
        gainIdx := gainIdx - 1;
        Apply();
        return true;
      }
      if itIdx + 1 < IT_COUNT {
        itIdx := itIdx + 1;
        Apply();
        return true;
      }
      return false;
    }

    /** The saturated loop of read: steps toward less sensitivity while the
        reading stays saturated, at most MAX_STEPS times. */
    method DesaturateLoop(als: seq<u16>) returns (raw: u16, n: nat)
      requires InRange(Current()) && |als| > MAX_STEPS && als[0] >= SAT_HIGH_RAW
      modifies this
      ensures (Current(), raw, n) == Desaturate(old(Current()), als, 0, als[0])
      ensures applied == DesaturateTrail(old(Current()), als, 0, als[0], old(applied))
    {
      raw := als[0];
      n := 0;
      ghost var s0 := Current();
      var i := 0;
      while i < MAX_STEPS
        invariant 0 <= i <= MAX_STEPS && n == i && InRange(Current())
        invariant raw >= SAT_HIGH_RAW
        invariant Desaturate(Current(), als, i, raw) == Desaturate(s0, als, 0, als[0])
        invariant DesaturateTrail(Current(), als, i, raw, applied) == DesaturateTrail(s0, als, 0, als[0], old(applied))
      {
        var stepped := MakeLessSensitive();
        if !stepped {
          return;
        }
        n := n + 1;
        raw := als[i + 1];
        if raw < SAT_HIGH_RAW {
          return;
        }
        i := i + 1;
      }
    }

    /** The dark loop of read: steps toward more sensitivity while the
        reading stays too low, at most MAX_STEPS times. */
    method BrightenLoop(als: seq<u16>) returns (raw: u16, n: nat)
      requires InRange(Current()) && |als| > MAX_STEPS && als[0] <= TOO_LOW_RAW
      modifies this
      ensures (Current(), raw, n) == Brighten(old(Current()), als, 0, als[0])
      ensures applied == BrightenTrail(old(Current()), als, 0, als[0], old(applied))
    {
      raw := als[0];
      n := 0;
      ghost var s0 := Current();
      var i := 0;
      while i < MAX_STEPS
        invariant 0 <= i <= MAX_STEPS && n == i && InRange(Current())
        invariant raw <= TOO_LOW_RAW
        invariant Brighten(Current(), als, i, raw) == Brighten(s0, als, 0, als[0])
        invariant BrightenTrail(Current(), als, i, raw, applied) == BrightenTrail(s0, als, 0, als[0], old(applied))
      {
        var stepped := MakeMoreSensitive();
        if !stepped {
          return;
        }
        n := n + 1;
        raw := als[i + 1];
        if raw > TOO_LOW_RAW {
          return;
        }
        i := i + 1;
      }
    }

    /** One auto-ranged reading; `als` supplies the successive raw readings. */
    method Read(als: seq<u16>) returns (r: Reading)
      requires InRange(Current()) && |als| > MAX_STEPS
      modifies this
      ensures (Current(), r) == AutoRange(old(Current()), als)
      ensures |applied| == |old(applied)| + r.adjustments
      ensures applied == old(applied) + AutoRangeTrail(old(Current()), als)
      ensures r.adjustments > 0 ==> applied[|applied| - 1] == Current()
    {
      ghost var s0 := Current();
      var raw: u16 := als[0];
      var n := 0;
      if raw >= SAT_HIGH_RAW {
        raw, n := DesaturateLoop(als);
        DesaturateTrailAfter(s0, als, 0, als[0], old(applied));
      } else if raw <= TOO_LOW_RAW {
        raw, n := BrightenLoop(als);
        BrightenTrailAfter(s0, als, 0, als[0], old(applied));
      }
      r := Reading(raw, gainIdx, itIdx, raw >= SAT_HIGH_RAW, n);
      AutoRangeTrailEnds(s0, als);
    }
  }
}
