/** What the conversions of the two USB devices mean (src/usb/m1k.rs, src/usb/cee.rs):
    which code a source value becomes, what a count stands for, and that an ideally
    calibrated channel reads back what it sources. */
module ReadBack {
  import opened Common
  import opened Samples
  import opened Transfers
  import S = Sources
  import M = M1kCodec
  import C = CeeCodec

  // ---- M1K ----

  /** The code is the whole part of an exact code, within the range of the converter. */
  predicate WholePart(code: int, exact: real, top: int) {
    && 0 <= code <= top
    && (exact < 0.0 ==> code == 0)
    && (0.0 <= exact < top as real + 1.0 ==> code as real <= exact < code as real + 1.0)
    && (exact >= top as real + 1.0 ==> code == top)
  }

  predicate Voltage(mode: nat) {
    mode == 1 || mode == 4
  }

  predicate Current(mode: nat) {
    mode == 2 || mode == 5
  }

  /** Volts after calibration, over a range of 5. */
  lemma M1kEncodesVoltage(mode: nat, cal: M.Calibration, channel: nat, val: real, volts: real)
    requires cal.Valid() && channel < 2 && Voltage(mode)
    requires volts == (val - cal.offset[channel * 4 + 2]) * cal.gainP[channel * 4 + 2]
    ensures WholePart(M.EncodeOut(mode, cal, false, channel, val), volts * 65536.0 / 5.0, 65535)
  {
    assert volts == cal.OutVolts(channel, val);
    VoltageCodeIs(volts);
  }

  function VoltageCode(volts: real): int {
    Max(0, Min(65535, S.Trunc(Clamp(volts, 0.0, 5.0) * (65536.0 / 5.0))))
  }

  lemma VoltageCodeIs(volts: real)
    ensures WholePart(VoltageCode(volts), volts * 65536.0 / 5.0, 65535)
  {
    assert volts * 65536.0 / 5.0 == volts * (65536.0 / 5.0);
  }

  /** Amps after calibration: 0.4 of the range at zero, and 0.32 more or less at the
      limits of 0.2. */
  lemma M1kEncodesCurrent(mode: nat, cal: M.Calibration, channel: nat, val: real, amps: real)
    requires cal.Valid() && channel < 2 && Current(mode)
    requires var g := if val > 0.0 then cal.gainP[channel * 4 + 3] else cal.gainN[channel * 4 + 3];
             amps == (val / 1000.0 - cal.offset[channel * 4 + 3]) * g
    ensures var code := M.EncodeOut(mode, cal, false, channel, val);
            && (-0.2 <= amps <= 0.2 ==> WholePart(code, 26214.4 + 104857.6 * amps, 65535))
            && (amps > 0.2 ==> code == 47185) && (amps < -0.2 ==> code == 5242)
  {
    assert amps == cal.OutAmps(channel, val) by { assert val / 1000.0 > 0.0 <==> val > 0.0; }
    CurrentCodeIs(amps);
  }

  function CurrentCode(amps: real): int {
    Max(0, Min(65535, S.Trunc(65536.0 * (0.4 + 1.6 * Clamp(amps, -0.2, 0.2)))))
  }

  lemma CurrentCodeIs(amps: real)
    ensures -0.2 <= amps <= 0.2 ==> WholePart(CurrentCode(amps), 26214.4 + 104857.6 * amps, 65535)
    ensures amps > 0.2 ==> CurrentCode(amps) == 47185
    ensures amps < -0.2 ==> CurrentCode(amps) == 5242
  {
    var held := Clamp(amps, -0.2, 0.2);
    assert 65536.0 * (0.4 + 1.6 * held) == 26214.4 + 104857.6 * held;
  }

  /** In the other modes the code is that of zero current. */
  lemma M1kEncodesIdle(mode: nat, cal: M.Calibration, channel: nat, val: real)
    requires cal.Valid() && channel < 2 && !Voltage(mode) && !Current(mode)
    ensures M.EncodeOut(mode, cal, false, channel, val) == CurrentCode(0.0) == 26214
  {
    CurrentCodeIs(0.0);
  }

  lemma M1kEncodesRaw(mode: nat, cal: M.Calibration, channel: nat, code: Word16, raw: Quad<Word16>)
    requires cal.Valid() && channel < 2
    ensures M.EncodeOut(mode, cal, true, channel, code as real) == code
    ensures M.Convert(cal, true, raw)
         == Quad(Num(raw.av as real), Num(raw.ai as real), Num(raw.bv as real), Num(raw.bi as real))
  {
  }

  /** A voltage count is 5 / 65536 volts and a current count 0.5 / 65536 amps from a zero
      at 31948.8 counts, before the calibration of the channel. */
  lemma M1kMeasures(cal: M.Calibration, channel: nat, raw: Word16)
    requires cal.Valid() && channel < 2
    ensures var c := channel * 4;
            var volts, amps := raw as real * 5.0 / 65536.0, (raw as real - 31948.8) * 0.5 / 65536.0;
            && M.ConvertVoltage(cal, channel, raw) == (volts - cal.offset[c]) * cal.gainP[c]
            && M.ConvertCurrent(cal, channel, raw)
               == (amps - cal.offset[c + 1]) * (if raw >= 31949 then cal.gainP[c + 1] else cal.gainN[c + 1]) * 1000.0
  {
  }

  /** Every stream is converted by its own rule and the calibration of its own channel. */
  lemma M1kConverts(cal: M.Calibration, q: Quad<Word16>)
    requires cal.Valid()
    ensures var s := M.Convert(cal, false, q);
            && s.av == Num(M.ConvertVoltage(cal, 0, q.av)) && s.ai == Num(M.ConvertCurrent(cal, 0, q.ai))
            && s.bv == Num(M.ConvertVoltage(cal, 1, q.bv)) && s.bi == Num(M.ConvertCurrent(cal, 1, q.bi))
  {
  }

  /** A sourced current reads back to within one count, from below, when the measuring
      calibration undoes the different ranges of the two converters. */
  lemma M1kCurrentReadsBack(cal: M.Calibration, channel: nat, split: bool, milliamps: real)
    requires cal.Valid() && channel < 2 && -200.0 <= milliamps <= 200.0
    requires cal.offset[channel * 4 + 3] == 0.0
    requires cal.gainP[channel * 4 + 3] == cal.gainN[channel * 4 + 3] == 1.0
    requires cal.offset[channel * 4 + 1] == -0.04375
    requires cal.gainP[channel * 4 + 1] == cal.gainN[channel * 4 + 1] == 1.25
    ensures var code := M.EncodeOut(if split then 5 else 2, cal, false, channel, milliamps);
            var seen := M.ConvertCurrent(cal, channel, code);
            milliamps - 625.0 / 65536.0 < seen <= milliamps
  {
    hide M.EncodeOut, M.ConvertCurrent;
    M1kEncodesCurrent(if split then 5 else 2, cal, channel, milliamps, milliamps / 1000.0);
    M1kMeasures(cal, channel, M.EncodeOut(if split then 5 else 2, cal, false, channel, milliamps));
  }

  // ---- CEE ----

  /** Volts over a range of 5; 1.25 volts at zero current and 1 volt per amp and unit of
      gain beyond, over a range of 2.5; zero in other modes. */
  lemma CeeEncodes(limit: nat, mode: nat, val: real, gain: nat)
    ensures var code := C.EncodeOut(false, limit, mode, val, gain);
            var held := Clamp(val, -(limit as real), limit as real);
            && (mode == C.SVMI ==> WholePart(code, Clamp(val, 0.0, 5.0) * 4095.0 / 5.0, 4095))
            && (mode == C.SIMV ==>
                  WholePart(code, (1.25 + gain as real * held / 100000000.0) * 4095.0 / 2.5, 4095))
            && (mode != C.SVMI && mode != C.SIMV ==> code == 0)
  {
    var held := Clamp(val, -(limit as real), limit as real);
    assert gain as real / 100000.0 * held / 1000.0 == gain as real * held / 100000000.0;
  }

  lemma CeeEncodesRaw(limit: nat, mode: nat, code: nat, gain: nat)
    requires code < 4096
    ensures C.EncodeOut(true, limit, mode, code as real, gain) == code
  {
  }

  /** A voltage count is 5 / 2048 volts, a current count 2.5 / 2048 volts, and a disabled
      channel has no current; the offset goes in before the gain comes off. */
  lemma CeeMeasures(s: C.Scaling, pkt: C.Packet, q: Quad<int>)
    requires s.Valid() && !s.rawMode
    ensures var x, cal := C.Convert(s, pkt, q), s.cal;
            && x.av.Num? && x.av.value * s.gain.av == (cal.offset.av + q.av) as real * 5.0 / 2048.0
            && x.bv.Num? && x.bv.value * s.gain.bv == (cal.offset.bv + q.bv) as real * 5.0 / 2048.0
            && x.ai.Num? && x.bi.Num?
            && (if pkt[0] % 4 == 0 then x.ai.value == 0.0
                else x.ai.value * s.gain.ai * cal.currentGainA as real
                     == (cal.offset.ai + q.ai) as real * 250000000.0 / 2048.0)
            && (if pkt[1] % 4 == 0 then x.bi.value == 0.0
                else x.bi.value * s.gain.bi * cal.currentGainB as real
                     == (cal.offset.bi + q.bi) as real * 250000000.0 / 2048.0)
  {
    CurrentCounts(s, s.cal.currentGainA, s.cal.offset.ai + q.ai, s.gain.ai);
    CurrentCounts(s, s.cal.currentGainB, s.cal.offset.bi + q.bi, s.gain.bi);
  }

  lemma CurrentCounts(s: C.Scaling, currentGain: nat, counts: int, gain: real)
    requires currentGain > 0 && gain != 0.0 && !s.rawMode
    ensures (counts as real * s.Amps(currentGain) / gain) * gain * currentGain as real
         == counts as real * 250000000.0 / 2048.0
  {
    var amps, g := s.Amps(currentGain), currentGain as real;
    assert amps * g == 250000000.0 / 2048.0 by { AmpsTimesGain(g); }
    assert counts as real * amps / gain * gain == counts as real * amps;
    assert counts as real * amps * g == counts as real * (amps * g);
  }

  lemma AmpsTimesGain(g: real)
    requires g > 0.0
    ensures 2.5 / 2048.0 / (g / 100000.0) * 1000.0 * g == 250000000.0 / 2048.0
  {
    var u := g / 100000.0;
    assert u * 100000.0 == g;
    var q := 2.5 / 2048.0 / u;
    assert q * u == 2.5 / 2048.0;
    assert q * 1000.0 * g == (q * u) * 100000000.0;
  }

  /** The count that an ideal converter reports for a level: the whole part of it in units
      of `step`. */
  predicate Reports(count: int, level: real, step: real) {
    count as real * step <= level < (count + 1) as real * step
  }

  /** A sourced voltage reads back, from below, to within a code and a count. */
  lemma CeeVoltageReadsBack(s: C.Scaling, pkt: C.Packet, q: Quad<int>, limit: nat, gain: nat, volts: real)
    requires s.Valid() && !s.rawMode && s.cal.offset.av == 0 && s.gain.av == 1.0 && 0.0 <= volts <= 5.0
    requires Reports(q.av, C.EncodeOut(false, limit, C.SVMI, volts, gain) as real * 5.0 / 4095.0, 5.0 / 2048.0)
    ensures var seen := C.Convert(s, pkt, q).av;
            seen.Num? && volts - 5.0 / 4095.0 - 5.0 / 2048.0 < seen.value <= volts
  {
    hide C.EncodeOut, C.Convert;
    CeeEncodes(limit, C.SVMI, volts, gain);
    CeeMeasures(s, pkt, q);
  }

  /** So does a sourced current on an enabled channel, up to the gain of its amplifier. */
  lemma CeeCurrentReadsBack(s: C.Scaling, pkt: C.Packet, q: Quad<int>, limit: nat, milliamps: real)
    requires s.Valid() && !s.rawMode && s.cal.offset.ai == 0 && s.gain.ai == 1.0 && pkt[0] % 4 != 0
    requires -(limit as real) <= milliamps <= limit as real
    requires -125000000.0 <= s.cal.currentGainA as real * milliamps <= 125000000.0
    requires var code := C.EncodeOut(false, limit, C.SIMV, milliamps, s.cal.currentGainA);
             Reports(q.ai, code as real * 2.5 / 4095.0 - 1.25, 2.5 / 2048.0)
    ensures var seen := C.Convert(s, pkt, q).ai;
            && seen.Num?
            && 0.0 <= (milliamps - seen.value) * s.cal.currentGainA as real / 100000000.0 < 2.5 / 4095.0 + 2.5 / 2048.0
  {
    hide C.EncodeOut, C.Convert;
    CeeEncodes(limit, C.SIMV, milliamps, s.cal.currentGainA);
    CeeMeasures(s, pkt, q);
    var code := C.EncodeOut(false, limit, C.SIMV, milliamps, s.cal.currentGainA);
    AmplifierReadsBack(s.cal.currentGainA as real, milliamps, code, q.ai, C.Convert(s, pkt, q).ai.value);
  }

  lemma AmplifierReadsBack(g: real, milliamps: real, code: int, count: int, seen: real)
    requires -125000000.0 <= g * milliamps <= 125000000.0
    requires WholePart(code, (1.25 + g * milliamps / 100000000.0) * 4095.0 / 2.5, 4095)
    requires Reports(count, code as real * 2.5 / 4095.0 - 1.25, 2.5 / 2048.0)
    requires seen * 1.0 * g == count as real * 250000000.0 / 2048.0
    ensures 0.0 <= (milliamps - seen) * g / 100000000.0 < 2.5 / 4095.0 + 2.5 / 2048.0
  {
    assert (milliamps - seen) * g == g * milliamps - seen * 1.0 * g;
    ReadsBackLinear(g * milliamps, seen * 1.0 * g, code, count);
  }

  lemma ReadsBackLinear(sourced: real, measured: real, code: int, count: int)
    requires -125000000.0 <= sourced <= 125000000.0
    requires WholePart(code, (1.25 + sourced / 100000000.0) * 4095.0 / 2.5, 4095)
    requires Reports(count, code as real * 2.5 / 4095.0 - 1.25, 2.5 / 2048.0)
    requires measured == count as real * 250000000.0 / 2048.0
    ensures 0.0 <= (sourced - measured) / 100000000.0 < 2.5 / 4095.0 + 2.5 / 2048.0
  {
  }
}
