/** The running average of the received signal strength, kept eightfold to spare fractions. */
module Rssi {
  import opened Options

  /** One chain: the last sample, the average, and eight times the average. */
  datatype Cell = Cell(last: int, avg: int, x8: int)

  /** An arithmetic shift by three places: the quotient by eight, rounded down. */
  function Shr3(n: int): (q: int)
    ensures 8 * q <= n < 8 * q + 8
  {
    n / 8
  }

  predicate Char(n: int) { -128 <= n <= 127 }
  predicate Short(n: int) { -32768 <= n <= 32767 }

  /** Nothing has been sampled yet, or so it looks. */
  predicate Initial(c: Cell) {
    c.avg == 0 && c.x8 == 0 && c.last == 0
  }

  function Step(c: Cell, initial: bool, sample: int): Cell {
    var x8 := if initial then 8 * sample else c.x8 - c.avg + sample;
    Cell(sample, Shr3(x8), x8)
  }

  /** The average is the eightfold one shifted. */
  predicate Sound(c: Cell) {
    c.avg == Shr3(c.x8)
  }

  predicate Between(lo: int, c: Cell, hi: int) {
    Sound(c) && lo <= c.avg <= hi
  }

  /** One sample in range keeps the average in range, whatever the remainder carried along; and a
      first sample puts it there. */
  lemma StepStaysBetween(c: Cell, initial: bool, sample: int, lo: int, hi: int)
    requires lo <= sample <= hi && (initial || Between(lo, c, hi))
    ensures Between(lo, Step(c, initial, sample), hi)
  {
  }

  /** Nothing is cut off by the field widths. */
  lemma StepFits(c: Cell, initial: bool, sample: int)
    requires Char(sample) && (initial || Between(-128, c, 127))
    ensures var d := Step(c, initial, sample); Char(d.last) && Char(d.avg) && Short(d.x8)
  {
    StepStaysBetween(c, initial, sample, -128, 127);
  }

  /** The weight of one sample: the new eightfold average is seven eighths of the old one and the sample, and what
      the shift drops of the old one stays in. */
  lemma StepWeighsOneEighth(c: Cell, sample: int)
    requires Sound(c)
    ensures 8 * Step(c, false, sample).x8 == 7 * c.x8 + 8 * sample + c.x8 % 8
  {
  }

  /** The filter looks unsampled again exactly when a sample of 0 comes on an average of 0 or -1. */
  lemma RestartsIff(c: Cell, sample: int)
    requires Sound(c)
    ensures Initial(Step(c, false, sample)) <==> sample == 0 && (c.x8 == 0 || c.x8 == -1)
  {
  }

  // ---------- chain 0 over runs ----------

  /** The samples one after another; a zero reading from the radio leaves no sample. */
  function Run(c: Cell, samples: seq<int>): Cell {
    if samples == [] then c
    else
      var d := Run(c, samples[..|samples| - 1]);
      Step(d, Initial(d), samples[|samples| - 1])
  }

  /** From the start, over any run of samples within bounds, the average stays within them. */
  lemma {:induction false} RunStaysBetween(c: Cell, samples: seq<int>, lo: int, hi: int)
    requires samples != [] && forall i :: 0 <= i < |samples| ==> lo <= samples[i] <= hi
    requires Initial(c) || Between(lo, c, hi)
    ensures Between(lo, Run(c, samples), hi)
  {
    var most := samples[..|samples| - 1];
    if most == [] {
      assert Run(c, most) == c;
    } else {
      RunStaysBetween(c, most, lo, hi);
    }
    var d := Run(c, most);
    StepStaysBetween(d, Initial(d), samples[|samples| - 1], lo, hi);
  }

  /** Eight times the exponential average with weight one eighth, without rounding. */
  function Exact(x8: real, samples: seq<int>): real {
    if samples == [] then x8 else Exact(x8, samples[..|samples| - 1]) * 7.0 / 8.0 + samples[|samples| - 1] as real
  }

  lemma ErrorStays(x8: int, e: real, sample: int)
    requires 0.0 <= x8 as real - e <= 7.0
    ensures 0.0 <= Step(Cell(0, Shr3(x8), x8), false, sample).x8 as real - (e * 7.0 / 8.0 + sample as real) <= 7.0
  {
    var c := Cell(0, Shr3(x8), x8);
    var n := Step(c, false, sample).x8;
    StepWeighsOneEighth(c, sample);
    assert 8.0 * n as real == 7.0 * x8 as real + 8.0 * sample as real + (x8 % 8) as real;
  }

  /** Until it looks unsampled again, the filter never falls below the exact average and never gets more than seven
      eighths above it, over runs of any length. */
  lemma {:induction false} RunTracksExact(c: Cell, samples: seq<int>)
    requires Sound(c) && forall i :: 0 <= i < |samples| ==> !Initial(Run(c, samples[..i]))
    ensures Sound(Run(c, samples)) && 0.0 <= Run(c, samples).x8 as real - Exact(c.x8 as real, samples) <= 7.0
  {
    if samples != [] {
      var most := samples[..|samples| - 1];
      assert forall i :: 0 <= i < |most| ==> most[..i] == samples[..i];
      RunTracksExact(c, most);
      var d := Run(c, most);
      assert !Initial(d);
      ErrorStays(d.x8, Exact(c.x8 as real, most), samples[|samples| - 1]);
    }
  }

  /** How far the eightfold average is from settling on x. */
  function Distance(c: Cell, x: int): nat
    requires Sound(c)
  {
    if c.avg < x then 8 * x - c.x8 else if c.avg > x then c.x8 - (8 * x + 7) else 0
  }

  /** Under a constant sample the average moves towards it without passing it, and stays once there. */
  lemma StepApproaches(c: Cell, x: int)
    requires Sound(c) && !Initial(c)
    ensures var d := Step(c, false, x);
      && (c.avg <= x ==> c.avg <= d.avg <= x) && (c.avg >= x ==> c.avg >= d.avg >= x)
      && (c.avg == x ==> d.x8 == c.x8)
      && (c.avg != x ==> Distance(d, x) < Distance(c, x))
  {
  }

  function Constant(c: Cell, x: int, n: nat): Cell {
    if n == 0 then c
    else
      var d := Constant(c, x, n - 1);
      Step(d, Initial(d), x)
  }

  /** Enough equal samples settle the average on them, and every further one leaves it there. */
  lemma {:induction false} ConstantSettles(c: Cell, x: int, n: nat)
    requires Sound(c)
    ensures Sound(Constant(c, x, n))
    ensures n >= 1 && n >= Distance(c, x) ==> Constant(c, x, n).avg == x
    ensures Constant(c, x, n).avg != x ==> Distance(Constant(c, x, n), x) + n <= Distance(c, x)
  {
    if n > 0 {
      ConstantSettles(c, x, n - 1);
      var d := Constant(c, x, n - 1);
      if !Initial(d) {
        StepApproaches(d, x);
      }
    }
  }

  // ---------- the other chains ----------

  /** A chain starts at its first sample exactly when chain 0 looks unsampled at that moment, or the
      sample is one that climbing from zero reaches at once. */
  lemma LateChainStartsAtSampleIff(first: Cell, sample: int)
    requires Char(sample)
    ensures Step(Cell(0, 0, 0), Initial(first), sample).avg == sample <==> Initial(first) || sample == 0 || sample == -1
  {
  }

  /** The three chains together. */
  datatype Radio = Radio(c0: Cell, c1: Cell, c2: Cell)

  /** What one frame brings: a sample for each chain that was heard. */
  datatype Reading = Reading(r0: Option<int>, r1: Option<int>, r2: Option<int>)

  function Hear(c: Cell, initial: bool, r: Option<int>): Cell {
    match r
    case None => c
    case Some(x) => Step(c, initial, x)
  }

  /** A zero reading is no sample. */
  function Read(raw: int, converted: int): Option<int> {
    if raw != 0 then Some(converted) else None
  }

  /** The first-sample test is made once, on chain 0, before any chain moves. */
  function HearAll(radio: Radio, r: Reading): Radio {
    var initial := Initial(radio.c0);
    Radio(Hear(radio.c0, initial, r.r0), Hear(radio.c1, initial, r.r1), Hear(radio.c2, initial, r.r2))
  }

  function HearRun(radio: Radio, rs: seq<Reading>): Radio {
    if rs == [] then radio else HearAll(HearRun(radio, rs[..|rs| - 1]), rs[|rs| - 1])
  }

  /** So it is for chains 1 and 2 at every frame. */
  lemma LateChainsStart(radio: Radio, r: Reading)
    requires radio.c1 == radio.c2 == Cell(0, 0, 0)
    ensures r.r1.Some? && Char(r.r1.value) ==>
      (HearAll(radio, r).c1.avg == r.r1.value <==> Initial(radio.c0) || r.r1.value == 0 || r.r1.value == -1)
    ensures r.r2.Some? && Char(r.r2.value) ==>
      (HearAll(radio, r).c2.avg == r.r2.value <==> Initial(radio.c0) || r.r2.value == 0 || r.r2.value == -1)
  {
    if r.r1.Some? && Char(r.r1.value) { LateChainStartsAtSampleIff(radio.c0, r.r1.value); }
    if r.r2.Some? && Char(r.r2.value) { LateChainStartsAtSampleIff(radio.c0, r.r2.value); }
  }

  predicate Within(lo: int, r: Option<int>, hi: int) {
    r.Some? ==> lo <= r.value <= hi
  }

  predicate AllWithin(lo: int, r: Reading, hi: int) {
    Within(lo, r.r0, hi) && Within(lo, r.r1, hi) && Within(lo, r.r2, hi)
  }

  predicate RadioBetween(lo: int, radio: Radio, hi: int) {
    Between(lo, radio.c0, hi) && Between(lo, radio.c1, hi) && Between(lo, radio.c2, hi)
  }

  lemma HearStaysBetween(c: Cell, initial: bool, r: Option<int>, lo: int, hi: int)
    requires Between(lo, c, hi) && Within(lo, r, hi)
    ensures Between(lo, Hear(c, initial, r), hi)
  {
    if r.Some? { StepStaysBetween(c, initial, r.value, lo, hi); }
  }

  /** Over every run of frames, whichever chains they are heard on, all three averages stay within
      bounds that hold of the samples and of the zero they start from. */
  lemma {:induction false} RadioStaysBetween(rs: seq<Reading>, lo: int, hi: int)
    requires lo <= 0 <= hi && forall r :: r in rs ==> AllWithin(lo, r, hi)
    ensures RadioBetween(lo, HearRun(Radio(Cell(0, 0, 0), Cell(0, 0, 0), Cell(0, 0, 0)), rs), hi)
  {
    if rs != [] {
      var most, r := rs[..|rs| - 1], rs[|rs| - 1];
      RadioStaysBetween(most, lo, hi);
      var radio := HearRun(Radio(Cell(0, 0, 0), Cell(0, 0, 0), Cell(0, 0, 0)), most);
      assert r in rs;
      HearStaysBetween(radio.c0, Initial(radio.c0), r.r0, lo, hi);
      HearStaysBetween(radio.c1, Initial(radio.c0), r.r1, lo, hi);
      HearStaysBetween(radio.c2, Initial(radio.c0), r.r2, lo, hi);
    }
  }

  /** While chain 0 is never heard, every frame counts as the first: the other chains hold their last
      sample and average nothing. */
  lemma {:induction false} SilentFirstChain(radio: Radio, rs: seq<Reading>)
    requires Initial(radio.c0) && rs != [] && forall r :: r in rs ==> r.r0.None?
    ensures var r, end := rs[|rs| - 1], HearRun(radio, rs);
      && end.c0 == radio.c0
      && (r.r1.Some? ==> end.c1 == Cell(r.r1.value, r.r1.value, 8 * r.r1.value))
      && (r.r2.Some? ==> end.c2 == Cell(r.r2.value, r.r2.value, 8 * r.r2.value))
  {
    var most := rs[..|rs| - 1];
    assert rs[|rs| - 1] in rs;
    if most == [] {
      assert HearRun(radio, most) == radio;
    } else {
      SilentFirstChain(radio, most);
    }
  }

  class RssiSample {
    var LastRssi0: int
    var LastRssi1: int
    var LastRssi2: int
    var AvgRssi0: int
    var AvgRssi1: int
    var AvgRssi2: int
    var AvgRssi0X8: int
    var AvgRssi1X8: int
    var AvgRssi2X8: int
    var LastSnr0: int
    var LastSnr1: int
    var AvgSnr0: int
    var AvgSnr1: int
    var AvgSnr0X8: int
    var AvgSnr1X8: int

    function Chain(k: nat): Cell
      reads this
    {
      match k
      case 0 => Cell(LastRssi0, AvgRssi0, AvgRssi0X8)
      case 1 => Cell(LastRssi1, AvgRssi1, AvgRssi1X8)
      case _ => Cell(LastRssi2, AvgRssi2, AvgRssi2X8)
    }

    /** The signal-to-noise filter of chain 0 or 1. */
    function Noise(k: nat): Cell
      reads this
    {
      match k
      case 0 => Cell(LastSnr0, AvgSnr0, AvgSnr0X8)
      case _ => Cell(LastSnr1, AvgSnr1, AvgSnr1X8)
    }

    function View(): Radio
      reads this
    {
      Radio(Chain(0), Chain(1), Chain(2))
    }

    /** All zero. */
    constructor ()
      ensures forall k :: Chain(k) == Cell(0, 0, 0) && Noise(k) == Cell(0, 0, 0)
    {
      LastRssi0, LastRssi1, LastRssi2 := 0, 0, 0;
      AvgRssi0, AvgRssi1, AvgRssi2 := 0, 0, 0;
      AvgRssi0X8, AvgRssi1X8, AvgRssi2X8 := 0, 0, 0;
      LastSnr0, LastSnr1, AvgSnr0, AvgSnr1 := 0, 0, 0, 0;
      AvgSnr0X8, AvgSnr1X8 := 0, 0;
    }

    method Sample0(bInitial: bool, reading: int, converted: int)
      modifies `LastRssi0, `AvgRssi0, `AvgRssi0X8
      ensures Cell(LastRssi0, AvgRssi0, AvgRssi0X8) == Hear(old(Cell(LastRssi0, AvgRssi0, AvgRssi0X8)), bInitial, Read(reading, converted))
    {
      if reading != 0 {
        LastRssi0 := converted;
        if bInitial {
          AvgRssi0X8 := LastRssi0 * 8;
          AvgRssi0 := LastRssi0;
        } else {
          AvgRssi0X8 := (AvgRssi0X8 - AvgRssi0) + LastRssi0;
        }
        AvgRssi0 := Shr3(AvgRssi0X8);
      }
    }

    method Sample1(bInitial: bool, reading: int, converted: int)
      modifies `LastRssi1, `AvgRssi1, `AvgRssi1X8
      ensures Cell(LastRssi1, AvgRssi1, AvgRssi1X8) == Hear(old(Cell(LastRssi1, AvgRssi1, AvgRssi1X8)), bInitial, Read(reading, converted))
    {
      if reading != 0 {
        LastRssi1 := converted;
        if bInitial {
          AvgRssi1X8 := LastRssi1 * 8;
          AvgRssi1 := LastRssi1;
        } else {
          AvgRssi1X8 := (AvgRssi1X8 - AvgRssi1) + LastRssi1;
        }
        AvgRssi1 := Shr3(AvgRssi1X8);
      }
    }

    method Sample2(bInitial: bool, reading: int, converted: int)
      modifies `LastRssi2, `AvgRssi2, `AvgRssi2X8
      ensures Cell(LastRssi2, AvgRssi2, AvgRssi2X8) == Hear(old(Cell(LastRssi2, AvgRssi2, AvgRssi2X8)), bInitial, Read(reading, converted))
    {
      if reading != 0 {
        LastRssi2 := converted;
        if bInitial {
          AvgRssi2X8 := LastRssi2 * 8;
          AvgRssi2 := LastRssi2;
        } else {
          AvgRssi2X8 := (AvgRssi2X8 - AvgRssi2) + LastRssi2;
        }
        AvgRssi2 := Shr3(AvgRssi2X8);
      }
    }

    method Noise0(bInitial: bool, reading: int, converted: int, cck: bool)
      modifies `LastSnr0, `AvgSnr0, `AvgSnr0X8
      ensures Cell(LastSnr0, AvgSnr0, AvgSnr0X8) == if reading != 0 && !cck then Step(old(Cell(LastSnr0, AvgSnr0, AvgSnr0X8)), bInitial, converted) else old(Cell(LastSnr0, AvgSnr0, AvgSnr0X8))
    {
      if reading != 0 && !cck {
        LastSnr0 := converted;
        if bInitial {
          AvgSnr0X8 := LastSnr0 * 8;
          AvgSnr0 := LastSnr0;
        } else {
          AvgSnr0X8 := (AvgSnr0X8 - AvgSnr0) + LastSnr0;
        }
        AvgSnr0 := Shr3(AvgSnr0X8);
      }
    }

    method Noise1(bInitial: bool, reading: int, converted: int, cck: bool)
      modifies `LastSnr1, `AvgSnr1, `AvgSnr1X8
      ensures Cell(LastSnr1, AvgSnr1, AvgSnr1X8) == if reading != 0 && !cck then Step(old(Cell(LastSnr1, AvgSnr1, AvgSnr1X8)), bInitial, converted) else old(Cell(LastSnr1, AvgSnr1, AvgSnr1X8))
    {
      if reading != 0 && !cck {
        LastSnr1 := converted;
        if bInitial {
          AvgSnr1X8 := LastSnr1 * 8;
          AvgSnr1 := LastSnr1;
        } else {
          AvgSnr1X8 := (AvgSnr1X8 - AvgSnr1) + LastSnr1;
        }
        AvgSnr1 := Shr3(AvgSnr1X8);
      }
    }

    /** Update_Rssi_Sample: a zero reading is skipped, so is the signal-to-noise ratio of a CCK frame,
        and whether this is the first sample is asked of the signal strength of chain 0 alone. */
    method Update(rssi: seq<int>, converted: seq<int>, snr: seq<int>, convertedSnr: seq<int>, cck: bool)
      requires |rssi| == |converted| == 3 && |snr| == |convertedSnr| == 2
      modifies this
      ensures View() == HearAll(old(View()), Reading(Read(rssi[0], converted[0]), Read(rssi[1], converted[1]), Read(rssi[2], converted[2])))
      ensures Noise(0) == if snr[0] != 0 && !cck then Step(old(Noise(0)), Initial(old(Chain(0))), convertedSnr[0]) else old(Noise(0))
      ensures Noise(1) == if snr[1] != 0 && !cck then Step(old(Noise(1)), Initial(old(Chain(0))), convertedSnr[1]) else old(Noise(1))
    {
      hide Step, Hear, Read;
      var bInitial := false;
      if AvgRssi0 == 0 && AvgRssi0X8 == 0 && LastRssi0 == 0 {
        bInitial := true;
      }
      Sample0(bInitial, rssi[0], converted[0]);
      Noise0(bInitial, snr[0], convertedSnr[0], cck);
      Sample1(bInitial, rssi[1], converted[1]);
      Noise1(bInitial, snr[1], convertedSnr[1], cck);
      Sample2(bInitial, rssi[2], converted[2]);
    }
  }
}
