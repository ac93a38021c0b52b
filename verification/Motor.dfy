/** The motor driver: sign and inversion dispatch onto two direction pins and a compare register. */
module Motor {
  import opened Numeric
  import opened PwmTiming

  datatype Config = Config(invert: bool, used: bool, arr: nat)

  /** The hardware state of one motor. */
  datatype Regs = Regs(pinA: bool, pinB: bool, ccr: nat)

  /** One register write; the hardware sees them one after another. */
  datatype Write = PinA(level: bool) | PinB(level: bool) | Compare(value: nat)

  function Written(r: Regs, w: Write): Regs {
    match w
    case PinA(level) => r.(pinA := level)
    case PinB(level) => r.(pinB := level)
    case Compare(value) => r.(ccr := value)
  }

  function AllWritten(r: Regs, ws: seq<Write>): Regs {
    if ws == [] then r else Written(AllWritten(r, ws[..|ws| - 1]), ws[|ws| - 1])
  }

  /** The register writes of spin(pwm), in order. */
  function SpinWrites(c: Config, pwm: int): seq<Write> {
    var p := if c.invert then -pwm else pwm;
    if !c.used then []
    else if p > 0 then [PinA(true), PinB(false), Compare(PwmClamp(p, c.arr))]
    else if p < 0 then [PinA(false), PinB(true), Compare(PwmClamp(-p, c.arr))]
    else [Compare(0)]
  }

  function Spun(c: Config, r: Regs, pwm: int): Regs {
    AllWritten(r, SpinWrites(c, pwm))
  }

  /** The drive the registers stand for: forward positive, reverse negative. */
  function SignedDuty(r: Regs): int {
    var duty: int := r.ccr;
    if r.pinA && !r.pinB then duty
    else if r.pinB && !r.pinA then -duty
    else 0
  }

  lemma ThreeWrites(r: Regs, ws: seq<Write>)
    requires |ws| == 3
    ensures AllWritten(r, ws[..0]) == r
    ensures AllWritten(r, ws[..1]) == Written(r, ws[0])
    ensures AllWritten(r, ws[..2]) == Written(Written(r, ws[0]), ws[1])
    ensures AllWritten(r, ws[..3]) == AllWritten(r, ws) == Written(Written(Written(r, ws[0]), ws[1]), ws[2])
  {
    assert ws[..1][..0] == ws[..0];
    assert ws[..2][..1] == ws[..1];
    assert ws[..3][..2] == ws[..2];
    assert ws[..3] == ws;
  }

  lemma SpunRegisters(c: Config, r: Regs, pwm: int)
    ensures var p := if c.invert then -pwm else pwm;
            Spun(c, r, pwm) ==
            if !c.used then r
            else if p > 0 then Regs(true, false, PwmClamp(p, c.arr))
            else if p < 0 then Regs(false, true, PwmClamp(-p, c.arr))
            else r.(ccr := 0)
  {
    var ws := SpinWrites(c, pwm);
    if |ws| == 3 {
      ThreeWrites(r, ws);
    } else if |ws| == 1 {
      assert ws == [Compare(0)];
      assert ws[..0] == [];
      assert AllWritten(r, ws[..0]) == r;
    } else {
      assert ws == [];
    }
  }

  class Generic2 {
    const config: Config
    var pinA: bool
    var pinB: bool
    var ccr: nat
    /** Every register write since the motor was brought up. */
    ghost var writes: seq<Write>

    ghost function View(): Regs
      reads this
    {
      Regs(pinA, pinB, ccr)
    }

    /** After init(): both pins low, duty zero. */
    constructor (config: Config)
      ensures this.config == config && View() == Regs(false, false, 0) && writes == []
    {
      this.config := config;
      pinA, pinB, ccr, writes := false, false, 0, [];
    }

    method Forward(pwm: int)
      modifies this
      ensures config.used ==> writes == old(writes) + [PinA(true), PinB(false), Compare(PwmClamp(pwm, config.arr))]
      ensures config.used ==> View() == Regs(true, false, PwmClamp(pwm, config.arr))
      ensures !config.used ==> writes == old(writes) && View() == old(View())
    {
      if !config.used { return; }
      pinA, writes := true, writes + [PinA(true)];
      pinB, writes := false, writes + [PinB(false)];
      ccr, writes := PwmClamp(pwm, config.arr), writes + [Compare(PwmClamp(pwm, config.arr))];
    }

    method Reverse(pwm: int)
      modifies this
      ensures var duty := PwmClamp(if pwm < 0 then -pwm else pwm, config.arr);
              && (config.used ==> writes == old(writes) + [PinA(false), PinB(true), Compare(duty)])
              && (config.used ==> View() == Regs(false, true, duty))
      ensures !config.used ==> writes == old(writes) && View() == old(View())
    {
      if !config.used { return; }
      pinA, writes := false, writes + [PinA(false)];
      pinB, writes := true, writes + [PinB(true)];
      var duty := PwmClamp(if pwm < 0 then -pwm else pwm, config.arr);
      ccr, writes := duty, writes + [Compare(duty)];
    }

    method Brake()
      modifies this
      ensures config.used ==> writes == old(writes) + [Compare(0)] && View() == old(View()).(ccr := 0)
      ensures !config.used ==> writes == old(writes) && View() == old(View())
    {
      if !config.used { return; }
      ccr, writes := 0, writes + [Compare(0)];
    }

    method Spin(pwm: int)
      modifies this
      ensures View() == Spun(config, old(View()), pwm)
      ensures writes == old(writes) + SpinWrites(config, pwm)
    {
      var p := pwm;
      if config.invert {
        p := p * -1;
      }
      SpunRegisters(config, View(), pwm);
      if p > 0 {
        Forward(p);
      } else if p < 0 {
        Reverse(p);
      } else {
        Brake();
      }
    }
  }

  predicate Within(p: int, arr: nat) {
    p <= arr && -p <= arr
  }

  /** After a call a used motor is driven by exactly the requested amount, inverted if wired so and
      cut off at full scale, and the two direction pins are never left on together. */
  lemma SpinDrivesAsAsked(c: Config, r: Regs, pwm: int)
    requires c.used && !(r.pinA && r.pinB)
    ensures var after := Spun(c, r, pwm);
            var p := if c.invert then -pwm else pwm;
            && !(after.pinA && after.pinB)
            && after.ccr <= c.arr
            && (Within(p, c.arr) ==> SignedDuty(after) == p)
            && (p > c.arr ==> SignedDuty(after) == c.arr)
            && (-p > c.arr ==> -SignedDuty(after) == c.arr)
  {
    SpunRegisters(c, r, pwm);
  }

  predicate BothSetAfter(r: Regs, ws: seq<Write>, k: nat)
    requires k <= |ws|
  {
    AllWritten(r, ws[..k]).pinA && AllWritten(r, ws[..k]).pinB
  }

  /** Inside the call exclusivity can break: starting with the pins exclusive, some intermediate
      state has both set exactly when the motor is switched straight from reverse to forward. */
  lemma BothPinsBetweenWritesIff(c: Config, r: Regs, pwm: int)
    requires c.used && !(r.pinA && r.pinB)
    ensures (exists k: nat :: k <= |SpinWrites(c, pwm)| && BothSetAfter(r, SpinWrites(c, pwm), k))
            <==> (if c.invert then pwm < 0 else pwm > 0) && r.pinB
  {
    var ws := SpinWrites(c, pwm);
    if |ws| == 3 {
      ThreeWrites(r, ws);
      assert BothSetAfter(r, ws, 1) <==> ws[0] == PinA(true) && r.pinB;
    } else {
      assert ws == [Compare(0)];
      assert ws[..0] == [] && ws[..1] == ws;
      assert !BothSetAfter(r, ws, 0);
      assert !BothSetAfter(r, ws, 1);
    }
  }
}
