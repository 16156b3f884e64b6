/** The status LEDs (fw/leds.h, fw/leds.c).

    Six LEDs hang off three GPIO pins in a matrix; a PIO program lights
    them one at a time.  Software hands the PIO a control word made of six
    3-bit fields, one per LED, each giving the pins to drive for that LED
    (all zero when the LED is dark).  Indices are `bv32`, the C `uint`. */
module Leds {

  const NUM_LEDS: bv32 := 6

  /** Positions of the LEDs in the state byte. */
  const MIDDLE_RIGHT_LED: nat := 0
  const MIDDLE_LEFT_LED: nat := 1
  const MIDDLE_UPPER_LED: nat := 2
  const TOP_LED: nat := 3
  const LOWER_LEFT_LED: nat := 4
  const LOWER_RIGHT_LED: nat := 5

  /** What each LED shows. */
  const HOT_LED_BIT: bv8 := 1 << MIDDLE_RIGHT_LED
  const MAINS_RELAY_LED_BIT: bv8 := 1 << MIDDLE_LEFT_LED
  const POWER_LED_BIT: bv8 := 1 << MIDDLE_UPPER_LED
  const HEARTBEAT_LED_BIT: bv8 := 1 << TOP_LED
  const BOOST_RELAY_LED_BIT: bv8 := 1 << LOWER_LEFT_LED
  const COLD_LED_BIT: bv8 := 1 << LOWER_RIGHT_LED

  /** The pins to drive, per LED (the "pins" value of the PIO program). */
  const ON_BIT_TABLE: seq<bv32> := [1, 2, 1, 4, 2, 4]

  /** LED i is lit in `state`. */
  predicate IsLit(state: bv8, i: bv32)
    requires i < NUM_LEDS
  {
    (state >> i) & 1 == 1
  }

  /** The 3-bit field of LED i in a control word. */
  function Field(word: bv32, i: bv32): bv32
    requires i < NUM_LEDS
  {
    (word >> (i * 3)) & 7
  }

  /** What LED i contributes to the control word. */
  function Contribution(state: bv8, i: bv32): bv32
    requires i < NUM_LEDS
  {
    if IsLit(state, i) then ON_BIT_TABLE[i] << (i * 3) else 0
  }

  /** The control word built from the first n LEDs. */
  function ControlWordUpTo(state: bv8, n: bv32): (r: bv32)
    requires n <= NUM_LEDS
    ensures r >> (n * 3) == 0
    decreases n
  {
    if n == 0 then 0 else ControlWordUpTo(state, n - 1) | Contribution(state, n - 1)
  }

  /** The control word for a whole LED state. */
  function ControlWord(state: bv8): (r: bv32)
    ensures r < 1 << 18
  {
    ControlWordUpTo(state, NUM_LEDS)
  }

  /** leds_output_set: build the control word for the PIO (the blocking
      write to the PIO FIFO is hardware and not modelled). */
  method LedsOutputSet(state: bv8) returns (controlValue: bv32)
    ensures controlValue == ControlWord(state)
  {
    controlValue := 0;
    var i: bv32 := 0;
    while i < NUM_LEDS
      invariant i <= NUM_LEDS
      invariant controlValue == ControlWordUpTo(state, i)
    {
      Step(state, i);
      if (state >> i) & 1 == 1 {
        controlValue := controlValue | (ON_BIT_TABLE[i] << (i * 3));
      }
      i := i + 1;
    }
  }

  lemma Step(state: bv8, n: bv32)
    requires n < NUM_LEDS
    ensures ControlWordUpTo(state, n + 1) == ControlWordUpTo(state, n) | Contribution(state, n)
  {
  }

  lemma ClosedForm(state: bv8)
    ensures ControlWord(state) ==
      Contribution(state, 0) | Contribution(state, 1) | Contribution(state, 2) |
      Contribution(state, 3) | Contribution(state, 4) | Contribution(state, 5)
  {
    Step(state, 0); Step(state, 1); Step(state, 2);
    Step(state, 3); Step(state, 4); Step(state, 5);
  }

  /** The field of LED i holds its table entry when the LED is lit and
      is zero otherwise. */
  lemma FieldOf(state: bv8, i: bv32)
    requires i < NUM_LEDS
    ensures Field(ControlWord(state), i) == if IsLit(state, i) then ON_BIT_TABLE[i] else 0
  {
    ClosedForm(state);
    if i == 0 {
    } else if i == 1 {
    } else if i == 2 {
    } else if i == 3 {
    } else if i == 4 {
    } else {
    }
  }

  /** Each LED owns its own 3-bit field, holding its table entry when the
      LED is lit and zero otherwise; nothing lies above the six fields; a
      lit LED drives exactly one pin. */
  lemma FieldLayout(state: bv8)
    ensures forall i: bv32 :: i < NUM_LEDS ==>
              Field(ControlWord(state), i) == if IsLit(state, i) then ON_BIT_TABLE[i] else 0
    ensures ControlWord(state) < 1 << 18
    ensures forall i: bv32 :: i < NUM_LEDS && IsLit(state, i) ==>
              var f := Field(ControlWord(state), i); f != 0 && f & (f - 1) == 0
  {
    forall i: bv32 | i < NUM_LEDS
      ensures Field(ControlWord(state), i) == if IsLit(state, i) then ON_BIT_TABLE[i] else 0
    {
      FieldOf(state, i);
    }
    ClosedForm(state);
  }

  /** All LEDs dark gives the zero word. */
  lemma EmptyState()
    ensures ControlWord(0) == 0
  {
    ClosedForm(0);
  }

  /** Bits of the state above the six LEDs are ignored. */
  lemma HighBitsIgnored(state: bv8)
    ensures ControlWord(state) == ControlWord(state & 0x3F)
  {
    ClosedForm(state);
    ClosedForm(state & 0x3F);
  }

  /** Layout(w, state): w has the six fields that `state` calls for and
      nothing above them. */
  ghost predicate Layout(w: bv32, state: bv8)
  {
    w < 1 << 18 &&
    forall i: bv32 :: i < NUM_LEDS ==> Field(w, i) == if IsLit(state, i) then ON_BIT_TABLE[i] else 0
  }

  lemma LayoutOf(state: bv8)
    ensures Layout(ControlWord(state), state)
  {
    FieldLayout(state);
  }

  lemma LayoutOr(wa: bv32, wb: bv32, a: bv8, b: bv8)
    requires Layout(wa, a) && Layout(wb, b)
    ensures Layout(wa | wb, a | b)
  {
    forall i: bv32 | i < NUM_LEDS
      ensures Field(wa | wb, i) == if IsLit(a | b, i) then ON_BIT_TABLE[i] else 0
    {
      FieldOr(wa, wb, i);
      IsLitOr(a, b, i);
      var t := ON_BIT_TABLE[i];
      assert Field(wa, i) == if IsLit(a, i) then t else 0;
      assert Field(wb, i) == if IsLit(b, i) then t else 0;
    }
  }

  lemma FieldOr(wa: bv32, wb: bv32, i: bv32)
    requires i < NUM_LEDS
    ensures Field(wa | wb, i) == Field(wa, i) | Field(wb, i)
  {
  }

  lemma IsLitOr(a: bv8, b: bv8, i: bv32)
    requires i < NUM_LEDS
    ensures IsLit(a | b, i) <==> IsLit(a, i) || IsLit(b, i)
  {
  }

  /** At most one word has a given layout. */
  lemma LayoutUnique(w1: bv32, w2: bv32, state: bv8)
    requires Layout(w1, state) && Layout(w2, state)
    ensures w1 == w2
  {
    assert Field(w1, 0) == Field(w2, 0) && Field(w1, 1) == Field(w2, 1) && Field(w1, 2) == Field(w2, 2);
    assert Field(w1, 3) == Field(w2, 3) && Field(w1, 4) == Field(w2, 4) && Field(w1, 5) == Field(w2, 5);
  }

  /** The word for the union of two LED sets is the union of their words. */
  lemma OrComposition(a: bv8, b: bv8)
    ensures ControlWord(a | b) == ControlWord(a) | ControlWord(b)
  {
    LayoutOf(a);
    LayoutOf(b);
    LayoutOf(a | b);
    LayoutOr(ControlWord(a), ControlWord(b), a, b);
    LayoutUnique(ControlWord(a | b), ControlWord(a) | ControlWord(b), a | b);
  }

  /** Two LED states that differ in one of the six LEDs never share a word. */
  lemma Injective(a: bv8, b: bv8)
    requires ControlWord(a) == ControlWord(b)
    ensures a & 0x3F == b & 0x3F
  {
    ClosedForm(a);
    ClosedForm(b);
  }
}
