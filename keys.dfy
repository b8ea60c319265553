/** Key constants, the key record and their printable names (src/keys.h). */
module Keys {
  import opened Wrappers
  import opened Types

  // Modifier masks (the core protocol's SETofKEYMASK bits).
  const MOD_MASK_SHIFT: uint32 := 1
  const MOD_MASK_LOCK: uint32 := 2
  const MOD_MASK_CONTROL: uint32 := 4
  const MOD_MASK_1: uint32 := 8
  const MOD_MASK_2: uint32 := 16
  const MOD_MASK_4: uint32 := 64
  const MOD_MASK_5: uint32 := 128

  const SUPER: uint32 := MOD_MASK_4
  const ALT: uint32 := MOD_MASK_1
  const SHIFT: uint32 := MOD_MASK_SHIFT
  const CTRL: uint32 := MOD_MASK_CONTROL
  const CAPS_LOCK: uint32 := MOD_MASK_LOCK
  const SCROLL_LOCK: uint32 := MOD_MASK_5
  const NUM_LOCK: uint32 := MOD_MASK_2

  // Keysyms (X11 keysymdef.h).
  const RETURN: uint32 := 0xff0d
  const LEFT: uint32 := 0xff51
  const RIGHT: uint32 := 0xff53
  const UP: uint32 := 0xff52
  const DOWN: uint32 := 0xff54
  const PLUS: uint32 := 0x2b
  const MINUS: uint32 := 0x2d
  const NUMBER_1: uint32 := 0x31
  const NUMBER_2: uint32 := 0x32
  const NUMBER_3: uint32 := 0x33
  const NUMBER_4: uint32 := 0x34
  const NUMBER_5: uint32 := 0x35
  const NUMBER_6: uint32 := 0x36
  const NUMBER_7: uint32 := 0x37
  const NUMBER_8: uint32 := 0x38
  const NUMBER_9: uint32 := 0x39

  /** A key binding's trigger: a modifier mask and a keysym. */
  datatype Key = Key(modifier: uint32, keySymbol: uint32)

  /** The constants `ToString` has a case for, each with the name it prints. */
  const NAMED_KEYS: seq<(uint32, string)> := [
    (SUPER, "Super"), (ALT, "Alt"), (SHIFT, "Shift"),
    (LEFT, "Left"), (RIGHT, "Right"), (UP, "Up"), (DOWN, "Down"),
    (NUMBER_1, "Number_1"), (NUMBER_2, "Number_2"), (NUMBER_3, "Number_3"),
    (NUMBER_4, "Number_4"), (NUMBER_5, "Number_5"), (NUMBER_6, "Number_6"),
    (NUMBER_7, "Number_7"), (NUMBER_8, "Number_8"), (NUMBER_9, "Number_9"),
    (CTRL, "Ctrl"), (PLUS, "Plus"), (MINUS, "Minus"), (RETURN, "Return")
  ]

  predicate IsNamed(key: uint32) {
    key in {SUPER, ALT, SHIFT, LEFT, RIGHT, UP, DOWN, NUMBER_1, NUMBER_2, NUMBER_3, NUMBER_4,
            NUMBER_5, NUMBER_6, NUMBER_7, NUMBER_8, NUMBER_9, CTRL, PLUS, MINUS, RETURN}
  }

  predicate IsDigit(c: char) {
    '0' <= c <= '9'
  }

  predicate AllDigits(s: string) {
    forall i :: 0 <= i < |s| ==> IsDigit(s[i])
  }

  function DigitChar(d: nat): (c: char)
    requires d < 10
    ensures IsDigit(c) && c as int - '0' as int == d
  {
    ('0' as int + d) as char
  }

  /** `std::to_string` of an unsigned value: its decimal digits, most
      significant first, with no leading zero. */
  function Decimal(n: nat): (s: string)
    ensures |s| >= 1 && AllDigits(s)
    ensures |s| > 1 ==> s[0] != '0'
    ensures n < 10 <==> |s| == 1
    decreases n
  {
    if n < 10 then [DigitChar(n)] else Decimal(n / 10) + [DigitChar(n % 10)]
  }

  /** The value a string of decimal digits denotes. */
  function DecimalValue(s: string): nat
    requires AllDigits(s)
    decreases |s|
  {
    if s == [] then 0
    else DecimalValue(s[..|s| - 1]) * 10 + (s[|s| - 1] as int - '0' as int)
  }

  /** Reading a rendering back yields the number rendered. */
  lemma {:induction false} DecimalRoundTrip(n: nat)
    ensures DecimalValue(Decimal(n)) == n
    decreases n
  {
    if n >= 10 {
      DecimalRoundTrip(n / 10);
      var s := Decimal(n);
      assert s[..|s| - 1] == Decimal(n / 10);
    }
  }

  lemma DecimalInjective(a: nat, b: nat)
    requires Decimal(a) == Decimal(b)
    ensures a == b
  {
    DecimalRoundTrip(a);
    DecimalRoundTrip(b);
  }

  /** The name of a key constant, or its decimal value when it has no case
      of its own. */
  function ToString(key: uint32): (s: string)
    ensures |s| > 0
    ensures IsNamed(key) ==> !IsDigit(s[0])
    ensures !IsNamed(key) ==> AllDigits(s)
  {
    if key == SUPER then "Super"
    else if key == ALT then "Alt"
    else if key == SHIFT then "Shift"
    else if key == LEFT then "Left"
    else if key == RIGHT then "Right"
    else if key == UP then "Up"
    else if key == DOWN then "Down"
    else if key == NUMBER_1 then "Number_1"
    else if key == NUMBER_2 then "Number_2"
    else if key == NUMBER_3 then "Number_3"
    else if key == NUMBER_4 then "Number_4"
    else if key == NUMBER_5 then "Number_5"
    else if key == NUMBER_6 then "Number_6"
    else if key == NUMBER_7 then "Number_7"
    else if key == NUMBER_8 then "Number_8"
    else if key == NUMBER_9 then "Number_9"
    else if key == CTRL then "Ctrl"
    else if key == PLUS then "Plus"
    else if key == MINUS then "Minus"
    else if key == RETURN then "Return"
    else Decimal(key)
  }

  /** Every case of the switch prints the name listed for its constant. */
  lemma NamedKeysPrintTheirNames(i: nat)
    requires i < |NAMED_KEYS|
    ensures ToString(NAMED_KEYS[i].0) == NAMED_KEYS[i].1
  {
    if i < 7 {
      if i == 0 {} else if i == 1 {} else if i == 2 {} else if i == 3 {} else if i == 4 {} else if i == 5 {} else {}
    } else if i < 16 {
      if i == 7 {} else if i == 8 {} else if i == 9 {} else if i == 10 {} else if i == 11 {} else if i == 12 {}
      else if i == 13 {} else if i == 14 {} else {}
    } else {
      if i == 16 {} else if i == 17 {} else if i == 18 {} else {}
    }
  }

  /** The constant a printed name stands for; `None` for any other text. */
  function KeyOfName(s: string): Option<uint32> {
    if s == "Super" then Some(SUPER)
    else if s == "Alt" then Some(ALT)
    else if s == "Shift" then Some(SHIFT)
    else if s == "Left" then Some(LEFT)
    else if s == "Right" then Some(RIGHT)
    else if s == "Up" then Some(UP)
    else if s == "Down" then Some(DOWN)
    else if s == "Number_1" then Some(NUMBER_1)
    else if s == "Number_2" then Some(NUMBER_2)
    else if s == "Number_3" then Some(NUMBER_3)
    else if s == "Number_4" then Some(NUMBER_4)
    else if s == "Number_5" then Some(NUMBER_5)
    else if s == "Number_6" then Some(NUMBER_6)
    else if s == "Number_7" then Some(NUMBER_7)
    else if s == "Number_8" then Some(NUMBER_8)
    else if s == "Number_9" then Some(NUMBER_9)
    else if s == "Ctrl" then Some(CTRL)
    else if s == "Plus" then Some(PLUS)
    else if s == "Minus" then Some(MINUS)
    else if s == "Return" then Some(RETURN)
    else None
  }

  /** A named key's name reads back as that key. */
  lemma NameRoundTrip(key: uint32)
    requires IsNamed(key)
    ensures KeyOfName(ToString(key)) == Some(key)
  {
    if key == SUPER {} else if key == ALT {} else if key == SHIFT {} else if key == LEFT {} else if key == RIGHT {}
    else if key == UP {} else if key == DOWN {} else if key == NUMBER_1 {} else if key == NUMBER_2 {}
    else if key == NUMBER_3 {} else if key == NUMBER_4 {} else if key == NUMBER_5 {} else if key == NUMBER_6 {}
    else if key == NUMBER_7 {} else if key == NUMBER_8 {} else if key == NUMBER_9 {} else if key == CTRL {}
    else if key == PLUS {} else if key == MINUS {} else {}
  }

  /** A key without a case prints as its decimal value. */
  lemma OtherKeysPrintDecimal(key: uint32)
    requires !IsNamed(key)
    ensures ToString(key) == Decimal(key)
  {
  }

  /** The three lock modifiers have no case: they print as numbers. */
  lemma LockKeysPrintDecimal()
    ensures ToString(CAPS_LOCK) == "2"
    ensures ToString(NUM_LOCK) == "16"
    ensures ToString(SCROLL_LOCK) == "128"
  {
  }

  /** The case labels are pairwise distinct, and so are the names. */
  lemma NamedKeysDistinct()
    ensures forall i, j :: 0 <= i < j < |NAMED_KEYS| ==> NAMED_KEYS[i].0 != NAMED_KEYS[j].0 && NAMED_KEYS[i].1 != NAMED_KEYS[j].1
    ensures forall i :: 0 <= i < |NAMED_KEYS| ==> IsNamed(NAMED_KEYS[i].0)
  {
  }

  /** Distinct keys print differently: a name is never a number, the names
      are distinct and decimal renderings read back. */
  lemma ToStringInjective(a: uint32, b: uint32)
    requires ToString(a) == ToString(b)
    ensures a == b
  {
    if IsNamed(a) && IsNamed(b) {
      NameRoundTrip(a);
      NameRoundTrip(b);
    } else if !IsNamed(a) && !IsNamed(b) {
      DecimalInjective(a, b);
    }
  }
}
