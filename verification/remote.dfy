/** The remote's settings: update commands, the frame on air, and keeping track of an appliance that only toggles. */
module Remote {
  import opened Text

  /** The settings union; `power` is the toggle bit of the next frame, `powerState` the tracked state. */
  datatype Settings = Settings(
    power: bool, mode: nat, fan: nat, swing: bool, temperature: nat, sleep: bool, powerState: bool)

  /** Every field fits its bits, and the temperature is one the appliance has. */
  predicate InRange(s: Settings) { 1 <= s.mode <= 5 && s.fan <= 3 && s.temperature <= 14 }

  const POWER_UP := Settings(false, 1, 1, false, 9, false, false)

  // ---- Update commands

  const COMMAND_LEN := 16

  /** The received text with its terminator and whatever the buffer held behind it. */
  type Buffer = c: string | |c| == COMMAND_LEN witness seq(COMMAND_LEN, i => '\0')

  predicate StartsWith(c: Buffer, p: string) { |p| <= COMMAND_LEN && c[..|p|] == p }

  /** The digits from position `p` on. */
  function DigitRun(c: Buffer, p: nat): (s: string)
    ensures AllDigits(s)
    decreases COMMAND_LEN - p
  {
    if p < COMMAND_LEN && IsDigit(c[p]) then [c[p]] + DigitRun(c, p + 1) else []
  }

  /** The number behind a prefix and a space, 1 if there is none. */
  function Delta(c: Buffer, prefixLen: nat): nat
    requires prefixLen < COMMAND_LEN
  {
    var run := DigitRun(c, prefixLen + 1);
    if c[prefixLen] == ' ' && run != [] then ParseInt(run) else 1
  }

  /** What a command asks for. */
  datatype Order =
    | TogglePower | ToggleSwing | Warmer(n: nat) | Colder(n: nat) | Stronger(n: nat) | Weaker(n: nat)
    | SetMode(mode: nat) | Nothing

  /** The first matching name wins; the last two fan names are cut short by the comparison length. */
  function OrderOf(c: Buffer): (o: Order)
    ensures o.SetMode? ==> 1 <= o.mode <= 5
  {
    if StartsWith(c, "POWER") then TogglePower
    else if StartsWith(c, "SWING") then ToggleSwing
    else if StartsWith(c, "TEMP_UP") then Warmer(Delta(c, 7))
    else if StartsWith(c, "TEMP_DOWN") then Colder(Delta(c, 9))
    else if StartsWith(c, "FAN_UP") then Stronger(Delta(c, 6))
    else if StartsWith(c, "FAN_") then Weaker(Delta(c, 6))
    else if StartsWith(c, "COOL") then SetMode(1)
    else if StartsWith(c, "HEAT") then SetMode(2)
    else if StartsWith(c, "AUTO") then SetMode(3)
    else if StartsWith(c, "DRY") then SetMode(4)
    else if StartsWith(c, "FAN") then SetMode(5)
    else Nothing
  }

  /** A value stored in a bit field of `span` values. */
  function Fit(v: nat, span: nat): nat
    requires span > 0
  {
    if v < span then v else v % span
  }

  /** The settings an order leads to. */
  function Obeyed(s: Settings, o: Order): Settings {
    match o
    case TogglePower => s.(power := true)
    case ToggleSwing => s.(swing := !s.swing)
    case Warmer(n) => s.(temperature := Fit(if s.temperature + n > 14 then 14 else s.temperature + n, 16))
    case Colder(n) => s.(temperature := Fit(if s.temperature - n < 0 then 0 else s.temperature - n, 16))
    case Stronger(n) => s.(fan := Fit(if s.fan + n > 3 then 3 else s.fan + n, 4))
    case Weaker(n) => s.(fan := Fit(if s.fan > n then s.fan - n else 0, 4))
    case SetMode(m) => s.(mode := Fit(m, 8))
    case Nothing => s
  }

  function Applied(s: Settings, c: Buffer): Settings { Obeyed(s, OrderOf(c)) }

  /** After a frame went out: the toggle bit is spent and the tracked state follows it. */
  function Spent(s: Settings): Settings {
    if s.power then s.(powerState := !s.powerState, power := false) else s
  }

  // ---- Histories

  /** Everything that can make the remote transmit; the three are whole handlers or whole scheduler steps. */
  datatype Action = Update(command: Buffer) | SwitchOn | SwitchOff

  function Frames(s: Settings, a: Action): seq<Settings> {
    match a
    case Update(c) => [Applied(s, c)]
    case SwitchOn => if s.powerState then [] else [s.(power := true)]
    case SwitchOff => if s.powerState then [s.(power := true)] else []
  }

  function After(s: Settings, a: Action): Settings {
    match a
    case Update(c) => Spent(Applied(s, c))
    case SwitchOn => if s.powerState then s else s.(power := false, powerState := true)
    case SwitchOff => if s.powerState then s.(power := false, powerState := false) else s
  }

  function AfterAll(s: Settings, h: seq<Action>): Settings {
    if h == [] then s else After(AfterAll(s, h[..|h| - 1]), h[|h| - 1])
  }

  function AllFrames(s: Settings, h: seq<Action>): seq<Settings> {
    if h == [] then [] else AllFrames(s, h[..|h| - 1]) + Frames(AfterAll(s, h[..|h| - 1]), h[|h| - 1])
  }

  /** The appliance: every received frame with the power bit set toggles it. */
  function Appliance(on: bool, frames: seq<Settings>): bool {
    if frames == [] then on else Appliance(on, frames[..|frames| - 1]) != frames[|frames| - 1].power
  }

  lemma {:induction false} ApplianceConcat(on: bool, f: seq<Settings>, g: seq<Settings>)
    ensures Appliance(on, f + g) == Appliance(Appliance(on, f), g)
  {
    if g == [] {
      assert f + g == f;
    } else {
      assert (f + g)[..|f + g| - 1] == f + g[..|g| - 1];
      ApplianceConcat(on, f, g[..|g| - 1]);
    }
  }

  lemma ApplianceOne(on: bool, f: Settings)
    ensures Appliance(on, [f]) == (on != f.power) && !(Appliance(on, []) != on)
  {
    assert [f][..0] == [];
  }

  /** No order makes a bit field overflow. */
  lemma ObeyedInRange(s: Settings, o: Order)
    requires InRange(s) && (o.SetMode? ==> 1 <= o.mode <= 5)
    ensures InRange(Obeyed(s, o)) && Obeyed(s, o).powerState == s.powerState
  {
    match o
    case SetMode(m) => assert Fit(m, 8) == m;
    case _ =>
  }

  lemma ActionTracked(s: Settings, a: Action)
    requires !s.power && InRange(s)
    ensures !After(s, a).power && InRange(After(s, a))
    ensures After(s, a).powerState == Appliance(s.powerState, Frames(s, a))
    ensures a.SwitchOn? ==> After(s, a).powerState
    ensures a.SwitchOff? ==> !After(s, a).powerState
  {
    hide Obeyed, OrderOf, Appliance;
    ApplianceOne(s.powerState, s);
    match a
    case Update(c) =>
      ObeyedInRange(s, OrderOf(c));
      ApplianceOne(s.powerState, Applied(s, c));
    case _ => ApplianceOne(s.powerState, s.(power := true));
  }

  /** In every interleaving the toggle bit is clear in between, the tracked state is what the frames on air have
      made of the appliance, and no setting leaves its range. */
  lemma {:induction false} PowerTracked(s: Settings, h: seq<Action>)
    requires !s.power && InRange(s)
    ensures !AfterAll(s, h).power && InRange(AfterAll(s, h))
    ensures AfterAll(s, h).powerState == Appliance(s.powerState, AllFrames(s, h))
  {
    hide After, Frames, InRange;
    if h != [] {
      var before := h[..|h| - 1];
      PowerTracked(s, before);
      ActionTracked(AfterAll(s, before), h[|h| - 1]);
      ApplianceConcat(s.powerState, AllFrames(s, before), Frames(AfterAll(s, before), h[|h| - 1]));
    }
  }

  // ---- What single commands do

  lemma {:induction false} RunReads(c: Buffer, p: nat, digits: string)
    requires p + |digits| < COMMAND_LEN && AllDigits(digits)
    requires c[p..p + |digits|] == digits && !IsDigit(c[p + |digits|])
    ensures DigitRun(c, p) == digits
    decreases |digits|
  {
    if digits != [] {
      assert c[p] == c[p..p + |digits|][0];
      assert c[p + 1..p + |digits|] == c[p..p + |digits|][1..] == digits[1..];
      RunReads(c, p + 1, digits[1..]);
    }
  }

  /** A number sent behind a prefix is the number the server uses. */
  lemma DeltaReads(c: Buffer, prefix: string, n: nat)
    requires |prefix + " " + Numeral(n, 10)| < COMMAND_LEN
    requires StartsWith(c, prefix + " " + Numeral(n, 10)) && !IsDigit(c[|prefix + " " + Numeral(n, 10)|])
    ensures StartsWith(c, prefix) && Delta(c, |prefix|) == n
  {
    var text, digits := prefix + " " + Numeral(n, 10), Numeral(n, 10);
    assert c[..|prefix|] == c[..|text|][..|prefix|] == prefix;
    assert c[|prefix|] == c[..|text|][|prefix|];
    assert c[|prefix| + 1..|text|] == c[..|text|][|prefix| + 1..] == digits;
    RunReads(c, |prefix| + 1, digits);
    ValueOfNumeral(n);
  }

  /** Without a space and a digit right behind the prefix the command moves by one. */
  lemma DeltaDefault(c: Buffer, p: nat)
    requires p + 1 < COMMAND_LEN && (c[p] != ' ' || !IsDigit(c[p + 1]))
    ensures Delta(c, p) == 1
  {
    hide ParseInt;
    assert !IsDigit(c[p + 1]) ==> DigitRun(c, p + 1) == [];
  }

  lemma TemperatureMoves(s: Settings, c: Buffer, n: nat, up: bool)
    requires InRange(s)
    requires var text := (if up then "TEMP_UP " else "TEMP_DOWN ") + Numeral(n, 10);
             |text| < COMMAND_LEN && StartsWith(c, text) && !IsDigit(c[|text|])
    ensures Applied(s, c) == s.(temperature := if up then if s.temperature + n > 14 then 14 else s.temperature + n
                                               else if s.temperature < n then 0 else s.temperature - n)
  {
    hide Delta, Numeral, OrderOf;
    var prefix := if up then "TEMP_UP" else "TEMP_DOWN";
    assert prefix + " " + Numeral(n, 10) == (if up then "TEMP_UP " else "TEMP_DOWN ") + Numeral(n, 10);
    DeltaReads(c, prefix, n);
    TempBranch(c, up);
  }

  /** The first letters of a command decide the branch. */
  lemma TempBranch(c: Buffer, up: bool)
    requires StartsWith(c, if up then "TEMP_UP" else "TEMP_DOWN")
    ensures OrderOf(c) == if up then Warmer(Delta(c, 7)) else Colder(Delta(c, 9))
  {
    hide Delta;
    assert c[..7][5] == c[5] && c[..5][0] == c[0];
    if up {
      assert c[..7][0] == c[0];
    } else {
      assert c[..9][0] == c[0] && c[..9][5] == c[5];
    }
  }

  lemma FanMovesUp(s: Settings, c: Buffer, n: nat)
    requires InRange(s)
    requires |"FAN_UP " + Numeral(n, 10)| < COMMAND_LEN && StartsWith(c, "FAN_UP " + Numeral(n, 10))
    requires !IsDigit(c[|"FAN_UP " + Numeral(n, 10)|])
    ensures Applied(s, c) == s.(fan := if s.fan + n > 3 then 3 else s.fan + n)
  {
    hide Delta, Numeral, OrderOf;
    assert "FAN_UP" + " " + Numeral(n, 10) == "FAN_UP " + Numeral(n, 10);
    DeltaReads(c, "FAN_UP", n);
    assert OrderOf(c) == Stronger(Delta(c, 6)) by { FanBranch(c); }
  }

  lemma FanBranch(c: Buffer)
    requires StartsWith(c, "FAN_UP")
    ensures OrderOf(c) == Stronger(Delta(c, 6))
  {
    hide Delta;
    assert c[..6][0] == c[0];
    assert c[..5][0] == c[0] && c[..7][0] == c[0] && c[..9][0] == c[0];
  }

  lemma CharAt(c: Buffer, p: string, k: nat)
    requires k < |p|
    ensures StartsWith(c, p) ==> c[k] == p[k]
  {
    if StartsWith(c, p) {
      assert c[..|p|][k] == c[k];
    }
  }

  /** No text starts with two of these names, by their first letters. */
  lemma NamesApart(c: Buffer)
    ensures StartsWith(c, "POWER") ==> c[0] == 'P'
    ensures StartsWith(c, "SWING") ==> c[0] == 'S'
    ensures StartsWith(c, "TEMP_UP") || StartsWith(c, "TEMP_DOWN") ==> c[0] == 'T'
    ensures StartsWith(c, "FAN_UP") || StartsWith(c, "FAN_") ==> c[0] == 'F' && c[3] == '_'
    ensures StartsWith(c, "COOL") ==> c[0] == 'C'
    ensures StartsWith(c, "HEAT") ==> c[0] == 'H'
    ensures StartsWith(c, "AUTO") ==> c[0] == 'A'
    ensures StartsWith(c, "DRY") ==> c[0] == 'D'
    ensures StartsWith(c, "FAN") ==> c[0] == 'F'
  {
    hide StartsWith;
    CharAt(c, "POWER", 0);
    CharAt(c, "SWING", 0);
    CharAt(c, "TEMP_UP", 0);
    CharAt(c, "TEMP_DOWN", 0);
    CharAt(c, "FAN_UP", 0);
    CharAt(c, "FAN_UP", 3);
    CharAt(c, "FAN_", 0);
    CharAt(c, "FAN_", 3);
    CharAt(c, "COOL", 0);
    CharAt(c, "HEAT", 0);
    CharAt(c, "AUTO", 0);
    CharAt(c, "DRY", 0);
    CharAt(c, "FAN", 0);
  }

  /** POWER sets the toggle bit of the next frame, SWING flips the swing, the names of the modes set modes 1 to 5. */
  lemma NamedCommands(s: Settings, c: Buffer)
    ensures StartsWith(c, "POWER") ==> Applied(s, c) == s.(power := true)
    ensures StartsWith(c, "SWING") ==> Applied(s, c) == s.(swing := !s.swing)
    ensures StartsWith(c, "COOL") ==> Applied(s, c) == s.(mode := 1)
    ensures StartsWith(c, "HEAT") ==> Applied(s, c) == s.(mode := 2)
    ensures StartsWith(c, "AUTO") ==> Applied(s, c) == s.(mode := 3)
    ensures StartsWith(c, "DRY") ==> Applied(s, c) == s.(mode := 4)
    ensures StartsWith(c, "FAN") && c[3] != '_' ==> Applied(s, c) == s.(mode := 5)
  {
    hide StartsWith, Delta;
    NamesApart(c);
  }

  /** Any other text changes nothing. */
  lemma UnknownCommand(s: Settings, c: Buffer)
    requires !StartsWith(c, "POWER") && !StartsWith(c, "SWING")
    requires !StartsWith(c, "TEMP_UP") && !StartsWith(c, "TEMP_DOWN")
    requires !StartsWith(c, "FAN") && !StartsWith(c, "COOL") && !StartsWith(c, "HEAT") && !StartsWith(c, "AUTO")
    requires !StartsWith(c, "DRY")
    ensures Applied(s, c) == s
  {
    FanNames(c);
    hide StartsWith, Delta;
  }

  lemma FanNames(c: Buffer)
    ensures StartsWith(c, "FAN_UP") || StartsWith(c, "FAN_") ==> StartsWith(c, "FAN")
  {
    assert c[..6][..3] == c[..3] == c[..4][..3];
  }

  /** What goes on air: an update sends one frame, whose power bit is set exactly by POWER; switching sends one frame
      with the power bit if the appliance is in the other state, and no frame otherwise. Every frame carries the mode,
      fan, swing, temperature and sleep that are in force afterwards, and switching changes none of them. */
  lemma SettingsOnAir(s: Settings, a: Action)
    requires !s.power
    ensures forall k :: 0 <= k < |Frames(s, a)| ==>
              Frames(s, a)[k].(power := false, powerState := After(s, a).powerState) == After(s, a)
    ensures a.Update? ==> |Frames(s, a)| == 1 && (Frames(s, a)[0].power <==> StartsWith(a.command, "POWER"))
    ensures !a.Update? ==> After(s, a) == s.(powerState := a.SwitchOn?)
    ensures !a.Update? ==> |Frames(s, a)| == if s.powerState == a.SwitchOn? then 0 else 1
    ensures !a.Update? ==> forall k :: 0 <= k < |Frames(s, a)| ==> Frames(s, a)[k].power
  {
    hide Delta, StartsWith;
  }

  /** FAN_DOWN lowers the fan by one whatever number follows: the number is looked for behind a shorter prefix. */
  lemma FanDownIsOne(s: Settings, c: Buffer)
    requires InRange(s) && StartsWith(c, "FAN_DOWN")
    ensures Applied(s, c) == s.(fan := if s.fan == 0 then 0 else s.fan - 1)
  {
    assert c[..8][0] == c[0] && c[..8][4] == c[4] && c[..8][6] == c[6] && c[..8][..4] == c[..4];
    assert c[..6] == c[..8][..6];
    assert c[..4] == "FAN_";
    assert c[..5][0] == c[0] && c[..7][0] == c[0] && c[..9][0] == c[0] && c[..6][4] == c[4];
    assert Delta(c, 6) == 1;
  }

  /** Of FAN_DOWN only the first four letters are compared: any other text that starts with them lowers the fan as well,
      by the number two characters further on. */
  lemma FanUnderscore(s: Settings, c: Buffer)
    requires InRange(s) && StartsWith(c, "FAN_") && !StartsWith(c, "FAN_UP")
    ensures Applied(s, c) == s.(fan := if s.fan < Delta(c, 6) then 0 else s.fan - Delta(c, 6))
  {
    hide StartsWith, Delta;
    NamesApart(c);
  }

  /** So a FAN_DOWN command with a number does what it says only where one step down is the same. */
  lemma FanDownObeysNumber(s: Settings, c: Buffer, n: nat)
    requires InRange(s) && StartsWith(c, "FAN_DOWN " + Numeral(n, 10))
    requires |"FAN_DOWN " + Numeral(n, 10)| < COMMAND_LEN && !IsDigit(c[|"FAN_DOWN " + Numeral(n, 10)|])
    ensures Applied(s, c) == s.(fan := if s.fan < n then 0 else s.fan - n)
            <==> n == 1 || s.fan == 0 || (s.fan == 1 && n > 0)
  {
    hide Numeral, Applied;
    var text := "FAN_DOWN " + Numeral(n, 10);
    assert c[..8] == c[..|text|][..8] == "FAN_DOWN";
    FanDownIsOne(s, c);
  }

  /** From full speed, FAN_DOWN 2 goes one step down instead of two. */
  lemma FanDownTwo(s: Settings)
    requires InRange(s) && s.fan == 3
    ensures Applied(s, "FAN_DOWN 2\0\0\0\0\0\0") == s.(fan := 2)
  {
    var c: Buffer := "FAN_DOWN 2\0\0\0\0\0\0";
    assert c[..8] == "FAN_DOWN";
    FanDownIsOne(s, c);
  }

  // ---- The handlers

  lemma RunStep(c: Buffer, p: nat, digits: string)
    requires p < COMMAND_LEN && IsDigit(c[p])
    ensures digits + DigitRun(c, p) == digits + [c[p]] + DigitRun(c, p + 1)
  {
  }

  /** Collects the digits behind the prefix and converts them. */
  method ParseCommandDelta(c: Buffer, prefixLen: nat) returns (delta: nat)
    requires prefixLen < COMMAND_LEN
    ensures delta == Delta(c, prefixLen)
  {
    hide Atoi, ParseInt;
    delta := 1;
    if c[prefixLen] == ' ' {
      var digits: string := [];
      var i := 0;
      while prefixLen + 1 + i < COMMAND_LEN && IsDigit(c[prefixLen + 1 + i])
        invariant prefixLen + 1 + i <= COMMAND_LEN && AllDigits(digits) && |digits| == i
        invariant DigitRun(c, prefixLen + 1) == digits + DigitRun(c, prefixLen + 1 + i)
      {
        RunStep(c, prefixLen + 1 + i, digits);
        digits := digits + [c[prefixLen + 1 + i]];
        i := i + 1;
      }
      assert digits + [] == digits;
      if i > 0 {
        AtoiOfDigits(digits);
        delta := Atoi(digits);
      }
    }
  }

  lemma TrackedKept(s: Settings, sent: seq<Settings>, a: Action)
    requires !s.power && InRange(s) && s.powerState == Appliance(false, sent)
    ensures !After(s, a).power && InRange(After(s, a))
    ensures After(s, a).powerState == Appliance(false, sent + Frames(s, a))
    ensures a.SwitchOn? ==> After(s, a).powerState
    ensures a.SwitchOff? ==> !After(s, a).powerState
  {
    hide After, Frames, InRange;
    ActionTracked(s, a);
    ApplianceConcat(false, sent, Frames(s, a));
  }

  /** The shared settings, and the frames that went on air. */
  class IrRemote {
    var power: bool
    var mode: nat
    var fan: nat
    var swing: bool
    var temperature: nat
    var sleep: bool
    var powerState: bool
    ghost var sent: seq<Settings>

    function View(): Settings
      reads this
    {
      Settings(power, mode, fan, swing, temperature, sleep, powerState)
    }

    /** Between handlers: the toggle bit is clear, and the tracked state is what the frames sent so far have made of an
        appliance that was off at first. */
    ghost predicate Tracked()
      reads this
    {
      !power && InRange(View()) && powerState == Appliance(false, sent)
    }

    constructor ()
      ensures View() == POWER_UP == Settings(false, 1, 1, false, 25 - 16, false, false) && sent == [] && Tracked()
    {
      power, swing, sleep, powerState := false, false, false, false;
      mode, fan, temperature := 1, 1, 9;
      sent := [];
    }

    method Transmit()
      modifies this`sent
      ensures sent == old(sent) + [View()]
    {
      sent := sent + [View()];
    }

    method Obey(c: Buffer)
      modifies this`power, this`swing, this`temperature, this`fan, this`mode
      ensures View() == Applied(old(View()), c)
    {
      hide Delta, StartsWith;
      if StartsWith(c, "POWER") {
        power := true;
      } else if StartsWith(c, "SWING") {
        swing := !swing;
      } else if StartsWith(c, "TEMP_UP") {
        var delta := ParseCommandDelta(c, 7);
        var value := temperature + delta;
        if value > 14 { value := 14; }
        temperature := Fit(value, 16);
      } else if StartsWith(c, "TEMP_DOWN") {
        var delta := ParseCommandDelta(c, 9);
        var value: int := temperature - delta;
        if value < 0 { value := 0; }
        temperature := Fit(value, 16);
      } else if StartsWith(c, "FAN_UP") {
        var delta := ParseCommandDelta(c, 6);
        var value := fan + delta;
        if value > 3 { value := 3; }
        fan := Fit(value, 4);
      } else if StartsWith(c, "FAN_") {
        var delta := ParseCommandDelta(c, 6);
        fan := Fit(if fan > delta then fan - delta else 0, 4);
      } else if StartsWith(c, "COOL") {
        mode := 1;
      } else if StartsWith(c, "HEAT") {
        mode := 2;
      } else if StartsWith(c, "AUTO") {
        mode := 3;
      } else if StartsWith(c, "DRY") {
        mode := 4;
      } else if StartsWith(c, "FAN") {
        mode := 5;
      }
    }

    method UpdateHandler(c: Buffer)
      requires Tracked()
      modifies this
      ensures View() == After(old(View()), Update(c)) && sent == old(sent) + Frames(old(View()), Update(c))
      ensures Tracked()
    {
      hide Obeyed, OrderOf, InRange;
      TrackedKept(View(), sent, Update(c));
      Obey(c);
      Transmit();
      if power {
        powerState := !powerState;
        power := false;
      }
    }

    /** The switching half of the scheduler's on-step. */
    method SwitchApplianceOn()
      requires Tracked()
      modifies this`power, this`powerState, this`sent
      ensures View() == After(old(View()), SwitchOn) && sent == old(sent) + Frames(old(View()), SwitchOn)
      ensures Tracked() && powerState
    {
      hide InRange;
      TrackedKept(View(), sent, SwitchOn);
      if !powerState {
        power := true;
        Transmit();
        powerState := true;
        power := false;
      }
    }

    /** The switching half of the scheduler's off-step. */
    method SwitchApplianceOff()
      requires Tracked()
      modifies this`power, this`powerState, this`sent
      ensures View() == After(old(View()), SwitchOff) && sent == old(sent) + Frames(old(View()), SwitchOff)
      ensures Tracked() && !powerState
    {
      hide InRange;
      TrackedKept(View(), sent, SwitchOff);
      if powerState {
        power := true;
        Transmit();
        powerState := false;
        power := false;
      }
    }
  }
}
