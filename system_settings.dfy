/** The settings application: nine tile handlers, each a record transform on
    the configuration, the option tables its tiles read, and the panel that
    writes every new configuration back to the kernel. */
module SystemSettings {
  import opened Types
  import Kernel

  /** The tiles' click handlers. */
  datatype Handler = Wifi | Bluetooth | Display | Audio | Security | Perf | Lang | Theme | Account

  /** The fields of a configuration, for saying which one a handler writes. */
  datatype Field =
    | WifiField | BluetoothField | DisplayResField | VolumeField | IsMutedField
    | SecurityField | PerformanceField | LanguageField | ThemeField | AccountField

  datatype Value = Flag(b: bool) | Number(n: int) | Text(s: string)

  function Read(c: SystemConfig, f: Field): Value {
    match f
    case WifiField => Flag(c.wifi)
    case BluetoothField => Flag(c.bluetooth)
    case DisplayResField => Number(c.displayRes)
    case VolumeField => Number(c.volume)
    case IsMutedField => Flag(c.isMuted)
    case SecurityField => Flag(c.security)
    case PerformanceField => Number(c.performance)
    case LanguageField => Number(c.language)
    case ThemeField => Number(c.theme)
    case AccountField => Text(c.account)
  }

  /** The field each handler writes. */
  function Target(h: Handler): Field {
    match h
    case Wifi => WifiField
    case Bluetooth => BluetoothField
    case Display => DisplayResField
    case Audio => IsMutedField
    case Security => SecurityField
    case Perf => PerformanceField
    case Lang => LanguageField
    case Theme => ThemeField
    case Account => AccountField
  }

  /** JavaScript's `%`: the remainder has the sign of the dividend. */
  function JsRem(a: int, n: int): (r: int)
    requires n > 0
    ensures a >= 0 ==> 0 <= r < n
    ensures a < 0 ==> -n < r <= 0
  {
    if a >= 0 then a % n else -((-a) % n)
  }

  /** `(x + 1) % n` */
  function Cycle(x: int, n: int): (r: int)
    requires n > 0
    ensures -n < r < n
  {
    JsRem(x + 1, n)
  }

  const AdminAccount := "Administrator"
  const GuestAccount := "Guest User"

  /** What each handler does to the configuration: it writes its own field
      only, and every other field, the volume included, is carried over. */
  function Apply(c: SystemConfig, h: Handler): (r: SystemConfig)
    ensures forall f | f != Target(h) :: Read(r, f) == Read(c, f)
  {
    match h
    case Wifi => c.(wifi := !c.wifi)
    case Bluetooth => c.(bluetooth := !c.bluetooth)
    case Display => c.(displayRes := Cycle(c.displayRes, 3))
    case Audio => c.(isMuted := !c.isMuted)
    case Security => c.(security := !c.security)
    case Perf => c.(performance := Cycle(c.performance, 3))
    case Lang => c.(language := Cycle(c.language, 4))
    case Theme => c.(theme := Cycle(c.theme, 2))
    case Account => c.(account := if c.account == AdminAccount then GuestAccount else AdminAccount)
  }

  const ResMap: seq<string> := ["4K HDR @ 144Hz", "1440p @ 240Hz", "1080p @ 360Hz"]
  const PerfMap: seq<string> := ["Power Saver", "Balanced", "Overclocked"]
  const LangMap: seq<string> := ["English (US)", "Español", "日本語", "Français"]
  const ThemeMap: seq<string> := ["Neon Dark", "Cyber Light"]

  /** `table[index]`: undefined (None) outside the table. */
  function Lookup(table: seq<string>, index: int): (r: Option<string>)
    ensures r.Some? <==> 0 <= index < |table|
    ensures r.Some? ==> r.value == table[index]
  {
    if 0 <= index < |table| then Some(table[index]) else None
  }

  /** The cyclic fields hold indexes into their option tables. */
  predicate InRange(c: SystemConfig) {
    && 0 <= c.displayRes < |ResMap| && 0 <= c.performance < |PerfMap|
    && 0 <= c.language < |LangMap| && 0 <= c.theme < |ThemeMap|
  }

  /** One press on an index inside a table of `n` entries moves to the next
      entry, wrapping from the last to the first. */
  lemma CycleStep(x: int, n: int)
    requires 0 <= x < n
    ensures Cycle(x, n) == if x + 1 < n then x + 1 else 0
  {
    if x + 1 == n {
      assert (x + 1) % n == 0;
    } else {
      assert (x + 1) % n == x + 1;
    }
  }

  /** The shipped defaults are in range, and the panel first shows their
      labels. */
  lemma DefaultsInRange()
    ensures InRange(Kernel.DefaultSettings)
    ensures Lookup(ResMap, Kernel.DefaultSettings.displayRes) == Some("4K HDR @ 144Hz")
    ensures Lookup(PerfMap, Kernel.DefaultSettings.performance) == Some("Balanced")
    ensures Lookup(LangMap, Kernel.DefaultSettings.language) == Some("English (US)")
    ensures Lookup(ThemeMap, Kernel.DefaultSettings.theme) == Some("Neon Dark")
  {
  }

  /** Every handler keeps the range. */
  lemma HandlersKeepRange(c: SystemConfig, h: Handler)
    requires InRange(c)
    ensures InRange(Apply(c, h))
  {
    CycleStep(c.displayRes, 3);
    CycleStep(c.performance, 3);
    CycleStep(c.language, 4);
    CycleStep(c.theme, 2);
  }

  /** In range, every status lookup finds a label. */
  lemma StatusLookupsDefined(c: SystemConfig)
    requires InRange(c)
    ensures Lookup(ResMap, c.displayRes).Some? && Lookup(PerfMap, c.performance).Some?
    ensures Lookup(LangMap, c.language).Some? && Lookup(ThemeMap, c.theme).Some?
  {
  }

  /** Each handler, on an in-range configuration, does change its field. */
  lemma HandlerChangesItsField(c: SystemConfig, h: Handler)
    requires InRange(c)
    ensures Read(Apply(c, h), Target(h)) != Read(c, Target(h))
  {
    CycleStep(c.displayRes, 3);
    CycleStep(c.performance, 3);
    CycleStep(c.language, 4);
    CycleStep(c.theme, 2);
  }

  /** The on/off handlers undo themselves. */
  lemma SwitchesAreInvolutions(c: SystemConfig, h: Handler)
    requires h == Wifi || h == Bluetooth || h == Audio || h == Security
    ensures Apply(Apply(c, h), h) == c
  {
  }

  /** The account handler switches Administrator to Guest User and any other
      name to Administrator, so it undoes itself exactly on those two names. */
  lemma AccountSwitch(c: SystemConfig)
    ensures Apply(c, Account).account == if c.account == AdminAccount then GuestAccount else AdminAccount
    ensures Apply(Apply(c, Account), Account) == c <==> c.account in {AdminAccount, GuestAccount}
  {
  }

  /** The cyclic handlers come back to the start after as many presses as
      their table has entries. */
  lemma {:induction false} CyclesReturn(c: SystemConfig)
    requires InRange(c)
    ensures Apply(Apply(Apply(c, Display), Display), Display) == c
    ensures Apply(Apply(Apply(c, Perf), Perf), Perf) == c
    ensures Apply(Apply(Apply(Apply(c, Lang), Lang), Lang), Lang) == c
    ensures Apply(Apply(c, Theme), Theme) == c
  {
    ReturnsAfter(c.displayRes, 3);
    ReturnsAfter(c.performance, 3);
    ReturnsAfter(c.language, 4);
    ReturnsAfter(c.theme, 2);
  }

  /** As many presses as the table has entries bring an index back to itself. */
  lemma ReturnsAfter(x: int, n: int)
    requires 0 <= x < n
    ensures n == 2 ==> Cycle(Cycle(x, n), n) == x
    ensures n == 3 ==> Cycle(Cycle(Cycle(x, n), n), n) == x
    ensures n == 4 ==> Cycle(Cycle(Cycle(Cycle(x, n), n), n), n) == x
  {
    var a := Cycle(x, n);
    CycleStep(x, n);
    var b := Cycle(a, n);
    CycleStep(a, n);
    if n >= 3 {
      var d := Cycle(b, n);
      CycleStep(b, n);
      if n >= 4 {
        CycleStep(d, n);
      }
    }
  }

  /** From a value stored out of range, one press of a cyclic tile on a
      non-negative value lands back in range. */
  lemma CycleFromNonNegative(x: int, n: int)
    requires n > 0 && x >= 0
    ensures 0 <= Cycle(x, n) < n
  {
  }

  /** JavaScript's `%` keeps the dividend's sign, so a negative value stored
      in a cyclic field stays out of range after a press (unless the press
      lands on zero). */
  lemma CycleFromNegative(x: int, n: int)
    requires n > 0 && x < -1
    ensures -n < Cycle(x, n) <= 0
  {
  }

  /** The settings window: its configuration state, written back to the
      kernel after every change. */
  class SettingsPanel {
    const settings: Kernel.SettingsManager
    var config: SystemConfig

    constructor (settings: Kernel.SettingsManager)
      ensures this.settings == settings && config == settings.config
    {
      this.settings := settings;
      config := settings.config;
    }

    /** A tile click: the handler's transform, then the save effect. */
    method Press(h: Handler)
      modifies this, settings
      ensures config == Apply(old(config), h)
      ensures settings.config == config
    {
      config := Apply(config, h);
      settings.Update(Kernel.Whole(config));
      Kernel.MergeNothingOrWhole(old(settings.config), config);
    }
  }
}
