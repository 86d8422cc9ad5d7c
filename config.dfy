/**
 * The program's configuration: built-in defaults, overridden by the config
 * file, overridden by the command-line arguments that were given; then the
 * checks made before any Bluetooth activity and the raw values derived from
 * the accepted settings.
 */
module DeskConfig {
  import opened Wrappers
  import opened Units

  /**
   * A configuration value as YAML or argparse delivers it. `Absent` is
   * Python's None.
   */
  datatype Value = Absent | Text(s: string) | Int(i: int) | Decimal(r: real) | Flag(b: bool)

  /** One layer of configuration: a dictionary from setting name to value. */
  type Layer = map<string, Value>

  /** Python truthiness of a value. */
  predicate Truthy(v: Value) {
    match v
    case Absent => false
    case Text(s) => s != ""
    case Int(i) => i != 0
    case Decimal(r) => r != 0.0
    case Flag(b) => b
  }

  /** The value of a setting, `Absent` when no layer names it. */
  function Lookup(cfg: Layer, key: string): Value {
    if key in cfg then cfg[key] else Absent
  }

  /** The built-in defaults. They name no mac address, so on their own they are refused. */
  function Defaults(): (r: Layer)
    ensures Validate(r) == Failure(MissingMacAddress)
    ensures IntSetting(r, "stand_height") == Some(1040) && IntSetting(r, "sit_height") == Some(683)
    ensures ToleranceRaw(Lookup(r, "height_tolerance")) == Some(20)
    ensures !Truthy(Lookup(r, "sit")) && !Truthy(Lookup(r, "stand")) && !Truthy(Lookup(r, "monitor"))
    ensures !Truthy(Lookup(r, "move_to"))
  {
    map[
      "mac_address" := Absent,
      "stand_height" := Int(BASE_HEIGHT + 420),
      "sit_height" := Int(BASE_HEIGHT + 63),
      "height_tolerance" := Decimal(2.0),
      "adapter_name" := Text("hci0"),
      "scan_timeout" := Int(5),
      "connection_timeout" := Int(10),
      "movement_timeout" := Int(30),
      "sit" := Flag(false),
      "stand" := Flag(false),
      "monitor" := Flag(false),
      "move_to" := Absent
    ]
  }

  /** `dict.update`: every key of `overrides` replaces the one in `base`. */
  function Update(base: Layer, overrides: Layer): (r: Layer)
    ensures r.Keys == base.Keys + overrides.Keys
    ensures forall k :: k in overrides ==> r[k] == overrides[k]
    ensures forall k :: k in base && k !in overrides ==> r[k] == base[k]
  {
    base + overrides
  }

  /** The command-line arguments with every unset (None) argument filtered out. */
  function GivenArguments(args: Layer): (r: Layer)
    ensures forall k :: k in r <==> k in args && args[k] != Absent
    ensures forall k :: k in r ==> r[k] == args[k]
  {
    map k | k in args && args[k] != Absent :: args[k]
  }

  /** Defaults, then the config file, then the given command-line arguments. */
  function Layered(file: Layer, args: Layer): (r: Layer)
    ensures forall k :: k in r <==> k in Defaults() || k in file || (k in args && args[k] != Absent)
    ensures forall k :: k in args && args[k] != Absent ==> r[k] == args[k]
  {
    Update(Update(Defaults(), file), GivenArguments(args))
  }

  /**
   * Precedence of the layers: a given argument wins, then the file, then the
   * default; a setting none of them names is absent.
   */
  lemma LayeredPrecedence(file: Layer, args: Layer, key: string)
    ensures Lookup(Layered(file, args), key) ==
      if key in args && args[key] != Absent then args[key]
      else if key in file then file[key]
      else Lookup(Defaults(), key)
  {
  }

  /** An argument left unset never hides the value from the file or the defaults. */
  lemma UnsetArgumentIsTransparent(file: Layer, args: Layer, key: string)
    requires key in args && args[key] == Absent
    ensures Lookup(Layered(file, args), key) == Lookup(Update(Defaults(), file), key)
  {
  }

  datatype ConfigError =
    | MissingMacAddress
    | SitNotBelowStand
    | SitBelowBase
    | StandAboveMax
      /** The setting holds a value the arithmetic cannot use (Python raises TypeError). */
    | NotANumber(key: string)

  function Digit(d: nat): char
    requires d < 10
  {
    "0123456789"[d]
  }

  /** `str(n)` for a natural number: its decimal digits. */
  function DecimalText(n: nat): string
    decreases n
  {
    if n < 10 then [Digit(n)] else DecimalText(n / 10) + [Digit(n % 10)]
  }

  /** The message `parser.error` prints for each validation failure. */
  function Message(e: ConfigError): (m: string)
    ensures e == SitBelowBase ==> m == "Sit height must be greater than 620"
    ensures e == StandAboveMax ==> m == "Stand height must be less than 1270"
    ensures e.NotANumber? ==> 8 + |e.key| <= |m| && m[8..8 + |e.key|] == e.key
  {
    match e
    case MissingMacAddress => "Mac address must be provided"
    case SitNotBelowStand => "Sit height must be less than stand height"
    case SitBelowBase => "Sit height must be greater than " + DecimalText(BASE_HEIGHT)
    case StandAboveMax => "Stand height must be less than " + DecimalText(MAX_HEIGHT)
    case NotANumber(key) => "Setting " + key + " is not a number"
  }

  /** The four validation failures are told apart by their messages. */
  lemma MessagesDistinct(a: ConfigError, b: ConfigError)
    requires !a.NotANumber? && !b.NotANumber? && a != b
    ensures Message(a) != Message(b)
  {
  }

  /** The settings the move logic uses, in raw device units. */
  datatype Settings = Settings(
    macAddress: Value,
    standRaw: int,
    sitRaw: int,
    toleranceRaw: int,
    moveToRaw: Option<int>)

  /** The integer Python's arithmetic and comparisons see: an int, or a bool as 0 or 1. */
  function AsInt(v: Value): Option<int> {
    match v
    case Int(i) => Some(i)
    case Flag(b) => Some(if b then 1 else 0)
    case _ => None
  }

  /** A setting read as an integer. */
  function IntSetting(cfg: Layer, key: string): Option<int> {
    AsInt(Lookup(cfg, key))
  }

  /**
   * `10 * height_tolerance`, rounded down for a decimal. Heights are whole raw
   * units, so comparing a distance with the rounded value is the same as
   * comparing it with the exact one (see ToleranceRoundingIsExact).
   */
  function ToleranceRaw(v: Value): (r: Option<int>)
    ensures r.Some? <==> v.Int? || v.Flag? || v.Decimal?
    ensures AsInt(v).Some? ==> r == Some(10 * AsInt(v).value)
  {
    if v.Decimal? then Some((10.0 * v.r).Floor)
    else if AsInt(v).Some? then Some(10 * AsInt(v).value)
    else None
  }

  lemma ToleranceRoundingIsExact(tolerance: real, distance: int)
    ensures distance as real <= 10.0 * tolerance <==> distance <= ToleranceRaw(Decimal(tolerance)).value
  {
  }

  /** Both heights are integers, so that they can be compared. */
  predicate HeightsTyped(cfg: Layer) {
    IntSetting(cfg, "sit_height").Some? && IntSetting(cfg, "stand_height").Some?
  }

  /**
   * Every check of the source, in the source's order, then the derived raw
   * values. `move_to` is converted only when it is truthy.
   */
  function Validate(cfg: Layer): (r: Result<Settings, ConfigError>)
    ensures r == Failure(MissingMacAddress) <==> !Truthy(Lookup(cfg, "mac_address"))
    ensures r == Failure(SitNotBelowStand) <==>
      Truthy(Lookup(cfg, "mac_address")) && HeightsTyped(cfg)
      && IntSetting(cfg, "sit_height").value >= IntSetting(cfg, "stand_height").value
    ensures r == Failure(SitBelowBase) <==>
      Truthy(Lookup(cfg, "mac_address")) && HeightsTyped(cfg)
      && IntSetting(cfg, "sit_height").value < IntSetting(cfg, "stand_height").value
      && IntSetting(cfg, "sit_height").value < BASE_HEIGHT
    ensures r == Failure(StandAboveMax) <==>
      Truthy(Lookup(cfg, "mac_address")) && HeightsTyped(cfg)
      && BASE_HEIGHT <= IntSetting(cfg, "sit_height").value < IntSetting(cfg, "stand_height").value
      && IntSetting(cfg, "stand_height").value > MAX_HEIGHT
    ensures r.Success? ==>
      && Truthy(r.value.macAddress)
      && HeightsTyped(cfg)
      && r.value.sitRaw == MmToRaw(IntSetting(cfg, "sit_height").value)
      && r.value.standRaw == MmToRaw(IntSetting(cfg, "stand_height").value)
      && 0 <= r.value.sitRaw < r.value.standRaw <= MmToRaw(MAX_HEIGHT)
      && Some(r.value.toleranceRaw) == ToleranceRaw(Lookup(cfg, "height_tolerance"))
      && (r.value.moveToRaw.Some? <==> Truthy(Lookup(cfg, "move_to")))
      && (r.value.moveToRaw.Some? ==>
            IntSetting(cfg, "move_to").Some? && r.value.moveToRaw.value == MmToRaw(IntSetting(cfg, "move_to").value))
  {
    var mac := Lookup(cfg, "mac_address");
    var sit := IntSetting(cfg, "sit_height");
    var stand := IntSetting(cfg, "stand_height");
    var tolerance := Lookup(cfg, "height_tolerance");
    var moveTo := Lookup(cfg, "move_to");
    if !Truthy(mac) then Failure(MissingMacAddress)
    else if sit.None? then Failure(NotANumber("sit_height"))
    else if stand.None? then Failure(NotANumber("stand_height"))
    else if sit.value >= stand.value then Failure(SitNotBelowStand)
    else if sit.value < BASE_HEIGHT then Failure(SitBelowBase)
    else if stand.value > MAX_HEIGHT then Failure(StandAboveMax)
    else if ToleranceRaw(tolerance).None? then Failure(NotANumber("height_tolerance"))
    else if Truthy(moveTo) && AsInt(moveTo).None? then Failure(NotANumber("move_to"))
    else
      Success(Settings(
        mac,
        MmToRaw(stand.value),
        MmToRaw(sit.value),
        ToleranceRaw(tolerance).value,
        if Truthy(moveTo) then Some(MmToRaw(AsInt(moveTo).value)) else None))
  }

  /** The accepted configurations, stated without the order of the checks. */
  ghost predicate Acceptable(cfg: Layer) {
    && Truthy(Lookup(cfg, "mac_address"))
    && HeightsTyped(cfg)
    && BASE_HEIGHT <= IntSetting(cfg, "sit_height").value < IntSetting(cfg, "stand_height").value <= MAX_HEIGHT
    && ToleranceRaw(Lookup(cfg, "height_tolerance")).Some?
    && (Truthy(Lookup(cfg, "move_to")) ==> IntSetting(cfg, "move_to").Some?)
  }

  lemma ValidateAcceptsExactly(cfg: Layer)
    ensures Validate(cfg).Success? <==> Acceptable(cfg)
  {
  }

  /** With a mac address and nothing else changed, the defaults pass validation. */
  lemma DefaultsAccepted(mac: string)
    requires mac != ""
    ensures Validate(Layered(map[], map["mac_address" := Text(mac)])).Success?
    ensures Validate(Layered(map[], map["mac_address" := Text(mac)])).value
      == Settings(Text(mac), 4200, 630, 20, None)
  {
    var file, args := map[], map["mac_address" := Text(mac)];
    LayeredPrecedence(file, args, "mac_address");
    LayeredPrecedence(file, args, "sit_height");
    LayeredPrecedence(file, args, "stand_height");
    LayeredPrecedence(file, args, "height_tolerance");
    LayeredPrecedence(file, args, "move_to");
  }

  /** A boolean tolerance counts as 0 or 1 mm, as in Python: `yes` gives raw tolerance 10. */
  lemma BooleanToleranceIsOneMillimetre()
    ensures ToleranceRaw(Flag(true)) == Some(10) && ToleranceRaw(Flag(false)) == Some(0)
  {
  }

  /**
   * The height a run moves to: none when scanning or monitoring, otherwise the
   * sit height, the stand height or the `move_to` height, in that order.
   */
  function SelectTarget(cfg: Layer, s: Settings): (target: Option<int>)
    ensures target.Some? <==>
      !Truthy(Lookup(cfg, "scan_adapter")) && !Truthy(Lookup(cfg, "monitor"))
      && (Truthy(Lookup(cfg, "sit")) || Truthy(Lookup(cfg, "stand")) || s.moveToRaw.Some?)
    ensures target.Some? && Truthy(Lookup(cfg, "sit")) ==> target.value == s.sitRaw
    ensures target.Some? && !Truthy(Lookup(cfg, "sit")) && Truthy(Lookup(cfg, "stand")) ==> target.value == s.standRaw
    ensures target.Some? && !Truthy(Lookup(cfg, "sit")) && !Truthy(Lookup(cfg, "stand")) ==> target == s.moveToRaw
  {
    if Truthy(Lookup(cfg, "scan_adapter")) then None
    else if Truthy(Lookup(cfg, "monitor")) then None
    else if Truthy(Lookup(cfg, "sit")) then Some(s.sitRaw)
    else if Truthy(Lookup(cfg, "stand")) then Some(s.standRaw)
    else s.moveToRaw
  }

  /** Sit and stand targets of an accepted configuration lie within the desk's range. */
  lemma PresetTargetsInRange(cfg: Layer)
    requires Validate(cfg).Success?
    requires Truthy(Lookup(cfg, "sit")) || Truthy(Lookup(cfg, "stand"))
    requires SelectTarget(cfg, Validate(cfg).value).Some?
    ensures 0 <= SelectTarget(cfg, Validate(cfg).value).value <= 6500
  {
  }

  /** `move_to` is not range-checked: 2000 mm is accepted and gives raw 13800. */
  lemma MoveToIsNotRangeChecked()
    ensures Validate(map["mac_address" := Text("m"), "sit_height" := Int(683), "stand_height" := Int(1040),
                         "height_tolerance" := Int(2), "move_to" := Int(2000)])
      == Success(Settings(Text("m"), 4200, 630, 20, Some(13800)))
  {
  }
}
