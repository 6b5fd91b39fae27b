/** The seven options of the crictl configuration, their names, and how a value text sets one of them. */
module ConfigOptions {
  import opened Wrappers
  import opened Strconv
  import opened ConfigView

  datatype Key =
    | RuntimeEndpoint
    | ImageEndpoint
    | Timeout
    | Debug
    | PullImageOnCreate
    | DisablePullOnRun
    | MaxRetries
  {
    function Name(): string {
      match this
      case RuntimeEndpoint => "runtime-endpoint"
      case ImageEndpoint => "image-endpoint"
      case Timeout => "timeout"
      case Debug => "debug"
      case PullImageOnCreate => "pull-image-on-create"
      case DisablePullOnRun => "disable-pull-on-run"
      case MaxRetries => "max-retries"
    }
  }

  /** The order in which the options are written. */
  const KEYS: seq<Key> :=
    [RuntimeEndpoint, ImageEndpoint, Timeout, Debug, PullImageOnCreate, DisablePullOnRun, MaxRetries]

  function Position(k: Key): (i: nat)
    ensures i < |KEYS| && KEYS[i] == k
  {
    match k
    case RuntimeEndpoint => 0
    case ImageEndpoint => 1
    case Timeout => 2
    case Debug => 3
    case PullImageOnCreate => 4
    case DisablePullOnRun => 5
    case MaxRetries => 6
  }

  /** KEYS lists every option exactly once. */
  lemma KeysComplete()
    ensures forall k: Key :: k in KEYS
    ensures forall i, j :: 0 <= i < j < |KEYS| ==> KEYS[i] != KEYS[j]
  {
    forall k: Key ensures k in KEYS {
      assert KEYS[Position(k)] == k;
    }
  }

  /** The option with the given name, if there is one. */
  function Lookup(name: string): (r: Option<Key>)
    ensures r.Some? ==> r.value.Name() == name
    ensures forall k: Key :: k.Name() == name ==> r == Some(k)
  {
    if name == "runtime-endpoint" then Some(RuntimeEndpoint)
    else if name == "image-endpoint" then Some(ImageEndpoint)
    else if name == "timeout" then Some(Timeout)
    else if name == "debug" then Some(Debug)
    else if name == "pull-image-on-create" then Some(PullImageOnCreate)
    else if name == "disable-pull-on-run" then Some(DisablePullOnRun)
    else if name == "max-retries" then Some(MaxRetries)
    else None
  }

  datatype Options = Options(
    runtimeEndpoint: string,
    imageEndpoint: string,
    timeout: int64,
    debug: bool,
    pullImageOnCreate: bool,
    disablePullOnRun: bool,
    maxRetries: int64)

  const ZERO: Options := Options("", "", 0, false, false, false, 0)

  datatype Error = UnknownOption(name: string) | BadValue(key: Key, text: string) | Malformed(setting: string)

  /** The text that is written for an option. */
  function Render(o: Options, k: Key): string {
    match k
    case RuntimeEndpoint => o.runtimeEndpoint
    case ImageEndpoint => o.imageEndpoint
    case Timeout => FormatInt(o.timeout)
    case Debug => FormatBool(o.debug)
    case PullImageOnCreate => FormatBool(o.pullImageOnCreate)
    case DisablePullOnRun => FormatBool(o.disablePullOnRun)
    case MaxRetries => FormatInt(o.maxRetries)
  }

  /** The value of one option. */
  datatype Value = Text(s: string) | Number(n: int64) | Switch(b: bool)

  /** The value a text means for an option, if it is acceptable. */
  function ParseValue(k: Key, text: string): Option<Value> {
    if k in {RuntimeEndpoint, ImageEndpoint} then Some(Text(text))
    else if k in {Timeout, MaxRetries} then
      if ParseInt(text).err.None? then Some(Number(ParseInt(text).n)) else None
    else if ParseBool(text).Some? then Some(Switch(ParseBool(text).value))
    else None
  }

  function SetKey(o: Options, k: Key, text: string): Result<Options, Error> {
    if ParseValue(k, text).None? then Err(BadValue(k, text))
    else Ok(match k
            case RuntimeEndpoint => o.(runtimeEndpoint := text)
            case ImageEndpoint => o.(imageEndpoint := text)
            case Timeout => o.(timeout := ParseInt(text).n)
            case Debug => o.(debug := ParseBool(text).value)
            case PullImageOnCreate => o.(pullImageOnCreate := ParseBool(text).value)
            case DisablePullOnRun => o.(disablePullOnRun := ParseBool(text).value)
            case MaxRetries => o.(maxRetries := ParseInt(text).n))
  }

  /** `o` with the option called `name` set from `text`. */
  function SetField(o: Options, name: string, text: string): Result<Options, Error> {
    match Lookup(name)
    case None => Err(UnknownOption(name))
    case Some(k) => SetKey(o, k, text)
  }

  function Field(o: Options, k: Key): Value {
    match k
    case RuntimeEndpoint => Text(o.runtimeEndpoint)
    case ImageEndpoint => Text(o.imageEndpoint)
    case Timeout => Number(o.timeout)
    case Debug => Switch(o.debug)
    case PullImageOnCreate => Switch(o.pullImageOnCreate)
    case DisablePullOnRun => Switch(o.disablePullOnRun)
    case MaxRetries => Number(o.maxRetries)
  }

  /** Setting an option from a text gives it the value of the text and keeps the six others. */
  lemma SetKeyFields(o: Options, k: Key, text: string, j: Key)
    ensures SetKey(o, k, text).Ok? <==> ParseValue(k, text).Some?
    ensures SetKey(o, k, text).Ok? ==>
              Field(SetKey(o, k, text).value, j) == if j == k then ParseValue(k, text).value else Field(o, j)
  {
  }

  /** `a` with the options in `ks` taken from `o`. */
  function Blend(a: Options, o: Options, ks: set<Key>): Options {
    Options(
      if RuntimeEndpoint in ks then o.runtimeEndpoint else a.runtimeEndpoint,
      if ImageEndpoint in ks then o.imageEndpoint else a.imageEndpoint,
      if Timeout in ks then o.timeout else a.timeout,
      if Debug in ks then o.debug else a.debug,
      if PullImageOnCreate in ks then o.pullImageOnCreate else a.pullImageOnCreate,
      if DisablePullOnRun in ks then o.disablePullOnRun else a.disablePullOnRun,
      if MaxRetries in ks then o.maxRetries else a.maxRetries)
  }

  /** Setting an option from the text that is written for it sets that option and no other. */
  lemma SetRendered(a: Options, o: Options, k: Key)
    ensures SetField(a, k.Name(), Render(o, k)) == Ok(Blend(a, o, {k}))
  {
    assert Lookup(k.Name()) == Some(k);
    match k
    case Timeout => ParseFormatInt(o.timeout);
    case MaxRetries => ParseFormatInt(o.maxRetries);
    case Debug => ParseFormatBool(o.debug);
    case PullImageOnCreate => ParseFormatBool(o.pullImageOnCreate);
    case DisablePullOnRun => ParseFormatBool(o.disablePullOnRun);
    case _ =>
  }

  /** The tag of the value node of a new option. */
  function TagOf(name: string): string {
    match Lookup(name)
    case Some(Timeout) => "!!int"
    case Some(MaxRetries) => "!!int"
    case Some(Debug) => "!!bool"
    case Some(PullImageOnCreate) => "!!bool"
    case Some(DisablePullOnRun) => "!!bool"
    case _ => "!!str"
  }

  /** What is written for one option. */
  function SettingOf(o: Options, k: Key): Setting {
    Setting(k.Name(), Render(o, k), TagOf(k.Name()))
  }

  /** What is written for all options, in the fixed order. */
  function Settings(o: Options): (ts: seq<Setting>)
    ensures |ts| == |KEYS|
    ensures forall i :: 0 <= i < |KEYS| ==> ts[i] == SettingOf(o, KEYS[i])
  {
    seq(|KEYS|, i requires 0 <= i < |KEYS| => SettingOf(o, KEYS[i]))
  }

  // ---------- which text names which field

  /** The endpoints take any text. */
  lemma TextOptions(o: Options, v: string)
    ensures SetField(o, "runtime-endpoint", v) == Ok(o.(runtimeEndpoint := v))
    ensures SetField(o, "image-endpoint", v) == Ok(o.(imageEndpoint := v))
  {
  }

  /** The two numbers take an integer that fits 64 bits. */
  lemma NumberOptions(o: Options, v: string)
    ensures SetField(o, "timeout", v) ==
            if Integer(v) then Ok(o.(timeout := IntegerValue(v))) else Err(BadValue(Timeout, v))
    ensures SetField(o, "max-retries", v) ==
            if Integer(v) then Ok(o.(maxRetries := IntegerValue(v))) else Err(BadValue(MaxRetries, v))
  {
    ParseIntAccepts(v);
  }

  const YES := {"1", "t", "T", "true", "TRUE", "True"}
  const NO := {"0", "f", "F", "false", "FALSE", "False"}

  lemma SwitchField(o: Options, k: Key, v: string)
    requires k in {Debug, PullImageOnCreate, DisablePullOnRun}
    ensures SetField(o, k.Name(), v) == SetKey(o, k, v)
    ensures SetKey(o, k, v).Ok? <==> ParseBool(v).Some?
  {
  }

  /** The three switches take a boolean in any of its spellings. */
  lemma SwitchOptions(o: Options, v: string)
    ensures v in YES + NO ==>
              && SetField(o, "debug", v) == Ok(o.(debug := v in YES))
              && SetField(o, "pull-image-on-create", v) == Ok(o.(pullImageOnCreate := v in YES))
              && SetField(o, "disable-pull-on-run", v) == Ok(o.(disablePullOnRun := v in YES))
    ensures v !in YES + NO ==>
              && SetField(o, "debug", v) == Err(BadValue(Debug, v))
              && SetField(o, "pull-image-on-create", v) == Err(BadValue(PullImageOnCreate, v))
              && SetField(o, "disable-pull-on-run", v) == Err(BadValue(DisablePullOnRun, v))
  {
    ParseBoolAccepts(v);
    SwitchField(o, Debug, v);
    SwitchField(o, PullImageOnCreate, v);
    SwitchField(o, DisablePullOnRun, v);
  }

  const NAMES := {"runtime-endpoint", "image-endpoint", "timeout", "debug", "pull-image-on-create",
                  "disable-pull-on-run", "max-retries"}

  /** Any other name is no option. */
  lemma OtherNames(o: Options, name: string, v: string)
    requires name !in NAMES
    ensures SetField(o, name, v) == Err(UnknownOption(name))
  {
  }

  /** What is written for a configuration, in order: name, text and tag of each option. */
  lemma SettingsInText(o: Options)
    ensures Settings(o) == [
              Setting("runtime-endpoint", o.runtimeEndpoint, "!!str"),
              Setting("image-endpoint", o.imageEndpoint, "!!str"),
              Setting("timeout", FormatInt(o.timeout), "!!int"),
              Setting("debug", if o.debug then "true" else "false", "!!bool"),
              Setting("pull-image-on-create", if o.pullImageOnCreate then "true" else "false", "!!bool"),
              Setting("disable-pull-on-run", if o.disablePullOnRun then "true" else "false", "!!bool"),
              Setting("max-retries", FormatInt(o.maxRetries), "!!int")]
  {
  }
}
