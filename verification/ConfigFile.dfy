/** Reading and writing the options in the heap of YAML nodes that keeps the comments of the configuration file. */
module ConfigFile {
  import opened Wrappers
  import opened Strconv
  import opened ConfigView
  import opened ConfigOptions
  import opened ConfigLaws

  class Node {
    var kind: Kind
    var value: string
    var tag: string
    var comment: string
    var content: seq<Node>

    constructor (kind: Kind, value: string, tag: string)
      ensures this.kind == kind && this.value == value && this.tag == tag && comment == "" && content == []
    {
      this.kind, this.value, this.tag, comment, content := kind, value, tag, "", [];
    }

    function Shown(): Entry
      reads this
    {
      Entry(kind, value, tag, comment)
    }
  }

  class Config {
    var runtimeEndpoint: string
    var imageEndpoint: string
    var timeout: int64
    var debug: bool
    var pullImageOnCreate: bool
    var disablePullOnRun: bool
    var maxRetries: int64
    var yamlData: Node?

    constructor (yamlData: Node?)
      ensures Values() == ZERO && this.yamlData == yamlData
    {
      runtimeEndpoint, imageEndpoint, timeout, debug := "", "", 0, false;
      pullImageOnCreate, disablePullOnRun, maxRetries := false, false, 0;
      this.yamlData := yamlData;
    }

    function Values(): Options
      reads this
    {
      Options(runtimeEndpoint, imageEndpoint, timeout, debug, pullImageOnCreate, disablePullOnRun, maxRetries)
    }

    method AssignKey(k: Key, value: string) returns (err: Option<Error>)
      modifies this
      ensures yamlData == old(yamlData)
      ensures match SetKey(old(Values()), k, value)
              case Ok(o) => err == None && Values() == o
              case Err(e) => err == Some(e) && Values() == old(Values())
    {
      err := None;
      match k {
        case RuntimeEndpoint => runtimeEndpoint := value;
        case ImageEndpoint => imageEndpoint := value;
        case Timeout =>
          var parsed := ParseInt(value);
          if parsed.err.Some? { return Some(BadValue(k, value)); }
          timeout := parsed.n;
        case Debug =>
          var parsed := ParseBool(value);
          if parsed.None? { return Some(BadValue(k, value)); }
          debug := parsed.value;
        case PullImageOnCreate =>
          var parsed := ParseBool(value);
          if parsed.None? { return Some(BadValue(k, value)); }
          pullImageOnCreate := parsed.value;
        case DisablePullOnRun =>
          var parsed := ParseBool(value);
          if parsed.None? { return Some(BadValue(k, value)); }
          disablePullOnRun := parsed.value;
        case MaxRetries =>
          var parsed := ParseInt(value);
          if parsed.err.Some? { return Some(BadValue(k, value)); }
          maxRetries := parsed.n;
      }
    }

    /** What the seven fields hold. */
    predicate Holds(runtimeEndpoint: string, imageEndpoint: string, timeout: int64, debug: bool,
        pullImageOnCreate: bool, disablePullOnRun: bool, maxRetries: int64)
      reads this
    {
      && this.runtimeEndpoint == runtimeEndpoint && this.imageEndpoint == imageEndpoint
      && this.timeout == timeout && this.maxRetries == maxRetries && this.debug == debug
      && this.pullImageOnCreate == pullImageOnCreate && this.disablePullOnRun == disablePullOnRun
    }

    /** The switch over the option names that getConfigOptions and setValue share; an error leaves all fields alone. */
    method Assign(name: string, value: string) returns (err: Option<Error>)
      modifies this
      ensures yamlData == old(yamlData)
      ensures match SetField(old(Values()), name, value)
              case Ok(o) => err == None && Values() == o
              case Err(e) => err == Some(e) && Values() == old(Values())
    {
      match Lookup(name) {
        case Some(k) => err := AssignKey(k, value);
        case None => err := Some(UnknownOption(name));
      }
    }
  }

  // ---------- the tree

  /** The nodes that hold the mapping: none for an empty document. */
  ghost function Root(doc: Node): set<Node>
    reads doc
  {
    if doc.content == [] then {} else {doc.content[0]}
  }

  /** The key and value nodes, in order. */
  function Entries(doc: Node): seq<Node>
    reads doc, Root(doc)
  {
    if doc.content == [] then [] else doc.content[0].content
  }

  ghost function EntrySet(doc: Node): set<Node>
    reads doc, Root(doc)
  {
    set n | n in Entries(doc)
  }

  ghost predicate Distinct(nodes: seq<Node>) {
    forall i, j :: 0 <= i < j < |nodes| ==> nodes[i] != nodes[j]
  }

  /** Every node is in one place only. The number of entries is not restricted. */
  ghost predicate Tree(doc: Node)
    reads doc, Root(doc)
  {
    doc.content != [] ==>
      var root := doc.content[0];
      && root != doc
      && doc !in root.content
      && root !in root.content
      && Distinct(root.content)
  }

  function Shown(nodes: seq<Node>): (s: seq<Entry>)
    reads nodes
    ensures |s| == |nodes|
  {
    seq(|nodes|, i requires 0 <= i < |nodes| reads nodes => nodes[i].Shown())
  }

  function View(doc: Node): (s: seq<Entry>)
    reads doc, Root(doc), Entries(doc)
    ensures |s| == |Entries(doc)|
  {
    Shown(Entries(doc))
  }

  // ---------- the operations on the heap

  /** One value is replaced; since no node occurs twice, no other entry shows it. */
  method OverwriteOne(nodes: seq<Node>, i: nat, configValue: string)
    requires Distinct(nodes) && i < |nodes|
    modifies {nodes[i]}`value
    ensures Shown(nodes) == old(Shown(nodes))[i := old(nodes[i].Shown()).(value := configValue)]
  {
    nodes[i].value := configValue;
  }

  /** The first loop of setConfigOption: every value under the option's name is replaced in place. */
  method OverwriteValues(nodes: seq<Node>, configName: string, configValue: string) returns (foundOption: bool)
    requires Distinct(nodes)
    modifies nodes`value
    ensures foundOption <==> Has(old(Shown(nodes)), configName)
    ensures Shown(nodes) == Overlay(old(Shown(nodes)), map[configName := configValue])
  {
    ghost var before := Shown(nodes);
    ghost var m := map[configName := configValue];
    var contentLen := |nodes|;
    foundOption := false;
    var index := 0;
    assert before[0..] == before;
    while index < contentLen - 1
      invariant 0 <= index && index % 2 == 0
      invariant Has(before, configName) <==> foundOption || HasFrom(before, configName, index)
      invariant Overwritten(before, m, Shown(nodes), index)
    {
      ghost var now := Shown(nodes);
      var name := nodes[index].value;
      if name == configName {
        OverwriteOne(nodes, index + 1, configValue);
        foundOption := true;
      }
      OverwriteNext(before, configName, configValue, now, Shown(nodes), index);
      HasFromNext(before, configName, index);
      index := index + 2;
    }
    OverwriteDone(before, m, Shown(nodes), index);
  }

  /** The name and value nodes of an option that the file does not have yet. */
  method NewOption(configName: string, configValue: string) returns (pair: seq<Node>)
    ensures |pair| == 2 && fresh(pair) && pair[0] != pair[1]
    ensures Shown(pair) == NewPair(Setting(configName, configValue, TagOf(configName)))
  {
    var name := new Node(ScalarNode, configName, "!!str");
    var value := new Node(ScalarNode, configValue, TagOf(configName));
    pair := [name, value];
  }

  /** The part of setConfigOption that works on the mapping node. */
  method SetInMapping(root: Node, configName: string, configValue: string)
    requires Distinct(root.content) && root !in root.content
    modifies root`content, (set n | n in root.content)`value
    ensures Distinct(root.content) && root !in root.content
    ensures old(root.content) <= root.content
    ensures fresh((set n | n in root.content) - old(set n | n in root.content))
    ensures Shown(root.content) == Set(old(Shown(root.content)), Setting(configName, configValue, TagOf(configName)))
  {
    var nodes := root.content;
    ghost var before := Shown(nodes);
    var foundOption := OverwriteValues(nodes, configName, configValue);
    if !foundOption {
      OverwriteAbsent(before, configName, configValue);
      var pair := NewOption(configName, configValue);
      root.content := nodes + pair;
      assert Shown(nodes + pair) == Shown(nodes) + Shown(pair);
    }
  }

  method SetConfigOption(configName: string, configValue: string, yamlData: Node)
    requires Tree(yamlData)
    modifies yamlData`kind, yamlData`content, Root(yamlData)`content, EntrySet(yamlData)`value
    ensures Tree(yamlData) && yamlData.content != []
    ensures if old(yamlData.content) == [] then
              && yamlData.kind == Document && |yamlData.content| == 1
              && fresh(yamlData.content[0]) && yamlData.content[0].kind == Mapping && yamlData.content[0].tag == "!!map"
            else yamlData.kind == old(yamlData.kind) && yamlData.content == old(yamlData.content)
    ensures old(Entries(yamlData)) <= Entries(yamlData)
    ensures fresh(EntrySet(yamlData) - old(EntrySet(yamlData)))
    ensures View(yamlData) == Set(old(View(yamlData)), Setting(configName, configValue, TagOf(configName)))
  {
    if |yamlData.content| == 0 {
      yamlData.kind := Document;
      var root := new Node(Mapping, "", "!!map");
      yamlData.content := [root];
    }
    SetInMapping(yamlData.content[0], configName, configValue);
  }

  /** A document with one mapping, as setConfigOption creates it. */
  ghost predicate Whole(doc: Node)
    reads doc, Root(doc)
  {
    && doc.kind == Document && |doc.content| == 1
    && doc.content[0].kind == Mapping && doc.content[0].tag == "!!map"
  }

  /** What a sequence of calls of setConfigOption may change, relative to the state before the first of them. */
  twostate predicate Extended(doc: Node)
    requires old(Tree(doc))
    reads doc, Root(doc)
  {
    && Tree(doc)
    && (if old(doc.content) == [] then
          doc.content != [] ==>
            Whole(doc) && fresh(doc.content[0])
        else doc.kind == old(doc.kind) && doc.content == old(doc.content))
    && old(Entries(doc)) <= Entries(doc)
    && fresh(EntrySet(doc) - old(EntrySet(doc)))
  }

  /** One call of setConfigOption for each setting, in order. */
  method SetSettings(ts: seq<Setting>, doc: Node)
    requires forall t :: t in ts ==> t.tag == TagOf(t.name)
    requires Tree(doc)
    modifies doc`kind, doc`content, Root(doc)`content, EntrySet(doc)`value
    ensures Extended(doc) && (ts != [] ==> doc.content != [])
    ensures View(doc) == SetEach(old(View(doc)), ts)
  {
    for i := 0 to |ts|
      invariant Extended(doc) && (i > 0 ==> doc.content != [])
      invariant View(doc) == SetEach(old(View(doc)), ts[..i])
    {
      assert ts[..i + 1][..i] == ts[..i];
      SetConfigOption(ts[i].name, ts[i].text, doc);
    }
    assert ts[..|ts|] == ts;
  }

  method SetConfigOptions(config: Config)
    requires config.yamlData != null && Tree(config.yamlData)
    modifies config.yamlData`kind, config.yamlData`content
    modifies Root(config.yamlData)`content, EntrySet(config.yamlData)`value
    ensures Extended(config.yamlData) && config.yamlData.content != []
    ensures View(config.yamlData) == SetEach(old(View(config.yamlData)), Settings(config.Values()))
  {
    SetSettings(Settings(config.Values()), config.yamlData);
  }

  method GetConfigOptions(yamlData: Node) returns (r: Result<Config, Error>)
    ensures r.Ok? ==> fresh(r.value) && r.value.yamlData == yamlData && Decode(View(yamlData)) == Ok(r.value.Values())
    ensures r.Err? ==> Decode(View(yamlData)) == Err(r.error)
  {
    var config := new Config(yamlData);
    if |yamlData.content| == 0 {
      return Ok(config);
    }
    var nodes := yamlData.content[0].content;
    ghost var view := View(yamlData);
    var contentLen := |nodes|;
    var index := 0;
    while index < contentLen - 1
      invariant 0 <= index <= contentLen
      invariant config.yamlData == yamlData
      invariant DecodeFrom(view[index..], config.Values()) == Decode(view)
    {
      var name, value := nodes[index].value, nodes[index + 1].value;
      ghost var rest := view[index..];
      assert rest[0] == view[index] && rest[1] == view[index + 1] && rest[2..] == view[index + 2..];
      var err := config.Assign(name, value);
      if err.Some? {
        return Err(err.value);
      }
      index := index + 2;
    }
    return Ok(config);
  }

  // ---------- WriteConfig and ReadConfig without the disk

  /** The document of a configuration that has one. */
  ghost function DocOf(c: Config?): set<Node>
    reads if c == null then {} else {c}
  {
    if c == null || c.yamlData == null then {} else {c.yamlData}
  }

  ghost function RootOf(c: Config?): set<Node>
    reads if c == null then {} else {c}, DocOf(c)
  {
    if DocOf(c) == {} then {} else Root(c.yamlData)
  }

  ghost function EntriesOf(c: Config?): set<Node>
    reads if c == null then {} else {c}, DocOf(c), RootOf(c)
  {
    if DocOf(c) == {} then {} else EntrySet(c.yamlData)
  }

  /** WriteConfig up to the point where the tree is marshalled; the result is that tree. */
  method WriteConfig(c: Config?) returns (data: Node)
    requires c != null && c.yamlData != null ==> Tree(c.yamlData)
    modifies (if c == null then {} else {c})`yamlData
    modifies DocOf(c)`kind, DocOf(c)`content, RootOf(c)`content, EntriesOf(c)`value
    ensures Tree(data)
    ensures c == null ==> View(data) == SetEach([], Settings(ZERO))
    ensures c != null ==> c.yamlData == data
    ensures c == null || old(c.yamlData) == null ==> Whole(data)
    ensures c != null && old(c.yamlData) == null ==> View(data) == SetEach([], Settings(c.Values()))
    ensures c != null && old(c.yamlData) != null ==>
              && data == old(c.yamlData) && Extended(data)
              && View(data) == SetEach(old(View(c.yamlData)), Settings(c.Values()))
  {
    var config := c;
    if config == null {
      config := new Config(null);
    }
    if config.yamlData == null {
      config.yamlData := new Node(Unset, "", "");
    }
    SetConfigOptions(config);
    data := config.yamlData;
  }

  /** What was written is what is read: the seven fields survive, whatever else the tree held. */
  method WriteThenRead(c: Config) returns (r: Result<Config, Error>)
    requires c.yamlData != null ==> Tree(c.yamlData) && |Entries(c.yamlData)| % 2 == 0
    modifies c`yamlData, DocOf(c)`kind, DocOf(c)`content, RootOf(c)`content, EntriesOf(c)`value
    ensures c.Values() == old(c.Values())
    ensures match FirstUnknown(if old(c.yamlData) == null then [] else old(View(c.yamlData)))
            case None => r.Ok? && r.value.Values() == old(c.Values())
            case Some(name) => r == Err(UnknownOption(name))
  {
    ghost var s := if c.yamlData == null then [] else View(c.yamlData);
    var data := WriteConfig(c);
    ReadAfterWrite(s, c.Values());
    r := GetConfigOptions(data);
  }

  // ---------- the same in plain text: which key names which field

  lemma DecodePair(s: seq<Entry>)
    requires |s| == 2
    ensures Decode(s) == SetField(ZERO, s[0].value, s[1].value)
  {
    var r := SetField(ZERO, s[0].value, s[1].value);
    assert r.Ok? ==> DecodeFrom(s[2..], r.value) == r;
  }

  /** Reading a file with a single option sets the field of that name; the others are empty, zero or off. */
  method ReadPair(yamlData: Node, name: string, text: string) returns (r: Result<Config, Error>)
    requires |Entries(yamlData)| == 2 && Entries(yamlData)[0].value == name && Entries(yamlData)[1].value == text
    ensures name == "runtime-endpoint" ==> r.Ok? && r.value.Holds(text, "", 0, false, false, false, 0)
    ensures name == "image-endpoint" ==> r.Ok? && r.value.Holds("", text, 0, false, false, false, 0)
    ensures name == "timeout" ==>
              if Integer(text) then r.Ok? && r.value.Holds("", "", IntegerValue(text), false, false, false, 0)
              else r == Err(BadValue(Timeout, text))
    ensures name == "max-retries" ==>
              if Integer(text) then r.Ok? && r.value.Holds("", "", 0, false, false, false, IntegerValue(text))
              else r == Err(BadValue(MaxRetries, text))
    ensures name == "debug" ==>
              if text in YES + NO then r.Ok? && r.value.Holds("", "", 0, text in YES, false, false, 0)
              else r == Err(BadValue(Debug, text))
    ensures name == "pull-image-on-create" ==>
              if text in YES + NO then r.Ok? && r.value.Holds("", "", 0, false, text in YES, false, 0)
              else r == Err(BadValue(PullImageOnCreate, text))
    ensures name == "disable-pull-on-run" ==>
              if text in YES + NO then r.Ok? && r.value.Holds("", "", 0, false, false, text in YES, 0)
              else r == Err(BadValue(DisablePullOnRun, text))
    ensures name !in NAMES ==> r == Err(UnknownOption(name))
  {
    DecodePair(View(yamlData));
    TextOptions(ZERO, text);
    NumberOptions(ZERO, text);
    SwitchOptions(ZERO, text);
    r := GetConfigOptions(yamlData);
    if name !in NAMES {
      OtherNames(ZERO, name, text);
    }
  }

  /** The entries of a new file: the seven options in order, each with its tag. */
  function NewEntries(runtimeEndpoint: string, imageEndpoint: string, timeout: int64, debug: bool,
      pullImageOnCreate: bool, disablePullOnRun: bool, maxRetries: int64): seq<Entry>
  {
    [Entry(ScalarNode, "runtime-endpoint", "!!str", ""), Entry(ScalarNode, runtimeEndpoint, "!!str", "")]
    + [Entry(ScalarNode, "image-endpoint", "!!str", ""), Entry(ScalarNode, imageEndpoint, "!!str", "")]
    + [Entry(ScalarNode, "timeout", "!!str", ""), Entry(ScalarNode, FormatInt(timeout), "!!int", "")]
    + [Entry(ScalarNode, "debug", "!!str", ""),
       Entry(ScalarNode, if debug then "true" else "false", "!!bool", "")]
    + [Entry(ScalarNode, "pull-image-on-create", "!!str", ""),
       Entry(ScalarNode, if pullImageOnCreate then "true" else "false", "!!bool", "")]
    + [Entry(ScalarNode, "disable-pull-on-run", "!!str", ""),
       Entry(ScalarNode, if disablePullOnRun then "true" else "false", "!!bool", "")]
    + [Entry(ScalarNode, "max-retries", "!!str", ""), Entry(ScalarNode, FormatInt(maxRetries), "!!int", "")]
  }

  lemma WrittenNew(o: Options)
    ensures SetEach([], Settings(o)) ==
            NewEntries(o.runtimeEndpoint, o.imageEndpoint, o.timeout, o.debug, o.pullImageOnCreate, o.disablePullOnRun,
              o.maxRetries)
  {
    SettingsDistinct(o);
    SettingsInText(o);
    WrittenToEmpty(Settings(o));
    SevenPairs(SetEach([], Settings(o)), Settings(o));
  }

  /** The tree of a new file: one mapping with the seven options in order. */
  method WriteNew(c: Config) returns (data: Node)
    requires c.yamlData == null
    modifies c`yamlData
    ensures Whole(data)
    ensures View(data) == NewEntries(c.runtimeEndpoint, c.imageEndpoint, c.timeout, c.debug, c.pullImageOnCreate,
                            c.disablePullOnRun, c.maxRetries)
  {
    data := WriteConfig(c);
    WrittenNew(c.Values());
  }
}
