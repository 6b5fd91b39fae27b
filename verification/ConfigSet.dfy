/** `crictl config --set`: each key=value pair of each setting is applied to the configuration; then it is written. */
module ConfigSet {
  import opened Wrappers
  import opened Text
  import opened ConfigView
  import opened ConfigOptions
  import opened ConfigLaws
  import opened ConfigFile

  // ---------- what the settings mean

  /** One comma-separated piece of a setting. */
  function ApplyPiece(o: Options, setting: string, piece: string): Result<Options, Error> {
    var pair := Split(piece, '=');
    if |pair| != 2 then Err(Malformed(setting)) else SetField(o, pair[0], pair[1])
  }

  function ApplyPieces(o: Options, setting: string, pieces: seq<string>): Result<Options, Error>
    decreases |pieces|
  {
    if pieces == [] then Ok(o)
    else match ApplyPiece(o, setting, pieces[0])
         case Err(e) => Err(e)
         case Ok(o') => ApplyPieces(o', setting, pieces[1..])
  }

  function ApplySettings(o: Options, settings: seq<string>): Result<Options, Error>
    decreases |settings|
  {
    if settings == [] then Ok(o)
    else match ApplyPieces(o, settings[0], Split(settings[0], ','))
         case Err(e) => Err(e)
         case Ok(o') => ApplySettings(o', settings[1..])
  }

  // ---------- the command

  /** The inner loop, over the pieces of one setting. */
  method SetPieces(config: Config, setting: string) returns (err: Option<Error>)
    modifies config
    ensures config.yamlData == old(config.yamlData)
    ensures match ApplyPieces(old(config.Values()), setting, Split(setting, ','))
            case Ok(o) => err == None && config.Values() == o
            case Err(e) => err == Some(e)
  {
    var options := Split(setting, ',');
    var i := 0;
    while i < |options|
      invariant 0 <= i <= |options|
      invariant config.yamlData == old(config.yamlData)
      invariant ApplyPieces(config.Values(), setting, options[i..]) ==
                ApplyPieces(old(config.Values()), setting, options)
    {
      ghost var rest := options[i..];
      assert rest[0] == options[i] && rest[1..] == options[i + 1..];
      var pair := Split(options[i], '=');
      if |pair| != 2 {
        return Some(Malformed(setting));
      }
      err := config.Assign(pair[0], pair[1]);
      if err.Some? {
        return;
      }
      i := i + 1;
    }
    err := None;
  }

  /** The outer loop. It changes the configuration in memory only. */
  method SetAll(config: Config, settings: seq<string>) returns (err: Option<Error>)
    modifies config
    ensures config.yamlData == old(config.yamlData)
    ensures match ApplySettings(old(config.Values()), settings)
            case Ok(o) => err == None && config.Values() == o
            case Err(e) => err == Some(e)
  {
    var i := 0;
    while i < |settings|
      invariant 0 <= i <= |settings|
      invariant config.yamlData == old(config.yamlData)
      invariant ApplySettings(config.Values(), settings[i..]) == ApplySettings(old(config.Values()), settings)
    {
      ghost var rest := settings[i..];
      assert rest[0] == settings[i] && rest[1..] == settings[i + 1..];
      err := SetPieces(config, settings[i]);
      if err.Some? {
        return;
      }
      i := i + 1;
    }
    err := None;
  }

  /** WriteConfig on a configuration that was read from a file. */
  method Store(config: Config)
    requires config.yamlData != null && Tree(config.yamlData)
    modifies config`yamlData, config.yamlData`kind, config.yamlData`content
    modifies Root(config.yamlData)`content, EntrySet(config.yamlData)`value
    ensures config.yamlData == old(config.yamlData) && Extended(config.yamlData)
    ensures View(config.yamlData) == SetEach(old(View(config.yamlData)), Settings(old(config.Values())))
  {
    var data := WriteConfig(config);
  }

  /**
   The action of `--set` on a configuration that was read from a file. On an error the tree is as it was; otherwise the
   overridden options are written to it.
   */
  method SetAndWrite(config: Config, settings: seq<string>) returns (err: Option<Error>)
    requires config.yamlData != null && Tree(config.yamlData)
    modifies config, config.yamlData`kind, config.yamlData`content
    modifies Root(config.yamlData)`content, EntrySet(config.yamlData)`value
    ensures config.yamlData == old(config.yamlData)
    ensures match ApplySettings(old(config.Values()), settings)
            case Ok(o) =>
              && err == None && config.Values() == o
              && Extended(config.yamlData)
              && View(config.yamlData) == SetEach(old(View(config.yamlData)), Settings(o))
            case Err(e) =>
              && err == Some(e)
              && unchanged(config.yamlData)
              && unchanged(old(Root(config.yamlData))) && unchanged(old(EntrySet(config.yamlData)))
  {
    var doc := config.yamlData;
    err := SetAll(config, settings);
    assert unchanged(doc) && unchanged(Root(doc)) && unchanged(EntrySet(doc));
    assert Root(doc) == old(Root(doc)) && EntrySet(doc) == old(EntrySet(doc)) && Tree(doc);
    assert View(doc) == old(View(doc));
    if err.None? {
      Store(config);
    }
  }

  // ---------- laws

  /** All pieces of all settings, from left to right. */
  function AllPieces(settings: seq<string>): seq<string> {
    if settings == [] then [] else Split(settings[0], ',') + AllPieces(settings[1..])
  }

  predicate PairPiece(piece: string) {
    Count(piece, '=') == 1 && Settable((Cut(piece, '=').0, Cut(piece, '=').1))
  }

  ghost predicate PairPieces(pieces: seq<string>) {
    forall i :: 0 <= i < |pieces| ==> PairPiece(pieces[i])
  }

  function PiecePairs(pieces: seq<string>): seq<(string, string)> {
    seq(|pieces|, i requires 0 <= i < |pieces| => (Cut(pieces[i], '=').0, Cut(pieces[i], '=').1))
  }

  lemma PiecesConcat(a: seq<string>, b: seq<string>)
    ensures PairPieces(a + b) <==> PairPieces(a) && PairPieces(b)
    ensures PiecePairs(a + b) == PiecePairs(a) + PiecePairs(b)
  {
    assert forall i :: 0 <= i < |a| ==> (a + b)[i] == a[i];
    assert forall i :: 0 <= i < |b| ==> (a + b)[|a| + i] == b[i];
  }

  /** A piece is a pair exactly if it has one `=`, and then the pair is what stands before and after it. */
  lemma SplitPair(piece: string)
    ensures |Split(piece, '=')| == 2 <==> Count(piece, '=') == 1
    ensures |Split(piece, '=')| == 2 ==> Split(piece, '=') == [Cut(piece, '=').0, Cut(piece, '=').1]
  {
    var (before, after, found) := Cut(piece, '=');
    SplitPieces(piece, '=');
    CountZero(piece, '=');
    if found {
      assert Split(piece, '=') == [before] + Split(after, '=');
      SplitPieces(after, '=');
      CountZero(after, '=');
    }
  }

  lemma ApplyPieceLaw(o: Options, setting: string, piece: string)
    ensures ApplyPiece(o, setting, piece).Ok? <==> PairPiece(piece)
    ensures PairPiece(piece) ==> Overrides(o, PiecePairs([piece]), ApplyPiece(o, setting, piece).value)
  {
    SplitPair(piece);
    var p := (Cut(piece, '=').0, Cut(piece, '=').1);
    if Count(piece, '=') == 1 && Lookup(p.0).Some? {
      SetKeyFields(o, Lookup(p.0).value, p.1, Debug);
    }
    if PairPiece(piece) {
      OverridesOne(o, p);
      assert PiecePairs([piece]) == [p];
    }
  }

  lemma PiecesSettable(pieces: seq<string>)
    requires PairPieces(pieces)
    ensures forall q :: q in PiecePairs(pieces) ==> Settable(q)
  {
  }

  lemma {:induction false} ApplyPiecesLaw(o: Options, setting: string, pieces: seq<string>)
    ensures ApplyPieces(o, setting, pieces).Ok? <==> PairPieces(pieces)
    ensures ApplyPieces(o, setting, pieces).Ok? ==>
              Overrides(o, PiecePairs(pieces), ApplyPieces(o, setting, pieces).value)
    decreases |pieces|
  {
    if pieces != [] {
      var first, rest := pieces[0], pieces[1..];
      ApplyPieceLaw(o, setting, first);
      assert pieces == [first] + rest;
      PiecesConcat([first], rest);
      assert PairPieces([first]) <==> PairPiece(first) by { assert [first][0] == first; }
      if PairPiece(first) {
        var o' := ApplyPiece(o, setting, first).value;
        ApplyPiecesLaw(o', setting, rest);
        if ApplyPieces(o', setting, rest).Ok? {
          PiecesSettable(rest);
          OverridesConcat(o, PiecePairs([first]), o', PiecePairs(rest), ApplyPieces(o', setting, rest).value);
        }
      }
    }
  }

  /**
   The settings are applied exactly if every piece of every setting is one key, one `=` and an acceptable text; and then
   each option has the value of the last pair that names it over all settings, or else the value it had.
   */
  lemma {:induction false} ApplySettingsLaw(o: Options, settings: seq<string>)
    ensures ApplySettings(o, settings).Ok? <==> PairPieces(AllPieces(settings))
    ensures ApplySettings(o, settings).Ok? ==>
              Overrides(o, PiecePairs(AllPieces(settings)), ApplySettings(o, settings).value)
    decreases |settings|
  {
    if settings != [] {
      var pieces, rest := Split(settings[0], ','), settings[1..];
      ApplyPiecesLaw(o, settings[0], pieces);
      PiecesConcat(pieces, AllPieces(rest));
      if ApplyPieces(o, settings[0], pieces).Ok? {
        var o' := ApplyPieces(o, settings[0], pieces).value;
        ApplySettingsLaw(o', rest);
        if ApplySettings(o', rest).Ok? {
          PiecesSettable(AllPieces(rest));
          OverridesConcat(o, PiecePairs(pieces), o', PiecePairs(AllPieces(rest)), ApplySettings(o', rest).value);
        }
      }
    }
  }

  lemma NoSplit(s: string, sep: char)
    requires sep !in s
    ensures Split(s, sep) == [s]
  {
  }

  lemma OneSplit(a: string, sep: char, b: string)
    requires sep !in a && sep !in b
    ensures Split(a + [sep] + b, sep) == [a, b]
  {
    CutConcat(a, sep, b);
    NoSplit(b, sep);
  }

  lemma SplitAtFirst(a: string, sep: char, b: string)
    requires sep !in a
    ensures Split(a + [sep] + b, sep) == [a] + Split(b, sep)
  {
    CutConcat(a, sep, b);
  }

  lemma ApplyOne(o: Options, setting: string)
    ensures ApplySettings(o, [setting]) == ApplyPieces(o, setting, Split(setting, ','))
  {
    assert [setting][1..] == [];
  }

  lemma ApplyFirst(o: Options, setting: string, piece: string, rest: seq<string>)
    ensures ApplyPieces(o, setting, [piece] + rest) ==
            var first := ApplyPiece(o, setting, piece);
            if first.Err? then first else ApplyPieces(first.value, setting, rest)
  {
    assert ([piece] + rest)[1..] == rest;
  }

  lemma ApplyLast(o: Options, setting: string, piece: string)
    ensures ApplyPieces(o, setting, [piece]) == ApplyPiece(o, setting, piece)
  {
    ApplyFirst(o, setting, piece, []);
    assert [piece] + [] == [piece];
  }

  /** The setting a piece stands in matters for the message only. */
  lemma {:induction false} SameSetting(o: Options, setting: string, other: string, pieces: seq<string>)
    requires ApplyPieces(o, setting, pieces).Ok?
    ensures ApplyPieces(o, other, pieces) == ApplyPieces(o, setting, pieces)
    decreases |pieces|
  {
    if pieces != [] {
      SameSetting(ApplyPiece(o, setting, pieces[0]).value, setting, other, pieces[1..]);
    }
  }

  /** A setting `k=v` sets the option `k` from `v`. */
  lemma OnePair(o: Options, k: string, v: string)
    requires '=' !in k && ',' !in k && '=' !in v && ',' !in v
    ensures ApplySettings(o, [k + "=" + v]) == SetField(o, k, v)
  {
    var piece := k + "=" + v;
    ApplyOne(o, piece);
    NoSplit(piece, ',');
    ApplyLast(o, piece, piece);
    OneSplit(k, '=', v);
  }

  /** A piece without exactly one equals sign is refused. */
  lemma NotAPair(o: Options, piece: string)
    requires ',' !in piece && Count(piece, '=') != 1
    ensures ApplySettings(o, [piece]) == Err(Malformed(piece))
  {
    ApplyOne(o, piece);
    NoSplit(piece, ',');
    ApplyLast(o, piece, piece);
    SplitPair(piece);
  }

  /** What follows a comma is applied to what the piece before it gave. */
  lemma AfterComma(o: Options, a: string, b: string)
    requires ',' !in a && ApplySettings(o, [a]).Ok?
    ensures ApplySettings(o, [a + "," + b]) ==
            ApplyPieces(ApplySettings(o, [a]).value, a + "," + b, Split(b, ','))
  {
    var both := a + "," + b;
    ApplyOne(o, a);
    NoSplit(a, ',');
    SameSetting(o, a, both, [a]);
    ApplyLast(o, both, a);
    ApplyOne(o, both);
    SplitAtFirst(a, ',', b);
    ApplyFirst(o, both, a, Split(b, ','));
  }

  /** A comma separates pieces that are applied one after the other, as separate settings are. */
  lemma CommaSeparates(o: Options, a: string, b: string)
    requires ',' !in a && ApplySettings(o, [a]).Ok? && ApplySettings(ApplySettings(o, [a]).value, [b]).Ok?
    ensures ApplySettings(o, [a + "," + b]) == ApplySettings(ApplySettings(o, [a]).value, [b])
    ensures ApplySettings(o, [a, b]) == ApplySettings(o, [a + "," + b])
  {
    var o' := ApplySettings(o, [a]).value;
    AfterComma(o, a, b);
    ApplyOne(o', b);
    SameSetting(o', b, a + "," + b, Split(b, ','));
    ApplyOne(o, a);
    assert [a, b][1..] == [b];
  }

  /** The error names the whole setting, not only the piece that is wrong. */
  lemma MalformedSetting(o: Options, a: string, piece: string)
    requires ',' !in a && ApplySettings(o, [a]).Ok? && ',' !in piece && Count(piece, '=') != 1
    ensures ApplySettings(o, [a + "," + piece]) == Err(Malformed(a + "," + piece))
  {
    AfterComma(o, a, piece);
    NoSplit(piece, ',');
    ApplyLast(ApplySettings(o, [a]).value, a + "," + piece, piece);
    SplitPair(piece);
  }

  /**
   Reading a file, setting and reading again: for each option the last of all pairs counts, those of the file first and
   then those of the settings from left to right, and an option that none of them names has its zero value.
   */
  lemma {:induction false} SetThenRead(s: seq<Entry>, settings: seq<string>)
    requires |s| % 2 == 0 && Decode(s).Ok?
    requires PairPieces(AllPieces(settings))
    ensures ApplySettings(Decode(s).value, settings).Ok?
    ensures var o := ApplySettings(Decode(s).value, settings).value;
            && Decode(SetEach(s, Settings(o))) == Ok(o)
            && Overrides(ZERO, PairsOf(s) + PiecePairs(AllPieces(settings)), o)
  {
    var before := Decode(s).value;
    ApplySettingsLaw(before, settings);
    var o := ApplySettings(before, settings).value;
    ReadableHasNoUnknown(s, ZERO);
    ReadAfterWrite(s, o);
    DecodeOverrides(s, ZERO);
    PiecesSettable(AllPieces(settings));
    OverridesConcat(ZERO, PairsOf(s), before, PiecePairs(AllPieces(settings)), o);
  }

  /** The whole command on the tree of a file; `r` has the options that it stored. */
  method ReadAndSet(yamlData: Node, settings: seq<string>) returns (r: Result<Options, Error>)
    requires Tree(yamlData)
    modifies yamlData`kind, yamlData`content, Root(yamlData)`content, EntrySet(yamlData)`value
    ensures match Decode(old(View(yamlData)))
            case Err(e) => r == Err(e)
            case Ok(o) => r == ApplySettings(o, settings)
    ensures View(yamlData) ==
            if r.Ok? then SetEach(old(View(yamlData)), Settings(r.value)) else old(View(yamlData))
  {
    var read := GetConfigOptions(yamlData);
    if read.Err? {
      return Err(read.error);
    }
    var config := read.value;
    var err := SetAndWrite(config, settings);
    r := if err.Some? then Err(err.value) else Ok(config.Values());
  }

  /**
   A read of what the command stored. All fails exactly if the file or one of the pieces cannot be read, and then the
   tree is as it was. Otherwise the last of all pairs counts for each option.
   */
  method SetAndReadBack(yamlData: Node, settings: seq<string>) returns (r: Result<Config, Error>)
    requires Tree(yamlData) && |Entries(yamlData)| % 2 == 0
    modifies yamlData`kind, yamlData`content, Root(yamlData)`content, EntrySet(yamlData)`value
    ensures r.Ok? <==> Decode(old(View(yamlData))).Ok? && PairPieces(AllPieces(settings))
    ensures r.Ok? ==>
              Overrides(ZERO, PairsOf(old(View(yamlData))) + PiecePairs(AllPieces(settings)), r.value.Values())
    ensures r.Err? ==> View(yamlData) == old(View(yamlData))
  {
    ghost var s := View(yamlData);
    var stored := ReadAndSet(yamlData, settings);
    if Decode(s).Ok? {
      ApplySettingsLaw(Decode(s).value, settings);
    }
    if stored.Err? {
      return Err(stored.error);
    }
    SetThenRead(s, settings);
    r := GetConfigOptions(yamlData);
  }
}
