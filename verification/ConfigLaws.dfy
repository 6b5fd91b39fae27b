/** Reading the options back from what was written, on the row of key and value nodes. */
module ConfigLaws {
  import opened Wrappers
  import opened ConfigView
  import opened ConfigOptions

  /** Reading the pairs from left to right; later duplicates win, and an odd last entry is ignored. */
  function DecodeFrom(s: seq<Entry>, o: Options): Result<Options, Error> {
    if |s| < 2 then Ok(o)
    else match SetField(o, s[0].value, s[1].value)
         case Err(e) => Err(e)
         case Ok(o') => DecodeFrom(s[2..], o')
  }

  function Decode(s: seq<Entry>): Result<Options, Error> {
    DecodeFrom(s, ZERO)
  }

  // ---------- the last of several values for an option wins

  /** The pairs of names and texts that a mapping holds, in order. */
  function PairsOf(s: seq<Entry>): seq<(string, string)> {
    if |s| < 2 then [] else [(s[0].value, s[1].value)] + PairsOf(s[2..])
  }

  predicate Settable(p: (string, string)) {
    Lookup(p.0).Some? && ParseValue(Lookup(p.0).value, p.1).Some?
  }

  /** The text of the last pair that names the option. */
  function LastText(ps: seq<(string, string)>, k: Key): Option<string> {
    if ps == [] then None
    else if ps[|ps| - 1].0 == k.Name() then Some(ps[|ps| - 1].1)
    else LastText(ps[..|ps| - 1], k)
  }

  function OverriddenField(o: Options, ps: seq<(string, string)>, k: Key): Value {
    match LastText(ps, k)
    case None => Field(o, k)
    case Some(text) => if ParseValue(k, text).Some? then ParseValue(k, text).value else Field(o, k)
  }

  /** `o'` is `o` overridden by `ps`: an option has the value of its last pair, or else the one it had. */
  ghost predicate Overrides(o: Options, ps: seq<(string, string)>, o': Options) {
    forall k: Key :: Field(o', k) == OverriddenField(o, ps, k)
  }

  lemma {:induction false} LastTextConcat(ps: seq<(string, string)>, qs: seq<(string, string)>, k: Key)
    ensures LastText(ps + qs, k) == if LastText(qs, k).Some? then LastText(qs, k) else LastText(ps, k)
  {
    if qs == [] {
      assert ps + qs == ps;
    } else {
      assert (ps + qs)[..|ps + qs| - 1] == ps + qs[..|qs| - 1];
      LastTextConcat(ps, qs[..|qs| - 1], k);
    }
  }

  lemma {:induction false} LastTextMember(ps: seq<(string, string)>, k: Key)
    ensures LastText(ps, k).Some? ==> (k.Name(), LastText(ps, k).value) in ps
  {
    if ps != [] {
      LastTextMember(ps[..|ps| - 1], k);
    }
  }

  /** Overriding twice is overriding once by all the pairs. */
  lemma OverridesConcat(o: Options, ps: seq<(string, string)>, o': Options, qs: seq<(string, string)>, o'': Options)
    requires Overrides(o, ps, o') && Overrides(o', qs, o'')
    requires forall q :: q in qs ==> Settable(q)
    ensures Overrides(o, ps + qs, o'')
  {
    forall k: Key ensures Field(o'', k) == OverriddenField(o, ps + qs, k) {
      LastTextConcat(ps, qs, k);
      LastTextMember(qs, k);
      assert Lookup(k.Name()) == Some(k);
      assert Field(o', k) == OverriddenField(o, ps, k);
    }
  }

  lemma OverridesOne(o: Options, p: (string, string))
    requires Settable(p)
    ensures SetField(o, p.0, p.1).Ok? && Overrides(o, [p], SetField(o, p.0, p.1).value)
  {
    var first := Lookup(p.0).value;
    SetKeyFields(o, first, p.1, first);
    assert SetField(o, p.0, p.1) == SetKey(o, first, p.1);
    forall k: Key ensures Field(SetField(o, p.0, p.1).value, k) == OverriddenField(o, [p], k) {
      SetKeyFields(o, first, p.1, k);
      assert p.0 == k.Name() <==> k == first by { assert Lookup(k.Name()) == Some(k); }
      assert LastText([p], k) == if p.0 == k.Name() then Some(p.1) else LastText([p][..0], k);
    }
  }

  /** Reading succeeds exactly if every pair is an option with an acceptable text, and then the last of each counts. */
  lemma {:induction false} DecodeOverrides(s: seq<Entry>, o: Options)
    ensures DecodeFrom(s, o).Ok? <==> forall p :: p in PairsOf(s) ==> Settable(p)
    ensures DecodeFrom(s, o).Ok? ==> Overrides(o, PairsOf(s), DecodeFrom(s, o).value)
    decreases |s|
  {
    if |s| >= 2 {
      var p := (s[0].value, s[1].value);
      assert p in PairsOf(s);
      if Lookup(p.0).Some? {
        SetKeyFields(o, Lookup(p.0).value, p.1, Debug);
      }
      if Settable(p) {
        OverridesOne(o, p);
        var o' := SetField(o, p.0, p.1).value;
        DecodeOverrides(s[2..], o');
        assert forall q :: q in PairsOf(s) <==> q == p || q in PairsOf(s[2..]);
        if DecodeFrom(s[2..], o').Ok? {
          OverridesConcat(o, [p], o', PairsOf(s[2..]), DecodeFrom(s[2..], o').value);
        }
      }
    }
  }

  // ---------- reading what was written

  ghost function KeysOf(s: seq<Entry>): set<Key> {
    set k: Key | Has(s, k.Name())
  }

  lemma SettingsDistinct(o: Options)
    ensures DistinctNames(Settings(o))
  {
    KeysComplete();
    forall i, j | 0 <= i < j < |KEYS| ensures KEYS[i].Name() != KEYS[j].Name() {
      assert Lookup(KEYS[i].Name()) == Some(KEYS[i]) && Lookup(KEYS[j].Name()) == Some(KEYS[j]);
    }
  }

  lemma SettingsText(o: Options, k: Key)
    ensures k.Name() in Texts(Settings(o)) && Texts(Settings(o))[k.Name()] == Render(o, k)
  {
    SettingsDistinct(o);
    TextsKeys(Settings(o), k.Name());
    assert Settings(o)[Position(k)] == SettingOf(o, k);
  }

  lemma SettingsNames(o: Options, name: string)
    ensures name in Texts(Settings(o)) <==> Lookup(name).Some?
  {
    TextsKeys(Settings(o), name);
    if Lookup(name).Some? {
      SettingsText(o, Lookup(name).value);
    }
  }

  lemma SettingsLookup(o: Options, name: string)
    ensures match Lookup(name)
            case Some(k) => name in Texts(Settings(o)) && Texts(Settings(o))[name] == Render(o, k)
            case None => name !in Texts(Settings(o))
  {
    SettingsNames(o, name);
    if Lookup(name).Some? {
      SettingsText(o, Lookup(name).value);
    }
  }

  lemma KeysOfCons(s: seq<Entry>, k: Key)
    requires |s| >= 2 && Lookup(s[0].value) == Some(k)
    ensures KeysOf(s) == {k} + KeysOf(s[2..])
  {
  }

  lemma {:induction false} DecodeShown(s: seq<Entry>, a: Options, o: Options, m: map<string, string>)
    requires m == Texts(Settings(o)) && Shows(s, m)
    ensures DecodeFrom(s, a) ==
            match FirstOutside(s, m.Keys) {
              case Some(name) => Err(UnknownOption(name))
              case None => Ok(Blend(a, o, KeysOf(s)))
            }
    decreases |s|
  {
    if |s| >= 2 {
      SettingsNames(o, s[0].value);
      if Lookup(s[0].value).Some? {
        var k := Lookup(s[0].value).value;
        SettingsText(o, k);
        SetRendered(a, o, k);
        DecodeShown(s[2..], Blend(a, o, {k}), o, m);
        KeysOfCons(s, k);
        assert Blend(Blend(a, o, {k}), o, KeysOf(s[2..])) == Blend(a, o, {k} + KeysOf(s[2..]));
      }
    }
  }

  /** The first key that is not one of the seven options. */
  function FirstUnknown(s: seq<Entry>): Option<string> {
    if |s| < 2 then None
    else if Lookup(s[0].value).None? then Some(s[0].value)
    else FirstUnknown(s[2..])
  }

  lemma {:induction false} FirstUnknownIsOutside(s: seq<Entry>, o: Options)
    ensures FirstUnknown(s) == FirstOutside(s, Texts(Settings(o)).Keys)
  {
    if |s| >= 2 {
      SettingsNames(o, s[0].value);
      FirstUnknownIsOutside(s[2..], o);
    }
  }

  lemma {:induction false} AllOptionsWritten(s: seq<Entry>, o: Options, k: Key)
    requires |s| % 2 == 0
    ensures k in KeysOf(SetEach(s, Settings(o)))
  {
    SettingsDistinct(o);
    assert Settings(o)[Position(k)].name == k.Name();
    AllPresent(s, Settings(o), Position(k));
  }

  /**
   Reading after writing: on any mapping, empty or with duplicate or malformed options, all seven options come back as
   written; unless the mapping has a key that is not an option, and then the first such key is reported.
   */
  lemma {:induction false} ReadAfterWrite(s: seq<Entry>, o: Options)
    requires |s| % 2 == 0
    ensures Decode(SetEach(s, Settings(o))) ==
            match FirstUnknown(s) { case Some(name) => Err(UnknownOption(name)) case None => Ok(o) }
  {
    var t, m := SetEach(s, Settings(o)), Texts(Settings(o));
    SettingsDistinct(o);
    WrittenShows(s, Settings(o));
    DecodeShown(t, ZERO, o, m);
    FirstUnknownIsOutside(s, o);
    forall k: Key ensures k in KeysOf(t) {
      AllOptionsWritten(s, o, k);
    }
  }

  /** The round trip succeeds exactly if every key of the mapping is an option. */
  lemma UnknownKeys(s: seq<Entry>)
    ensures FirstUnknown(s).None? <==> forall i :: 0 <= i && i + 1 < |s| && i % 2 == 0 ==> Lookup(s[i].value).Some?
  {
    var names := Texts(Settings(ZERO)).Keys;
    FirstUnknownIsOutside(s, ZERO);
    OutsideKeys(s, names);
    forall i | 0 <= i < |s| ensures s[i].value in names <==> Lookup(s[i].value).Some? {
      SettingsNames(ZERO, s[i].value);
    }
  }

  /** A mapping that could be read has no unknown key, so it can be written and read again. */
  lemma {:induction false} ReadableHasNoUnknown(s: seq<Entry>, a: Options)
    ensures DecodeFrom(s, a).Ok? ==> FirstUnknown(s) == None
    decreases |s|
  {
    if |s| >= 2 && SetField(a, s[0].value, s[1].value).Ok? {
      ReadableHasNoUnknown(s[2..], SetField(a, s[0].value, s[1].value).value);
    }
  }

  /** The row of nodes after a series of writes. */
  function Rewritten(s: seq<Entry>, os: seq<Options>): seq<Entry> {
    if os == [] then s else SetEach(Rewritten(s, os[..|os| - 1]), Settings(os[|os| - 1]))
  }

  /**
   The tree behind any configuration that a program can hold comes from a successful read or is empty, and from then on
   only writes change it. However often it is written, it can be read, and the last options written come back.
   */
  lemma {:induction false} EveryWriteCanBeRead(s: seq<Entry>, os: seq<Options>)
    requires |s| % 2 == 0 && Decode(s).Ok?
    ensures |Rewritten(s, os)| % 2 == 0
    ensures Decode(Rewritten(s, os)) == if os == [] then Decode(s) else Ok(os[|os| - 1])
  {
    if os != [] {
      var before, o := Rewritten(s, os[..|os| - 1]), os[|os| - 1];
      EveryWriteCanBeRead(s, os[..|os| - 1]);
      SettingsDistinct(o);
      EvenAfter(before, Settings(o));
      ReadableHasNoUnknown(before, ZERO);
      ReadAfterWrite(before, o);
    }
  }

  /** Writing twice leaves only the second options; writing the same options again changes nothing. */
  lemma {:induction false} WriteTwice(s: seq<Entry>, o: Options, o': Options)
    requires |s| % 2 == 0
    ensures SetEach(SetEach(s, Settings(o)), Settings(o')) == SetEach(s, Settings(o'))
  {
    SettingsDistinct(o);
    SettingsDistinct(o');
    LastWriteWins(s, Settings(o), Settings(o'));
  }

  lemma KeyKept(s: seq<Entry>, o: Options, i: nat)
    requires |s| % 2 == 0 && i < |s| && i % 2 == 0
    ensures |SetEach(s, Settings(o))| >= |s| && SetEach(s, Settings(o))[i] == s[i]
  {
    SettingsDistinct(o);
    WriteFrame(s, Settings(o), i);
  }

  lemma ValueWritten(s: seq<Entry>, o: Options, i: nat)
    requires |s| % 2 == 0 && i < |s| && i % 2 == 1
    ensures |SetEach(s, Settings(o))| >= |s|
    ensures SetEach(s, Settings(o))[i] ==
            match Lookup(s[i - 1].value) { case Some(k) => s[i].(value := Render(o, k)) case None => s[i] }
  {
    SettingsDistinct(o);
    WriteFrame(s, Settings(o), i);
    SettingsLookup(o, s[i - 1].value);
  }

  /** The effect of a write on one old entry, in terms of the options. */
  lemma WriteEntry(s: seq<Entry>, o: Options, i: nat)
    requires |s| % 2 == 0 && i < |s|
    ensures var r := SetEach(s, Settings(o));
            && |r| >= |s| && r[|s|..] == Missing(s, Settings(o))
            && r[i] == s[i].(value :=
                 if i % 2 == 1 && Lookup(s[i - 1].value).Some? then Render(o, Lookup(s[i - 1].value).value)
                 else s[i].value)
  {
    SettingsDistinct(o);
    SetEachClosed(s, Settings(o));
    if i % 2 == 0 {
      KeyKept(s, o, i);
    } else {
      ValueWritten(s, o, i);
    }
  }
}
