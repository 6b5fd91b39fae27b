/** What writing settings means on the row of key and value nodes of a YAML mapping, and the laws of such writes. */
module ConfigView {
  import opened Wrappers

  datatype Kind = Unset | Document | Mapping | Sequence | ScalarNode | Alias

  /** What a key or value node shows. */
  datatype Entry = Entry(kind: Kind, value: string, tag: string, comment: string)

  /** A value to write: the key, the text, and the tag of the value node if the key is new. */
  datatype Setting = Setting(name: string, text: string, tag: string)

  function OverlayAt(s: seq<Entry>, m: map<string, string>, i: nat): Entry
    requires i < |s|
  {
    if i % 2 == 1 && s[i - 1].value in m then s[i].(value := m[s[i - 1].value]) else s[i]
  }

  /** Each value whose key is in `m` replaced by its text there; every other entry as it was. */
  function Overlay(s: seq<Entry>, m: map<string, string>): (r: seq<Entry>)
    ensures |r| == |s|
  {
    seq(|s|, i requires 0 <= i < |s| => OverlayAt(s, m, i))
  }

  /** Some pair of `s` has the key `name`; an odd last entry is not a pair. */
  predicate Has(s: seq<Entry>, name: string) {
    |s| >= 2 && (s[0].value == name || Has(s[2..], name))
  }

  function KeyEntry(name: string): Entry {
    Entry(ScalarNode, name, "!!str", "")
  }

  function ValueEntry(text: string, tag: string): Entry {
    Entry(ScalarNode, text, tag, "")
  }

  function NewPair(t: Setting): seq<Entry> {
    [KeyEntry(t.name), ValueEntry(t.text, t.tag)]
  }

  function Set(s: seq<Entry>, t: Setting): seq<Entry> {
    if Has(s, t.name) then Overlay(s, map[t.name := t.text]) else s + NewPair(t)
  }

  /** Writing several settings, one after the other. */
  function SetEach(s: seq<Entry>, ts: seq<Setting>): seq<Entry> {
    if ts == [] then s else Set(SetEach(s, ts[..|ts| - 1]), ts[|ts| - 1])
  }

  ghost predicate DistinctNames(ts: seq<Setting>) {
    forall i, j :: 0 <= i < j < |ts| ==> ts[i].name != ts[j].name
  }

  ghost predicate SameNames(ts: seq<Setting>, us: seq<Setting>) {
    |ts| == |us| && forall i :: 0 <= i < |ts| ==> ts[i].name == us[i].name && ts[i].tag == us[i].tag
  }

  // ---------- the closed form of a series of writes

  function Texts(ts: seq<Setting>): map<string, string> {
    if ts == [] then map[] else Texts(ts[..|ts| - 1])[ts[|ts| - 1].name := ts[|ts| - 1].text]
  }

  /** A new pair for each setting whose key `s` does not have, in the order of the settings. */
  function Missing(s: seq<Entry>, ts: seq<Setting>): (r: seq<Entry>)
    ensures |r| % 2 == 0
  {
    if ts == [] then []
    else
      var t := ts[|ts| - 1];
      Missing(s, ts[..|ts| - 1]) + (if Has(s, t.name) then [] else NewPair(t))
  }

  /** The entries while a key is being overwritten from left to right: done below `index`, and as before from there. */
  ghost predicate Overwritten(before: seq<Entry>, m: map<string, string>, now: seq<Entry>, index: nat) {
    && |now| == |before|
    && forall i: nat :: i < |before| ==> now[i] == if i < index then OverlayAt(before, m, i) else before[i]
  }

  lemma OverwriteNext(before: seq<Entry>, name: string, text: string, now: seq<Entry>, next: seq<Entry>, index: nat)
    requires Overwritten(before, map[name := text], now, index) && index % 2 == 0 && index + 1 < |before|
    requires next == if now[index].value == name then now[index + 1 := now[index + 1].(value := text)] else now
    ensures Overwritten(before, map[name := text], next, index + 2)
  {
    var m := map[name := text];
    assert OverlayAt(before, m, index) == before[index] == now[index];
    assert OverlayAt(before, m, index + 1) == next[index + 1];
  }

  lemma OverwriteDone(before: seq<Entry>, m: map<string, string>, now: seq<Entry>, index: nat)
    requires Overwritten(before, m, now, index) && index % 2 == 0 && index + 1 >= |before|
    ensures now == Overlay(before, m)
  {
    forall i: nat | i < |before| ensures now[i] == OverlayAt(before, m, i) {
    }
  }

  /** Whether there is a pair with the name from `index` on. */
  predicate HasFrom(s: seq<Entry>, name: string, index: nat) {
    index <= |s| && Has(s[index..], name)
  }

  lemma HasFromNext(s: seq<Entry>, name: string, index: nat)
    requires index + 1 < |s|
    ensures HasFrom(s, name, index) <==> s[index].value == name || HasFrom(s, name, index + 2)
  {
    assert s[index..][2..] == s[index + 2..];
  }

  lemma OverwriteAbsent(s: seq<Entry>, name: string, text: string)
    requires !Has(s, name)
    ensures Overlay(s, map[name := text]) == s
  {
  }

  lemma {:induction false} Absent(s: seq<Entry>, name: string, i: nat)
    requires !Has(s, name) && i + 1 < |s| && i % 2 == 0
    ensures s[i].value != name
  {
    if i >= 2 {
      Absent(s[2..], name, i - 2);
    }
  }

  lemma {:induction false} HasConcat(a: seq<Entry>, b: seq<Entry>, name: string)
    requires |a| % 2 == 0
    ensures Has(a + b, name) <==> Has(a, name) || Has(b, name)
  {
    if a == [] {
      assert a + b == b;
    } else {
      assert (a + b)[2..] == a[2..] + b;
      HasConcat(a[2..], b, name);
    }
  }

  /** Only keys decide whether a setting is there. */
  lemma {:induction false} HasSameKeys(a: seq<Entry>, b: seq<Entry>, name: string)
    requires |a| == |b|
    requires forall i :: 0 <= i < |a| && i % 2 == 0 ==> a[i].value == b[i].value
    ensures Has(a, name) <==> Has(b, name)
  {
    if |a| >= 2 {
      HasSameKeys(a[2..], b[2..], name);
    }
  }

  lemma {:induction false} MissingHas(s: seq<Entry>, ts: seq<Setting>, name: string)
    ensures Has(Missing(s, ts), name) <==> name in Texts(ts) && !Has(s, name)
  {
    if ts != [] {
      var front, t := ts[..|ts| - 1], ts[|ts| - 1];
      MissingHas(s, front, name);
      var pair := if Has(s, t.name) then [] else NewPair(t);
      HasConcat(Missing(s, front), pair, name);
      assert pair != [] ==> pair[2..] == [];
    }
  }

  lemma {:induction false} TextsKeys(ts: seq<Setting>, name: string)
    ensures name in Texts(ts) <==> exists i :: 0 <= i < |ts| && ts[i].name == name
    ensures DistinctNames(ts) ==> forall i :: 0 <= i < |ts| && ts[i].name == name ==> Texts(ts)[name] == ts[i].text
  {
    if ts != [] {
      TextsKeys(ts[..|ts| - 1], name);
      assert name in Texts(ts) ==> name == ts[|ts| - 1].name || name in Texts(ts[..|ts| - 1]);
    }
  }

  lemma OverlayConcat(a: seq<Entry>, b: seq<Entry>, m: map<string, string>)
    requires |a| % 2 == 0
    ensures Overlay(a + b, m) == Overlay(a, m) + Overlay(b, m)
  {
  }

  lemma OverlayTwice(s: seq<Entry>, m: map<string, string>, m': map<string, string>)
    ensures Overlay(Overlay(s, m), m') == Overlay(s, m + m')
  {
  }

  lemma OverlayAbsent(s: seq<Entry>, m: map<string, string>, name: string, text: string)
    requires !Has(s, name)
    ensures Overlay(s, m[name := text]) == Overlay(s, m)
  {
    forall i: nat | i < |s| ensures OverlayAt(s, m[name := text], i) == OverlayAt(s, m, i) {
      if i % 2 == 1 {
        Absent(s, name, i - 1);
      }
    }
  }

  /** One more write, on entries followed by the pairs appended so far. */
  lemma {:induction false} SetClosed(s: seq<Entry>, front: seq<Setting>, t: Setting)
    requires |s| % 2 == 0 && t.name !in Texts(front)
    ensures Set(Overlay(s, Texts(front)) + Missing(s, front), t) ==
            Overlay(s, Texts(front)[t.name := t.text]) + Missing(s, front) + (if Has(s, t.name) then [] else NewPair(t))
  {
    var over, missing := Overlay(s, Texts(front)), Missing(s, front);
    HasConcat(over, missing, t.name);
    HasSameKeys(over, s, t.name);
    MissingHas(s, front, t.name);
    if Has(s, t.name) {
      OverwriteAbsent(missing, t.name, t.text);
      OverlayConcat(over, missing, map[t.name := t.text]);
      OverlayTwice(s, Texts(front), map[t.name := t.text]);
      assert Texts(front) + map[t.name := t.text] == Texts(front)[t.name := t.text];
    } else {
      OverlayAbsent(s, Texts(front), t.name, t.text);
    }
  }

  /**
   A series of writes on a mapping in closed form: old entries stay in place, with the values of the written settings
   replaced wherever they occur, and then each setting the mapping lacked is appended once, in order.
   */
  lemma {:induction false} SetEachClosed(s: seq<Entry>, ts: seq<Setting>)
    requires |s| % 2 == 0 && DistinctNames(ts)
    ensures SetEach(s, ts) == Overlay(s, Texts(ts)) + Missing(s, ts)
  {
    if ts == [] {
      assert Overlay(s, map[]) == s;
    } else {
      var front, t := ts[..|ts| - 1], ts[|ts| - 1];
      SetEachClosed(s, front);
      TextsKeys(front, t.name);
      SetClosed(s, front, t);
    }
  }

  lemma {:induction false} MissingNone(s: seq<Entry>, ts: seq<Setting>)
    requires forall i :: 0 <= i < |ts| ==> Has(s, ts[i].name)
    ensures Missing(s, ts) == []
  {
    if ts != [] {
      MissingNone(s, ts[..|ts| - 1]);
    }
  }

  lemma {:induction false} AllPresent(s: seq<Entry>, ts: seq<Setting>, i: nat)
    requires |s| % 2 == 0 && DistinctNames(ts) && i < |ts|
    ensures Has(SetEach(s, ts), ts[i].name)
  {
    SetEachClosed(s, ts);
    HasConcat(Overlay(s, Texts(ts)), Missing(s, ts), ts[i].name);
    HasSameKeys(Overlay(s, Texts(ts)), s, ts[i].name);
    MissingHas(s, ts, ts[i].name);
    TextsKeys(ts, ts[i].name);
  }

  lemma OverlayPair(t: Setting, u: Setting, m: map<string, string>)
    requires t.name == u.name && t.tag == u.tag && u.name in m && m[u.name] == u.text
    ensures Overlay(NewPair(t), m) == NewPair(u)
  {
  }

  lemma {:induction false} OverlayMissing(s: seq<Entry>, ts: seq<Setting>, us: seq<Setting>, m: map<string, string>)
    requires SameNames(ts, us)
    requires forall i :: 0 <= i < |us| ==> us[i].name in m && m[us[i].name] == us[i].text
    ensures Overlay(Missing(s, ts), m) == Missing(s, us)
  {
    if ts != [] {
      var front, t := ts[..|ts| - 1], ts[|ts| - 1];
      OverlayMissing(s, front, us[..|us| - 1], m);
      OverlayPair(t, us[|us| - 1], m);
      OverlayConcat(Missing(s, front), if Has(s, t.name) then [] else NewPair(t), m);
    }
  }

  lemma {:induction false} TextsSameKeys(ts: seq<Setting>, us: seq<Setting>)
    requires SameNames(ts, us)
    ensures Texts(ts) + Texts(us) == Texts(us)
  {
    forall name ensures name in Texts(ts) <==> name in Texts(us) {
      TextsKeys(ts, name);
      TextsKeys(us, name);
      assert forall i :: 0 <= i < |ts| ==> (ts[i].name == name <==> us[i].name == name);
    }
  }

  lemma {:induction false} NothingMissing(s: seq<Entry>, ts: seq<Setting>, us: seq<Setting>)
    requires |s| % 2 == 0 && DistinctNames(ts) && SameNames(ts, us)
    ensures Missing(SetEach(s, ts), us) == []
  {
    forall i | 0 <= i < |us| ensures Has(SetEach(s, ts), us[i].name) {
      AllPresent(s, ts, i);
    }
    MissingNone(SetEach(s, ts), us);
  }

  lemma {:induction false} OverlayWritten(s: seq<Entry>, ts: seq<Setting>, us: seq<Setting>)
    requires |s| % 2 == 0 && DistinctNames(ts) && DistinctNames(us) && SameNames(ts, us)
    ensures Overlay(SetEach(s, ts), Texts(us)) == Overlay(s, Texts(us)) + Missing(s, us)
  {
    SetEachClosed(s, ts);
    OverlayConcat(Overlay(s, Texts(ts)), Missing(s, ts), Texts(us));
    OverlayTwice(s, Texts(ts), Texts(us));
    TextsSameKeys(ts, us);
    forall i | 0 <= i < |us| ensures us[i].name in Texts(us) && Texts(us)[us[i].name] == us[i].text {
      TextsKeys(us, us[i].name);
    }
    OverlayMissing(s, ts, us, Texts(us));
  }

  lemma EvenAfter(s: seq<Entry>, ts: seq<Setting>)
    requires |s| % 2 == 0 && DistinctNames(ts)
    ensures |SetEach(s, ts)| % 2 == 0
  {
  }

  /** Of two series of writes of the same settings only the last leaves a trace; in particular twice equals once. */
  lemma {:induction false} LastWriteWins(s: seq<Entry>, ts: seq<Setting>, us: seq<Setting>)
    requires |s| % 2 == 0 && DistinctNames(ts) && DistinctNames(us) && SameNames(ts, us)
    ensures SetEach(SetEach(s, ts), us) == SetEach(s, us)
  {
    var r := SetEach(s, ts);
    EvenAfter(s, ts);
    calc {
      SetEach(r, us);
      { SetEachClosed(r, us); }
      Overlay(r, Texts(us)) + Missing(r, us);
      { NothingMissing(s, ts, us); }
      Overlay(r, Texts(us));
      { OverlayWritten(s, ts, us); }
      Overlay(s, Texts(us)) + Missing(s, us);
      { SetEachClosed(s, us); }
      SetEach(s, us);
    }
  }

  /** The `i`-th pair is that of the `i`-th setting. */
  ghost predicate PairAt(s: seq<Entry>, ts: seq<Setting>, i: nat)
    requires i < |ts| && |s| == 2 * |ts|
  {
    s[2 * i] == KeyEntry(ts[i].name) && s[2 * i + 1] == ValueEntry(ts[i].text, ts[i].tag)
  }

  lemma {:induction false} MissingFromEmpty(ts: seq<Setting>)
    ensures |Missing([], ts)| == 2 * |ts|
    ensures forall i: nat :: i < |ts| ==> PairAt(Missing([], ts), ts, i)
  {
    if ts != [] {
      var front := ts[..|ts| - 1];
      MissingFromEmpty(front);
      forall i: nat | i < |ts| ensures PairAt(Missing([], ts), ts, i) {
        assert i < |front| ==> PairAt(Missing([], front), front, i);
      }
    }
  }

  /** What is written to an empty mapping: a scalar for each name and one for each text, with its tag, in order. */
  lemma WrittenToEmpty(ts: seq<Setting>)
    requires DistinctNames(ts)
    ensures |SetEach([], ts)| == 2 * |ts|
    ensures forall i: nat :: i < |ts| ==> PairAt(SetEach([], ts), ts, i)
  {
    SetEachClosed([], ts);
    MissingFromEmpty(ts);
    assert Overlay([], Texts(ts)) + Missing([], ts) == Missing([], ts);
  }

  lemma SevenPairs(s: seq<Entry>, ts: seq<Setting>)
    requires |ts| == 7 && |s| == 14 && forall i: nat :: i < |ts| ==> PairAt(s, ts, i)
    ensures s == NewPair(ts[0]) + NewPair(ts[1]) + NewPair(ts[2]) + NewPair(ts[3]) + NewPair(ts[4]) + NewPair(ts[5])
                 + NewPair(ts[6])
  {
    assert PairAt(s, ts, 0) && PairAt(s, ts, 1) && PairAt(s, ts, 2) && PairAt(s, ts, 3);
    assert PairAt(s, ts, 4) && PairAt(s, ts, 5) && PairAt(s, ts, 6);
  }

  // ---------- what a written mapping contains

  /** Every pair whose key is in `m` has its text there. */
  ghost predicate Shows(s: seq<Entry>, m: map<string, string>) {
    |s| >= 2 ==> (s[0].value in m ==> s[1].value == m[s[0].value]) && Shows(s[2..], m)
  }

  /** The first key of `s` that is not in `names`. */
  function FirstOutside(s: seq<Entry>, names: set<string>): Option<string> {
    if |s| < 2 then None
    else if s[0].value !in names then Some(s[0].value)
    else FirstOutside(s[2..], names)
  }

  lemma {:induction false} OutsideKeys(s: seq<Entry>, names: set<string>)
    ensures FirstOutside(s, names).None? <==> forall i :: 0 <= i && i + 1 < |s| && i % 2 == 0 ==> s[i].value in names
  {
    if |s| >= 2 {
      OutsideKeys(s[2..], names);
      if FirstOutside(s, names).None? {
        forall i | 0 <= i && i + 1 < |s| && i % 2 == 0 ensures s[i].value in names {
          assert i >= 2 ==> s[2..][i - 2] == s[i];
        }
      } else if s[0].value in names {
        var i :| 0 <= i && i + 1 < |s[2..]| && i % 2 == 0 && s[2..][i].value !in names;
        assert s[i + 2] == s[2..][i];
      }
    }
  }

  lemma {:induction false} ShowsConcat(a: seq<Entry>, b: seq<Entry>, m: map<string, string>)
    requires |a| % 2 == 0 && Shows(a, m) && Shows(b, m)
    ensures Shows(a + b, m)
    ensures FirstOutside(a + b, m.Keys) ==
            (if FirstOutside(a, m.Keys).Some? then FirstOutside(a, m.Keys) else FirstOutside(b, m.Keys))
  {
    if a == [] {
      assert a + b == b;
    } else {
      assert (a + b)[2..] == a[2..] + b;
      ShowsConcat(a[2..], b, m);
    }
  }

  lemma {:induction false} ShowsOverlay(s: seq<Entry>, m: map<string, string>)
    ensures Shows(Overlay(s, m), m) && FirstOutside(Overlay(s, m), m.Keys) == FirstOutside(s, m.Keys)
  {
    if |s| >= 2 {
      var over := Overlay(s, m);
      forall i: nat | i < |s| - 2 ensures over[2..][i] == OverlayAt(s[2..], m, i) {
        assert over[i + 2] == OverlayAt(s, m, i + 2);
      }
      assert over[2..] == Overlay(s[2..], m);
      ShowsOverlay(s[2..], m);
      assert over[0] == OverlayAt(s, m, 0) && over[1] == OverlayAt(s, m, 1);
    }
  }

  lemma {:induction false} ShowsMissing(s: seq<Entry>, ts: seq<Setting>, m: map<string, string>)
    requires forall i :: 0 <= i < |ts| ==> ts[i].name in m && m[ts[i].name] == ts[i].text
    ensures Shows(Missing(s, ts), m) && FirstOutside(Missing(s, ts), m.Keys) == None
  {
    if ts != [] {
      var front, t := ts[..|ts| - 1], ts[|ts| - 1];
      ShowsMissing(s, front, m);
      var pair := if Has(s, t.name) then [] else NewPair(t);
      assert pair != [] ==> pair[2..] == [];
      ShowsConcat(Missing(s, front), pair, m);
    }
  }

  /** After the writes every written key shows its text, in all its occurrences; foreign keys are as before. */
  lemma {:induction false} WrittenShows(s: seq<Entry>, ts: seq<Setting>)
    requires |s| % 2 == 0 && DistinctNames(ts)
    ensures Shows(SetEach(s, ts), Texts(ts))
    ensures FirstOutside(SetEach(s, ts), Texts(ts).Keys) == FirstOutside(s, Texts(ts).Keys)
  {
    var m := Texts(ts);
    SetEachClosed(s, ts);
    forall i | 0 <= i < |ts| ensures ts[i].name in m && m[ts[i].name] == ts[i].text {
      TextsKeys(ts, ts[i].name);
    }
    ShowsOverlay(s, m);
    ShowsMissing(s, ts, m);
    ShowsConcat(Overlay(s, m), Missing(s, ts), m);
  }

  /**
   What the writes leave alone: no old entry moves or changes its kind, tag or comment; keys and the values of other
   keys are untouched; and only pairs for missing settings are appended.
   */
  lemma WriteFrame(s: seq<Entry>, ts: seq<Setting>, i: nat)
    requires |s| % 2 == 0 && DistinctNames(ts) && i < |s|
    ensures var r := SetEach(s, ts);
            && |r| >= |s| && r[|s|..] == Missing(s, ts)
            && r[i].kind == s[i].kind && r[i].tag == s[i].tag && r[i].comment == s[i].comment
            && r[i].value == if i % 2 == 1 && s[i - 1].value in Texts(ts) then Texts(ts)[s[i - 1].value] else s[i].value
  {
    SetEachClosed(s, ts);
    assert SetEach(s, ts)[i] == OverlayAt(s, Texts(ts), i);
  }
}
