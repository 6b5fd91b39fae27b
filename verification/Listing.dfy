/** The listing of containers and pods: filter, sort by creation time in place, and keep the newest. */
module Listing {
  import opened Wrappers
  import opened Arithmetic

  /** A container or pod; `named` is false when it has no metadata. */
  datatype Item = Item(id: string, createdAt: int, named: bool, name: string, namespace: string, image: string)

  /** The options of the listing, with what the compiled expressions match as arbitrary functions. */
  datatype ListOptions = ListOptions(nameRegexp: string, namespaceRegexp: string, latest: bool, last: int)

  datatype Library = Library(
    valid: string -> bool,
    matches: (string, string) -> bool,
    matchesImage: string -> Option<bool>)

  datatype Error = BadRegexp(pattern: string) | ImageCheck(image: string)

  /** compileRegex and matchesRegex: an empty pattern is valid and matches everything. */
  predicate Compiles(lib: Library, pattern: string) {
    pattern == "" || lib.valid(pattern)
  }

  predicate MatchesRegex(lib: Library, pattern: string, target: string) {
    pattern == "" || lib.matches(pattern, target)
  }

  predicate Matches(lib: Library, opts: ListOptions, c: Item) {
    && lib.matchesImage(c.image) == Some(true)
    && c.named
    && MatchesRegex(lib, opts.nameRegexp, c.name)
    && MatchesRegex(lib, opts.namespaceRegexp, c.namespace)
  }

  /** How many items are kept: never more than asked for, and less than that only if there are no more. */
  function TruncateCount(total: nat, latest: bool, last: int): (n: nat)
    ensures n <= total
    ensures last > 0 ==> n <= last && (n < total ==> n == last)
    ensures last <= 0 && latest ==> n <= 1 && (total > 0 ==> n == 1)
    ensures last <= 0 && !latest ==> n == total
  {
    var n := if latest then 1 else total;
    var m := if last > 0 then last else n;
    Min(m, total)
  }

  /** The matching items, up to the first one whose image cannot be checked. */
  function Matching(lib: Library, opts: ListOptions, items: seq<Item>): Result<seq<Item>, Error> {
    if items == [] then Ok([])
    else if lib.matchesImage(items[0].image).None? then Err(ImageCheck(items[0].image))
    else match Matching(lib, opts, items[1..])
         case Err(e) => Err(e)
         case Ok(rest) => Ok((if Matches(lib, opts, items[0]) then [items[0]] else []) + rest)
  }

  ghost predicate Descending(s: seq<Item>) {
    forall i, j :: 0 <= i < j < |s| ==> s[i].createdAt >= s[j].createdAt
  }

  /** No item of `rest` is newer than an item of `kept`. */
  ghost predicate NoNewer(rest: seq<Item>, kept: seq<Item>) {
    forall i, j :: 0 <= i < |kept| && 0 <= j < |rest| ==> kept[i].createdAt >= rest[j].createdAt
  }

  /** `res` are `n` of the matching items, newest first, and every match left out is no newer than every one kept. */
  ghost predicate IsTop(matching: seq<Item>, res: seq<Item>, n: nat) {
    && |res| == n
    && Descending(res)
    && exists dropped :: multiset(matching) == multiset(res) + multiset(dropped) && NoNewer(dropped, res)
  }

  /** Cutting any descending arrangement of the matches gives the newest ones, however ties were ordered. */
  lemma PrefixIsTop(matching: seq<Item>, sorted: seq<Item>, n: nat)
    requires multiset(sorted) == multiset(matching) && Descending(sorted) && n <= |sorted|
    ensures IsTop(matching, sorted[..n], n)
  {
    assert sorted == sorted[..n] + sorted[n..];
    assert NoNewer(sorted[n..], sorted[..n]);
  }

  // ---------- the methods

  method Swap(a: array<Item>, i: nat, j: nat)
    requires i < a.Length && j < a.Length
    modifies a
    ensures multiset(a[..]) == multiset(old(a[..]))
    ensures a[..] == old(a[..])[i := old(a[j])][j := old(a[i])]
  {
    a[i], a[j] := a[j], a[i];
  }

  /** Items `0` to `j - 1` and those after `j` are in order; item `j` is at least as new as those after it. */
  ghost predicate SinkingAt(s: seq<Item>, j: nat) {
    forall p, q :: 0 <= p < q < |s| && q != j ==> s[p].createdAt >= s[q].createdAt
  }

  lemma Sinks(s: seq<Item>, j: nat)
    requires SinkingAt(s, j) && 0 < j < |s| && s[j - 1].createdAt < s[j].createdAt
    ensures SinkingAt(s[j - 1 := s[j]][j := s[j - 1]], j - 1)
  {
  }

  lemma Sunk(s: seq<Item>, j: nat)
    requires SinkingAt(s, j) && j < |s| && (j > 0 ==> s[j - 1].createdAt >= s[j].createdAt)
    ensures Descending(s)
  {
    forall p, q | 0 <= p < q < |s| ensures s[p].createdAt >= s[q].createdAt {
      if q == j && p < j - 1 {
        assert s[p].createdAt >= s[j - 1].createdAt;
      }
    }
  }

  /** Item `i` moves to its place among those before it. */
  method Insert(a: array<Item>, i: nat)
    requires i < a.Length && Descending(a[..i])
    modifies a
    ensures Descending(a[..i + 1]) && multiset(a[..]) == multiset(old(a[..]))
  {
    var j := i;
    assert SinkingAt(a[..i + 1], i) by {
      assert forall p, q :: 0 <= p < q < i ==> a[..i][p].createdAt >= a[..i][q].createdAt;
    }
    while j > 0 && a[j - 1].createdAt < a[j].createdAt
      invariant 0 <= j <= i
      invariant multiset(a[..]) == multiset(old(a[..]))
      invariant SinkingAt(a[..i + 1], j)
    {
      ghost var s := a[..i + 1];
      Sinks(s, j);
      Swap(a, j - 1, j);
      assert a[..i + 1] == s[j - 1 := s[j]][j := s[j - 1]];
      j := j - 1;
    }
    Sunk(a[..i + 1], j);
  }

  /** slices.SortFunc by descending creation time; an insertion sort, as the library does for short slices. */
  method SortByCreation(a: array<Item>)
    modifies a
    ensures Descending(a[..]) && multiset(a[..]) == multiset(old(a[..]))
  {
    var i := 0;
    while i < a.Length
      invariant 0 <= i <= a.Length
      invariant Descending(a[..i])
      invariant multiset(a[..]) == multiset(old(a[..]))
    {
      Insert(a, i);
      i := i + 1;
    }
    assert a[..a.Length] == a[..];
  }

  function Prepend(xs: seq<Item>, r: Result<seq<Item>, Error>): Result<seq<Item>, Error> {
    if r.Ok? then Ok(xs + r.value) else r
  }

  lemma PrependNothing(r: Result<seq<Item>, Error>)
    ensures Prepend([], r) == r
  {
    if r.Ok? {
      assert [] + r.value == r.value;
    }
  }

  lemma MatchingAt(lib: Library, opts: ListOptions, items: seq<Item>, i: nat, before: seq<Item>)
    requires i < |items| && lib.matchesImage(items[i].image).Some?
    ensures Prepend(before, Matching(lib, opts, items[i..])) ==
            Prepend(if Matches(lib, opts, items[i]) then before + [items[i]] else before,
                    Matching(lib, opts, items[i + 1..]))
  {
    assert items[i..][0] == items[i] && items[i..][1..] == items[i + 1..];
    var rest := Matching(lib, opts, items[i + 1..]);
    if rest.Ok? {
      assert (before + [items[i]]) + rest.value == before + ([items[i]] + rest.value);
      assert [] + rest.value == rest.value;
    }
  }

  /** The loop that appends the matching items. */
  method FilterItems(lib: Library, itemsList: seq<Item>, opts: ListOptions) returns (r: Result<seq<Item>, Error>)
    ensures r == Matching(lib, opts, itemsList)
  {
    var filtered: seq<Item> := [];
    PrependNothing(Matching(lib, opts, itemsList));
    for i := 0 to |itemsList|
      invariant Matching(lib, opts, itemsList) == Prepend(filtered, Matching(lib, opts, itemsList[i..]))
    {
      var c := itemsList[i];
      var matched := lib.matchesImage(c.image);
      if matched.None? {
        assert itemsList[i..][0] == c;
        return Err(ImageCheck(c.image));
      }
      MatchingAt(lib, opts, itemsList, i, filtered);
      if !matched.value {
        continue;
      }
      if c.named && MatchesRegex(lib, opts.nameRegexp, c.name) && MatchesRegex(lib, opts.namespaceRegexp, c.namespace) {
        filtered := filtered + [c];
      }
    }
    assert itemsList[|itemsList|..] == [];
    assert filtered + [] == filtered;
    return Ok(filtered);
  }

  method GetList(lib: Library, itemsList: seq<Item>, opts: ListOptions) returns (r: Result<seq<Item>, Error>)
    ensures opts.nameRegexp != "" && !lib.valid(opts.nameRegexp) ==> r == Err(BadRegexp(opts.nameRegexp))
    ensures (opts.nameRegexp == "" || lib.valid(opts.nameRegexp))
            && opts.namespaceRegexp != "" && !lib.valid(opts.namespaceRegexp) ==>
              r == Err(BadRegexp(opts.namespaceRegexp))
    ensures (opts.nameRegexp == "" || lib.valid(opts.nameRegexp))
            && (opts.namespaceRegexp == "" || lib.valid(opts.namespaceRegexp)) ==>
              match Matching(lib, opts, itemsList)
              case Err(e) => r == Err(e)
              case Ok(ms) => r.Ok? && IsTop(ms, r.value, TruncateCount(|ms|, opts.latest, opts.last))
  {
    if !Compiles(lib, opts.nameRegexp) {
      return Err(BadRegexp(opts.nameRegexp));
    }
    if !Compiles(lib, opts.namespaceRegexp) {
      return Err(BadRegexp(opts.namespaceRegexp));
    }
    var found := FilterItems(lib, itemsList, opts);
    if found.Err? {
      return Err(found.error);
    }
    var filtered := new Item[|found.value|](i requires 0 <= i < |found.value| => found.value[i]);
    assert filtered[..] == found.value;
    SortByCreation(filtered);
    var n := TruncateCount(filtered.Length, opts.latest, opts.last);
    PrefixIsTop(found.value, filtered[..], n);
    assert filtered[..][..n] == filtered[..n];
    return Ok(filtered[..n]);
  }

  /** The image of item `i` is the first that cannot be checked. */
  ghost predicate FirstUnchecked(lib: Library, items: seq<Item>, i: nat)
    requires i < |items|
  {
    && lib.matchesImage(items[i].image).None?
    && forall j :: 0 <= j < i ==> lib.matchesImage(items[j].image).Some?
  }

  /** Filtering fails exactly if some image cannot be checked, with the first such image. */
  lemma {:induction false} MatchingErrors(lib: Library, opts: ListOptions, items: seq<Item>)
    ensures Matching(lib, opts, items).Ok? <==> forall i :: 0 <= i < |items| ==> lib.matchesImage(items[i].image).Some?
    ensures Matching(lib, opts, items).Err? ==>
              exists i :: 0 <= i < |items| && FirstUnchecked(lib, items, i)
                && Matching(lib, opts, items).error == ImageCheck(items[i].image)
  {
    if items != [] {
      var rest := items[1..];
      MatchingErrors(lib, opts, rest);
      assert forall i :: 1 <= i < |items| ==> items[i] == rest[i - 1];
      assert forall i :: 0 <= i < |rest| ==> rest[i] == items[i + 1];
      if lib.matchesImage(items[0].image).None? {
        assert FirstUnchecked(lib, items, 0);
      } else if Matching(lib, opts, rest).Err? {
        var i :| 0 <= i < |rest| && FirstUnchecked(lib, rest, i)
                 && Matching(lib, opts, rest).error == ImageCheck(rest[i].image);
        assert FirstUnchecked(lib, items, i + 1);
      }
    }
  }

  lemma {:induction false} MatchingCounts(lib: Library, opts: ListOptions, items: seq<Item>, c: Item)
    requires Matching(lib, opts, items).Ok?
    ensures multiset(Matching(lib, opts, items).value)[c] == if Matches(lib, opts, c) then multiset(items)[c] else 0
  {
    if items != [] {
      assert items == [items[0]] + items[1..];
      MatchingCounts(lib, opts, items[1..], c);
    }
  }

  /**
   The items that are listed: those whose image matches, that have metadata, and whose name and namespace match the
   patterns, if there are any; each as often as it was given.
   */
  lemma MatchingMembers(lib: Library, opts: ListOptions, items: seq<Item>, c: Item)
    requires Matching(lib, opts, items).Ok?
    ensures multiset(Matching(lib, opts, items).value)[c] ==
              if lib.matchesImage(c.image) == Some(true) && c.named
                 && (opts.nameRegexp == "" || lib.matches(opts.nameRegexp, c.name))
                 && (opts.namespaceRegexp == "" || lib.matches(opts.namespaceRegexp, c.namespace))
              then multiset(items)[c] else 0
  {
    MatchingCounts(lib, opts, items, c);
  }
}
