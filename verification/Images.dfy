/** The `--filter` chain of `crictl images`, on slices that are reversed in place. */
module Images {
  import opened Wrappers
  import opened Text

  datatype Image = Image(id: string, repoTags: seq<string>, repoDigests: seq<string>, pinned: bool)

  /** Which patterns regexp.Compile accepts, and which texts a pattern then matches, as arbitrary functions. */
  datatype Regexps = Regexps(valid: string -> bool, matches: (string, string) -> bool)

  datatype Error = UnknownFilter(filter: string) | BadRegexp(pattern: string)

  const NONE := "<none>"

  // ---------- names of an image

  /** normalizeRepoDigest: name and digest of the first repo digest. */
  function RepoDigest(repoDigests: seq<string>): (string, string) {
    if repoDigests == [] then (NONE, NONE)
    else
      var pair := Split(repoDigests[0], '@');
      if |pair| != 2 then ("errorName", "errorRepoDigest") else (pair[0], pair[1])
  }

  /** The pair for one tag: what is before and after its last colon. */
  function TagPair(repoTag: string, imageName: string): (string, string) {
    match LastIndex(repoTag, ':')
    case None => ("errorRepoTag", "errorRepoTag")
    case Some(idx) =>
      var name := repoTag[..idx];
      (if name == NONE then imageName else name, repoTag[idx + 1..])
  }

  function TagPairs(repoTags: seq<string>, imageName: string): (pairs: seq<(string, string)>)
    ensures |pairs| >= 1
  {
    if repoTags == [] then [(imageName, NONE)]
    else seq(|repoTags|, i requires 0 <= i < |repoTags| => TagPair(repoTags[i], imageName))
  }

  method NormalizeRepoTagPair(repoTags: seq<string>, imageName: string) returns (repoTagPairs: seq<(string, string)>)
    ensures repoTagPairs == TagPairs(repoTags, imageName)
  {
    repoTagPairs := [];
    if |repoTags| == 0 {
      return repoTagPairs + [(imageName, NONE)];
    }
    for i := 0 to |repoTags|
      invariant |repoTagPairs| == i
      invariant forall j :: 0 <= j < i ==> repoTagPairs[j] == TagPair(repoTags[j], imageName)
    {
      var idx := LastIndex(repoTags[i], ':');
      if idx.None? {
        repoTagPairs := repoTagPairs + [("errorRepoTag", "errorRepoTag")];
        continue;
      }
      var name := repoTags[i][..idx.value];
      if name == NONE {
        name := imageName;
      }
      repoTagPairs := repoTagPairs + [(name, repoTags[i][idx.value + 1..])];
    }
  }

  /** strings.Join of a pair with a colon. */
  function Rejoined(pair: (string, string)): string {
    pair.0 + [':'] + pair.1
  }

  /** The name of a tag, before its last colon. */
  function TagName(repoTag: string): string
    requires ':' in repoTag
  {
    repoTag[..LastIndex(repoTag, ':').value]
  }

  /**
   Rejoining a pair with a colon gives the tag back exactly if the tag has a colon and its name was not replaced, or was
   replaced by the same text.
   */
  lemma RejoinGivesTag(repoTag: string, imageName: string)
    ensures Rejoined(TagPair(repoTag, imageName)) == repoTag <==>
            ':' in repoTag && (TagName(repoTag) == NONE ==> imageName == NONE)
  {
  }

  // ---------- the filters on sequences

  /** A filter flag, by its prefix. */
  datatype Filter =
    | Before(v: string)
    | Since(v: string)
    | Dangling(v: string)
    | Reference(v: string)
    | Unknown(v: string)

  function ParseFilter(flag: string): Filter {
    if HasPrefix(flag, "before=") then Before(TrimPrefix(flag, "before="))
    else if HasPrefix(flag, "dangling=") then Dangling(TrimPrefix(flag, "dangling="))
    else if HasPrefix(flag, "reference=") then Reference(TrimPrefix(flag, "reference="))
    else if HasPrefix(flag, "since=") then Since(TrimPrefix(flag, "since="))
    else Unknown(flag)
  }

  predicate ByTag(v: string) {
    ':' in v && '@' !in v
  }

  predicate ById(v: string) {
    ':' !in v && '@' !in v
  }

  predicate ByDigest(v: string) {
    ':' in v && '@' in v
  }

  /** What a since or before filter does at an image: end, keep it and go on, or go on without it. */
  datatype Verdict = Stop | Keep | Skip

  function Examine(v: string, img: Image): Verdict {
    if ByTag(v) then
      if Rejoined(TagPairs(img.repoTags, RepoDigest(img.repoDigests).0)[0]) == v then Stop else Keep
    else if ById(v) then
      if HasPrefix(img.id, v) then Stop else Keep
    else if ByDigest(v) && img.repoDigests != [] then
      if HasPrefix(img.repoDigests[0], v) then Stop else Keep
    else Skip
  }

  function Cut(verdict: Image -> Verdict, xs: seq<Image>): seq<Image> {
    if xs == [] then []
    else match verdict(xs[0])
         case Stop => []
         case Keep => [xs[0]] + Cut(verdict, xs[1..])
         case Skip => Cut(verdict, xs[1..])
  }

  function Reversed<T>(s: seq<T>): (r: seq<T>)
    ensures |r| == |s|
    ensures forall i :: 0 <= i < |s| ==> r[i] == s[|s| - 1 - i]
  {
    seq(|s|, i requires 0 <= i < |s| => s[|s| - 1 - i])
  }

  /** The images that a dangling or reference filter keeps. */
  predicate Passes(res: Regexps, f: Filter, img: Image) {
    match f
    case Dangling(v) => (v == "true" && img.repoTags == []) || (v == "false" && img.repoTags != [])
    case Reference(v) =>
      var name := RepoDigest(img.repoDigests).0;
      res.matches(v, name) || name == v
    case _ => true
  }

  function Kept(keep: Image -> bool, xs: seq<Image>): seq<Image> {
    if xs == [] then []
    else if keep(xs[0]) then [xs[0]] + Kept(keep, xs[1..])
    else Kept(keep, xs[1..])
  }

  function VerdictOf(v: string): Image -> Verdict {
    (img: Image) => Examine(v, img)
  }

  function PassesOf(res: Regexps, f: Filter): Image -> bool {
    (img: Image) => Passes(res, f, img)
  }

  function Apply(res: Regexps, f: Filter, xs: seq<Image>): Result<seq<Image>, Error> {
    match f
    case Before(v) => Ok(Reversed(Cut(VerdictOf(v), Reversed(xs))))
    case Dangling(v) => Ok(Kept(PassesOf(res, f), xs))
    case Reference(v) => if res.valid(v) then Ok(Kept(PassesOf(res, f), xs)) else Err(BadRegexp(v))
    case Since(v) => Ok(Cut(VerdictOf(v), xs))
    case Unknown(v) => Err(UnknownFilter(v))
  }

  function ApplyAll(res: Regexps, fs: seq<Filter>, xs: seq<Image>): Result<seq<Image>, Error>
    decreases |fs|
  {
    if fs == [] then Ok(xs)
    else match Apply(res, fs[0], xs)
         case Err(e) => Err(e)
         case Ok(ys) => ApplyAll(res, fs[1..], ys)
  }

  function Parsed(flags: seq<string>): seq<Filter> {
    seq(|flags|, i requires 0 <= i < |flags| => ParseFilter(flags[i]))
  }

  /** The chain for flags given as text. */
  function Filtered(res: Regexps, flags: seq<string>, xs: seq<Image>): Result<seq<Image>, Error> {
    ApplyAll(res, Parsed(flags), xs)
  }

  // ---------- the filters on slices

  /** slices.Reverse. */
  method ReverseInPlace(a: array<Image>)
    modifies a
    ensures a[..] == Reversed(old(a[..]))
  {
    var lo, hi := 0, a.Length;
    while lo + 1 < hi
      invariant 0 <= lo <= hi <= a.Length && lo + hi == a.Length
      invariant forall i :: 0 <= i < a.Length ==>
        a[i] == if lo <= i < hi then old(a[i]) else old(a[a.Length - 1 - i])
    {
      hi := hi - 1;
      a[lo], a[hi] := a[hi], a[lo];
      lo := lo + 1;
    }
  }

  method ToSlice(xs: seq<Image>) returns (a: array<Image>)
    ensures fresh(a) && a[..] == xs
  {
    a := new Image[|xs|](i requires 0 <= i < |xs| => xs[i]);
  }

  lemma CutAt(verdict: Image -> Verdict, xs: seq<Image>, i: nat)
    requires i < |xs|
    ensures Cut(verdict, xs[i..]) ==
            match verdict(xs[i])
            case Stop => []
            case Keep => [xs[i]] + Cut(verdict, xs[i + 1..])
            case Skip => Cut(verdict, xs[i + 1..])
  {
  }

  /** The loop of filterByBeforeSince. */
  method CutSlice(verdict: Image -> Verdict, imageList: array<Image>) returns (filtered: array<Image>)
    ensures fresh(filtered) && filtered[..] == Cut(verdict, imageList[..])
  {
    ghost var xs := imageList[..];
    var kept: seq<Image> := [];
    var i := 0;
    while i < imageList.Length
      invariant 0 <= i <= imageList.Length
      invariant Cut(verdict, xs) == kept + Cut(verdict, xs[i..])
    {
      CutAt(verdict, xs, i);
      var found := verdict(imageList[i]);
      if found == Stop {
        break;
      }
      if found == Keep {
        kept := kept + [imageList[i]];
      }
      i := i + 1;
    }
    filtered := ToSlice(kept);
  }

  /** The loops of filterByDangling and filterByReference. */
  method KeepSlice(keep: Image -> bool, imageList: array<Image>) returns (filtered: array<Image>)
    ensures fresh(filtered) && filtered[..] == Kept(keep, imageList[..])
  {
    ghost var xs := imageList[..];
    var kept: seq<Image> := [];
    for i := 0 to imageList.Length
      invariant Kept(keep, xs) == kept + Kept(keep, xs[i..])
    {
      assert xs[i..][0] == xs[i] && xs[i..][1..] == xs[i + 1..];
      if keep(imageList[i]) {
        kept := kept + [imageList[i]];
      }
    }
    filtered := ToSlice(kept);
  }

  /** The chain of filters. It works on a copy, so the caller's slice is never written, whatever is reversed. */
  method FilterImagesList(res: Regexps, imageList: array<Image>, filters: seq<string>)
    returns (r: Result<array<Image>, Error>)
    ensures match Filtered(res, filters, imageList[..])
            case Ok(xs) => r.Ok? && fresh(r.value) && r.value[..] == xs
            case Err(e) => r == Err(e)
  {
    var filtered := ToSlice(imageList[..]);
    ghost var all := Parsed(filters);
    for i := 0 to |filters|
      invariant fresh(filtered)
      invariant ApplyAll(res, all[i..], filtered[..]) == ApplyAll(res, all, imageList[..])
    {
      assert all[i..][0] == ParseFilter(filters[i]) && all[i..][1..] == all[i + 1..];
      match ParseFilter(filters[i]) {
        case Before(v) =>
          var reversedList := filtered;
          ReverseInPlace(reversedList);
          filtered := CutSlice(VerdictOf(v), reversedList);
          ReverseInPlace(filtered);
        case Dangling(v) =>
          filtered := KeepSlice(PassesOf(res, Dangling(v)), filtered);
        case Reference(v) =>
          if !res.valid(v) {
            return Err(BadRegexp(v));
          }
          filtered := KeepSlice(PassesOf(res, Reference(v)), filtered);
        case Since(v) =>
          filtered := CutSlice(VerdictOf(v), filtered);
        case Unknown(v) =>
          return Err(UnknownFilter(v));
      }
    }
    return Ok(filtered);
  }

  // ---------- where since and before cut

  /** The image that a value in tag or id form names: its first rejoined tag, or a prefix of its id. */
  predicate Named(v: string, img: Image) {
    if ByTag(v) then Rejoined(TagPairs(img.repoTags, RepoDigest(img.repoDigests).0)[0]) == v else HasPrefix(img.id, v)
  }

  lemma {:induction false} CutPrefix(verdict: Image -> Verdict, xs: seq<Image>, k: nat)
    requires k <= |xs|
    requires (forall i :: 0 <= i < k ==> verdict(xs[i]) == Keep) && (k < |xs| ==> verdict(xs[k]) == Stop)
    ensures Cut(verdict, xs) == xs[..k]
  {
    if k > 0 {
      CutPrefix(verdict, xs[1..], k - 1);
      assert xs[..k] == [xs[0]] + xs[1..][..k - 1];
    }
  }

  /** By tag or id, since keeps the longest prefix that is free of the named image. */
  lemma SincePrefix(res: Regexps, v: string, xs: seq<Image>, k: nat)
    requires (ByTag(v) || ById(v)) && k <= |xs|
    requires (forall i :: 0 <= i < k ==> !Named(v, xs[i])) && (k < |xs| ==> Named(v, xs[k]))
    ensures Apply(res, Since(v), xs) == Ok(xs[..k])
  {
    forall i | 0 <= i < k ensures VerdictOf(v)(xs[i]) == Keep {
      assert !Named(v, xs[i]);
    }
    CutPrefix(VerdictOf(v), xs, k);
  }

  /** By tag or id, before keeps what follows the last image that is named. */
  lemma BeforeSuffix(res: Regexps, v: string, xs: seq<Image>, k: nat)
    requires (ByTag(v) || ById(v)) && k <= |xs|
    requires (forall i :: k <= i < |xs| ==> !Named(v, xs[i])) && (k > 0 ==> Named(v, xs[k - 1]))
    ensures Apply(res, Before(v), xs) == Ok(xs[k..])
  {
    var ys, j := Reversed(xs), |xs| - k;
    SincePrefix(res, v, ys, j);
    assert Reversed(ys[..j]) == xs[k..];
  }

  function WithDigest(xs: seq<Image>): seq<Image> {
    if xs == [] then [] else (if xs[0].repoDigests != [] then [xs[0]] else []) + WithDigest(xs[1..])
  }

  /** By digest, since keeps of the prefix before the named digest the images that have a digest. */
  lemma {:induction false} SinceDigest(v: string, xs: seq<Image>, k: nat)
    requires ByDigest(v) && k <= |xs|
    requires forall i :: 0 <= i < k && xs[i].repoDigests != [] ==> !HasPrefix(xs[i].repoDigests[0], v)
    requires k < |xs| ==> xs[k].repoDigests != [] && HasPrefix(xs[k].repoDigests[0], v)
    ensures Cut(VerdictOf(v), xs) == WithDigest(xs[..k])
  {
    if k > 0 {
      SinceDigest(v, xs[1..], k - 1);
      assert xs[..k] == [xs[0]] + xs[1..][..k - 1];
    }
  }

  lemma {:induction false} WithDigestConcat(a: seq<Image>, b: seq<Image>)
    ensures WithDigest(a + b) == WithDigest(a) + WithDigest(b)
  {
    if a == [] {
      assert a + b == b;
    } else {
      assert (a + b)[1..] == a[1..] + b;
      WithDigestConcat(a[1..], b);
    }
  }

  lemma ReversedCons<T>(x: T, rest: seq<T>)
    ensures Reversed([x] + rest) == Reversed(rest) + [x]
  {
  }

  lemma {:induction false} WithDigestReversed(xs: seq<Image>)
    ensures WithDigest(Reversed(xs)) == Reversed(WithDigest(xs))
  {
    if xs != [] {
      var x, rest := xs[0], xs[1..];
      assert xs == [x] + rest;
      ReversedCons(x, rest);
      WithDigestConcat(Reversed(rest), [x]);
      WithDigestReversed(rest);
      ReversedCons(x, WithDigest(rest));
      assert [x][1..] == [];
      assert WithDigest([x]) == if x.repoDigests != [] then [x] else [];
      assert WithDigest(xs) == if x.repoDigests != [] then [x] + WithDigest(rest) else WithDigest(rest);
    }
  }

  /** By digest, before keeps of the suffix after the last named digest the images that have a digest. */
  lemma BeforeDigest(res: Regexps, v: string, xs: seq<Image>, k: nat)
    requires ByDigest(v) && k <= |xs|
    requires forall i :: k <= i < |xs| && xs[i].repoDigests != [] ==> !HasPrefix(xs[i].repoDigests[0], v)
    requires k > 0 ==> xs[k - 1].repoDigests != [] && HasPrefix(xs[k - 1].repoDigests[0], v)
    ensures Apply(res, Before(v), xs) == Ok(WithDigest(xs[k..]))
  {
    var ys, j := Reversed(xs), |xs| - k;
    SinceDigest(v, ys, j);
    assert ys[..j] == Reversed(xs[k..]);
    WithDigestReversed(xs[k..]);
    assert Reversed(Reversed(WithDigest(xs[k..]))) == WithDigest(xs[k..]);
  }

  // ---------- results are subsequences

  /** `at` places each image of `xs` in `ys`, in order. */
  ghost predicate Embeds(xs: seq<Image>, ys: seq<Image>, at: seq<nat>) {
    && |at| == |xs|
    && (forall i :: 0 <= i < |at| ==> at[i] < |ys| && xs[i] == ys[at[i]])
    && (forall i, j :: 0 <= i < j < |at| ==> at[i] < at[j])
  }

  ghost predicate Subsequence(xs: seq<Image>, ys: seq<Image>) {
    exists at :: Embeds(xs, ys, at)
  }

  function Shifted(at: seq<nat>, n: nat): (r: seq<nat>)
    ensures |r| == |at| && forall i :: 0 <= i < |at| ==> r[i] == at[i] + n
  {
    seq(|at|, i requires 0 <= i < |at| => at[i] + n)
  }

  lemma EmbedsCons(xs: seq<Image>, ys: seq<Image>, at: seq<nat>)
    requires Embeds(xs, ys, at) && ys != [] && forall i :: 0 <= i < |at| ==> at[i] > 0
    ensures Subsequence([ys[0]] + xs, ys)
  {
    assert Embeds([ys[0]] + xs, ys, [0] + at);
  }

  lemma SubsequenceTail(xs: seq<Image>, ys: seq<Image>)
    requires ys != [] && Subsequence(xs, ys[1..])
    ensures Subsequence(xs, ys) && Subsequence([ys[0]] + xs, ys)
  {
    var at :| Embeds(xs, ys[1..], at);
    var bt := Shifted(at, 1);
    assert Embeds(xs, ys, bt) by {
      forall i | 0 <= i < |bt| ensures bt[i] < |ys| && xs[i] == ys[bt[i]] {
        assert ys[1..][at[i]] == ys[bt[i]];
      }
    }
    EmbedsCons(xs, ys, bt);
  }

  lemma SubsequenceTransitive(xs: seq<Image>, ys: seq<Image>, zs: seq<Image>)
    requires Subsequence(xs, ys) && Subsequence(ys, zs)
    ensures Subsequence(xs, zs)
  {
    var at :| Embeds(xs, ys, at);
    var bt :| Embeds(ys, zs, bt);
    assert Embeds(xs, zs, seq(|at|, i requires 0 <= i < |at| => bt[at[i]]));
  }

  lemma SubsequenceReversed(xs: seq<Image>, ys: seq<Image>)
    requires Subsequence(xs, ys)
    ensures Subsequence(Reversed(xs), Reversed(ys))
  {
    var at :| Embeds(xs, ys, at);
    var bt: seq<nat> := seq(|at|, i requires 0 <= i < |at| => |ys| - 1 - at[|at| - 1 - i]);
    assert Embeds(Reversed(xs), Reversed(ys), bt);
  }

  lemma EmptySubsequence(ys: seq<Image>)
    ensures Subsequence([], ys)
  {
    assert Embeds([], ys, []);
  }

  lemma {:induction false} CutSubsequence(verdict: Image -> Verdict, xs: seq<Image>)
    ensures Subsequence(Cut(verdict, xs), xs)
  {
    EmptySubsequence(xs);
    if xs != [] {
      CutSubsequence(verdict, xs[1..]);
      SubsequenceTail(Cut(verdict, xs[1..]), xs);
    }
  }

  lemma {:induction false} KeptSubsequence(keep: Image -> bool, xs: seq<Image>)
    ensures Subsequence(Kept(keep, xs), xs)
  {
    EmptySubsequence(xs);
    if xs != [] {
      KeptSubsequence(keep, xs[1..]);
      SubsequenceTail(Kept(keep, xs[1..]), xs);
    }
  }

  lemma ApplySubsequence(res: Regexps, f: Filter, xs: seq<Image>)
    ensures Apply(res, f, xs).Ok? ==> Subsequence(Apply(res, f, xs).value, xs)
  {
    match f
    case Before(v) =>
      CutSubsequence(VerdictOf(v), Reversed(xs));
      SubsequenceReversed(Cut(VerdictOf(v), Reversed(xs)), Reversed(xs));
      assert Reversed(Reversed(xs)) == xs;
    case Since(v) => CutSubsequence(VerdictOf(v), xs);
    case Dangling(_) => KeptSubsequence(PassesOf(res, f), xs);
    case Reference(_) => KeptSubsequence(PassesOf(res, f), xs);
    case Unknown(_) =>
  }

  /** Whatever the chain of filters, its result is a subsequence of the list it was given. */
  lemma {:induction false} ChainGivesSubsequence(res: Regexps, fs: seq<Filter>, xs: seq<Image>)
    ensures ApplyAll(res, fs, xs).Ok? ==> Subsequence(ApplyAll(res, fs, xs).value, xs)
    decreases |fs|
  {
    if fs == [] {
      assert Embeds(xs, xs, seq(|xs|, i => i));
    } else if Apply(res, fs[0], xs).Ok? {
      var ys := Apply(res, fs[0], xs).value;
      ApplySubsequence(res, fs[0], xs);
      ChainGivesSubsequence(res, fs[1..], ys);
      if ApplyAll(res, fs[1..], ys).Ok? {
        SubsequenceTransitive(ApplyAll(res, fs[1..], ys).value, ys, xs);
      }
    }
  }

  // ---------- filter algebra

  lemma {:induction false} CutTwice(verdict: Image -> Verdict, xs: seq<Image>)
    ensures Cut(verdict, Cut(verdict, xs)) == Cut(verdict, xs)
  {
    if xs != [] {
      CutTwice(verdict, xs[1..]);
    }
  }

  lemma ApplyFirst(res: Regexps, f: Filter, fs: seq<Filter>, xs: seq<Image>)
    requires Apply(res, f, xs).Ok?
    ensures ApplyAll(res, [f] + fs, xs) == ApplyAll(res, fs, Apply(res, f, xs).value)
  {
  }

  lemma ApplyTwo(res: Regexps, f: Filter, g: Filter, xs: seq<Image>)
    requires Apply(res, f, xs).Ok?
    ensures ApplyAll(res, [f, g], xs) == Apply(res, g, Apply(res, f, xs).value)
    ensures ApplyAll(res, [f], xs) == Apply(res, f, xs)
  {
    ApplyFirst(res, f, [g], xs);
    ApplyFirst(res, f, [], xs);
    var ys := Apply(res, f, xs).value;
    if Apply(res, g, ys).Ok? {
      ApplyFirst(res, g, [], ys);
    }
    assert [f] == [f] + [] && [g] == [g] + [] && [f, g] == [f] + [g];
  }

  /** Since and before filters are idempotent, in every form of their value. */
  lemma CutsAreIdempotent(res: Regexps, f: Filter, xs: seq<Image>)
    requires f.Since? || f.Before?
    ensures ApplyAll(res, [f, f], xs) == ApplyAll(res, [f], xs)
  {
    ApplyTwo(res, f, f, xs);
    if f.Since? {
      CutTwice(VerdictOf(f.v), xs);
    } else {
      CutTwice(VerdictOf(f.v), Reversed(xs));
      var ys := Cut(VerdictOf(f.v), Reversed(xs));
      assert Reversed(Reversed(ys)) == ys;
    }
  }

  lemma {:induction false} CutsCommute(verdict: Image -> Verdict, verdict': Image -> Verdict, xs: seq<Image>)
    requires forall img :: verdict(img) == Skip <==> verdict'(img) == Skip
    ensures Cut(verdict, Cut(verdict', xs)) == Cut(verdict', Cut(verdict, xs))
  {
    if xs != [] {
      CutsCommute(verdict, verdict', xs[1..]);
    }
  }

  /** The two values pass over the same images: both are in tag or id form, or both in digest form. */
  predicate SameForm(v: string, w: string) {
    (ByDigest(v) && ByDigest(w)) || ((ByTag(v) || ById(v)) && (ByTag(w) || ById(w)))
  }

  lemma SameFormSkips(v: string, w: string, img: Image)
    requires SameForm(v, w)
    ensures VerdictOf(v)(img) == Skip <==> VerdictOf(w)(img) == Skip
  {
  }

  predicate BothCuts(f: Filter, g: Filter) {
    (f.Since? && g.Since?) || (f.Before? && g.Before?)
  }

  /** The two orders of two filters, on a list and as cuts of the list that is passed through. */
  lemma TwoCuts(res: Regexps, f: Filter, g: Filter, xs: seq<Image>)
    requires BothCuts(f, g)
    ensures var r := Cut(VerdictOf(g.v), Cut(VerdictOf(f.v), if f.Since? then xs else Reversed(xs)));
            ApplyAll(res, [f, g], xs) == Ok(if f.Since? then r else Reversed(r))
  {
    ApplyTwo(res, f, g, xs);
    if f.Before? {
      var ys := Cut(VerdictOf(f.v), Reversed(xs));
      assert Reversed(Reversed(ys)) == ys;
    }
  }

  /** Two since filters, or two before filters, commute if their values have the same form. */
  lemma SameCutsCommute(res: Regexps, f: Filter, g: Filter, xs: seq<Image>)
    requires BothCuts(f, g) && SameForm(f.v, g.v)
    ensures ApplyAll(res, [f, g], xs) == ApplyAll(res, [g, f], xs)
  {
    TwoCuts(res, f, g, xs);
    TwoCuts(res, g, f, xs);
    forall img ensures VerdictOf(f.v)(img) == Skip <==> VerdictOf(g.v)(img) == Skip {
      SameFormSkips(f.v, g.v, img);
    }
    CutsCommute(VerdictOf(f.v), VerdictOf(g.v), if f.Since? then xs else Reversed(xs));
  }

  /** The filters that look at one image at a time. */
  predicate Independent(f: Filter) {
    f.Dangling? || f.Reference?
  }

  predicate Usable(res: Regexps, f: Filter) {
    f.Reference? ==> res.valid(f.v)
  }

  predicate AllUsable(res: Regexps, fs: seq<Filter>) {
    forall f :: f in fs ==> Usable(res, f)
  }

  predicate PassesAll(res: Regexps, fs: seq<Filter>, img: Image) {
    forall f :: f in fs ==> Passes(res, f, img)
  }

  function PassesAllOf(res: Regexps, fs: seq<Filter>): Image -> bool {
    (img: Image) => PassesAll(res, fs, img)
  }

  lemma {:induction false} KeptTwice(keep: Image -> bool, keep': Image -> bool, both: Image -> bool, xs: seq<Image>)
    requires forall img :: both(img) <==> keep(img) && keep'(img)
    ensures Kept(keep', Kept(keep, xs)) == Kept(both, xs)
  {
    if xs != [] {
      KeptTwice(keep, keep', both, xs[1..]);
    }
  }

  lemma {:induction false} KeptSame(keep: Image -> bool, keep': Image -> bool, xs: seq<Image>)
    requires forall img :: keep(img) <==> keep'(img)
    ensures Kept(keep, xs) == Kept(keep', xs)
  {
    if xs != [] {
      KeptSame(keep, keep', xs[1..]);
    }
  }

  lemma {:induction false} KeptEverything(keep: Image -> bool, xs: seq<Image>)
    requires forall img :: keep(img)
    ensures Kept(keep, xs) == xs
  {
    if xs != [] {
      KeptEverything(keep, xs[1..]);
    }
  }

  lemma Members(fs: seq<Filter>)
    requires fs != []
    ensures forall f :: f in fs <==> f == fs[0] || f in fs[1..]
  {
  }

  /** Dangling and reference filters in a row are one filter that asks for all of them, if all patterns are valid. */
  lemma {:induction false} ChainIsConjunction(res: Regexps, fs: seq<Filter>, xs: seq<Image>)
    requires forall f :: f in fs ==> Independent(f)
    ensures ApplyAll(res, fs, xs).Ok? <==> AllUsable(res, fs)
    ensures ApplyAll(res, fs, xs).Ok? ==> ApplyAll(res, fs, xs).value == Kept(PassesAllOf(res, fs), xs)
    decreases |fs|
  {
    if fs == [] {
      KeptEverything(PassesAllOf(res, fs), xs);
    } else {
      var first, rest := fs[0], fs[1..];
      Members(fs);
      assert first in fs;
      if Usable(res, first) {
        var ys := Kept(PassesOf(res, first), xs);
        assert Apply(res, first, xs) == Ok(ys);
        assert ApplyAll(res, fs, xs) == ApplyAll(res, rest, ys);
        ChainIsConjunction(res, rest, ys);
        assert AllUsable(res, fs) <==> AllUsable(res, rest);
        forall img ensures PassesAllOf(res, fs)(img) <==> PassesOf(res, first)(img) && PassesAllOf(res, rest)(img) {
        }
        KeptTwice(PassesOf(res, first), PassesAllOf(res, rest), PassesAllOf(res, fs), xs);
      }
    }
  }

  /** The order of dangling and reference filters, and how often each is given, do not matter. */
  lemma ChainOrderIrrelevant(res: Regexps, fs: seq<Filter>, gs: seq<Filter>, xs: seq<Image>)
    requires forall f :: f in fs ==> Independent(f)
    requires forall f :: f in fs <==> f in gs
    ensures ApplyAll(res, fs, xs).Ok? <==> ApplyAll(res, gs, xs).Ok?
    ensures ApplyAll(res, fs, xs).Ok? ==> ApplyAll(res, fs, xs).value == ApplyAll(res, gs, xs).value
  {
    ChainIsConjunction(res, fs, xs);
    ChainIsConjunction(res, gs, xs);
    KeptSame(PassesAllOf(res, fs), PassesAllOf(res, gs), xs);
  }

  /** The values with which a since or before filter keeps nothing: every image ends it, or fits none of the forms. */
  predicate KeepsNothing(v: string) {
    v == "" || (':' !in v && '@' in v)
  }

  lemma {:induction false} CutNothing(v: string, xs: seq<Image>)
    requires KeepsNothing(v)
    ensures Cut(VerdictOf(v), xs) == []
  {
    if xs != [] && v != "" {
      CutNothing(v, xs[1..]);
    }
  }

  ghost predicate Commute(res: Regexps, f: Filter, g: Filter) {
    forall xs: seq<Image> :: ApplyAll(res, [f, g], xs) == ApplyAll(res, [g, f], xs)
  }

  lemma NothingCommutes(res: Regexps, f: Filter, g: Filter, xs: seq<Image>)
    requires BothCuts(f, g) && KeepsNothing(f.v)
    ensures ApplyAll(res, [f, g], xs) == ApplyAll(res, [g, f], xs)
  {
    TwoCuts(res, f, g, xs);
    TwoCuts(res, g, f, xs);
    var ys := if f.Since? then xs else Reversed(xs);
    CutNothing(f.v, ys);
    CutNothing(f.v, Cut(VerdictOf(g.v), ys));
  }

  /** An image without digest that ends a filter in tag or id form. */
  function Ending(v: string): Image {
    if ByTag(v) then Image("", [v], [], false) else Image(v, [], [], false)
  }

  /** An image that the filter keeps, and that every filter in digest form keeps. */
  function Passing(v: string): Image {
    Image("", [if v == "x:" then "y:" else "x:"], [""], false)
  }

  lemma EndingAndPassing(v: string, w: string)
    requires (ByTag(v) || ById(v)) && v != "" && ByDigest(w)
    ensures Examine(v, Ending(v)) == Stop && Examine(v, Passing(v)) == Keep
    ensures Examine(w, Ending(v)) == Skip && Examine(w, Passing(v)) == Keep
  {
    if ByTag(v) {
      var tag, name := Passing(v).repoTags[0], RepoDigest([""]).0;
      assert tag[1] == ':';
      assert |TagName(tag)| == 1;
      RejoinGivesTag(v, NONE);
      RejoinGivesTag(tag, name);
    }
  }

  lemma OrderShows(p: Image -> Verdict, q: Image -> Verdict, e: Image, k: Image)
    requires p(e) == Stop && p(k) == Keep && q(e) == Skip && q(k) == Keep
    ensures Cut(q, Cut(p, [e, k])) == [] && Cut(p, Cut(q, [e, k])) == [k]
  {
    var xs, tail := [e, k], [k];
    assert xs[1..] == tail && tail[1..] == [];
    assert Cut(p, tail) == [k] + Cut(p, tail[1..]) == [k];
    assert Cut(q, tail) == [k] + Cut(q, tail[1..]) == [k];
    assert Cut(p, xs) == [] && Cut(q, xs) == Cut(q, xs[1..]);
  }

  lemma FormsDiffer(res: Regexps, f: Filter, g: Filter)
    requires BothCuts(f, g)
    requires (ByTag(f.v) || ById(f.v)) && f.v != "" && ByDigest(g.v)
    ensures exists xs: seq<Image> :: ApplyAll(res, [f, g], xs) != ApplyAll(res, [g, f], xs)
  {
    var e, k := Ending(f.v), Passing(f.v);
    EndingAndPassing(f.v, g.v);
    OrderShows(VerdictOf(f.v), VerdictOf(g.v), e, k);
    var xs := if f.Since? then [e, k] else [k, e];
    assert f.Before? ==> Reversed(xs) == [e, k];
    TwoCuts(res, f, g, xs);
    TwoCuts(res, g, f, xs);
    assert |Reversed([k])| == 1 && |Reversed<Image>([])| == 0;
    assert ApplyAll(res, [f, g], xs) != ApplyAll(res, [g, f], xs);
  }

  /**
   When two since filters, or two before filters, commute on all lists: exactly if their values have the same form, or
   one of them keeps nothing anyway. An image without digest ends a filter by tag or id but is passed over by digest.
   */
  lemma CutsCommuteExactly(res: Regexps, f: Filter, g: Filter)
    requires BothCuts(f, g)
    ensures Commute(res, f, g) <==> SameForm(f.v, g.v) || KeepsNothing(f.v) || KeepsNothing(g.v)
  {
    if SameForm(f.v, g.v) || KeepsNothing(f.v) || KeepsNothing(g.v) {
      forall xs: seq<Image> ensures ApplyAll(res, [f, g], xs) == ApplyAll(res, [g, f], xs) {
        if SameForm(f.v, g.v) {
          SameCutsCommute(res, f, g, xs);
        } else if KeepsNothing(f.v) {
          NothingCommutes(res, f, g, xs);
        } else {
          NothingCommutes(res, g, f, xs);
        }
      }
    } else if ByDigest(g.v) {
      FormsDiffer(res, f, g);
    } else {
      FormsDiffer(res, g, f);
    }
  }

  // ---------- the filters in plain text

  /** The name of an image, by its first digest: what is before the one `@`, or a stand-in. */
  ghost predicate IsName(name: string, img: Image) {
    if img.repoDigests == [] then name == "<none>"
    else if Count(img.repoDigests[0], '@') != 1 then name == "errorName"
    else '@' !in name && exists digest: string :: img.repoDigests[0] == name + "@" + digest
  }

  lemma DigestParts(first: string)
    requires Count(first, '@') == 1
    ensures var (name, digest) := RepoDigest([first]); '@' !in name && first == name + "@" + digest
  {
    SplitPieces(first, '@');
    var pair := Split(first, '@');
    assert Join(pair[1..], '@') == pair[1];
  }

  /** RepoDigest gives the name, and with it the digest. */
  lemma NameOfDigest(img: Image, name: string)
    ensures IsName(name, img) <==> name == RepoDigest(img.repoDigests).0
    ensures img.repoDigests == [] ==> RepoDigest(img.repoDigests).1 == "<none>"
    ensures img.repoDigests != [] && Count(img.repoDigests[0], '@') != 1 ==>
              RepoDigest(img.repoDigests).1 == "errorRepoDigest"
    ensures img.repoDigests != [] && Count(img.repoDigests[0], '@') == 1 && IsName(name, img) ==>
              img.repoDigests[0] == name + "@" + RepoDigest(img.repoDigests).1
  {
    if img.repoDigests != [] {
      var first := img.repoDigests[0];
      SplitPieces(first, '@');
      assert RepoDigest(img.repoDigests) == RepoDigest([first]);
      if Count(first, '@') == 1 {
        DigestParts(first);
        var (n, d) := RepoDigest([first]);
        CutConcat(n, '@', d);
        if IsName(name, img) {
          var digest: string :| first == name + "@" + digest;
          CutConcat(name, '@', digest);
        }
      }
    }
  }

  /** What a tag is taken apart into: the name, or its replacement, and what follows the last colon. */
  lemma PairOfTag(tag: string, imageName: string)
    ensures ':' !in tag ==> TagPair(tag, imageName) == ("errorRepoTag", "errorRepoTag")
    ensures ':' in tag ==>
              var (name, version) := TagPair(tag, imageName);
              && ':' !in version
              && (tag == name + ":" + version || (tag == "<none>:" + version && name == imageName))
  {
    if ':' in tag {
      var idx := LastIndex(tag, ':').value;
      assert tag == tag[..idx] + ":" + tag[idx + 1..];
      assert forall i :: idx < i < |tag| ==> tag[i] == tag[idx + 1..][i - idx - 1];
    }
  }

  /** The name followed by some text. */
  ghost predicate IsNameWith(text: string, img: Image, tail: string) {
    exists name :: IsName(name, img) && text == name + tail
  }

  /** The first tag of an image as a since or before filter compares it. */
  ghost predicate IsTag(text: string, img: Image) {
    if img.repoTags == [] then IsNameWith(text, img, ":<none>")
    else
      var tag := img.repoTags[0];
      if ':' !in tag then text == "errorRepoTag:errorRepoTag"
      else if "<none>:" <= tag && ':' !in tag[7..] then IsNameWith(text, img, tag[6..])
      else text == tag
  }

  lemma LastColon(tag: string, i: nat)
    requires i < |tag| && tag[i] == ':' && ':' !in tag[i + 1..]
    ensures LastIndex(tag, ':') == Some(i)
  {
    forall j | i < j < |tag| ensures tag[j] != ':' {
      assert tag[j] == tag[i + 1..][j - i - 1];
    }
  }

  lemma NoneIsReplaced(tag: string)
    requires ':' in tag
    ensures TagName(tag) == NONE <==> "<none>:" <= tag && ':' !in tag[7..]
  {
    var idx := LastIndex(tag, ':').value;
    assert forall i :: idx < i < |tag| ==> tag[i] == tag[idx + 1..][i - idx - 1];
    if "<none>:" <= tag && ':' !in tag[7..] {
      LastColon(tag, 6);
      assert tag[..6] == NONE;
    }
    if TagName(tag) == NONE {
      assert tag[..7] == NONE + ":";
    }
  }

  lemma NameWith(img: Image, tail: string, text: string)
    ensures IsNameWith(text, img, tail) <==> text == RepoDigest(img.repoDigests).0 + tail
  {
    var imageName := RepoDigest(img.repoDigests).0;
    NameOfDigest(img, imageName);
    if IsNameWith(text, img, tail) {
      var name :| IsName(name, img) && text == name + tail;
      NameOfDigest(img, name);
    }
  }

  lemma ReplacedPair(tag: string, imageName: string)
    requires "<none>:" <= tag && ':' !in tag[7..]
    ensures Rejoined(TagPair(tag, imageName)) == imageName + tag[6..]
  {
    LastColon(tag, 6);
    assert tag[..6] == NONE;
    assert tag[6..] == ":" + tag[7..];
  }

  lemma KeptPair(tag: string, imageName: string)
    requires ':' in tag && !("<none>:" <= tag && ':' !in tag[7..])
    ensures Rejoined(TagPair(tag, imageName)) == tag
  {
    NoneIsReplaced(tag);
    RejoinGivesTag(tag, imageName);
  }

  lemma TagOfImage(img: Image, text: string)
    ensures IsTag(text, img) <==> text == Rejoined(TagPairs(img.repoTags, RepoDigest(img.repoDigests).0)[0])
  {
    if img.repoTags == [] {
      NameWith(img, ":<none>", text);
      assert RepoDigest(img.repoDigests).0 + ":<none>" == Rejoined((RepoDigest(img.repoDigests).0, NONE));
    } else if ':' in img.repoTags[0] {
      var tag, imageName := img.repoTags[0], RepoDigest(img.repoDigests).0;
      if "<none>:" <= tag && ':' !in tag[7..] {
        NameWith(img, tag[6..], text);
        ReplacedPair(tag, imageName);
      } else {
        KeptPair(tag, imageName);
      }
    } else {
      assert "errorRepoTag:errorRepoTag" == Rejoined(("errorRepoTag", "errorRepoTag"));
    }
  }

  /** What each flag means to the parser of flags. */
  lemma FlagsParsed(v: string)
    ensures ParseFilter("before=" + v) == Before(v) && ParseFilter("since=" + v) == Since(v)
    ensures ParseFilter("dangling=" + v) == Dangling(v) && ParseFilter("reference=" + v) == Reference(v)
  {
    assert ("since=" + v)[0] == 's' && ("dangling=" + v)[0] == 'd' && ("reference=" + v)[0] == 'r';
    assert ("before=" + v)[7..] == v && ("since=" + v)[6..] == v;
    assert ("dangling=" + v)[9..] == v && ("reference=" + v)[10..] == v;
  }

  lemma OneFlag(res: Regexps, flag: string, xs: seq<Image>)
    ensures Filtered(res, [flag], xs) == Apply(res, ParseFilter(flag), xs)
  {
    var f := ParseFilter(flag);
    var fs := Parsed([flag]);
    assert fs == [f] && fs[1..] == [];
    if Apply(res, f, xs).Ok? {
      assert ApplyAll(res, fs[1..], Apply(res, f, xs).value) == Apply(res, f, xs);
    }
  }

  /** Flags are applied in the order in which they are given, up to the first error. */
  lemma FlagsInOrder(res: Regexps, flag: string, flags: seq<string>, xs: seq<Image>)
    ensures Filtered(res, [], xs) == Ok(xs)
    ensures Filtered(res, [flag] + flags, xs) ==
            match Filtered(res, [flag], xs) case Err(e) => Err(e) case Ok(ys) => Filtered(res, flags, ys)
  {
    OneFlag(res, flag, xs);
    assert Parsed([flag] + flags) == [ParseFilter(flag)] + Parsed(flags);
    assert ([ParseFilter(flag)] + Parsed(flags))[1..] == Parsed(flags);
    assert Parsed([]) == [];
  }

  /** The image that a value without `@` means: by its first tag if there is a colon, and else by its id. */
  ghost predicate Hits(v: string, img: Image) {
    if ':' in v then IsTag(v, img) else v <= img.id
  }

  lemma HitsNamed(v: string, img: Image)
    requires '@' !in v
    ensures Hits(v, img) <==> Named(v, img)
  {
    TagOfImage(img, v);
  }

  /** `since=v`: the images before the first that `v` means. */
  lemma SinceFlag(res: Regexps, v: string, xs: seq<Image>, k: nat)
    requires '@' !in v && k <= |xs|
    requires (forall i :: 0 <= i < k ==> !Hits(v, xs[i])) && (k < |xs| ==> Hits(v, xs[k]))
    ensures Filtered(res, ["since=" + v], xs) == Ok(xs[..k])
  {
    OneFlag(res, "since=" + v, xs);
    FlagsParsed(v);
    forall i | 0 <= i < |xs| ensures Hits(v, xs[i]) <==> Named(v, xs[i]) {
      HitsNamed(v, xs[i]);
    }
    SincePrefix(res, v, xs, k);
  }

  /** `before=v`: the images after the last that `v` means. */
  lemma BeforeFlag(res: Regexps, v: string, xs: seq<Image>, k: nat)
    requires '@' !in v && k <= |xs|
    requires (forall i :: k <= i < |xs| ==> !Hits(v, xs[i])) && (k > 0 ==> Hits(v, xs[k - 1]))
    ensures Filtered(res, ["before=" + v], xs) == Ok(xs[k..])
  {
    OneFlag(res, "before=" + v, xs);
    FlagsParsed(v);
    forall i | 0 <= i < |xs| ensures Hits(v, xs[i]) <==> Named(v, xs[i]) {
      HitsNamed(v, xs[i]);
    }
    BeforeSuffix(res, v, xs, k);
  }

  ghost predicate HitsDigest(v: string, img: Image) {
    img.repoDigests != [] && v <= img.repoDigests[0]
  }

  /** The same by digest, where images without digest are left out; and a value with `@` but no colon leaves nothing. */
  lemma DigestFlags(res: Regexps, v: string, xs: seq<Image>, k: nat)
    requires '@' in v && k <= |xs|
    ensures ':' !in v ==>
              Filtered(res, ["since=" + v], xs) == Ok([]) && Filtered(res, ["before=" + v], xs) == Ok([])
    ensures ':' in v
            && (forall i :: 0 <= i < k ==> !HitsDigest(v, xs[i])) && (k < |xs| ==> HitsDigest(v, xs[k])) ==>
              Filtered(res, ["since=" + v], xs) == Ok(WithDigest(xs[..k]))
    ensures ':' in v
            && (forall i :: k <= i < |xs| ==> !HitsDigest(v, xs[i])) && (k > 0 ==> HitsDigest(v, xs[k - 1])) ==>
              Filtered(res, ["before=" + v], xs) == Ok(WithDigest(xs[k..]))
  {
    OneFlag(res, "since=" + v, xs);
    OneFlag(res, "before=" + v, xs);
    FlagsParsed(v);
    if ':' !in v {
      CutNothing(v, xs);
      CutNothing(v, Reversed(xs));
    } else {
      if (forall i :: 0 <= i < k ==> !HitsDigest(v, xs[i])) && (k < |xs| ==> HitsDigest(v, xs[k])) {
        SinceDigest(v, xs, k);
      }
      if (forall i :: k <= i < |xs| ==> !HitsDigest(v, xs[i])) && (k > 0 ==> HitsDigest(v, xs[k - 1])) {
        BeforeDigest(res, v, xs, k);
      }
    }
  }

  lemma {:induction false} KeptCounts(keep: Image -> bool, xs: seq<Image>, img: Image)
    ensures multiset(Kept(keep, xs))[img] == if keep(img) then multiset(xs)[img] else 0
  {
    if xs != [] {
      assert xs == [xs[0]] + xs[1..];
      KeptCounts(keep, xs[1..], img);
    }
  }

  /** `ys` has, in the order of `xs`, each image as often as `xs` has it if it is `wanted`, and no other. */
  ghost predicate Selects(ys: seq<Image>, xs: seq<Image>, img: Image, wanted: bool) {
    Subsequence(ys, xs) && multiset(ys)[img] == if wanted then multiset(xs)[img] else 0
  }

  /** `dangling=true` keeps the images without tags, `dangling=false` the others, and any other value none. */
  lemma DanglingFlag(res: Regexps, v: string, xs: seq<Image>, img: Image)
    ensures Filtered(res, ["dangling=" + v], xs).Ok?
    ensures Selects(Filtered(res, ["dangling=" + v], xs).value, xs, img,
              if v == "true" then img.repoTags == [] else if v == "false" then img.repoTags != [] else false)
  {
    OneFlag(res, "dangling=" + v, xs);
    FlagsParsed(v);
    KeptSubsequence(PassesOf(res, Dangling(v)), xs);
    KeptCounts(PassesOf(res, Dangling(v)), xs, img);
  }

  /** `reference=v` keeps the images whose name the pattern matches, or is; a pattern that is not valid is an error. */
  lemma ReferenceFlag(res: Regexps, v: string, xs: seq<Image>, img: Image, name: string)
    requires IsName(name, img)
    ensures !res.valid(v) ==> Filtered(res, ["reference=" + v], xs) == Err(BadRegexp(v))
    ensures res.valid(v) ==>
              && Filtered(res, ["reference=" + v], xs).Ok?
              && Selects(Filtered(res, ["reference=" + v], xs).value, xs, img, res.matches(v, name) || name == v)
  {
    OneFlag(res, "reference=" + v, xs);
    FlagsParsed(v);
    NameOfDigest(img, name);
    KeptSubsequence(PassesOf(res, Reference(v)), xs);
    KeptCounts(PassesOf(res, Reference(v)), xs, img);
  }

  /** Any other flag is an error. */
  lemma UnknownFlag(res: Regexps, flag: string, xs: seq<Image>)
    requires !("before=" <= flag) && !("dangling=" <= flag) && !("reference=" <= flag) && !("since=" <= flag)
    ensures Filtered(res, [flag], xs) == Err(UnknownFilter(flag))
  {
    OneFlag(res, flag, xs);
  }

  // ---------- the order in which images are listed

  /** cmp.Compare on strings: negative, zero or positive. */
  function Compare(a: string, b: string): int {
    if a == [] then (if b == [] then 0 else -1)
    else if b == [] then 1
    else if a[0] < b[0] then -1
    else if b[0] < a[0] then 1
    else Compare(a[1..], b[1..])
  }

  /** The comparator of ListImages: by first tag if both have one, else by first digest if both have one, else by id. */
  function ListOrder(a: Image, b: Image): int {
    if a.repoTags != [] && b.repoTags != [] then Compare(a.repoTags[0], b.repoTags[0])
    else if a.repoDigests != [] && b.repoDigests != [] then Compare(a.repoDigests[0], b.repoDigests[0])
    else Compare(a.id, b.id)
  }

  lemma {:induction false} CompareTransitive(a: string, b: string, c: string)
    requires Compare(a, b) <= 0 && Compare(b, c) <= 0
    ensures Compare(a, c) <= 0
  {
    if a != [] && b != [] && c != [] && a[0] == b[0] && b[0] == c[0] {
      CompareTransitive(a[1..], b[1..], c[1..]);
    }
  }

  ghost predicate DiffersAt(a: string, b: string, k: nat) {
    k <= |a| && k < |b| && a[..k] == b[..k] && (k == |a| || a[k] < b[k])
  }

  /** The order of texts: at the first difference the smaller character decides, and a prefix comes first. */
  ghost predicate Less(a: string, b: string) {
    exists k: nat :: DiffersAt(a, b, k)
  }

  lemma SameHead(a: string, b: string, k: nat)
    requires 0 < k && DiffersAt(a, b, k)
    ensures a[0] == b[0]
  {
    assert a[0] == a[..k][0] && b[0] == b[..k][0];
  }

  lemma {:induction false} CompareIsLess(a: string, b: string)
    ensures Compare(a, b) < 0 <==> Less(a, b)
    ensures Compare(a, b) == 0 <==> a == b
  {
    if a != [] && b != [] && a[0] == b[0] {
      CompareIsLess(a[1..], b[1..]);
      assert a == [a[0]] + a[1..] && b == [b[0]] + b[1..];
      if Less(a[1..], b[1..]) {
        var k: nat :| DiffersAt(a[1..], b[1..], k);
        assert a[..k + 1] == [a[0]] + a[1..][..k] && b[..k + 1] == [b[0]] + b[1..][..k];
        assert DiffersAt(a, b, k + 1);
      }
      if Less(a, b) {
        var k: nat :| DiffersAt(a, b, k);
        assert a[1..][..k - 1] == a[..k][1..] && b[1..][..k - 1] == b[..k][1..];
        assert DiffersAt(a[1..], b[1..], k - 1);
      }
    } else {
      if b != [] && (a == [] || a[0] < b[0]) {
        assert DiffersAt(a, b, 0);
      }
      if Less(a, b) {
        var k: nat :| DiffersAt(a, b, k);
        if k > 0 {
          SameHead(a, b, k);
          assert false;
        }
      }
    }
  }

  /** Images are listed by first tag if both have one, else by first digest if both have one, else by id; ascending. */
  lemma ListOrderInText(a: Image, b: Image)
    ensures a.repoTags != [] && b.repoTags != [] ==> (ListOrder(a, b) < 0 <==> Less(a.repoTags[0], b.repoTags[0]))
    ensures (a.repoTags == [] || b.repoTags == []) && a.repoDigests != [] && b.repoDigests != [] ==>
              (ListOrder(a, b) < 0 <==> Less(a.repoDigests[0], b.repoDigests[0]))
    ensures (a.repoTags == [] || b.repoTags == []) && (a.repoDigests == [] || b.repoDigests == []) ==>
              (ListOrder(a, b) < 0 <==> Less(a.id, b.id))
  {
    CompareIsLess(a.id, b.id);
    if a.repoTags != [] && b.repoTags != [] {
      CompareIsLess(a.repoTags[0], b.repoTags[0]);
    }
    if a.repoDigests != [] && b.repoDigests != [] {
      CompareIsLess(a.repoDigests[0], b.repoDigests[0]);
    }
  }

  /** What decides how an image is compared: whether it has a tag, and whether it has a digest. */
  datatype Shape = Shape(tagged: bool, digested: bool)

  datatype Basis = Tag | Digest | Id

  function ShapeOf(img: Image): Shape {
    Shape(img.repoTags != [], img.repoDigests != [])
  }

  /** By which of their names two images are compared. */
  function BasisOf(a: Shape, b: Shape): Basis {
    if a.tagged && b.tagged then Tag else if a.digested && b.digested then Digest else Id
  }

  ghost predicate TransitiveOn(a: Shape, b: Shape, c: Shape) {
    forall x, y, z ::
      ShapeOf(x) == a && ShapeOf(y) == b && ShapeOf(z) == c && ListOrder(x, y) <= 0 && ListOrder(y, z) <= 0 ==>
        ListOrder(x, z) <= 0
  }

  /** An image of the given shape whose name of the given kind is `key`; its other names are empty. */
  function Keyed(shape: Shape, basis: Basis, key: string): (img: Image)
    ensures ShapeOf(img) == shape
  {
    Image(if basis == Id then key else "",
          if shape.tagged then [if basis == Tag then key else ""] else [],
          if shape.digested then [if basis == Digest then key else ""] else [],
          false)
  }

  /**
   The comparator is transitive on images of three shapes exactly if all three pairs are compared by the same kind of
   name; in particular it is not if two of them have tags and the third has none.
   */
  lemma TransitiveExactly(a: Shape, b: Shape, c: Shape)
    ensures TransitiveOn(a, b, c) <==> BasisOf(a, b) == BasisOf(b, c) == BasisOf(a, c)
  {
    if BasisOf(a, b) == BasisOf(b, c) == BasisOf(a, c) {
      forall x, y, z |
        ShapeOf(x) == a && ShapeOf(y) == b && ShapeOf(z) == c && ListOrder(x, y) <= 0 && ListOrder(y, z) <= 0
        ensures ListOrder(x, z) <= 0
      {
        match BasisOf(a, b)
        case Tag => CompareTransitive(x.repoTags[0], y.repoTags[0], z.repoTags[0]);
        case Digest => CompareTransitive(x.repoDigests[0], y.repoDigests[0], z.repoDigests[0]);
        case Id => CompareTransitive(x.id, y.id, z.id);
      }
    } else {
      var basis := BasisOf(a, c);
      var x, z := Keyed(a, basis, "1"), Keyed(c, basis, "");
      var y := Keyed(b, basis, if BasisOf(a, b) == basis then "1" else "");
      assert Compare("1", "1") == 0;
      assert ListOrder(x, y) <= 0 && ListOrder(y, z) <= 0 && ListOrder(x, z) > 0;
    }
  }

  /** On a list that mixes tagged and untagged images the comparator can go round in a circle. */
  lemma ListOrderCycle()
    ensures var a, b := Image("1", ["a"], ["3"], false), Image("2", ["b"], ["1"], false);
            var c := Image("3", [], ["2"], false);
            ListOrder(a, b) < 0 && ListOrder(b, c) < 0 && ListOrder(c, a) < 0
  {
  }

  // ---------- what the order means for a listing

  ghost predicate Sorted(xs: seq<Image>) {
    forall i, j :: 0 <= i < j < |xs| ==> ListOrder(xs[i], xs[j]) <= 0
  }

  ghost predicate Arranges(ys: seq<Image>, xs: seq<Image>) {
    multiset(ys) == multiset(xs)
  }

  ghost predicate Sortable(xs: seq<Image>) {
    exists ys :: Arranges(ys, xs) && Sorted(ys)
  }

  /** Images of the list, each strictly before the next. */
  ghost predicate Chain(xs: seq<Image>, c: seq<Image>) {
    && (forall i :: 0 <= i < |c| ==> c[i] in xs)
    && (forall i :: 0 <= i < |c| - 1 ==> ListOrder(c[i], c[i + 1]) < 0)
  }

  /** A chain that comes back to where it started. */
  ghost predicate Circle(xs: seq<Image>, c: seq<Image>) {
    |c| >= 2 && Chain(xs, c) && c[0] == c[|c| - 1]
  }

  function NameOf(img: Image, basis: Basis): string
    requires basis == Tag ==> img.repoTags != []
    requires basis == Digest ==> img.repoDigests != []
  {
    match basis
    case Tag => img.repoTags[0]
    case Digest => img.repoDigests[0]
    case Id => img.id
  }

  lemma ListOrderByName(a: Image, b: Image)
    ensures var basis := BasisOf(ShapeOf(a), ShapeOf(b));
            ListOrder(a, b) == Compare(NameOf(a, basis), NameOf(b, basis))
  {
  }

  lemma {:induction false} CompareFlipped(a: string, b: string)
    ensures Compare(a, b) < 0 <==> Compare(b, a) > 0
    ensures Compare(a, a) == 0
  {
    if a != [] {
      CompareFlipped(a[1..], if b != [] then b[1..] else []);
    }
  }

  lemma ListOrderFlipped(a: Image, b: Image)
    ensures ListOrder(a, b) < 0 <==> ListOrder(b, a) > 0
    ensures ListOrder(a, a) == 0
  {
    var basis, own := BasisOf(ShapeOf(a), ShapeOf(b)), BasisOf(ShapeOf(a), ShapeOf(a));
    ListOrderByName(a, b);
    ListOrderByName(b, a);
    ListOrderByName(a, a);
    CompareFlipped(NameOf(a, basis), NameOf(b, basis));
    CompareFlipped(NameOf(a, own), NameOf(a, own));
  }

  /** In a sorted list the last image of a chain comes after the first. */
  lemma {:induction false} ChainAscends(xs: seq<Image>, c: seq<Image>, i: nat, j: nat)
    requires Sorted(xs) && Chain(xs, c) && |c| >= 2
    requires i < |xs| && j < |xs| && xs[i] == c[0] && xs[j] == c[|c| - 1]
    ensures i < j
  {
    var front, b := c[..|c| - 1], c[|c| - 2];
    var m: nat :| m < |xs| && xs[m] == b;
    ListOrderFlipped(b, xs[j]);
    if |c| > 2 {
      ChainAscends(xs, front, i, m);
    } else {
      ListOrderFlipped(xs[i], xs[j]);
    }
  }

  lemma CircleUnsorted(xs: seq<Image>, c: seq<Image>)
    requires Circle(xs, c)
    ensures !Sorted(xs)
  {
    if Sorted(xs) {
      var i: nat :| i < |xs| && xs[i] == c[0];
      ChainAscends(xs, c, i, i);
    }
  }

  // A list without circle has a first image: following predecessors for ever would have to come back somewhere.

  ghost function MemberSet(xs: seq<Image>): set<Image> {
    set img | img in xs
  }

  lemma {:induction false} MembersFew(xs: seq<Image>)
    ensures |MemberSet(xs)| <= |xs|
  {
    if xs != [] {
      MembersFew(xs[1..]);
      assert MemberSet(xs) == {xs[0]} + MemberSet(xs[1..]);
    }
  }

  ghost predicate NoRepeat(c: seq<Image>) {
    forall i, j :: 0 <= i < j < |c| ==> c[i] != c[j]
  }

  lemma {:induction false} NoRepeatSize(c: seq<Image>)
    requires NoRepeat(c)
    ensures |MemberSet(c)| == |c|
  {
    if c != [] {
      NoRepeatSize(c[1..]);
      assert MemberSet(c) == {c[0]} + MemberSet(c[1..]);
      assert c[0] !in c[1..];
    }
  }

  lemma PartOfChain(xs: seq<Image>, c: seq<Image>, i: nat, j: nat)
    requires Chain(xs, c) && i < j < |c| && c[i] == c[j]
    ensures Circle(xs, c[i..j + 1])
  {
  }

  lemma {:induction false} SubsetSmaller(a: set<Image>, b: set<Image>)
    requires a <= b
    ensures |a| <= |b|
  {
    if a != {} {
      var x :| x in a;
      SubsetSmaller(a - {x}, b - {x});
    }
  }

  /** A chain longer than the list passes through some image twice. */
  lemma LongChainHasCircle(xs: seq<Image>, c: seq<Image>)
    requires Chain(xs, c) && |c| > |xs|
    ensures exists d :: Circle(xs, d)
  {
    if NoRepeat(c) {
      NoRepeatSize(c);
      MembersFew(xs);
      assert MemberSet(c) <= MemberSet(xs);
      SubsetSmaller(MemberSet(c), MemberSet(xs));
    } else {
      var i: nat, j: nat :| i < j < |c| && c[i] == c[j];
      PartOfChain(xs, c, i, j);
    }
  }

  ghost predicate IsFirst(xs: seq<Image>, f: nat)
    requires f < |xs|
  {
    forall j :: 0 <= j < |xs| ==> ListOrder(xs[f], xs[j]) <= 0
  }

  /** If every image has one strictly before it, there are chains of any length. */
  lemma {:induction false} ChainOf(xs: seq<Image>, n: nat) returns (c: seq<Image>)
    requires xs != [] && forall f: nat :: f < |xs| ==> !IsFirst(xs, f)
    ensures |c| == n + 1 && Chain(xs, c)
  {
    if n == 0 {
      c := [xs[0]];
    } else {
      var rest := ChainOf(xs, n - 1);
      var f: nat :| f < |xs| && xs[f] == rest[0];
      assert !IsFirst(xs, f);
      var j: nat :| j < |xs| && ListOrder(xs[f], xs[j]) > 0;
      ListOrderFlipped(xs[j], xs[f]);
      c := [xs[j]] + rest;
    }
  }

  lemma FirstExists(xs: seq<Image>) returns (f: nat)
    requires xs != [] && forall c :: !Circle(xs, c)
    ensures f < |xs| && IsFirst(xs, f)
  {
    if forall g: nat :: g < |xs| ==> !IsFirst(xs, g) {
      var c := ChainOf(xs, |xs|);
      LongChainHasCircle(xs, c);
      assert false;
    }
    f :| f < |xs| && IsFirst(xs, f);
  }

  lemma WithoutOne(xs: seq<Image>, f: nat)
    requires f < |xs|
    ensures multiset([xs[f]] + (xs[..f] + xs[f + 1..])) == multiset(xs)
    ensures forall img :: img in xs[..f] + xs[f + 1..] ==> img in xs
  {
    assert xs == xs[..f] + [xs[f]] + xs[f + 1..];
  }

  lemma NoNewCircle(rest: seq<Image>, xs: seq<Image>)
    requires (forall c :: !Circle(xs, c)) && forall img :: img in rest ==> img in xs
    ensures forall c :: !Circle(rest, c)
  {
    forall c ensures !Circle(rest, c) {
      assert Circle(rest, c) ==> Circle(xs, c);
    }
  }

  lemma {:induction false} Arranged(xs: seq<Image>) returns (ys: seq<Image>)
    requires forall c :: !Circle(xs, c)
    ensures Arranges(ys, xs) && Sorted(ys)
    decreases |xs|
  {
    if xs == [] {
      ys := [];
    } else {
      var f := FirstExists(xs);
      var rest := xs[..f] + xs[f + 1..];
      WithoutOne(xs, f);
      NoNewCircle(rest, xs);
      var tail := Arranged(rest);
      forall img | img in tail ensures ListOrder(xs[f], img) <= 0 {
        assert img in multiset(tail) && img in multiset(rest);
      }
      ys := [xs[f]] + tail;
    }
  }

  /**
   A list of images has an arrangement in which every pair is in order if and only if its strict order has no circle.
   Without one a sort can succeed; with one no sort can, whatever it does.
   */
  lemma SortableExactly(xs: seq<Image>)
    ensures Sortable(xs) <==> forall c :: !Circle(xs, c)
  {
    if forall c :: !Circle(xs, c) {
      var ys := Arranged(xs);
      assert Arranges(ys, xs) && Sorted(ys);
    } else {
      var c :| Circle(xs, c);
      forall ys | Arranges(ys, xs) ensures !Sorted(ys) {
        forall i | 0 <= i < |c| ensures c[i] in ys {
          assert c[i] in multiset(xs) && c[i] in multiset(ys);
        }
        CircleUnsorted(ys, c);
      }
    }
  }

  /** Any two images of the list are compared by the same kind of name. */
  ghost predicate ShareBasis(xs: seq<Image>, basis: Basis) {
    forall i, j :: 0 <= i < |xs| && 0 <= j < |xs| && i != j ==> BasisOf(ShapeOf(xs[i]), ShapeOf(xs[j])) == basis
  }

  lemma SharedBasis(xs: seq<Image>, basis: Basis, a: Image, b: Image)
    requires ShareBasis(xs, basis) && a in xs && b in xs && ListOrder(a, b) < 0
    ensures BasisOf(ShapeOf(a), ShapeOf(b)) == basis
    ensures Compare(NameOf(a, basis), NameOf(b, basis)) < 0
  {
    ListOrderFlipped(a, a);
    ListOrderByName(a, b);
    var i: nat :| i < |xs| && xs[i] == a;
    var j: nat :| j < |xs| && xs[j] == b;
    assert i != j;
  }

  lemma {:induction false} CompareStrict(a: string, b: string, c: string)
    requires Compare(a, b) < 0 && Compare(b, c) < 0
    ensures Compare(a, c) < 0
  {
    if a != [] && a[0] == b[0] && b[0] == c[0] {
      CompareStrict(a[1..], b[1..], c[1..]);
    }
  }

  lemma {:induction false} ChainByName(xs: seq<Image>, basis: Basis, c: seq<Image>)
    requires ShareBasis(xs, basis) && Chain(xs, c) && |c| >= 2
    ensures BasisOf(ShapeOf(c[0]), ShapeOf(c[1])) == basis
    ensures BasisOf(ShapeOf(c[|c| - 2]), ShapeOf(c[|c| - 1])) == basis
    ensures Compare(NameOf(c[0], basis), NameOf(c[|c| - 1], basis)) < 0
  {
    SharedBasis(xs, basis, c[|c| - 2], c[|c| - 1]);
    if |c| > 2 {
      ChainByName(xs, basis, c[..|c| - 1]);
      CompareStrict(NameOf(c[0], basis), NameOf(c[|c| - 2], basis), NameOf(c[|c| - 1], basis));
    }
  }

  /** If any two images of a list are compared by the same kind of name, the list can be sorted. */
  lemma SortedArrangement(xs: seq<Image>, basis: Basis)
    requires ShareBasis(xs, basis)
    ensures Sortable(xs)
  {
    forall c ensures !Circle(xs, c) {
      if Circle(xs, c) {
        ChainByName(xs, basis, c);
        CompareFlipped(NameOf(c[0], basis), NameOf(c[0], basis));
      }
    }
    SortableExactly(xs);
  }

  /** The three images of ListOrderCycle cannot be sorted. */
  lemma CycleUnsortable()
    ensures !Sortable([Image("1", ["a"], ["3"], false), Image("2", ["b"], ["1"], false), Image("3", [], ["2"], false)])
  {
    var a, b := Image("1", ["a"], ["3"], false), Image("2", ["b"], ["1"], false);
    var c := Image("3", [], ["2"], false);
    ListOrderCycle();
    assert Circle([a, b, c], [a, b, c, a]);
    SortableExactly([a, b, c]);
  }
}
