/**
The password generator of the web client (frontend/src/lib/passwordGenerator.js):
rejection sampling, one character of every selected pool, and a Fisher-Yates
shuffle in place. The browser's random words are a given finite list; running
out of them is the only way not to return.
*/
module PasswordGenerator {
  import opened Arithmetic
  import opened Wrappers

  const WORDS := 0x1_0000_0000
  type Word = x: int | 0 <= x < WORDS

  // ----- Rejection sampling -------------------------------------------------------

  /** The first word that is not below the rejection bound, reduced. */
  function RandBelow(words: seq<Word>, max: int): (r: Option<(nat, seq<Word>)>)
    requires 1 <= max <= WORDS
    ensures r.Some? ==> r.value.0 < max && |r.value.1| < |words|
  {
    if words == [] then None
    else if words[0] < WORDS % max then RandBelow(words[1..], max)
    else Some((words[0] % max, words[1..]))
  }

  /** The numbers from `low` up to `high` that reduce to `residue`. */
  function Hits(low: int, high: int, max: int, residue: int): set<int>
    requires max > 0
  {
    set v | low <= v < high && v % max == residue
  }

  lemma WindowHitsOnce(low: int, max: int, residue: int) returns (hit: int)
    requires 0 <= residue < max
    ensures Hits(low, low + max, max, residue) == {hit}
  {
    var q := (low - residue + max - 1) / max;
    hit := q * max + residue;
    assert low <= hit < low + max;
    Quotient(q, max, residue);
    var hits := Hits(low, low + max, max, residue);
    forall v | v in hits ensures v == hit {
      if v >= hit { SameResidue(v, hit, max); } else { SameResidue(hit, v, max); }
    }
  }

  lemma {:induction false} HitsPerWindow(low: int, windows: nat, max: int, residue: int)
    requires 0 <= residue < max
    ensures |Hits(low, low + windows * max, max, residue)| == windows
    decreases windows
  {
    if windows == 0 {
      assert Hits(low, low + windows * max, max, residue) == {};
    } else {
      HitsPerWindow(low + max, windows - 1, max, residue);
      var hit := WindowHitsOnce(low, max, residue);
      var rest := Hits(low + max, low + max + (windows - 1) * max, max, residue);
      assert low + max + (windows - 1) * max == low + windows * max;
      assert (windows - 1) * max >= 0;
      assert Hits(low, low + windows * max, max, residue) == Hits(low, low + max, max, residue) + rest;
      assert hit in Hits(low, low + max, max, residue) && hit !in rest;
    }
  }

  /** No modulo bias: among the words that are accepted every residue below
      `max` occurs equally often, and at least once. */
  lemma EveryResidueEquallyOften(max: int, residue: int)
    requires 1 <= max <= WORDS && 0 <= residue < max
    ensures |Hits(WORDS % max, WORDS, max, residue)| == WORDS / max >= 1
  {
    HitsPerWindow(WORDS % max, WORDS / max, max, residue);
    assert WORDS == WORDS % max + (WORDS / max) * max;
    MultipleBound(WORDS / max, max);
  }

  predicate Drawable(bounds: seq<int>) {
    forall i :: 0 <= i < |bounds| ==> 1 <= bounds[i] <= WORDS
  }

  /** One number below each bound, in order. */
  function Draws(words: seq<Word>, bounds: seq<int>): (r: Option<(seq<nat>, seq<Word>)>)
    requires Drawable(bounds)
    ensures r.Some? ==> Within(r.value.0, bounds)
    decreases |bounds|
  {
    if bounds == [] then Some(([], words))
    else
      match RandBelow(words, bounds[0])
      case None => None
      case Some((choice, rest)) =>
        match Draws(rest, bounds[1..])
        case None => None
        case Some((choices, end)) => Some(([choice] + choices, end))
  }

  predicate Within(choices: seq<nat>, bounds: seq<int>) {
    |choices| == |bounds| && forall i :: 0 <= i < |choices| ==> choices[i] < bounds[i]
  }

  class RandomSource {
    var words: seq<Word>

    constructor (given: seq<Word>)
      ensures words == given
    {
      words := given;
    }

    method SecureRandBelow(max: int) returns (r: Option<nat>)
      requires 1 <= max <= WORDS
      modifies this
      ensures match RandBelow(old(words), max)
              case None => r.None? && words == []
              case Some((choice, rest)) => r == Some(choice) && words == rest
    {
      var reject := WORDS % max;
      while words != []
        invariant RandBelow(old(words), max) == RandBelow(words, max)
        decreases |words|
      {
        var v := words[0];
        words := words[1..];
        if v >= reject { return Some(v % max); }
      }
      return None;
    }
  }

  // ----- Shuffle --------------------------------------------------------------------

  function Swapped<T>(s: seq<T>, i: nat, j: nat): (t: seq<T>)
    requires i < |s| && j < |s|
    ensures |t| == |s|
  {
    seq(|s|, k requires 0 <= k < |s| => if k == i then s[j] else if k == j then s[i] else s[k])
  }

  /** The choices of a shuffle of the first `n` places: one of the first n, one
      of the first n - 1, and so on down to 2. */
  predicate ShuffleChoices(n: nat, choices: seq<nat>) {
    |choices| < (if n == 0 then 1 else n) && forall k :: 0 <= k < |choices| ==> choices[k] < n - k
  }

  predicate AllChoices(n: nat, choices: seq<nat>) {
    ShuffleChoices(n, choices) && |choices| == (if n == 0 then 0 else n - 1)
  }

  /** Swaps at the places n - 1, n - 2, ... with the chosen ones. */
  function Swaps<T>(s: seq<T>, n: nat, choices: seq<nat>): (t: seq<T>)
    requires n <= |s| && ShuffleChoices(n, choices)
    ensures |t| == |s|
    decreases |choices|
  {
    if choices == [] then s
    else Swaps(Swapped(s, n - 1, choices[0]), n - 1, choices[1..])
  }

  lemma SwappedKeepsAll<T>(s: seq<T>, i: nat, j: nat)
    requires i < |s| && j < |s|
    ensures multiset(Swapped(s, i, j)) == multiset(s)
  {
    assert Swapped(s, i, j) == s[i := s[j]][j := s[i]];
  }

  lemma {:induction false} SwapsKeepAll<T>(s: seq<T>, n: nat, choices: seq<nat>)
    requires n <= |s| && ShuffleChoices(n, choices)
    ensures multiset(Swaps(s, n, choices)) == multiset(s)
    decreases |choices|
  {
    if choices != [] {
      SwappedKeepsAll(s, n - 1, choices[0]);
      SwapsKeepAll(Swapped(s, n - 1, choices[0]), n - 1, choices[1..]);
    }
  }

  lemma {:induction false} SwapsKeepEnd<T>(s: seq<T>, n: nat, choices: seq<nat>, k: nat)
    requires n <= k < |s| && ShuffleChoices(n, choices)
    ensures Swaps(s, n, choices)[k] == s[k]
    decreases |choices|
  {
    if choices != [] {
      SwapsKeepEnd(Swapped(s, n - 1, choices[0]), n - 1, choices[1..], k);
    }
  }

  predicate Distinct<T(==)>(s: seq<T>) {
    forall i, j :: 0 <= i < j < |s| ==> s[i] != s[j]
  }

  /** The first choice decides the last place. */
  lemma LastPlace<T>(s: seq<T>, n: nat, choices: seq<nat>)
    requires 1 < n <= |s| && AllChoices(n, choices)
    ensures Swaps(s, n, choices)[n - 1] == s[choices[0]]
  {
    SwapsKeepEnd(Swapped(s, n - 1, choices[0]), n - 1, choices[1..], n - 1);
  }

  lemma SwappedDistinct<T>(s: seq<T>, i: nat, j: nat)
    requires i < |s| && j < |s| && Distinct(s)
    ensures Distinct(Swapped(s, i, j))
  {
  }

  /** Different choices give different arrangements of different items. */
  lemma {:induction false} ShuffleInjective<T>(s: seq<T>, n: nat, choices: seq<nat>, others: seq<nat>)
    requires n <= |s| && Distinct(s) && AllChoices(n, choices) && AllChoices(n, others)
    requires Swaps(s, n, choices) == Swaps(s, n, others)
    ensures choices == others
    decreases n
  {
    if n > 1 {
      LastPlace(s, n, choices);
      LastPlace(s, n, others);
      assert choices[0] == others[0];
      SwappedDistinct(s, n - 1, choices[0]);
      ShuffleInjective(Swapped(s, n - 1, choices[0]), n - 1, choices[1..], others[1..]);
      assert choices == [choices[0]] + choices[1..] && others == [others[0]] + others[1..];
    }
  }

  lemma SamePrefix<T>(s: seq<T>, t: seq<T>, n: nat)
    requires multiset(s) == multiset(t) && |s| == |t| && n <= |s| && s[n..] == t[n..]
    ensures multiset(s[..n]) == multiset(t[..n])
  {
    assert s == s[..n] + s[n..] && t == t[..n] + t[n..];
    assert multiset(s) == multiset(s[..n]) + multiset(s[n..]);
    assert multiset(t) == multiset(t[..n]) + multiset(t[n..]);
    var a, b, c := multiset(s[..n]), multiset(t[..n]), multiset(s[n..]);
    assert a + c == b + c;
    assert forall x :: (a + c)[x] == a[x] + c[x] && (b + c)[x] == b[x] + c[x];
  }

  lemma LastItem<T>(s: seq<T>, n: nat, t: seq<T>) returns (j: nat)
    requires 1 < n <= |s| == |t| && multiset(s) == multiset(t) && s[n..] == t[n..]
    ensures j < n && s[j] == t[n - 1] && Swapped(s, n - 1, j)[n - 1..] == t[n - 1..]
  {
    SamePrefix(s, t, n);
    assert t[n - 1] in t[..n];
    assert t[n - 1] in multiset(s[..n]);
    j :| 0 <= j < n && s[j] == t[n - 1];
    assert Swapped(s, n - 1, j)[n - 1..] == [t[n - 1]] + s[n..];
    assert t[n - 1..] == [t[n - 1]] + t[n..];
  }

  lemma OneItem<T>(s: seq<T>, n: nat, t: seq<T>)
    requires n <= 1 && n <= |s| == |t| && multiset(s) == multiset(t) && s[n..] == t[n..]
    ensures s == t
  {
    SamePrefix(s, t, n);
    if n == 1 {
      assert s[..1] == [s[0]] && t[..1] == [t[0]];
      assert s[0] in multiset(t[..1]);
    }
    assert s == s[..n] + s[n..] && t == t[..n] + t[n..];
  }

  lemma SwapFirst<T>(s: seq<T>, n: nat, j: nat, rest: seq<nat>)
    requires 1 < n <= |s| && j < n && AllChoices(n - 1, rest)
    ensures AllChoices(n, [j] + rest)
    ensures Swaps(s, n, [j] + rest) == Swaps(Swapped(s, n - 1, j), n - 1, rest)
  {
    assert ([j] + rest)[1..] == rest;
  }

  /** Every arrangement is the outcome of some choices. */
  lemma {:induction false} ShuffleSurjective<T>(s: seq<T>, n: nat, t: seq<T>) returns (choices: seq<nat>)
    requires n <= |s| == |t| && multiset(s) == multiset(t) && s[n..] == t[n..]
    ensures AllChoices(n, choices) && Swaps(s, n, choices) == t
    decreases n
  {
    if n <= 1 {
      OneItem(s, n, t);
      choices := [];
    } else {
      var j := LastItem(s, n, t);
      SwappedKeepsAll(s, n - 1, j);
      var rest := ShuffleSurjective(Swapped(s, n - 1, j), n - 1, t);
      choices := [j] + rest;
      SwapFirst(s, n, j, rest);
    }
  }

  /** The shuffle is a bijection from choices onto arrangements. */
  lemma ShuffleIsBijection<T>(s: seq<T>, t: seq<T>)
    requires Distinct(s)
    ensures (exists choices :: AllChoices(|s|, choices) && Swaps(s, |s|, choices) == t) <==> multiset(t) == multiset(s)
    ensures forall a, b :: AllChoices(|s|, a) && AllChoices(|s|, b) && Swaps(s, |s|, a) == Swaps(s, |s|, b) ==> a == b
  {
    if multiset(t) == multiset(s) {
      assert |t| == |multiset(t)| && |s| == |multiset(s)|;
      var choices := ShuffleSurjective(s, |s|, t);
    }
    forall choices | AllChoices(|s|, choices) ensures multiset(Swaps(s, |s|, choices)) == multiset(s) {
      SwapsKeepAll(s, |s|, choices);
    }
    forall a, b | AllChoices(|s|, a) && AllChoices(|s|, b) && Swaps(s, |s|, a) == Swaps(s, |s|, b) ensures a == b {
      ShuffleInjective(s, |s|, a, b);
    }
  }

  function ShuffleBounds(n: nat): (bounds: seq<int>)
    requires n <= WORDS
    ensures Drawable(bounds) && |bounds| == (if n == 0 then 0 else n - 1)
    ensures forall k :: 0 <= k < |bounds| ==> bounds[k] == n - k
  {
    if n <= 1 then [] else [n] + ShuffleBounds(n - 1)
  }

  /** What shuffling the first `n` items leaves, and the words left over. */
  function Shuffled<T>(words: seq<Word>, s: seq<T>, n: nat): Option<(seq<T>, seq<Word>)>
    requires n <= |s| && n <= WORDS
  {
    match Draws(words, ShuffleBounds(n))
    case None => None
    case Some((choices, rest)) => Some((Swaps(s, n, choices), rest))
  }

  lemma ShuffledStep<T>(words: seq<Word>, s: seq<T>, n: nat)
    requires 1 < n <= |s| && n <= WORDS
    ensures Shuffled(words, s, n)
         == match RandBelow(words, n)
            case None => None
            case Some((j, rest)) => Shuffled(rest, Swapped(s, n - 1, j), n - 1)
  {
    assert ShuffleBounds(n)[1..] == ShuffleBounds(n - 1);
    match RandBelow(words, n)
    case None =>
    case Some((j, rest)) =>
      match Draws(rest, ShuffleBounds(n - 1))
      case None =>
      case Some((choices, _)) => assert ([j] + choices)[1..] == choices;
  }

  method Swap(a: array<char>, i: nat, j: nat)
    requires i < a.Length && j < a.Length
    modifies a
    ensures a[..] == Swapped(old(a[..]), i, j)
  {
    a[i], a[j] := a[j], a[i];
  }

  /** One pass of the loop, at the place `i`. */
  method ShufflePlace(a: array<char>, i: nat, random: RandomSource) returns (ok: bool)
    requires 0 < i < a.Length <= WORDS
    modifies a, random
    ensures !ok ==> Shuffled(old(random.words), old(a[..]), i + 1).None?
    ensures ok ==> Shuffled(old(random.words), old(a[..]), i + 1) == Shuffled(random.words, a[..], i)
  {
    ShuffledStep(random.words, a[..], i + 1);
    var choice := random.SecureRandBelow(i + 1);
    if choice.None? { return false; }
    Swap(a, i, choice.value);
    return true;
  }

  method ShuffleInPlace(a: array<char>, random: RandomSource) returns (ok: bool)
    requires a.Length <= WORDS
    modifies a, random
    ensures match Shuffled(old(random.words), old(a[..]), a.Length)
            case None => !ok
            case Some((shuffled, rest)) => ok && a[..] == shuffled && random.words == rest
  {
    if a.Length == 0 { return true; }
    var i := a.Length - 1;
    while i > 0
      invariant 0 <= i < a.Length
      invariant Shuffled(old(random.words), old(a[..]), a.Length) == Shuffled(random.words, a[..], i + 1)
    {
      ok := ShufflePlace(a, i, random);
      if !ok { return; }
      i := i - 1;
    }
    return true;
  }

  // ----- The password -----------------------------------------------------------------

  const UPPERCASE := "ABCDEFGHIJKLMNOPQRSTUVWXYZ"
  const LOWERCASE := "abcdefghijklmnopqrstuvwxyz"
  const NUMBERS := "0123456789"
  const SYMBOLS := "!@#$%^&*()-_=+[]{}|;:,.<>?"

  datatype Options = Options(length: int, uppercase: bool, lowercase: bool, numbers: bool, symbols: bool)

  function Pools(o: Options): seq<string> {
    var pools := (if o.uppercase then [UPPERCASE] else []) + (if o.lowercase then [LOWERCASE] else [])
               + (if o.numbers then [NUMBERS] else []) + (if o.symbols then [SYMBOLS] else []);
    if pools == [] then [LOWERCASE] else pools
  }

  function Joined(pools: seq<string>): string {
    if pools == [] then "" else pools[0] + Joined(pools[1..])
  }

  /** Where the character at each place before the shuffle is taken from. */
  function SourcesOf(pools: seq<string>, length: int): (sources: seq<string>)
    ensures |sources| == if length < |pools| then |pools| else length
  {
    pools + (if length < |pools| then [] else seq(length - |pools|, i => Joined(pools)))
  }

  function Sources(o: Options): seq<string> { SourcesOf(Pools(o), o.length) }

  function Size(o: Options): nat { |Sources(o)| }

  predicate Usable(sources: seq<string>) {
    forall i :: 0 <= i < |sources| ==> 1 <= |sources[i]| <= WORDS
  }

  function Lengths(sources: seq<string>): seq<int> {
    seq(|sources|, i requires 0 <= i < |sources| => |sources[i]|)
  }

  function Picked(sources: seq<string>, choices: seq<nat>): (s: string)
    requires Within(choices, Lengths(sources))
    ensures |s| == |sources|
  {
    seq(|sources|, i requires 0 <= i < |sources| => sources[i][choices[i]])
  }

  /** One character of each source, and the words left over. */
  function Pick(words: seq<Word>, sources: seq<string>): Option<(string, seq<Word>)>
    requires Usable(sources)
  {
    match Draws(words, Lengths(sources))
    case None => None
    case Some((choices, rest)) => Some((Picked(sources, choices), rest))
  }

  function Behind(chars: string, picked: Option<(string, seq<Word>)>): Option<(string, seq<Word>)> {
    if picked.None? then None else Some((chars + picked.value.0, picked.value.1))
  }

  lemma BehindNothing(picked: Option<(string, seq<Word>)>)
    ensures Behind("", picked) == picked
  {
    if picked.Some? { assert "" + picked.value.0 == picked.value.0; }
  }

  lemma PickNothing(words: seq<Word>, sources: seq<string>, chars: string)
    requires sources == []
    ensures Behind(chars, Pick(words, sources)) == Some((chars, words))
  {
    assert Lengths(sources) == [] && Picked(sources, []) == "";
    assert chars + "" == chars;
  }

  lemma PickStep(words: seq<Word>, sources: seq<string>, chars: string)
    requires Usable(sources) && sources != []
    ensures Behind(chars, Pick(words, sources))
         == match RandBelow(words, |sources[0]|)
            case None => None
            case Some((j, rest)) => Behind(chars + [sources[0][j]], Pick(rest, sources[1..]))
  {
    assert Lengths(sources)[1..] == Lengths(sources[1..]);
    match RandBelow(words, |sources[0]|)
    case None =>
    case Some((j, rest)) =>
      match Draws(rest, Lengths(sources[1..]))
      case None =>
      case Some((choices, _)) =>
        assert Picked(sources, [j] + choices) == [sources[0][j]] + Picked(sources[1..], choices);
        assert chars + Picked(sources, [j] + choices) == chars + [sources[0][j]] + Picked(sources[1..], choices);
  }

  lemma {:induction false} JoinedLength(pools: seq<string>)
    requires forall i :: 0 <= i < |pools| ==> 1 <= |pools[i]| <= 26
    ensures |pools| <= |Joined(pools)| <= |pools| * 26
  {
    if pools != [] {
      JoinedLength(pools[1..]);
    }
  }

  lemma {:induction false} JoinedHolds(pools: seq<string>, c: char)
    ensures c in Joined(pools) <==> exists i :: 0 <= i < |pools| && c in pools[i]
  {
    if pools != [] {
      JoinedHolds(pools[1..], c);
      if i :| 0 <= i < |pools[1..]| && c in pools[1..][i] {
        assert c in pools[i + 1];
      }
      if i :| 0 < i < |pools| && c in pools[i] {
        assert c in pools[1..][i - 1];
      }
    }
  }

  predicate SmallPools(pools: seq<string>) {
    0 < |pools| <= 4 && forall i :: 0 <= i < |pools| ==> 1 <= |pools[i]| <= 26
  }

  lemma SourcesUsable(pools: seq<string>, length: int)
    requires SmallPools(pools)
    ensures Usable(SourcesOf(pools, length)) && 1 <= |Joined(pools)| <= WORDS
  {
    JoinedLength(pools);
  }

  /** The choices behind a password: the characters, then the shuffle. */
  function Password(o: Options, picks: seq<nat>, swaps: seq<nat>): string
    requires Within(picks, Lengths(Sources(o))) && AllChoices(Size(o), swaps)
  {
    Swaps(Picked(Sources(o), picks), Size(o), swaps)
  }

  /** One character of every pool, then any of them up to the length. */
  method Characters(pools: seq<string>, length: int, random: RandomSource) returns (r: Option<string>)
    requires SmallPools(pools)
    modifies random
    ensures Usable(SourcesOf(pools, length))
    ensures match Pick(old(random.words), SourcesOf(pools, length))
            case None => r.None?
            case Some((chars, rest)) => r == Some(chars) && random.words == rest
  {
    var full := Joined(pools);
    ghost var sources := SourcesOf(pools, length);
    SourcesUsable(pools, length);
    var chars := "";
    BehindNothing(Pick(random.words, sources));
    assert sources[0..] == sources;
    for k := 0 to |pools|
      invariant |chars| == k
      invariant Pick(old(random.words), sources) == Behind(chars, Pick(random.words, sources[k..]))
    {
      PickStep(random.words, sources[k..], chars);
      assert sources[k..][1..] == sources[k + 1..];
      var choice := random.SecureRandBelow(|pools[k]|);
      if choice.None? { return None; }
      chars := chars + [pools[k][choice.value]];
    }
    while |chars| < length
      invariant |pools| <= |chars| <= |sources|
      invariant Pick(old(random.words), sources) == Behind(chars, Pick(random.words, sources[|chars|..]))
    {
      PickStep(random.words, sources[|chars|..], chars);
      assert sources[|chars|..][1..] == sources[|chars| + 1..];
      var choice := random.SecureRandBelow(|full|);
      if choice.None? { return None; }
      chars := chars + [full[choice.value]];
    }
    PickNothing(random.words, sources[|chars|..], chars);
    return Some(chars);
  }

  method GeneratePassword(o: Options, random: RandomSource) returns (r: Option<string>)
    requires o.length < WORDS
    modifies random
    ensures Usable(Sources(o))
    ensures match Draws(old(random.words), Lengths(Sources(o)))
            case None => r.None?
            case Some((picks, rest)) =>
              match Draws(rest, ShuffleBounds(Size(o)))
              case None => r.None?
              case Some((swaps, end)) => r == Some(Password(o, picks, swaps)) && random.words == end
  {
    var chars := Characters(Pools(o), o.length, random);
    if chars.None? { return None; }
    var s := chars.value;
    var a := new char[|s|](i requires 0 <= i < |s| => s[i]);
    assert a[..] == s;
    var ok := ShuffleInPlace(a, random);
    if !ok { return None; }
    return Some(a[..]);
  }

  // ----- What passwords there are -------------------------------------------------------

  predicate EveryPool(pools: seq<string>, password: string) {
    forall i :: 0 <= i < |pools| ==> exists k :: 0 <= k < |password| && password[k] in pools[i]
  }

  /** The length asked for, or one character a pool when that is more; only
      characters of the pools; at least one from each. */
  predicate Meets(o: Options, password: string) {
    && |password| == Size(o)
    && (forall c :: c in password ==> c in Joined(Pools(o)))
    && EveryPool(Pools(o), password)
  }

  lemma LetterRanges(c: char)
    ensures c in UPPERCASE ==> 'A' <= c <= 'Z'
    ensures c in LOWERCASE ==> 'a' <= c <= 'z'
    ensures c in NUMBERS ==> '0' <= c <= '9'
  {
  }

  lemma SymbolRanges(c: char)
    ensures c in SYMBOLS ==> !('A' <= c <= 'Z') && !('a' <= c <= 'z') && !('0' <= c <= '9')
  {
  }

  predicate Pool(p: string) { p == UPPERCASE || p == LOWERCASE || p == NUMBERS || p == SYMBOLS }

  lemma PoolsOverlap(p: string, q: string, c: char)
    requires Pool(p) && Pool(q) && c in p && c in q
    ensures p == q
  {
    LetterRanges(c);
    SymbolRanges(c);
  }

  predicate Disjoint(pools: seq<string>) {
    forall i, j, c :: 0 <= i < |pools| && 0 <= j < |pools| && c in pools[i] && c in pools[j] ==> i == j
  }

  lemma PoolsDiffer(o: Options)
    ensures Distinct(Pools(o)) && forall i :: 0 <= i < |Pools(o)| ==> Pool(Pools(o)[i])
  {
    assert UPPERCASE[0] == 'A' && LOWERCASE[0] == 'a' && NUMBERS[0] == '0' && SYMBOLS[0] == '!';
  }

  lemma PoolsDisjoint(pools: seq<string>)
    requires Distinct(pools) && forall i :: 0 <= i < |pools| ==> Pool(pools[i])
    ensures Disjoint(pools)
  {
    forall i, j, c | 0 <= i < |pools| && 0 <= j < |pools| && c in pools[i] && c in pools[j] ensures i == j {
      PoolsOverlap(pools[i], pools[j], c);
    }
  }

  lemma SameCharacters(s: string, t: string, c: char)
    requires multiset(s) == multiset(t) && c in s
    ensures c in t
  {
    assert c in multiset(s);
  }

  lemma PasswordMeets(o: Options, picks: seq<nat>, swaps: seq<nat>)
    requires Within(picks, Lengths(Sources(o))) && AllChoices(Size(o), swaps)
    ensures Meets(o, Password(o, picks, swaps))
  {
    var sources := Sources(o);
    var s := Picked(sources, picks);
    var t := Password(o, picks, swaps);
    SwapsKeepAll(s, Size(o), swaps);
    forall c | c in t ensures c in Joined(Pools(o)) {
      SameCharacters(t, s, c);
      JoinedHolds(Pools(o), c);
      var k :| 0 <= k < |s| && s[k] == c;
      assert c in sources[k];
    }
    forall i | 0 <= i < |Pools(o)| ensures exists k :: 0 <= k < |t| && t[k] in Pools(o)[i] {
      assert s[i] in sources[i] && sources[i] == Pools(o)[i];
      SameCharacters(s, t, s[i]);
    }
  }

  /** The characters of `t` so arranged that the first ones are of one pool each. */
  lemma {:induction false} PoolsFirst(pools: seq<string>, t: string, m: nat) returns (s: string)
    requires Disjoint(pools) && EveryPool(pools, t) && m <= |pools| <= |t|
    ensures multiset(s) == multiset(t) && |s| == |t|
    ensures forall i :: 0 <= i < m ==> s[i] in pools[i]
  {
    if m == 0 { return t; }
    var r := PoolsFirst(pools, t, m - 1);
    var j := PlaceOf(pools[m - 1], r, t);
    SwappedKeepsAll(r, m - 1, j);
    s := Swapped(r, m - 1, j);
    assert j >= m - 1;
  }

  lemma PlaceOf(pool: string, s: string, t: string) returns (j: nat)
    requires multiset(s) == multiset(t) && exists k :: 0 <= k < |t| && t[k] in pool
    ensures j < |s| && s[j] in pool
  {
    var k :| 0 <= k < |t| && t[k] in pool;
    SameCharacters(t, s, t[k]);
    j :| 0 <= j < |s| && s[j] == t[k];
  }

  lemma PicksFor(sources: seq<string>, s: string) returns (picks: seq<nat>)
    requires |s| == |sources| && forall i :: 0 <= i < |s| ==> s[i] in sources[i]
    ensures Within(picks, Lengths(sources)) && Picked(sources, picks) == s
  {
    picks := [];
    for k := 0 to |s|
      invariant |picks| == k
      invariant forall i :: 0 <= i < k ==> picks[i] < |sources[i]| && sources[i][picks[i]] == s[i]
    {
      var j: nat :| j < |sources[k]| && sources[k][j] == s[k];
      picks := picks + [j];
    }
  }

  lemma PasswordReaches(o: Options, t: string) returns (picks: seq<nat>, swaps: seq<nat>)
    requires Meets(o, t)
    ensures Within(picks, Lengths(Sources(o))) && AllChoices(Size(o), swaps)
    ensures Password(o, picks, swaps) == t
  {
    PoolsDiffer(o);
    PoolsDisjoint(Pools(o));
    var s := PoolsFirst(Pools(o), t, |Pools(o)|);
    forall i | 0 <= i < |s| ensures s[i] in Sources(o)[i] {
      SameCharacters(s, t, s[i]);
    }
    picks := PicksFor(Sources(o), s);
    swaps := ShuffleSurjective(s, Size(o), t);
  }

  /** The generator can return exactly the passwords that meet the options. */
  lemma PasswordsExactly(o: Options, t: string)
    ensures Meets(o, t)
        <==> exists picks, swaps :: Within(picks, Lengths(Sources(o))) && AllChoices(Size(o), swaps)
                                    && Password(o, picks, swaps) == t
  {
    if Meets(o, t) {
      var picks, swaps := PasswordReaches(o, t);
    }
    forall picks, swaps | Within(picks, Lengths(Sources(o))) && AllChoices(Size(o), swaps)
      ensures Meets(o, Password(o, picks, swaps))
    {
      PasswordMeets(o, picks, swaps);
    }
  }
}
