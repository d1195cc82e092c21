/** The cache key of src/types.hpp and the additive hashes that the cache uses as tags. */
module Types {

  datatype Option<+T> = None | Some(value: T)

  /** `size_t` on the supported hosts: unsigned, 64 bits wide, wrapping. */
  const WORD_SIZE: nat := 0x1_0000_0000_0000_0000
  type Word = x: nat | x < WORD_SIZE

  type Byte = x: nat | x < 256

  predicate Distinct(s: seq<nat>) {
    forall j, k :: 0 <= j < k < |s| ==> s[j] != s[k]
  }

  function Min(a: nat, b: nat): nat {
    if a < b then a else b
  }

  function Max(a: nat, b: nat): nat {
    if a < b then b else a
  }

  /** The URI and warp options that identify a dataset. */
  datatype Key = Key(uri: string, options: seq<string>)

  /** The key of a default-constructed, empty slot. */
  const EMPTY_KEY: Key := Key("", [])

  /** Unsigned addition, which wraps. */
  function Plus(a: Word, b: Word): Word {
    (a + b) % WORD_SIZE
  }

  lemma PlusSwaps(a: Word, b: Word, c: Word)
    ensures Plus(Plus(a, b), c) == Plus(Plus(a, c), b)
  {
    assert Plus(Plus(a, b), c) == (a + b + c) % WORD_SIZE == Plus(Plus(a, c), b);
  }

  /** The sum of the hashes of the options, whatever string hash `h` the library provides. */
  function OptionsTag(h: string -> Word, options: seq<string>): Word {
    if options == [] then 0
    else Plus(OptionsTag(h, options[..|options| - 1]), h(options[|options| - 1]))
  }

  function Tag(h: string -> Word, key: Key): Word {
    Plus(h(key.uri), OptionsTag(h, key.options))
  }

  /** `hash<options_t>`: the running sum, wrapping at every addition. */
  method HashOptions(h: string -> Word, options: seq<string>) returns (result: Word)
    ensures result == OptionsTag(h, options)
  {
    result := 0;
    for i := 0 to |options|
      invariant result == OptionsTag(h, options[..i])
    {
      assert options[..i + 1][..i] == options[..i];
      result := Plus(result, h(options[i]));
    }
    assert options[..|options|] == options;
  }

  /** The sum of the hashes, first to last and without wrapping. */
  function Sum(h: string -> Word, options: seq<string>): nat {
    if options == [] then 0 else h(options[0]) + Sum(h, options[1..])
  }

  lemma {:induction false} SumAppends(h: string -> Word, options: seq<string>, last: string)
    ensures Sum(h, options + [last]) == Sum(h, options) + h(last)
  {
    if options == [] {
      assert (options + [last])[1..] == [];
    } else {
      SumAppends(h, options[1..], last);
      assert (options + [last])[1..] == options[1..] + [last];
    }
  }

  lemma PlusModulo(a: nat, b: Word)
    ensures Plus(a % WORD_SIZE, b) == Plus(b, a % WORD_SIZE) == (a + b) % WORD_SIZE
  {
  }

  lemma {:induction false} OptionsTagIsSum(h: string -> Word, options: seq<string>)
    ensures OptionsTag(h, options) == Sum(h, options) % WORD_SIZE
    decreases |options|
  {
    if options != [] {
      hide Plus;
      var n := |options| - 1;
      var front, last := options[..n], options[n];
      OptionsTagIsSum(h, front);
      PlusModulo(Sum(h, front), h(last));
      SumAppends(h, front, last);
      assert options == front + [last];
    }
  }

  /** The tag of a key is the sum of the hashes of its URI and its options, modulo 2^64. */
  lemma TagIsSum(h: string -> Word, key: Key)
    ensures Tag(h, key) == (h(key.uri) + Sum(h, key.options)) % 0x1_0000_0000_0000_0000
    ensures key.options == [] ==> Tag(h, key) == h(key.uri)
  {
    hide Plus, OptionsTag;
    OptionsTagIsSum(h, key.options);
    PlusModulo(Sum(h, key.options), h(key.uri));
  }

  /** One option may be taken out of any position of the sum. */
  lemma {:induction false} OptionsTagWithout(h: string -> Word, options: seq<string>, k: nat)
    requires k < |options|
    ensures OptionsTag(h, options) == Plus(OptionsTag(h, options[..k] + options[k + 1..]), h(options[k]))
    decreases |options|
  {
    var n := |options| - 1;
    if k == n {
      assert options[..k] + options[k + 1..] == options[..n];
    } else {
      var front, last := options[..n], options[n];
      var rest := options[..k] + options[k + 1..];
      assert rest[..|rest| - 1] == front[..k] + front[k + 1..] && rest[|rest| - 1] == last;
      OptionsTagWithout(h, front, k);
      PlusSwaps(OptionsTag(h, rest[..|rest| - 1]), h(options[k]), h(last));
    }
  }

  /** Reordering the options never changes the sum, so such keys always share a tag. */
  lemma {:induction false} PermutedOptionsShareTag(h: string -> Word, a: seq<string>, b: seq<string>)
    requires multiset(a) == multiset(b)
    ensures OptionsTag(h, a) == OptionsTag(h, b)
    ensures forall uri :: Tag(h, Key(uri, a)) == Tag(h, Key(uri, b))
    decreases |a|
  {
    if a == [] {
      assert |multiset(b)| == 0;
    } else {
      var k, rest := TakeOut(a, b);
      PermutedOptionsShareTag(h, a[..|a| - 1], rest);
      OptionsTagWithout(h, b, k);
    }
  }

  lemma TakeOut(a: seq<string>, b: seq<string>) returns (k: nat, rest: seq<string>)
    requires a != [] && multiset(a) == multiset(b)
    ensures k < |b| && b[k] == a[|a| - 1] && rest == b[..k] + b[k + 1..]
    ensures multiset(a[..|a| - 1]) == multiset(rest)
  {
    var last := a[|a| - 1];
    assert last in multiset(b);
    k :| k < |b| && b[k] == last;
    rest := b[..k] + b[k + 1..];
    assert a == a[..|a| - 1] + [last];
    assert b == b[..k] + [last] + b[k + 1..];
    assert multiset(b) == multiset(rest) + multiset{last};
    assert multiset(a) == multiset(a[..|a| - 1]) + multiset{last};
    assert multiset(rest) == multiset(b) - multiset{last} == multiset(a[..|a| - 1]);
  }
}
