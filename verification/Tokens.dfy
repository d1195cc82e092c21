/** The token table of src/tokens.cpp: a bounded map from tokens to keys that forgets the token used longest ago. */
module Tokens {
  import opened Types

  type Token = Word

  const BAD_TOKEN: Token := 0
  const FIRST_TOKEN: Token := 33

  // ----- what a history of uses leaves in the table -----

  /** A use of a token: it was issued for a key, or a query found it. */
  datatype Use = Issued(token: Token, key: Key) | Found(token: Token)

  /** The tokens ever used, each once, the latest use first. */
  function Recency(h: seq<Use>): seq<Token> {
    if h == [] then [] else
      var t := h[|h| - 1].token;
      [t] + Remove(Recency(h[..|h| - 1]), t)
  }

  function Remove(s: seq<Token>, t: Token): seq<Token> {
    if s == [] then [] else if s[0] == t then Remove(s[1..], t) else [s[0]] + Remove(s[1..], t)
  }

  /** What a table with room for `size` tokens keeps. */
  function Kept(h: seq<Use>, size: nat): seq<Token> {
    First(Recency(h), size)
  }

  function First(s: seq<Token>, n: nat): seq<Token> {
    if |s| <= n then s else s[..n]
  }

  /** The key for which a token was issued last. */
  function LatestKey(h: seq<Use>, t: Token): Option<Key> {
    if h == [] then None
    else if h[|h| - 1].Issued? && h[|h| - 1].token == t then Some(h[|h| - 1].key)
    else LatestKey(h[..|h| - 1], t)
  }

  predicate Used(h: seq<Use>, t: Token) {
    exists i :: 0 <= i < |h| && h[i].token == t
  }

  /** The other tokens used since the last use of `t`. */
  function OthersSince(h: seq<Use>, t: Token): set<Token> {
    if h == [] || h[|h| - 1].token == t then {}
    else {h[|h| - 1].token} + OthersSince(h[..|h| - 1], t)
  }

  /** The members in front of the first `t`. */
  function Ahead(s: seq<Token>, t: Token): set<Token> {
    if s == [] || s[0] == t then {} else {s[0]} + Ahead(s[1..], t)
  }

  lemma {:induction false} RemoveKeepsOthers(s: seq<Token>, t: Token)
    ensures forall u :: u in Remove(s, t) <==> u in s && u != t
  {
    if s != [] {
      RemoveKeepsOthers(s[1..], t);
      assert forall u :: u in s <==> u == s[0] || u in s[1..];
    }
  }

  lemma {:induction false} RemoveKeepsDistinct(s: seq<Token>, t: Token)
    requires Distinct(s)
    ensures Distinct(Remove(s, t))
  {
    if s != [] {
      RemoveKeepsDistinct(s[1..], t);
      RemoveKeepsOthers(s[1..], t);
      assert s[0] !in s[1..];
    }
  }

  /** Up to `u` itself, taking `u` out does not change what is ahead of another token. */
  lemma {:induction false} RemoveKeepsAhead(s: seq<Token>, u: Token, t: Token)
    requires u != t
    ensures {u} + Ahead(Remove(s, u), t) == {u} + Ahead(s, t)
  {
    if s != [] {
      RemoveKeepsAhead(s[1..], u, t);
      if s[0] != u {
        assert Remove(s, u)[0] == s[0] && Remove(s, u)[1..] == Remove(s[1..], u);
      }
    }
  }

  lemma {:induction false} RemoveAbsent(s: seq<Token>, t: Token)
    requires t !in s
    ensures Remove(s, t) == s
  {
    if s != [] {
      RemoveAbsent(s[1..], t);
    }
  }

  lemma InFrontIsDistinct(t: Token, s: seq<Token>)
    requires Distinct(s) && t !in s
    ensures Distinct([t] + s)
  {
    assert forall i :: 0 < i < |[t] + s| ==> ([t] + s)[i] == s[i - 1];
  }

  lemma LastOccursOnce(s: seq<Token>)
    requires Distinct(s) && s != []
    ensures forall t :: t in s[..|s| - 1] <==> t in s && t != s[|s| - 1]
  {
    var n := |s| - 1;
    assert s == s[..n] + [s[n]];
    assert s[n] !in s[..n];
  }

  lemma {:induction false} RecencyIsWhatWasUsed(h: seq<Use>)
    ensures Distinct(Recency(h))
    ensures forall t :: t in Recency(h) <==> Used(h, t)
  {
    if h != [] {
      var n := |h| - 1;
      var before, last := Recency(h[..n]), h[n].token;
      RecencyIsWhatWasUsed(h[..n]);
      RemoveKeepsOthers(before, last);
      RemoveKeepsDistinct(before, last);
      InFrontIsDistinct(last, Remove(before, last));
      forall t ensures Used(h, t) <==> t == last || Used(h[..n], t) {
        UsedBefore(h, t);
      }
    }
  }

  lemma UsedBefore(h: seq<Use>, t: Token)
    requires h != []
    ensures Used(h, t) <==> t == h[|h| - 1].token || Used(h[..|h| - 1], t)
  {
    var n := |h| - 1;
    assert forall i :: 0 <= i < n ==> h[..n][i] == h[i];
    if t == h[n].token {
    } else if Used(h, t) {
      var i :| 0 <= i < |h| && h[i].token == t;
      assert h[..n][i].token == t;
    }
  }

  /** A token stands behind exactly the distinct tokens used since its own last use. */
  lemma {:induction false} AheadAreOthers(h: seq<Use>, t: Token)
    ensures Ahead(Recency(h), t) == OthersSince(h, t)
  {
    if h != [] {
      var n := |h| - 1;
      var before, last := Recency(h[..n]), h[n].token;
      assert Recency(h)[1..] == Remove(before, last);
      if last != t {
        AheadAreOthers(h[..n], t);
        RemoveKeepsAhead(before, last, t);
      }
    }
  }

  lemma {:induction false} AheadCounts(s: seq<Token>, k: nat)
    requires Distinct(s) && k < |s|
    ensures |Ahead(s, s[k])| == k
    ensures Ahead(s, s[k]) <= set u | u in s
  {
    if k > 0 {
      AheadCounts(s[1..], k - 1);
      assert s[0] !in s[1..];
    }
  }

  /** A token still resolves exactly while fewer than `size` other tokens were used since its last use. */
  lemma ResolvesIff(h: seq<Use>, size: nat, t: Token)
    ensures t in Kept(h, size) <==> Used(h, t) && |OthersSince(h, t)| < size
  {
    RecencyIsWhatWasUsed(h);
    var all := Recency(h);
    if Used(h, t) {
      var k: nat :| k < |all| && all[k] == t;
      AheadCounts(all, k);
      AheadAreOthers(h, t);
      assert k < size ==> Kept(h, size)[k] == t;
    } else {
      assert t !in all;
    }
  }

  // ----- the same, use by use -----

  /** The `n`-th use is the last one of its token. */
  ghost predicate LastUse(h: seq<Use>, n: nat) {
    n < |h| && forall i :: n < i < |h| ==> h[i].token != h[n].token
  }

  /** The `n`-th use is the last issue of its token. */
  ghost predicate LastIssue(h: seq<Use>, n: nat) {
    n < |h| && h[n].Issued? && forall i :: n < i < |h| && h[i].Issued? ==> h[i].token != h[n].token
  }

  /** The tokens used after the `n`-th use. */
  ghost function UsedAfter(h: seq<Use>, n: nat): set<Token> {
    set i | n < i < |h| :: h[i].token
  }

  lemma {:induction false} OthersAreUsedAfter(h: seq<Use>, n: nat)
    requires LastUse(h, n)
    ensures OthersSince(h, h[n].token) == UsedAfter(h, n)
    decreases |h|
  {
    var m := |h| - 1;
    if n < m {
      var front := h[..m];
      assert forall i :: 0 <= i < m ==> front[i] == h[i];
      OthersAreUsedAfter(front, n);
      assert UsedAfter(h, n) == UsedAfter(front, n) + {h[m].token};
    }
  }

  lemma {:induction false} LatestKeyIsIssued(h: seq<Use>, n: nat)
    requires LastIssue(h, n)
    ensures LatestKey(h, h[n].token) == Some(h[n].key)
    decreases |h|
  {
    var m := |h| - 1;
    if n < m {
      var front := h[..m];
      assert forall i :: 0 <= i < m ==> front[i] == h[i];
      LatestKeyIsIssued(front, n);
    }
  }

  lemma {:induction false} LatestIssue(h: seq<Use>, t: Token) returns (n: nat)
    requires LatestKey(h, t).Some?
    ensures LastIssue(h, n) && h[n].token == t
    decreases |h|
  {
    var m := |h| - 1;
    if h[m].Issued? && h[m].token == t {
      n := m;
    } else {
      n := LatestIssue(h[..m], t);
      assert forall i :: 0 <= i < m ==> h[..m][i] == h[i];
    }
  }

  // ----- how one use changes the table -----

  lemma {:induction false} RemoveAppends(a: seq<Token>, b: seq<Token>, t: Token)
    ensures Remove(a + b, t) == Remove(a, t) + Remove(b, t)
  {
    if a == [] {
      assert a + b == b;
    } else {
      RemoveAppends(a[1..], b, t);
      assert (a + b)[1..] == a[1..] + b;
    }
  }

  lemma {:induction false} RemoveOne(s: seq<Token>, t: Token)
    requires Distinct(s) && t in s
    ensures |Remove(s, t)| == |s| - 1
  {
    if s[0] == t {
      assert t !in s[1..];
      RemoveAbsent(s[1..], t);
    } else {
      RemoveOne(s[1..], t);
    }
  }

  /** Taking a token out of the part that is kept, or out of the part that is not. */
  lemma RemoveOfKept(h: seq<Use>, size: nat, t: Token)
    ensures var kept, rest := Remove(Kept(h, size), t), Recency(h)[|Kept(h, size)|..];
      && Remove(Recency(h), t) == kept + Remove(rest, t)
      && if t in Kept(h, size) then |kept| == |Kept(h, size)| - 1 && Remove(rest, t) == rest else kept == Kept(h, size)
  {
    RecencyIsWhatWasUsed(h);
    var all, kept := Recency(h), Kept(h, size);
    var rest := all[|kept|..];
    assert all == kept + rest;
    RemoveAppends(kept, rest, t);
    if t in kept {
      RemoveOne(kept, t);
      RemoveAbsent(rest, t);
    } else {
      RemoveAbsent(kept, t);
    }
  }

  /** A token that is not in the table goes to the front, at the expense of the last one of a full table. */
  lemma IssuedGoesFirst(h: seq<Use>, size: nat, t: Token, key: Key)
    requires size > 0 && t !in Kept(h, size)
    ensures Kept(h + [Issued(t, key)], size) == [t] + First(Kept(h, size), size - 1)
  {
    RemoveOfKept(h, size, t);
    assert (h + [Issued(t, key)])[..|h|] == h;
    if |Recency(h)| <= size {
      assert Recency(h)[|Kept(h, size)|..] == [];
    }
  }

  lemma FoundMovesFirst(h: seq<Use>, size: nat, t: Token)
    requires t in Kept(h, size)
    ensures Kept(h + [Found(t)], size) == [t] + Remove(Kept(h, size), t)
  {
    RemoveOfKept(h, size, t);
    assert (h + [Found(t)])[..|h|] == h;
    if |Recency(h)| <= size {
      assert Recency(h)[|Kept(h, size)|..] == [];
    }
  }

  // ----- the operations -----

  /** The options up to the null pointer that ends them. */
  function Given(options: seq<Option<string>>): seq<string> {
    if options == [] || options[0] == None then [] else [options[0].value] + Given(options[1..])
  }

  lemma {:induction false} GivenIsPrefix(options: seq<Option<string>>, n: nat)
    requires n < |options| && options[n] == None
    requires forall i :: 0 <= i < n ==> options[i].Some?
    ensures Given(options) == seq(n, i requires 0 <= i < n => options[i].value)
  {
    if n > 0 {
      GivenIsPrefix(options[1..], n - 1);
    }
  }

  /** The first candidate that is neither taken nor the bad token. */
  function FirstFree(candidates: seq<Token>, taken: seq<Token>): Option<Token> {
    if candidates == [] then None
    else if candidates[0] in taken || candidates[0] == BAD_TOKEN then FirstFree(candidates[1..], taken)
    else Some(candidates[0])
  }

  /** It is free, and none before it is. */
  lemma {:induction false} FirstFreeIs(candidates: seq<Token>, taken: seq<Token>, n: nat)
    requires n < |candidates| && candidates[n] != 0 && candidates[n] !in taken
    requires forall i :: 0 <= i < n ==> candidates[i] == 0 || candidates[i] in taken
    ensures FirstFree(candidates, taken) == Some(candidates[n])
  {
    if n > 0 {
      FirstFreeIs(candidates[1..], taken, n - 1);
    }
  }

  /** The search ends once the generator has come up with more good tokens than the table can hold. */
  lemma {:induction false} SearchEnds(candidates: seq<Token>, taken: seq<Token>, good: set<Token>)
    requires good <= set t | t in candidates && t != BAD_TOKEN
    requires |good| > |taken|
    ensures FirstFree(candidates, taken).Some?
  {
    var t := FreeOne(taken, good);
    FreeIsFound(candidates, taken, t);
  }

  lemma {:induction false} FreeOne(taken: seq<Token>, good: set<Token>) returns (t: Token)
    requires |good| > |taken|
    ensures t in good && t !in taken
  {
    if taken == [] {
      t :| t in good;
    } else {
      t := FreeOne(taken[1..], good - {taken[0]});
    }
  }

  lemma {:induction false} FreeIsFound(candidates: seq<Token>, taken: seq<Token>, t: Token)
    requires t in candidates && t !in taken && t != BAD_TOKEN
    ensures FirstFree(candidates, taken).Some?
  {
    if candidates[0] != t {
      FreeIsFound(candidates[1..], taken, t);
    }
  }

  lemma {:induction false} FreeOrNot(candidates: seq<Token>, taken: seq<Token>)
    ensures match FirstFree(candidates, taken)
      case None => forall t :: t in candidates ==> t == 0 || t in taken
      case Some(t) => t in candidates
  {
    if candidates != [] {
      FreeOrNot(candidates[1..], taken);
    }
  }

  /** The `n`-th candidate is good, and none before it. */
  ghost predicate FirstFreeAt(candidates: seq<Token>, taken: seq<Token>, n: nat) {
    && n < |candidates| && candidates[n] != 0 && candidates[n] !in taken
    && forall i :: 0 <= i < n ==> candidates[i] == 0 || candidates[i] in taken
  }

  ghost predicate EndsAt(options: seq<Option<string>>, n: nat) {
    n < |options| && options[n] == None && forall i :: 0 <= i < n ==> options[i].Some?
  }

  class TokenTable {
    const size: nat
    var recent: seq<Token>
    var pairs: map<Token, Key>
    ghost var history: seq<Use>

    ghost predicate Valid()
      reads this
    {
      && size > 0
      && recent == Kept(history, size)
      && BAD_TOKEN !in recent
      && (forall t :: t in recent <==> t in pairs)
      && (forall t :: t in recent ==> LatestKey(history, t) == Some(pairs[t]))
    }

    /** token_init */
    constructor (size: nat)
      requires size > 0
      ensures Valid() && this.size == size && history == []
    {
      this.size := size;
      recent, pairs, history := [], map[], [];
    }

    /** get_token, given the numbers that the generator will draw; None while it is still drawing. */
    method GetToken(lockable: bool, uri: string, options: seq<Option<string>>, draws: seq<Token>) returns (token: Option<Token>)
      requires Valid() && None in options
      modifies this
      ensures Valid()
      ensures !lockable ==> token == Some(BAD_TOKEN) && history == old(history)
      ensures lockable ==> forall n :: 0 <= n <= |draws| && FirstFreeAt([33] + draws, old(recent), n) ==> token == Some(([33] + draws)[n])
      ensures token == None ==> history == old(history) && forall t :: t in [33] + draws ==> t == 0 || t in old(recent)
      ensures lockable && token.Some? ==> token.value in [33] + draws
      ensures lockable && token.Some? ==>
        && token.value != BAD_TOKEN && token.value !in old(recent)
        && history == old(history) + [Issued(token.value, Key(uri, Given(options)))]
      ensures forall n: nat :: EndsAt(options, n) ==>
        |Given(options)| == n && forall i :: 0 <= i < n ==> options[i] == Some(Given(options)[i])
    {
      forall n: nat | EndsAt(options, n)
        ensures |Given(options)| == n && forall i :: 0 <= i < n ==> options[i] == Some(Given(options)[i])
      {
        GivenIsPrefix(options, n);
      }
      token := Search(lockable, uri, options, draws);
      forall n | 0 <= n <= |draws| && FirstFreeAt([33] + draws, old(recent), n) ensures lockable ==> token == Some(([33] + draws)[n]) {
        FirstFreeIs([33] + draws, old(recent), n);
      }
      FreeOrNot([33] + draws, old(recent));
    }

    method Search(lockable: bool, uri: string, options: seq<Option<string>>, draws: seq<Token>) returns (token: Option<Token>)
      requires Valid() && None in options
      modifies this
      ensures Valid()
      ensures !lockable ==> token == Some(BAD_TOKEN) && history == old(history)
      ensures lockable ==> token == FirstFree([FIRST_TOKEN] + draws, old(recent))
      ensures token == None ==> history == old(history)
      ensures lockable && token.Some? ==>
        && token.value != BAD_TOKEN && token.value !in old(recent)
        && history == old(history) + [Issued(token.value, Key(uri, Given(options)))]
    {
      var given: seq<string> := [];
      var n: nat := 0;
      while options[n] != None
        invariant n < |options| && None !in options[..n]
        invariant given + Given(options[n..]) == Given(options)
        decreases |options| - n
      {
        assert options[n..][1..] == options[n + 1..];
        given := given + [options[n].value];
        n := n + 1;
        assert None in options[..n] + options[n..];
      }
      assert given + Given(options[n..]) == given;
      if !lockable {
        return Some(BAD_TOKEN);
      }
      var t, d := FIRST_TOKEN, 0;
      while t in pairs || t == BAD_TOKEN
        invariant d <= |draws|
        invariant FirstFree([t] + draws[d..], recent) == FirstFree([FIRST_TOKEN] + draws, recent)
        decreases |draws| - d
      {
        assert ([t] + draws[d..])[1..] == draws[d..];
        if d == |draws| {
          return None;
        }
        assert draws[d..] == [draws[d]] + draws[d + 1..];
        t, d := draws[d], d + 1;
      }
      Insert(t, Key(uri, given));
      token := Some(t);
    }

    /** evict: the entry used longest ago is dropped. */
    method Evict()
      requires recent != [] && Distinct(recent)
      requires forall t :: t in recent <==> t in pairs
      modifies this`recent, this`pairs
      ensures recent == old(recent)[..|old(recent)| - 1]
      ensures forall t :: t in recent <==> t in pairs
      ensures forall t :: t in recent ==> t in old(recent) && pairs[t] == old(pairs)[t]
    {
      LastOccursOnce(recent);
      pairs := pairs - {recent[|recent| - 1]};
      recent := recent[..|recent| - 1];
    }

    /** insert, which is only called for a token that is not in the table. */
    method Insert(t: Token, key: Key)
      requires Valid() && t !in recent && t != BAD_TOKEN
      modifies this
      ensures Valid() && history == old(history) + [Issued(t, key)]
    {
      IssuedGoesFirst(history, size, t, key);
      if |recent| >= size {
        RecencyIsWhatWasUsed(history);
        Evict();
      }
      recent := [t] + recent;
      pairs := pairs[t := key];
      history := history + [Issued(t, key)];
      assert history[..|history| - 1] == old(history);
    }

    /** query_token */
    method QueryToken(lockable: bool, t: Token) returns (pair: Option<Key>)
      requires Valid()
      modifies this
      ensures Valid()
      ensures pair.Some? ==> lockable && t != 0 && exists n :: 0 <= n < |old(history)| && old(history)[n].token == t
      ensures forall n: nat :: LastUse(old(history), n) && old(history)[n].token == t && lockable && t != 0 ==>
        (pair.Some? <==> |UsedAfter(old(history), n)| < size)
      ensures forall n: nat :: LastIssue(old(history), n) && old(history)[n].token == t && pair.Some? ==> pair.value == old(history)[n].key
      ensures pair.Some? ==> exists n: nat :: LastIssue(old(history), n) && old(history)[n].token == t
      ensures history == if pair.Some? then old(history) + [Found(t)] else old(history)
    {
      ghost var h := history;
      pair := LookUp(lockable, t);
      forall n: nat | LastUse(h, n) && h[n].token == t ensures OthersSince(h, t) == UsedAfter(h, n) && Used(h, t) {
        OthersAreUsedAfter(h, n);
      }
      forall n: nat | LastIssue(h, n) && h[n].token == t ensures LatestKey(h, t) == Some(h[n].key) {
        LatestKeyIsIssued(h, n);
      }
      if pair.Some? {
        var n := LatestIssue(h, t);
      }
    }

    method LookUp(lockable: bool, t: Token) returns (pair: Option<Key>)
      requires Valid()
      modifies this
      ensures Valid()
      ensures pair.Some? <==> lockable && t != BAD_TOKEN && Used(old(history), t) && |OthersSince(old(history), t)| < size
      ensures pair.Some? ==> pair == LatestKey(old(history), t)
      ensures history == if pair.Some? then old(history) + [Found(t)] else old(history)
    {
      if t == BAD_TOKEN || !lockable {
        return None;
      }
      ResolvesIff(history, size, t);
      if t !in pairs {
        return None;
      }
      FoundMovesFirst(history, size, t);
      RemoveKeepsOthers(recent, t);
      recent := [t] + Remove(recent, t);
      history := history + [Found(t)];
      assert history[..|history| - 1] == old(history);
      pair := Some(pairs[t]);
    }
  }
}
