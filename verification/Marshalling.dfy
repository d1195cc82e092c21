/**
 Strings on their way from GDAL to Java: the C functions of src/com_azavea_gdal_GDALWarp.c write them
 into a byte array that the Java side (GDALWarp.java) keeps from call to call and never cleans.
 */
module Marshalling {
  import opened Types

  /** A C string, without its terminator. */
  type CString = s: seq<Byte> | forall j :: 0 <= j < |s| ==> s[j] != 0 witness []

  const SPACE: Byte := 32

  // ----- String.trim() -----

  function TrimFront(s: seq<Byte>): seq<Byte> {
    if s != [] && s[0] <= SPACE then TrimFront(s[1..]) else s
  }

  function TrimBack(s: seq<Byte>): seq<Byte> {
    if s != [] && s[|s| - 1] <= SPACE then TrimBack(s[..|s| - 1]) else s
  }

  function Trim(s: seq<Byte>): seq<Byte> {
    TrimBack(TrimFront(s))
  }

  /** Trimming cuts off exactly the blanks at either end. */
  lemma TrimIsMiddle(s: seq<Byte>) returns (a: nat, b: nat)
    ensures a <= b <= |s| && Trim(s) == s[a..b]
    ensures forall j :: 0 <= j < |s| && !(a <= j < b) ==> s[j] <= SPACE
    ensures a < b ==> s[a] > SPACE && s[b - 1] > SPACE
  {
    a := FrontBlanks(s);
    var kept := KeptOfBack(s[a..]);
    b := a + kept;
    assert s[a..][..b - a] == s[a..b];
    assert forall j :: b <= j < |s| ==> s[j] == s[a..][j - a];
  }

  lemma {:induction false} FrontBlanks(s: seq<Byte>) returns (a: nat)
    ensures a <= |s| && TrimFront(s) == s[a..]
    ensures forall j :: 0 <= j < a ==> s[j] <= SPACE
    ensures a < |s| ==> s[a] > SPACE
  {
    if s != [] && s[0] <= SPACE {
      var rest := FrontBlanks(s[1..]);
      a := rest + 1;
      assert forall j :: 1 <= j < a ==> s[j] == s[1..][j - 1];
    } else {
      a := 0;
    }
  }

  lemma {:induction false} KeptOfBack(s: seq<Byte>) returns (b: nat)
    ensures b <= |s| && TrimBack(s) == s[..b]
    ensures forall j :: b <= j < |s| ==> s[j] <= SPACE
    ensures b > 0 ==> s[b - 1] > SPACE
  {
    if s != [] && s[|s| - 1] <= SPACE {
      b := KeptOfBack(s[..|s| - 1]);
    } else {
      b := |s|;
    }
  }

  /** `text` is `s` without the blanks, bytes up to 32, at either end. */
  ghost predicate Cut(text: seq<Byte>, s: seq<Byte>) {
    exists a: nat, b: nat :: IsMiddle(text, s, a, b)
  }

  ghost predicate IsMiddle(text: seq<Byte>, s: seq<Byte>, a: nat, b: nat) {
    && a <= b <= |s| && text == s[a..b]
    && (forall j :: 0 <= j < a || b <= j < |s| ==> s[j] <= 32)
    && (text != [] ==> text[0] > 32 && text[|text| - 1] > 32)
  }

  lemma TrimCuts(s: seq<Byte>)
    ensures Cut(Trim(s), s)
  {
    var a, b := TrimIsMiddle(s);
    assert IsMiddle(Trim(s), s, a, b);
  }

  /** There is only one way to do so. */
  lemma CutUnique(t: seq<Byte>, u: seq<Byte>, s: seq<Byte>)
    requires Cut(t, s) && Cut(u, s)
    ensures t == u
  {
    var a: nat, b: nat :| IsMiddle(t, s, a, b);
    var c: nat, d: nat :| IsMiddle(u, s, c, d);
    if t != [] {
      assert t[0] == s[a] && t[|t| - 1] == s[b - 1];
    }
    if u != [] {
      assert u[0] == s[c] && u[|u| - 1] == s[d - 1];
    }
  }

  // ----- the C side -----

  /** Row `i` of a buffer holds a terminated string. */
  ghost predicate Holds(buf: array2<Byte>, i: nat, s: seq<Byte>)
    reads buf
  {
    && i < buf.Length0 && |s| < buf.Length1
    && (forall j :: 0 <= j < |s| ==> buf[i, j] == s[j] && s[j] != 0)
    && buf[i, |s|] == 0
  }

  /** An empty string is written as a blank, so that it does not read as the end of the list. */
  function Stored(s: CString): CString {
    if s == [] then [SPACE] else s
  }

  /** There is a row to spare after the strings, and a byte to spare after each with its terminator. */
  predicate Fits(strings: seq<CString>, rows: nat, columns: nat) {
    |strings| < rows && forall i :: 0 <= i < |strings| ==> |strings[i]| < columns - 1
  }

  /** The encoding half of get_metadata_domain_list and get_metadata. */
  method EncodeList(buf: array2<Byte>, strings: seq<CString>, retval: int) returns (code: int)
    requires buf.Length1 >= 2 && retval >= 0
    modifies buf
    ensures code == if Fits(strings, buf.Length0, buf.Length1) then retval else -1
    ensures code == -1 <==> |strings| >= buf.Length0 || exists i :: 0 <= i < |strings| && |strings[i]| + 2 > buf.Length1
    ensures code >= 0 ==> forall i :: 0 <= i < |strings| ==> Holds(buf, i, Stored(strings[i]))
    ensures code >= 0 && |strings| < buf.Length0 - 1 ==> buf[|strings|, 0] == 0
    ensures code >= 0 ==>
      forall i, j :: |strings| <= i < buf.Length0 && 0 <= j < buf.Length1 && !(i == |strings| < buf.Length0 - 1 && j == 0) ==>
        buf[i, j] == old(buf[i, j])
  {
    var i := 0;
    while i < buf.Length0 && i < |strings|
      invariant 0 <= i <= buf.Length0 && i <= |strings|
      invariant forall k :: 0 <= k < i ==> |strings[k]| < buf.Length1 - 1
      invariant forall k :: 0 <= k < i ==> Holds(buf, k, Stored(strings[k]))
      invariant forall k, j :: i <= k < buf.Length0 && 0 <= j < buf.Length1 ==> buf[k, j] == old(buf[k, j])
    {
      var s := strings[i];
      if |s| == 0 {
        buf[i, 0] := SPACE;
        buf[i, 1] := 0;
      } else if |s| < buf.Length1 - 1 {
        forall j | 0 <= j < |s| {
          buf[i, j] := s[j];
        }
        buf[i, |s|] := 0;
      } else {
        return -1;
      }
      i := i + 1;
    }
    if i < buf.Length0 - 1 {
      buf[i, 0] := 0;
    }
    return if i == buf.Length0 then -1 else retval;
  }

  /** The encoding half of get_metadata_item. */
  method EncodeItem(buf: array<Byte>, value: CString, retval: int) returns (code: int)
    requires retval >= 0
    modifies buf
    ensures code == if |value| < buf.Length - 1 then retval else -1
    ensures code >= 0 ==> buf[..|value|] == value && buf[|value|] == 0
  {
    if |value| < buf.Length - 1 {
      forall j | 0 <= j < |value| {
        buf[j] := value[j];
      }
      buf[|value|] := 0;
      return retval;
    }
    return -1;
  }

  /** _get_version_info: strncpy cuts the text off, or pads it, and the length returned is the whole length. */
  method EncodeInfo(buf: array<Byte>, info: CString) returns (length: nat)
    modifies buf
    ensures length == |info|
    ensures |info| <= buf.Length ==> buf[..|info|] == info
  {
    forall j | 0 <= j < buf.Length {
      buf[j] := if j < |info| then info[j] else 0;
    }
    return |info|;
  }

  // ----- the Java side -----

  /** What the wrapped operation comes to at one native call: an error code, or the number of attempts and a value. */
  datatype Native<T> = Error(code: int) | Value(retval: nat, value: T)

  /** What a call returns: a code, and unless that is negative the strings or the text. */
  datatype Reply = Strings(retval: int, list: Option<seq<seq<Byte>>>) | Text(retval: int, text: Option<seq<Byte>>)

  function ListReply(native: Native<seq<CString>>): Reply {
    match native
    case Error(code) => Strings(code, None)
    case Value(retval, strings) => Strings(retval, Some(Trimmed(strings)))
  }

  function ItemReply(native: Native<CString>): Reply {
    match native
    case Error(code) => Text(code, None)
    case Value(retval, value) => Text(retval, Some(Trim(value)))
  }

  const INITIAL: nat := 256

  function Longest(strings: seq<CString>): nat {
    if strings == [] then 0 else Max(Longest(strings[..|strings| - 1]), |strings[|strings| - 1]|)
  }

  /** The least side of a square buffer that takes the strings. */
  function Need(strings: seq<CString>): nat {
    Max(Longest(strings) + 2, |strings| + 1)
  }

  lemma {:induction false} LongestBounds(strings: seq<CString>, n: nat)
    ensures Longest(strings) < n <==> n > 0 && forall i :: 0 <= i < |strings| ==> |strings[i]| < n
  {
    if strings != [] {
      LongestBounds(strings[..|strings| - 1], n);
    }
  }

  lemma FitsIffNeeded(strings: seq<CString>, side: nat)
    requires side >= 2
    ensures Fits(strings, side, side) <==> side >= Need(strings)
  {
    LongestBounds(strings, side - 1);
  }

  // ----- the retry -----

  /** What matters to the retry: an error code, or the least size of the buffer. */
  datatype Demand = Refused(code: int) | Wants(retval: nat, need: nat)

  function ListDemand(native: Native<seq<CString>>): Demand {
    match native
    case Error(code) => Refused(code)
    case Value(retval, strings) => Wants(retval, Need(strings))
  }

  function ItemDemand(native: Native<CString>): Demand {
    match native
    case Error(code) => Refused(code)
    case Value(retval, value) => Wants(retval, |value| + 2)
  }

  function ListDemands(natives: seq<Native<seq<CString>>>): (d: seq<Demand>)
    ensures |d| == |natives| && forall i :: 0 <= i < |natives| ==> d[i] == ListDemand(natives[i])
  {
    if natives == [] then [] else [ListDemand(natives[0])] + ListDemands(natives[1..])
  }

  function ItemDemands(natives: seq<Native<CString>>): (d: seq<Demand>)
    ensures |d| == |natives| && forall i :: 0 <= i < |natives| ==> d[i] == ItemDemand(natives[i])
  {
    if natives == [] then [] else [ItemDemand(natives[0])] + ItemDemands(natives[1..])
  }

  /** The code that a native call on a buffer of this size returns; -1 stands for "too small". */
  function Code(demand: Demand, size: nat): int {
    match demand
    case Refused(code) => code
    case Wants(retval, need) => if need <= size then retval else -1
  }

  /** Which of the calls ends the retry: the first whose code is not -1, with a buffer twice as large each time. */
  function Settles(demands: seq<Demand>, size: nat): (k: Option<nat>)
    ensures k.Some? ==> k.value < |demands|
  {
    if demands == [] then None
    else if Code(demands[0], size) != -1 then Some(0)
    else
      match Settles(demands[1..], 2 * size)
      case None => None
      case Some(k) => Some(k + 1)
  }

  /** A reply reads back one outcome of the operation: its code or its number of attempts, and as many
      strings, each of them without the blanks at its ends, in the same order. */
  ghost predicate ReadsList(native: Native<seq<CString>>, reply: Reply) {
    && reply.Strings?
    && match native
       case Error(code) => reply.retval == code && reply.list == None
       case Value(retval, strings) =>
         && reply.retval == retval && reply.list.Some? && |reply.list.value| == |strings|
         && forall i :: 0 <= i < |strings| ==> Cut(reply.list.value[i], strings[i])
  }

  ghost predicate ReadsItem(native: Native<CString>, reply: Reply) {
    && reply.Text?
    && match native
       case Error(code) => reply.retval == code && reply.text == None
       case Value(retval, value) => reply.retval == retval && reply.text.Some? && Cut(reply.text.value, value)
  }

  lemma TrimmedReads(strings: seq<CString>)
    ensures |Trimmed(strings)| == |strings| && forall i :: 0 <= i < |strings| ==> Cut(Trimmed(strings)[i], strings[i])
  {
    forall i | 0 <= i < |strings| ensures Cut(Trimmed(strings)[i], strings[i]) {
      TrimCuts(strings[i]);
    }
  }

  lemma ListReplyReads(native: Native<seq<CString>>)
    ensures ReadsList(native, ListReply(native))
  {
    if native.Value? {
      TrimmedReads(native.value);
    }
  }

  lemma ItemReplyReads(native: Native<CString>)
    ensures ReadsItem(native, ItemReply(native))
  {
    if native.Value? {
      TrimCuts(native.value);
    }
  }

  /** The native call is told -1: the strings do not fit, with a row and a byte to spare, or the operation failed with -1. */
  predicate ListTooBig(native: Native<seq<CString>>, side: nat) {
    match native
    case Error(code) => code == -1
    case Value(_, strings) => |strings| >= side || exists i :: 0 <= i < |strings| && |strings[i]| + 2 > side
  }

  predicate ItemTooBig(native: Native<CString>, length: nat) {
    match native
    case Error(code) => code == -1
    case Value(_, value) => |value| + 2 > length
  }

  /** The native call that ends the retry, on buffers twice as large each time. */
  ghost predicate ListEndsAt(natives: seq<Native<seq<CString>>>, side: nat, k: nat) {
    && k < |natives| && !ListTooBig(natives[k], side * Pow2(k))
    && forall i :: 0 <= i < k ==> ListTooBig(natives[i], side * Pow2(i))
  }

  ghost predicate ItemEndsAt(natives: seq<Native<CString>>, length: nat, k: nat) {
    && k < |natives| && !ItemTooBig(natives[k], length * Pow2(k))
    && forall i :: 0 <= i < k ==> ItemTooBig(natives[i], length * Pow2(i))
  }

  lemma ListTooBigIff(native: Native<seq<CString>>, side: nat)
    requires side >= 2
    ensures ListTooBig(native, side) <==> Code(ListDemand(native), side) == -1
  {
    if native.Value? {
      FitsIffNeeded(native.value, side);
    }
  }

  lemma ListEndsIff(natives: seq<Native<seq<CString>>>, side: nat, k: nat)
    requires side >= 2
    ensures Settles(ListDemands(natives), side) == Some(k) <==> ListEndsAt(natives, side, k)
  {
    var demands := ListDemands(natives);
    if k < |natives| {
      SettlesAtFirst(demands, side, k);
      forall i: nat | i < |natives| ensures ListTooBig(natives[i], side * Pow2(i)) <==> CodeAt(demands, side, i) == -1 {
        Pow2Grows(side, i);
        ListTooBigIff(natives[i], side * Pow2(i));
      }
    }
  }

  lemma ItemEndsIff(natives: seq<Native<CString>>, length: nat, k: nat)
    ensures Settles(ItemDemands(natives), length) == Some(k) <==> ItemEndsAt(natives, length, k)
  {
    var demands := ItemDemands(natives);
    if k < |natives| {
      SettlesAtFirst(demands, length, k);
      forall i: nat | i < |natives| ensures ItemTooBig(natives[i], length * Pow2(i)) <==> CodeAt(demands, length, i) == -1 {
      }
    }
  }

  lemma {:induction false} Pow2Grows(size: nat, n: nat)
    ensures size * Pow2(n) >= size
  {
    if n > 0 {
      Pow2Grows(size, n - 1);
      PowShift(size, n - 1);
    }
  }

  lemma ListRetryReads(natives: seq<Native<seq<CString>>>, side: nat)
    requires side >= 2
    ensures var reply := ReplyFrom(ListDemands(natives), ListReplies(natives), side);
      && (reply.Some? <==> exists k: nat :: ListEndsAt(natives, side, k))
      && forall k: nat :: ListEndsAt(natives, side, k) ==> reply.Some? && ReadsList(natives[k], reply.value)
    ensures forall k: nat :: ListEndsAt(natives, side, k) ==> Grown(ListDemands(natives), side) == side * Pow2(k)
  {
    forall k: nat ensures Settles(ListDemands(natives), side) == Some(k) <==> ListEndsAt(natives, side, k) {
      ListEndsIff(natives, side, k);
    }
    var s := Settles(ListDemands(natives), side);
    if s.Some? {
      assert ListEndsAt(natives, side, s.value);
      ListReplyReads(natives[s.value]);
    }
  }

  lemma ItemRetryReads(natives: seq<Native<CString>>, length: nat)
    ensures var reply := ReplyFrom(ItemDemands(natives), ItemReplies(natives), length);
      && (reply.Some? <==> exists k: nat :: ItemEndsAt(natives, length, k))
      && forall k: nat :: ItemEndsAt(natives, length, k) ==> reply.Some? && ReadsItem(natives[k], reply.value)
    ensures forall k: nat :: ItemEndsAt(natives, length, k) ==> Grown(ItemDemands(natives), length) == length * Pow2(k)
  {
    forall k: nat ensures Settles(ItemDemands(natives), length) == Some(k) <==> ItemEndsAt(natives, length, k) {
      ItemEndsIff(natives, length, k);
    }
    var s := Settles(ItemDemands(natives), length);
    if s.Some? {
      assert ItemEndsAt(natives, length, s.value);
      ItemReplyReads(natives[s.value]);
    }
  }

  function ListReplies(natives: seq<Native<seq<CString>>>): (r: seq<Reply>)
    ensures |r| == |natives| && forall i :: 0 <= i < |natives| ==> r[i] == ListReply(natives[i])
  {
    if natives == [] then [] else [ListReply(natives[0])] + ListReplies(natives[1..])
  }

  function ItemReplies(natives: seq<Native<CString>>): (r: seq<Reply>)
    ensures |r| == |natives| && forall i :: 0 <= i < |natives| ==> r[i] == ItemReply(natives[i])
  {
    if natives == [] then [] else [ItemReply(natives[0])] + ItemReplies(natives[1..])
  }

  /** The reply of a retry that starts with a buffer of the given size, and the size at its end. */
  function ReplyFrom(demands: seq<Demand>, replies: seq<Reply>, size: nat): Option<Reply>
    requires |replies| == |demands|
  {
    match Settles(demands, size)
    case None => None
    case Some(k) => Some(replies[k])
  }

  function Grown(demands: seq<Demand>, size: nat): nat {
    match Settles(demands, size)
    case None => size * Pow2(|demands|)
    case Some(k) => size * Pow2(k)
  }

  lemma RetryEnds(demands: seq<Demand>, replies: seq<Reply>, size: nat)
    requires |replies| == |demands|
    ensures demands == [] ==> ReplyFrom(demands, replies, size) == None && Grown(demands, size) == size
    ensures demands != [] && Code(demands[0], size) != -1 ==>
      ReplyFrom(demands, replies, size) == Some(replies[0]) && Grown(demands, size) == size
  {
  }

  lemma RetryGoesOn(demands: seq<Demand>, replies: seq<Reply>, size: nat)
    requires |replies| == |demands| > 0 && Code(demands[0], size) == -1
    ensures ReplyFrom(demands, replies, size) == ReplyFrom(demands[1..], replies[1..], 2 * size)
    ensures Grown(demands, size) == Grown(demands[1..], 2 * size)
  {
    var later := Settles(demands[1..], 2 * size);
    var k := if later.Some? then later.value else |demands| - 1;
    PowShift(size, k);
  }

  lemma PowShift(size: nat, k: nat)
    ensures size * Pow2(k + 1) == 2 * size * Pow2(k)
  {
  }

  function Pow2(n: nat): nat {
    if n == 0 then 1 else 2 * Pow2(n - 1)
  }

  /** How often a size is doubled until it is large enough. */
  function Doublings(size: nat, need: nat): nat
    requires size > 0
    decreases need - size
  {
    if size >= need then 0 else 1 + Doublings(2 * size, need)
  }

  /** The number of doublings is the logarithm of what is missing: no fewer would do. */
  lemma {:induction false} DoublingsExact(size: nat, need: nat)
    requires size > 0
    ensures var d := Doublings(size, need); size * Pow2(d) >= need && (d > 0 ==> size * Pow2(d - 1) < need)
    decreases need - size
  {
    if size < need {
      DoublingsExact(2 * size, need);
    }
  }

  /** The code of the call after `i` doublings. */
  function CodeAt(demands: seq<Demand>, size: nat, i: nat): int
    requires i < |demands|
  {
    Code(demands[i], size * Pow2(i))
  }

  /** The call that ends the retry is the first that gets a code other than -1 from its buffer. */
  lemma {:induction false} SettlesAtFirst(demands: seq<Demand>, size: nat, n: nat)
    requires n < |demands|
    ensures Settles(demands, size) == Some(n) <==>
      CodeAt(demands, size, n) != -1 && forall i :: 0 <= i < n ==> CodeAt(demands, size, i) == -1
  {
    if n > 0 {
      SettlesAtFirst(demands[1..], 2 * size, n - 1);
      forall i | 0 < i <= n ensures CodeAt(demands, size, i) == CodeAt(demands[1..], 2 * size, i - 1) {
        PowShift(size, i - 1);
      }
      assert CodeAt(demands, size, 0) == Code(demands[0], size);
      assert forall i :: 0 <= i < n - 1 ==> CodeAt(demands[1..], 2 * size, i) == CodeAt(demands, size, i + 1);
    }
  }

  /** Whatever the operation comes to from call to call: if it never fails with -1 and never needs more
      than `bound`, the retry ends after at most as many doublings as `bound` takes. */
  lemma {:induction false} BoundedSettles(demands: seq<Demand>, size: nat, bound: nat)
    requires size > 0 && |demands| > Doublings(size, bound)
    requires forall d :: d in demands ==> if d.Refused? then d.code != -1 else d.need <= bound
    ensures Settles(demands, size).Some? && Settles(demands, size).value <= Doublings(size, bound)
    decreases |demands|
  {
    assert demands[0] in demands;
    if Code(demands[0], size) == -1 {
      assert forall d :: d in demands[1..] ==> d in demands;
      BoundedSettles(demands[1..], 2 * size, bound);
    }
  }

  /** An operation that comes to the same at every call settles in exactly as many calls as its value
      takes doublings, and one more; it never does if it fails with -1, CPLE_AppDefined. */
  lemma {:induction false} SteadySettles(demand: Demand, size: nat, n: nat)
    requires size > 0
    ensures Settles(seq(n, _ => demand), size) ==
      match demand
      case Refused(code) => if n > 0 && code != -1 then Some(0) else None
      case Wants(_, need) => if n > Doublings(size, need) then Some(Doublings(size, need)) else None
    decreases n
  {
    var demands := seq(n, _ => demand);
    if n > 0 {
      assert demands[1..] == seq(n - 1, _ => demand);
      SteadySettles(demand, 2 * size, n - 1);
    }
  }

  /** So the retry of a steady operation, be it for a list or for a single value, ends if and only if
      the operation does not itself fail with -1. */
  lemma RetryEndsIff(demand: Demand, size: nat)
    requires size > 0
    ensures (exists n: nat :: SettlesWithin(demand, size, n)) <==> demand != Refused(-1)
  {
    if demand == Refused(-1) {
      forall n: nat ensures !SettlesWithin(demand, size, n) {
        SteadySettles(demand, size, n);
      }
    } else {
      var n := if demand.Refused? then 1 else 1 + Doublings(size, demand.need);
      SteadySettles(demand, size, n);
      assert SettlesWithin(demand, size, n);
    }
  }

  ghost predicate SettlesWithin(demand: Demand, size: nat, n: nat) {
    Settles(seq(n, _ => demand), size).Some?
  }

  /** The scratch buffers of one Java thread. */
  class Scratch {
    var one: array?<Byte>
    var two: array2?<Byte>

    constructor ()
      ensures one == null && two == null && Valid()
    {
      one, two := null, null;
    }

    /** The buffer for lists is square, and its last row begins with a zero however dirty the others are. */
    ghost predicate Valid()
      reads this, two
    {
      && (one != null ==> one.Length >= INITIAL)
      && (two != null ==> two.Length0 == two.Length1 >= INITIAL && two[two.Length0 - 1, 0] == 0)
    }

    function Side(): nat
      reads this
    {
      if two == null then INITIAL else two.Length0
    }

    function Length(): nat
      reads this
    {
      if one == null then INITIAL else one.Length
    }

    method EnsureTwo() returns (len: nat)
      requires Valid()
      modifies this`two
      ensures Valid() && two != null && len == two.Length0 == old(Side())
      ensures if old(two) == null then fresh(two) else two == old(two)
    {
      if two == null {
        len := INITIAL;
        two := new Byte[len, len]((i, j) => 0);
      } else {
        len := two.Length0;
      }
    }

    /** The buffer that turned out too small may be dirty all over; it is replaced by a clean one. */
    method GrowTwo(wanted: int)
      requires two != null && two.Length0 >= INITIAL && (wanted <= 0 || wanted >= INITIAL)
      requires one != null ==> one.Length >= INITIAL
      modifies this`two
      ensures Valid() && two != null && fresh(two)
      ensures two.Length0 == if wanted <= 0 then 2 * old(two.Length0) else wanted
    {
      var len := if wanted <= 0 then 2 * two.Length0 else wanted;
      two := new Byte[len, len]((i, j) => 0);
    }

    method EnsureOne() returns (len: nat)
      requires Valid()
      modifies this`one
      ensures Valid() && one != null && len == one.Length == old(Length())
      ensures if old(one) == null then fresh(one) else one == old(one)
    {
      if one == null {
        len := INITIAL;
        one := new Byte[len](_ => 0);
      } else {
        len := one.Length;
      }
    }

    method GrowOne(wanted: int)
      requires Valid() && one != null && (wanted <= 0 || wanted >= INITIAL)
      modifies this`one
      ensures Valid() && one != null && fresh(one)
      ensures one.Length == if wanted <= 0 then 2 * old(one.Length) else wanted
    {
      var len := if wanted <= 0 then 2 * one.Length else wanted;
      one := new Byte[len](_ => 0);
    }

    /** The native call: an error comes back before anything is written. */
    method NativeList(native: Native<seq<CString>>) returns (code: int)
      requires Valid() && two != null
      requires native.Error? ==> native.code < 0
      modifies two
      ensures code == Code(ListDemand(native), two.Length0)
      ensures native.Error? ==> forall i, j :: 0 <= i < two.Length0 && 0 <= j < two.Length1 ==> two[i, j] == old(two[i, j])
      ensures code >= 0 ==> native.Value? && |native.value| < two.Length0
      ensures code >= 0 ==> forall i :: 0 <= i < |native.value| ==> Holds(two, i, Stored(native.value[i]))
      ensures code >= 0 ==> Valid() && two[|native.value|, 0] == 0
    {
      if native.Error? {
        return native.code;
      }
      FitsIffNeeded(native.value, two.Length0);
      code := EncodeList(two, native.value, native.retval);
    }

    /** The decoding half of get_metadata_domain_list and get_metadata: rows up to the first that is
        empty, the last of them first.  Without an empty row it would run off the end of the buffer. */
    method DecodeList(ghost strings: seq<CString>) returns (list: seq<seq<Byte>>)
      requires Valid() && two != null && |strings| < two.Length0
      requires forall i :: 0 <= i < |strings| ==> Holds(two, i, Stored(strings[i]))
      requires two[|strings|, 0] == 0
      ensures list == Trimmed(strings)
      ensures |list| == |strings| && forall i :: 0 <= i < |strings| ==> Cut(list[i], strings[i])
    {
      var n: nat := 0;
      while two[n, 0] != 0
        invariant n <= |strings|
        decreases |strings| - n
      {
        assert n < |strings|;
        n := n + 1;
      }
      assert n < |strings| ==> Holds(two, n, Stored(strings[n]));
      var result := new seq<Byte>[n](_ => []);
      var k := n - 1;
      while k >= 0
        invariant -1 <= k < n
        invariant forall j :: k < j < n ==> result[j] == Trim(strings[j])
      {
        var row := DecodeRow(k, strings[k]);
        result[k] := row;
        k := k - 1;
      }
      list := result[..];
      TrimmedReads(strings);
    }

    /** The bytes of a row up to its terminator, as a string, trimmed. */
    method DecodeRow(i: nat, ghost s: CString) returns (row: seq<Byte>)
      requires two != null && i < two.Length0 && Holds(two, i, Stored(s))
      ensures row == Trim(s)
    {
      var m: nat := 0;
      row := [];
      while m < two.Length1 && two[i, m] != 0
        invariant m <= |Stored(s)|
        invariant row == Stored(s)[..m]
      {
        row := row + [two[i, m]];
        m := m + 1;
      }
      assert row == Stored(s);
      StoredTrims(s);
      row := Trim(row);
    }

    /** get_metadata_domain_list and get_metadata: a call that is told that its buffer is too small
        doubles the buffer and calls itself.  `natives` says what the wrapped operation comes to at each
        of the native calls; the result is None if it is still retrying when they end. */
    method GetList(natives: seq<Native<seq<CString>>>) returns (reply: Option<Reply>)
      requires Valid() && forall i :: 0 <= i < |natives| && natives[i].Error? ==> natives[i].code < 0
      modifies this`two, if two == null then {} else {two}
      ensures Valid() && two != null && (two == old(two) || fresh(two))
      ensures reply == ReplyFrom(ListDemands(natives), ListReplies(natives), old(Side()))
      ensures Side() == Grown(ListDemands(natives), old(Side()))
      ensures reply.Some? <==> exists k: nat :: ListEndsAt(natives, old(Side()), k)
      ensures forall k: nat :: ListEndsAt(natives, old(Side()), k) ==>
        reply.Some? && ReadsList(natives[k], reply.value) && Side() == old(Side()) * Pow2(k)
      decreases |natives|
    {
      hide Trimmed, Need, ReplyFrom, Grown, Fits, ListEndsAt, ReadsList;
      ListRetryReads(natives, Side());
      RetryEnds(ListDemands(natives), ListReplies(natives), Side());
      var arrayLen := EnsureTwo();
      if |natives| == 0 {
        return None;
      }
      var retval := NativeList(natives[0]);
      if retval >= 0 {
        var list := DecodeList(natives[0].value);
        reply := Some(Strings(retval, Some(list)));
      } else if retval == -1 {
        RetryGoesOn(ListDemands(natives), ListReplies(natives), Side());
        GrowTwo(0);
        reply := GetList(natives[1..]);
      } else {
        reply := Some(Strings(retval, None));
      }
    }

    method NativeItem(native: Native<CString>) returns (code: int)
      requires one != null && (native.Error? ==> native.code < 0)
      modifies one
      ensures code == Code(ItemDemand(native), one.Length)
      ensures code >= 0 ==> native.Value? && |native.value| < one.Length
      ensures code >= 0 ==> one[..|native.value|] == native.value && one[|native.value|] == 0
    {
      if native.Error? {
        return native.code;
      }
      code := EncodeItem(one, native.value, native.retval);
    }

    /** The bytes of the buffer up to the terminator, as a string, trimmed. */
    method DecodeItem(arrayLen: nat, ghost value: CString) returns (text: seq<Byte>)
      requires one != null && |value| < one.Length == arrayLen && one[..|value|] == value && one[|value|] == 0
      ensures text == Trim(value)
    {
      var m: nat := 0;
      assert forall j :: 0 <= j < |value| ==> one[..|value|][j] == one[j] == value[j] != 0;
      while m < arrayLen && one[m] != 0
        invariant m <= |value|
      {
        assert m < |value|;
        m := m + 1;
      }
      text := Trim(one[..m]);
    }

    /** get_metadata_item, with the same retry over the other buffer. */
    method GetItem(natives: seq<Native<CString>>) returns (reply: Option<Reply>)
      requires Valid() && forall i :: 0 <= i < |natives| && natives[i].Error? ==> natives[i].code < 0
      modifies this`one, if one == null then {} else {one}
      ensures Valid() && one != null && (one == old(one) || fresh(one))
      ensures reply == ReplyFrom(ItemDemands(natives), ItemReplies(natives), old(Length()))
      ensures Length() == Grown(ItemDemands(natives), old(Length()))
      ensures reply.Some? <==> exists k: nat :: ItemEndsAt(natives, old(Length()), k)
      ensures forall k: nat :: ItemEndsAt(natives, old(Length()), k) ==>
        reply.Some? && ReadsItem(natives[k], reply.value) && Length() == old(Length()) * Pow2(k)
      decreases |natives|
    {
      hide Trim, ReplyFrom, Grown, ItemEndsAt, ReadsItem;
      ItemRetryReads(natives, Length());
      RetryEnds(ItemDemands(natives), ItemReplies(natives), Length());
      var arrayLen := EnsureOne();
      if |natives| == 0 {
        return None;
      }
      var retval := NativeItem(natives[0]);
      if retval >= 0 {
        var text := DecodeItem(arrayLen, natives[0].value);
        reply := Some(Text(retval, Some(text)));
      } else if retval == -1 {
        RetryGoesOn(ItemDemands(natives), ItemReplies(natives), Length());
        GrowOne(0);
        reply := GetItem(natives[1..]);
      } else {
        reply := Some(Text(retval, None));
      }
    }

    /** get_version_info: the native side reports the whole length, so one larger buffer is enough. */
    method GetVersionInfo(info: CString) returns (text: seq<Byte>)
      requires Valid()
      modifies this`one, if one == null then {} else {one}
      ensures Valid() && one != null && (one == old(one) || fresh(one))
      ensures text == Trim(info) && Cut(text, info)
      ensures Length() == if |info| < old(Length()) then old(Length()) else |info| + 1
    {
      var arrayLen := EnsureOne();
      var length := EncodeInfo(one, info);
      if length >= arrayLen {
        GrowOne(length + 1);
        length := EncodeInfo(one, info);
      }
      text := Trim(one[..length]);
      TrimCuts(info);
    }
  }

  // ----- any history of calls on one thread -----

  /** A call from Java, with what the wrapped operation comes to at each of the native calls it may take. */
  datatype Call = List(lists: seq<Native<seq<CString>>>) | Item(items: seq<Native<CString>>) | Info(info: CString)

  predicate ErrorsAreNegative(call: Call) {
    && (call.List? ==> forall i :: 0 <= i < |call.lists| && call.lists[i].Error? ==> call.lists[i].code < 0)
    && (call.Item? ==> forall i :: 0 <= i < |call.items| && call.items[i].Error? ==> call.items[i].code < 0)
  }

  /** The reply of a call on buffers of the given sizes, whatever they contain. */
  function ReplyOf(call: Call, length: nat, side: nat): Option<Reply> {
    match call
    case List(natives) => ReplyFrom(ListDemands(natives), ListReplies(natives), side)
    case Item(natives) => ReplyFrom(ItemDemands(natives), ItemReplies(natives), length)
    case Info(info) => Some(Text(|info|, Some(Trim(info))))
  }

  function LengthAfter(call: Call, length: nat): nat {
    match call
    case List(_) => length
    case Item(natives) => Grown(ItemDemands(natives), length)
    case Info(info) => if |info| < length then length else |info| + 1
  }

  function SideAfter(call: Call, side: nat): nat {
    if call.List? then Grown(ListDemands(call.lists), side) else side
  }

  /** The replies to a history of calls, up to the first that never ends. */
  function Replies(calls: seq<Call>, length: nat, side: nat): seq<Reply> {
    if calls == [] || ReplyOf(calls[0], length, side) == None then []
    else [ReplyOf(calls[0], length, side).value] + Replies(calls[1..], LengthAfter(calls[0], length), SideAfter(calls[0], side))
  }

  method Perform(scratch: Scratch, call: Call) returns (reply: Option<Reply>)
    requires scratch.Valid() && ErrorsAreNegative(call)
    modifies scratch, if scratch.one == null then {} else {scratch.one}, if scratch.two == null then {} else {scratch.two}
    ensures scratch.Valid()
    ensures scratch.one == old(scratch.one) || (scratch.one != null && fresh(scratch.one))
    ensures scratch.two == old(scratch.two) || (scratch.two != null && fresh(scratch.two))
    ensures reply == ReplyOf(call, old(scratch.Length()), old(scratch.Side()))
    ensures scratch.Length() == LengthAfter(call, old(scratch.Length())) && scratch.Side() == SideAfter(call, old(scratch.Side()))
  {
    match call {
      case List(natives) => reply := scratch.GetList(natives);
      case Item(natives) => reply := scratch.GetItem(natives);
      case Info(info) =>
        var text := scratch.GetVersionInfo(info);
        reply := Some(Text(|info|, Some(text)));
    }
  }

  /** Any history of calls on one thread: what the calls before have left in the buffers does not show. */
  method History(calls: seq<Call>) returns (replies: seq<Reply>)
    requires forall i :: 0 <= i < |calls| ==> ErrorsAreNegative(calls[i])
    ensures replies == Replies(calls, 256, 256)
    ensures |replies| <= |calls| && forall i :: 0 <= i < |replies| ==> Own(calls[i], replies[i])
    ensures (forall i :: 0 <= i < |calls| ==> Ends(calls[i])) ==> |replies| == |calls|
  {
    hide Own, Ends, Replies;
    HistoryPromises(calls);
    var scratch := new Scratch();
    replies := [];
    assert calls[0..] == calls;
    for n := 0 to |calls|
      invariant scratch.Valid() && fresh(scratch)
      invariant (scratch.one != null ==> fresh(scratch.one)) && (scratch.two != null ==> fresh(scratch.two))
      invariant replies + Replies(calls[n..], scratch.Length(), scratch.Side()) == Replies(calls, INITIAL, INITIAL)
    {
      assert ErrorsAreNegative(calls[n]);
      NextReply(calls, n, scratch.Length(), scratch.Side());
      var reply := Perform(scratch, calls[n]);
      if reply == None {
        assert replies + [] == replies;
        return;
      }
      replies := replies + [reply.value];
    }
    NextReply(calls, |calls|, scratch.Length(), scratch.Side());
    assert replies + [] == replies;
  }

  lemma HistoryPromises(calls: seq<Call>)
    ensures var replies := Replies(calls, 256, 256);
      && |replies| <= |calls| && (forall i :: 0 <= i < |replies| ==> Own(calls[i], replies[i]))
      && ((forall i :: 0 <= i < |calls| ==> Ends(calls[i])) ==> |replies| == |calls|)
  {
    hide Own, Ends;
    HistoryIsOwn(calls, 256, 256);
    if forall i :: 0 <= i < |calls| ==> Ends(calls[i]) {
      AllAreAnswered(calls, 256, 256);
    }
  }

  lemma NextReply(calls: seq<Call>, n: nat, length: nat, side: nat)
    requires n <= |calls|
    ensures n == |calls| ==> Replies(calls[n..], length, side) == []
    ensures n < |calls| ==>
      var reply := ReplyOf(calls[n], length, side);
      Replies(calls[n..], length, side) ==
        if reply == None then [] else [reply.value] + Replies(calls[n + 1..], LengthAfter(calls[n], length), SideAfter(calls[n], side))
  {
    if n < |calls| {
      assert calls[n..][0] == calls[n] && calls[n..][1..] == calls[n + 1..];
    }
  }

  /** Some native call of this call from Java would be content with a new buffer doubled that often. */
  ghost predicate Ends(call: Call) {
    match call
    case List(natives) => exists n: nat :: n < |natives| && !ListTooBig(natives[n], 256 * Pow2(n))
    case Item(natives) => exists n: nat :: n < |natives| && !ItemTooBig(natives[n], 256 * Pow2(n))
    case Info(_) => true
  }

  lemma SomeSettles(demands: seq<Demand>, size: nat, n: nat)
    requires n < |demands| && CodeAt(demands, size, n) != -1
    ensures Settles(demands, size).Some?
    decreases |demands|
  {
    if Code(demands[0], size) == -1 && n > 0 {
      PowShift(size, n - 1);
      SomeSettles(demands[1..], 2 * size, n - 1);
    }
  }

  lemma LargerFits(demand: Demand, size: nat, larger: nat)
    requires Code(demand, size) != -1 && size <= larger
    ensures Code(demand, larger) != -1
  {
  }

  lemma MoreTimesAsLarge(a: nat, b: nat, n: nat)
    requires a <= b
    ensures a * n <= b * n
  {
    assert b * n == a * n + (b - a) * n && (b - a) * n >= 0;
  }

  lemma SettlesFromAnySize(demands: seq<Demand>, size: nat, n: nat)
    requires size >= 256 && n < |demands| && Code(demands[n], 256 * Pow2(n)) != -1
    ensures Settles(demands, size).Some? && Grown(demands, size) >= 256
  {
    MoreTimesAsLarge(256, size, Pow2(n));
    LargerFits(demands[n], 256 * Pow2(n), size * Pow2(n));
    SomeSettles(demands, size, n);
    Pow2Grows(size, Settles(demands, size).value);
  }

  lemma EndingIsAnswered(call: Call, length: nat, side: nat)
    requires Ends(call) && length >= 256 && side >= 256
    ensures ReplyOf(call, length, side).Some? && LengthAfter(call, length) >= 256 && SideAfter(call, side) >= 256
  {
    match call
    case List(natives) =>
      var n: nat :| n < |natives| && !ListTooBig(natives[n], 256 * Pow2(n));
      Pow2Grows(256, n);
      ListTooBigIff(natives[n], 256 * Pow2(n));
      SettlesFromAnySize(ListDemands(natives), side, n);
    case Item(natives) =>
      var n: nat :| n < |natives| && !ItemTooBig(natives[n], 256 * Pow2(n));
      SettlesFromAnySize(ItemDemands(natives), length, n);
    case Info(_) =>
  }

  /** No call goes without a reply. */
  lemma {:induction false} AllAreAnswered(calls: seq<Call>, length: nat, side: nat)
    requires length >= 256 && side >= 256 && forall i :: 0 <= i < |calls| ==> Ends(calls[i])
    ensures |Replies(calls, length, side)| == |calls|
    decreases |calls|
  {
    hide Ends, ReplyOf, LengthAfter, SideAfter;
    if calls != [] {
      EndingIsAnswered(calls[0], length, side);
      AllAreAnswered(calls[1..], LengthAfter(calls[0], length), SideAfter(calls[0], side));
    }
  }

  lemma HistoryIsOwn(calls: seq<Call>, length: nat, side: nat)
    ensures var replies := Replies(calls, length, side);
      |replies| <= |calls| && forall i :: 0 <= i < |replies| ==> Own(calls[i], replies[i])
  {
    var replies := Replies(calls, length, side);
    forall i | 0 <= i < |replies| ensures i < |calls| && Own(calls[i], replies[i]) {
      EachReadsItsOwn(calls, length, side, i);
    }
    if replies != [] {
      EachReadsItsOwn(calls, length, side, |replies| - 1);
    }
  }

  /** A reply reads back what the operation came to at one of the native calls of that very call from Java. */
  ghost predicate Own(call: Call, reply: Reply) {
    match call
    case List(natives) => exists k :: 0 <= k < |natives| && ReadsList(natives[k], reply)
    case Item(natives) => exists k :: 0 <= k < |natives| && ReadsItem(natives[k], reply)
    case Info(info) => reply.Text? && reply.retval == |info| && reply.text.Some? && Cut(reply.text.value, info)
  }

  lemma ReplyIsOwn(call: Call, length: nat, side: nat)
    ensures ReplyOf(call, length, side).Some? ==> Own(call, ReplyOf(call, length, side).value)
  {
    match call
    case List(natives) =>
      var s := Settles(ListDemands(natives), side);
      if s.Some? {
        ListReplyReads(natives[s.value]);
      }
    case Item(natives) =>
      var s := Settles(ItemDemands(natives), length);
      if s.Some? {
        ItemReplyReads(natives[s.value]);
      }
    case Info(info) => TrimCuts(info);
  }

  lemma {:induction false} EachReadsItsOwn(calls: seq<Call>, length: nat, side: nat, i: nat)
    requires i < |Replies(calls, length, side)|
    ensures i < |calls| && Own(calls[i], Replies(calls, length, side)[i])
    decreases |calls|
  {
    hide Own, ReplyOf;
    ReplyIsOwn(calls[0], length, side);
    if i > 0 {
      EachReadsItsOwn(calls[1..], LengthAfter(calls[0], length), SideAfter(calls[0], side), i - 1);
    }
  }

  /** A steady list operation gets its reply from buffers of any size, given enough calls. */
  lemma SteadyListReply(native: Native<seq<CString>>, n: nat, length: nat, side: nat)
    requires side > 0 && native != Error(-1)
    requires n > if native.Error? then 0 else Doublings(side, Need(native.value))
    ensures ReplyOf(List(seq(n, _ => native)), length, side) == Some(ListReply(native))
  {
    assert ListDemands(seq(n, _ => native)) == seq(n, _ => ListDemand(native));
    SteadySettles(ListDemand(native), side, n);
  }

  lemma SteadyItemReply(native: Native<CString>, n: nat, length: nat, side: nat)
    requires length > 0 && native != Error(-1)
    requires n > if native.Error? then 0 else Doublings(length, |native.value| + 2)
    ensures ReplyOf(Item(seq(n, _ => native)), length, side) == Some(ItemReply(native))
  {
    assert ItemDemands(seq(n, _ => native)) == seq(n, _ => ItemDemand(native));
    SteadySettles(ItemDemand(native), length, n);
  }

  function Trimmed(strings: seq<CString>): (r: seq<seq<Byte>>)
    ensures |r| == |strings|
  {
    seq(|strings|, i requires 0 <= i < |strings| => Trim(strings[i]))
  }

  lemma StoredTrims(s: CString)
    ensures Trim(Stored(s)) == Trim(s)
  {
    if s == [] {
      assert TrimFront([SPACE]) == TrimFront([SPACE][1..]) == [];
    }
  }
}
