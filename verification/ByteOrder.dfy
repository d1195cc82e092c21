/** Pixels on their way to Java: get_data in src/com_azavea_gdal_GDALWarp.c puts every word into big-endian order, in place. */
module ByteOrder {
  import opened Types

  // ----- pixel types (GDALWarp.java) -----

  const GDT_UINT16 := 2
  const GDT_INT16 := 3
  const GDT_UINT32 := 4
  const GDT_INT32 := 5
  const GDT_FLOAT32 := 6
  const GDT_FLOAT64 := 7
  const GDT_CINT16 := 8
  const GDT_CINT32 := 9
  const GDT_CFLOAT32 := 10
  const GDT_CFLOAT64 := 11

  /** The width of the words that the switch swaps, zero where it swaps none.  A complex type has two words to a pixel. */
  function Width(pixelType: int): nat {
    if pixelType == GDT_INT16 || pixelType == GDT_UINT16 || pixelType == GDT_CINT16 then 2
    else if pixelType in {GDT_INT32, GDT_UINT32, GDT_CINT32, GDT_FLOAT32, GDT_CFLOAT32} then 4
    else if pixelType == GDT_FLOAT64 || pixelType == GDT_CFLOAT64 then 8
    else 0
  }

  // ----- the specification -----

  function Reversed(s: seq<Byte>): (r: seq<Byte>)
    ensures |r| == |s|
    ensures forall j :: 0 <= j < |s| ==> r[j] == s[|s| - 1 - j]
  {
    if s == [] then [] else [s[|s| - 1]] + Reversed(s[..|s| - 1])
  }

  /** htobe16, htobe32 and htobe64, on the bytes of the word in memory. */
  function Htobe(littleEndian: bool, word: seq<Byte>): (r: seq<Byte>)
    ensures |r| == |word|
  {
    if littleEndian then Reversed(word) else word
  }

  function Swapped(littleEndian: bool, s: seq<Byte>, w: nat): (r: seq<Byte>)
    requires w > 0
    ensures |r| == |s|
  {
    if |s| < w then s else Htobe(littleEndian, s[..w]) + Swapped(littleEndian, s[w..], w)
  }

  function Little(s: seq<Byte>): nat {
    if s == [] then 0 else s[0] + 256 * Little(s[1..])
  }

  function Big(s: seq<Byte>): nat {
    if s == [] then 0 else 256 * Big(s[..|s| - 1]) + s[|s| - 1]
  }

  /** The number that a host reads from a word. */
  function Native(littleEndian: bool, word: seq<Byte>): nat {
    if littleEndian then Little(word) else Big(word)
  }

  /** The numbers that a host of the given byte order reads from the whole words of a buffer. */
  function Numbers(littleEndian: bool, s: seq<Byte>, w: nat): seq<nat>
    requires w > 0
  {
    if |s| < w then [] else [Native(littleEndian, s[..w])] + Numbers(littleEndian, s[w..], w)
  }

  lemma {:induction false} BigOfReversed(s: seq<Byte>)
    ensures Big(Reversed(s)) == Little(s)
  {
    if s != [] {
      BigOfReversed(s[1..]);
      assert Reversed(s)[..|s| - 1] == Reversed(s[1..]);
    }
  }

  lemma SwappedSplits(littleEndian: bool, s: seq<Byte>, w: nat)
    requires 0 < w <= |s|
    ensures var r := Swapped(littleEndian, s, w);
      r[..w] == Htobe(littleEndian, s[..w]) && r[w..] == Swapped(littleEndian, s[w..], w)
  {
  }

  lemma HtobeTwice(littleEndian: bool, word: seq<Byte>)
    ensures Htobe(littleEndian, Htobe(littleEndian, word)) == word
  {
  }

  /** Java, which reads big-endian, reads the numbers that the host had before. */
  lemma {:induction false} JavaReadsTheNumbers(littleEndian: bool, s: seq<Byte>, w: nat)
    requires w > 0
    ensures Numbers(false, Swapped(littleEndian, s, w), w) == Numbers(littleEndian, s, w)
  {
    if |s| >= w {
      BigOfReversed(s[..w]);
      JavaReadsTheNumbers(littleEndian, s[w..], w);
      SwappedSplits(littleEndian, s, w);
    }
  }

  lemma {:induction false} SwappedTwice(littleEndian: bool, s: seq<Byte>, w: nat)
    requires w > 0
    ensures Swapped(littleEndian, Swapped(littleEndian, s, w), w) == s
  {
    if |s| >= w {
      SwappedTwice(littleEndian, s[w..], w);
      SwappedSplits(littleEndian, s, w);
      HtobeTwice(littleEndian, s[..w]);
      assert s == s[..w] + s[w..];
    }
  }

  lemma OneWordLess(k: nat, w: nat)
    requires k > 0
    ensures k * w == (k - 1) * w + w
  {
  }

  /** Each whole word is turned round where it lies. */
  lemma {:induction false} SwappedInWord(littleEndian: bool, s: seq<Byte>, w: nat, k: nat, j: nat)
    requires j < w && k * w + w <= |s|
    ensures Swapped(littleEndian, s, w)[k * w + j] == s[k * w + if littleEndian then w - 1 - j else j]
  {
    hide Swapped;
    SwappedSplits(littleEndian, s, w);
    var r := Swapped(littleEndian, s, w);
    if k == 0 {
      assert r[j] == r[..w][j];
    } else {
      OneWordLess(k, w);
      var at := (k - 1) * w;
      SwappedInWord(littleEndian, s[w..], w, k - 1, j);
      assert r[w + at + j] == r[w..][at + j];
    }
  }

  lemma SwappedShort(littleEndian: bool, s: seq<Byte>, w: nat)
    requires |s| < w
    ensures Swapped(littleEndian, s, w) == s
  {
  }

  /** The bytes after the last whole word stay as they are. */
  lemma {:induction false} SwappedKeepsRemainder(littleEndian: bool, s: seq<Byte>, w: nat, k: nat, j: nat)
    requires w > 0 && k * w <= j < |s| < k * w + w
    ensures Swapped(littleEndian, s, w)[j] == s[j]
  {
    hide Swapped;
    if k == 0 {
      SwappedShort(littleEndian, s, w);
    } else {
      OneWordLess(k, w);
      SwappedSplits(littleEndian, s, w);
      SwappedKeepsRemainder(littleEndian, s[w..], w, k - 1, j - w);
      assert Swapped(littleEndian, s, w)[j] == Swapped(littleEndian, s, w)[w..][j - w];
    }
  }

  predicate InWord(length: nat, w: nat, k: nat, j: nat) {
    j < w && k * w + w <= length
  }

  predicate Loose(length: nat, w: nat, k: nat, j: nat) {
    k * w <= j < length < k * w + w
  }

  /** Every whole word of `was` is turned round where it lies, if the host is little-endian, and the loose bytes at the end are left. */
  ghost predicate Turned(littleEndian: bool, was: seq<Byte>, now: seq<Byte>, w: nat) {
    && |now| == |was|
    && (forall k: nat, j: nat :: InWord(|was|, w, k, j) ==> now[k * w + j] == was[k * w + if littleEndian then w - 1 - j else j])
    && (forall k: nat, j: nat :: Loose(|was|, w, k, j) ==> now[j] == was[j])
  }

  lemma SwappedTurns(littleEndian: bool, s: seq<Byte>, w: nat)
    requires w > 0
    ensures Turned(littleEndian, s, Swapped(littleEndian, s, w), w)
  {
    hide Swapped;
    forall k: nat, j: nat | InWord(|s|, w, k, j)
      ensures Swapped(littleEndian, s, w)[k * w + j] == s[k * w + if littleEndian then w - 1 - j else j]
    {
      SwappedInWord(littleEndian, s, w, k, j);
    }
    forall k: nat, j: nat | Loose(|s|, w, k, j) ensures Swapped(littleEndian, s, w)[j] == s[j] {
      SwappedKeepsRemainder(littleEndian, s, w, k, j);
    }
  }

  // ----- the loop -----

  /** `i <= length - sizeof(word)`, which C computes in unsigned 64-bit arithmetic. */
  predicate Guard(i: nat, length: nat, w: nat) {
    i <= (length - w) % WORD_SIZE
  }

  lemma GuardMeans(i: nat, length: nat, w: nat)
    requires 0 < w <= 8 && length < 0x8000_0000 && i <= length
    ensures Guard(i, length, w) <==> length < w || i + w <= length
  {
    if length >= w {
      assert (length - w) % WORD_SIZE == length - w;
    } else {
      assert (length - w) % WORD_SIZE == length - w + WORD_SIZE;
    }
  }

  /** The loop stays inside the buffer exactly if the buffer holds at least one word. */
  lemma StaysInsideIff(length: nat, w: nat)
    requires 0 < w <= 8 && length < 0x8000_0000
    ensures (forall i: nat :: i < WORD_SIZE && Guard(i, length, w) ==> i + w <= length) <==> length >= w
  {
    assert Guard(0, length, w);
    if length < w {
      assert (length - w) % WORD_SIZE >= 0;
    }
  }

  /** `*ptr = htobe(*ptr)` for the word at `i`. */
  method StoreWord(littleEndian: bool, data: array<Byte>, i: nat, w: nat)
    requires i + w <= data.Length
    modifies data
    ensures var was := old(data[..]); data[..] == was[..i] + Htobe(littleEndian, was[i..i + w]) + was[i + w..]
  {
    var word := Htobe(littleEndian, data[i..i + w]);
    forall j | 0 <= j < w {
      data[i + j] := word[j];
    }
  }

  /** Before `i` the words are swapped, and from there on they are still to be swapped. */
  ghost predicate SwappedUpTo(littleEndian: bool, was: seq<Byte>, now: seq<Byte>, i: nat, w: nat) {
    && w > 0 && i <= |now| == |was|
    && now[..i] + Swapped(littleEndian, now[i..], w) == Swapped(littleEndian, was, w)
  }

  lemma SwapStarts(littleEndian: bool, was: seq<Byte>, w: nat)
    requires w > 0
    ensures SwappedUpTo(littleEndian, was, was, 0, w)
  {
    assert was[0..] == was;
  }

  lemma SwapStep(littleEndian: bool, was: seq<Byte>, before: seq<Byte>, after: seq<Byte>, i: nat, w: nat)
    requires SwappedUpTo(littleEndian, was, before, i, w) && i + w <= |before|
    requires after == before[..i] + Htobe(littleEndian, before[i..i + w]) + before[i + w..]
    ensures SwappedUpTo(littleEndian, was, after, i + w, w)
  {
    hide Swapped, Htobe;
    var rest := Swapped(littleEndian, before[i..], w);
    SwappedSplits(littleEndian, before[i..], w);
    assert before[i..][..w] == before[i..i + w] && before[i..][w..] == before[i + w..];
    assert rest == rest[..w] + rest[w..];
    assert after[i + w..] == before[i + w..];
    assert after[..i + w] == before[..i] + Htobe(littleEndian, before[i..i + w]);
  }

  lemma SwapEnds(littleEndian: bool, was: seq<Byte>, now: seq<Byte>, i: nat, w: nat)
    requires SwappedUpTo(littleEndian, was, now, i, w) && |now| - i < w
    ensures now == Swapped(littleEndian, was, w)
  {
    assert now[..i] + now[i..] == now;
  }

  /** The loop over the words.  A buffer shorter than one word is left at once: `inside` is false, and
      what the program would read and write beyond the buffer is not modelled. */
  method SwapWords(littleEndian: bool, data: array<Byte>, w: nat) returns (inside: bool)
    requires 0 < w <= 8 && data.Length < 0x8000_0000
    modifies data
    ensures inside <==> data.Length >= w
    ensures data[..] == Swapped(littleEndian, old(data[..]), w)
  {
    hide Guard, SwappedUpTo;
    var i: nat := 0;
    ghost var was := data[..];
    SwapStarts(littleEndian, was, w);
    while Guard(i, data.Length, w)
      invariant i <= data.Length && SwappedUpTo(littleEndian, was, data[..], i, w)
      invariant i > 0 ==> data.Length >= w
      decreases data.Length - i
    {
      GuardMeans(i, data.Length, w);
      if i + w > data.Length {
        SwapEnds(littleEndian, was, data[..], i, w);
        return false;
      }
      ghost var before := data[..];
      StoreWord(littleEndian, data, i, w);
      SwapStep(littleEndian, was, before, data[..], i, w);
      i := i + w;
    }
    GuardMeans(i, data.Length, w);
    SwapEnds(littleEndian, was, data[..], i, w);
    return true;
  }

  /** The switch of get_data.  It runs whether or not the pixels were read. */
  method ToJavaOrder(littleEndian: bool, pixelType: int, data: array<Byte>) returns (inside: bool)
    requires data.Length < 0x8000_0000
    modifies data
    ensures inside <==>
      && (pixelType in {2, 3, 8} ==> data.Length >= 2)
      && (pixelType in {4, 5, 6, 9, 10} ==> data.Length >= 4)
      && (pixelType in {7, 11} ==> data.Length >= 8)
    ensures pixelType in {2, 3, 8} ==> Turned(littleEndian, old(data[..]), data[..], 2)
    ensures pixelType in {4, 5, 6, 9, 10} ==> Turned(littleEndian, old(data[..]), data[..], 4)
    ensures pixelType in {7, 11} ==> Turned(littleEndian, old(data[..]), data[..], 8)
    ensures pixelType !in {2, 3, 4, 5, 6, 7, 8, 9, 10, 11} ==> data[..] == old(data[..])
    ensures pixelType in {2, 3, 8} ==> Numbers(false, data[..], 2) == Numbers(littleEndian, old(data[..]), 2)
    ensures pixelType in {4, 5, 6, 9, 10} ==> Numbers(false, data[..], 4) == Numbers(littleEndian, old(data[..]), 4)
    ensures pixelType in {7, 11} ==> Numbers(false, data[..], 8) == Numbers(littleEndian, old(data[..]), 8)
  {
    hide Swapped, Numbers;
    var w := Width(pixelType);
    inside := true;
    if w > 0 {
      ghost var was := data[..];
      inside := SwapWords(littleEndian, data, w);
      JavaReadsTheNumbers(littleEndian, was, w);
      SwappedTurns(littleEndian, was, w);
    }
  }
}
