/** The bit set that every analysis works with (set.c): 32-bit words that stand for a mathematical set. */
module BitSets {
  const BITS_PER_PARTITION: nat := 32

  /** The elements that create_full_set yields: all, unless the size is a positive multiple of the partition size. */
  function FullSet(size: nat): set<nat> {
    Below(if size % BITS_PER_PARTITION == 0 && 0 < size then size - BITS_PER_PARTITION else size)
  }

  function Below(n: nat): (s: set<nat>)
    ensures forall v: nat :: v in s <==> v < n
  {
    if n == 0 then {} else Below(n - 1) + {n - 1}
  }

  type Word = bv32

  /** A position in a word. */
  function Place(i: nat): (p: Word)
    requires i < 32
    ensures p < 32 && p as int == i
  {
    i as bv32
  }

  predicate BitAt(w: Word, p: Word)
    requires p < 32
  {
    (w >> p) & 1 == 1
  }

  function WithBit(w: Word, p: Word): Word
    requires p < 32
  {
    w | (1 << p)
  }

  function WithoutBit(w: Word, p: Word): Word
    requires p < 32
  {
    w & !(1 << p)
  }

  predicate TestsBit(w: Word, p: Word)
    requires p < 32
  {
    w & (1 << p) == 1 << p
  }

  lemma BitAdded(w: Word, p: Word, q: Word)
    requires p < 32 && q < 32
    ensures BitAt(WithBit(w, p), q) <==> BitAt(w, q) || q == p
  {
  }

  lemma BitRemoved(w: Word, p: Word, q: Word)
    requires p < 32 && q < 32
    ensures BitAt(WithoutBit(w, p), q) <==> BitAt(w, q) && q != p
  {
  }

  lemma BitTested(w: Word, p: Word)
    requires p < 32
    ensures TestsBit(w, p) <==> BitAt(w, p)
  {
  }

  function United(v: Word, w: Word): Word {
    v | w
  }

  function Common(v: Word, w: Word): Word {
    v & w
  }

  function Complement(w: Word): Word {
    !w
  }

  function Less(v: Word, w: Word): Word {
    Common(v, Complement(w))
  }

  lemma BitsOfWords(v: Word, w: Word, p: Word)
    requires p < 32
    ensures BitAt(v | w, p) <==> BitAt(v, p) || BitAt(w, p)
    ensures BitAt(v & w, p) <==> BitAt(v, p) && BitAt(w, p)
    ensures BitAt(!w, p) <==> !BitAt(w, p)
    ensures !BitAt(0, p)
  {
  }

  lemma BitUnited(v: Word, w: Word, p: Word)
    requires p < 32
    ensures BitAt(United(v, w), p) <==> BitAt(v, p) || BitAt(w, p)
  {
    hide BitAt;
    BitsOfWords(v, w, p);
  }

  lemma BitCommon(v: Word, w: Word, p: Word)
    requires p < 32
    ensures BitAt(Common(v, w), p) <==> BitAt(v, p) && BitAt(w, p)
  {
    hide BitAt;
    BitsOfWords(v, w, p);
  }

  lemma BitComplement(w: Word, p: Word)
    requires p < 32
    ensures BitAt(Complement(w), p) <==> !BitAt(w, p)
  {
    hide BitAt;
    BitsOfWords(0, w, p);
  }

  lemma BitLess(v: Word, w: Word, p: Word)
    requires p < 32
    ensures BitAt(Less(v, w), p) <==> BitAt(v, p) && !BitAt(w, p)
  {
    hide BitAt, Common, Complement;
    BitCommon(v, Complement(w), p);
    BitComplement(w, p);
  }

  lemma PlaceBefore(i: nat)
    requires 0 < i < 32
    ensures Place(i) != 0 && Place(i) - 1 == Place(i - 1)
  {
  }

  function Shifted(w: Word): Word {
    (w << 1) | 1
  }

  lemma ShiftedIn(w: Word, p: Word)
    requires p < 32
    ensures BitAt(Shifted(w), p) <==> p == 0 || BitAt(w, p - 1)
  {
  }

  /** The lowest `k` bits are set and no others. */
  ghost predicate LowBits(w: Word, k: nat) {
    forall i: nat :: i < 32 ==> (BitAt(w, Place(i)) <==> i < k)
  }

  lemma OneMoreLowBit(w: Word, k: nat)
    requires LowBits(w, k) && k < 32
    ensures LowBits(Shifted(w), k + 1)
  {
    hide BitAt, Place, Shifted;
    forall i: nat | i < 32 ensures BitAt(Shifted(w), Place(i)) <==> i < k + 1 {
      ShiftedIn(w, Place(i));
      if 0 < i {
        PlaceBefore(i);
      }
    }
  }

  /** No bits, and all of them. */
  lemma ConstantWords()
    ensures LowBits(0, 0) && LowBits(!0, 32)
  {
    hide BitAt, Place;
    forall i: nat | i < 32 ensures !BitAt(0, Place(i)) && BitAt(!0, Place(i)) {
      BitsOfWords(0, 0, Place(i));
    }
  }

  lemma SameBits(v: Word, w: Word) returns (p: Word)
    ensures p < 32
    ensures v != w ==> BitAt(v, p) != BitAt(w, p)
  {
    p := 0;
    while p < 31 && BitAt(v, p) == BitAt(w, p)
      invariant p < 32
      invariant v << (32 - p) == w << (32 - p)
    {
      p := p + 1;
    }
  }

  // ---------------------------------------------------------------- the set that words stand for

  predicate HasElement(words: seq<Word>, e: nat) {
    e < 32 * |words| && BitAt(words[e / 32], Place(e % 32))
  }

  function Elements(words: seq<Word>): (s: set<nat>)
    ensures forall e: nat :: e in s <==> HasElement(words, e)
  {
    set e: nat | e < 32 * |words| && HasElement(words, e)
  }

  /** Two lists of words of the same length stand for the same set only if they are the same. */
  lemma SameElements(a: seq<Word>, b: seq<Word>)
    requires |a| == |b|
    ensures Elements(a) == Elements(b) <==> a == b
  {
    if Elements(a) == Elements(b) {
      forall k | 0 <= k < |a| ensures a[k] == b[k] {
        var p := SameBits(a[k], b[k]);
        var e := 32 * k + p as int;
        assert e / 32 == k && Place(e % 32) == p;
        assert e in Elements(a) <==> e in Elements(b);
      }
    }
  }

  /** A word changes in one bit. */
  lemma OneWordChanged(words: seq<Word>, e: nat, w: Word, present: bool)
    requires e / 32 < |words|
    requires forall p: Word :: p < 32 ==>
              (BitAt(w, p) <==> if p == Place(e % 32) then present else BitAt(words[e / 32], p))
    ensures Elements(words[e / 32 := w]) == if present then Elements(words) + {e} else Elements(words) - {e}
  {
    hide BitAt, Place;
    var words' := words[e / 32 := w];
    forall x: nat ensures HasElement(words', x) <==> if x == e then present else HasElement(words, x) {
      if x / 32 == e / 32 {
        assert x % 32 == e % 32 <==> x == e;
        assert Place(x % 32) == Place(e % 32) <==> x == e;
      }
    }
  }

  lemma ElementAdded(words: seq<Word>, e: nat)
    requires e < 32 * |words|
    ensures Elements(words[e / 32 := WithBit(words[e / 32], Place(e % 32))]) == Elements(words) + {e}
  {
    hide *;
    forall p: Word | p < 32
      ensures BitAt(WithBit(words[e / 32], Place(e % 32)), p) <==>
                if p == Place(e % 32) then true else BitAt(words[e / 32], p)
    {
      BitAdded(words[e / 32], Place(e % 32), p);
    }
    OneWordChanged(words, e, WithBit(words[e / 32], Place(e % 32)), true);
  }

  lemma ElementRemoved(words: seq<Word>, e: nat)
    requires e < 32 * |words|
    ensures Elements(words[e / 32 := WithoutBit(words[e / 32], Place(e % 32))]) == Elements(words) - {e}
  {
    hide *;
    forall p: Word | p < 32
      ensures BitAt(WithoutBit(words[e / 32], Place(e % 32)), p) <==>
                if p == Place(e % 32) then false else BitAt(words[e / 32], p)
    {
      BitRemoved(words[e / 32], Place(e % 32), p);
    }
    OneWordChanged(words, e, WithoutBit(words[e / 32], Place(e % 32)), false);
  }

  // Words that combine those of two sets of the same size

  lemma WordsUnited(a: seq<Word>, b: seq<Word>, c: seq<Word>)
    requires |a| == |b| == |c| && forall k :: 0 <= k < |c| ==> c[k] == United(a[k], b[k])
    ensures Elements(c) == Elements(a) + Elements(b)
  {
    hide BitAt, Place, United;
    forall e: nat | e < 32 * |c| {
      BitUnited(a[e / 32], b[e / 32], Place(e % 32));
    }
  }

  lemma WordsCommon(a: seq<Word>, b: seq<Word>, c: seq<Word>)
    requires |a| == |b| == |c| && forall k :: 0 <= k < |c| ==> c[k] == Common(a[k], b[k])
    ensures Elements(c) == Elements(a) * Elements(b)
  {
    hide BitAt, Place, Common;
    forall e: nat | e < 32 * |c| {
      BitCommon(a[e / 32], b[e / 32], Place(e % 32));
    }
  }

  lemma WordsLess(a: seq<Word>, b: seq<Word>, c: seq<Word>)
    requires |a| == |b| == |c| && forall k :: 0 <= k < |c| ==> c[k] == Less(a[k], b[k])
    ensures Elements(c) == Elements(a) - Elements(b)
  {
    hide BitAt, Place, Less;
    forall e: nat | e < 32 * |c| {
      BitLess(a[e / 32], b[e / 32], Place(e % 32));
    }
  }

  lemma NoElements(words: seq<Word>)
    requires forall k :: 0 <= k < |words| ==> words[k] == 0
    ensures Elements(words) == {}
  {
    ConstantWords();
    hide BitAt, Place;
    forall e: nat ensures !HasElement(words, e) {
      if e < 32 * |words| {
        assert words[e / 32] == 0;
      }
    }
  }

  /** All words but the last one full, and the last one full up to the remainder of the size. */
  lemma FullWords(words: seq<Word>, size: nat)
    requires 0 < size && |words| == (size + 31) / 32
    requires (forall k :: 0 <= k < |words| - 1 ==> words[k] == !0) && LowBits(words[|words| - 1], size % 32)
    ensures Elements(words) == FullSet(size)
  {
    hide HasElement;
    forall e: nat ensures HasElement(words, e) <==> e < 32 * (|words| - 1) + size % 32 {
      FullWordsAt(words, size, e);
    }
  }

  lemma FullWordsAt(words: seq<Word>, size: nat, e: nat)
    requires 0 < size && |words| == (size + 31) / 32
    requires (forall k :: 0 <= k < |words| - 1 ==> words[k] == !0) && LowBits(words[|words| - 1], size % 32)
    ensures HasElement(words, e) <==> e < 32 * (|words| - 1) + size % 32
  {
    ConstantWords();
    hide BitAt, Place, Below;
    var last := |words| - 1;
    if e < 32 * last {
      assert words[e / 32] == !0;
    } else if e < 32 * |words| {
      assert words[e / 32] == words[last] && e % 32 == e - 32 * last;
    }
  }

  /** create_full_set yields all elements below the size exactly if the size is no multiple of 32. */
  lemma FullSetIsExact(size: nat)
    requires 0 < size
    ensures (forall e: nat :: e in FullSet(size) <==> e < size) <==> size % 32 != 0
  {
    if size % 32 == 0 {
      assert size - 1 !in FullSet(size);
    }
  }

  /** The words of a set for `size` elements have a place for the elements below this number. */
  function Places(size: nat): nat {
    BITS_PER_PARTITION * ((size + 31) / 32)
  }

  /** What is left of the elements in a set for `size` elements: unions and differences copy its words and no more. */
  function Held(s: set<nat>, size: nat): set<nat> {
    set e | e in s && e < Places(size)
  }

  lemma PlacesAreExact(s: BitSet, e: nat)
    requires s.mask.Length == (s.maxSize + 31) / 32
    ensures s.HasPlace(e) <==> e < Places(s.maxSize)
  {
  }

  class BitSet {
    const maxSize: nat
    const mask: array<Word>

    /** Is there a word for the element? Without one its bit would be outside of the array. */
    predicate HasPlace(e: nat) {
      e / 32 < mask.Length
    }

    ghost function Contents(): set<nat>
      reads mask
    {
      Elements(mask[..])
    }

    /** A set for elements below the size, empty. */
    constructor (size: nat)
      ensures fresh(mask) && maxSize == size && mask.Length == (size + 31) / 32 && Contents() == {}
      ensures forall k :: 0 <= k < mask.Length ==> mask[k] == 0
    {
      maxSize := size;
      mask := new Word[(size + 31) / 32];
      new;
      for i := 0 to mask.Length
        invariant forall k :: 0 <= k < i ==> mask[k] == 0
      {
        mask[i] := 0;
      }
      NoElements(mask[..]);
    }

    method AddToSet(e: nat)
      requires HasPlace(e)
      modifies mask
      ensures Contents() == old(Contents()) + {e}
    {
      hide *;
      SetOfWords();
      var partition := e / 32;
      ElementAdded(mask[..], e);
      mask[partition] := WithBit(mask[partition], Place(e % 32));
      assert mask[..] == old(mask[..])[partition := mask[partition]];
      SetOfWords();
    }

    lemma SetOfWords()
      ensures Contents() == Elements(mask[..]) && forall e: nat :: HasPlace(e) <==> e / 32 < mask.Length
    {
    }

    method RemoveFromSet(e: nat)
      requires HasPlace(e)
      modifies mask
      ensures Contents() == old(Contents()) - {e}
    {
      hide *;
      SetOfWords();
      var partition := e / 32;
      ElementRemoved(mask[..], e);
      mask[partition] := WithoutBit(mask[partition], Place(e % 32));
      assert mask[..] == old(mask[..])[partition := mask[partition]];
      SetOfWords();
    }

    method DoesElementBelong(e: nat) returns (r: bool)
      requires HasPlace(e)
      ensures r <==> e in Contents()
    {
      hide BitAt, Place, TestsBit;
      BitTested(mask[e / 32], Place(e % 32));
      r := TestsBit(mask[e / 32], Place(e % 32));
    }

    method IsEmpty() returns (r: bool)
      ensures r <==> Contents() == {}
    {
      hide *;
      SetOfWords();
      for i := 0 to mask.Length
        invariant forall k :: 0 <= k < i ==> mask[k] == 0
      {
        if mask[i] != 0 {
          var none := seq(mask.Length, _ => 0);
          NoElements(none);
          SameElements(mask[..], none);
          assert mask[..][i] != none[i];
          return false;
        }
      }
      NoElements(mask[..]);
      return true;
    }

    method AreEqual(other: BitSet) returns (r: bool)
      requires other.mask.Length == mask.Length
      ensures r <==> Contents() == other.Contents()
    {
      hide *;
      SetOfWords();
      other.SetOfWords();
      SameElements(mask[..], other.mask[..]);
      for i := 0 to mask.Length
        invariant forall k :: 0 <= k < i ==> mask[k] == other.mask[k]
      {
        if mask[i] != other.mask[i] {
          assert mask[..][i] != other.mask[..][i];
          return false;
        }
      }
      return true;
    }
  }

  /** The set of all elements below the size, but for sizes that are a multiple of 32. */
  method CreateFullSet(size: nat) returns (s: BitSet)
    requires 0 < size
    ensures fresh(s) && fresh(s.mask) && s.maxSize == size && s.Contents() == FullSet(size)
  {
    hide *;
    s := new BitSet(size);
    for i := 0 to s.mask.Length - 1
      invariant forall k :: 0 <= k < s.mask.Length ==> s.mask[k] == if k < i then !0 else 0
    {
      s.mask[i] := !0;
    }
    var last := s.mask.Length - 1;
    ConstantWords();
    for i := 0 to size % 32
      invariant forall k :: 0 <= k < last ==> s.mask[k] == !0
      invariant LowBits(s.mask[last], i)
    {
      OneMoreLowBit(s.mask[last], i);
      s.mask[last] := Shifted(s.mask[last]);
    }
    FullWords(s.mask[..], size);
    s.SetOfWords();
  }

  /**
   * The neighbor_set of a graph of `n` nodes is made for one element less (code_optimization.c). Its words
   * hold the ids of all nodes if and only if `n - 1` is no multiple of 32; otherwise the last id has no place.
   */
  lemma NeighborSetHoldsIds(s: BitSet, n: nat)
    requires 0 < n && s.maxSize == n - 1 && s.mask.Length == (s.maxSize + 31) / 32
    ensures (forall e: nat :: e < n ==> s.HasPlace(e)) <==> (n - 1) % 32 != 0
  {
    if (n - 1) % 32 == 0 {
      assert !s.HasPlace(n - 1);
    }
  }

  method UnifySets(a: BitSet, b: BitSet) returns (s: BitSet)
    requires a.mask.Length == b.mask.Length == (a.maxSize + 31) / 32
    ensures fresh(s) && fresh(s.mask) && s.maxSize == a.maxSize && s.mask.Length == a.mask.Length
    ensures s.Contents() == a.Contents() + b.Contents()
  {
    hide *;
    s := new BitSet(a.maxSize);
    for i := 0 to a.mask.Length
      invariant forall k :: 0 <= k < i ==> s.mask[k] == United(a.mask[k], b.mask[k])
    {
      s.mask[i] := United(a.mask[i], b.mask[i]);
    }
    WordsUnited(a.mask[..], b.mask[..], s.mask[..]);
    a.SetOfWords();
    b.SetOfWords();
    s.SetOfWords();
  }

  method IntersectSets(a: BitSet, b: BitSet) returns (s: BitSet)
    requires a.mask.Length == b.mask.Length == (a.maxSize + 31) / 32
    ensures fresh(s) && fresh(s.mask) && s.maxSize == a.maxSize && s.mask.Length == a.mask.Length
    ensures s.Contents() == a.Contents() * b.Contents()
  {
    hide *;
    s := new BitSet(a.maxSize);
    for i := 0 to a.mask.Length
      invariant forall k :: 0 <= k < i ==> s.mask[k] == Common(a.mask[k], b.mask[k])
    {
      s.mask[i] := Common(a.mask[i], b.mask[i]);
    }
    WordsCommon(a.mask[..], b.mask[..], s.mask[..]);
    a.SetOfWords();
    b.SetOfWords();
    s.SetOfWords();
  }

  method DiffSets(a: BitSet, b: BitSet) returns (s: BitSet)
    requires a.mask.Length == b.mask.Length == (a.maxSize + 31) / 32
    ensures fresh(s) && fresh(s.mask) && s.maxSize == a.maxSize && s.mask.Length == a.mask.Length
    ensures s.Contents() == a.Contents() - b.Contents()
  {
    hide *;
    s := new BitSet(a.maxSize);
    for i := 0 to a.mask.Length
      invariant forall k :: 0 <= k < i ==> s.mask[k] == Less(a.mask[k], b.mask[k])
    {
      s.mask[i] := Less(a.mask[i], b.mask[i]);
    }
    WordsLess(a.mask[..], b.mask[..], s.mask[..]);
    a.SetOfWords();
    b.SetOfWords();
    s.SetOfWords();
  }

  method CloneSet(a: BitSet) returns (s: BitSet)
    requires a.mask.Length == (a.maxSize + 31) / 32
    ensures fresh(s) && fresh(s.mask) && s.maxSize == a.maxSize && s.mask.Length == a.mask.Length
    ensures s.Contents() == a.Contents()
  {
    s := new BitSet(a.maxSize);
    s := UnifySets(s, a);
  }
}
