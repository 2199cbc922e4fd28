/**
 The dependency set of the simulator: a sorted array up to twelve elements, a bitset from thirteen on.
 Every operation is proved against the mathematical set of its elements.
 */
module FastSet {

  const MAX_SIZE: nat := 512
  const SMALL_SIZE: nat := 13
  const SMALLER_SIZE: nat := 6
  const WORDS: nat := 8

  // A 64-bit word, bit by bit; bit 0 first.
  type Word = w: seq<bool> | |w| == 64 witness seq(64, _ => false)

  const ZERO_WORD: Word := seq(64, _ => false)

  predicate Ascending(v: seq<nat>) { forall i, j :: 0 <= i < j < |v| ==> v[i] < v[j] }

  predicate BitAt(bits: seq<Word>, x: nat) { x / 64 < |bits| && bits[x / 64][x % 64] }

  /** The elements a bitset stands for. */
  ghost function BitElements(bits: seq<Word>): (s: set<nat>)
    ensures forall x: nat :: x in s <==> x < 64 * |bits| && BitAt(bits, x)
  {
    set x: nat | 0 <= x < 64 * |bits| && BitAt(bits, x)
  }

  ghost function SeqElements(v: seq<nat>): (s: set<nat>) { set x | x in v }

  /** An ascending sequence of naturals below n has at most n elements. */
  lemma {:induction false} AscendingIsShort(v: seq<nat>, n: nat)
    requires Ascending(v) && forall x :: x in v ==> x < n
    ensures |v| <= n
  {
    if v != [] {
      var last := |v| - 1;
      assert v[last] in v;
      AscendingIsShort(v[..last], v[last]);
    }
  }

  /** Two ascending sequences with the same elements are equal: an enumeration is determined by its set. */
  lemma {:induction false} AscendingIsUnique(a: seq<nat>, b: seq<nat>)
    requires Ascending(a) && Ascending(b) && SeqElements(a) == SeqElements(b)
    ensures a == b
  {
    assert forall i :: 0 <= i < |b| ==> b[i] in SeqElements(b);
    assert b != [] ==> b[0] in SeqElements(b);
    if a != [] {
      assert a[|a| - 1] in SeqElements(a);
      assert b != [];
      assert b[|b| - 1] in SeqElements(b);
      var x, y := a[|a| - 1], b[|b| - 1];
      assert x == y;
      var a', b' := a[..|a| - 1], b[..|b| - 1];
      forall z | z in SeqElements(a') ensures z in SeqElements(b') {
        assert z in SeqElements(a);
      }
      forall z | z in SeqElements(b') ensures z in SeqElements(a') {
        assert z in SeqElements(b);
      }
      AscendingIsUnique(a', b');
    }
  }

  class Fastset {
    const values: array<nat>
    const bits: array<Word>
    var card: nat

    ghost predicate Valid()
      reads this, values, bits
    {
      && values.Length == SMALL_SIZE && bits.Length == WORDS && card <= SMALL_SIZE
      && (card < SMALL_SIZE ==> Ascending(values[..card]))
      && (card < SMALL_SIZE ==> forall i :: 0 <= i < card ==> values[i] < MAX_SIZE)
    }

    ghost function Elements(): (s: set<nat>)
      requires Valid()
      reads this, values, bits
      ensures forall x :: x in s ==> x < MAX_SIZE
    {
      if card < SMALL_SIZE then SeqElements(values[..card]) else BitElements(bits[..])
    }

    constructor ()
      ensures Valid() && Elements() == {} && fresh(values) && fresh(bits)
    {
      values := new nat[SMALL_SIZE](_ => 0);
      bits := new Word[WORDS](_ => ZERO_WORD);
      card := 0;
    }

    method SetBit(x: nat)
      requires bits.Length == WORDS && x < MAX_SIZE
      modifies bits
      ensures BitElements(bits[..]) == BitElements(old(bits[..])) + {x}
    {
      var word, bit := x / 64, x % 64;
      bits[word] := bits[word][bit := true];
      forall y: nat | y < MAX_SIZE ensures BitAt(bits[..], y) <==> BitAt(old(bits[..]), y) || y == x {
        assert y == y / 64 * 64 + y % 64 && x == word * 64 + bit;
      }
    }

    method GetBit(x: nat) returns (found: bool)
      requires bits.Length == WORDS && x < MAX_SIZE
      ensures found == (x in BitElements(bits[..]))
    {
      found := bits[x / 64][x % 64];
      assert found == BitAt(bits[..], x);
    }

    /** Put a value in slot i, moving the values from there on up by one. */
    method InsertAt(i: nat, x: nat)
      requires values.Length == SMALL_SIZE && i <= card < SMALL_SIZE
      modifies this`card, values
      ensures card == old(card) + 1
      ensures values[..card] == old(values[..i]) + [x] + old(values[i..card])
    {
      var j := card - 1;
      while j >= i
        invariant i - 1 <= j < card && card == old(card)
        invariant forall k :: 0 <= k <= j ==> values[k] == old(values[k])
        invariant forall k :: j < k < card ==> values[k + 1] == old(values[k])
        decreases j - i
      {
        values[j + 1] := values[j];
        j := j - 1;
      }
      values[i] := x;
      card := card + 1;
    }

    /** Insert into the sorted array unless the value is there already. */
    method InsertSmall(x: nat)
      requires Valid() && 0 < card < SMALL_SIZE && x < MAX_SIZE
      modifies this`card, values
      ensures card <= SMALL_SIZE && Ascending(values[..card])
      ensures forall i :: 0 <= i < card ==> values[i] < MAX_SIZE
      ensures SeqElements(values[..card]) == old(SeqElements(values[..card])) + {x}
    {
      ghost var v := values[..card];
      var i := 0;
      while i < card && values[i] < x
        invariant i <= card && forall k :: 0 <= k < i ==> v[k] < x
      {
        i := i + 1;
      }
      if i < card && values[i] == x {
        assert v[i] == x;
        return;
      }
      InsertAscending(v, i, x);
      assert values[..i] == v[..i] && values[i..card] == v[i..];
      InsertAt(i, x);
      assert forall k :: 0 <= k < card ==> values[k] in values[..card];
    }

    method SearchSmallLinear(x: nat) returns (found: bool)
      requires Valid() && card < SMALL_SIZE
      ensures found == (x in Elements())
    {
      for i := 0 to card
        invariant forall k :: 0 <= k < i ==> values[k] < x
      {
        var y := values[i];
        if y > x { return false; }
        if y == x {
          assert values[..card][i] == x;
          return true;
        }
      }
      return false;
    }

    /** Linear below six elements, binary from there on. */
    method SearchSmall(x: nat) returns (found: bool)
      requires Valid() && card < SMALL_SIZE
      ensures found == (x in Elements())
    {
      if card == 0 { return false; }
      if card < SMALLER_SIZE {
        found := SearchSmallLinear(x);
        return;
      }
      ghost var v := values[..card];
      var begin, end: int := 0, card - 1;
      var middle := end / 2;
      while true
        invariant 0 <= begin <= middle <= end < card
        invariant forall k :: 0 <= k < begin ==> v[k] < x
        invariant forall k :: end < k < card ==> x < v[k]
        decreases end - begin
      {
        var y := values[middle];
        assert y == v[middle];
        if x < y {
          end := middle - 1;
        } else if x > y {
          begin := middle + 1;
        } else {
          return true;
        }
        if end < begin { break; }
        middle := (begin + end) / 2;
      }
      return false;
    }

    /** Turn the sorted array into a bitset of the same elements. */
    method SmallToBit()
      requires bits.Length == WORDS && values.Length == SMALL_SIZE && card <= SMALL_SIZE
      requires forall i :: 0 <= i < card ==> values[i] < MAX_SIZE
      modifies bits
      ensures BitElements(bits[..]) == SeqElements(values[..card])
    {
      ghost var v := values[..card];
      for i := 0 to WORDS
        invariant forall k :: 0 <= k < i ==> bits[k] == ZERO_WORD
      {
        bits[i] := ZERO_WORD;
      }
      assert BitElements(bits[..]) == {};
      for i := 0 to card
        invariant BitElements(bits[..]) == SeqElements(v[..i])
      {
        SetBit(values[i]);
        assert v[..i + 1] == v[..i] + [v[i]];
      }
      assert v[..card] == v;
    }

    method Insert(x: nat)
      requires Valid() && x < MAX_SIZE
      modifies this`card, values, bits
      ensures Valid() && Elements() == old(Elements()) + {x}
    {
      if card == 0 {
        values[0] := x;
        card := 1;
        assert values[..1] == [x];
      } else if card < SMALL_SIZE {
        InsertSmall(x);
        if card == SMALL_SIZE {
          SmallToBit();
        }
      } else {
        SetBit(x);
      }
    }

    method Search(x: nat) returns (found: bool)
      requires Valid() && x < MAX_SIZE
      ensures found == (x in Elements())
    {
      if card == 0 { return false; }
      if card == 1 {
        assert values[..card] == [values[0]];
        return values[0] == x;
      }
      if card < SMALL_SIZE {
        found := SearchSmall(x);
      } else {
        found := GetBit(x);
      }
    }

    /** Union with another set; of a bitset only the words that cover elements up to n are merged. */
    method Join(other: Fastset, n: nat)
      requires Valid() && other.Valid() && n < MAX_SIZE
      requires other != this && other.values != values && other.bits != bits
      modifies this`card, values, bits
      ensures Valid() && other.Valid() && other.Elements() == old(other.Elements())
      ensures Elements() == old(Elements())
        + (set x | x in other.Elements() && (other.card < SMALL_SIZE || x < (n / 64 + 1) * 64))
    {
      ghost var mine, theirs := Elements(), other.Elements();
      if other.card == 0 { return; }
      if other.card < SMALL_SIZE {
        for i := 0 to other.card
          invariant Valid() && other.Valid() && other.Elements() == theirs
          invariant Elements() == mine + SeqElements(other.values[..i])
        {
          Insert(other.values[i]);
          assert other.values[..i + 1] == other.values[..i] + [other.values[i]];
        }
        return;
      } else if card < SMALL_SIZE {
        SmallToBit();
        card := SMALL_SIZE;
      }
      OrWords(other, n / 64 + 1);
    }

    /** Bitwise OR of the first words of another bitset. */
    method OrWords(other: Fastset, lim: nat)
      requires bits.Length == WORDS && other.bits.Length == WORDS && other.bits != bits && lim <= WORDS
      modifies bits
      ensures BitElements(bits[..]) == BitElements(old(bits[..]))
        + (set x | x in BitElements(other.bits[..]) && x < lim * 64)
    {
      for i := 0 to lim
        invariant forall k :: 0 <= k < WORDS ==>
          bits[k] == if k < i then Or(old(bits[k]), other.bits[k]) else old(bits[k])
      {
        bits[i] := Or(bits[i], other.bits[i]);
      }
      forall x: nat | x < MAX_SIZE
        ensures BitAt(bits[..], x) <==> BitAt(old(bits[..]), x) || (BitAt(other.bits[..], x) && x < lim * 64)
      {
        assert x == x / 64 * 64 + x % 64;
      }
    }

    /** Enumerate the elements below n in ascending order. */
    method Expand(v: array<nat>, n: nat) returns (k: nat)
      requires Valid() && n <= MAX_SIZE && v.Length >= n && v != values
      requires forall x :: x in Elements() ==> x < n
      modifies v
      ensures k <= n && Ascending(v[..k]) && SeqElements(v[..k]) == Elements()
    {
      if card == 0 { return 0; }
      if card < SMALL_SIZE {
        assert forall i :: 0 <= i < card ==> values[i] in Elements();
        AscendingIsShort(values[..card], n);
        for i := 0 to card
          invariant v[..i] == values[..i]
        {
          v[i] := values[i];
        }
        return card;
      }
      k := 0;
      var i := 0;
      ghost var elements := Elements();
      while i < n
        invariant i % 64 == 0 && Elements() == elements
        invariant k <= v.Length && Enumerates(v[..k], elements, Min(i, n))
      {
        if bits[i / 64] != ZERO_WORD {
          k := ExpandWord(v, k, i, n);
        } else {
          forall x | i <= x < i + 64 ensures x !in elements {
            assert x / 64 == i / 64;
          }
        }
        i := i + 64;
      }
      AscendingIsShort(v[..k], n);
    }

    /** Append the elements of one word that are below n. */
    method ExpandWord(v: array<nat>, count: nat, base: nat, n: nat) returns (k: nat)
      requires Valid() && card == SMALL_SIZE && base % 64 == 0 && base < n <= MAX_SIZE
      requires v != values && v.Length >= n
      requires count <= v.Length && Enumerates(v[..count], Elements(), base)
      modifies v
      ensures Valid() && Elements() == old(Elements())
      ensures k <= v.Length && Enumerates(v[..k], Elements(), Min(base + 64, n))
    {
      k := count;
      ghost var elements := Elements();
      for j := 0 to 64
        invariant Valid() && Elements() == elements
        invariant k <= v.Length && Enumerates(v[..k], elements, Min(base + j, n))
      {
        var l := base + j;
        if l < n {
          var found := GetBit(l);
          ghost var before := v[..k];
          EnumeratesNext(before, elements, l);
          if found {
            v[k] := l;
            k := k + 1;
            assert v[..k] == before + [l];
          }
        } else {
          break;
        }
      }
    }
  }

  lemma InsertAscending(v: seq<nat>, i: nat, x: nat)
    requires Ascending(v) && i <= |v|
    requires (forall k :: 0 <= k < i ==> v[k] < x) && (forall k :: i <= k < |v| ==> x < v[k])
    ensures Ascending(v[..i] + [x] + v[i..])
    ensures SeqElements(v[..i] + [x] + v[i..]) == SeqElements(v) + {x}
    ensures forall y :: y in v[..i] + [x] + v[i..] ==> y == x || y in v
  {
    assert v == v[..i] + v[i..];
  }

  function Min(a: nat, b: nat): nat { if a < b then a else b }

  /** An ascending sequence of exactly the elements below a limit. */
  ghost predicate Enumerates(v: seq<nat>, elements: set<nat>, limit: nat) {
    Ascending(v) && forall x :: x in v <==> x in elements && x < limit
  }

  lemma EnumeratesNext(v: seq<nat>, elements: set<nat>, l: nat)
    requires Enumerates(v, elements, l)
    ensures Enumerates(if l in elements then v + [l] else v, elements, l + 1)
    ensures |v| <= l
  {
    AscendingIsShort(v, l);
    assert forall i :: 0 <= i < |v| ==> v[i] in v;
    assert forall x :: x in v + [l] <==> x in v || x == l;
  }

  function Or(a: Word, b: Word): Word { seq(64, i requires 0 <= i < 64 => a[i] || b[i]) }
}
