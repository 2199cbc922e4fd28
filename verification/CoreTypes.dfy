/** Operand vectors of an instruction, and positions in a circular buffer. */
module CoreTypes {
  import opened Counting

  const NUM_SOURCES: nat := 4
  const NUM_DESTINATIONS: nat := 2

  // One value per source or destination operand; operand 0 means that there is none.
  type Operands4 = s: seq<nat> | |s| == NUM_SOURCES witness [0, 0, 0, 0]
  type Operands2 = s: seq<nat> | |s| == NUM_DESTINATIONS witness [0, 0]
  type Flags4 = s: seq<bool> | |s| == NUM_SOURCES witness [false, false, false, false]
  type Flags2 = s: seq<bool> | |s| == NUM_DESTINATIONS witness [false, false]
  type Sets4 = s: seq<set<nat>> | |s| == NUM_SOURCES witness [{}, {}, {}, {}]
  type Links4 = s: seq<Option<nat>> | |s| == NUM_SOURCES witness [None, None, None, None]
  type Links2 = s: seq<Option<nat>> | |s| == NUM_DESTINATIONS witness [None, None]

  /** How many entries of a circular buffer are older than index i. */
  function Age(head: nat, size: nat, i: nat): int { if i >= head then i - head else i + size - head }

  /** The index of the entry with this age. */
  function At(head: nat, size: nat, age: nat): int { if head + age < size then head + age else head + age - size }

  lemma AgesInvert(head: nat, size: nat, i: nat)
    requires head < size && i < size
    ensures 0 <= Age(head, size, i) < size && At(head, size, Age(head, size, i)) == i
    ensures 0 <= At(head, size, i) < size && Age(head, size, At(head, size, i)) == i
  {}
}
