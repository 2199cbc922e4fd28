/** The packet queue and the miss registers of a cache, updated in place. */
module CacheQueues {
  import opened Counting
  import opened CoreTypes
  import opened CacheProtocol

  // Address 0 marks a free place.
  const NO_REQUEST := Request(0, false, false)

  /** A first-in first-out ring of packets. */
  class PacketFifo {
    const entry: array<Request>
    var head: nat
    var tail: nat
    var occupancy: nat
    ghost var contents: seq<Request>

    ghost predicate Valid()
      reads this, entry
    {
      && head < entry.Length && occupancy == |contents| <= entry.Length
      && tail == At(head, entry.Length, if occupancy == entry.Length then 0 else occupancy)
      && (forall k :: 0 <= k < |contents| ==> contents[k].address != 0)
      && forall i :: 0 <= i < entry.Length ==>
           entry[i] == if Age(head, entry.Length, i) < occupancy then contents[Age(head, entry.Length, i)]
                       else NO_REQUEST
    }

    constructor (size: nat)
      requires size > 0
      ensures Valid() && contents == [] && entry.Length == size && fresh(entry)
    {
      entry := new Request[size](_ => NO_REQUEST);
      head, tail, occupancy, contents := 0, 0, 0, [];
    }

    function IsFull(): bool
      reads this, entry
      requires Valid()
      ensures |contents| <= entry.Length && (IsFull() <==> |contents| == entry.Length)
    {
      occupancy == entry.Length
    }

    function IsEmpty(): bool
      reads this, entry
      requires Valid()
      ensures IsEmpty() <==> contents == []
    {
      occupancy == 0
    }

    /** The oldest packet. */
    function Front(): Request
      reads this, entry
      requires Valid() && contents != []
      ensures Front() == contents[0] && Front().address != 0
    {
      entry[head]
    }

    /** The index of the oldest packet with this address, or -1. */
    method CheckQueue(address: nat) returns (r: int)
      requires Valid()
      ensures r == -1 <==> Find(contents, address) == |contents|
      ensures r == -1 || (0 <= r < entry.Length && Age(head, entry.Length, r) == Find(contents, address))
    {
      if head == tail && occupancy == 0 {
        return -1;
      }
      if head < tail {
        r := Scan(head, tail, 0, address);
      } else {
        r := Scan(head, entry.Length, 0, address);
        if r == -1 {
          r := Scan(0, tail, entry.Length - head, address);
        }
      }
      FindIs(contents, address, if r == -1 then |contents| else Age(head, entry.Length, r));
    }

    /** The first index from..to-1 with this address, or -1; the packets there have ages from `age` on. */
    method Scan(from: nat, to: nat, ghost age: nat, address: nat) returns (r: int)
      requires Valid() && from <= to <= entry.Length && age + to - from <= occupancy
      requires forall i :: from <= i < to ==> Age(head, entry.Length, i) == age + i - from
      ensures r == -1 || (from <= r < to && contents[age + r - from].address == address)
      ensures forall k :: age <= k < age + (if r == -1 then to else r) - from ==> contents[k].address != address
    {
      for i := from to to
        invariant forall k :: age <= k < age + i - from ==> contents[k].address != address
      {
        assert entry[i] == contents[age + i - from];
        if entry[i].address == address {
          return i;
        }
      }
      return -1;
    }

    /** The place written is free, which the simulator checks. */
    method Add(packet: Request)
      requires Valid() && |contents| < entry.Length && packet.address != 0
      modifies this, entry
      ensures Valid() && contents == old(contents) + [packet]
    {
      assert entry[tail].address == 0;
      entry[tail] := packet;
      occupancy := occupancy + 1;
      tail := tail + 1;
      if tail >= entry.Length { tail := 0; }
      contents := contents + [packet];
    }

    method Remove()
      requires Valid() && contents != []
      modifies this, entry
      ensures Valid() && contents == old(contents)[1..]
    {
      entry[head] := NO_REQUEST;
      occupancy := occupancy - 1;
      head := head + 1;
      if head >= entry.Length { head := 0; }
      contents := contents[1..];
    }

    /** Let one more cache wait for the packet at index i. */
    method AddFlag(i: nat, s: Side)
      requires Valid() && i < entry.Length && Age(head, entry.Length, i) < |contents|
      modifies this`contents, entry
      ensures Valid()
      ensures var a := Age(head, entry.Length, i);
        contents == old(contents)[a := Flag(old(contents)[a], s)]
    {
      entry[i] := if s == Instructions then entry[i].(forI := true) else entry[i].(forD := true);
      contents := contents[Age(head, entry.Length, i) := entry[i]];
    }
  }

  lemma {:induction false} FindIs(rq: seq<Request>, a: nat, i: nat)
    requires i <= |rq| && (i < |rq| ==> rq[i].address == a)
    requires forall k :: 0 <= k < i ==> rq[k].address != a
    ensures Find(rq, a) == i
  {
    if i > 0 {
      FindIs(rq[1..], a, i - 1);
    }
  }

  // ---- Miss registers ----

  datatype Register = Register(address: nat, miss: Miss, cycle: nat)

  const NO_MISS := Register(0, Miss(false, false, 0, false, false), 0)

  /** The registers' addresses differ, and the map describes them. */
  ghost predicate Describes(entry: seq<Register>, contents: map<nat, Miss>) {
    && (forall a: nat :: a in contents <==> a != 0 && Uses(entry, a))
    && (forall i :: 0 <= i < |entry| && entry[i].address != 0 ==> contents[entry[i].address] == entry[i].miss)
    && (forall i, j :: 0 <= i < j < |entry| && entry[i].address != 0 ==> entry[i].address != entry[j].address)
  }

  ghost predicate Uses(entry: seq<Register>, a: nat) { exists i :: 0 <= i < |entry| && entry[i].address == a }

  function InUse(entry: seq<Register>): (u: seq<bool>)
    ensures |u| == |entry|
  {
    seq(|entry|, i requires 0 <= i < |entry| => entry[i].address != 0)
  }

  /** Whether register i is the one to fill next: returned, with the smallest cycle, the first of these. */
  predicate FillsFirst(entry: seq<Register>, i: nat)
    requires i <= |entry|
  {
    && (i < |entry| ==> entry[i].miss.returned)
    && (forall k :: 0 <= k < |entry| && entry[k].miss.returned ==>
          i < |entry| && entry[i].cycle <= entry[k].cycle && (k < i ==> entry[i].cycle < entry[k].cycle))
  }

  /** The register file of the misses in flight; `contents` maps their addresses to them. */
  class MissRegisters {
    const entry: array<Register>
    var occupancy: nat
    var nextFill: nat
    ghost var contents: map<nat, Miss>

    ghost predicate Valid()
      reads this, entry
    {
      && Describes(entry[..], contents) && occupancy == Count(InUse(entry[..])) == |contents|
      && nextFill <= entry.Length && FillsFirst(entry[..], nextFill)
      && forall i :: 0 <= i < entry.Length && entry[i].address == 0 ==> entry[i] == NO_MISS
    }

    constructor (size: nat)
      ensures Valid() && contents == map[] && entry.Length == size && fresh(entry)
    {
      entry := new Register[size](_ => NO_MISS);
      occupancy, nextFill, contents := 0, size, map[];
      new;
      CountExtremes(InUse(entry[..]));
    }

    function IsFull(): bool
      reads this, entry
      requires Valid()
      ensures IsFull() <==> |contents| == entry.Length
      ensures |contents| <= entry.Length
    {
      CountExtremes(InUse(entry[..]));
      occupancy == entry.Length
    }

    /** The index of the register with this address, or -1. */
    method CheckMshr(address: nat) returns (r: int)
      requires Valid() && address != 0
      ensures r == -1 <==> address !in contents
      ensures r == -1 || (0 <= r < entry.Length && entry[r] == Register(address, contents[address], entry[r].cycle))
    {
      for i := 0 to entry.Length
        invariant forall k :: 0 <= k < i ==> entry[k].address != address
      {
        if entry[i].address == address {
          assert entry[..][i].address == address;
          return i;
        }
      }
      return -1;
    }

    method FindFree() returns (i: nat)
      requires occupancy == Count(InUse(entry[..])) && occupancy < entry.Length
      ensures i < entry.Length && entry[i].address == 0
    {
      i := 0;
      CountExtremes(InUse(entry[..]));
      while i < entry.Length && entry[i].address != 0
        invariant i <= entry.Length && forall k :: 0 <= k < i ==> InUse(entry[..])[k]
      {
        i := i + 1;
      }
    }

    /** The register whose data are to be filled at `now`: the earliest returned one, or -1 if none is due. */
    function NextReady(now: nat): (r: int)
      reads this, entry
      requires Valid()
      ensures r == -1 <==> forall k :: 0 <= k < entry.Length && entry[k].miss.returned ==> entry[k].cycle > now
      ensures r != -1 ==>
        && 0 <= r < entry.Length && entry[r].address != 0 && entry[r].miss.returned
        && entry[r].address in contents && contents[entry[r].address] == entry[r].miss
    {
      if nextFill == entry.Length || entry[nextFill].cycle > now then -1
      else
        assert Uses(entry[..], entry[..][nextFill].address);
        nextFill
    }

    /** Take the first free register for a new miss; one exists because the file is not full. */
    method AddMshr(address: nat, miss: Miss, cycle: nat)
      requires Valid() && |contents| < entry.Length && address != 0 && address !in contents && !miss.returned
      modifies this, entry
      ensures Valid() && contents == old(contents)[address := miss]
    {
      var i := FindFree();
      ghost var was := entry[..];
      hide Describes, InUse, Count, FillsFirst;
      entry[i] := Register(address, miss, cycle);
      occupancy := occupancy + 1;
      contents := contents[address := miss];
      RegisterAdded(was, old(contents), i, entry[i]);
      WaitingDoesNotFill(was, nextFill, i, entry[i]);
      assert entry[..] == was[i := entry[i]];
    }

    /** The first returned register with the smallest cycle is the next to fill. */
    method UpdateFillCycle()
      modifies this`nextFill
      ensures nextFill <= entry.Length && FillsFirst(entry[..], nextFill)
    {
      nextFill := entry.Length;
      for i := 0 to entry.Length
        invariant nextFill <= entry.Length && (nextFill < entry.Length ==> nextFill < i && entry[nextFill].miss.returned)
        invariant forall k :: 0 <= k < i && entry[k].miss.returned ==>
          nextFill < entry.Length && entry[nextFill].cycle <= entry[k].cycle
          && (k < nextFill ==> entry[nextFill].cycle < entry[k].cycle)
      {
        if entry[i].miss.returned && (nextFill == entry.Length || entry[i].cycle < entry[nextFill].cycle) {
          nextFill := i;
        }
      }
    }

    /** Replace what register i says about its miss. */
    method Update(i: nat, miss: Miss, cycle: nat)
      requires Valid() && i < entry.Length && entry[i].address != 0
      modifies this, entry
      ensures Valid() && contents == old(contents)[old(entry[i].address) := miss]
    {
      ghost var was := entry[..];
      entry[i] := Register(entry[i].address, miss, cycle);
      contents := contents[entry[i].address := miss];
      RegisterUpdated(was, old(contents), i, entry[i]);
      assert entry[..] == was[i := entry[i]];
      UpdateFillCycle();
    }

    /** Free register i. */
    method RemoveMshr(i: nat)
      requires Valid() && i < entry.Length && entry[i].address != 0
      modifies this, entry
      ensures Valid() && contents == old(contents) - {old(entry[i].address)}
    {
      ghost var was := entry[..];
      RegisterRemoved(was, contents, i);
      contents := contents - {entry[i].address};
      entry[i] := NO_MISS;
      occupancy := occupancy - 1;
      assert entry[..] == was[i := NO_MISS];
      UpdateFillCycle();
    }
  }

  lemma WaitingDoesNotFill(entry: seq<Register>, n: nat, i: nat, r: Register)
    requires n <= |entry| && i < |entry| && FillsFirst(entry, n) && !entry[i].miss.returned && !r.miss.returned
    ensures FillsFirst(entry[i := r], n)
  {}

  lemma RegisterAdded(entry: seq<Register>, contents: map<nat, Miss>, i: nat, r: Register)
    requires Describes(entry, contents) && i < |entry| && entry[i].address == 0
    requires r.address != 0 && r.address !in contents
    ensures Describes(entry[i := r], contents[r.address := r.miss])
    ensures Count(InUse(entry[i := r])) == Count(InUse(entry)) + 1
    ensures |contents[r.address := r.miss]| == |contents| + 1
  {
    var entry' := entry[i := r];
    assert InUse(entry') == InUse(entry)[i := true];
    CountUpdate(InUse(entry), i, true);
    assert entry'[i] == r;
    forall a: nat | a != 0 ensures Uses(entry', a) <==> Uses(entry, a) || a == r.address {
      if k :| 0 <= k < |entry| && entry[k].address == a {
        assert entry'[k].address == a;
      }
    }
    assert forall k :: 0 <= k < |entry| && entry[k].address != 0 ==> Uses(entry, entry[k].address);
    SizeAfterInsert(contents, r.address, r.miss);
  }

  lemma SizeAfterInsert(contents: map<nat, Miss>, a: nat, x: Miss)
    ensures |contents[a := x]| == if a in contents then |contents| else |contents| + 1
  {
    assert contents[a := x].Keys == contents.Keys + {a};
    assert |contents[a := x]| == |contents[a := x].Keys| && |contents| == |contents.Keys|;
  }

  lemma RegisterUpdated(entry: seq<Register>, contents: map<nat, Miss>, i: nat, r: Register)
    requires Describes(entry, contents) && i < |entry| && entry[i].address == r.address != 0
    ensures Describes(entry[i := r], contents[r.address := r.miss])
    ensures Count(InUse(entry[i := r])) == Count(InUse(entry))
    ensures |contents[r.address := r.miss]| == |contents|
  {
    var entry' := entry[i := r];
    assert InUse(entry') == InUse(entry);
    assert Uses(entry, r.address);
    forall a: nat ensures Uses(entry', a) <==> Uses(entry, a) {
      if k :| 0 <= k < |entry| && entry[k].address == a {
        assert entry'[k].address == a;
      }
      if k :| 0 <= k < |entry| && entry'[k].address == a {
        assert entry[k].address == a;
      }
    }
    SizeAfterInsert(contents, r.address, r.miss);
  }

  lemma RegisterRemoved(entry: seq<Register>, contents: map<nat, Miss>, i: nat)
    requires Describes(entry, contents) && i < |entry| && entry[i].address != 0
    ensures Describes(entry[i := NO_MISS], contents - {entry[i].address})
    ensures Count(InUse(entry[i := NO_MISS])) == Count(InUse(entry)) - 1
    ensures |contents - {entry[i].address}| == |contents| - 1
  {
    assert InUse(entry[i := NO_MISS]) == InUse(entry)[i := false];
    CountUpdate(InUse(entry), i, false);
    assert Uses(entry, entry[i].address);
    SizeAfterRemoval(contents, entry[i].address);
    RemovedDescribes(entry, contents, i);
    hide Describes, Uses;
  }

  lemma SizeAfterRemoval(contents: map<nat, Miss>, a: nat)
    requires a in contents
    ensures |contents - {a}| == |contents| - 1
  {
    assert (contents - {a}).Keys == contents.Keys - {a};
    assert |contents - {a}| == |(contents - {a}).Keys| && |contents| == |contents.Keys|;
  }

  lemma RemovedDescribes(entry: seq<Register>, contents: map<nat, Miss>, i: nat)
    requires Describes(entry, contents) && i < |entry| && entry[i].address != 0
    ensures Describes(entry[i := NO_MISS], contents - {entry[i].address})
  {
    UsesAfterRemoval(entry, i);
    hide Uses;
  }

  lemma UsesAfterRemoval(entry: seq<Register>, i: nat)
    requires i < |entry| && entry[i].address != 0
    requires forall k, j :: 0 <= k < j < |entry| && entry[k].address != 0 ==> entry[k].address != entry[j].address
    ensures forall a: nat :: a != 0 ==> (Uses(entry[i := NO_MISS], a) <==> Uses(entry, a) && a != entry[i].address)
  {
    var entry' := entry[i := NO_MISS];
    forall a: nat | a != 0 ensures Uses(entry', a) <==> Uses(entry, a) && a != entry[i].address {
      if k :| 0 <= k < |entry| && entry[k].address == a {
        assert a != entry[i].address ==> entry'[k].address == a;
      }
      if k :| 0 <= k < |entry| && entry'[k].address == a {
        assert entry[k].address == a && k != i;
      }
    }
  }
}
