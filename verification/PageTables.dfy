/**
 Address translation: the page table and its inverse stay mutually inverse through allocation and
 swapping, so no two pages share a physical page and a translation holds until its page is swapped out.
 */
module PageTables {

  datatype Tables = Tables(pages: map<nat, nat>, inverse: map<nat, nat>)

  const EMPTY := Tables(map[], map[])

  ghost predicate Inverse(t: Tables) {
    && (forall v: nat :: v in t.pages ==> t.pages[v] in t.inverse && t.inverse[t.pages[v]] == v)
    && (forall p: nat :: p in t.inverse ==> t.inverse[p] in t.pages && t.pages[t.inverse[p]] == p)
    && |t.pages| == |t.inverse|
  }

  /** Different virtual pages never share a physical page. */
  lemma PagesAreSeparate(t: Tables, v: nat, w: nat)
    requires Inverse(t) && v in t.pages && w in t.pages && v != w
    ensures t.pages[v] != t.pages[w]
  {}

  // ---- Changes of the tables ----

  /** A free physical page is given to a new virtual page. */
  function Allocate(t: Tables, v: nat, p: nat): Tables { Tables(t.pages[v := p], t.inverse[p := v]) }

  /** The physical page of the victim is given to a new virtual page. */
  function Swap(t: Tables, v: nat, victim: nat): Tables
    requires victim in t.pages
  {
    Tables((t.pages - {victim})[v := t.pages[victim]], t.inverse[t.pages[victim] := v])
  }

  lemma AllocateKeepsInverse(t: Tables, v: nat, p: nat)
    requires Inverse(t) && v !in t.pages && p !in t.inverse
    ensures Inverse(Allocate(t, v, p)) && |Allocate(t, v, p).pages| == |t.pages| + 1
  {
    SizeAfterInsert(t.pages, v, p);
    SizeAfterInsert(t.inverse, p, v);
  }

  lemma SwapKeepsInverse(t: Tables, v: nat, victim: nat)
    requires Inverse(t) && v !in t.pages && victim in t.pages
    ensures Inverse(Swap(t, v, victim)) && |Swap(t, v, victim).pages| == |t.pages|
  {
    var p := t.pages[victim];
    SizeAfterInsert(t.pages - {victim}, v, p);
    SizeAfterInsert(t.inverse, p, v);
    assert (t.pages - {victim}).Keys == t.pages.Keys - {victim};
    assert |t.pages - {victim}| == |(t.pages - {victim}).Keys| && |t.pages| == |t.pages.Keys|;
  }

  lemma SizeAfterInsert(f: map<nat, nat>, a: nat, x: nat)
    ensures |f[a := x]| == if a in f then |f| else |f| + 1
  {
    assert f[a := x].Keys == f.Keys + {a} && |f[a := x]| == |f[a := x].Keys| && |f| == |f.Keys|;
  }

  // ---- Runs ----

  /** What one translation may do: nothing, allocate, or swap once memory is full. */
  datatype Event = Known(page: nat) | Allocated(page: nat, physical: nat) | Swapped(page: nat, victim: nat)

  predicate Follows(t: Tables, e: Event, t': Tables, capacity: nat) {
    match e
    case Known(v) => v in t.pages && t' == t
    case Allocated(v, p) => v !in t.pages && p !in t.inverse && |t.pages| < capacity && t' == Allocate(t, v, p)
    case Swapped(v, w) => v !in t.pages && w in t.pages && |t.pages| >= capacity && t' == Swap(t, v, w)
  }

  ghost predicate IsRun(states: seq<Tables>, events: seq<Event>, capacity: nat) {
    && |states| == |events| + 1 && states[0] == EMPTY
    && forall k :: 0 <= k < |events| ==> Follows(states[k], events[k], states[k + 1], capacity)
  }

  /** The tables are inverse to each other after every run, and never exceed the memory. */
  lemma {:induction false} RunKeepsInverse(states: seq<Tables>, events: seq<Event>, capacity: nat, n: nat)
    requires IsRun(states, events, capacity) && n < |states|
    ensures Inverse(states[n]) && |states[n].pages| <= capacity
  {
    if n > 0 {
      RunKeepsInverse(states, events, capacity, n - 1);
      var t, e := states[n - 1], events[n - 1];
      assert Follows(t, e, states[n - 1 + 1], capacity);
      match e
      case Known(v) =>
      case Allocated(v, p) => AllocateKeepsInverse(t, v, p);
      case Swapped(v, w) => SwapKeepsInverse(t, v, w);
    }
  }

  /** A page keeps its translation as long as it is not the victim of a swap. */
  lemma {:induction false} TranslationIsStable(
      states: seq<Tables>, events: seq<Event>, capacity: nat, v: nat, a: nat, b: nat)
    requires IsRun(states, events, capacity) && a <= b < |states| && v in states[a].pages
    requires forall k :: a <= k < b ==> !(events[k].Swapped? && events[k].victim == v)
    ensures v in states[b].pages && states[b].pages[v] == states[a].pages[v]
  {
    if a < b {
      TranslationIsStable(states, events, capacity, v, a, b - 1);
      assert Follows(states[b - 1], events[b - 1], states[b - 1 + 1], capacity);
    }
  }

  /** The first of the drawn pages that is free. */
  ghost predicate FirstFree(draws: seq<nat>, inverse: map<nat, nat>, p: nat) {
    exists i :: 0 <= i < |draws| && draws[i] == p && p !in inverse && forall j :: 0 <= j < i ==> draws[j] in inverse
  }

  /**
   The page handed out, and how many adjacent ones are left: the one after the previous while a stretch
   lasts and that page is free, else the first free draw, which starts a new stretch.
   */
  ghost predicate NextFree(
      previous: nat, adjacent: int, inverse: map<nat, nat>, draws: seq<nat>, stride: nat, p: nat, left: int)
  {
    if adjacent > 0 && previous + 1 !in inverse then p == previous + 1 && left == adjacent - 1
    else FirstFree(draws, inverse, p) && left == stride
  }

  // ---- The translator, updated in place ----

  class Translator {
    const capacity: nat
    var pages: map<nat, nat>
    var inverse: map<nat, nat>
    var allocatedPages: nat
    var previous: nat
    var adjacent: int

    ghost function View(): Tables
      reads this
    {
      Tables(pages, inverse)
    }

    ghost predicate Valid()
      reads this
    {
      Inverse(View()) && allocatedPages == |pages| <= capacity
    }

    constructor (capacity: nat)
      ensures Valid() && View() == EMPTY && this.capacity == capacity
    {
      this.capacity := capacity;
      pages, inverse, allocatedPages, previous, adjacent := map[], map[], 0, 0, 0;
    }

    /**
     Translate a page. `recent` are the pages not to be swapped out, `draws` the random physical pages to
     try, and `stride` how many adjacent pages to hand out after a random one.
     */
    method Translate(v: nat, recent: set<nat>, draws: seq<nat>, stride: nat) returns (p: nat, ghost e: Event)
      requires Valid()
      requires allocatedPages >= capacity && v !in pages ==> exists w: nat :: w in pages && w !in recent
      requires exists i :: 0 <= i < |draws| && draws[i] !in inverse
      modifies this
      ensures Valid() && Follows(old(View()), e, View(), capacity) && e.page == v
      ensures v in pages && pages[v] == p
      ensures e.Allocated? ==>
        previous == p && NextFree(old(previous), old(adjacent), old(inverse), draws, stride, p, adjacent)
      ensures !e.Allocated? ==> previous == old(previous) && adjacent == old(adjacent)
      ensures e.Swapped? ==> e.victim !in recent && forall w :: w in old(pages) && w !in recent ==> e.victim <= w
    {
      if v in pages {
        return pages[v], Known(v);
      }
      if allocatedPages >= capacity {
        var victim := LeastUnused(recent);
        SwapKeepsInverse(View(), v, victim);
        p := pages[victim];
        pages := pages - {victim};
        pages := pages[v := p];
        inverse := inverse[p := v];
        return p, Swapped(v, victim);
      }
      p := FreePage(draws, stride);
      AllocateKeepsInverse(View(), v, p);
      pages := pages[v := p];
      inverse := inverse[p := v];
      allocatedPages := allocatedPages + 1;
      e := Allocated(v, p);
    }

    /** The first page in order that was not used recently. */
    method LeastUnused(recent: set<nat>) returns (victim: nat)
      requires exists w: nat :: w in pages && w !in recent
      ensures victim in pages && victim !in recent
      ensures forall w :: w in pages && w !in recent ==> victim <= w
    {
      var left := pages.Keys - recent;
      ghost var unused: nat :| unused in pages && unused !in recent;
      assert unused in left;
      victim :| victim in left;
      left := left - {victim};
      while left != {}
        invariant victim in pages && victim !in recent && left <= pages.Keys - recent
        invariant forall w :: w in pages && w !in recent && w !in left ==> victim <= w
        decreases |left|
      {
        var w :| w in left;
        left := left - {w};
        if w < victim { victim := w; }
      }
    }

    /** The page after the previous one while a stretch of adjacent pages lasts, else random pages until one is free. */
    method FreePage(draws: seq<nat>, stride: nat) returns (p: nat)
      requires exists i :: 0 <= i < |draws| && draws[i] !in inverse
      modifies this`previous, this`adjacent
      ensures previous == p && p !in inverse
      ensures NextFree(old(previous), old(adjacent), inverse, draws, stride, p, adjacent)
    {
      var fragmented, next := adjacent <= 0, 0;
      if adjacent > 0 {
        p := previous + 1;
      } else {
        p, next := draws[0], 1;
      }
      while p in inverse
        invariant next <= |draws| && (forall i :: 0 <= i < next - 1 ==> draws[i] in inverse)
        invariant p == if next == 0 then old(previous) + 1 else draws[next - 1]
        invariant next == 0 ==> adjacent > 0 && !fragmented
        invariant next > 0 ==> fragmented && (adjacent <= 0 || previous + 1 in inverse)
        invariant p !in inverse || exists i :: next <= i < |draws| && draws[i] !in inverse
        decreases |draws| - next
      {
        fragmented := true;
        p := draws[next];
        next := next + 1;
      }
      previous := p;
      adjacent := adjacent - 1;
      if fragmented { adjacent := stride; }
    }
  }
}
