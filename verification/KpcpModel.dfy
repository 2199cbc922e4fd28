/**
 The lookahead prefetcher of the L2 cache: signature table, pattern table, and the path walk,
 as values.
 */
module KpcpModel {
  import opened Counting

  const PT_SET: nat := 512
  const PT_WAY: nat := 4
  const PT_PRIME: nat := 509
  const CSIG_MAX: nat := 16
  const CDELTA_MAX: nat := 16
  const PF_THRESHOLD: nat := 25
  const BUFFER_SIZE: nat := 32 // entries of the L2 MSHR file

  // Signatures have 12 bits; 16 leave room for the shift.
  type Signature = bv16

  /** A signed block delta as the seven-bit code mixed into signatures. */
  function DeltaCode(delta: int): bv16
    requires -64 < delta < 64
  {
    if delta < 0 then (64 - delta) as bv16 else delta as bv16
  }

  function GetNewSignature(signature: Signature, delta: int): Signature
    requires -64 < delta < 64
  {
    if delta == 0 then signature
    else
      var code := DeltaCode(delta);
      var mixed := ((signature << 3) ^ code) & 0xFFF;
      if mixed == 0 then (if code != 0 then code else signature) else mixed
  }

  lemma CodeIsNonzero(delta: int)
    requires -64 < delta < 64 && delta != 0
    ensures DeltaCode(delta) != 0
  {
    assert (DeltaCode(delta) as int) != 0;
  }

  /**
   A signature carries the older steps three bits up, and the newest step's code mixed into them; where
   they cancel, the code alone remains.
   */
  lemma SignatureMixes(signature: Signature, delta: int)
    requires -64 < delta < 64 && delta != 0
    ensures var code, shifted := DeltaCode(delta), (signature << 3) & 0xFFF;
      GetNewSignature(signature, delta) == (if shifted == code then code else shifted ^ code)
    ensures GetNewSignature(signature, delta) != 0 && GetNewSignature(signature, 0) == signature
  {
    CodeIsNonzero(delta);
    CodeIsShort(delta);
    MixingInverts(signature, DeltaCode(delta));
  }

  /**
   Signatures that one step leads to the same signature agree in the nine bits that survive the shift,
   unless the step's code is all that is left.
   */
  lemma SignatureRemembers(a: Signature, b: Signature, delta: int)
    requires -64 < delta < 64 && delta != 0
    requires GetNewSignature(a, delta) == GetNewSignature(b, delta) != DeltaCode(delta)
    ensures a & 0x1FF == b & 0x1FF
  {
    SignatureMixes(a, delta);
    SignatureMixes(b, delta);
    hide DeltaCode, GetNewSignature;
    MixesCancel((a << 3) & 0xFFF, (b << 3) & 0xFFF, DeltaCode(delta));
    ShiftKeepsLow(a, b);
  }

  lemma MixesCancel(a: bv16, b: bv16, code: bv16)
    ensures a ^ code == b ^ code ==> a == b
  {}

  lemma CodeIsShort(delta: int)
    requires -64 < delta < 64
    ensures DeltaCode(delta) & 0xFFF == DeltaCode(delta)
  {
    assert DeltaCode(delta) < 128;
  }

  lemma MixingInverts(signature: bv16, code: bv16)
    requires code & 0xFFF == code
    ensures ((signature << 3) ^ code) & 0xFFF == ((signature << 3) & 0xFFF) ^ code
    ensures ((signature << 3) ^ code) & 0xFFF == 0 <==> (signature << 3) & 0xFFF == code
  {}

  lemma ShiftKeepsLow(a: bv16, b: bv16)
    ensures (a << 3) & 0xFFF == (b << 3) & 0xFFF ==> a & 0x1FF == b & 0x1FF
  {}

  function TableIndex(signature: Signature): (i: nat)
    ensures i < PT_SET
  {
    signature as nat % PT_PRIME
  }

  // ---- Pattern table ----

  datatype Pattern = Pattern(delta: int, cDelta: nat, cSig: nat)

  /** One set of the pattern table. The signature counter lives in way 0. */
  type Row = s: seq<Pattern> | |s| == 4 witness seq(4, _ => Pattern(0, 0, 0))

  function Total(row: Row): nat { row[0].cDelta + row[1].cDelta + row[2].cDelta + row[3].cDelta }

  predicate DeltaInPage(delta: int) { -64 < delta < 64 }

  /**
   The arithmetic the path walk lives on: the delta counters of a set never add up to more than its
   signature counter, which stays below 16; an unused way has count zero; used deltas are distinct.
   */
  predicate RowOk(row: Row) {
    && Total(row) <= row[0].cSig < CSIG_MAX
    && (forall i :: 0 <= i < PT_WAY ==> DeltaInPage(row[i].delta))
    && (forall i :: 0 <= i < PT_WAY && row[i].delta == 0 ==> row[i].cDelta == 0)
    && (forall i, j :: 0 <= i < j < PT_WAY && row[i].delta != 0 ==> row[i].delta != row[j].delta)
  }

  function Halve(p: Pattern): Pattern { p.(cDelta := p.cDelta / 2) }

  /** Count the signature once more; at 16 all counters of the set are halved. */
  function CountSignature(row: Row): Row {
    if row[0].cSig + 1 == CSIG_MAX then
      [Halve(row[0]).(cSig := CSIG_MAX / 2), Halve(row[1]), Halve(row[2]), Halve(row[3])]
    else row[0 := row[0].(cSig := row[0].cSig + 1)]
  }

  /** The first way among the first n holding a delta, or -1. */
  function FindDelta(row: Row, delta: int, n: nat): (k: int)
    requires n <= PT_WAY
    ensures -1 <= k < n
    ensures k == -1 ==> forall i :: 0 <= i < n ==> row[i].delta != delta
    ensures k >= 0 ==> row[k].delta == delta && forall i :: 0 <= i < k ==> row[i].delta != delta
  {
    if n == 0 then -1
    else
      var k := FindDelta(row, delta, n - 1);
      if k >= 0 then k else if row[n - 1].delta == delta then n - 1 else -1
  }

  /** The first way among the first n with the least delta counter below the limit, or -1. */
  function Weakest(row: Row, n: nat): (k: int)
    requires n <= PT_WAY
    ensures -1 <= k < n
    ensures k == -1 ==> forall i :: 0 <= i < n ==> row[i].cDelta >= CDELTA_MAX
    ensures k >= 0 ==> row[k].cDelta < CDELTA_MAX && forall i :: 0 <= i < n ==> row[k].cDelta <= row[i].cDelta
  {
    if n == 0 then -1
    else
      var k := Weakest(row, n - 1);
      if row[n - 1].cDelta < (if k == -1 then CDELTA_MAX else row[k].cDelta) then n - 1 else k
  }

  /** The way an update goes to: a hit, else an unused way, else the weakest. */
  function UpdateWay(row: Row, delta: int): (k: int)
    ensures -1 <= k < PT_WAY
  {
    var hit := FindDelta(row, delta, PT_WAY);
    var unused := FindDelta(row, 0, PT_WAY);
    if hit != -1 then hit else if unused != -1 then unused else Weakest(row, PT_WAY)
  }

  function UpdateRow(row: Row, delta: int): Row
    requires UpdateWay(CountSignature(row), delta) != -1
  {
    var counted := CountSignature(row);
    var k := UpdateWay(counted, delta);
    if counted[k].delta == delta then counted[k := counted[k].(cDelta := counted[k].cDelta + 1)]
    else counted[k := counted[k].(delta := delta, cDelta := 0)]
  }

  lemma CountSignatureBounds(row: Row)
    requires RowOk(row)
    ensures Total(CountSignature(row)) + 1 <= CountSignature(row)[0].cSig < CSIG_MAX
    ensures forall i :: 0 <= i < PT_WAY ==> CountSignature(row)[i].delta == row[i].delta
    ensures forall i :: 0 <= i < PT_WAY && row[i].delta == 0 ==> CountSignature(row)[i].cDelta == 0
  {}

  /** Every update finds a way and keeps the arithmetic of the set. */
  lemma UpdateKeepsRow(row: Row, delta: int)
    requires RowOk(row) && DeltaInPage(delta) && delta != 0
    ensures UpdateWay(CountSignature(row), delta) != -1
    ensures RowOk(UpdateRow(row, delta))
  {
    CountSignatureBounds(row);
    var counted := CountSignature(row);
    var k := UpdateWay(counted, delta);
    assert counted[0].cDelta < CDELTA_MAX;
    assert k != -1;
    var row' := UpdateRow(row, delta);
    assert Total(row') <= Total(counted) + 1;
    forall i, j | 0 <= i < j < PT_WAY && row'[i].delta != 0 ensures row'[i].delta != row'[j].delta {
      assert counted[i].delta == row[i].delta && counted[j].delta == row[j].delta;
    }
  }

  /**
   One teaching: the signature is counted, at 16 every count of the set is halved; a delta the set
   knows counts once more, an unknown one takes an unused way, else one of least count, and counts 0;
   the other ways stay.
   */
  lemma UpdateTeaches(row: Row, delta: int)
    requires RowOk(row) && DeltaInPage(delta) && delta != 0 && UpdateWay(CountSignature(row), delta) != -1
    ensures var row', full := UpdateRow(row, delta), row[0].cSig + 1 == CSIG_MAX;
      && row'[0].cSig == (if full then 8 else row[0].cSig + 1)
      && (forall i :: 1 <= i < PT_WAY ==> row'[i].cSig == row[i].cSig)
      && (forall i :: 0 <= i < PT_WAY && row[i].delta == delta ==>
            row'[i].delta == delta && row'[i].cDelta == CountLeft(row, i) + 1)
      && ((forall i :: 0 <= i < PT_WAY ==> row[i].delta != delta) ==>
            exists k :: 0 <= k < PT_WAY && Evicted(row, k)
              && row'[k].delta == delta && row'[k].cDelta == 0)
      && (forall i :: 0 <= i < PT_WAY && row'[i].delta != delta ==>
            row'[i].delta == row[i].delta && row'[i].cDelta == CountLeft(row, i))
  {
    CountSignatureCounts(row);
    UpdateChoice(row, delta);
    hide CountSignature, UpdateWay, CountLeft, Evicted;
  }

  lemma CountSignatureCounts(row: Row)
    ensures CountSignature(row)[0].cSig == if row[0].cSig + 1 == CSIG_MAX then 8 else row[0].cSig + 1
    ensures forall i :: 0 <= i < PT_WAY ==>
      var counted := CountSignature(row);
      counted[i].delta == row[i].delta && counted[i].cDelta == CountLeft(row, i) && (i > 0 ==> counted[i].cSig == row[i].cSig)
  {}

  lemma UpdateChoice(row: Row, delta: int)
    requires delta != 0 && UpdateWay(CountSignature(row), delta) != -1
    ensures var k := UpdateWay(CountSignature(row), delta);
      if exists i :: 0 <= i < PT_WAY && row[i].delta == delta then row[k].delta == delta
      else row[k].delta != delta && Evicted(row, k)
  {
    CountSignatureCounts(row);
    hide CountSignature, CountLeft;
  }

  /** The count a way has left once the signature is counted. */
  function CountLeft(row: Row, i: nat): nat
    requires i < PT_WAY
  {
    if row[0].cSig + 1 == CSIG_MAX then row[i].cDelta / 2 else row[i].cDelta
  }

  /** The way an unknown delta takes. */
  predicate Evicted(row: Row, k: nat)
    requires k < PT_WAY
  {
    if exists i :: 0 <= i < PT_WAY && row[i].delta == 0 then row[k].delta == 0
    else forall i :: 0 <= i < PT_WAY ==> CountLeft(row, k) <= CountLeft(row, i)
  }

  type Table = t: seq<Row> | |t| == PT_SET witness seq(PT_SET, _ => seq(4, _ => Pattern(0, 0, 0)))

  predicate TableOk(t: Table) { forall i :: 0 <= i < PT_SET ==> RowOk(t[i]) }

  /** The table after a signature was followed by a delta. */
  function Taught(t: Table, signature: Signature, delta: int): Table
    requires TableOk(t) && DeltaInPage(delta) && delta != 0
  {
    var x := TableIndex(signature);
    UpdateKeepsRow(t[x], delta);
    t[x := UpdateRow(t[x], delta)]
  }

  // ---- Candidates of the current signature ----

  datatype Prefetch = Prefetch(delta: int, signature: Signature, conf: nat, depth: nat)

  predicate SamePage(block: int, delta: int) { 0 <= block + delta <= 63 }

  /** Confidence of way i in percent. */
  function Confidence(row: Row, i: nat): nat
    requires i < PT_WAY && row[0].cSig > 0
  {
    100 * row[i].cDelta / row[0].cSig
  }

  /** It is the share of the signature's uses that the delta followed, rounded down. */
  lemma ConfidenceIsShare(row: Row, i: nat)
    requires i < PT_WAY && row[0].cSig > 0
    ensures Confidence(row, i) * row[0].cSig <= 100 * row[i].cDelta < (Confidence(row, i) + 1) * row[0].cSig
  {
    RoundsDown(100 * row[i].cDelta, row[0].cSig);
  }

  lemma RoundsDown(a: nat, w: nat)
    requires w > 0
    ensures a / w * w <= a < (a / w + 1) * w
  {
    assert a == a / w * w + a % w;
  }

  /** The confident in-page candidates among the first n ways, in way order. */
  function Candidates(row: Row, signature: Signature, block: int, n: nat): (c: seq<Prefetch>)
    requires n <= PT_WAY && row[0].cSig > 0
    ensures |c| <= n
  {
    if n == 0 then []
    else
      var c := Candidates(row, signature, block, n - 1);
      if Confidence(row, n - 1) >= PF_THRESHOLD && SamePage(block, row[n - 1].delta)
      then c + [Prefetch(row[n - 1].delta, signature, Confidence(row, n - 1), 1)]
      else c
  }

  /** A prefetch of this signature: a way used in a quarter of the cases or more, landing in the page. */
  predicate IsCandidate(row: Row, signature: Signature, block: int, i: nat, p: Prefetch)
    requires i < PT_WAY && row[0].cSig > 0
  {
    && Confidence(row, i) >= PF_THRESHOLD && 0 <= block + row[i].delta <= 63
    && p == Prefetch(row[i].delta, signature, Confidence(row, i), 1)
  }

  /** The prefetches of a signature are exactly its candidates, in the order of their ways. */
  lemma {:induction false} CandidatesAreAll(row: Row, signature: Signature, block: int, n: nat) returns (at: seq<nat>)
    requires row[0].cSig > 0 && n <= PT_WAY
    ensures var c := Candidates(row, signature, block, n);
      && |at| == |c|
      && (forall k :: 0 <= k < |c| ==> at[k] < n && IsCandidate(row, signature, block, at[k], c[k]))
      && (forall j, k :: 0 <= j < k < |c| ==> at[j] < at[k])
      && (forall i, p :: 0 <= i < n && IsCandidate(row, signature, block, i, p) ==> i in at)
  {
    hide Confidence;
    at := [];
    if n > 0 {
      at := CandidatesAreAll(row, signature, block, n - 1);
      if Confidence(row, n - 1) >= PF_THRESHOLD && SamePage(block, row[n - 1].delta) {
        at := at + [n - 1];
      }
    }
  }

  /** The first way of greatest positive count among those the filter lets through, or -1. */
  function Strongest(row: Row, mask: seq<bool>, n: nat): (k: int)
    requires n <= PT_WAY && |mask| == PT_WAY
    ensures -1 <= k < n
    ensures k == -1 ==> forall i :: 0 <= i < n && mask[i] ==> row[i].cDelta == 0
    ensures k >= 0 ==> mask[k] && row[k].cDelta > 0 && forall i :: 0 <= i < n && mask[i] ==> row[i].cDelta <= row[k].cDelta
  {
    if n == 0 then -1
    else
      var k := Strongest(row, mask, n - 1);
      if mask[n - 1] && row[n - 1].cDelta > (if k == -1 then 0 else row[k].cDelta) then n - 1 else k
  }

  function Confident(row: Row): (m: seq<bool>)
    requires row[0].cSig > 0
    ensures |m| == PT_WAY
  {
    seq(PT_WAY, i requires 0 <= i < PT_WAY => Confidence(row, i) >= PF_THRESHOLD)
  }

  // ---- The path walk ----

  /** Confidence of a path extended by way i, in the integer arithmetic of the walk. */
  function PathConfidence(row: Row, i: nat, conf: nat, maxConf: nat): nat
    requires i < PT_WAY && row[0].cSig > 0
  {
    conf * row[i].cDelta / row[0].cSig * maxConf / 100
  }

  /** The path's confidence times that share, rounded down, times maxConf percent, rounded down. */
  lemma PathConfidenceIsShare(row: Row, i: nat, conf: nat, maxConf: nat) returns (share: nat)
    requires i < PT_WAY && row[0].cSig > 0
    ensures share * row[0].cSig <= conf * row[i].cDelta < (share + 1) * row[0].cSig
    ensures var c := PathConfidence(row, i, conf, maxConf); 100 * c <= share * maxConf < 100 * (c + 1)
  {
    share := conf * row[i].cDelta / row[0].cSig;
    RoundsDown(conf * row[i].cDelta, row[0].cSig);
  }

  function PathConfident(row: Row, conf: nat, maxConf: nat): (m: seq<bool>)
    requires row[0].cSig > 0
    ensures |m| == PT_WAY
  {
    seq(PT_WAY, i requires 0 <= i < PT_WAY => PathConfidence(row, i, conf, maxConf) >= PF_THRESHOLD)
  }

  /** Where the walk stands: signature, path confidence, distance and last distance from the start. */
  datatype Path = Path(signature: Signature, conf: nat, delta: int, last: int)

  lemma ScaledBelow(conf: nat, part: nat, whole: nat, maxConf: nat)
    requires part <= whole && 0 < whole && 0 < conf && maxConf <= 99
    ensures conf * part / whole <= conf
    ensures conf * part / whole * maxConf / 100 < conf
  {
    assert conf * part <= conf * whole;
    DivBound(conf * part, conf, whole);
    var x := conf * part / whole;
    assert x * maxConf <= conf * 99;
  }

  lemma MulMonotone(a: nat, b: nat, w: nat)
    requires a <= b
    ensures a * w <= b * w
  {}

  lemma DivBound(a: nat, b: nat, w: nat)
    requires w > 0 && a <= b * w
    ensures a / w <= b
  {
    var q := a / w;
    if q > b {
      MulMonotone(b + 1, q, w);
    }
  }

  /** Every extension of a path is strictly less confident than the path. */
  lemma PathConfidenceFalls(row: Row, i: nat, conf: nat, maxConf: nat)
    requires RowOk(row) && row[0].cSig > 0 && i < PT_WAY && conf > 0 && maxConf <= 99
    ensures PathConfidence(row, i, conf, maxConf) < conf
  {
    ScaledBelow(conf, row[i].cDelta, row[0].cSig, maxConf);
  }

  /** One step of the walk: the next stand and the prefetch it adds, if any. */
  function Walk(t: Table, p: Path, count: nat, block: int, maxConf: nat): (Path, Option<Prefetch>)
    requires DeltaInPage(p.delta - p.last)
  {
    var signature := GetNewSignature(p.signature, p.delta - p.last);
    var row := t[TableIndex(signature)];
    var stop := Path(signature, 0, 0, p.delta);
    if row[0].cSig == 0 then (stop, None)
    else
      var k := Strongest(row, PathConfident(row, p.conf, maxConf), PT_WAY);
      if k == -1 || count >= BUFFER_SIZE then (stop, None)
      else
        var delta := p.delta + row[k].delta;
        var conf := PathConfidence(row, k, p.conf, maxConf);
        (Path(signature, conf, delta, p.delta),
         if SamePage(block, delta) && delta != 0 then Some(Prefetch(delta, signature, conf, count + 1)) else None)
  }

  /** The first way of greatest count among those of enough path confidence. */
  predicate LeadsOn(row: Row, conf: nat, maxConf: nat, k: nat)
    requires k < PT_WAY && row[0].cSig > 0
  {
    && row[k].cDelta > 0 && PathConfidence(row, k, conf, maxConf) >= PF_THRESHOLD
    && (forall i :: 0 <= i < PT_WAY && PathConfidence(row, i, conf, maxConf) >= PF_THRESHOLD ==>
          row[i].cDelta < row[k].cDelta || (row[i].cDelta == row[k].cDelta && k <= i))
  }

  lemma StrongestLeadsOn(row: Row, conf: nat, maxConf: nat)
    requires row[0].cSig > 0
    ensures forall k :: 0 <= k < PT_WAY ==>
      (LeadsOn(row, conf, maxConf, k) <==> k == Strongest(row, PathConfident(row, conf, maxConf), PT_WAY))
  {
    StrongestIsFirst(row, PathConfident(row, conf, maxConf), PT_WAY);
    hide Strongest, PathConfidence;
  }

  /**
   One step of the walk follows the most used way that is confident enough, and adds a prefetch of the
   accumulated distance unless that is zero or leaves the page; with no such way, or a full buffer, it ends.
   */
  lemma WalkFollowsStrongest(t: Table, p: Path, count: nat, block: int, maxConf: nat)
    requires DeltaInPage(p.delta - p.last)
    ensures var (q, added) := Walk(t, p, count, block, maxConf);
      var row := t[TableIndex(q.signature)];
      && q.signature == GetNewSignature(p.signature, p.delta - p.last) && q.last == p.delta
      && if row[0].cSig > 0 && count < BUFFER_SIZE && exists k :: 0 <= k < PT_WAY && LeadsOn(row, p.conf, maxConf, k) then
           forall k :: 0 <= k < PT_WAY && LeadsOn(row, p.conf, maxConf, k) ==>
             && q.delta == p.delta + row[k].delta
             && q.conf == PathConfidence(row, k, p.conf, maxConf)
             && added == if q.delta == 0 || block + q.delta < 0 || block + q.delta > 63 then None
                         else Some(Prefetch(q.delta, q.signature, q.conf, count + 1))
         else q.conf == 0 && q.delta == 0 && added == None
  {
    var row := t[TableIndex(GetNewSignature(p.signature, p.delta - p.last))];
    if row[0].cSig > 0 {
      StrongestLeadsOn(row, p.conf, maxConf);
    }
    hide Strongest, PathConfident, PathConfidence, LeadsOn, GetNewSignature, TableIndex;
  }

  lemma {:induction false} StrongestIsFirst(row: Row, mask: seq<bool>, n: nat)
    requires n <= PT_WAY && |mask| == PT_WAY
    ensures var k := Strongest(row, mask, n);
      k >= 0 ==> forall i :: 0 <= i < k && mask[i] ==> row[i].cDelta < row[k].cDelta
  {
    if n > 0 { StrongestIsFirst(row, mask, n - 1); }
  }

  lemma WalkFalls(t: Table, p: Path, count: nat, block: int, maxConf: nat)
    requires TableOk(t) && DeltaInPage(p.delta - p.last) && p.conf >= PF_THRESHOLD && maxConf <= 99
    ensures var q := Walk(t, p, count, block, maxConf).0;
      q.conf < p.conf && (q.conf >= PF_THRESHOLD ==> DeltaInPage(q.delta - q.last))
  {
    var signature := GetNewSignature(p.signature, p.delta - p.last);
    var row := t[TableIndex(signature)];
    assert RowOk(row);
    if row[0].cSig > 0 {
      var k := Strongest(row, PathConfident(row, p.conf, maxConf), PT_WAY);
      if k != -1 {
        PathConfidenceFalls(row, k, p.conf, maxConf);
      }
    }
  }

  // ---- What the walk adds ----

  /** A prefetch worth issuing: a nonzero delta inside the page, with enough confidence. */
  predicate Good(p: Prefetch, block: int) {
    p.delta != 0 && SamePage(block, p.delta) && PF_THRESHOLD <= p.conf <= 100
  }

  lemma ConfidenceAtMost100(row: Row, i: nat)
    requires RowOk(row) && row[0].cSig > 0 && i < PT_WAY
    ensures Confidence(row, i) <= 100
  {
    DivBound(100 * row[i].cDelta, 100, row[0].cSig);
  }

  lemma {:induction false} CandidatesAreGood(row: Row, signature: Signature, block: int, n: nat)
    requires RowOk(row) && row[0].cSig > 0 && n <= PT_WAY
    ensures forall i :: 0 <= i < |Candidates(row, signature, block, n)| ==>
      Good(Candidates(row, signature, block, n)[i], block)
  {
    if n > 0 {
      CandidatesAreGood(row, signature, block, n - 1);
      ConfidenceAtMost100(row, n - 1);
      if row[n - 1].delta == 0 {
        assert Confidence(row, n - 1) == 0;
      }
    }
  }

  /** A step adds at most one prefetch, good and less confident than the path so far. */
  lemma WalkIsGood(t: Table, p: Path, count: nat, block: int, maxConf: nat)
    requires TableOk(t) && DeltaInPage(p.delta - p.last) && PF_THRESHOLD <= p.conf <= 100 && maxConf <= 99
    ensures var (q, added) := Walk(t, p, count, block, maxConf);
      added.Some? ==>
        && count < BUFFER_SIZE && Good(added.value, block)
        && added.value.conf == q.conf < p.conf && added.value.depth == count + 1
  {
    WalkFalls(t, p, count, block, maxConf);
  }

  /** Good prefetches numbered from `count`, each less confident than the one before, the first than `conf`. */
  predicate Falling(c: seq<Prefetch>, count: nat, block: int, conf: nat) {
    if c == [] then count <= BUFFER_SIZE
    else
      && Good(c[0], block) && c[0].conf < conf && c[0].depth == count + 1
      && Falling(c[1..], count + 1, block, c[0].conf)
  }

  lemma FallingExtends(p: Prefetch, rest: seq<Prefetch>, count: nat, block: int, conf: nat)
    requires Good(p, block) && p.conf < conf && p.depth == count + 1
    requires Falling(rest, count + 1, block, p.conf)
    ensures Falling([p] + rest, count, block, conf)
  {
    assert ([p] + rest)[1..] == rest;
  }

  lemma FallingWeakens(c: seq<Prefetch>, count: nat, block: int, low: nat, high: nat)
    requires Falling(c, count, block, low) && low <= high
    ensures Falling(c, count, block, high)
  {}

  lemma {:induction false} FallingMeans(c: seq<Prefetch>, count: nat, block: int, conf: nat)
    requires Falling(c, count, block, conf)
    ensures count + |c| <= BUFFER_SIZE
    ensures forall i :: 0 <= i < |c| ==> Good(c[i], block) && c[i].conf < conf && c[i].depth == count + i + 1
    ensures forall i, j :: 0 <= i < j < |c| ==> c[j].conf < c[i].conf
  {
    if c != [] {
      FallingMeans(c[1..], count + 1, block, c[0].conf);
      assert forall i :: 1 <= i < |c| ==> c[i] == c[1..][i - 1];
    }
  }

  function Listed(o: Option<Prefetch>): (s: seq<Prefetch>) { if o.Some? then [o.value] else [] }

  /**
   Everything the walk adds from a stand on, given how many prefetches there are already: good
   prefetches of strictly falling confidence, which is also why the walk ends, and never more than fit.
   */
  ghost function Lookahead(t: Table, p: Path, count: nat, block: int, maxConf: nat): (c: seq<Prefetch>)
    requires TableOk(t) && maxConf <= 99 && count <= BUFFER_SIZE && p.conf <= 100
    requires p.conf >= PF_THRESHOLD ==> DeltaInPage(p.delta - p.last)
    ensures Falling(c, count, block, p.conf)
    decreases p.conf
  {
    if p.conf < PF_THRESHOLD then []
    else
      WalkFalls(t, p, count, block, maxConf);
      WalkIsGood(t, p, count, block, maxConf);
      var (q, added) := Walk(t, p, count, block, maxConf);
      match added
      case None =>
        var rest := Lookahead(t, q, count, block, maxConf);
        FallingWeakens(rest, count, block, q.conf, p.conf);
        rest
      case Some(a) =>
        var rest := Lookahead(t, q, count + 1, block, maxConf);
        FallingExtends(a, rest, count, block, p.conf);
        [a] + rest
  }

  /** Where the walk starts after the candidate search. */
  function Start(row: Row, signature: Signature): Path {
    if row[0].cSig == 0 then Path(signature, 0, 0, 0)
    else
      var k := Strongest(row, Confident(row), PT_WAY);
      if k == -1 then Path(signature, 0, 0, 0)
      else Path(signature, Confidence(row, k), row[k].delta, 0)
  }

  /** The first way of greatest count among those used in a quarter of the cases or more. */
  predicate Leads(row: Row, k: nat)
    requires k < PT_WAY && row[0].cSig > 0
  {
    && row[k].cDelta > 0 && Confidence(row, k) >= PF_THRESHOLD
    && (forall i :: 0 <= i < PT_WAY && Confidence(row, i) >= PF_THRESHOLD ==>
          row[i].cDelta < row[k].cDelta || (row[i].cDelta == row[k].cDelta && k <= i))
  }

  /** The walk starts along that way, or not at all. */
  lemma StartIsStrongest(row: Row, signature: Signature)
    requires row[0].cSig > 0
    ensures var p := Start(row, signature);
      && p.signature == signature && p.last == 0
      && if exists k :: 0 <= k < PT_WAY && Leads(row, k) then
           forall k :: 0 <= k < PT_WAY && Leads(row, k) ==>
             p.delta == row[k].delta && p.conf == Confidence(row, k)
         else p.conf == 0 && p.delta == 0
  {
    StrongestLeads(row);
    var s := Strongest(row, Confident(row), PT_WAY);
    hide Strongest, Leads, Confidence, Confident;
    if s != -1 {
      assert Leads(row, s);
    }
  }

  lemma StrongestLeads(row: Row)
    requires row[0].cSig > 0
    ensures forall k :: 0 <= k < PT_WAY ==> (Leads(row, k) <==> k == Strongest(row, Confident(row), PT_WAY))
  {
    var m := Confident(row);
    StrongestIsFirst(row, m, PT_WAY);
    assert forall i :: 0 <= i < PT_WAY ==> m[i] == (Confidence(row, i) >= PF_THRESHOLD);
    hide Strongest, Confidence;
  }

  function FirstCandidates(row: Row, signature: Signature, block: int): (c: seq<Prefetch>)
    ensures |c| <= PT_WAY
  {
    if row[0].cSig == 0 then [] else Candidates(row, signature, block, PT_WAY)
  }

  /** All prefetches of one check. */
  ghost function PfCheck(t: Table, signature: Signature, block: int, maxConf: nat): seq<Prefetch>
    requires TableOk(t) && maxConf <= 99
  {
    var row := t[TableIndex(signature)];
    var first := FirstCandidates(row, signature, block);
    StartOk(row, signature);
    first + Lookahead(t, Start(row, signature), |first|, block, maxConf)
  }

  lemma StartOk(row: Row, signature: Signature)
    requires RowOk(row)
    ensures DeltaInPage(Start(row, signature).delta - Start(row, signature).last)
    ensures Start(row, signature).conf <= 100
  {
    if row[0].cSig > 0 {
      var k := Strongest(row, Confident(row), PT_WAY);
      if k != -1 { ConfidenceAtMost100(row, k); }
    }
  }

  /** One check never fills more than the buffer, and every entry is a good prefetch. */
  lemma PfCheckIsGood(t: Table, signature: Signature, block: int, maxConf: nat)
    requires TableOk(t) && maxConf <= 99
    ensures var c := PfCheck(t, signature, block, maxConf);
      |c| <= BUFFER_SIZE && forall i :: 0 <= i < |c| ==> Good(c[i], block)
  {
    var row := t[TableIndex(signature)];
    assert RowOk(row);
    var first := FirstCandidates(row, signature, block);
    if row[0].cSig > 0 {
      CandidatesAreGood(row, signature, block, PT_WAY);
    }
    StartOk(row, signature);
    var start := Start(row, signature);
    FallingMeans(Lookahead(t, start, |first|, block, maxConf), |first|, block, start.conf);
  }

  // ---- From prefetch to address ----

  const BLOCK_SIZE: nat := 64
  const PAGE_SIZE: nat := 4096

  function PageOf(address: nat): nat { address / PAGE_SIZE }

  function BlockOf(address: nat): nat { address / BLOCK_SIZE % 64 }

  function PrefetchAddress(address: nat, delta: int): int { (address / BLOCK_SIZE + delta) * BLOCK_SIZE }

  /** A good prefetch stays in the page of its trigger, so the page test of the cache never rejects it. */
  lemma GoodPrefetchStaysInPage(address: nat, p: Prefetch)
    requires Good(p, BlockOf(address))
    ensures PrefetchAddress(address, p.delta) >= 0
    ensures PageOf(PrefetchAddress(address, p.delta)) == PageOf(address)
    ensures BlockOf(PrefetchAddress(address, p.delta)) == BlockOf(address) + p.delta
  {
    var page, block := address / 4096, address / 64 % 64;
    assert address / 64 == page * 64 + block;
    var target := page * 64 + (block + p.delta);
    assert PrefetchAddress(address, p.delta) == target * 64;
    assert target * 64 / 64 == target;
  }
}
