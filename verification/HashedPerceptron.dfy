/**
 The hashed perceptron branch predictor: its history words are the last 240 outcomes, its table indices
 are folds of the first few of them, and its weights and thresholds stay in range.
 */
module HashedPerceptron {
  const NTABLES: nat := 16
  const SPEED: int := 18
  const WORD_BITS: nat := 12
  const TABLE_SIZE: nat := 4096
  const NGHIST_WORDS: nat := 20
  const HISTORY_LENGTHS: seq<nat> := [0, 3, 4, 6, 8, 10, 14, 19, 26, 36, 49, 67, 91, 125, 170, 232]
  const OUTCOMES: nat := 240

  // ---- Twelve-bit words, the lowest bit first ----

  type Word = w: seq<bool> | |w| == WORD_BITS witness ZEROS

  const ZEROS: seq<bool> := [false, false, false, false, false, false, false, false, false, false, false, false]

  function Xor(x: Word, y: Word): Word { seq(WORD_BITS, b requires 0 <= b < WORD_BITS => x[b] != y[b]) }

  /** The low n bits of a word. */
  function Low(x: Word, n: nat): Word { seq(WORD_BITS, b requires 0 <= b < WORD_BITS => b < n && x[b]) }

  function Number(w: seq<bool>): nat {
    if w == [] then 0 else (if w[0] then 1 else 0) + 2 * Number(w[1..])
  }

  lemma {:induction false} NumberFits(w: seq<bool>, n: nat)
    requires |w| <= n
    ensures Number(w) < Power(n)
  {
    if w != [] {
      NumberFits(w[1..], n - 1);
    }
  }

  function Power(n: nat): nat
    ensures Power(n) >= 1
  {
    if n == 0 then 1 else 2 * Power(n - 1)
  }

  /** Different words select different weights. */
  lemma {:induction false} NumberIsInjective(x: seq<bool>, y: seq<bool>)
    requires |x| == |y| && Number(x) == Number(y)
    ensures x == y
  {
    if x != [] {
      NumberIsInjective(x[1..], y[1..]);
    }
  }

  function Index(w: Word): (i: nat)
    ensures i < TABLE_SIZE
  {
    NumberFits(w, WORD_BITS);
    assert Power(WORD_BITS) == TABLE_SIZE;
    Number(w)
  }

  // ---- The outcomes ----

  /** All outcomes, the newest first; before the program starts no branch was taken. */
  function Outcome(outcomes: seq<bool>, age: nat): bool { age < |outcomes| && outcomes[age] }

  /** The words hold the last 240 outcomes: bit b of word k is the outcome 12 * k + b branches ago. */
  ghost predicate Records(words: seq<Word>, outcomes: seq<bool>) {
    && |words| == NGHIST_WORDS
    && forall k: nat, b: nat :: k < NGHIST_WORDS && b < WORD_BITS ==> RecordsBit(words, outcomes, k, b)
  }

  predicate RecordsBit(words: seq<Word>, outcomes: seq<bool>, k: nat, b: nat)
    requires k < |words| && b < WORD_BITS
  {
    words[k][b] == Outcome(outcomes, k * WORD_BITS + b)
  }

  /** Bit b of the fold of the n newest outcomes: the parity of those whose age is b modulo 12. */
  function FoldBit(outcomes: seq<bool>, n: nat, b: nat): bool {
    if n == 0 then false
    else FoldBit(outcomes, n - 1, b) != ((n - 1) % WORD_BITS == b && Outcome(outcomes, n - 1))
  }

  function Fold(outcomes: seq<bool>, n: nat): Word {
    seq(WORD_BITS, b requires 0 <= b < WORD_BITS => FoldBit(outcomes, n, b))
  }

  /** Folding n more outcomes, not beyond a word, adds each to the bit of its age. */
  lemma {:induction false} FoldWord(outcomes: seq<bool>, k: nat, n: nat, b: nat)
    requires n <= WORD_BITS && b < WORD_BITS
    ensures FoldBit(outcomes, k * WORD_BITS + n, b) ==
      (FoldBit(outcomes, k * WORD_BITS, b) != (b < n && Outcome(outcomes, k * WORD_BITS + b)))
  {
    if n > 0 {
      FoldWord(outcomes, k, n - 1, b);
      AgeInWord(k, n - 1);
      hide Outcome;
    }
  }

  lemma AgeInWord(k: nat, b: nat)
    requires b < WORD_BITS
    ensures (k * WORD_BITS + b) % WORD_BITS == b
  {}

  /** Shifting an outcome into a word: it enters at the low end, and the high bit leaves. */
  function Shift(w: Word, b: bool): Word { [b] + w[..WORD_BITS - 1] }

  function ShiftAll(words: seq<Word>, taken: bool): (r: seq<Word>)
    requires |words| == NGHIST_WORDS
    ensures |r| == NGHIST_WORDS
  {
    seq(NGHIST_WORDS, k requires 0 <= k < NGHIST_WORDS =>
      Shift(words[k], if k == 0 then taken else words[k - 1][WORD_BITS - 1]))
  }

  lemma ShiftAllAt(words: seq<Word>, taken: bool, i: nat, b: bool)
    requires |words| == NGHIST_WORDS && i < NGHIST_WORDS
    requires b == if i == 0 then taken else words[i - 1][WORD_BITS - 1]
    ensures ShiftAll(words, taken)[i] == Shift(words[i], b)
  {}

  lemma ShiftRecords(words: seq<Word>, outcomes: seq<bool>, taken: bool)
    requires Records(words, outcomes)
    ensures Records(ShiftAll(words, taken), [taken] + outcomes)
  {
    hide RecordsBit, ShiftAll;
    var words', outcomes' := ShiftAll(words, taken), [taken] + outcomes;
    forall k: nat, b: nat | k < NGHIST_WORDS && b < WORD_BITS ensures RecordsBit(words', outcomes', k, b) {
      assert b > 0 ==> RecordsBit(words, outcomes, k, b - 1);
      assert k > 0 ==> RecordsBit(words, outcomes, k - 1, WORD_BITS - 1);
      ShiftRecordsBit(words, outcomes, taken, k, b);
    }
  }

  lemma ShiftRecordsBit(words: seq<Word>, outcomes: seq<bool>, taken: bool, k: nat, b: nat)
    requires |words| == NGHIST_WORDS && k < NGHIST_WORDS && b < WORD_BITS
    requires b > 0 ==> RecordsBit(words, outcomes, k, b - 1)
    requires k > 0 ==> RecordsBit(words, outcomes, k - 1, WORD_BITS - 1)
    ensures RecordsBit(ShiftAll(words, taken), [taken] + outcomes, k, b)
  {
    NewerOutcome(outcomes, taken, k * WORD_BITS + b);
    hide Outcome;
    var word := ShiftAll(words, taken)[k];
    if b > 0 {
      assert word[b] == words[k][b - 1] == Outcome(outcomes, k * WORD_BITS + b - 1);
    } else if k > 0 {
      assert word[0] == words[k - 1][WORD_BITS - 1] == Outcome(outcomes, (k - 1) * WORD_BITS + WORD_BITS - 1);
    } else {
      assert word[0] == taken;
    }
    hide ShiftAll;
  }

  lemma NewerOutcome(outcomes: seq<bool>, taken: bool, age: nat)
    ensures Outcome([taken] + outcomes, age) == if age == 0 then taken else Outcome(outcomes, age - 1)
  {}

  // ---- The predictor ----

  function Abs(x: int): nat { if x < 0 then -x else x }

  /** A weight one step towards the outcome, saturating at 127 and -128. */
  function Trained(weight: int, taken: bool): (w: int)
    ensures taken ==> w == if weight + 1 <= 127 then weight + 1 else weight
    ensures !taken ==> w == if weight - 1 >= -128 then weight - 1 else weight
  {
    if taken then (if weight < 127 then weight + 1 else weight)
    else if weight > -128 then weight - 1 else weight
  }

  function Sum(w: seq<int>): int {
    if w == [] then 0 else Sum(w[..|w| - 1]) + w[|w| - 1]
  }

  lemma SumExtends(w: seq<int>, x: int)
    ensures Sum(w + [x]) == Sum(w) + x
  {
    assert (w + [x])[..|w|] == w;
  }

  /** Weights moved towards the outcome move their sum there, unless all of them are saturated. */
  lemma {:induction false} SumMoves(was: seq<int>, now: seq<int>, taken: bool)
    requires |was| == |now| && forall i :: 0 <= i < |was| ==> -128 <= was[i] <= 127 && now[i] == Trained(was[i], taken)
    ensures if taken then Sum(was) <= Sum(now) <= Sum(was) + |was| else Sum(was) - |was| <= Sum(now) <= Sum(was)
    ensures Sum(now) == Sum(was) ==> forall i :: 0 <= i < |was| ==> was[i] == if taken then 127 else -128
  {
    var n := |was| - 1;
    if was != [] {
      SumMoves(was[..n], now[..n], taken);
    }
  }

  /** Seznec's threshold rule: after 18 more mispredictions than weak hits it rises, after 18 fewer it falls. */
  function Adjusted(theta: int, tc: int, correct: bool, magnitude: nat): (int, int) {
    if !correct then (if tc + 1 >= SPEED then (theta + 1, 0) else (theta, tc + 1))
    else if magnitude < theta then (if tc - 1 <= -SPEED then (theta - 1, 0) else (theta, tc - 1))
    else (theta, tc)
  }

  /** The threshold never becomes negative, because only hits weaker than it lower it. */
  lemma ThresholdStaysInRange(theta: int, tc: int, correct: bool, magnitude: nat)
    requires theta >= 0 && Abs(tc) < SPEED
    ensures var (theta', tc') := Adjusted(theta, tc, correct, magnitude); theta' >= 0 && Abs(tc') < SPEED
  {}

  /**
   The threshold and its counter together count mispredictions less weak hits, 18 of which make one
   step of the threshold; a step clears the counter.
   */
  lemma ThresholdCounts(theta: int, tc: int, correct: bool, magnitude: nat)
    requires theta >= 0 && Abs(tc) < SPEED
    ensures var (theta', tc') := Adjusted(theta, tc, correct, magnitude);
      && SPEED * theta' + tc' == SPEED * theta + tc + (if !correct then 1 else if magnitude < theta then -1 else 0)
      && (theta' != theta ==> tc' == 0)
  {}

  class Predictor {
    const tables: array2<int>
    const words: array<Word>
    const indices: array<nat>
    var theta: int
    var tc: int
    var yout: int
    ghost var outcomes: seq<bool>

    ghost predicate WeightsOk()
      reads tables, indices
    {
      && tables.Length0 == NTABLES && tables.Length1 == TABLE_SIZE && indices.Length == NTABLES
      && (forall i, x :: 0 <= i < NTABLES && 0 <= x < TABLE_SIZE ==> -128 <= tables[i, x] <= 127)
      && (forall i :: 0 <= i < NTABLES ==> indices[i] < TABLE_SIZE)
    }

    ghost predicate Valid()
      reads this, tables, words, indices
    {
      && WeightsOk() && words.Length == NGHIST_WORDS && Records(words[..], outcomes)
      && Abs(yout) <= 2048 && theta >= 0 && Abs(tc) < SPEED
    }

    constructor ()
      ensures Valid() && outcomes == []
    {
      tables := new int[NTABLES, TABLE_SIZE]((_, _) => 0);
      words := new Word[NGHIST_WORDS](_ => ZEROS);
      indices := new nat[NTABLES](_ => 0);
      theta, tc, yout, outcomes := 10, 0, 0, [];
    }

    /** The sum of the weights that the first n indices select. */
    ghost function Selected(n: nat): (y: int)
      reads tables, indices
      requires WeightsOk() && n <= NTABLES
      ensures -128 * n <= y <= 127 * n
    {
      if n == 0 then 0 else Selected(n - 1) + tables[n - 1, indices[n - 1]]
    }

    /** Fold the n newest outcomes with the words of the history. */
    method HashHistory(n: nat) returns (x: Word)
      requires Valid() && n < OUTCOMES
      ensures x == Fold(outcomes, n)
    {
      x := ZEROS;
      var most, last := n / WORD_BITS, n % WORD_BITS;
      for j := 0 to most
        invariant x == Fold(outcomes, j * WORD_BITS)
      {
        FoldNextWord(words[..], outcomes, j, WORD_BITS);
        x := Xor(x, words[j]);
        assert Low(words[j], WORD_BITS) == words[j];
      }
      FoldNextWord(words[..], outcomes, most, last);
      x := Xor(x, Low(words[most], last));
    }

    twostate lemma SameSelected(n: nat)
      requires old(WeightsOk()) && WeightsOk() && n <= NTABLES
      requires forall i :: 0 <= i < n ==> indices[i] == old(indices[i])
      requires forall i, x :: 0 <= i < NTABLES && 0 <= x < TABLE_SIZE ==> tables[i, x] == old(tables[i, x])
      ensures Selected(n) == old(Selected(n))
    {
      if n > 0 {
        SameSelected(n - 1);
      }
    }

    /** Each table is indexed by the fold of its history length with the branch address. */
    method PredictBranch(pc: Word) returns (taken: bool)
      requires Valid()
      modifies this`yout, indices
      ensures Valid()
      ensures forall i :: 0 <= i < NTABLES ==> indices[i] == Index(Xor(Fold(outcomes, HISTORY_LENGTHS[i]), pc))
      ensures yout == Selected(NTABLES) && (taken <==> yout >= 1)
    {
      yout := 0;
      assert Selected(0) == 0;
      hide Records, Fold, Xor, Index, Selected, Abs;
      for i := 0 to NTABLES
        invariant Valid() && yout == Selected(i)
        invariant forall k :: 0 <= k < i ==> indices[k] == Index(Xor(Fold(outcomes, HISTORY_LENGTHS[k]), pc))
      {
        var x := HashHistory(HISTORY_LENGTHS[i]);
        AddWeight(i, Index(Xor(x, pc)));
      }
      taken := yout >= 1;
    }

    /** Select weight x of table i. */
    method AddWeight(i: nat, x: nat)
      requires WeightsOk() && i < NTABLES && x < TABLE_SIZE && yout == Selected(i)
      modifies this`yout, indices
      ensures WeightsOk() && indices[..] == old(indices[..])[i := x] && yout == Selected(i + 1)
    {
      indices[i] := x;
      assert WeightsOk();
      SameSelected(i);
      yout := yout + tables[i, x];
    }

    /** Record the outcome: every word shifts by one, taking in the bit that its younger neighbour loses. */
    method RecordOutcome(taken: bool)
      requires words.Length == NGHIST_WORDS && Records(words[..], outcomes)
      modifies this`outcomes, words
      ensures Records(words[..], outcomes) && outcomes == [taken] + old(outcomes)
    {
      hide Records, Shift, ShiftAll;
      ghost var was := words[..];
      var b := taken;
      for i := 0 to NGHIST_WORDS
        invariant outcomes == old(outcomes)
        invariant b == if i == 0 then taken else was[i - 1][WORD_BITS - 1]
        invariant words[..] == ShiftAll(was, taken)[..i] + was[i..]
      {
        assert words[i] == was[i];
        ShiftAllAt(was, taken, i, b);
        ShiftedPrefix(was, ShiftAll(was, taken), i);
        var high := words[i][WORD_BITS - 1];
        words[i] := Shift(words[i], b);
        b := high;
      }
      assert words[..] == ShiftAll(was, taken);
      ShiftRecords(was, outcomes, taken);
      outcomes := [taken] + outcomes;
    }

    /** The weights that the first n indices select. */
    ghost function Weights(n: nat): (w: seq<int>)
      reads tables, indices
      requires WeightsOk() && n <= NTABLES
      ensures |w| == n && Sum(w) == Selected(n)
      ensures forall i :: 0 <= i < n ==> w[i] == tables[i, indices[i]]
    {
      if n == 0 then []
      else
        SumExtends(Weights(n - 1), tables[n - 1, indices[n - 1]]);
        Weights(n - 1) + [tables[n - 1, indices[n - 1]]]
    }

    /** Move the weights that made the prediction towards the outcome. */
    method TrainWeights(taken: bool)
      requires WeightsOk()
      modifies tables
      ensures WeightsOk()
      ensures taken ==> Selected(NTABLES) >= old(Selected(NTABLES))
      ensures !taken ==> Selected(NTABLES) <= old(Selected(NTABLES))
      ensures Selected(NTABLES) == old(Selected(NTABLES)) ==>
        forall i :: 0 <= i < NTABLES ==> old(tables[i, indices[i]]) == if taken then 127 else -128
      ensures forall i, x :: 0 <= i < NTABLES && 0 <= x < TABLE_SIZE ==>
        tables[i, x] == if x == indices[i] then Trained(old(tables[i, x]), taken) else old(tables[i, x])
    {
      ghost var was := Weights(NTABLES);
      for i := 0 to NTABLES
        invariant WeightsOk()
        invariant forall k, x :: 0 <= k < NTABLES && 0 <= x < TABLE_SIZE ==>
          tables[k, x] == if k < i && x == indices[k] then Trained(old(tables[k, x]), taken) else old(tables[k, x])
      {
        var x := indices[i];
        if taken {
          if tables[i, x] < 127 { tables[i, x] := tables[i, x] + 1; }
        } else {
          if tables[i, x] > -128 { tables[i, x] := tables[i, x] - 1; }
        }
      }
      SumMoves(was, Weights(NTABLES), taken);
    }

    /** Learn from an outcome: on a misprediction or a weak hit, and only then, the weights are trained. */
    method LastBranchResult(taken: bool)
      requires Valid()
      modifies this, words, tables
      ensures Valid() && outcomes == [taken] + old(outcomes) && yout == old(yout)
      ensures (taken != (yout >= 1) || Abs(yout) < old(theta)) ==>
        && (taken ==> Selected(NTABLES) >= old(Selected(NTABLES)))
        && (!taken ==> Selected(NTABLES) <= old(Selected(NTABLES)))
        && (Selected(NTABLES) == old(Selected(NTABLES)) ==>
              forall i :: 0 <= i < NTABLES ==> old(tables[i, indices[i]]) == if taken then 127 else -128)
      ensures var correct := taken == (yout >= 1);
        && (theta, tc) == Adjusted(old(theta), old(tc), correct, Abs(yout))
        && forall i, x :: 0 <= i < NTABLES && 0 <= x < TABLE_SIZE ==>
             tables[i, x] == if x == indices[i] && (!correct || Abs(yout) < old(theta))
                             then Trained(old(tables[i, x]), taken) else old(tables[i, x])
    {
      var correct := taken == (yout >= 1);
      RecordOutcome(taken);
      var a := Abs(yout);
      if !correct || a < theta {
        TrainWeights(taken);
        if !correct {
          tc := tc + 1;
          if tc >= SPEED { theta, tc := theta + 1, 0; }
        } else if a < theta {
          tc := tc - 1;
          if tc <= -SPEED { theta, tc := theta - 1, 0; }
        }
      }
    }
  }

  lemma ShiftedPrefix(was: seq<Word>, now: seq<Word>, i: nat)
    requires |was| == |now| && i < |was|
    ensures (now[..i] + was[i..])[i := now[i]] == now[..i + 1] + was[i + 1..]
  {}

  /** Taking in the low bits of the next word continues the fold. */
  lemma FoldNextWord(words: seq<Word>, outcomes: seq<bool>, k: nat, n: nat)
    requires Records(words, outcomes) && k < NGHIST_WORDS && n <= WORD_BITS
    ensures Fold(outcomes, k * WORD_BITS + n) == Xor(Fold(outcomes, k * WORD_BITS), Low(words[k], n))
  {
    forall b | 0 <= b < WORD_BITS
      ensures Fold(outcomes, k * WORD_BITS + n)[b] == Xor(Fold(outcomes, k * WORD_BITS), Low(words[k], n))[b]
    {
      FoldWord(outcomes, k, n, b);
      assert RecordsBit(words, outcomes, k, b);
    }
  }
}
