/** `DismissViewModel`: the number puzzle on the dismiss screen. Five distinct
    numbers from 1..99 are scattered on the screen and must be tapped from the
    largest down; a wrong tap deals a new puzzle, the last right tap dismisses.

    Randomness comes in as inputs: the output of `(1..99).shuffled()`, and a stream
    of candidate positions. The geometry that decides whether two positions are
    too close is a parameter, fixed when the view model is built. */
module Dismiss {
  import opened Alarms
  import opened Repository

  const PUZZLE_COUNT: int := 5
  const NUMBER_MIN: int := 1
  const NUMBER_MAX: int := 99
  const MAX_POSITION_ATTEMPTS: int := 100

  /** A point on the screen, as fractions of its width and height. */
  datatype Position = Position(xFraction: real, yFraction: real)

  datatype NumberItem = NumberItem(value: int, position: Position)

  /** The state the taps act on: the target order, the progress through it, the
      items still shown and the dismissed flag. */
  datatype Puzzle = Puzzle(sortedTarget: seq<int>, nextIndex: int, numberItems: seq<NumberItem>, isDismissed: bool)

  /** What `(NUMBER_MIN..NUMBER_MAX).shuffled()` can return: each of 1..99 once. */
  predicate IsShuffle(s: seq<int>) {
    |s| == NUMBER_MAX - NUMBER_MIN + 1 && NoDuplicates(s) &&
    forall i :: 0 <= i < |s| ==> NUMBER_MIN <= s[i] <= NUMBER_MAX
  }

  predicate Descending(s: seq<int>) {
    forall i, j :: 0 <= i < j < |s| ==> s[i] >= s[j]
  }

  /** `x` placed into a list after every larger element at its front. */
  function InsertDescending(x: int, s: seq<int>): seq<int> {
    if s == [] || x >= s[0] then [x] + s else [s[0]] + InsertDescending(x, s[1..])
  }

  /** Inserting adds exactly one `x`. */
  lemma {:induction false} InsertCounts(x: int, s: seq<int>)
    ensures multiset(InsertDescending(x, s)) == multiset(s) + multiset{x}
    decreases |s|
  {
    if s != [] && x < s[0] {
      InsertCounts(x, s[1..]);
      assert s == [s[0]] + s[1..];
    }
  }

  /** Every element of the result is `x` or no larger than the old head. */
  lemma {:induction false} InsertBound(x: int, s: seq<int>)
    requires Descending(s)
    ensures var r := InsertDescending(x, s);
      |r| == |s| + 1 && forall k :: 0 <= k < |r| ==> r[k] <= x || (s != [] && r[k] <= s[0])
    decreases |s|
  {
    if s != [] && x < s[0] {
      InsertBound(x, s[1..]);
    }
  }

  /** Inserting into a descending list keeps it descending and adds exactly `x`. */
  lemma {:induction false} InsertKeepsOrder(x: int, s: seq<int>)
    requires Descending(s)
    ensures Descending(InsertDescending(x, s))
    ensures multiset(InsertDescending(x, s)) == multiset(s) + multiset{x}
    decreases |s|
  {
    InsertCounts(x, s);
    if s == [] || x >= s[0] {
      ConsDescending(x, s);
    } else {
      var rest := InsertDescending(x, s[1..]);
      InsertKeepsOrder(x, s[1..]);
      InsertBound(x, s[1..]);
      ConsDescending(s[0], rest);
    }
  }

  /** A descending list stays descending under a head no smaller than any element. */
  lemma ConsDescending(h: int, rest: seq<int>)
    requires Descending(rest) && forall k :: 0 <= k < |rest| ==> h >= rest[k]
    ensures Descending([h] + rest)
  {
    var r := [h] + rest;
    forall i, j | 0 <= i < j < |r|
      ensures r[i] >= r[j]
    {
      assert r[j] == rest[j - 1];
      if i > 0 {
        assert r[i] == rest[i - 1];
      }
    }
  }

  /** `sortedDescending()`: the same elements, largest first. */
  function SortDescending(s: seq<int>): (r: seq<int>)
    ensures Descending(r) && multiset(r) == multiset(s)
  {
    if s == [] then []
    else
      assert s == [s[0]] + s[1..];
      var sorted := SortDescending(s[1..]);
      InsertKeepsOrder(s[0], sorted);
      InsertDescending(s[0], sorted)
  }

  function Values(items: seq<NumberItem>): (r: seq<int>)
    ensures |r| == |items| && forall i :: 0 <= i < |items| ==> r[i] == items[i].value
  {
    if items == [] then [] else [items[0].value] + Values(items[1..])
  }

  /** `numberItems.filter { it.value != value }`. */
  function WithoutValue(items: seq<NumberItem>, value: int): (r: seq<NumberItem>)
    ensures |r| <= |items|
    ensures forall i :: 0 <= i < |r| ==> r[i].value != value
  {
    if items == [] then []
    else
      var rest := WithoutValue(items[1..], value);
      if items[0].value == value then rest else [items[0]] + rest
  }

  /** The filter drops every occurrence of `value` and keeps every other value as
      often as it was shown. */
  lemma {:induction false} WithoutValueCounts(items: seq<NumberItem>, value: int)
    ensures multiset(Values(WithoutValue(items, value))) == multiset(Values(items))[value := 0]
    decreases |items|
  {
    if items != [] {
      assert Values(items) == [items[0].value] + Values(items[1..]);
      var rest := WithoutValue(items[1..], value);
      WithoutValueCounts(items[1..], value);
      if items[0].value != value {
        assert Values([items[0]] + rest) == [items[0].value] + Values(rest);
      }
    }
  }

  /** `onNumberClicked(value)` on a puzzle: `Some` of the new puzzle, or `None`
      when the tap is wrong and a new puzzle is dealt. */
  function Tap(p: Puzzle, value: int): Option<Puzzle> {
    if p.isDismissed || !(0 <= p.nextIndex < |p.sortedTarget|) then Some(p)
    else if value == p.sortedTarget[p.nextIndex] then
      var next := p.nextIndex + 1;
      if next >= |p.sortedTarget| then Some(p.(nextIndex := next, isDismissed := true))
      else Some(p.(nextIndex := next, numberItems := WithoutValue(p.numberItems, value)))
    else None
  }

  /** The three outcomes of a tap, spelled out: ignored, right, wrong. */
  lemma TapOutcome(p: Puzzle, value: int)
    ensures p.isDismissed || !(0 <= p.nextIndex < |p.sortedTarget|) ==> Tap(p, value) == Some(p)
    ensures !p.isDismissed && 0 <= p.nextIndex < |p.sortedTarget| && value == p.sortedTarget[p.nextIndex] ==>
      Tap(p, value) == Some(
        if p.nextIndex + 1 >= |p.sortedTarget| then p.(nextIndex := p.nextIndex + 1, isDismissed := true)
        else p.(nextIndex := p.nextIndex + 1, numberItems := WithoutValue(p.numberItems, value)))
    ensures !p.isDismissed && 0 <= p.nextIndex < |p.sortedTarget| && value != p.sortedTarget[p.nextIndex] ==>
      Tap(p, value) == None
  {
  }

  /** Five distinct targets in 1..99, largest first. */
  predicate WellDealt(st: seq<int>) {
    |st| == PUZZLE_COUNT && NoDuplicates(st) && Descending(st) &&
    (forall i :: 0 <= i < |st| ==> NUMBER_MIN <= st[i] <= NUMBER_MAX)
  }

  /** A puzzle as the view model keeps it: five distinct targets in 1..99, largest
      first, and, until dismissed, the shown values are the targets not yet tapped. */
  predicate Consistent(p: Puzzle) {
    WellDealt(p.sortedTarget) &&
    (!p.isDismissed ==>
      0 <= p.nextIndex < |p.sortedTarget| &&
      multiset(Values(p.numberItems)) == multiset(p.sortedTarget[p.nextIndex..]))
  }

  /** A right tap on a consistent puzzle advances by one and removes exactly the
      tapped value; it dismisses exactly when no target is left. */
  lemma RightTap(p: Puzzle)
    requires Consistent(p) && !p.isDismissed
    ensures var r := Tap(p, p.sortedTarget[p.nextIndex]);
      r.Some? && Consistent(r.value) && r.value.nextIndex == p.nextIndex + 1 &&
      r.value.sortedTarget == p.sortedTarget &&
      (r.value.isDismissed <==> p.nextIndex + 1 == PUZZLE_COUNT) &&
      (!r.value.isDismissed ==>
        multiset(Values(r.value.numberItems)) ==
        multiset(Values(p.numberItems)) - multiset{p.sortedTarget[p.nextIndex]})
  {
    var n := p.nextIndex;
    var v := p.sortedTarget[n];
    var st := p.sortedTarget;
    if n + 1 < PUZZLE_COUNT {
      var items := WithoutValue(p.numberItems, v);
      ShownAfterRightTap(p.numberItems, st, n);
      var r := p.(nextIndex := n + 1, numberItems := items);
      assert Tap(p, v) == Some(r);
      assert r.sortedTarget[r.nextIndex..] == st[n + 1..];
    } else {
      assert Tap(p, v) == Some(p.(nextIndex := n + 1, isDismissed := true));
    }
  }

  /** Filtering out the next target leaves exactly the targets after it. */
  lemma ShownAfterRightTap(items: seq<NumberItem>, st: seq<int>, n: int)
    requires NoDuplicates(st) && 0 <= n < |st|
    requires multiset(Values(items)) == multiset(st[n..])
    ensures multiset(Values(WithoutValue(items, st[n]))) == multiset(st[n + 1..])
    ensures multiset(Values(WithoutValue(items, st[n]))) == multiset(Values(items)) - multiset{st[n]}
  {
    var v := st[n];
    var tail := st[n + 1..];
    assert st[n..] == [v] + tail;
    assert forall k :: 0 <= k < |tail| ==> tail[k] != v;
    WithoutValueCounts(items, v);
    Drop(multiset(Values(items)), v, tail);
  }

  /** Taking one occurrence of `v` out of a multiset where it occurs once. */
  lemma Drop(m: multiset<int>, v: int, tail: seq<int>)
    requires m == multiset{v} + multiset(tail) && v !in tail
    ensures m[v := 0] == multiset(tail) && m - multiset{v} == multiset(tail)
  {
    assert v !in multiset(tail);
  }

  /** `taps` applied in turn, while every one of them is right. */
  function TapAll(p: Puzzle, taps: seq<int>): Option<Puzzle>
    decreases |taps|
  {
    if taps == [] then Some(p)
    else
      var r := Tap(p, taps[0]);
      if r.None? then None else TapAll(r.value, taps[1..])
  }

  lemma TapAllStep(p: Puzzle, taps: seq<int>)
    requires taps != [] && Tap(p, taps[0]).Some?
    ensures TapAll(p, taps) == TapAll(Tap(p, taps[0]).value, taps[1..])
  {
  }

  /** Every tap, right, wrong or ignored, keeps a puzzle consistent. */
  lemma TapKeepsConsistent(p: Puzzle, value: int)
    requires Consistent(p)
    ensures Tap(p, value).Some? ==> Consistent(Tap(p, value).value)
  {
    if !p.isDismissed && value == p.sortedTarget[p.nextIndex] {
      RightTap(p);
    }
  }

  /** A run of taps that never deals anew keeps a puzzle consistent. */
  lemma {:induction false} TapAllKeepsConsistent(p: Puzzle, taps: seq<int>)
    requires Consistent(p)
    ensures TapAll(p, taps).Some? ==> Consistent(TapAll(p, taps).value)
    decreases |taps|
  {
    if taps != [] {
      TapKeepsConsistent(p, taps[0]);
      if Tap(p, taps[0]).Some? {
        TapAllKeepsConsistent(Tap(p, taps[0]).value, taps[1..]);
      }
    }
  }

  /** Tapping the remaining targets in order: each of the first taps advances by
      one without dismissing, and the tap on the fifth target dismisses. */
  lemma {:induction false} TapTargetsInOrder(p: Puzzle, taps: seq<int>)
    requires |p.sortedTarget| == PUZZLE_COUNT && 0 <= p.nextIndex < PUZZLE_COUNT && !p.isDismissed
    requires p.nextIndex + |taps| <= PUZZLE_COUNT
    requires forall i :: 0 <= i < |taps| ==> taps[i] == p.sortedTarget[p.nextIndex + i]
    ensures var r := TapAll(p, taps);
      r.Some? && r.value.nextIndex == p.nextIndex + |taps| && r.value.sortedTarget == p.sortedTarget &&
      (r.value.isDismissed <==> p.nextIndex + |taps| == PUZZLE_COUNT)
    decreases |taps|
  {
    if taps != [] {
      TapOutcome(p, taps[0]);
      var q := Tap(p, taps[0]).value;
      assert q.nextIndex == p.nextIndex + 1 && q.sortedTarget == p.sortedTarget;
      assert q.isDismissed <==> p.nextIndex + 1 == PUZZLE_COUNT;
      TapAllStep(p, taps);
      var more := taps[1..];
      if more != [] {
        assert forall i :: 0 <= i < |more| ==> more[i] == taps[i + 1];
        TapTargetsInOrder(q, more);
      }
    }
  }

  /** Tapping all five targets, largest first, dismisses a freshly dealt puzzle. */
  lemma SolvingDismisses(p: Puzzle, shuffled: seq<int>)
    requires |shuffled| >= PUZZLE_COUNT && FreshlyDealt(p, shuffled)
    ensures TapAll(p, p.sortedTarget).Some? && TapAll(p, p.sortedTarget).value.isDismissed
    ensures forall k :: 0 <= k < PUZZLE_COUNT ==>
      var r := TapAll(p, p.sortedTarget[..k]); r.Some? && !r.value.isDismissed && Consistent(r.value)
  {
    TapTargetsInOrder(p, p.sortedTarget);
    forall k | 0 <= k < PUZZLE_COUNT
      ensures var r := TapAll(p, p.sortedTarget[..k]); r.Some? && !r.value.isDismissed && Consistent(r.value)
    {
      TapTargetsInOrder(p, p.sortedTarget[..k]);
      TapAllKeepsConsistent(p, p.sortedTarget[..k]);
    }
  }

  /** Once dismissed, every tap leaves the puzzle as it is. */
  lemma TapAfterDismissal(p: Puzzle, taps: seq<int>)
    requires p.isDismissed
    ensures TapAll(p, taps) == Some(p)
  {
  }

  /** In a list without duplicates, a value occurs at most once. */
  lemma {:induction false} AtMostOnce(s: seq<int>, x: int)
    requires NoDuplicates(s)
    ensures multiset(s)[x] <= 1
    decreases |s|
  {
    if s != [] {
      assert s == [s[0]] + s[1..];
      AtMostOnce(s[1..], x);
      if s[0] == x {
        assert forall k :: 0 <= k < |s[1..]| ==> s[1..][k] != x;
      }
    }
  }

  /** Sorting five distinct numbers from 1..99 gives five distinct numbers from 1..99. */
  lemma DistinctTargets(numbers: seq<int>, sorted: seq<int>)
    requires NoDuplicates(numbers) && multiset(sorted) == multiset(numbers)
    requires forall i :: 0 <= i < |numbers| ==> NUMBER_MIN <= numbers[i] <= NUMBER_MAX
    ensures |sorted| == |numbers| && NoDuplicates(sorted)
    ensures forall i :: 0 <= i < |sorted| ==> NUMBER_MIN <= sorted[i] <= NUMBER_MAX
  {
    assert |sorted| == |multiset(sorted)| == |numbers|;
    forall i | 0 <= i < |sorted|
      ensures NUMBER_MIN <= sorted[i] <= NUMBER_MAX
    {
      assert sorted[i] in multiset(numbers);
    }
    forall i, j | 0 <= i < j < |sorted|
      ensures sorted[i] != sorted[j]
    {
      if sorted[i] == sorted[j] {
        var x := sorted[i];
        assert sorted == sorted[..j] + sorted[j..];
        assert x in sorted[..j] && x in sorted[j..];
        assert multiset(sorted)[x] >= 2;
        AtMostOnce(numbers, x);
      }
    }
  }

  /** How many draws one position took: at least one. */
  type Tries = n: nat | n >= 1 witness 1

  function Sum(s: seq<Tries>): nat {
    if s == [] then 0 else Sum(s[..|s| - 1]) + s[|s| - 1]
  }

  /** A puzzle just dealt from `shuffled`: consistent, nothing tapped yet, and the
      first five shuffled numbers shown in their shuffled order. */
  predicate FreshlyDealt(p: Puzzle, shuffled: seq<int>)
    requires |shuffled| >= PUZZLE_COUNT
  {
    Consistent(p) && p.nextIndex == 0 && !p.isDismissed &&
    Values(p.numberItems) == shuffled[..PUZZLE_COUNT]
  }

  /** `numbers.mapIndexed { index, value -> NumberItem(value, positions[index]) }`. */
  function Placed(numbers: seq<int>, positions: seq<Position>): (r: seq<NumberItem>)
    requires |positions| == |numbers|
    ensures Values(r) == numbers
    ensures forall i :: 0 <= i < |r| ==> r[i].position == positions[i]
  {
    var r := seq(|numbers|, i requires 0 <= i < |numbers| => NumberItem(numbers[i], positions[i]));
    assert Values(r) == numbers;
    r
  }

  /** Dealing from a shuffle of 1..99 gives a puzzle ready to be tapped. */
  lemma DealtIsFresh(shuffled: seq<int>, positions: seq<Position>)
    requires IsShuffle(shuffled) && |positions| == PUZZLE_COUNT
    ensures var numbers := shuffled[..PUZZLE_COUNT];
      FreshlyDealt(Puzzle(SortDescending(numbers), 0, Placed(numbers, positions), false), shuffled)
  {
    var numbers := shuffled[..PUZZLE_COUNT];
    var sorted := SortDescending(numbers);
    DistinctTargets(numbers, sorted);
    assert sorted[0..] == sorted;
  }

  lemma SumAppend(s: seq<Tries>, x: Tries)
    ensures Sum(s + [x]) == Sum(s) + x
  {
    assert (s + [x])[..|s|] == s;
  }

  /** The positions kept when the k-th position took `attempts[k]` draws from the
      stream `draw`: each kept position is the last of its draws. */
  function Kept(draw: nat -> Position, attempts: seq<Tries>): (r: seq<Position>)
    ensures |r| == |attempts|
  {
    if attempts == [] then []
    else Kept(draw, attempts[..|attempts| - 1]) + [draw(Sum(attempts) - 1)]
  }

  /** One more kept position: the last of the `t` draws after the earlier ones. */
  lemma KeptAppend(draw: nat -> Position, attempts: seq<Tries>, t: Tries)
    ensures Kept(draw, attempts + [t]) == Kept(draw, attempts) + [draw(Sum(attempts) + t - 1)]
  {
    var a := attempts + [t];
    assert a[..|a| - 1] == attempts;
    SumAppend(attempts, t);
  }

  /** The k-th kept position is draw number `attempts[0] + ... + attempts[k] - 1`. */
  lemma {:induction false} KeptAt(draw: nat -> Position, attempts: seq<Tries>, k: nat)
    requires k < |attempts|
    ensures Sum(attempts[..k + 1]) >= 1
    ensures Kept(draw, attempts)[k] == draw(Sum(attempts[..k + 1]) - 1)
    decreases |attempts|
  {
    var init := attempts[..|attempts| - 1];
    SumAppend(init, attempts[|attempts| - 1]);
    assert init + [attempts[|attempts| - 1]] == attempts;
    if k == |attempts| - 1 {
      assert attempts[..k + 1] == attempts;
    } else {
      KeptAt(draw, init, k);
      assert init[..k + 1] == attempts[..k + 1];
    }
  }

  /** Every position that was accepted before the attempts ran out keeps clear
      of all the positions placed before it. */
  predicate KeptClear(tooClose: (Position, Position) -> bool, result: seq<Position>, attempts: seq<Tries>)
    requires |attempts| == |result|
  {
    forall k :: 0 <= k < |result| && attempts[k] < MAX_POSITION_ATTEMPTS ==>
      !AnyTooClose(tooClose, result[k], result[..k])
  }

  lemma KeptClearAppend(tooClose: (Position, Position) -> bool, placed: seq<Position>,
                        attempts: seq<Tries>, pos: Position, tries: Tries)
    requires |attempts| == |placed| && KeptClear(tooClose, placed, attempts)
    requires tries < MAX_POSITION_ATTEMPTS ==> !AnyTooClose(tooClose, pos, placed)
    ensures KeptClear(tooClose, placed + [pos], attempts + [tries])
  {
    var r := placed + [pos];
    forall j | 0 <= j < |r| && (attempts + [tries])[j] < MAX_POSITION_ATTEMPTS
      ensures !AnyTooClose(tooClose, r[j], r[..j])
    {
      if j < |placed| {
        assert r[..j] == placed[..j];
      } else {
        assert r[..j] == placed;
      }
    }
  }

  /** Some accepted position lies too close to `pos`. */
  predicate AnyTooClose(tooClose: (Position, Position) -> bool, pos: Position, placed: seq<Position>) {
    exists j :: 0 <= j < |placed| && tooClose(pos, placed[j])
  }

  class DismissViewModel {
    var sortedTarget: seq<int>
    var nextIndex: int
    var numberItems: seq<NumberItem>
    var isDismissed: bool
    var isPuzzleEnabled: bool
    /** Whether two positions are closer than `MIN_FRACTION_DISTANCE`. */
    const tooClose: (Position, Position) -> bool

    function State(): Puzzle
      reads this
    {
      Puzzle(sortedTarget, nextIndex, numberItems, isDismissed)
    }

    /** `init`: the puzzle flag is read from the alarm (false when it is missing),
        and a first puzzle is dealt. */
    constructor (alarms: map<int, Alarm>, alarmId: int, tooClose: (Position, Position) -> bool,
                 shuffled: seq<int>, draw: nat -> Position)
      requires IsShuffle(shuffled)
      ensures this.tooClose == tooClose
      ensures isPuzzleEnabled <==> alarmId in alarms && alarms[alarmId].isPuzzleEnabled
      ensures FreshlyDealt(State(), shuffled)
    {
      this.tooClose := tooClose;
      isPuzzleEnabled := alarmId in alarms && alarms[alarmId].isPuzzleEnabled;
      new;
      GeneratePuzzle(shuffled, draw);
    }

    /** `dismiss()`: sets the flag and nothing else, so calling it again changes nothing. */
    method Dismiss()
      modifies this
      ensures State() == old(State()).(isDismissed := true)
      ensures isPuzzleEnabled == old(isPuzzleEnabled)
    {
      isDismissed := true;
    }

    /** `onNumberClicked(value)`: a right tap advances as `Tap` says; a wrong one
        deals a new puzzle from `shuffled` and `draw`. */
    method OnNumberClicked(value: int, shuffled: seq<int>, draw: nat -> Position)
      requires IsShuffle(shuffled)
      modifies this
      ensures isPuzzleEnabled == old(isPuzzleEnabled)
      ensures Tap(old(State()), value).Some? ==> State() == Tap(old(State()), value).value
      ensures Tap(old(State()), value).None? ==> FreshlyDealt(State(), shuffled)
    {
      ghost var p := State();
      ghost var tapped := Tap(p, value);
      // Already dismissed, or no target left to expect: the tap is ignored.
      if !isDismissed && 0 <= nextIndex < |sortedTarget| {
        var expected := sortedTarget[nextIndex];
        if value == expected {
          nextIndex := nextIndex + 1;
          var remaining := WithoutValue(numberItems, value);
          if nextIndex >= |sortedTarget| {
            isDismissed := true;
            TapOutcome(p, value);
          } else {
            numberItems := remaining;
            TapOutcome(p, value);
          }
        } else {
          TapOutcome(p, value);
          GeneratePuzzle(shuffled, draw);
        }
      } else {
        TapOutcome(p, value);
      }
    }

    /** `generatePuzzle`: the first five shuffled numbers, shown in that order and
        to be tapped largest first. */
    method GeneratePuzzle(shuffled: seq<int>, draw: nat -> Position)
      requires IsShuffle(shuffled)
      modifies this
      ensures FreshlyDealt(State(), shuffled)
      ensures multiset(sortedTarget) == multiset(shuffled[..PUZZLE_COUNT])
      ensures isPuzzleEnabled == old(isPuzzleEnabled)
    {
      var numbers := shuffled[..PUZZLE_COUNT];
      sortedTarget := SortDescending(numbers);
      nextIndex := 0;
      var positions, attempts := GenerateNonOverlappingPositions(PUZZLE_COUNT, draw);
      numberItems := Placed(numbers, positions);
      isDismissed := false;
      DealtIsFresh(shuffled, positions);
    }

    /** `generateNonOverlappingPositions(count)`: for each position, draw until it
        keeps clear of those already placed or `MAX_POSITION_ATTEMPTS` draws are used. */
    method GenerateNonOverlappingPositions(count: nat, draw: nat -> Position)
      returns (result: seq<Position>, attempts: seq<Tries>)
      ensures |result| == count && |attempts| == count
      ensures forall k :: 0 <= k < count ==> attempts[k] <= MAX_POSITION_ATTEMPTS
      ensures KeptClear(tooClose, result, attempts)
      ensures result == Kept(draw, attempts)
    {
      result := [];
      attempts := [];
      var drawn: nat := 0;
      while |result| < count
        invariant |result| == |attempts| <= count
        invariant drawn == Sum(attempts)
        invariant forall k :: 0 <= k < |result| ==> attempts[k] <= MAX_POSITION_ATTEMPTS
        invariant KeptClear(tooClose, result, attempts)
        invariant result == Kept(draw, attempts)
      {
        var pos := draw(drawn);
        drawn := drawn + 1;
        var tries: Tries := 1;
        while tries < MAX_POSITION_ATTEMPTS && AnyTooClose(tooClose, pos, result)
          invariant 1 <= tries <= MAX_POSITION_ATTEMPTS
          invariant drawn == Sum(attempts) + tries && pos == draw(drawn - 1)
          decreases MAX_POSITION_ATTEMPTS - tries
        {
          pos := draw(drawn);
          drawn := drawn + 1;
          tries := tries + 1;
        }
        ghost var placed := result;
        ghost var before := attempts;
        KeptClearAppend(tooClose, placed, before, pos, tries);
        result := result + [pos];
        attempts := attempts + [tries];
        KeptAppend(draw, before, tries);
        SumAppend(before, tries);
      }
    }
  }
}
