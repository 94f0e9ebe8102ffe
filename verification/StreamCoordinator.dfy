/** Sequence numbers of a conversation's event stream: 64-bit, derived from
    the message's stream id when it has one, and never repeated. */
module StreamCoordinator {
  import opened Text
  import opened Wrappers

  const MAX_UINT64: nat := 0xFFFF_FFFF_FFFF_FFFF
  const STREAM_SCALE: nat := 1_000_000

  function Wrap(n: nat): (r: nat)
    ensures r <= MAX_UINT64
  {
    n % (MAX_UINT64 + 1)
  }

  // ----- Stream ids -----

  /** strconv.ParseUint(s, 10, 64). */
  function ParseUint(s: string): Option<nat> {
    if Decimal(s) && Magnitude(s) <= MAX_UINT64 then Some(Magnitude(s)) else None
  }

  /** strings.Split(s, "-"). */
  function SplitDash(s: string): (parts: seq<string>)
    ensures |parts| > 0
  {
    if s == "" then [""]
    else
      var rest := SplitDash(s[1..]);
      if s[0] == '-' then [""] + rest else [[s[0]] + rest[0]] + rest[1..]
  }

  datatype StreamPos = StreamPos(ms: nat, counter: nat) {
    /** The derived number, as Go's uint64 arithmetic computes it. */
    function Derived(): nat {
      Wrap(ms * STREAM_SCALE + counter)
    }

    /** The order in which a stream hands out ids. */
    predicate Before(other: StreamPos) {
      ms < other.ms || (ms == other.ms && counter < other.counter)
    }

    /** The counter stays below the scale and nothing overflows. */
    predicate Fits() {
      counter < STREAM_SCALE && ms * STREAM_SCALE + counter <= MAX_UINT64
    }
  }

  function ParseStreamID(id: string): Option<StreamPos> {
    var parts := SplitDash(id);
    if |parts| != 2 then None
    else if ParseUint(parts[0]).None? || ParseUint(parts[1]).None? then None
    else Some(StreamPos(ParseUint(parts[0]).value, ParseUint(parts[1]).value))
  }

  /** deriveSeqFromStreamID; the empty id derives nothing either. */
  function DeriveSeq(id: string): Option<nat> {
    var pos := ParseStreamID(id);
    if pos.None? then None else Some(pos.value.Derived())
  }

  lemma {:induction false} SplitWithoutDash(s: string)
    requires '-' !in s
    ensures SplitDash(s) == [s]
  {
    if s != "" {
      SplitWithoutDash(s[1..]);
      assert s == [s[0]] + s[1..];
    }
  }

  lemma {:induction false} SplitAtDash(a: string, b: string)
    requires '-' !in a && '-' !in b
    ensures SplitDash(a + "-" + b) == [a, b]
  {
    var s := a + "-" + b;
    if a == "" {
      assert s[1..] == b;
      SplitWithoutDash(b);
    } else {
      assert s[1..] == a[1..] + "-" + b;
      SplitAtDash(a[1..], b);
      assert a == [a[0]] + a[1..];
    }
  }

  /** An id written as two decimal numbers reads back as those numbers. */
  lemma StreamIDRoundTrip(ms: nat, counter: nat)
    requires ms <= MAX_UINT64 && counter <= MAX_UINT64
    ensures ParseStreamID(Digits(ms) + "-" + Digits(counter)) == Some(StreamPos(ms, counter))
  {
    MagnitudeOfDigits(ms);
    MagnitudeOfDigits(counter);
    SplitAtDash(Digits(ms), Digits(counter));
  }

  lemma {:induction false} SplitJoins(s: string)
    ensures |SplitDash(s)| == 1 ==> SplitDash(s)[0] == s
    ensures |SplitDash(s)| == 2 ==> s == SplitDash(s)[0] + "-" + SplitDash(s)[1]
  {
    if s != "" {
      SplitJoins(s[1..]);
      assert s == [s[0]] + s[1..];
    }
  }

  /** The id is two decimal numbers of 64 bits with a dash between them. */
  ghost predicate Written(id: string, first: string, second: string) {
    && id == first + "-" + second && Decimal(first) && Decimal(second)
    && Magnitude(first) <= 18446744073709551615 && Magnitude(second) <= 18446744073709551615
  }

  /** An id derives a number exactly when it is written like this. */
  lemma DerivesExactly(id: string)
    ensures DeriveSeq(id).Some? <==> exists first, second :: Written(id, first, second)
  {
    if DeriveSeq(id).Some? {
      SplitJoins(id);
      assert Written(id, SplitDash(id)[0], SplitDash(id)[1]);
    }
    if first, second :| Written(id, first, second) {
      DerivedNumber(id, first, second);
    }
  }

  /** It is a million times the first part plus the second, as far as 64 bits
      hold it. */
  lemma DerivedNumber(id: string, first: string, second: string)
    requires Written(id, first, second)
    ensures DeriveSeq(id) == Some((Magnitude(first) * 1_000_000 + Magnitude(second)) % 18446744073709551616)
  {
    SplitAtDash(first, second);
    assert SplitDash(id)[0] == first && SplitDash(id)[1] == second;
    assert ParseStreamID(id) == Some(StreamPos(Magnitude(first), Magnitude(second)));
  }

  // ----- Assigning one number -----

  /** The number that follows current for a message with this derived value. */
  function Successor(current: nat, derived: Option<nat>): nat {
    if derived.Some? && derived.value > current then derived.value else Wrap(current + 1)
  }

  /** Below the last 64-bit number the successor is the larger of the derived
      value and the next number, and it increases; there and only there it
      wraps. */
  lemma SuccessorIncreases(current: nat, derived: Option<nat>)
    requires current <= MAX_UINT64 && (derived.Some? ==> derived.value <= MAX_UINT64)
    ensures Successor(current, derived) <= MAX_UINT64
    ensures Successor(current, derived) > current <==> current < MAX_UINT64
    ensures current < MAX_UINT64 ==>
              var d := if derived.Some? then derived.value else 0;
              Successor(current, derived) == if d > current + 1 then d else current + 1
  {
  }

  /** The coordinator's counter. Other goroutines may write it between a load
      and the compare-and-swap that follows; rivals lists what they write. */
  class Coordinator {
    var seqNo: nat

    constructor ()
      ensures seqNo == 0
    {
      seqNo := 0;
    }

    method CompareAndSwap(current: nat, next: nat) returns (swapped: bool)
      modifies this
      ensures swapped <==> old(seqNo) == current
      ensures seqNo == if swapped then next else old(seqNo)
    {
      swapped := seqNo == current;
      if swapped {
        seqNo := next;
      }
    }

    /** Whatever the rivals do, the number returned is the successor of the
        value it replaced, and is the value left behind. */
    method NextSeq(streamID: string, rivals: seq<nat>) returns (next: nat, ghost replaced: nat)
      modifies this
      ensures next == seqNo == Successor(replaced, DeriveSeq(streamID))
      ensures replaced == old(seqNo) || replaced in rivals
      ensures rivals == [] ==> replaced == old(seqNo)
    {
      var derived := if streamID != "" then DeriveSeq(streamID) else None;
      assert streamID == "" ==> DeriveSeq(streamID).None? by {
        assert SplitDash("") == [""];
      }
      var turn := 0;
      while true
        invariant 0 <= turn <= |rivals|
        invariant seqNo == old(seqNo) || seqNo in rivals
        invariant turn == 0 ==> seqNo == old(seqNo)
        decreases |rivals| - turn
      {
        var current := seqNo;
        if derived.Some? {
          next := derived.value;
          if next <= current {
            next := Wrap(current + 1);
          }
        } else {
          next := Wrap(current + 1);
        }
        if turn < |rivals| {
          seqNo := rivals[turn];
          turn := turn + 1;
          var lucky := CompareAndSwap(current, next);
          if lucky {
            replaced := current;
            return;
          }
        } else {
          var _ := CompareAndSwap(current, next);
          replaced := current;
          return;
        }
      }
    }
  }

  // ----- A sequential run -----

  function Assign(current: nat, ids: seq<string>): (numbers: seq<nat>)
    ensures |numbers| == |ids|
    decreases |ids|
  {
    if ids == [] then []
    else
      var next := Successor(current, DeriveSeq(ids[0]));
      [next] + Assign(next, ids[1..])
  }

  predicate Increasing(current: nat, numbers: seq<nat>)
    decreases |numbers|
  {
    numbers == [] || (current < numbers[0] && Increasing(numbers[0], numbers[1..]))
  }

  lemma {:induction false} IncreasingPairwise(current: nat, numbers: seq<nat>, i: nat, j: nat)
    requires Increasing(current, numbers) && i < j < |numbers|
    ensures current < numbers[i] < numbers[j]
    decreases |numbers|
  {
    if i > 0 {
      IncreasingPairwise(numbers[0], numbers[1..], i - 1, j - 1);
    } else if j > 1 {
      IncreasingPairwise(numbers[0], numbers[1..], 0, j - 1);
    }
  }

  function Last(current: nat, numbers: seq<nat>): nat {
    if numbers == [] then current else numbers[|numbers| - 1]
  }

  /** Numbers strictly increase over any mix of messages exactly when none of
      them follows the last 64-bit number. */
  lemma {:induction false} AssignIncreases(current: nat, ids: seq<string>)
    requires current <= MAX_UINT64
    ensures Increasing(current, Assign(current, ids)) <==>
              ids == [] || (current < MAX_UINT64 && MAX_UINT64 !in Assign(current, ids)[..|ids| - 1])
    decreases |ids|
  {
    if ids != [] {
      var next := Successor(current, DeriveSeq(ids[0]));
      SuccessorIncreases(current, DeriveSeq(ids[0]));
      AssignIncreases(next, ids[1..]);
      var numbers, rest := Assign(current, ids), Assign(next, ids[1..]);
      assert numbers[1..] == rest;
      if |ids| > 1 {
        assert numbers[..|ids| - 1] == [next] + rest[..|rest| - 1];
      }
    }
  }

  /** Each id parses, fits, and comes after the one before it. */
  ghost predicate StreamOrder(ids: seq<string>) {
    && (forall i | 0 <= i < |ids| :: ParseStreamID(ids[i]).Some?)
    && (forall i | 0 <= i < |ids| :: ParseStreamID(ids[i]).value.Fits())
    && (forall i | 0 < i < |ids| :: ParseStreamID(ids[i - 1]).value.Before(ParseStreamID(ids[i]).value))
  }

  lemma DerivedIncreases(a: StreamPos, b: StreamPos)
    requires a.Fits() && b.Fits()
    ensures a.Before(b) <==> a.Derived() < b.Derived()
  {
    assert a.Derived() == a.ms * STREAM_SCALE + a.counter;
    assert b.Derived() == b.ms * STREAM_SCALE + b.counter;
    if a.ms < b.ms {
      assert a.ms * STREAM_SCALE + STREAM_SCALE <= b.ms * STREAM_SCALE;
    } else if a.ms > b.ms {
      assert b.ms * STREAM_SCALE + STREAM_SCALE <= a.ms * STREAM_SCALE;
    }
  }

  /** Every message gets its derived number. */
  ghost predicate AllDerived(current: nat, ids: seq<string>) {
    forall i | 0 <= i < |ids| :: Some(Assign(current, ids)[i]) == DeriveSeq(ids[i])
  }

  function ValueOf(id: string): nat {
    if DeriveSeq(id).Some? then DeriveSeq(id).value else 0
  }

  /** A derived number that is larger than the one before, or 0 after the last
      64-bit number. */
  predicate Follows(previous: nat, derived: nat) {
    derived > previous || derived == Wrap(previous + 1)
  }

  ghost predicate FollowsAt(current: nat, ids: seq<string>, i: nat)
    requires i < |ids|
  {
    DeriveSeq(ids[i]).Some? && Follows(if i == 0 then current else ValueOf(ids[i - 1]), ValueOf(ids[i]))
  }

  /** Every id derives a number, and each number follows the one before. */
  ghost predicate Reproducible(current: nat, ids: seq<string>) {
    forall i | 0 <= i < |ids| :: FollowsAt(current, ids, i)
  }

  lemma AllDerivedCons(current: nat, ids: seq<string>)
    requires ids != []
    ensures var next := Successor(current, DeriveSeq(ids[0]));
      AllDerived(current, ids) <==> Some(next) == DeriveSeq(ids[0]) && AllDerived(next, ids[1..])
  {
    var next, rest := Successor(current, DeriveSeq(ids[0])), ids[1..];
    assert Assign(current, ids) == [next] + Assign(next, rest);
    if Some(next) == DeriveSeq(ids[0]) && AllDerived(next, rest) {
      forall i | 0 <= i < |ids| ensures Some(Assign(current, ids)[i]) == DeriveSeq(ids[i]) {
        if i > 0 {
          assert Assign(current, ids)[i] == Assign(next, rest)[i - 1] && ids[i] == rest[i - 1];
        }
      }
    }
    if AllDerived(current, ids) {
      assert Some(Assign(current, ids)[0]) == DeriveSeq(ids[0]);
      forall i | 0 <= i < |rest| ensures Some(Assign(next, rest)[i]) == DeriveSeq(rest[i]) {
        assert Assign(current, ids)[i + 1] == Assign(next, rest)[i] && ids[i + 1] == rest[i];
      }
    }
  }

  lemma ReproducibleCons(current: nat, ids: seq<string>)
    requires ids != []
    ensures Reproducible(current, ids) <==> FollowsAt(current, ids, 0) && Reproducible(ValueOf(ids[0]), ids[1..])
  {
    var first, rest := ValueOf(ids[0]), ids[1..];
    if Reproducible(current, ids) {
      forall i | 0 <= i < |rest| ensures FollowsAt(first, rest, i) {
        assert FollowsAt(current, ids, i + 1);
      }
    }
    if FollowsAt(current, ids, 0) && Reproducible(first, rest) {
      forall i | 0 <= i < |ids| ensures FollowsAt(current, ids, i) {
        if i > 0 {
          assert FollowsAt(first, rest, i - 1);
        }
      }
    }
  }

  /** Replaying any messages gives each its derived number exactly when every
      id derives one and each of these follows the one before, the first of
      them the counter's value. */
  lemma {:induction false} ReplayExactly(current: nat, ids: seq<string>)
    requires current <= MAX_UINT64
    ensures AllDerived(current, ids) <==> Reproducible(current, ids)
    decreases |ids|
  {
    if ids != [] {
      var next := Successor(current, DeriveSeq(ids[0]));
      AllDerivedCons(current, ids);
      ReproducibleCons(current, ids);
      if Some(next) == DeriveSeq(ids[0]) {
        ReplayExactly(next, ids[1..]);
      }
    }
  }

  lemma FollowsInOrder(current: nat, ids: seq<string>, i: nat)
    requires StreamOrder(ids) && 0 < i < |ids|
    ensures FollowsAt(current, ids, i)
  {
    var a, b := ParseStreamID(ids[i - 1]).value, ParseStreamID(ids[i]).value;
    assert a.Before(b) && a.Fits() && b.Fits();
    DerivedIncreases(a, b);
    assert ValueOf(ids[i - 1]) == a.Derived() && ValueOf(ids[i]) == b.Derived();
  }

  /** For a stream in order whose ids fit, only the start matters: the counter
      must still be below the first derived number. */
  lemma ReplayIsDerived(current: nat, ids: seq<string>)
    requires current < MAX_UINT64 && StreamOrder(ids) && ids != []
    ensures AllDerived(current, ids) <==> current < ValueOf(ids[0])
  {
    ReplayExactly(current, ids);
    forall i | 0 < i < |ids| ensures FollowsAt(current, ids, i) {
      FollowsInOrder(current, ids, i);
    }
    assert FollowsAt(current, ids, 0) <==> current < ValueOf(ids[0]);
  }

  /** From a fresh coordinator that excludes only the first id 0-0. */
  lemma FreshReplay(ids: seq<string>)
    requires StreamOrder(ids) && ids != []
    ensures AllDerived(0, ids) <==> ParseStreamID(ids[0]) != Some(StreamPos(0, 0))
  {
    DerivedFromZero(ParseStreamID(ids[0]).value);
    ReplayIsDerived(0, ids);
  }

  /** A stream in order whose second part reaches the scale does not replay to
      its derived numbers. */
  lemma UnfitReplay() returns (ids: seq<string>)
    ensures |ids| == 2 && ParseStreamID(ids[0]).Some? && ParseStreamID(ids[1]).Some?
    ensures ParseStreamID(ids[0]).value.Before(ParseStreamID(ids[1]).value)
    ensures ParseStreamID(ids[0]) != Some(StreamPos(0, 0)) && !AllDerived(0, ids)
  {
    StreamIDRoundTrip(1, STREAM_SCALE);
    StreamIDRoundTrip(2, 0);
    ids := [Digits(1) + "-" + Digits(STREAM_SCALE), Digits(2) + "-" + Digits(0)];
    ReplayExactly(0, ids);
    assert !FollowsAt(0, ids, 1);
  }

  lemma DerivedFromZero(p: StreamPos)
    requires p.Fits()
    ensures p.Derived() == 0 <==> p == StreamPos(0, 0)
  {
    assert p.Derived() == p.ms * STREAM_SCALE + p.counter;
  }

  // ----- Concurrent callers -----

  /** A goroutine inside NextSeq, before its load or before its swap. */
  datatype Caller = Loading(id: string) | Swapping(id: string, current: nat)

  /** The shared counter, the callers, and the messages numbered so far in the
      order of their successful swaps. */
  datatype Shared = Shared(counter: nat, callers: seq<Caller>, served: seq<string>, numbers: seq<nat>)

  datatype Move = Arrive(id: string) | Load(caller: nat) | Swap(caller: nat)

  predicate Possible(s: Shared, m: Move) {
    match m
    case Arrive(_) => true
    case Load(i) => i < |s.callers| && s.callers[i].Loading?
    case Swap(i) => i < |s.callers| && s.callers[i].Swapping?
  }

  function Moved(s: Shared, m: Move): Shared
    requires Possible(s, m)
  {
    match m
    case Arrive(id) => s.(callers := s.callers + [Loading(id)])
    case Load(i) => s.(callers := s.callers[i := Swapping(s.callers[i].id, s.counter)])
    case Swap(i) =>
      var c := s.callers[i];
      if c.current != s.counter then
        s.(callers := s.callers[i := Loading(c.id)])
      else
        var next := Successor(c.current, DeriveSeq(c.id));
        s.(counter := next, callers := s.callers[..i] + s.callers[i + 1..],
           served := s.served + [c.id], numbers := s.numbers + [next])
  }

  ghost predicate Interleaving(states: seq<Shared>, moves: seq<Move>) {
    && |states| == |moves| + 1
    && (forall i | 0 <= i < |moves| :: MoveAt(states, moves, i))
  }

  ghost predicate MoveAt(states: seq<Shared>, moves: seq<Move>, i: nat)
    requires i < |moves| && |states| == |moves| + 1
  {
    Possible(states[i], moves[i]) && states[i + 1] == Moved(states[i], moves[i])
  }

  lemma {:induction false} AssignAppend(current: nat, ids: seq<string>, id: string)
    ensures Assign(current, ids + [id])
            == Assign(current, ids) + [Successor(Last(current, Assign(current, ids)), DeriveSeq(id))]
    decreases |ids|
  {
    if ids == [] {
      assert ids + [id] == [id];
    } else {
      var next := Successor(current, DeriveSeq(ids[0]));
      assert (ids + [id])[1..] == ids[1..] + [id];
      AssignAppend(next, ids[1..], id);
    }
  }

  /** Whatever the interleaving, the callers get the numbers that a single
      goroutine would have assigned in the order of their swaps. */
  lemma {:induction false} CallersLinearise(states: seq<Shared>, moves: seq<Move>, n: nat)
    requires Interleaving(states, moves) && n < |states|
    requires states[0].served == [] && states[0].numbers == []
    ensures states[n].numbers == Assign(states[0].counter, states[n].served)
    ensures states[n].counter == Last(states[0].counter, states[n].numbers)
  {
    if n > 0 {
      CallersLinearise(states, moves, n - 1);
      assert MoveAt(states, moves, n - 1);
      var s := states[n - 1];
      match moves[n - 1] {
        case Arrive(_) =>
        case Load(_) =>
        case Swap(i) =>
          AssignAppend(states[0].counter, s.served, s.callers[i].id);
      }
    }
  }

  /** Hence no two callers share a number and later swaps get larger ones,
      until the counter reaches the last 64-bit number. */
  lemma CallersIncrease(states: seq<Shared>, moves: seq<Move>, n: nat)
    requires Interleaving(states, moves) && n < |states|
    requires states[0].served == [] && states[0].numbers == [] && states[0].counter < MAX_UINT64
    requires MAX_UINT64 !in states[n].numbers
    ensures Increasing(states[0].counter, states[n].numbers)
  {
    CallersLinearise(states, moves, n);
    AssignIncreases(states[0].counter, states[n].served);
  }

  /** A caller that nobody disturbs between its load and its swap is served the
      successor of the counter; one that was disturbed loads again. */
  lemma UndisturbedServed(s: Shared, i: nat)
    requires Possible(s, Load(i))
    ensures var loaded := Moved(s, Load(i));
      && Possible(loaded, Swap(i))
      && var id, next := s.callers[i].id, Successor(s.counter, DeriveSeq(s.callers[i].id));
         && Moved(loaded, Swap(i)).counter == next
         && Moved(loaded, Swap(i)).served == s.served + [id] && Moved(loaded, Swap(i)).numbers == s.numbers + [next]
         && (forall other: nat | other != s.counter ::
               Moved(loaded.(counter := other), Swap(i)) == s.(counter := other))
  {
    var loaded := Moved(s, Load(i));
    forall other: nat | other != s.counter
      ensures Moved(loaded.(counter := other), Swap(i)) == s.(counter := other)
    {
      assert loaded.callers[i := s.callers[i]] == s.callers;
    }
  }

  function CallerIds(callers: seq<Caller>): seq<string> {
    seq(|callers|, i requires 0 <= i < |callers| => callers[i].id)
  }

  /** The messages whose callers have arrived in the first n moves. */
  function Arrived(moves: seq<Move>, n: nat): seq<string>
    requires n <= |moves|
  {
    if n == 0 then []
    else Arrived(moves, n - 1) + (if moves[n - 1].Arrive? then [moves[n - 1].id] else [])
  }

  lemma CallerLeaves(callers: seq<Caller>, i: nat)
    requires i < |callers|
    ensures multiset(CallerIds(callers)) == multiset(CallerIds(callers[..i] + callers[i + 1..])) + multiset{callers[i].id}
  {
    var ids := CallerIds(callers);
    assert ids == ids[..i] + [callers[i].id] + ids[i + 1..];
    assert CallerIds(callers[..i] + callers[i + 1..]) == ids[..i] + ids[i + 1..];
  }

  lemma MoveServes(s: Shared, m: Move)
    requires Possible(s, m)
    ensures var next := Moved(s, m);
      multiset(CallerIds(next.callers)) + multiset(next.served)
      == multiset(CallerIds(s.callers)) + multiset(s.served) + (if m.Arrive? then multiset{m.id} else multiset{})
  {
    match m
    case Arrive(id) =>
      assert CallerIds(s.callers + [Loading(id)]) == CallerIds(s.callers) + [id];
    case Load(i) =>
      assert CallerIds(Moved(s, m).callers) == CallerIds(s.callers);
    case Swap(i) =>
      if s.callers[i].current != s.counter {
        assert CallerIds(Moved(s, m).callers) == CallerIds(s.callers);
      } else {
        CallerLeaves(s.callers, i);
      }
  }

  /** Whatever the interleaving, every caller that arrived was served once or is
      still at it, and nothing else was served. */
  lemma {:induction false} ServedOnce(states: seq<Shared>, moves: seq<Move>, n: nat)
    requires Interleaving(states, moves) && n < |states|
    requires states[0].callers == [] && states[0].served == []
    ensures multiset(CallerIds(states[n].callers)) + multiset(states[n].served) == multiset(Arrived(moves, n))
  {
    if n == 0 {
      assert CallerIds(states[0].callers) == [];
    } else {
      ServedOnce(states, moves, n - 1);
      assert MoveAt(states, moves, n - 1);
      MoveServes(states[n - 1], moves[n - 1]);
    }
  }
}
