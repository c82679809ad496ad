// What the buffer of src/audio_input.cpp is, seen from outside: a list of samples that keeps the last ones.
module SampleStream {
  import opened Recent

  function Smaller(a: nat, b: nat): nat {
    if a < b then a else b
  }

  // ---------------------------------------------------------------------------------------------
  // One operation

  /** The contents after a push: the newest `capacity` samples, unless the lock was taken. */
  function Pushed<T>(capacity: nat, held: seq<T>, samples: seq<T>, contended: bool): seq<T> {
    if contended then held else LastN(held + samples, capacity)
  }

  /** How many samples a push counts as dropped: all of them if the lock was taken; those that it overwrites if
      it is shorter than the buffer; none otherwise, or if there is no buffer. */
  function Dropped(capacity: nat, held: nat, count: nat, contended: bool): nat {
    if capacity == 0 then 0
    else if contended then count
    else if count >= capacity || held + count <= capacity then 0
    else held + count - capacity
  }

  /** How many samples a push loses without counting them. */
  function LostByPush(capacity: nat, held: nat, count: nat, contended: bool): nat {
    if capacity == 0 then count
    else if !contended && count >= capacity then held + count - capacity
    else 0
  }

  // ---------------------------------------------------------------------------------------------
  // Runs

  datatype Event<T> = Push(samples: seq<T>, contended: bool) | Read(limit: nat) | Clear

  /** `offered`, `taken` and `lost` are history: samples pushed, read, and lost without being counted. */
  datatype Stream<T> = Stream(held: seq<T>, dropped: nat, offered: nat, taken: nat, lost: nat)

  function After<T>(capacity: nat, s: Stream<T>, e: Event<T>): Stream<T> {
    match e
    case Push(samples, contended) =>
      s.(held := Pushed(capacity, s.held, samples, contended),
         dropped := s.dropped + Dropped(capacity, |s.held|, |samples|, contended),
         offered := s.offered + |samples|,
         lost := s.lost + LostByPush(capacity, |s.held|, |samples|, contended))
    case Read(limit) =>
      var n := Smaller(limit, |s.held|);
      s.(held := s.held[n..], taken := s.taken + n)
    case Clear => s.(held := [], lost := s.lost + |s.held|)
  }

  function AfterAll<T>(capacity: nat, events: seq<Event<T>>): Stream<T> {
    if events == [] then Stream([], 0, 0, 0, 0)
    else After(capacity, AfterAll(capacity, events[..|events| - 1]), events[|events| - 1])
  }

  /** Every sample offered has been read, is held, was counted as dropped, or was lost uncounted. */
  lemma {:induction false} EverySampleAccounted<T>(capacity: nat, events: seq<Event<T>>)
    ensures var s := AfterAll(capacity, events);
      |s.held| <= capacity && s.offered == s.taken + |s.held| + s.dropped + s.lost
  {
    if events != [] { EverySampleAccounted(capacity, events[..|events| - 1]); }
  }

  /** The event loses nothing uncounted: a push shorter than the buffer, or one that just fills an empty buffer,
      or one that does nothing; a clear of an empty buffer. */
  predicate Lossless<T>(capacity: nat, held: nat, e: Event<T>) {
    match e
    case Push(samples, contended) =>
      if capacity == 0 then samples == []
      else contended || |samples| < capacity || (held == 0 && |samples| == capacity)
    case Read(_) => true
    case Clear => held == 0
  }

  ghost predicate AllLossless<T>(capacity: nat, events: seq<Event<T>>) {
    forall i :: 0 <= i < |events| ==> Lossless(capacity, |AfterAll(capacity, events[..i]).held|, events[i])
  }

  /** What the counters promise, offered = read + held + dropped, holds of a run exactly when every event was
      lossless. */
  lemma {:induction false} ConservedIffLossless<T>(capacity: nat, events: seq<Event<T>>)
    ensures var s := AfterAll(capacity, events);
      s.offered == s.taken + |s.held| + s.dropped <==> AllLossless(capacity, events)
  {
    EverySampleAccounted(capacity, events);
    LostIffNotLossless(capacity, events);
  }

  lemma LosesIffNotLossless<T>(capacity: nat, s: Stream<T>, e: Event<T>)
    requires |s.held| <= capacity
    ensures After(capacity, s, e).lost == s.lost <==> Lossless(capacity, |s.held|, e)
    ensures After(capacity, s, e).lost >= s.lost
  {
  }

  lemma AllLosslessSplit<T>(capacity: nat, events: seq<Event<T>>)
    requires events != []
    ensures var n := |events| - 1; AllLossless(capacity, events) <==>
      AllLossless(capacity, events[..n]) && Lossless(capacity, |AfterAll(capacity, events[..n]).held|, events[n])
  {
    var n := |events| - 1;
    var init := events[..n];
    forall i | 0 <= i < n
      ensures Lossless(capacity, |AfterAll(capacity, events[..i]).held|, events[i])
         <==> Lossless(capacity, |AfterAll(capacity, init[..i]).held|, init[i])
    {
      assert init[..i] == events[..i];
    }
  }

  lemma {:induction false} LostIffNotLossless<T>(capacity: nat, events: seq<Event<T>>)
    ensures AfterAll(capacity, events).lost == 0 <==> AllLossless(capacity, events)
  {
    if events != [] {
      var n := |events| - 1;
      LostIffNotLossless(capacity, events[..n]);
      EverySampleAccounted(capacity, events[..n]);
      AllLosslessSplit(capacity, events);
      LosesIffNotLossless(capacity, AfterAll(capacity, events[..n]), events[n]);
    }
  }

  /** The samples of the pushes that got the lock, in order. */
  function Accepted<T>(events: seq<Event<T>>): seq<T> {
    if events == [] then []
    else
      var e := events[|events| - 1];
      Accepted(events[..|events| - 1]) + if e.Push? && !e.contended then e.samples else []
  }

  ghost predicate IsSuffix<T>(s: seq<T>, whole: seq<T>) {
    |s| <= |whole| && s == whole[|whole| - |s|..]
  }

  lemma SuffixPush<T>(held: seq<T>, whole: seq<T>, samples: seq<T>, n: nat)
    requires IsSuffix(held, whole)
    ensures IsSuffix(LastN(held + samples, n), whole + samples)
  {
    var kept := LastN(held + samples, n);
    var all := whole + samples;
    assert held + samples == all[|all| - |held + samples|..];
  }

  /** Over any run the buffer holds a suffix of all that was ever accepted, or nothing. */
  lemma {:induction false} HeldIsSuffix<T>(capacity: nat, events: seq<Event<T>>)
    ensures IsSuffix(AfterAll(capacity, events).held, Accepted(events))
  {
    if events != [] {
      var init, e := events[..|events| - 1], events[|events| - 1];
      HeldIsSuffix(capacity, init);
      var held := AfterAll(capacity, init).held;
      if e.Push? && !e.contended {
        SuffixPush(held, Accepted(init), e.samples, capacity);
      } else {
        assert Accepted(init) + [] == Accepted(init);
      }
    }
  }

  // ---------------------------------------------------------------------------------------------
  // First in, first out

  /** The samples of all pushes, in order. */
  function Offered<T>(events: seq<Event<T>>): seq<T> {
    if events == [] then []
    else
      var e := events[|events| - 1];
      Offered(events[..|events| - 1]) + if e.Push? then e.samples else []
  }

  /** What the reads returned, one after the other. */
  function ReadOut<T>(capacity: nat, events: seq<Event<T>>): seq<T> {
    if events == [] then []
    else
      var init, e := events[..|events| - 1], events[|events| - 1];
      var held := AfterAll(capacity, init).held;
      ReadOut(capacity, init) + if e.Read? then held[..Smaller(e.limit, |held|)] else []
  }

  lemma {:induction false} HistoryCounts<T>(capacity: nat, events: seq<Event<T>>)
    ensures var s := AfterAll(capacity, events);
      |Offered(events)| == s.offered && |ReadOut(capacity, events)| == s.taken
  {
    if events != [] { HistoryCounts(capacity, events[..|events| - 1]); }
  }

  lemma NothingLost<T>(capacity: nat, held: seq<T>, samples: seq<T>, contended: bool)
    requires |held| <= capacity
    requires Dropped(capacity, |held|, |samples|, contended) == 0
    requires LostByPush(capacity, |held|, |samples|, contended) == 0
    ensures Pushed(capacity, held, samples, contended) == held + samples
  {
    if samples == [] { assert held + samples == held; }
  }

  lemma {:induction false} InOrder<T>(capacity: nat, events: seq<Event<T>>)
    ensures var s := AfterAll(capacity, events);
      s.dropped == 0 && s.lost == 0 ==> ReadOut(capacity, events) + s.held == Offered(events)
  {
    if events != [] {
      var init, e := events[..|events| - 1], events[|events| - 1];
      var s, after := AfterAll(capacity, init), AfterAll(capacity, events);
      InOrder(capacity, init);
      EverySampleAccounted(capacity, init);
      if after.dropped == 0 && after.lost == 0 && e.Push? {
        NothingLost(capacity, s.held, e.samples, e.contended);
        assert ReadOut(capacity, init) + (s.held + e.samples) == ReadOut(capacity, init) + s.held + e.samples;
      }
    }
  }

  /** First in, first out: what was read, followed by what is held, is all that was pushed, in order, exactly in
      the runs that count no drops and lose nothing uncounted. */
  lemma FirstInFirstOut<T>(capacity: nat, events: seq<Event<T>>)
    ensures var s := AfterAll(capacity, events);
      ReadOut(capacity, events) + s.held == Offered(events) <==> s.dropped == 0 && s.lost == 0
  {
    InOrder(capacity, events);
    HistoryCounts(capacity, events);
    EverySampleAccounted(capacity, events);
  }

  // ---------------------------------------------------------------------------------------------
  // Channels

  /** Whole frames, with sample i from channel i mod channels. */
  ghost predicate Interleaved<T>(s: seq<T>, channel: T -> nat, channels: nat)
    requires channels > 0
  {
    |s| % channels == 0 && forall i :: 0 <= i < |s| ==> channel(s[i]) == i % channels
  }

  lemma MultipleFar(m: nat, d: int)
    ensures d >= 1 ==> m * d >= m
    ensures d <= -1 ==> m * d + m <= 0
  {
    if d >= 1 {
      assert m * (d - 1) >= 0;
    } else if d <= -1 {
      assert m * (-1 - d) >= 0;
    }
  }

  lemma ModIs(x: nat, m: nat, q: int, r: nat)
    requires m > 0 && r < m && x == m * q + r
    ensures x % m == r
  {
    var d := x / m - q;
    assert m * d == r - x % m;
    MultipleFar(m, d);
  }

  lemma ModMultiple(i: nat, n: nat, m: nat)
    requires m > 0 && n % m == 0
    ensures (i + n) % m == i % m
  {
    assert i + n == m * (i / m) + i % m + m * (n / m) == m * (i / m + n / m) + i % m;
    ModIs(i + n, m, i / m + n / m, i % m);
  }

  lemma ModDifference(a: nat, b: nat, m: nat)
    requires m > 0 && b <= a && a % m == 0 && b % m == 0
    ensures (a - b) % m == 0
  {
    ModMultiple(a - b, b, m);
  }

  lemma InterleavedConcat<T>(s: seq<T>, t: seq<T>, channel: T -> nat, channels: nat)
    requires channels > 0 && Interleaved(s, channel, channels) && Interleaved(t, channel, channels)
    ensures Interleaved(s + t, channel, channels)
  {
    ModMultiple(|t|, |s|, channels);
    forall i | |s| <= i < |s + t| ensures channel((s + t)[i]) == i % channels {
      assert (s + t)[i] == t[i - |s|];
      ModMultiple(i - |s|, |s|, channels);
    }
  }

  lemma InterleavedTail<T>(s: seq<T>, n: nat, channel: T -> nat, channels: nat)
    requires channels > 0 && Interleaved(s, channel, channels) && n <= |s| && n % channels == 0
    ensures Interleaved(s[n..], channel, channels) && Interleaved(s[..n], channel, channels)
  {
    ModDifference(|s|, n, channels);
    forall i | 0 <= i < |s| - n ensures channel(s[n..][i]) == i % channels {
      assert s[n..][i] == s[i + n];
      ModMultiple(i, n, channels);
    }
  }

  lemma InterleavedPush<T>(capacity: nat, held: seq<T>, samples: seq<T>, contended: bool, channel: T -> nat,
                           channels: nat)
    requires channels > 0 && capacity % channels == 0
    requires Interleaved(held, channel, channels) && Interleaved(samples, channel, channels)
    ensures Interleaved(Pushed(capacity, held, samples, contended), channel, channels)
  {
    if !contended {
      InterleavedConcat(held, samples, channel, channels);
      if |held + samples| > capacity {
        ModDifference(|held + samples|, capacity, channels);
        InterleavedTail(held + samples, |held + samples| - capacity, channel, channels);
      }
    }
  }

  /** Every push is of whole frames and every read asks for whole frames. */
  ghost predicate WholeFrames<T>(events: seq<Event<T>>, channel: T -> nat, channels: nat)
    requires channels > 0
  {
    forall i :: 0 <= i < |events| ==> match events[i]
      case Push(samples, _) => Interleaved(samples, channel, channels)
      case Read(limit) => limit % channels == 0
      case Clear => true
  }

  /** Over any such run the contents stay interleaved, so the next read is of whole frames with every sample
      from its own channel. */
  lemma {:induction false} RunInterleaved<T>(capacity: nat, events: seq<Event<T>>, channel: T -> nat, channels: nat,
                                             limit: nat)
    requires channels > 0 && capacity % channels == 0 && WholeFrames(events, channel, channels)
    requires limit % channels == 0
    ensures var held := AfterAll(capacity, events).held;
      Interleaved(held, channel, channels) && Interleaved(held[..Smaller(limit, |held|)], channel, channels)
  {
    if events != [] {
      var n := |events| - 1;
      var init, e := events[..n], events[n];
      forall i | 0 <= i < n ensures init[i] == events[i] {
      }
      RunInterleaved(capacity, init, channel, channels, if e.Read? then e.limit else 0);
      var held := AfterAll(capacity, init).held;
      match e
      case Push(samples, contended) => InterleavedPush(capacity, held, samples, contended, channel, channels);
      case Read(m) => InterleavedTail(held, Smaller(m, |held|), channel, channels);
      case Clear =>
    }
    var held := AfterAll(capacity, events).held;
    InterleavedTail(held, Smaller(limit, |held|), channel, channels);
  }
}
