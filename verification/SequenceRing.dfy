/** The rotating channel of transaction sequence numbers and its concurrent callers (node.go). */
module SequenceRing {
  import opened Wrappers
  import opened Keys
  import opened Sequences

  /** The channel's capacity; it is filled with 0 to 254. */
  const CAPACITY: nat := 255

  // ---- One caller at a time ----

  class Sequence {
    var channel: seq<Byte>

    /** `makeTransactionSequence`. */
    constructor ()
      ensures channel == Rotated(0)
    {
      channel := [];
      new;
      for i := 0 to CAPACITY
        invariant channel == Rotated(0)[..i]
      {
        channel := channel + [i];
      }
    }

    /** `nextTransactionSequence`: takes from the front and puts back at the end. */
    method Next() returns (s: Byte)
      requires channel != []
      modifies this
      ensures s == old(channel)[0] && channel == old(channel)[1..] + [s]
    {
      s := channel[0];
      channel := channel[1..];
      channel := channel + [s];
    }

    /** Called in sequence, the calls count up and start again after 254. */
    method NextTimes(n: nat) returns (r: seq<Byte>)
      requires channel == Rotated(0)
      modifies this
      ensures |r| == n && forall j | 0 <= j < n :: r[j] == j % 255
    {
      r := [];
      for j := 0 to n
        invariant |r| == j && channel == Rotated(j) && forall i | 0 <= i < j :: r[i] == i % CAPACITY
      {
        RotatedNext(j);
        var s := Next();
        r := r + [s];
      }
    }
  }

  /** The channel after `j` sequential calls. */
  function Rotated(j: nat): seq<Byte> {
    seq(CAPACITY, i requires 0 <= i < CAPACITY => (i + j) % CAPACITY)
  }

  lemma RotatedNext(j: nat)
    ensures Rotated(j)[0] == j % CAPACITY && Rotated(j + 1) == Rotated(j)[1..] + [j % CAPACITY]
  {
    assert (254 + (j + 1)) % CAPACITY == j % CAPACITY;
  }

  // ---- Callers side by side ----

  /** Between its receive and its send a caller holds a number; `issued` are the numbers received so far. */
  datatype Ring = Ring(channel: seq<Byte>, held: map<nat, Byte>, issued: seq<Byte>)

  datatype Step = Take(caller: nat) | PutBack(caller: nat)

  function Initial(): Ring {
    Ring(Rotated(0), map[], [])
  }

  /** A receive needs a number in the channel, a send needs room; at most `k` callers are inside at once. */
  predicate Enabled(k: nat, r: Ring, s: Step) {
    match s
    case Take(c) => c !in r.held && |r.held| < k && r.channel != []
    case PutBack(c) => c in r.held && |r.channel| < CAPACITY
  }

  function After(r: Ring, s: Step): Ring
    requires s.Take? ==> r.channel != []
    requires s.PutBack? ==> s.caller in r.held
  {
    match s
    case Take(c) => Ring(r.channel[1..], r.held[c := r.channel[0]], r.issued + [r.channel[0]])
    case PutBack(c) => Ring(r.channel + [r.held[c]], r.held - {c}, r.issued)
  }

  /** Where an interleaving leads, if each of its steps was possible. */
  function Run(k: nat, steps: seq<Step>): Option<Ring>
    decreases |steps|
  {
    if steps == [] then Some(Initial()) else
      var r, s := Run(k, steps[..|steps| - 1]), steps[|steps| - 1];
      if r.Some? && Enabled(k, r.value, s) then Some(After(r.value, s)) else None
  }

  ghost predicate OneEach(held: map<nat, Byte>) {
    forall c <- held, d <- held | held[c] == held[d] :: c == d
  }

  function Numbers(): set<Byte> {
    Elements(Rotated(0))
  }

  lemma NumbersAre(v: Byte)
    ensures v in Numbers() <==> v < CAPACITY
  {
    if v < CAPACITY { assert Rotated(0)[v] == v; }
  }

  /** Each of 0 to 254 is in the channel or with one caller, once. */
  ghost predicate Conserved(r: Ring) {
    && Distinct(r.channel) && OneEach(r.held)
    && Elements(r.channel) !! r.held.Values
    && Elements(r.channel) + r.held.Values == Numbers()
    && |r.channel| + |r.held| == CAPACITY
  }

  lemma RotatedZero()
    ensures forall i | 0 <= i < CAPACITY :: Rotated(0)[i] == i
  {
  }

  lemma InitialConserved()
    ensures Conserved(Initial())
  {
    RotatedZero();
  }

  lemma OneLonger(held: map<nat, Byte>, c: nat, v: Byte)
    requires c !in held
    ensures |held[c := v]| == |held| + 1
  {
    assert held[c := v].Keys == held.Keys + {c};
    assert |held[c := v]| == |held[c := v].Keys| && |held| == |held.Keys|;
  }

  lemma ValuesWith(held: map<nat, Byte>, c: nat, v: Byte)
    requires c !in held
    ensures held[c := v].Values == held.Values + {v} && |held[c := v]| == |held| + 1
  {
    var t := held[c := v];
    OneLonger(held, c, v);
    forall w <- held.Values ensures w in t.Values { var d :| d in held && held[d] == w; assert t[d] == w; }
    assert t[c] == v;
  }

  lemma Front(ch: seq<Byte>)
    requires ch != [] && Distinct(ch)
    ensures Distinct(ch[1..]) && ch[0] !in Elements(ch[1..]) && Elements(ch) == Elements(ch[1..]) + {ch[0]}
  {
    assert ch == [ch[0]] + ch[1..];
  }

  lemma Back(ch: seq<Byte>, v: Byte)
    requires Distinct(ch) && v !in Elements(ch)
    ensures Distinct(ch + [v]) && Elements(ch + [v]) == Elements(ch) + {v}
  {
  }

  lemma OneMore(held: map<nat, Byte>, c: nat, v: Byte)
    requires c !in held
    ensures OneEach(held[c := v]) <==> OneEach(held) && v !in held.Values
  {
    var t := held[c := v];
    if OneEach(t) {
      forall d <- held ensures held[d] != v { assert t[d] == held[d] && t[c] == v; }
      forall d <- held, e <- held | held[d] == held[e] ensures d == e { assert t[d] == t[e]; }
    }
  }

  lemma Moved(a: set<Byte>, b: set<Byte>, v: Byte)
    requires a + {v} !! b && v !in a
    ensures v !in b && a !! b + {v} && a + (b + {v}) == (a + {v}) + b
  {
  }

  lemma TakeConserves(r: Ring, c: nat)
    requires Conserved(r) && c !in r.held && r.channel != []
    ensures Conserved(After(r, Take(c)))
  {
    var v := r.channel[0];
    ValuesWith(r.held, c, v);
    Front(r.channel);
    Moved(Elements(r.channel[1..]), r.held.Values, v);
    OneMore(r.held, c, v);
  }

  lemma WithoutAndBack(held: map<nat, Byte>, c: nat)
    requires c in held
    ensures (held - {c})[c := held[c]] == held
  {
  }

  lemma MovedBack(a: set<Byte>, b: set<Byte>, v: Byte)
    requires a !! b + {v} && v !in b
    ensures v !in a && a + {v} !! b && (a + {v}) + b == a + (b + {v})
  {
  }

  lemma PutBackConserves(r: Ring, c: nat)
    requires Conserved(r) && c in r.held
    ensures Conserved(After(r, PutBack(c)))
  {
    var t, v := r.held - {c}, r.held[c];
    WithoutAndBack(r.held, c);
    OneMore(t, c, v);
    ValuesWith(t, c, v);
    MovedBack(Elements(r.channel), t.Values, v);
    Back(r.channel, v);
  }

  lemma StepConserves(k: nat, r: Ring, s: Step)
    requires Conserved(r) && Enabled(k, r, s)
    ensures Conserved(After(r, s))
  {
    match s
    case Take(c) => TakeConserves(r, c);
    case PutBack(c) => PutBackConserves(r, c);
  }

  /** In every interleaving no number is lost or doubled. */
  lemma {:induction false} RunConserves(k: nat, steps: seq<Step>)
    requires Run(k, steps).Some?
    ensures Conserved(Run(k, steps).value)
    decreases |steps|
  {
    if steps == [] {
      InitialConserved();
    } else {
      RunConserves(k, steps[..|steps| - 1]);
      StepConserves(k, Run(k, steps[..|steps| - 1]).value, steps[|steps| - 1]);
    }
  }

  /** Each of 0 to 254 is either in the channel, once, or with exactly one caller. */
  lemma EachNumberOnce(k: nat, steps: seq<Step>, v: Byte)
    requires Run(k, steps).Some? && v < 255
    ensures var r := Run(k, steps).value;
            && (v in r.channel <==> !exists c <- r.held :: r.held[c] == v)
            && (forall i, j | 0 <= i < j < |r.channel| :: !(r.channel[i] == r.channel[j] == v))
            && (forall c <- r.held, d <- r.held | r.held[c] == r.held[d] == v :: c == d)
  {
    RunConserves(k, steps);
    NumbersAre(v);
    var r := Run(k, steps).value;
    assert v in Elements(r.channel) + r.held.Values;
  }

  /** A caller can always put its number back, and with callers allowed in, some step is always possible. */
  lemma NeverStuck(k: nat, steps: seq<Step>)
    requires Run(k, steps).Some? && k > 0
    ensures var r := Run(k, steps).value;
            && (forall c <- r.held :: Enabled(k, r, PutBack(c)))
            && exists s :: Enabled(k, r, s)
  {
    RunConserves(k, steps);
    var r := Run(k, steps).value;
    if r.held != map[] {
      var c :| c in r.held;
      assert Enabled(k, r, PutBack(c));
    } else {
      assert Enabled(k, r, Take(0));
    }
  }

  // ---- How far apart the issues of one number are ----

  ghost predicate IssuedApart(issued: seq<Byte>, gap: int) {
    forall i, j | 0 <= i < j < |issued| && issued[i] == issued[j] :: j - i - 1 >= gap
  }

  /** A number in the channel has, since its last issue and before its next, enough others issued or ahead of it. */
  ghost predicate Spaced(r: Ring, gap: int) {
    forall p, i | 0 <= p < |r.channel| && 0 <= i < |r.issued| && r.issued[i] == r.channel[p] ::
      |r.issued| - i - 1 + p >= gap
  }

  lemma TakeSpaces(r: Ring, c: nat, gap: int)
    requires r.channel != [] && Distinct(r.channel) && Spaced(r, gap) && IssuedApart(r.issued, gap)
    ensures Spaced(After(r, Take(c)), gap) && IssuedApart(After(r, Take(c)).issued, gap)
  {
    var t := After(r, Take(c));
    forall p, i | 0 <= p < |t.channel| && 0 <= i < |t.issued| && t.issued[i] == t.channel[p]
      ensures |t.issued| - i - 1 + p >= gap
    {
      assert t.channel[p] == r.channel[p + 1];
      assert i < |r.issued|;
      assert r.issued[i] == r.channel[p + 1];
    }
    forall i, j | 0 <= i < j < |t.issued| && t.issued[i] == t.issued[j] ensures j - i - 1 >= gap {
      if j == |r.issued| { assert r.issued[i] == r.channel[0]; }
    }
  }

  lemma PutBackSpaces(r: Ring, c: nat, gap: int)
    requires c in r.held && Spaced(r, gap) && |r.channel| >= gap
    ensures Spaced(After(r, PutBack(c)), gap)
  {
  }

  /** At most `k` numbers are out, and issues of one number lie far enough apart. */
  ghost predicate SpacedOut(k: nat, r: Ring) {
    |r.held| <= k && Spaced(r, CAPACITY - k) && IssuedApart(r.issued, CAPACITY - k)
  }

  lemma StepSpaces(k: nat, r: Ring, s: Step)
    requires Conserved(r) && SpacedOut(k, r) && Enabled(k, r, s)
    ensures SpacedOut(k, After(r, s))
  {
    match s
    case Take(c) =>
      TakeSpaces(r, c, CAPACITY - k);
      OneLonger(r.held, c, r.channel[0]);
    case PutBack(c) =>
      PutBackSpaces(r, c, CAPACITY - k);
      WithoutAndBack(r.held, c);
      OneLonger(r.held - {c}, c, r.held[c]);
  }

  lemma {:induction false} RunSpaces(k: nat, steps: seq<Step>)
    requires Run(k, steps).Some?
    ensures SpacedOut(k, Run(k, steps).value)
    decreases |steps|
  {
    if steps != [] {
      var init := steps[..|steps| - 1];
      RunSpaces(k, init);
      RunConserves(k, init);
      StepSpaces(k, Run(k, init).value, steps[|steps| - 1]);
    }
  }

  /**
   * With at most `k` callers at once, at least `255 - k` other numbers are issued between two issues of the same
   * one.
   */
  lemma IssuesFarApart(k: nat, steps: seq<Step>, i: nat, j: nat)
    requires Run(k, steps).Some? && i < j < |Run(k, steps).value.issued|
    requires Run(k, steps).value.issued[i] == Run(k, steps).value.issued[j]
    ensures j - i - 1 >= 255 - k
  {
    RunSpaces(k, steps);
  }
}
