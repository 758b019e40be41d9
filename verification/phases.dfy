/** The environment-phase rotator of the main loop: a deque of (name,
    duration) pairs, the active phase `ephase`, its frame counter
    `ephase_count`, and the name broadcast to every sprite, `g_ephase_name`. */
module Phases {
  import opened Wrappers

  /** An ENVIRO_PHASES entry: a phase name and its duration in frames. */
  datatype Phase = Phase(name: string, duration: int)

  /** The rotator's variables as one value. */
  datatype Rotation = Rotation(queue: seq<Phase>, active: Option<Phase>, count: int, name: Option<string>)

  /** The state before the first frame: no phase active, counter 0, no name. */
  function Start(phases: seq<Phase>): Rotation {
    Rotation(phases, None, 0, None)
  }

  /** One frame of the rotator. With no active phase the front entry becomes
      active, its duration the counter and its name the broadcast name, and
      the deque rotates left by one. Otherwise the counter drops by one and
      the phase is cleared once it is below 1; the name is kept. */
  function Next(s: Rotation): (r: Rotation)
    requires s.active.Some? || s.queue != []
    ensures s.active.None? ==> r.queue == s.queue[1..] + [s.queue[0]]
    ensures s.active.None? ==> r.active == Some(s.queue[0]) && r.count == s.queue[0].duration
    ensures s.active.None? ==> r.name == Some(s.queue[0].name)
    ensures s.active.Some? ==> r.queue == s.queue && r.name == s.name && r.count == s.count - 1
    ensures s.active.Some? ==> r.active == (if s.count - 1 < 1 then None else s.active)
  {
    match s.active
    case None =>
      var front := s.queue[0];
      Rotation(s.queue[1..] + [front], Some(front), front.duration, Some(front.name))
    case Some(_) =>
      if s.count - 1 < 1 then s.(active := None, count := s.count - 1)
      else s.(count := s.count - 1)
  }

  /** A frame never loses, gains or replaces a phase of the deque. */
  lemma NextPermutes(s: Rotation)
    requires s.active.Some? || s.queue != []
    ensures |Next(s).queue| == |s.queue| && multiset(Next(s).queue) == multiset(s.queue)
  {
    if s.active.None? {
      assert s.queue == [s.queue[0]] + s.queue[1..];
    }
  }

  /** `n` frames of the rotator. */
  function Iterate(s: Rotation, n: nat): (r: Rotation)
    requires s.queue != []
    ensures r.queue != []
    decreases n
  {
    if n == 0 then s else Iterate(Next(s), n - 1)
  }

  /** Frames during which a phase's name is broadcast: the frame that
      activates it and one per decrement down to below 1. */
  function Frames(p: Phase): (f: nat)
    ensures f >= 2 && f >= p.duration + 1
  {
    (if p.duration < 1 then 1 else p.duration) + 1
  }

  /** Frames of one full turn of the schedule. */
  function Period(q: seq<Phase>): nat
    decreases |q|
  {
    if q == [] then 0 else Period(q[..|q| - 1]) + Frames(q[|q| - 1])
  }

  /** Running `a` frames and then `b` frames is running `a + b` frames. */
  lemma {:induction false} IterateAdd(s: Rotation, a: nat, b: nat)
    requires s.queue != []
    ensures Iterate(s, a + b) == Iterate(Iterate(s, a), b)
    decreases a
  {
    if a > 0 {
      calc {
        Iterate(s, a + b);
        Iterate(Next(s), (a - 1) + b);
        { IterateAdd(Next(s), a - 1, b); }
        Iterate(Iterate(Next(s), a - 1), b);
        Iterate(Iterate(s, a), b);
      }
    }
  }

  /** An active phase with counter `c` stays active, with the same name and
      queue, for max(c, 1) frames and is cleared by the last of them. */
  lemma {:induction false} Drain(s: Rotation, i: nat)
    requires s.queue != [] && s.active.Some?
    requires i <= (if s.count < 1 then 1 else s.count)
    ensures Iterate(s, i).queue == s.queue && Iterate(s, i).name == s.name
    ensures Iterate(s, i).count == s.count - i
    ensures Iterate(s, i).active.None? <==> i == (if s.count < 1 then 1 else s.count)
    decreases i
  {
    if i > 0 {
      var s1 := Next(s);
      if s1.active.Some? {
        Drain(s1, i - 1);
      } else {
        assert i == 1;
      }
    }
  }

  /** A phase taken from the front of an idle rotator holds the broadcast
      name for exactly Frames(phase) frames, after which the rotator is idle
      again with that phase moved to the back of the queue. */
  lemma {:induction false} OnePhase(s: Rotation, i: nat)
    requires s.queue != [] && s.active.None?
    requires 1 <= i <= Frames(s.queue[0])
    ensures Iterate(s, i).name == Some(s.queue[0].name)
    ensures Iterate(s, i).queue == s.queue[1..] + [s.queue[0]]
    ensures Iterate(s, i).active.None? <==> i == Frames(s.queue[0])
  {
    Drain(Next(s), i - 1);
  }

  /** After the phases q[..j] have each run their frames, the rotator is idle
      with the queue rotated left by j. */
  lemma {:induction false} PartialCycle(s: Rotation, j: nat)
    requires s.queue != [] && s.active.None?
    requires j <= |s.queue|
    ensures Iterate(s, Period(s.queue[..j])).active.None?
    ensures Iterate(s, Period(s.queue[..j])).queue == s.queue[j..] + s.queue[..j]
    decreases j
  {
    var q := s.queue;
    if j == 0 {
      assert q[0..] + q[..0] == q;
    } else {
      PartialCycle(s, j - 1);
      var p := Period(q[..j - 1]);
      var f := Frames(q[j - 1]);
      PeriodSnoc(q, j);
      var mid := Iterate(s, p);
      RotateOneMore(q, j);
      OnePhase(mid, f);
      IterateAdd(s, p, f);
      assert Iterate(s, p + f) == Iterate(mid, f);
      assert Iterate(s, p + f).queue == q[j..] + q[..j];
    }
  }

  lemma PeriodSnoc(q: seq<Phase>, j: nat)
    requires 0 < j <= |q|
    ensures Period(q[..j]) == Period(q[..j - 1]) + Frames(q[j - 1])
  {
    assert q[..j][..j - 1] == q[..j - 1];
  }

  /** Rotating left by j - 1 and then by one more is rotating left by j. */
  lemma RotateOneMore(q: seq<Phase>, j: nat)
    requires 0 < j <= |q|
    ensures (q[j - 1..] + q[..j - 1])[0] == q[j - 1]
    ensures (q[j - 1..] + q[..j - 1])[1..] + [q[j - 1]] == q[j..] + q[..j]
  {
    assert q[..j] == q[..j - 1] + [q[j - 1]];
    assert q[j - 1..] == [q[j - 1]] + q[j..];
  }

  /** From an idle rotator the schedule repeats with period
      Σ Frames(phase): every frame after the first recurs exactly one period
      later (the first differs only in the leftover counter and name, which
      the next activation overwrites). */
  lemma Periodic(s: Rotation, n: nat)
    requires s.queue != [] && s.active.None?
    requires n >= 1
    ensures Iterate(s, Period(s.queue) + n) == Iterate(s, n)
  {
    var q := s.queue;
    PartialCycle(s, |q|);
    assert q[..|q|] == q && q[|q|..] + q == q;
    var t := Iterate(s, Period(q));
    assert t.active.None? && t.queue == q;
    IterateAdd(s, Period(q), n);
    assert Next(t) == Next(s);
    assert Iterate(t, n) == Iterate(Next(t), n - 1);
    assert Iterate(s, n) == Iterate(Next(s), n - 1);
  }

  /** The rotator as the main loop keeps it. */
  class PhaseRotator {
    var phases: seq<Phase>
    var ephase: Option<Phase>
    var ephaseCount: int
    var ephaseName: Option<string>

    function State(): Rotation
      reads this
    {
      Rotation(phases, ephase, ephaseCount, ephaseName)
    }

    /** `ephase = None`, `g_ephase_name = None`, `ephase_count = 0`. */
    constructor (schedule: seq<Phase>)
      ensures State() == Start(schedule)
    {
      phases := schedule;
      ephase := None;
      ephaseCount := 0;
      ephaseName := None;
    }

    /** The phase-processing block of one frame. Reading the front of an
        empty deque raises an error in the source: that is `ok == false`,
        with the state left as it was. */
    method Advance() returns (ok: bool)
      modifies this
      ensures ok <==> old(ephase).Some? || old(phases) != []
      ensures ok ==> State() == Next(old(State()))
      ensures !ok ==> State() == old(State())
    {
      if ephase.None? {
        if phases == [] {
          return false;
        }
        ephase := Some(phases[0]);
        ephaseName := Some(phases[0].name);
        ephaseCount := phases[0].duration;
        var cut := phases[0];
        phases := phases[1..];
        phases := phases + [cut];
      } else {
        ephaseCount := ephaseCount - 1;
        if ephaseCount < 1 {
          ephase := None;
        }
      }
      ok := true;
    }
  }
}
