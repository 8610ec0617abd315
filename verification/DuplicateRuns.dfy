/** Exactly when the protocol can keep two runs in one lifetime of a stored response. */
module DuplicateRuns {
  import opened Idempotency

  /** Two kept runs belong to one lifetime. */
  ghost predicate Duplicated(s: State) {
    exists i, j :: 0 <= i < j < |s.kept| && s.kept[i].lifetime == s.kept[j].lifetime
  }

  /** From here, without any further early expiry, two runs may yet be kept in one lifetime. */
  ghost predicate CanDuplicate(s: State) {
    exists xs :: AllTimely(s, xs) && Duplicated(Run(s, xs))
  }

  lemma AlreadyDuplicated(s: State)
    requires Duplicated(s)
    ensures CanDuplicate(s)
  {
    assert AllTimely(s, []) && Run(s, []) == s;
  }

  /** What can happen after a timely step could happen before it. */
  lemma Before(s: State, a: Action)
    requires Timely(s, a) && CanDuplicate(Step(s, a))
    ensures CanDuplicate(s)
  {
    var xs :| AllTimely(Step(s, a), xs) && Duplicated(Run(Step(s, a), xs));
    var ys := [a] + xs;
    assert ys[0] == a && ys[1..] == xs;
    assert AllTimely(s, ys) && Run(s, ys) == Run(Step(s, a), xs);
  }

  // ----- what every run keeps, early expiries and all -----

  /** Kept runs are in the order of their lifetimes, and the marker has an owner who has not yet
      touched the entry again. */
  predicate Ordered(s: State) {
    && (forall i, j :: 0 <= i < j < |s.kept| ==> s.kept[i].lifetime <= s.kept[j].lifetime)
    && (forall i :: 0 <= i < |s.kept| ==> s.kept[i].lifetime <= s.lifetime)
    && (s.entry.Processing? <==> s.owner.Somebody?)
    && (s.owner.Somebody? ==>
          s.owner.caller in s.callers
          && (Active(s.callers[s.owner.caller]) || s.callers[s.owner.caller].Abandoned?))
    && (s.entry.Stored? ==>
          s.kept != [] && s.kept[|s.kept| - 1].lifetime == s.lifetime
          && s.kept[|s.kept| - 1].response == s.entry.response)
  }

  lemma StepOrdered(s: State, a: Action)
    requires Ordered(s)
    ensures Ordered(Step(s, a))
  {
  }

  lemma {:induction false} RunOrdered(s: State, xs: seq<Action>)
    requires Ordered(s)
    ensures Ordered(Run(s, xs))
    decreases |xs|
  {
    if xs != [] {
      StepOrdered(s, xs[0]);
      RunOrdered(Step(s, xs[0]), xs[1..]);
    }
  }

  // ----- how a second run comes about -----

  /** The lifetime has its kept run already. */
  predicate Taken(s: State) {
    s.kept != [] && s.kept[|s.kept| - 1].lifetime == s.lifetime
  }

  lemma NewCaller(s: State) returns (c: Caller)
    ensures c !in s.callers
  {
    c := Beyond(s.callers.Keys);
  }

  lemma {:induction false} Beyond(cs: set<Caller>) returns (c: Caller)
    ensures forall d :: d in cs ==> d < c
    decreases |cs|
  {
    if cs == {} {
      c := 0;
    } else {
      var d :| d in cs;
      var rest := Beyond(cs - {d});
      c := if d < rest then rest else d + 1;
      assert forall e :: e in cs ==> e == d || e in cs - {d};
    }
  }

  /** A caller whose use case succeeded publishes a second run. */
  lemma RanTwice(s: State, c: Caller)
    requires Taken(s) && c in s.callers && s.callers[c].Ran?
    ensures CanDuplicate(s)
  {
    var n := Step(s, Publish(c));
    assert n.kept[|s.kept| - 1].lifetime == n.kept[|s.kept|].lifetime;
    AlreadyDuplicated(n);
    Before(s, Publish(c));
  }

  lemma RunningTwice(s: State, c: Caller)
    requires Taken(s) && Is(s, c, Running)
    ensures CanDuplicate(s)
  {
    RanTwice(Step(s, Succeed(c, 0)), c);
    Before(s, Succeed(c, 0));
  }

  /** With the entry gone, the next caller runs again in a lifetime that has its run. */
  lemma AbsentTwice(s: State)
    requires Taken(s) && s.entry.Absent?
    ensures CanDuplicate(s)
  {
    var c := NewCaller(s);
    RunningTwice(Step(s, Claim(c)), c);
    Before(s, Claim(c));
  }

  /** Whatever the owner of a marker is doing, its lifetime gets a run or the marker goes. */
  lemma MarkerTwice(s: State)
    requires Ordered(s) && Taken(s) && s.entry.Processing?
    ensures CanDuplicate(s)
  {
    var c := s.owner.caller;
    match s.callers[c]
    case Running => RunningTwice(s, c);
    case Ran(_) => RanTwice(s, c);
    case Failing =>
      AbsentTwice(Step(s, Delete(c)));
      Before(s, Delete(c));
    case Abandoned =>
      AbsentTwice(Step(s, ExpireMarker));
      Before(s, ExpireMarker);
  }

  /** A lifetime whose run is kept although its response is not stored. */
  lemma Reopened(s: State)
    requires Ordered(s) && Taken(s) && !s.entry.Stored?
    ensures CanDuplicate(s)
  {
    if s.entry.Absent? {
      AbsentTwice(s);
    } else {
      MarkerTwice(s);
    }
  }

  // ----- a caller at work without its marker -----

  predicate Loose(s: State, c: Caller) {
    c in s.callers && Active(s.callers[c]) && s.owner != Somebody(c)
  }

  lemma LooseOverStored(s: State, c: Caller)
    requires Ordered(s) && Loose(s, c) && s.entry.Stored?
    ensures CanDuplicate(s)
  {
    match s.callers[c]
    case Running => RunningTwice(s, c);
    case Ran(_) => RanTwice(s, c);
    case Failing =>
      StepOrdered(s, Delete(c));
      AbsentTwice(Step(s, Delete(c)));
      Before(s, Delete(c));
  }

  lemma LooseBesidePublisher(s: State, c: Caller, d: Caller)
    requires Ordered(s) && Loose(s, c) && c != d && d in s.callers && s.callers[d].Ran?
    ensures CanDuplicate(s)
  {
    StepOrdered(s, Publish(d));
    LooseOverStored(Step(s, Publish(d)), c);
    Before(s, Publish(d));
  }

  lemma LooseBesideWorker(s: State, c: Caller, d: Caller)
    requires Ordered(s) && Loose(s, c) && c != d && Is(s, d, Running)
    ensures CanDuplicate(s)
  {
    StepOrdered(s, Succeed(d, 0));
    LooseBesidePublisher(Step(s, Succeed(d, 0)), c, d);
    Before(s, Succeed(d, 0));
  }

  lemma LooseOverNothing(s: State, c: Caller)
    requires Ordered(s) && Loose(s, c) && s.entry.Absent?
    ensures CanDuplicate(s)
  {
    var d := NewCaller(s);
    StepOrdered(s, Claim(d));
    LooseBesideWorker(Step(s, Claim(d)), c, d);
    Before(s, Claim(d));
  }

  lemma LooseOverMarker(s: State, c: Caller)
    requires Ordered(s) && Loose(s, c) && s.entry.Processing?
    ensures CanDuplicate(s)
  {
    var d := s.owner.caller;
    match s.callers[d]
    case Running => LooseBesideWorker(s, c, d);
    case Ran(_) => LooseBesidePublisher(s, c, d);
    case Failing =>
      StepOrdered(s, Delete(d));
      LooseOverNothing(Step(s, Delete(d)), c);
      Before(s, Delete(d));
    case Abandoned =>
      StepOrdered(s, ExpireMarker);
      LooseOverNothing(Step(s, ExpireMarker), c);
      Before(s, ExpireMarker);
  }

  lemma LooseDuplicates(s: State, c: Caller)
    requires Ordered(s) && Loose(s, c)
    ensures CanDuplicate(s)
  {
    match s.entry
    case Absent => LooseOverNothing(s, c);
    case Processing => LooseOverMarker(s, c);
    case Stored(_) => LooseOverStored(s, c);
  }

  // ----- exactly when -----

  /** Only the owner of the marker works, and each lifetime has one run: nothing can go wrong. */
  lemma {:induction false} SafeStays(s: State, xs: seq<Action>)
    requires Exclusive(s) && OnePerLifetime(s) && AllTimely(s, xs)
    ensures !Duplicated(Run(s, xs))
    decreases |xs|
  {
    if xs != [] {
      StepExclusive(s, xs[0]);
      StepOnePerLifetime(s, xs[0]);
      SafeStays(Step(s, xs[0]), xs[1..]);
    }
  }

  lemma SafeNeverDuplicates(s: State)
    requires Exclusive(s) && OnePerLifetime(s)
    ensures !CanDuplicate(s)
  {
    forall xs | AllTimely(s, xs)
      ensures !Duplicated(Run(s, xs))
    {
      SafeStays(s, xs);
    }
  }

  lemma UnsafeDuplicates(s: State)
    requires Ordered(s) && !(Exclusive(s) && OnePerLifetime(s))
    ensures CanDuplicate(s)
  {
    if Duplicated(s) {
      AlreadyDuplicated(s);
    } else if OnePerLifetime(s) {
      var c :| c in s.callers && Active(s.callers[c]) && s.owner != Somebody(c);
      LooseDuplicates(s, c);
    } else {
      Reopened(s);
    }
  }

  /** After any run, early expiries and all, two runs may come to be kept in one lifetime exactly
      when some caller works without owning the marker or a kept run's lifetime has not ended with
      its response. */
  lemma DuplicatesExactlyWhen(xs: seq<Action>)
    ensures var s := Run(INITIAL, xs);
            CanDuplicate(s) <==> !(Exclusive(s) && OnePerLifetime(s))
  {
    RunOrdered(INITIAL, xs);
    var s := Run(INITIAL, xs);
    if Exclusive(s) && OnePerLifetime(s) {
      SafeNeverDuplicates(s);
    } else {
      UnsafeDuplicates(s);
    }
  }

  /** The one step that opens the door is the expiry of a marker whose owner is still at work. */
  lemma ExpiryOpensTheDoor(xs: seq<Action>, a: Action)
    requires AllTimely(INITIAL, xs)
    ensures CanDuplicate(Step(Run(INITIAL, xs), a)) <==> !Timely(Run(INITIAL, xs), a)
  {
    var s := Run(INITIAL, xs);
    RunKeeps(INITIAL, xs);
    RunOrdered(INITIAL, xs);
    if Timely(s, a) {
      StepExclusive(s, a);
      StepOnePerLifetime(s, a);
      SafeNeverDuplicates(Step(s, a));
    } else {
      StepOrdered(s, a);
      LooseDuplicates(Step(s, a), s.owner.caller);
    }
  }

  /** Over whole runs: an interleaving is timely exactly when at no point of it a second run in one
      lifetime is or becomes possible. */
  lemma {:induction false} TimelyExactlyWhenSafe(xs: seq<Action>)
    ensures AllTimely(INITIAL, xs) <==> forall k :: 0 <= k <= |xs| ==> !CanDuplicate(Run(INITIAL, xs[..k]))
    decreases |xs|
  {
    if xs == [] {
      DuplicatesExactlyWhen([]);
    } else {
      var front, last := xs[..|xs| - 1], xs[|xs| - 1];
      assert xs == front + [last];
      TimelyExactlyWhenSafe(front);
      assert forall k :: 0 <= k <= |front| ==> front[..k] == xs[..k];
      RunLast(front, last);
      assert xs[..|xs|] == xs && xs[..|front|] == front;
      if AllTimely(INITIAL, front) {
        ExpiryOpensTheDoor(front, last);
      }
    }
  }

  lemma RunLast(xs: seq<Action>, a: Action)
    ensures Run(INITIAL, xs + [a]) == Step(Run(INITIAL, xs), a)
    ensures AllTimely(INITIAL, xs + [a]) <==> AllTimely(INITIAL, xs) && Timely(Run(INITIAL, xs), a)
  {
    RunAppend(INITIAL, xs, [a]);
    TimelyAppend(INITIAL, xs, a);
    assert Run(Run(INITIAL, xs), [a]) == Run(Step(Run(INITIAL, xs), a), [a][1..]);
  }

  lemma {:induction false} TimelyAppend(s: State, xs: seq<Action>, a: Action)
    ensures AllTimely(s, xs + [a]) <==> AllTimely(s, xs) && Timely(Run(s, xs), a)
    decreases |xs|
  {
    if xs == [] {
      assert xs + [a] == [a] && [a][1..] == [];
      assert AllTimely(Step(s, a), []);
    } else {
      assert (xs + [a])[1..] == xs[1..] + [a];
      TimelyAppend(Step(s, xs[0]), xs[1..], a);
    }
  }
}
