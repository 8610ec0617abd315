/** One idempotent request as it runs: it claims the Redis entry, works or polls, and publishes,
    while other callers and clocks act on the same entry between any two of its steps. */
module IdempotencyEndpoint {
  import opened Idempotency

  datatype Reply = Result(response: Response) | Busy | Raised | Gone

  /** How the work of a caller goes: the use case returns or raises, or the request is cancelled
      during the use case or after it, which no handler catches. */
  datatype Outcome = Returns(response: Response) | Raises | CutDuring | CutAfter(response: Response)

  /** Whose step it is; the clocks are no one's. */
  predicate By(a: Action, c: Caller) {
    match a
    case Claim(d) => c == d
    case Read(d) => c == d
    case Succeed(d, _) => c == d
    case Fail(d) => c == d
    case Delete(d) => c == d
    case Abandon(d) => c == d
    case Publish(d) => c == d
    case ExpireMarker => false
    case ExpireResponse => false
  }

  predicate Foreign(xs: seq<Action>, c: Caller) {
    forall n :: 0 <= n < |xs| ==> !By(xs[n], c)
  }

  /** What a caller itself does in a run. */
  function Own(xs: seq<Action>, c: Caller): seq<Action> {
    if xs == [] then [] else (if By(xs[0], c) then [xs[0]] else []) + Own(xs[1..], c)
  }

  lemma {:induction false} OwnAppend(xs: seq<Action>, ys: seq<Action>, c: Caller)
    ensures Own(xs + ys, c) == Own(xs, c) + Own(ys, c)
  {
    if xs == [] {
      assert xs + ys == ys;
    } else {
      var first := if By(xs[0], c) then [xs[0]] else [];
      assert (xs + ys)[1..] == xs[1..] + ys;
      OwnAppend(xs[1..], ys, c);
      assert Own(xs + ys, c) == first + (Own(xs[1..], c) + Own(ys, c));
      assert Own(xs, c) == first + Own(xs[1..], c);
    }
  }

  lemma {:induction false} OwnForeign(xs: seq<Action>, c: Caller)
    requires Foreign(xs, c)
    ensures Own(xs, c) == []
  {
    if xs != [] {
      OwnForeign(xs[1..], c);
    }
  }

  predicate SameProgress(s: State, t: State, c: Caller) {
    (c in t.callers <==> c in s.callers) && (c in s.callers ==> t.callers[c] == s.callers[c])
  }

  lemma ForeignStep(s: State, a: Action, c: Caller)
    requires !By(a, c)
    ensures SameProgress(s, Step(s, a), c)
  {
  }

  /** Others do not change how far a caller got. */
  lemma {:induction false} ForeignKeeps(s: State, xs: seq<Action>, c: Caller)
    requires Foreign(xs, c)
    ensures SameProgress(s, Run(s, xs), c)
    decreases |xs|
  {
    if xs != [] {
      ForeignStep(s, xs[0], c);
      ForeignKeeps(Step(s, xs[0]), xs[1..], c);
    }
  }

  lemma RunOne(s: State, a: Action)
    ensures Run(s, [a]) == Step(s, a)
  {
    assert Run(Step(s, a), [a][1..]) == Step(s, a);
  }

  /** The steps of a caller that won the claim. */
  function Work(c: Caller, outcome: Outcome): seq<Action> {
    match outcome
    case Returns(r) => [Succeed(c, r), Publish(c)]
    case Raises => [Fail(c), Delete(c)]
    case CutDuring => [Abandon(c)]
    case CutAfter(r) => [Succeed(c, r), Abandon(c)]
  }

  /** What it then hears. */
  function Answer(outcome: Outcome): Reply {
    match outcome
    case Returns(r) => Result(r)
    case Raises => Raised
    case CutDuring => Gone
    case CutAfter(_) => Gone
  }

  /** How far a caller got that hears this. */
  function Standing(reply: Reply): Progress {
    match reply
    case Result(r) => Answered(r)
    case Busy => Conflict
    case Raised => Failed
    case Gone => Abandoned
  }

  /** A caller either runs its use case and replies with the outcome, or reads up to 21 times
      and replies with what was stored by then. */
  ghost predicate FollowsProtocol(c: Caller, outcome: Outcome, reply: Reply, own: seq<Action>) {
    || (own == [Claim(c)] + Work(c, outcome) && reply == Answer(outcome))
    || ((reply == Busy || reply.Result?) && exists n :: 1 <= n <= 21 && own == [Claim(c)] + Reads(c, n) && (reply == Busy ==> n == 21))
  }

  class Endpoint {
    var state: State
    ghost var trace: seq<Action>

    constructor ()
      ensures state == INITIAL && trace == []
    {
      state, trace := INITIAL, [];
    }

    /** The state is what the steps taken so far make of the initial one. */
    ghost predicate Valid()
      reads this
    {
      state == Run(INITIAL, trace)
    }

    /** Others act while the caller waits for something. */
    method Await(others: seq<Action>, c: Caller)
      requires Valid() && Foreign(others, c)
      modifies this
      ensures Valid() && SameProgress(old(state), state, c) && Own(trace, c) == Own(old(trace), c)
    {
      ForeignKeeps(state, others, c);
      RunAppend(INITIAL, trace, others);
      OwnAppend(trace, others, c);
      OwnForeign(others, c);
      assert Own(trace, c) + [] == Own(trace, c);
      state := Run(state, others);
      trace := trace + others;
    }

    /** The caller's own step has been taken. */
    ghost method Took(a: Action, c: Caller, before: State)
      requires By(a, c) && before == Run(INITIAL, trace) && state == Step(before, a)
      modifies this`trace
      ensures Valid() && Own(trace, c) == Own(old(trace), c) + [a]
    {
      RunOne(before, a);
      RunAppend(INITIAL, trace, [a]);
      OwnAppend(trace, [a], c);
      assert Own([a], c) == [a] + Own([], c);
      trace := trace + [a];
    }

    /** The claim: writes the marker unless the entry holds something. */
    method SetIfAbsent(c: Caller) returns (claimed: bool)
      requires Valid() && c !in state.callers
      modifies this
      ensures Valid() && Own(trace, c) == Own(old(trace), c) + [Claim(c)]
      ensures Is(state, c, if claimed then Running else Waiting(READS))
      ensures claimed <==> old(state).entry.Absent?
    {
      ghost var before := state;
      claimed := state.entry.Absent?;
      if claimed {
        state := state.(entry := Processing, owner := Somebody(c), callers := state.callers[c := Running]);
      } else {
        state := state.(callers := state.callers[c := Waiting(READS)]);
      }
      Took(Claim(c), c, before);
    }

    /** One look at the entry; a stored response ends the wait. */
    method Get(c: Caller, left: nat) returns (cached: Entry)
      requires Valid() && left > 0 && Is(state, c, Waiting(left))
      modifies this
      ensures Valid() && Own(trace, c) == Own(old(trace), c) + [Read(c)]
      ensures cached == old(state).entry
      ensures Is(state, c, if cached.Stored? then Answered(cached.response)
                           else if left == 1 then Conflict else Waiting(left - 1))
    {
      ghost var before := state;
      cached := state.entry;
      if cached.Stored? {
        state := state.(callers := state.callers[c := Answered(cached.response)],
                        answers := state.answers + [Event(state.lifetime, c, cached.response)]);
      } else {
        state := state.(callers := state.callers[c := if left == 1 then Conflict else Waiting(left - 1)]);
      }
      Took(Read(c), c, before);
    }

    /** Polls until a response is there or the reads are used up. */
    method Poll(c: Caller, others: nat -> seq<Action>) returns (reply: Reply, ghost n: nat)
      requires Valid() && Is(state, c, Waiting(21)) && forall i :: Foreign(others(i), c)
      modifies this
      ensures Valid() && 1 <= n <= 21 && Own(trace, c) == Own(old(trace), c) + Reads(c, n)
      ensures reply == Busy || reply.Result?
      ensures Is(state, c, if reply.Result? then Answered(reply.response) else Conflict)
      ensures reply == Busy ==> n == 21
    {
      var cached := Get(c, READS);
      n := 1;
      for k := 0 to READS - 1
        invariant n == k + 1 && Valid() && Own(trace, c) == Own(old(trace), c) + Reads(c, n)
        invariant Is(state, c, if cached.Stored? then Answered(cached.response)
                               else if k == READS - 1 then Conflict else Waiting(READS - 1 - k))
      {
        if cached.Stored? {
          reply := Result(cached.response);
          return;
        }
        Await(others(k), c);
        cached := Get(c, READS - 1 - k);
        ReadsAgain(c, n);
        n := n + 1;
      }
      reply := if cached.Stored? then Result(cached.response) else Busy;
    }

    /** The use case returns. */
    method Succeeds(c: Caller, r: Response)
      requires Valid() && Is(state, c, Running)
      modifies this
      ensures Valid() && Is(state, c, Ran(r)) && Own(trace, c) == Own(old(trace), c) + [Succeed(c, r)]
    {
      ghost var before := state;
      state := state.(callers := state.callers[c := Ran(r)]);
      Took(Succeed(c, r), c, before);
    }

    /** The response replaces the marker. */
    method Publishes(c: Caller, r: Response)
      requires Valid() && Is(state, c, Ran(r))
      modifies this
      ensures Valid() && Is(state, c, Answered(r)) && state.entry == Stored(r)
      ensures Own(trace, c) == Own(old(trace), c) + [Publish(c)]
    {
      ghost var before := state;
      var e := Event(state.lifetime, c, r);
      state := state.(callers := state.callers[c := Answered(r)], entry := Stored(r), owner := Nobody,
                      kept := state.kept + [e], answers := state.answers + [e]);
      Took(Publish(c), c, before);
    }

    /** The use case raises. */
    method Fails(c: Caller)
      requires Valid() && Is(state, c, Running)
      modifies this
      ensures Valid() && Is(state, c, Failing) && Own(trace, c) == Own(old(trace), c) + [Fail(c)]
    {
      ghost var before := state;
      state := state.(callers := state.callers[c := Failing]);
      Took(Fail(c), c, before);
    }

    /** The entry is deleted. */
    method Frees(c: Caller)
      requires Valid() && Is(state, c, Failing)
      modifies this
      ensures Valid() && Is(state, c, Failed) && state.entry == Absent
      ensures Own(trace, c) == Own(old(trace), c) + [Delete(c)]
    {
      ghost var before := state;
      state := state.(callers := state.callers[c := Failed], entry := Absent, owner := Nobody);
      Took(Delete(c), c, before);
    }

    /** The request is cancelled; the entry stays as it is. */
    method CutOff(c: Caller)
      requires Valid() && c in state.callers && (state.callers[c].Running? || state.callers[c].Ran?)
      modifies this
      ensures Valid() && Is(state, c, Abandoned) && state.entry == old(state).entry
      ensures Own(trace, c) == Own(old(trace), c) + [Abandon(c)]
    {
      ghost var before := state;
      state := state.(callers := state.callers[c := Abandoned]);
      Took(Abandon(c), c, before);
    }

    /** The work of a caller that won the claim: it publishes a response, gives the entry free when
        the use case raises, and leaves its marker behind when it is cancelled. */
    method Execute(c: Caller, outcome: Outcome, others: seq<Action>) returns (reply: Reply)
      requires Valid() && Is(state, c, Running) && Foreign(others, c)
      modifies this
      ensures Valid() && Own(trace, c) == Own(old(trace), c) + Work(c, outcome)
      ensures reply == Answer(outcome) && Is(state, c, Standing(reply))
    {
      reply := Answer(outcome);
      match outcome
      case Returns(r) =>
        Succeeds(c, r);
        Await(others, c);
        Publishes(c, r);
      case Raises =>
        Fails(c);
        Await(others, c);
        Frees(c);
      case CutDuring =>
        CutOff(c);
      case CutAfter(r) =>
        Succeeds(c, r);
        Await(others, c);
        CutOff(c);
    }

    /** A whole request, going as its outcome says once it won the claim; others may act between any
        two steps. What the caller is told is how far it got, and its own steps are those of the
        protocol: it runs the use case only after winning the claim, publishes only after a success
        and deletes only after a failure. */
    method Request(c: Caller, outcome: Outcome, others: nat -> seq<Action>)
      returns (reply: Reply, ghost own: seq<Action>)
      requires Valid() && c !in state.callers && forall i :: Foreign(others(i), c)
      modifies this
      ensures Valid() && Own(trace, c) == Own(old(trace), c) + own && FollowsProtocol(c, outcome, reply, own)
      ensures Is(state, c, Standing(reply))
    {
      Await(others(READS), c);
      var claimed := SetIfAbsent(c);
      if claimed {
        Await(others(READS + 1), c);
        reply := Execute(c, outcome, others(READS + 2));
        own := [Claim(c)] + Work(c, outcome);
        assert Own(trace, c) == Own(old(trace), c) + own;
      } else {
        ghost var n;
        reply, n := Poll(c, others);
        own := [Claim(c)] + Reads(c, n);
        assert Own(trace, c) == Own(old(trace), c) + own;
      }
    }
  }

  lemma {:induction false} ReadsAgain(c: Caller, n: nat)
    ensures Reads(c, n) + [Read(c)] == Reads(c, n + 1)
  {
    if n > 0 {
      ReadsAgain(c, n - 1);
    }
  }
}
