/** The idempotency protocol of the payment and order endpoints: any number of callers
    with the same key, taking steps in any order against one Redis entry. The two
    endpoints run the same protocol on keys of their own. */
module Idempotency {

  type Caller = nat
  type Response = nat

  /** What the Redis entry holds: nothing, the marker of a request in progress, or the
      response of a finished one. */
  datatype Entry = Absent | Processing | Stored(response: Response)

  /** How far a caller got. */
  datatype Progress =
    | Waiting(left: nat)          // lost the claim, this many reads left
    | Running                      // won the claim, use case in progress
    | Ran(response: Response)      // use case done, response not yet published
    | Failing                      // use case failed, entry not yet deleted
    | Answered(response: Response)
    | Conflict                     // told that an identical request is in progress
    | Failed
    | Abandoned                    // cancelled before publishing; its work is rolled back

  /** 1 read on losing the claim and 20 more, a quarter of a second apart. */
  const READS: nat := 21

  /** A use case whose work was kept, or a caller told about one, and when. */
  datatype Event = Event(lifetime: nat, caller: Caller, response: Response)

  /** The entry and the callers, with the history the properties speak about: who put the
      marker there, how many stored responses have expired, which runs were kept, and which
      callers were answered. */
  datatype State = State(
    entry: Entry,
    callers: map<Caller, Progress>,
    owner: OptionalCaller,
    lifetime: nat,
    kept: seq<Event>,
    answers: seq<Event>)

  datatype OptionalCaller = Nobody | Somebody(caller: Caller)

  const INITIAL := State(Absent, map[], Nobody, 0, [], [])

  datatype Action =
    | Claim(c: Caller)                       // SET NX of the marker
    | Read(c: Caller)                        // GET while waiting
    | Succeed(c: Caller, response: Response) // the use case returns
    | Fail(c: Caller)                        // the use case raises
    | Delete(c: Caller)                      // DEL after a failed use case
    | Abandon(c: Caller)                     // the request is cancelled, which no handler catches
    | Publish(c: Caller)                     // SET of the response
    | ExpireMarker                           // the marker's 30 seconds are over
    | ExpireResponse                         // the response's 24 hours are over

  function At(s: State, c: Caller, p: Progress): State {
    s.(callers := s.callers[c := p])
  }

  predicate Is(s: State, c: Caller, p: Progress) {
    c in s.callers && s.callers[c] == p
  }

  /** One step; an action that is not possible changes nothing. */
  function Step(s: State, a: Action): State {
    match a
    case Claim(c) =>
      if c in s.callers then s
      else if s.entry.Absent? then At(s, c, Running).(entry := Processing, owner := Somebody(c))
      else At(s, c, Waiting(READS))
    case Read(c) =>
      if c !in s.callers || !s.callers[c].Waiting? || s.callers[c].left == 0 then s
      else if s.entry.Stored? then
        At(s, c, Answered(s.entry.response)).(answers := s.answers + [Event(s.lifetime, c, s.entry.response)])
      else if s.callers[c].left == 1 then At(s, c, Conflict)
      else At(s, c, Waiting(s.callers[c].left - 1))
    case Succeed(c, response) => if Is(s, c, Running) then At(s, c, Ran(response)) else s
    case Fail(c) => if Is(s, c, Running) then At(s, c, Failing) else s
    case Delete(c) => if Is(s, c, Failing) then At(s, c, Failed).(entry := Absent, owner := Nobody) else s
    case Abandon(c) => if c in s.callers && (s.callers[c].Running? || s.callers[c].Ran?) then At(s, c, Abandoned) else s
    case Publish(c) =>
      if c in s.callers && s.callers[c].Ran? then
        var e := Event(s.lifetime, c, s.callers[c].response);
        At(s, c, Answered(e.response)).(entry := Stored(e.response), owner := Nobody,
                                        kept := s.kept + [e], answers := s.answers + [e])
      else s
    case ExpireMarker => if s.entry.Processing? then s.(entry := Absent, owner := Nobody) else s
    case ExpireResponse => if s.entry.Stored? then s.(entry := Absent, lifetime := s.lifetime + 1) else s
  }

  /** Still between the claim and the last write to the entry. */
  predicate Active(p: Progress) {
    p.Running? || p.Ran? || p.Failing?
  }

  /** The marker outlives its owner's work. */
  predicate Timely(s: State, a: Action) {
    a.ExpireMarker? && s.owner.Somebody? && s.owner.caller in s.callers ==> !Active(s.callers[s.owner.caller])
  }

  function Run(s: State, xs: seq<Action>): State
    decreases |xs|
  {
    if xs == [] then s else Run(Step(s, xs[0]), xs[1..])
  }

  predicate AllTimely(s: State, xs: seq<Action>)
    decreases |xs|
  {
    xs != [] ==> Timely(s, xs[0]) && AllTimely(Step(s, xs[0]), xs[1..])
  }

  /** Only the owner of the marker is active, and the marker is there while it is. */
  predicate Exclusive(s: State) {
    && (s.entry.Processing? <==> s.owner.Somebody?)
    && (forall c :: c in s.callers && Active(s.callers[c]) ==> s.owner == Somebody(c))
  }

  /** Kept runs belong to different lifetimes, all over except that of a stored response. */
  predicate OnePerLifetime(s: State) {
    && (forall i, j :: 0 <= i < j < |s.kept| ==> s.kept[i].lifetime < s.kept[j].lifetime)
    && (forall i :: 0 <= i < |s.kept| ==> s.kept[i].lifetime <= s.lifetime)
    && (s.entry.Stored? ==>
          s.kept != [] && s.kept[|s.kept| - 1].lifetime == s.lifetime
          && s.kept[|s.kept| - 1].response == s.entry.response)
    && (!s.entry.Stored? ==> forall i :: 0 <= i < |s.kept| ==> s.kept[i].lifetime < s.lifetime)
  }

  predicate Backed(s: State, a: Event) {
    exists i :: 0 <= i < |s.kept| && s.kept[i].lifetime == a.lifetime && s.kept[i].response == a.response
  }

  /** Every answer repeats the response of the kept run of its lifetime. */
  predicate AnswersBacked(s: State) {
    && (forall k :: 0 <= k < |s.answers| ==> Backed(s, s.answers[k]))
    && (forall c :: c in s.callers && s.callers[c].Answered? ==>
          exists k :: 0 <= k < |s.answers| && s.answers[k].caller == c
                      && s.answers[k].response == s.callers[c].response)
  }

  predicate ReadsLeft(s: State) {
    forall c :: c in s.callers && s.callers[c].Waiting? ==> 1 <= s.callers[c].left <= READS
  }

  predicate Inv(s: State) {
    Exclusive(s) && OnePerLifetime(s) && AnswersBacked(s) && ReadsLeft(s)
  }

  lemma StepExclusive(s: State, a: Action)
    requires Exclusive(s) && Timely(s, a)
    ensures Exclusive(Step(s, a))
  {
  }

  lemma StepReadsLeft(s: State, a: Action)
    requires ReadsLeft(s)
    ensures ReadsLeft(Step(s, a))
  {
  }

  lemma StepOnePerLifetime(s: State, a: Action)
    requires Exclusive(s) && OnePerLifetime(s)
    ensures OnePerLifetime(Step(s, a))
  {
  }

  lemma StepAnswersBacked(s: State, a: Action)
    requires Inv(s)
    ensures AnswersBacked(Step(s, a))
  {
    var n := Step(s, a);
    assert s.kept <= n.kept && s.answers <= n.answers;
    forall k | 0 <= k < |n.answers|
      ensures Backed(n, n.answers[k])
    {
      if k < |s.answers| {
        assert Backed(s, s.answers[k]);
        var i :| 0 <= i < |s.kept| && s.kept[i].lifetime == s.answers[k].lifetime
                 && s.kept[i].response == s.answers[k].response;
        assert n.kept[i] == s.kept[i];
      } else {
        var i := |n.kept| - 1;
        assert n.kept[i].lifetime == n.answers[k].lifetime && n.kept[i].response == n.answers[k].response;
      }
    }
    forall c | c in n.callers && n.callers[c].Answered?
      ensures exists k :: 0 <= k < |n.answers| && n.answers[k].caller == c
                          && n.answers[k].response == n.callers[c].response
    {
      if c in s.callers && s.callers[c] == n.callers[c] {
        var k :| 0 <= k < |s.answers| && s.answers[k].caller == c && s.answers[k].response == s.callers[c].response;
        assert n.answers[k] == s.answers[k];
      } else {
        assert n.answers[|n.answers| - 1].caller == c;
      }
    }
  }

  lemma {:induction false} RunKeeps(s: State, xs: seq<Action>)
    requires Inv(s) && AllTimely(s, xs)
    ensures Inv(Run(s, xs))
    decreases |xs|
  {
    if xs != [] {
      StepExclusive(s, xs[0]);
      StepOnePerLifetime(s, xs[0]);
      StepAnswersBacked(s, xs[0]);
      StepReadsLeft(s, xs[0]);
      RunKeeps(Step(s, xs[0]), xs[1..]);
    }
  }

  /** Idempotency. Whatever the interleaving, as long as no marker expires under its owner:
      at most one caller is ever at work, at most one run is kept per lifetime of a stored
      response, and every caller that is answered gets the response of the kept run of the
      lifetime it was answered in. */
  lemma Idempotent(xs: seq<Action>)
    requires AllTimely(INITIAL, xs)
    ensures var s := Run(INITIAL, xs);
            && (forall c, d :: c in s.callers && d in s.callers && Active(s.callers[c]) && Active(s.callers[d]) ==> c == d)
            && (forall i, j :: 0 <= i < |s.kept| && 0 <= j < |s.kept| && s.kept[i].lifetime == s.kept[j].lifetime ==> i == j)
            && (forall c :: c in s.callers && s.callers[c].Answered? ==>
                  exists k, i :: 0 <= k < |s.answers| && 0 <= i < |s.kept|
                    && s.answers[k].caller == c && s.kept[i].lifetime == s.answers[k].lifetime
                    && s.kept[i].response == s.callers[c].response)
  {
    RunKeeps(INITIAL, xs);
    var s := Run(INITIAL, xs);
    forall c | c in s.callers && s.callers[c].Answered?
      ensures exists k, i :: 0 <= k < |s.answers| && 0 <= i < |s.kept|
                && s.answers[k].caller == c && s.kept[i].lifetime == s.answers[k].lifetime
                && s.kept[i].response == s.callers[c].response
    {
      var k :| 0 <= k < |s.answers| && s.answers[k].caller == c && s.answers[k].response == s.callers[c].response;
      assert Backed(s, s.answers[k]);
      var i :| 0 <= i < |s.kept| && s.kept[i].lifetime == s.answers[k].lifetime
               && s.kept[i].response == s.answers[k].response;
    }
  }

  /** A caller whose use case failed finds its own marker when it deletes the entry: it takes
      away no one else's marker and no stored response. */
  lemma DeletesOwnMarker(xs: seq<Action>, c: Caller)
    requires AllTimely(INITIAL, xs) && Is(Run(INITIAL, xs), c, Failing)
    ensures Run(INITIAL, xs).entry == Processing && Run(INITIAL, xs).owner == Somebody(c)
  {
    RunKeeps(INITIAL, xs);
  }

  /** The same holds of the caller that publishes: it overwrites its own marker only. */
  lemma PublishesOverOwnMarker(xs: seq<Action>, c: Caller)
    requires AllTimely(INITIAL, xs) && c in Run(INITIAL, xs).callers && Run(INITIAL, xs).callers[c].Ran?
    ensures Run(INITIAL, xs).entry == Processing && Run(INITIAL, xs).owner == Somebody(c)
  {
    RunKeeps(INITIAL, xs);
  }

  const EXPIRED := State(Absent, map[1 := Ran(10)], Nobody, 0, [], [])
  const BOTH_RAN := State(Processing, map[1 := Ran(10), 2 := Ran(20)], Somebody(2), 0, [], [])

  /** The proviso is needed: when a marker expires while its owner still works, two callers
      run the use case and both runs are kept in one lifetime. */
  lemma EarlyExpiryRunsTwice()
    ensures var xs := [Claim(1), Succeed(1, 10), ExpireMarker] + ([Claim(2), Succeed(2, 20)] + [Publish(1), Publish(2)]);
            && !AllTimely(INITIAL, xs)
            && Run(INITIAL, xs).kept == [Event(0, 1, 10), Event(0, 2, 20)]
  {
    EarlyExpiry();
    SecondRun();
    BothKept();
    RunAppend(INITIAL, [Claim(1), Succeed(1, 10), ExpireMarker], [Claim(2), Succeed(2, 20)] + [Publish(1), Publish(2)]);
    RunAppend(EXPIRED, [Claim(2), Succeed(2, 20)], [Publish(1), Publish(2)]);
  }

  lemma EarlyExpiry()
    ensures var xs := [Claim(1), Succeed(1, 10), ExpireMarker];
            Run(INITIAL, xs) == EXPIRED && !AllTimely(INITIAL, xs)
  {
    var s1 := State(Processing, map[1 := Running], Somebody(1), 0, [], []);
    var s2 := State(Processing, map[1 := Ran(10)], Somebody(1), 0, [], []);
    var xs := [Claim(1), Succeed(1, 10), ExpireMarker];
    assert xs[1..] == [Succeed(1, 10), ExpireMarker] && xs[1..][1..] == [ExpireMarker];
    assert Step(INITIAL, xs[0]) == s1 && Step(s1, xs[1..][0]) == s2;
    assert !Timely(s2, ExpireMarker) && Step(s2, ExpireMarker) == EXPIRED;
    assert Run(s2, [ExpireMarker]) == Run(EXPIRED, []);
    assert !AllTimely(s2, xs[1..][1..]);
    assert !AllTimely(s1, xs[1..]);
  }

  lemma SecondRun()
    ensures Run(EXPIRED, [Claim(2), Succeed(2, 20)]) == BOTH_RAN
  {
    var xs := [Claim(2), Succeed(2, 20)];
    assert xs[1..] == [Succeed(2, 20)];
    var s := State(Processing, map[1 := Ran(10), 2 := Running], Somebody(2), 0, [], []);
    assert Step(EXPIRED, Claim(2)) == s && Step(s, Succeed(2, 20)) == BOTH_RAN;
    assert Run(s, xs[1..]) == Run(BOTH_RAN, []);
  }

  lemma BothKept()
    ensures Run(BOTH_RAN, [Publish(1), Publish(2)]).kept == [Event(0, 1, 10), Event(0, 2, 20)]
  {
    var xs := [Publish(1), Publish(2)];
    assert xs[1..] == [Publish(2)];
    var s := Step(BOTH_RAN, Publish(1));
    assert s.callers[2] == Ran(20) && s.kept == [Event(0, 1, 10)];
    assert Run(s, xs[1..]) == Run(Step(s, Publish(2)), []);
  }

  lemma {:induction false} RunAppend(s: State, xs: seq<Action>, ys: seq<Action>)
    ensures Run(s, xs + ys) == Run(Run(s, xs), ys)
    ensures AllTimely(s, xs + ys) ==> AllTimely(s, xs)
    decreases |xs|
  {
    if xs == [] {
      assert xs + ys == ys;
    } else {
      assert (xs + ys)[1..] == xs[1..] + ys;
      RunAppend(Step(s, xs[0]), xs[1..], ys);
    }
  }

  function CountReads(xs: seq<Action>, c: Caller): nat {
    if xs == [] then 0 else (if xs[0] == Read(c) then 1 else 0) + CountReads(xs[1..], c)
  }

  /** Some read of the waiting caller finds a stored response. */
  predicate FindsResponse(s: State, xs: seq<Action>, c: Caller)
    decreases |xs|
  {
    xs != []
    && (|| (xs[0] == Read(c) && c in s.callers && s.callers[c].Waiting? && s.entry.Stored?)
        || FindsResponse(Step(s, xs[0]), xs[1..], c))
  }

  /** Waiting is bounded: wherever a run stands and whatever others do meanwhile, 21 reads later
      a waiting caller has been answered or told of the conflict, and answered exactly when one of
      its reads found a stored response. */
  lemma WaitingIsBounded(xs: seq<Action>, ys: seq<Action>, c: Caller)
    requires c in Run(INITIAL, xs).callers && Run(INITIAL, xs).callers[c].Waiting?
    requires CountReads(ys, c) >= 21
    ensures var s := Run(INITIAL, xs);
            var t := Run(s, ys);
            && c in t.callers && (t.callers[c].Answered? || t.callers[c].Conflict?)
            && (t.callers[c].Answered? <==> FindsResponse(s, ys, c))
  {
    RunReadsLeft(INITIAL, xs);
    WaitingEnds(Run(INITIAL, xs), ys, c);
  }

  lemma {:induction false} RunReadsLeft(s: State, xs: seq<Action>)
    requires ReadsLeft(s)
    ensures ReadsLeft(Run(s, xs))
    decreases |xs|
  {
    if xs != [] {
      StepReadsLeft(s, xs[0]);
      RunReadsLeft(Step(s, xs[0]), xs[1..]);
    }
  }

  /** Only its own reads move a waiting caller, and nothing moves one that is done. */
  lemma WaitingMoves(s: State, a: Action, c: Caller)
    requires c in s.callers && (s.callers[c].Waiting? || s.callers[c].Answered? || s.callers[c].Conflict?)
    requires s.callers[c].Waiting? ==> a != Read(c)
    ensures c in Step(s, a).callers && Step(s, a).callers[c] == s.callers[c]
  {
  }

  lemma {:induction false} WaitingEnds(s: State, xs: seq<Action>, c: Caller)
    requires c in s.callers && s.callers[c].Waiting? && 0 < s.callers[c].left <= CountReads(xs, c)
    ensures var t := Run(s, xs);
            && c in t.callers && (t.callers[c].Answered? || t.callers[c].Conflict?)
            && (t.callers[c].Answered? <==> FindsResponse(s, xs, c))
    decreases |xs|
  {
    var t := Step(s, xs[0]);
    if xs[0] != Read(c) {
      WaitingMoves(s, xs[0], c);
      WaitingEnds(t, xs[1..], c);
    } else if t.callers[c].Waiting? {
      WaitingEnds(t, xs[1..], c);
    } else {
      DoneWaiting(t, xs[1..], c);
    }
  }

  lemma {:induction false} DoneWaiting(s: State, xs: seq<Action>, c: Caller)
    requires c in s.callers && (s.callers[c].Answered? || s.callers[c].Conflict?)
    ensures c in Run(s, xs).callers && Run(s, xs).callers[c] == s.callers[c] && !FindsResponse(s, xs, c)
    decreases |xs|
  {
    if xs != [] {
      WaitingMoves(s, xs[0], c);
      DoneWaiting(Step(s, xs[0]), xs[1..], c);
    }
  }

  function Reads(c: Caller, n: nat): (r: seq<Action>)
    ensures |r| == n
  {
    if n == 0 then [] else [Read(c)] + Reads(c, n - 1)
  }

  // ----- what the entry means to a new caller -----

  /** A caller that comes new wins the claim exactly when the entry is gone; a stored response is its
      answer at the first read, and beside a marker it has twenty reads left after that one. */
  lemma NewcomerExactly(s: State, c: Caller)
    requires c !in s.callers
    ensures Is(Step(s, Claim(c)), c, Running) <==> s.entry == Absent
    ensures s.entry == Absent ==> Step(s, Claim(c)).entry == Processing && Step(s, Claim(c)).owner == Somebody(c)
    ensures s.entry != Absent ==> Step(s, Claim(c)).entry == s.entry
    ensures s.entry.Stored? ==> Is(Run(s, [Claim(c), Read(c)]), c, Answered(s.entry.response))
    ensures s.entry == Processing ==> Is(Run(s, [Claim(c), Read(c)]), c, Waiting(20))
  {
    var n := Step(s, Claim(c));
    assert [Claim(c), Read(c)][1..] == [Read(c)] && [Read(c)][1..] == [];
    assert Run(n, [Read(c)]) == Run(Step(n, Read(c)), []);
  }

  /** The entry goes exactly when a caller whose use case failed deletes it or its time is up, and only
      the end of a stored response ends a lifetime. */
  lemma EntryFreedExactly(s: State, a: Action)
    requires s.entry != Absent
    ensures Step(s, a).entry == Absent <==>
              || (a.Delete? && a.c in s.callers && s.callers[a.c] == Failing)
              || (a == ExpireMarker && s.entry == Processing)
              || (a == ExpireResponse && s.entry.Stored?)
    ensures Step(s, a).lifetime == s.lifetime + if a == ExpireResponse && s.entry.Stored? then 1 else 0
  {
  }

  /** In any state, what a caller publishes is what every newcomer is answered, and once a failed
      caller has given the entry free a newcomer runs the use case again. */
  lemma Replay(s: State, c: Caller, d: Caller)
    requires c in s.callers && d !in s.callers
    ensures s.callers[c].Ran? ==> Is(Run(Step(s, Publish(c)), [Claim(d), Read(d)]), d, Answered(s.callers[c].response))
    ensures s.callers[c].Failing? ==> Is(Step(Step(s, Delete(c)), Claim(d)), d, Running)
  {
    if s.callers[c].Ran? {
      NewcomerExactly(Step(s, Publish(c)), d);
    } else if s.callers[c].Failing? {
      NewcomerExactly(Step(s, Delete(c)), d);
    }
  }
}
