// The exclusive cluster lock: a Lease object taken by compare-and-swap, renewed in the
// background, taken over after expiry and deleted by name on release. Any number of clients
// interleave freely over one API server and one clock.
module Lease {
  import opened Options

  const LEASE_SECONDS: int := 60

  datatype LeaseObj = LeaseObj(holder: Option<string>, renewTime: Option<int>, seconds: Option<int>)

  datatype Stored = Absent | Stored(obj: LeaseObj, rv: nat)

  datatype Server = Server(stored: Stored, nextRv: nat)

  // ----- the API server: every write gets a fresh resource version -----

  function Put(sv: Server, obj: LeaseObj): Server {
    Server(Stored(obj, sv.nextRv), sv.nextRv + 1)
  }

  function ServerCreate(sv: Server, obj: LeaseObj): (Server, bool) {
    if sv.stored.Absent? then (Put(sv, obj), true) else (sv, false)
  }

  function ServerUpdate(sv: Server, obj: LeaseObj, rv: nat): (Server, bool) {
    if sv.stored.Stored? && sv.stored.rv == rv then (Put(sv, obj), true) else (sv, false)
  }

  function ServerDelete(sv: Server): Server {
    sv.(stored := Absent)
  }

  // ----- the client's decision -----

  function NewLease(me: string, now: int): LeaseObj {
    LeaseObj(Some(me), Some(now), Some(LEASE_SECONDS))
  }

  predicate Expired(l: LeaseObj, now: int) {
    l.renewTime.Some? && l.seconds.Some? && now > l.renewTime.value + l.seconds.value
  }

  /** leaseHeldByOther: the lease belongs to a different, non-expired holder. */
  predicate HeldByOther(l: LeaseObj, me: string, now: int) {
    l.holder.Some? && l.holder.value != "" && l.holder.value != me && !Expired(l, now)
  }

  datatype ServerWrite = CreateWrite(obj: LeaseObj) | UpdateWrite(obj: LeaseObj, rv: nat) | DeleteWrite

  function Land(sv: Server, w: ServerWrite): Server {
    match w
    case CreateWrite(obj) => ServerCreate(sv, obj).0
    case UpdateWrite(obj, rv) => ServerUpdate(sv, obj, rv).0
    case DeleteWrite => ServerDelete(sv)
  }

  /** The server as an object; `Others` is any sequence of other clients' writes. */
  class LeaseServer {
    var sv: Server

    constructor (sv: Server)
      ensures this.sv == sv
    {
      this.sv := sv;
    }

    ghost predicate Valid()
      reads this
    {
      sv.stored.Stored? ==> sv.stored.rv < sv.nextRv
    }

    method Others(writes: seq<ServerWrite>)
      requires Valid()
      modifies this
      ensures Valid() && sv.nextRv >= old(sv.nextRv)
      ensures sv.stored.Stored? && sv.stored.rv < old(sv.nextRv) ==> sv.stored == old(sv.stored)
    {
      for i := 0 to |writes|
        invariant Valid() && sv.nextRv >= old(sv.nextRv)
        invariant sv.stored.Stored? && sv.stored.rv < old(sv.nextRv) ==> sv.stored == old(sv.stored)
      {
        sv := Land(sv, writes[i]);
      }
    }

    /** One non-blocking attempt, with others writing after our Get. `now` is read before the
        Get, `checked` when the lease is judged, and `before` is the content our write met: the
        lock is taken exactly when the lease read was free and nothing was written since. */
    method AcquireClusterLock(me: string, now: int, getFails: bool, afterGet: seq<ServerWrite>, checked: int)
      returns (acquired: bool, before: Stored)
      requires Valid()
      modifies this
      ensures Valid()
      ensures acquired <==>
                && !getFails && before == old(sv.stored)
                && (before.Absent? || !HeldByOther(before.obj, me, checked))
      ensures acquired ==> sv.stored.Stored? && sv.stored.obj == NewLease(me, now)
      ensures !acquired ==> sv.stored == before
    {
      var existing := sv.stored;
      Others(afterGet);
      before := sv.stored;
      if getFails { return false, before; }
      match existing {
        case Absent =>
          var (sv', created) := ServerCreate(sv, NewLease(me, now));
          sv := sv';
          acquired := created;
        case Stored(obj, rv) =>
          if HeldByOther(obj, me, checked) { return false, before; }
          var (sv', updated) := ServerUpdate(sv, NewLease(me, now), rv);
          sv := sv';
          acquired := updated;
      }
    }
  }

  // ----- every interleaving of every client -----

  datatype Phase =
    | Idle
    | Started(now: int)                               // the clock was read, the Get is next
    | SawNothing(now: int)                            // NotFound: a Create is in flight
    | SawLease(now: int, obj: LeaseObj, rv: nat)      // to be judged
    | SawFree(now: int, rv: nat)                      // judged free: an Update is in flight
    | Refused
    | Holding
    | Releasing                                       // a Delete is in flight
    | Released

  datatype Renewal = Resting | Reread(obj: LeaseObj, rv: nat) | Restamped(obj: LeaseObj, rv: nat)

  datatype Client = Client(alive: bool, phase: Phase, renewal: Renewal)

  datatype State = State(clock: int, sv: Server, clients: map<string, Client>)

  datatype Step =
    | Tick(seconds: nat)
    | Crash(id: string)
    | Begin(id: string)
    | Get(id: string)
    | Judge(id: string)
    | GiveUp(id: string)                             // a request failed and took no effect
    | Write(id: string, replyLost: bool)              // the Create or Update in flight lands
    | RenewGet(id: string)
    | RenewStamp(id: string)
    | RenewPut(id: string)
    | Release(id: string)
    | Delete(id: string, lost: bool)

  predicate Live(s: State, id: string) {
    id in s.clients && s.clients[id].alive && s.clients[id].phase == Holding
  }

  /** A live holder, or a releasing client whose Delete has not arrived yet. */
  predicate Owner(s: State, id: string) {
    Live(s, id) || (id in s.clients && s.clients[id].phase == Releasing)
  }

  function SetClient(s: State, id: string, c: Client): State {
    s.(clients := s.clients[id := c])
  }

  function SetPhase(s: State, id: string, p: Phase): State
    requires id in s.clients
  {
    SetClient(s, id, s.clients[id].(phase := p))
  }

  /** What a step does, wherever it is taken. */
  function Apply(s: State, step: Step): State {
    if step.Tick? then s.(clock := s.clock + step.seconds)
    else if step.id !in s.clients then s
    else
      var me, c := step.id, s.clients[step.id];
      match step
      case Crash(_) => SetClient(s, me, c.(alive := false))
      case Begin(_) => if c.alive && c.phase == Idle then SetPhase(s, me, Started(s.clock)) else s
      case Get(_) =>
        if !c.alive || !c.phase.Started? then s
        else if s.sv.stored.Absent? then SetPhase(s, me, SawNothing(c.phase.now))
        else SetPhase(s, me, SawLease(c.phase.now, s.sv.stored.obj, s.sv.stored.rv))
      case Judge(_) =>
        if !c.alive || !c.phase.SawLease? then s
        else if HeldByOther(c.phase.obj, me, s.clock) then SetPhase(s, me, Refused)
        else SetPhase(s, me, SawFree(c.phase.now, c.phase.rv))
      case GiveUp(_) =>
        if c.phase.Started? || c.phase.SawNothing? || c.phase.SawFree? then SetPhase(s, me, Refused) else s
      case Write(_, replyLost) =>
        if c.phase.SawNothing? || c.phase.SawFree? then
          var (sv', won) := if c.phase.SawNothing? then ServerCreate(s.sv, NewLease(me, c.phase.now))
                            else ServerUpdate(s.sv, NewLease(me, c.phase.now), c.phase.rv);
          SetPhase(s.(sv := sv'), me, if won && !replyLost then Holding else Refused)
        else s
      case RenewGet(_) =>
        if (c.phase == Holding || c.phase == Releasing || c.phase == Released) && c.renewal == Resting
           && s.sv.stored.Stored? && s.sv.stored.obj.holder == Some(me)
        then SetClient(s, me, c.(renewal := Reread(s.sv.stored.obj, s.sv.stored.rv)))
        else s
      case RenewStamp(_) =>
        if c.alive && c.renewal.Reread?
        then SetClient(s, me, c.(renewal := Restamped(c.renewal.obj.(renewTime := Some(s.clock)), c.renewal.rv)))
        else s
      case RenewPut(_) =>
        if c.renewal.Restamped?
        then SetClient(s.(sv := ServerUpdate(s.sv, c.renewal.obj, c.renewal.rv).0), me, c.(renewal := Resting))
        else s
      case Release(_) => if c.alive && c.phase == Holding then SetPhase(s, me, Releasing) else s
      case Delete(_, lost) =>
        if c.phase == Releasing then SetPhase(if lost then s else s.(sv := ServerDelete(s.sv)), me, Released) else s
  }

  /** The timing assumption: an acquire or renew write lands inside the lease it carries, and
      time does not pass the expiry of a lease whose owner is live (it renews before that) or
      whose Delete is still in flight. */
  ghost predicate InTime(s: State, step: Step) {
    match step
    case Tick(d) =>
      forall id :: Owner(s, id) && s.sv.stored.Stored? && s.sv.stored.obj.holder == Some(id) ==>
        !Expired(s.sv.stored.obj, s.clock + d)
    case Write(id, _) =>
      id in s.clients && (s.clients[id].phase.SawNothing? || s.clients[id].phase.SawFree?) ==>
        s.clock <= s.clients[id].phase.now + LEASE_SECONDS
    case RenewPut(id) =>
      id in s.clients && s.clients[id].renewal.Restamped? ==> !Expired(s.clients[id].renewal.obj, s.clock)
    case _ => true
  }

  function Run(s: State, steps: seq<Step>): State {
    if steps == [] then s else Apply(Run(s, steps[..|steps| - 1]), steps[|steps| - 1])
  }

  /** The n-th step of a run is in time. */
  ghost predicate InTimeAt(s: State, steps: seq<Step>, n: nat)
    requires n < |steps|
  {
    InTime(Run(s, steps[..n]), steps[n])
  }

  ghost predicate RunsInTime(s: State, steps: seq<Step>) {
    forall n :: 0 <= n < |steps| ==> InTimeAt(s, steps, n)
  }

  /** Nobody has started; the lease may hold anything left by others. Identities are fresh:
      they embed host, process and start time. */
  ghost predicate Initial(s: State) {
    && (forall id :: id in s.clients ==> id != "" && s.clients[id] == Client(true, Idle, Resting))
    && (s.sv.stored.Stored? ==> s.sv.stored.rv < s.sv.nextRv)
    && (s.sv.stored.Stored? && s.sv.stored.obj.holder.Some? ==> s.sv.stored.obj.holder.value !in s.clients)
  }

  /** What one client knows about the stored lease if its version is still the one it saw. */
  ghost predicate Knows(s: State, id: string, c: Client) {
    var st := s.sv.stored;
    && (match c.phase
        case SawLease(_, obj, rv) => rv < s.sv.nextRv && (st.Stored? && st.rv == rv ==> st.obj == obj)
        case SawFree(_, rv) => rv < s.sv.nextRv && (st.Stored? && st.rv == rv ==> !HeldByOther(st.obj, id, s.clock))
        case _ => true)
    && (match c.renewal
        case Reread(obj, rv) => rv < s.sv.nextRv && obj.holder == Some(id) &&
          (st.Stored? && st.rv == rv ==> st.obj == obj)
        case Restamped(obj, rv) =>
          && rv < s.sv.nextRv && obj.holder == Some(id) && obj.renewTime.Some?
          && (st.Stored? && st.rv == rv ==> st.obj.holder == Some(id) && obj.seconds == st.obj.seconds)
        case _ => true)
  }

  ghost predicate Owns(s: State, id: string) {
    var st := s.sv.stored;
    && st.Stored? && st.obj.holder == Some(id) && st.obj.renewTime.Some? && st.obj.seconds.Some?
    && !Expired(st.obj, s.clock)
  }

  ghost predicate Inv(s: State) {
    && "" !in s.clients
    && (s.sv.stored.Stored? ==> s.sv.stored.rv < s.sv.nextRv)
    && (forall id :: id in s.clients ==> Knows(s, id, s.clients[id]))
    && (forall id :: Owner(s, id) ==> Owns(s, id))
  }

  lemma InvHoldsInitially(s: State)
    requires Initial(s)
    ensures Inv(s)
  {}

  // A step either leaves the server alone, or is one of three kinds of write.

  lemma TickKeepsInv(s: State, d: nat)
    requires Inv(s) && InTime(s, Tick(d))
    ensures Inv(Apply(s, Tick(d)))
  {
    var t := Apply(s, Tick(d));
    assert forall id :: Owner(t, id) ==> Owner(s, id);
    forall id | id in t.clients ensures Knows(t, id, t.clients[id]) { assert Knows(s, id, s.clients[id]); }
  }

  /** Changing one client without touching the server. */
  lemma LocalStepKeepsInv(s: State, t: State, me: string)
    requires Inv(s) && me in s.clients && t == s.(clients := t.clients)
    requires t.clients.Keys == s.clients.Keys && forall id :: id in s.clients && id != me ==>
               t.clients[id] == s.clients[id]
    requires Knows(t, me, t.clients[me]) && (Owner(t, me) ==> Owner(s, me))
    ensures Inv(t)
  {
    forall id | id in t.clients ensures Knows(t, id, t.clients[id]) { assert Knows(s, id, s.clients[id]); }
    assert forall id :: Owner(t, id) ==> Owner(s, id);
  }

  /** A write puts a new version on the server: every other client's remembered version is
      stale from then on, and nobody else may have been an owner. */
  lemma WriteKeepsInv(s: State, t: State, me: string)
    requires Inv(s) && me in s.clients && t.clock == s.clock
    requires t.clients.Keys == s.clients.Keys && forall id :: id in s.clients && id != me ==>
               t.clients[id] == s.clients[id]
    requires t.sv.nextRv >= s.sv.nextRv
    requires t.sv.stored.Absent? || (t.sv.stored.rv == s.sv.nextRv < t.sv.nextRv)
    requires Knows(t, me, t.clients[me]) && (Owner(t, me) ==> Owns(t, me))
    requires forall id :: Owner(s, id) ==> id == me
    ensures Inv(t)
  {
    forall id | id in t.clients ensures Knows(t, id, t.clients[id]) { assert Knows(s, id, s.clients[id]); }
    assert forall id :: Owner(t, id) && id != me ==> Owner(s, id);
  }

  lemma LandingKeepsInv(s: State, me: string, replyLost: bool)
    requires Inv(s) && InTime(s, Write(me, replyLost)) && me in s.clients
    ensures Inv(Apply(s, Write(me, replyLost)))
  {
    var c, t := s.clients[me], Apply(s, Write(me, replyLost));
    assert Knows(s, me, c);
    if c.phase.SawNothing? || c.phase.SawFree? {
      if t.sv == s.sv {
        LocalStepKeepsInv(s, t, me);
      } else {
        forall id | Owner(s, id) ensures id == me { assert Owns(s, id); }
        WriteKeepsInv(s, t, me);
      }
    }
  }

  lemma RenewalKeepsInv(s: State, me: string)
    requires Inv(s) && InTime(s, RenewPut(me)) && me in s.clients
    ensures Inv(Apply(s, RenewPut(me)))
  {
    var c, t := s.clients[me], Apply(s, RenewPut(me));
    assert Knows(s, me, c);
    if c.renewal.Restamped? {
      if t.sv == s.sv {
        LocalStepKeepsInv(s, t, me);
      } else {
        forall id | Owner(s, id) ensures id == me { assert Owns(s, id); }
        assert Owner(t, me) ==> Owner(s, me);
        assert Owner(s, me) ==> Owns(s, me);
        WriteKeepsInv(s, t, me);
      }
    }
  }

  lemma DeleteKeepsInv(s: State, me: string, lost: bool)
    requires Inv(s) && me in s.clients
    ensures Inv(Apply(s, Delete(me, lost)))
  {
    var t := Apply(s, Delete(me, lost));
    if s.clients[me].phase == Releasing {
      assert Owner(s, me);
      if t.sv == s.sv {
        LocalStepKeepsInv(s, t, me);
      } else {
        forall id | Owner(s, id) ensures id == me { assert Owns(s, id) && Owns(s, me); }
        WriteKeepsInv(s, t, me);
      }
    }
  }

  predicate IsAcquireStep(step: Step) {
    step.Begin? || step.Get? || step.Judge? || step.GiveUp?
  }

  lemma AcquireStepKeepsInv(s: State, step: Step)
    requires Inv(s) && IsAcquireStep(step) && step.id in s.clients
    ensures Inv(Apply(s, step))
  {
    assert Knows(s, step.id, s.clients[step.id]);
    var t := Apply(s, step);
    assert t == s || t == SetPhase(s, step.id, t.clients[step.id].phase);
    LocalStepKeepsInv(s, t, step.id);
  }

  lemma OtherLocalStepKeepsInv(s: State, step: Step)
    requires Inv(s) && (step.Crash? || step.RenewGet? || step.RenewStamp? || step.Release?) && step.id in s.clients
    ensures Inv(Apply(s, step))
  {
    assert Knows(s, step.id, s.clients[step.id]);
    var t := Apply(s, step);
    assert t == s || t == SetClient(s, step.id, t.clients[step.id]);
    LocalStepKeepsInv(s, t, step.id);
  }

  /** Every step taken in time keeps the invariant. */
  lemma StepKeepsInv(s: State, step: Step)
    requires Inv(s) && InTime(s, step)
    ensures Inv(Apply(s, step))
  {
    match step
    case Tick(d) => TickKeepsInv(s, d);
    case Write(me, replyLost) => if me in s.clients { LandingKeepsInv(s, me, replyLost); }
    case RenewPut(me) => if me in s.clients { RenewalKeepsInv(s, me); }
    case Delete(me, lost) => if me in s.clients { DeleteKeepsInv(s, me, lost); }
    case _ =>
      if step.id in s.clients {
        if IsAcquireStep(step) { AcquireStepKeepsInv(s, step); } else { OtherLocalStepKeepsInv(s, step); }
      }
  }

  lemma {:induction false} RunKeepsInv(s: State, steps: seq<Step>)
    requires Inv(s) && RunsInTime(s, steps)
    ensures Inv(Run(s, steps))
  {
    if steps != [] {
      var init := steps[..|steps| - 1];
      forall n | 0 <= n < |init| ensures InTimeAt(s, init, n) {
        assert init[..n] == steps[..n] && InTimeAt(s, steps, n);
      }
      RunKeepsInv(s, init);
      assert InTimeAt(s, steps, |init|);
      StepKeepsInv(Run(s, init), steps[|steps| - 1]);
    }
  }

  /** Mutual exclusion: at the end of every run of any number of clients, at most one live
      client holds the lock, and the unexpired lease on the server names it. */
  lemma AtMostOneLiveHolder(s: State, steps: seq<Step>, a: string, b: string)
    requires Initial(s) && RunsInTime(s, steps)
    requires Live(Run(s, steps), a) && Live(Run(s, steps), b)
    ensures a == b && Owns(Run(s, steps), a)
  {
    InvHoldsInitially(s);
    RunKeepsInv(s, steps);
    assert Owner(Run(s, steps), a) && Owner(Run(s, steps), b);
    assert Owns(Run(s, steps), a) && Owns(Run(s, steps), b);
  }

  // ----- runs in pieces -----

  lemma RunSnoc(s: State, steps: seq<Step>, step: Step)
    ensures Run(s, steps + [step]) == Apply(Run(s, steps), step)
  {
    assert (steps + [step])[..|steps|] == steps;
  }

  lemma {:induction false} RunConcat(s: State, first: seq<Step>, second: seq<Step>)
    ensures Run(s, first + second) == Run(Run(s, first), second)
  {
    if second == [] {
      assert first + second == first;
    } else {
      var init, last := second[..|second| - 1], second[|second| - 1];
      RunConcat(s, first, init);
      RunSnoc(s, first + init, last);
      assert first + second == first + init + [last];
    }
  }

  /** A step is in time in its part exactly when it is in the whole. */
  lemma InTimeEarlier(s: State, first: seq<Step>, second: seq<Step>, n: nat)
    requires n < |first|
    ensures InTimeAt(s, first + second, n) <==> InTimeAt(s, first, n)
  {
    assert (first + second)[..n] == first[..n];
  }

  lemma InTimeLater(s: State, first: seq<Step>, second: seq<Step>, n: nat)
    requires |first| <= n < |first + second|
    ensures InTimeAt(s, first + second, n) <==> InTimeAt(Run(s, first), second, n - |first|)
  {
    var tail := second[..n - |first|];
    assert (first + second)[..n] == first + tail;
    RunConcat(s, first, tail);
  }

  lemma InTimeConcat(s: State, first: seq<Step>, second: seq<Step>)
    requires RunsInTime(s, first) && RunsInTime(Run(s, first), second)
    ensures RunsInTime(s, first + second)
  {
    forall n | 0 <= n < |first + second| ensures InTimeAt(s, first + second, n) {
      InTimeInPart(s, first, second, n);
    }
  }

  lemma InTimeInPart(s: State, first: seq<Step>, second: seq<Step>, n: nat)
    requires n < |first + second|
    requires n < |first| ==> InTimeAt(s, first, n)
    requires n >= |first| ==> InTimeAt(Run(s, first), second, n - |first|)
    ensures InTimeAt(s, first + second, n)
  {
    if n < |first| { InTimeEarlier(s, first, second, n); } else { InTimeLater(s, first, second, n); }
  }

  /** The run of both parts, by what is known of each. */
  lemma Then(s: State, first: seq<Step>, t: State, second: seq<Step>, u: State)
    requires Run(s, first) == t && RunsInTime(s, first) && Run(t, second) == u && RunsInTime(t, second)
    ensures Run(s, first + second) == u && RunsInTime(s, first + second)
  {
    RunConcat(s, first, second);
    InTimeConcat(s, first, second);
  }

  lemma OneStepRuns(s: State, step: Step)
    ensures Run(s, [step]) == Apply(s, step)
    ensures RunsInTime(s, [step]) <==> InTime(s, step)
  {
    assert [step][..0] == [];
    assert InTimeAt(s, [step], 0) <==> InTime(s, step);
  }

  // ----- whole attempts -----

  /** One acquisition when there is no lease, and one when there is a lease to judge. */
  function Create(me: string): seq<Step> {
    [Begin(me), Get(me), Write(me, false)]
  }

  function TakeOver(me: string): seq<Step> {
    [Begin(me), Get(me), Judge(me), Write(me, false)]
  }

  predicate AtRest(s: State, id: string) {
    id in s.clients && s.clients[id] == Client(true, Idle, Resting)
  }

  function Won(s: State, me: string): State
    requires me in s.clients
  {
    SetPhase(s.(sv := Put(s.sv, NewLease(me, s.clock))), me, Holding)
  }

  lemma Seen(s: State, me: string) returns (t: State)
    requires AtRest(s, me)
    ensures t == Run(s, [Begin(me), Get(me)]) && RunsInTime(s, [Begin(me), Get(me)])
    ensures t == SetPhase(s, me, if s.sv.stored.Absent? then SawNothing(s.clock)
                                 else SawLease(s.clock, s.sv.stored.obj, s.sv.stored.rv))
  {
    var begun := Apply(s, Begin(me));
    assert begun == SetPhase(s, me, Started(s.clock));
    t := Apply(begun, Get(me));
    OneStepRuns(s, Begin(me));
    OneStepRuns(begun, Get(me));
    Then(s, [Begin(me)], begun, [Get(me)], t);
    assert [Begin(me)] + [Get(me)] == [Begin(me), Get(me)];
  }

  /** The write in flight lands on the lease it was prepared for. */
  lemma WriteWins(s: State, me: string, phase: Phase)
    requires me in s.clients && s.clients[me].alive
    requires phase == if s.sv.stored.Absent? then SawNothing(s.clock) else SawFree(s.clock, s.sv.stored.rv)
    ensures Apply(SetPhase(s, me, phase), Write(me, false)) == Won(s, me)
    ensures InTime(SetPhase(s, me, phase), Write(me, false))
  {}

  lemma CreateRuns(s: State, me: string)
    requires AtRest(s, me) && s.sv.stored.Absent?
    ensures Run(s, Create(me)) == Won(s, me) && RunsInTime(s, Create(me))
  {
    var t := Seen(s, me);
    WriteWins(s, me, SawNothing(s.clock));
    OneStepRuns(t, Write(me, false));
    Then(s, [Begin(me), Get(me)], t, [Write(me, false)], Won(s, me));
    assert [Begin(me), Get(me)] + [Write(me, false)] == Create(me);
  }

  lemma JudgedFree(s: State, me: string)
    requires AtRest(s, me) && s.sv.stored.Stored? && Expired(s.sv.stored.obj, s.clock)
    ensures Run(s, [Begin(me), Get(me), Judge(me)]) == SetPhase(s, me, SawFree(s.clock, s.sv.stored.rv))
    ensures RunsInTime(s, [Begin(me), Get(me), Judge(me)])
  {
    var t := Seen(s, me);
    OneStepRuns(t, Judge(me));
    Then(s, [Begin(me), Get(me)], t, [Judge(me)], Apply(t, Judge(me)));
    assert [Begin(me), Get(me)] + [Judge(me)] == [Begin(me), Get(me), Judge(me)];
  }

  lemma TakeOverRuns(s: State, me: string)
    requires AtRest(s, me) && s.sv.stored.Stored? && Expired(s.sv.stored.obj, s.clock)
    ensures Run(s, TakeOver(me)) == Won(s, me) && RunsInTime(s, TakeOver(me))
  {
    var judged := [Begin(me), Get(me), Judge(me)];
    JudgedFree(s, me);
    var t := SetPhase(s, me, SawFree(s.clock, s.sv.stored.rv));
    WriteWins(s, me, SawFree(s.clock, s.sv.stored.rv));
    OneStepRuns(t, Write(me, false));
    Then(s, judged, t, [Write(me, false)], Won(s, me));
    assert judged + [Write(me, false)] == TakeOver(me);
  }

  // ----- a holder's renewal -----

  predicate By(step: Step, id: string) {
    !step.Tick? && step.id == id
  }

  ghost predicate NoneBy(steps: seq<Step>, id: string) {
    forall n :: 0 <= n < |steps| ==> !By(steps[n], id)
  }

  /** In time, nobody else writes to the lease of a live holder. */
  lemma OthersLeaveTheLease(s: State, step: Step, me: string)
    requires Inv(s) && InTime(s, step) && Owner(s, me) && !By(step, me)
    ensures Apply(s, step).sv == s.sv
    ensures me in Apply(s, step).clients && Apply(s, step).clients[me] == s.clients[me]
  {
    assert Owns(s, me);
    if !step.Tick? && step.id in s.clients {
      assert Knows(s, step.id, s.clients[step.id]);
      assert Owner(s, step.id) ==> Owns(s, step.id);
    }
  }

  lemma {:induction false} OthersLeaveTheHolder(s: State, steps: seq<Step>, me: string)
    requires Inv(s) && RunsInTime(s, steps) && Owner(s, me) && NoneBy(steps, me)
    ensures Run(s, steps).sv == s.sv && Inv(Run(s, steps))
    ensures me in Run(s, steps).clients && Run(s, steps).clients[me] == s.clients[me]
  {
    if steps != [] {
      var init := steps[..|steps| - 1];
      forall n | 0 <= n < |init| ensures InTimeAt(s, init, n) && !By(init[n], me) {
        assert init[..n] == steps[..n] && InTimeAt(s, steps, n) && !By(steps[n], me);
      }
      OthersLeaveTheHolder(s, init, me);
      assert InTimeAt(s, steps, |init|) && !By(steps[|init|], me);
      OthersLeaveTheLease(Run(s, init), steps[|init|], me);
      StepKeepsInv(Run(s, init), steps[|init|]);
    }
  }

  /** The two local steps of a renewal, while the lease names the holder. */
  lemma RenewalStarts(s: State, me: string)
    requires Inv(s) && Live(s, me) && s.clients[me].renewal == Resting
    ensures var read := Apply(s, RenewGet(me));
            && s.sv.stored.Stored? && Owns(s, me) && Inv(read) && Live(read, me) && read.sv == s.sv
            && read.clients[me].renewal == Reread(s.sv.stored.obj, s.sv.stored.rv)
  {
    assert Owner(s, me) && Owns(s, me);
    StepKeepsInv(s, RenewGet(me));
  }

  lemma RenewalIsStamped(s: State, me: string, obj: LeaseObj, rv: nat)
    requires Inv(s) && Live(s, me) && s.clients[me].renewal == Reread(obj, rv)
    ensures var stamped := Apply(s, RenewStamp(me));
            && Inv(stamped) && Live(stamped, me) && stamped.sv == s.sv
            && stamped.clients[me].renewal == Restamped(obj.(renewTime := Some(s.clock)), rv)
  {
    StepKeepsInv(s, RenewStamp(me));
  }

  lemma RenewalLands(s: State, me: string, obj: LeaseObj, rv: nat)
    requires Live(s, me) && s.clients[me].renewal == Restamped(obj, rv) && s.sv.stored.Stored? && s.sv.stored.rv == rv
    ensures var renewed := Apply(s, RenewPut(me));
            && renewed.sv == Put(s.sv, obj) && Live(renewed, me) && renewed.clients[me].renewal == Resting
  {}

  /** However many steps of others come between, a live holder's renewal lands, and from then on
      the lease expires its duration after the moment it was stamped. */
  lemma RenewalMovesTheExpiry(s: State, me: string, a: seq<Step>, b: seq<Step>)
    requires Inv(s) && Live(s, me) && s.clients[me].renewal == Resting && NoneBy(a, me) && NoneBy(b, me)
    requires RunsInTime(Apply(s, RenewGet(me)), a)
    requires RunsInTime(Apply(Run(Apply(s, RenewGet(me)), a), RenewStamp(me)), b)
    ensures s.sv.stored.Stored?
    ensures var stamping := Run(Apply(s, RenewGet(me)), a);
            var renewed := Apply(Run(Apply(stamping, RenewStamp(me)), b), RenewPut(me));
            var lease := s.sv.stored.obj;
            && renewed.sv.stored.Stored?
            && renewed.sv.stored.obj == lease.(renewTime := Some(stamping.clock))
            && lease.seconds.Some? && lease.holder == Some(me)
            && Live(renewed, me) && renewed.clients[me].renewal == Resting
            && forall now :: Expired(renewed.sv.stored.obj, now) <==> now > stamping.clock + lease.seconds.value
  {
    RenewalStarts(s, me);
    var read, lease, rv := Apply(s, RenewGet(me)), s.sv.stored.obj, s.sv.stored.rv;
    OthersLeaveTheHolder(read, a, me);
    var stamping := Run(read, a);
    RenewalIsStamped(stamping, me, lease, rv);
    var stamped := Apply(stamping, RenewStamp(me));
    OthersLeaveTheHolder(stamped, b, me);
    RenewalLands(Run(stamped, b), me, lease.(renewTime := Some(stamping.clock)), rv);
  }

  // ----- when a lease can be taken over -----

  /** One attempt on a stored lease takes the lock exactly when the lease names nobody else, or
      names its duration and ran out. */
  lemma TakeOverWinsIff(s: State, me: string)
    requires AtRest(s, me) && s.sv.stored.Stored?
    ensures var lease := s.sv.stored.obj;
            Live(Run(s, TakeOver(me)), me) <==>
              || lease.holder == None || lease.holder == Some("") || lease.holder == Some(me)
              || (lease.renewTime.Some? && lease.seconds.Some? &&
                  s.clock > lease.renewTime.value + lease.seconds.value)
    ensures Live(Run(s, TakeOver(me)), me) ==> Run(s, TakeOver(me)) == Won(s, me)
  {
    var seen := [Begin(me), Get(me)];
    var t := Seen(s, me);
    var u := Apply(t, Judge(me));
    RunSnoc(s, seen, Judge(me));
    RunSnoc(s, seen + [Judge(me)], Write(me, false));
    assert seen + [Judge(me)] + [Write(me, false)] == TakeOver(me);
    if !HeldByOther(s.sv.stored.obj, me, s.clock) {
      assert u == SetPhase(s, me, SawFree(s.clock, s.sv.stored.rv));
      WriteWins(s, me, SawFree(s.clock, s.sv.stored.rv));
    }
  }

  /** A lock just taken keeps everyone else out for exactly sixty seconds, if it is not renewed. */
  lemma TakenForAMinute(s: State, me: string, you: string, waited: nat)
    requires me in s.clients && AtRest(s, you) && you != me && me != ""
    ensures Live(Run(Apply(Won(s, me), Tick(waited)), TakeOver(you)), you) <==> waited > 60
  {
    TakeOverWinsIff(Apply(Won(s, me), Tick(waited)), you);
  }

  // ----- a crashed holder does not block the cluster -----

  /** When the lease was left behind by a client that is not alive, any idle client can still
      take the lock, by waiting out the expiry and making one attempt. */
  lemma CrashedHolderIsTakenOver(s: State, me: string) returns (steps: seq<Step>)
    requires AtRest(s, me) && forall id :: !Owner(s, id)
    requires s.sv.stored.Stored? && s.sv.stored.obj.renewTime.Some? && s.sv.stored.obj.seconds.Some?
    ensures RunsInTime(s, steps) && Live(Run(s, steps), me)
  {
    var expiry := s.sv.stored.obj.renewTime.value + s.sv.stored.obj.seconds.value;
    var wait: nat := if s.clock > expiry then 0 else expiry + 1 - s.clock;
    var waited := Apply(s, Tick(wait));
    OneStepRuns(s, Tick(wait));
    TakeOverRuns(waited, me);
    steps := [Tick(wait)] + TakeOver(me);
    Then(s, [Tick(wait)], waited, TakeOver(me), Won(waited, me));
  }

  // ----- the timing assumption is needed -----

  /** Release deletes by name without checking the holder. If the Delete of `a` arrives after its
      lease ran out, it removes the lease `b` took over, and `c` gets in beside `b`. */
  function BeforeLate(a: string): seq<Step> {
    Create(a) + [Release(a)]
  }

  function AfterLate(a: string, b: string, c: string): seq<Step> {
    TakeOver(b) + [Delete(a, false)] + Create(c)
  }

  function LateDelete(a: string, b: string, c: string): seq<Step> {
    BeforeLate(a) + [Tick(LEASE_SECONDS + 1)] + AfterLate(a, b, c)
  }

  predicate Distinct(a: string, b: string, c: string) {
    a != b && b != c && a != c
  }

  /** From any state in which the lease of a releasing client ran out, two others can get in, each
      of their steps and the Delete in time. */
  lemma ExpiredReleaseLetsTwoIn(s: State, a: string, b: string, c: string)
    requires a in s.clients && s.clients[a].phase == Releasing && AtRest(s, b) && AtRest(s, c) && Distinct(a, b, c)
    requires s.sv.stored.Stored? && Expired(s.sv.stored.obj, s.clock)
    ensures RunsInTime(s, AfterLate(a, b, c))
    ensures Live(Run(s, AfterLate(a, b, c)), b) && Live(Run(s, AfterLate(a, b, c)), c)
  {
    TakeOverRuns(s, b);
    var taken := Won(s, b);
    OneStepRuns(taken, Delete(a, false));
    var gone := Apply(taken, Delete(a, false));
    assert gone == SetPhase(taken.(sv := ServerDelete(taken.sv)), a, Released);
    CreateRuns(gone, c);
    Then(s, TakeOver(b), taken, [Delete(a, false)], gone);
    Then(s, TakeOver(b) + [Delete(a, false)], gone, Create(c), Won(gone, c));
  }

  /** A client takes the free lock and sends its Delete. */
  lemma ReleaseInFlight(s: State, a: string)
    requires AtRest(s, a) && s.sv.stored.Absent?
    ensures Run(s, BeforeLate(a)) == SetPhase(Won(s, a), a, Releasing) && RunsInTime(s, BeforeLate(a))
  {
    CreateRuns(s, a);
    ReleaseSends(s, a);
    Then(s, Create(a), Won(s, a), [Release(a)], SetPhase(Won(s, a), a, Releasing));
  }

  lemma ReleaseSends(s: State, a: string)
    requires AtRest(s, a)
    ensures Run(Won(s, a), [Release(a)]) == SetPhase(Won(s, a), a, Releasing)
    ensures RunsInTime(Won(s, a), [Release(a)])
  {
    OneStepRuns(Won(s, a), Release(a));
  }

  /** With the clock allowed past the expiry while a Delete is in flight, two clients hold: for any
      three clients of any initial state without a lease, and with that tick the only step of the
      run that is not in time. */
  lemma LateDeleteBreaksExclusion(s: State, a: string, b: string, c: string)
    requires Initial(s) && s.sv.stored.Absent? && Distinct(a, b, c)
    requires a in s.clients && b in s.clients && c in s.clients
    ensures var steps := LateDelete(a, b, c);
            && Live(Run(s, steps), b) && Live(Run(s, steps), c)
            && steps[4] == Tick(LEASE_SECONDS + 1)
            && forall n :: 0 <= n < |steps| ==> (InTimeAt(s, steps, n) <==> n != 4)
  {
    var first, tick, rest := BeforeLate(a), Tick(LEASE_SECONDS + 1), AfterLate(a, b, c);
    ReleaseInFlight(s, a);
    var sent := Run(s, first);
    assert Owner(sent, a) && !InTime(sent, tick);
    var late := Apply(sent, tick);
    ExpiredReleaseLetsTwoIn(late, a, b, c);
    RunSnoc(s, first, tick);
    RunConcat(s, first + [tick], rest);
    OnlyLateAt(s, first, tick, rest);
  }

  lemma OnlyLateAt(s: State, first: seq<Step>, step: Step, rest: seq<Step>)
    requires RunsInTime(s, first) && !InTime(Run(s, first), step) && RunsInTime(Apply(Run(s, first), step), rest)
    ensures var steps := first + [step] + rest;
            forall n :: 0 <= n < |steps| ==> (InTimeAt(s, steps, n) <==> n != |first|)
  {
    var steps := first + [step] + rest;
    RunSnoc(s, first, step);
    forall n | 0 <= n < |steps| ensures InTimeAt(s, steps, n) <==> n != |first| {
      LateAt(s, first, step, rest, n);
    }
  }

  lemma LateAt(s: State, first: seq<Step>, step: Step, rest: seq<Step>, n: nat)
    requires RunsInTime(s, first) && !InTime(Run(s, first), step) && RunsInTime(Run(s, first + [step]), rest)
    requires n < |first| + 1 + |rest|
    ensures InTimeAt(s, first + [step] + rest, n) <==> n != |first|
  {
    if n <= |first| {
      InTimeEarlier(s, first + [step], rest, n);
      if n < |first| {
        InTimeEarlier(s, first, [step], n);
      } else {
        assert (first + [step])[..n] == first;
      }
    } else {
      InTimeLater(s, first + [step], rest, n);
    }
  }
}
