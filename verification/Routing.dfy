/** Reservations and waiting of routed requests; any number of handlers interleave, lock by lock. */
module Routing {
  datatype Admission = Handled | Busy | Unfit

  datatype Outcome = Served | Gone | NeedsName | TooLarge | EveryModelUnfit | UnknownModel | Unavailable | QueueFull

  /** Where a request's handler stands. */
  datatype Point = Begin | Scan(i: nat) | Trying(i: nat) | Scanned | Waiting | Done(outcome: Outcome)

  /** The local variables of a handler. */
  datatype Request = Request(countOnly: bool, requested: string, at: Point, known: bool, waiting: bool, unfit: set<nat>) {
    /** It holds a slot of model `m`. */
    predicate Holds(m: nat) { at == Trying(m) && !countOnly }
  }

  function Reserved(rs: seq<Request>, m: nat): nat {
    if rs == [] then 0 else Reserved(rs[..|rs| - 1], m) + if rs[|rs| - 1].Holds(m) then 1 else 0
  }

  function Waiters(rs: seq<Request>): nat {
    if rs == [] then 0 else Waiters(rs[..|rs| - 1]) + if rs[|rs| - 1].waiting then 1 else 0
  }

  lemma {:induction false} ReservedUpdate(rs: seq<Request>, k: nat, r: Request, m: nat)
    requires k < |rs|
    ensures Reserved(rs[k := r], m) + (if rs[k].Holds(m) then 1 else 0) == Reserved(rs, m) + if r.Holds(m) then 1 else 0
  {
    var n := |rs| - 1;
    if k < n {
      ReservedUpdate(rs[..n], k, r, m);
      assert rs[k := r][..n] == rs[..n][k := r];
    } else {
      assert rs[k := r][..n] == rs[..n];
    }
  }

  lemma {:induction false} WaitersUpdate(rs: seq<Request>, k: nat, r: Request)
    requires k < |rs|
    ensures Waiters(rs[k := r]) + (if rs[k].waiting then 1 else 0) == Waiters(rs) + if r.waiting then 1 else 0
  {
    var n := |rs| - 1;
    if k < n {
      WaitersUpdate(rs[..n], k, r);
      assert rs[k := r][..n] == rs[..n][k := r];
    } else {
      assert rs[k := r][..n] == rs[..n];
    }
  }

  lemma {:induction false} Appended(rs: seq<Request>, r: Request)
    requires !r.at.Trying? && !r.waiting
    ensures Waiters(rs + [r]) == Waiters(rs) && forall m: nat :: Reserved(rs + [r], m) == Reserved(rs, m)
  {
    assert (rs + [r])[..|rs|] == rs;
  }

  /** The indices of `n` models. */
  function Below(n: nat): (s: set<nat>)
    ensures |s| == n && forall m: nat :: m in s <==> m < n
  {
    if n == 0 then {} else Below(n - 1) + {n - 1}
  }

  lemma {:induction false} FullSet(s: set<nat>, n: nat)
    requires (forall m :: m in s ==> m < n) && |s| == n
    ensures forall m :: 0 <= m < n ==> m in s
  {
    if s != Below(n) {
      SmallerSet(s, Below(n));
    }
  }

  lemma SmallerSet(a: set<nat>, b: set<nat>)
    requires a < b
    ensures |a| < |b|
  {
    var d := b - a;
    assert b == a + d && d != {};
    assert |b| == |a| + |d|;
  }

  /** One step: a request arrives, the server is shut down, or handler `k` goes on, finding its client gone or not and getting an answer. */
  datatype Op = Arrival(countOnly: bool, requested: string) | Shut | Step(k: nat, gone: bool, admission: Admission)

  /** All that the handlers share, at one moment. */
  datatype World = World(requests: seq<Request>, inFlight: seq<nat>, waiters: nat, stopping: bool)

  /** The handler after the answer of the model it tries. */
  function AnsweredWith(r: Request, admission: Admission): Request
    requires r.at.Trying?
  {
    match admission
    case Handled => r.(at := Done(Served))
    case Busy => r.(at := Scan(r.at.i + 1))
    case Unfit => if r.countOnly then r.(at := Done(TooLarge)) else r.(at := Scan(r.at.i + 1), unfit := r.unfit + {r.at.i})
  }

  /** In step `n` request `k`, trying model `m`, was told by it that it does not fit. */
  predicate ToldUnfit(ops: seq<Op>, trace: seq<World>, n: nat, k: nat, m: nat) {
    && n < |ops| && n < |trace| && k < |trace[n].requests|
    && ops[n].Step? && ops[n].k == k && ops[n].admission.Unfit? && trace[n].requests[k].at == Trying(m)
  }

  ghost predicate WasTold(ops: seq<Op>, trace: seq<World>, k: nat, m: nat) {
    exists n :: ToldUnfit(ops, trace, n, k, m)
  }

  class Router {
    const names: seq<string>
    const capacity: seq<nat>
    const queueLimit: nat
    const inFlight: array<nat>
    var waiters: nat
    var stopping: bool
    var requests: seq<Request>

    constructor (names: seq<string>, capacity: seq<nat>, queueLimit: nat)
      requires |names| == |capacity|
      ensures Valid() && requests == [] && fresh(inFlight)
    {
      this.names, this.capacity, this.queueLimit := names, capacity, queueLimit;
      inFlight := new nat[|names|](i => 0);
      waiters, stopping, requests := 0, false, [];
    }

    /** Slots taken are slots held, within capacity; the waiting count is the requests waiting, within its limit. */
    ghost predicate Valid()
      reads this, inFlight
    {
      && |names| == |capacity| == inFlight.Length
      && (forall m :: 0 <= m < inFlight.Length ==> inFlight[m] == Reserved(requests, m) && inFlight[m] <= capacity[m])
      && waiters == Waiters(requests) && waiters <= queueLimit
      && (forall k :: 0 <= k < |requests| ==> RequestOk(requests[k]))
    }

    ghost function Now(): World
      reads this, inFlight
    {
      World(requests, inFlight[..], waiters, stopping)
    }

    /** The same of a moment. */
    ghost predicate Sound(w: World) {
      && |w.inFlight| == |names| == |capacity|
      && (forall m :: 0 <= m < |names| ==> w.inFlight[m] == Reserved(w.requests, m) && w.inFlight[m] <= capacity[m])
      && w.waiters == Waiters(w.requests) && w.waiters <= queueLimit
    }

    lemma NowIsSound()
      requires Valid()
      ensures Sound(Now())
    {
    }

    // ── What the steps of a run do ──

    /** What one step changes: a request arrives, the server stops, or handler `k` goes on, and nobody else. */
    ghost predicate Legal(before: World, op: Op, after: World) {
      match op
      case Arrival(countOnly, requested) =>
        && after.requests == before.requests + [Request(countOnly, requested,
             if countOnly && requested in {"", "auto"} then Done(NeedsName) else Begin, false, false, {})]
        && after.stopping == before.stopping
      case Shut => after.requests == before.requests && after.stopping
      case Step(k, gone, admission) =>
        && after.stopping == before.stopping
        && if k >= |before.requests| then after.requests == before.requests else
           && |after.requests| == |before.requests| && after.requests == before.requests[k := after.requests[k]]
           && Follows(before, before.requests[k], gone, admission, after.requests[k])
    }

    /** A model a counting request names, or any for another. */
    predicate Matches(r: Request, i: nat)
      requires i < |names|
    {
      !r.countOnly || names[i] == r.requested
    }

    /** The model the scan has come to may be tried. */
    predicate MayTry(w: World, r: Request)
      requires r.at.Scan?
    {
      var i := r.at.i;
      && i < |names| && i < |w.inFlight| && i < |capacity|
      && Matches(r, i) && !w.stopping && i !in r.unfit && (r.countOnly || w.inFlight[i] < capacity[i])
    }

    /**
     How a handler goes on: a model is tried where the scan has come to it exactly if it may be; otherwise the
     scan moves on, or ends with the last model or where the server is found stopping; its answer ends the
     handler or moves the scan on; after the scan the handler ends or waits.
     */
    ghost predicate Follows(w: World, r: Request, gone: bool, admission: Admission, after: Request) {
      match r.at
      case Begin =>
        after == if gone then r.(at := Done(Gone), waiting := false) else r.(at := Scan(0), known := !r.countOnly)
      case Scan(i) =>
        if MayTry(w, r) then after == r.(at := Trying(i), known := true, waiting := false)
        else after == r.(at := if i >= |names| || (Matches(r, i) && i !in r.unfit && w.stopping) then Scanned else Scan(i + 1),
                         known := r.known || (i < |names| && Matches(r, i)))
      case Trying(_) => after == AnsweredWith(r, admission)
      case Scanned =>
        var rejected := |r.unfit| == |names|;
        && after == r.(at := after.at, waiting := after.at.Waiting?)
        && (after.at == Done(EveryModelUnfit) <==> rejected)
        && (after.at == Done(UnknownModel) <==> !rejected && !r.known)
        && (after.at == Done(Unavailable) <==> !rejected && r.known && (r.countOnly || w.stopping))
        && (after.at == Done(QueueFull) <==> !rejected && r.known && !r.countOnly && !w.stopping && !r.waiting && w.waiters >= queueLimit)
        && (after.at.Done? ==> after.at.outcome in {EveryModelUnfit, UnknownModel, Unavailable, QueueFull}) && (after.at.Done? || after.at.Waiting?)
      case Waiting =>
        after == if gone then r.(at := Done(Gone), waiting := false) else r.(at := Begin)
      case Done(_) => after == r
    }

    /** `trace` holds what the handlers share before and after each step. */
    ghost predicate Traced(ops: seq<Op>, trace: seq<World>) {
      |trace| == |ops| + 1 && trace[0].requests == [] && forall n :: 0 <= n < |ops| ==> LegalAt(ops, trace, n)
    }

    ghost predicate LegalAt(ops: seq<Op>, trace: seq<World>, n: nat) {
      n < |ops| && n + 1 < |trace| && Legal(trace[n], ops[n], trace[n + 1]) && Sound(trace[n + 1])
    }

    /** A model counts as unfit only after it said so. */
    lemma {:induction false} UnfitWasTold(ops: seq<Op>, trace: seq<World>, n: nat, k: nat, m: nat)
      requires Traced(ops, trace) && n <= |ops| && k < |trace[n].requests| && m in trace[n].requests[k].unfit
      ensures WasTold(ops, trace, k, m)
    {
      hide Sound, MayTry;
      assert LegalAt(ops, trace, n - 1);
      var before, op := trace[n - 1].requests, ops[n - 1];
      assert op.Arrival? && k < |before| ==> before[k] == trace[n].requests[k];
      if k < |before| && m in before[k].unfit {
        UnfitWasTold(ops, trace, n - 1, k, m);
      } else {
        assert ToldUnfit(ops, trace, n - 1, k, m);
      }
    }

    lemma TracedMore(ops: seq<Op>, trace: seq<World>, op: Op, after: World)
      requires Traced(ops, trace) && Legal(trace[|ops|], op, after) && Sound(after)
      ensures Traced(ops + [op], trace + [after])
    {
      var ops', trace' := ops + [op], trace + [after];
      forall n | 0 <= n < |ops'| ensures LegalAt(ops', trace', n) {
        assert n < |ops| ==> LegalAt(ops, trace, n);
      }
    }

    ghost predicate RequestOk(r: Request) {
      && (r.countOnly ==> !r.waiting && r.unfit == {})
      && (r.waiting ==> !r.at.Trying? && !r.at.Done?)
      && (r.at.Scan? ==> r.at.i <= |names|) && (r.at.Trying? ==> r.at.i < |names|)
      && (forall m :: m in r.unfit ==> m < |names|)
      && (r.at == Done(EveryModelUnfit) ==> forall m :: 0 <= m < |names| ==> m in r.unfit)
    }

    /** A request arrives. */
    method Arrive(countOnly: bool, requested: string)
      requires Valid()
      modifies this`requests
      ensures Valid() && Legal(old(Now()), Arrival(countOnly, requested), Now())
    {
      var unnamed := requested == "" || requested == "auto";
      var r := Request(countOnly, requested, if countOnly && unnamed then Done(NeedsName) else Begin, false, false, {});
      hide Reserved, Waiters;
      Appended(requests, r);
      requests := requests + [r];
    }

    method Shut()
      requires Valid()
      modifies this`stopping
      ensures Valid() && stopping
    {
      stopping := true;
    }

    /** Request `k` moves on without touching what is shared. */
    method Move(k: nat, r: Request)
      requires Valid() && k < |requests| && RequestOk(r)
      requires r.waiting == requests[k].waiting && forall m :: 0 <= m < |names| ==> r.Holds(m) == requests[k].Holds(m)
      modifies this`requests
      ensures Valid() && requests == old(requests)[k := r]
    {
      WaitersUpdate(requests, k, r);
      forall m: nat | m < |names| ensures Reserved(requests[k := r], m) == Reserved(requests, m) {
        ReservedUpdate(requests, k, r, m);
      }
      requests := requests[k := r];
    }

    /** A handler ends; if it was waiting it no longer is. */
    method Finish(k: nat, outcome: Outcome)
      requires Valid() && k < |requests| && !requests[k].at.Trying?
      requires outcome == EveryModelUnfit ==> forall m :: 0 <= m < |names| ==> m in requests[k].unfit
      modifies this`requests, this`waiters
      ensures Valid() && requests == old(requests)[k := old(requests)[k].(at := Done(outcome), waiting := false)]
    {
      var r := requests[k].(at := Done(outcome), waiting := false);
      WaitersUpdate(requests, k, r);
      forall m: nat | m < |names| ensures Reserved(requests[k := r], m) == Reserved(requests, m) {
        ReservedUpdate(requests, k, r, m);
      }
      if requests[k].waiting {
        waiters := waiters - 1;
      }
      requests := requests[k := r];
    }

    /** The top of the loop: a lost client ends the handler. */
    method Look(k: nat, gone: bool)
      requires Valid() && k < |requests| && requests[k].at.Begin?
      modifies this`requests, this`waiters
      ensures Valid()
      ensures gone ==> requests == old(requests)[k := old(requests)[k].(at := Done(Gone), waiting := false)]
      ensures !gone ==> requests == old(requests)[k := old(requests)[k].(at := Scan(0), known := !old(requests)[k].countOnly)]
    {
      if gone {
        Finish(k, Gone);
      } else {
        Move(k, requests[k].(at := Scan(0), known := !requests[k].countOnly));
      }
    }

    /** One model of the scan: skipped, or a slot reserved, or, when stopping, the end of the scan. */
    method TryModel(k: nat)
      requires Valid() && k < |requests| && requests[k].at.Scan?
      modifies this`requests, this`waiters, inFlight
      ensures Valid()
      ensures |requests| == |old(requests)| && requests == old(requests)[k := requests[k]]
      ensures Follows(old(Now()), old(requests)[k], false, Busy, requests[k])
    {
      var r := requests[k];
      var i := r.at.i;
      if i == |names| {
        Move(k, r.(at := Scanned));
        return;
      }
      if r.countOnly && r.requested != names[i] {
        Move(k, r.(at := Scan(i + 1)));
        return;
      }
      r := r.(known := true);
      if i in r.unfit {
        Move(k, r.(at := Scan(i + 1)));
      } else if stopping {
        Move(k, r.(at := Scanned));
      } else if !r.countOnly && inFlight[i] >= capacity[i] {
        Move(k, r.(at := Scan(i + 1)));
      } else {
        Reserve(k, i);
      }
    }

    /** Takes a slot of model `i`, unless only counting, and stops waiting. */
    method Reserve(k: nat, i: nat)
      requires Valid() && k < |requests| && requests[k].at == Scan(i) && i < |names|
      requires requests[k].countOnly || inFlight[i] < capacity[i]
      modifies this`requests, this`waiters, inFlight
      ensures Valid() && requests == old(requests)[k := old(requests)[k].(at := Trying(i), known := true, waiting := false)]
    {
      var r := requests[k].(at := Trying(i), known := true, waiting := false);
      WaitersUpdate(requests, k, r);
      forall m: nat | m < |names| ensures Reserved(requests[k := r], m) == Reserved(requests, m) + if m == i && !r.countOnly then 1 else 0 {
        ReservedUpdate(requests, k, r, m);
      }
      if !r.countOnly {
        inFlight[i] := inFlight[i] + 1;
      }
      if requests[k].waiting {
        waiters := waiters - 1;
      }
      requests := requests[k := r];
    }

    /** The model has answered: the slot is given back. */
    method Answered(k: nat, admission: Admission)
      requires Valid() && k < |requests| && requests[k].at.Trying?
      modifies this`requests, inFlight
      ensures Valid()
      ensures requests == old(requests)[k := AnsweredWith(old(requests)[k], admission)]
    {
      Release(k, requests[k].at.i, AnsweredWith(requests[k], admission));
    }

    method Release(k: nat, i: nat, after: Request)
      requires Valid() && k < |requests| && requests[k].at == Trying(i)
      requires RequestOk(after) && !after.waiting && after.countOnly == requests[k].countOnly && !after.at.Trying?
      modifies this`requests, inFlight
      ensures Valid() && requests == old(requests)[k := after]
    {
      WaitersUpdate(requests, k, after);
      forall m: nat | m < |names|
        ensures Reserved(requests[k := after], m) + (if m == i && !after.countOnly then 1 else 0) == Reserved(requests, m) {
        ReservedUpdate(requests, k, after, m);
      }
      if !after.countOnly {
        inFlight[i] := inFlight[i] - 1;
      }
      requests := requests[k := after];
    }

    /** After the scan: an answer, or a place among the waiting. */
    method Decide(k: nat)
      requires Valid() && k < |requests| && requests[k].at.Scanned?
      modifies this`requests, this`waiters
      ensures Valid() && |requests| == |old(requests)| && requests == old(requests)[k := requests[k]]
      ensures Follows(old(Now()), old(requests)[k], false, Busy, requests[k])
    {
      var r := requests[k];
      if |r.unfit| == |names| {
        FullSet(r.unfit, |names|);
        Finish(k, EveryModelUnfit);
      } else if !r.known {
        Finish(k, UnknownModel);
      } else if r.countOnly || stopping {
        Finish(k, Unavailable);
      } else if r.waiting {
        Move(k, r.(at := Waiting));
      } else if waiters >= queueLimit {
        Finish(k, QueueFull);
      } else {
        Join(k);
      }
    }

    method Join(k: nat)
      requires Valid() && k < |requests| && requests[k].at.Scanned? && !requests[k].countOnly && !requests[k].waiting && waiters < queueLimit
      modifies this`requests, this`waiters
      ensures Valid() && requests == old(requests)[k := old(requests)[k].(at := Waiting, waiting := true)]
    {
      var r := requests[k].(at := Waiting, waiting := true);
      WaitersUpdate(requests, k, r);
      forall m: nat | m < |names| ensures Reserved(requests[k := r], m) == Reserved(requests, m) {
        ReservedUpdate(requests, k, r, m);
      }
      waiters := waiters + 1;
      requests := requests[k := r];
    }

    /** Woken, or the bounded wait is over. */
    method Wake(k: nat, gone: bool)
      requires Valid() && k < |requests| && requests[k].at.Waiting?
      modifies this`requests, this`waiters
      ensures Valid()
      ensures gone ==> requests == old(requests)[k := old(requests)[k].(at := Done(Gone), waiting := false)]
      ensures !gone ==> requests == old(requests)[k := old(requests)[k].(at := Begin)]
    {
      if gone {
        Finish(k, Gone);
      } else {
        Move(k, requests[k].(at := Begin));
      }
    }

    method DoStep(k: nat, gone: bool, admission: Admission)
      requires Valid()
      modifies this`requests, this`waiters, inFlight
      ensures Valid() && Legal(old(Now()), Step(k, gone, admission), Now())
    {
      hide Valid;
      if k < |requests| {
        match requests[k].at
        case Begin => Look(k, gone);
        case Scan(_) => TryModel(k);
        case Trying(_) => Answered(k, admission);
        case Scanned => Decide(k);
        case Waiting => Wake(k, gone);
        case Done(_) =>
      }
    }

    /**
     Whatever the interleaving, after every step what is reserved is what is held, and every handler went on as
     it should. A request is rejected for every model only after each model, tried by that request, said that
     it does not fit.
     */
    method Run(ops: seq<Op>) returns (ghost trace: seq<World>)
      requires Valid() && requests == []
      modifies this, inFlight
      ensures Valid() && Traced(ops, trace) && trace[0] == old(Now()) && trace[|ops|] == Now()
      ensures forall k, m :: 0 <= k < |requests| && 0 <= m < |names| && requests[k].at == Done(EveryModelUnfit) ==> WasTold(ops, trace, k, m)
    {
      hide Legal, Valid, Sound;
      trace := [Now()];
      for n := 0 to |ops|
        invariant Valid() && Traced(ops[..n], trace) && trace[0] == old(Now()) && trace[n] == Now()
      {
        assert ops[..n + 1] == ops[..n] + [ops[n]];
        DoOp(ops[n]);
        NowIsSound();
        TracedMore(ops[..n], trace, ops[n], Now());
        trace := trace + [Now()];
      }
      assert ops[..|ops|] == ops;
      RejectedWereTold(ops, trace);
    }

    method DoOp(op: Op)
      requires Valid()
      modifies this`requests, this`waiters, this`stopping, inFlight
      ensures Valid() && Legal(old(Now()), op, Now())
    {
      hide Valid;
      match op
      case Arrival(countOnly, requested) => Arrive(countOnly, requested);
      case Shut => this.Shut();
      case Step(k, gone, admission) => DoStep(k, gone, admission);
    }

    lemma RejectedWereTold(ops: seq<Op>, trace: seq<World>)
      requires Valid() && Traced(ops, trace) && trace[|ops|].requests == requests
      ensures forall k, m :: 0 <= k < |requests| && 0 <= m < |names| && requests[k].at == Done(EveryModelUnfit) ==> WasTold(ops, trace, k, m)
    {
      forall k, m | 0 <= k < |requests| && 0 <= m < |names| && requests[k].at == Done(EveryModelUnfit)
        ensures WasTold(ops, trace, k, m)
      {
        assert RequestOk(requests[k]);
        UnfitWasTold(ops, trace, |ops|, k, m);
      }
    }

    /** When every handler has ended, no slot is taken and nobody counts as waiting. */
    lemma Conserved()
      requires Valid() && forall k :: 0 <= k < |requests| ==> requests[k].at.Done?
      ensures waiters == 0 && forall m :: 0 <= m < inFlight.Length ==> inFlight[m] == 0
    {
      assert forall k :: 0 <= k < |requests| ==> RequestOk(requests[k]);
      NobodyLeft(requests);
    }
  }

  lemma {:induction false} NobodyLeft(rs: seq<Request>)
    requires forall k :: 0 <= k < |rs| ==> rs[k].at.Done? && !rs[k].waiting
    ensures Waiters(rs) == 0 && forall m: nat :: Reserved(rs, m) == 0
  {
    if rs != [] {
      NobodyLeft(rs[..|rs| - 1]);
    }
  }
}
