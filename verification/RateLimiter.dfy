/** The gateway's fixed-window rate limiters: one counter table per limiter, emptied on every tick
    of its own clock, and the middleware that asks the per-address limiter and then the
    per-endpoint limiter, each under its own lock. */
module RateLimiter {

  const IP_LIMIT := 1000
  const ENDPOINT_LIMIT := 500

  type Counters = map<string, nat>

  function Count(m: Counters, key: string): nat { if key in m then m[key] else 0 }

  /** One locked question: a key below its maximum is counted and let through. */
  function Ask(m: Counters, key: string, max: int): (r: (Counters, bool))
    ensures r.1 <==> Count(m, key) < max
    ensures forall k :: Count(r.0, k) == Count(m, k) + (if r.1 && k == key then 1 else 0)
  {
    if Count(m, key) >= max then (m, false) else (m[key := Count(m, key) + 1], true)
  }

  class Limiter {
    var requests: Counters

    constructor ()
      ensures requests == map[]
    {
      requests := map[];
    }

    method Allow(key: string, maxRequests: int) returns (ok: bool)
      modifies this
      ensures (requests, ok) == Ask(old(requests), key, maxRequests)
    {
      var seen := if key in requests then requests[key] else 0;
      if seen >= maxRequests {
        return false;
      }
      requests := requests[key := seen + 1];
      return true;
    }

    /** One tick of the cleanup loop. */
    method Reset()
      modifies this
      ensures requests == map[]
    {
      requests := map[];
    }
  }

  // ----- one limiter under any interleaving of questions and resets -----

  datatype Event = Asked(key: string, ok: bool) | WasReset

  function After(start: Counters, max: int, log: seq<Event>): Counters
  {
    if log == [] then start
    else
      match log[|log| - 1]
      case Asked(key, _) => Ask(After(start, max, log[..|log| - 1]), key, max).0
      case WasReset => map[]
  }

  /** The answers recorded in the log are the ones the limiter gave. */
  ghost predicate Run(start: Counters, max: int, log: seq<Event>)
  {
    log != [] ==>
      && Run(start, max, log[..|log| - 1])
      && (log[|log| - 1].Asked? ==>
            log[|log| - 1].ok == Ask(After(start, max, log[..|log| - 1]), log[|log| - 1].key, max).1)
  }

  function Tally(log: seq<Event>, which: Event -> bool): nat
  {
    if log == [] then 0
    else Tally(log[..|log| - 1], which) + (if which(log[|log| - 1]) then 1 else 0)
  }

  function Admissions(log: seq<Event>, key: string): nat { Tally(log, (e: Event) => e == Asked(key, true)) }

  function Questions(log: seq<Event>, key: string): nat { Tally(log, (e: Event) => e.Asked? && e.key == key) }

  function Resets(log: seq<Event>): nat { Tally(log, (e: Event) => e.WasReset?) }

  function Min(a: int, b: int): int { if a <= b then a else b }

  function Max(a: int, b: int): int { if a >= b then a else b }

  lemma {:induction false} AdmissionsPotential(start: Counters, max: nat, log: seq<Event>, key: string)
    requires Run(start, max, log)
    ensures Admissions(log, key) <= Resets(log) * max + Min(max, Count(After(start, max, log), key))
  {
    if log != [] {
      var before := log[..|log| - 1];
      AdmissionsPotential(start, max, before, key);
      if log[|log| - 1].WasReset? {
        OneMoreWindow(Resets(before), max);
        assert Resets(log) == Resets(before) + 1;
      } else {
        assert Resets(log) == Resets(before);
      }
    }
  }

  lemma OneMoreWindow(resets: nat, max: nat)
    ensures (resets + 1) * max == resets * max + max
  {
  }

  /** In any segment of a run, from whatever counters it starts with, a key is admitted at most
      max times per window, that is at most (resets + 1) * max times. */
  lemma SegmentBound(start: Counters, max: int, log: seq<Event>, key: string)
    requires Run(start, max, log)
    ensures Admissions(log, key) <= (Resets(log) + 1) * Max(0, max)
  {
    if max >= 0 {
      AdmissionsPotential(start, max, log, key);
      assert (Resets(log) + 1) * max == Resets(log) * max + max;
    } else {
      NothingBelowZero(start, max, log, key);
    }
  }

  lemma {:induction false} NothingBelowZero(start: Counters, max: int, log: seq<Event>, key: string)
    requires Run(start, max, log) && max <= 0
    ensures Admissions(log, key) == 0
  {
    if log != [] {
      NothingBelowZero(start, max, log[..|log| - 1], key);
    }
  }

  /** Within one window the limiter wastes nothing: it admits as many questions as there is room. */
  lemma {:induction false} WindowIsExact(start: Counters, max: int, log: seq<Event>, key: string)
    requires Run(start, max, log) && Resets(log) == 0
    ensures Admissions(log, key) == Min(Questions(log, key), Max(0, max - Count(start, key)))
    ensures Count(After(start, max, log), key) == Count(start, key) + Admissions(log, key)
  {
    if log != [] {
      WindowIsExact(start, max, log[..|log| - 1], key);
    }
  }

  lemma {:induction false} AfterReset(start: Counters, max: int, before: seq<Event>, tail: seq<Event>)
    requires Run(start, max, before + [WasReset] + tail)
    ensures Run(map[], max, tail)
    ensures After(start, max, before + [WasReset] + tail) == After(map[], max, tail)
    decreases |tail|
  {
    var log := before + [WasReset] + tail;
    if tail == [] {
      assert log[|log| - 1] == WasReset;
    } else {
      var shorter := tail[..|tail| - 1];
      assert log[..|log| - 1] == before + [WasReset] + shorter && log[|log| - 1] == tail[|tail| - 1];
      AfterReset(start, max, before, shorter);
    }
  }

  /** A reset gives every key its whole maximum back, whatever happened before: until the next one, the
      first `max` questions about a key are let through and no others. */
  lemma FreshWindow(start: Counters, max: int, before: seq<Event>, tail: seq<Event>, key: string)
    requires Run(start, max, before + [WasReset] + tail) && Resets(tail) == 0
    ensures Admissions(tail, key) == Min(Questions(tail, key), Max(0, max))
    ensures forall i :: 0 <= i < |tail| && tail[i].Asked? && tail[i].key == key ==>
              (tail[i].ok <==> Questions(tail[..i], key) < max)
  {
    AfterReset(start, max, before, tail);
    WindowIsExact(map[], max, tail, key);
    forall i | 0 <= i < |tail| && tail[i].Asked? && tail[i].key == key
      ensures tail[i].ok <==> Questions(tail[..i], key) < max
    {
      PrefixIsRun(map[], max, tail, i);
      WindowIsExact(map[], max, tail[..i], key);
      PrefixIsRun(map[], max, tail, i + 1);
      assert tail[..i + 1][..i] == tail[..i];
    }
  }

  lemma {:induction false} PrefixIsRun(start: Counters, max: int, log: seq<Event>, i: nat)
    requires Run(start, max, log) && i <= |log|
    ensures Run(start, max, log[..i]) && Resets(log[..i]) <= Resets(log)
    decreases |log|
  {
    if i == |log| {
      assert log[..i] == log;
    } else {
      assert log[..|log| - 1][..i] == log[..i];
      PrefixIsRun(start, max, log[..|log| - 1], i);
    }
  }

  // ----- the middleware: two limiters with independent resets, and requests between the checks -----

  /** Paths the middleware lets through without asking either limiter. */
  predicate Exempt(path: string)
  {
    "/healthz" <= path || path == "/metrics" || "/auth/sso" <= path
  }

  function Endpoint(verb: string, path: string): string { verb + ":" + path }

  datatype Gate = Gate(ip: Counters, endpoint: Counters, between: map<nat, string>)

  datatype Step =
    | IpReset
    | EndpointReset
    | IpCheck(req: nat, ipKey: string, verb: string, path: string, ok: bool)
    | EndpointCheck(req: nat, ok: bool)

  function GateAfter(log: seq<Step>): Gate
  {
    if log == [] then Gate(map[], map[], map[])
    else Apply(GateAfter(log[..|log| - 1]), log[|log| - 1])
  }

  function Apply(g: Gate, s: Step): Gate
  {
    match s
    case IpReset => g.(ip := map[])
    case EndpointReset => g.(endpoint := map[])
    case IpCheck(req, key, verb, path, _) =>
      var (ip, admitted) := Ask(g.ip, key, IP_LIMIT);
      Gate(ip, g.endpoint, if admitted then g.between[req := Endpoint(verb, path)] else g.between)
    case EndpointCheck(req, _) =>
      if req !in g.between then g
      else Gate(g.ip, Ask(g.endpoint, g.between[req], ENDPOINT_LIMIT).0, g.between - {req})
  }

  /** A request passes the first check under a fresh identity, and the second check once, later. */
  ghost predicate Enabled(g: Gate, s: Step)
  {
    match s
    case IpReset => true
    case EndpointReset => true
    case IpCheck(req, key, _, path, ok) => req !in g.between && !Exempt(path) && ok == Ask(g.ip, key, IP_LIMIT).1
    case EndpointCheck(req, ok) => req in g.between && ok == Ask(g.endpoint, g.between[req], ENDPOINT_LIMIT).1
  }

  ghost predicate GateRun(log: seq<Step>)
  {
    log != [] ==> GateRun(log[..|log| - 1]) && Enabled(GateAfter(log[..|log| - 1]), log[|log| - 1])
  }

  function StepTally(log: seq<Step>, which: Step -> bool): nat
  {
    if log == [] then 0
    else StepTally(log[..|log| - 1], which) + (if which(log[|log| - 1]) then 1 else 0)
  }

  /** Conservation across the two limiters: everything the first one ever admitted was admitted or
      rejected by the second one, or is still between the two checks. */
  lemma {:induction false} AdmissionsAreConserved(log: seq<Step>)
    requires GateRun(log)
    ensures StepTally(log, (s: Step) => s.IpCheck? && s.ok)
         == StepTally(log, (s: Step) => s.EndpointCheck? && s.ok)
          + StepTally(log, (s: Step) => s.EndpointCheck? && !s.ok)
          + |GateAfter(log).between|
  {
    if log != [] {
      var before := GateAfter(log[..|log| - 1]);
      var s := log[|log| - 1];
      AdmissionsAreConserved(log[..|log| - 1]);
      if s.EndpointCheck? {
        assert before.between.Keys == (before.between - {s.req}).Keys + {s.req};
      }
    }
  }

  /** What one limiter sees of a run of the middleware. */
  function IpView(log: seq<Step>): seq<Event>
  {
    if log == [] then []
    else
      IpView(log[..|log| - 1]) +
      match log[|log| - 1]
      case IpReset => [WasReset]
      case IpCheck(_, key, _, _, ok) => [Asked(key, ok)]
      case _ => []
  }

  function EndpointView(log: seq<Step>): seq<Event>
  {
    if log == [] then []
    else
      EndpointView(log[..|log| - 1]) +
      match log[|log| - 1]
      case EndpointReset => [WasReset]
      case EndpointCheck(req, ok) =>
        var g := GateAfter(log[..|log| - 1]);
        if req in g.between then [Asked(g.between[req], ok)] else []
      case _ => []
  }

  lemma RunSnoc(start: Counters, max: int, log: seq<Event>, e: Event)
    requires Run(start, max, log)
    requires e.Asked? ==> e.ok == Ask(After(start, max, log), e.key, max).1
    ensures Run(start, max, log + [e])
    ensures After(start, max, log + [e])
         == if e.WasReset? then map[] else Ask(After(start, max, log), e.key, max).0
  {
    assert (log + [e])[..|log|] == log;
  }

  lemma {:induction false} ViewsAreRuns(log: seq<Step>)
    requires GateRun(log)
    ensures Run(map[], IP_LIMIT, IpView(log)) && After(map[], IP_LIMIT, IpView(log)) == GateAfter(log).ip
    ensures Run(map[], ENDPOINT_LIMIT, EndpointView(log))
    ensures After(map[], ENDPOINT_LIMIT, EndpointView(log)) == GateAfter(log).endpoint
  {
    if log != [] {
      var before := log[..|log| - 1];
      ViewsAreRuns(before);
      match log[|log| - 1]
      case IpReset =>
        assert EndpointView(log) == EndpointView(before);
        RunSnoc(map[], IP_LIMIT, IpView(before), WasReset);
      case EndpointReset =>
        assert IpView(log) == IpView(before);
        RunSnoc(map[], ENDPOINT_LIMIT, EndpointView(before), WasReset);
      case IpCheck(_, key, _, _, ok) =>
        assert EndpointView(log) == EndpointView(before);
        RunSnoc(map[], IP_LIMIT, IpView(before), Asked(key, ok));
      case EndpointCheck(req, ok) =>
        assert IpView(log) == IpView(before);
        RunSnoc(map[], ENDPOINT_LIMIT, EndpointView(before), Asked(GateAfter(before).between[req], ok));
    }
  }

  /** However the two limiters are reset and requests interleave, an address passes the first check
      at most 1000 times per window of the first limiter, and an endpoint is forwarded at most 500
      times per window of the second. */
  lemma MiddlewareBounds(log: seq<Step>, ip: string, endpoint: string)
    requires GateRun(log)
    ensures Admissions(IpView(log), ip) <= (Resets(IpView(log)) + 1) * 1000
    ensures Admissions(EndpointView(log), endpoint) <= (Resets(EndpointView(log)) + 1) * 500
  {
    ViewsAreRuns(log);
    SegmentBound(map[], IP_LIMIT, IpView(log), ip);
    SegmentBound(map[], ENDPOINT_LIMIT, EndpointView(log), endpoint);
  }

  datatype Verdict = Forwarded | TooManyFromAddress | TooManyForEndpoint

  /** The middleware run without interruption: some paths are forwarded unasked; any other request counts
      against its address, and against its verb and path once the address has let it through. */
  method Middleware(ipLimiter: Limiter, endpointLimiter: Limiter, ipKey: string, verb: string, path: string)
    returns (v: Verdict)
    requires ipLimiter != endpointLimiter
    modifies ipLimiter, endpointLimiter
    ensures var exempt := "/healthz" <= path || path == "/metrics" || "/auth/sso" <= path;
            var key := verb + ":" + path;
            var seen, seenThere := Count(old(ipLimiter.requests), ipKey), Count(old(endpointLimiter.requests), key);
            && (v == Forwarded <==> exempt || (seen < 1000 && seenThere < 500))
            && (v == TooManyFromAddress <==> !exempt && seen >= 1000)
            && ipLimiter.requests == (if exempt || seen >= 1000 then old(ipLimiter.requests)
                                      else old(ipLimiter.requests)[ipKey := seen + 1])
            && endpointLimiter.requests == (if exempt || seen >= 1000 || seenThere >= 500 then old(endpointLimiter.requests)
                                            else old(endpointLimiter.requests)[key := seenThere + 1])
    ensures !Exempt(path) ==>
              Gate(ipLimiter.requests, endpointLimiter.requests, map[])
              == Apply(Apply(Gate(old(ipLimiter.requests), old(endpointLimiter.requests), map[]),
                             IpCheck(0, ipKey, verb, path, true)),
                       EndpointCheck(0, true))
  {
    if "/healthz" <= path || path == "/metrics" || "/auth/sso" <= path {
      return Forwarded;
    }
    var ok := ipLimiter.Allow(ipKey, 1000);
    if !ok {
      return TooManyFromAddress;
    }
    ok := endpointLimiter.Allow(verb + ":" + path, 500);
    if !ok {
      return TooManyForEndpoint;
    }
    return Forwarded;
  }
}
