/** Login throttling: many requests at once, each attempting first and learning the outcome later. */
module Login {
  import opened Market
  import opened Limits
  import opened Backoff

  type RequestId = nat

  const STATUS_OK: int := 200
  const STATUS_UNAUTHORIZED: int := 401

  // ---- what the recorder remembers of the response

  datatype ResponseCall = WriteHeaderCall(status: int) | WriteCall

  class StatusRecorder {
    var status: int

    constructor ()
      ensures status == 0
    {
      status := 0;
    }

    method WriteHeader(code: int)
      modifies this
      ensures status == code
    {
      status := code;
    }

    /** A body with no header is an implied 200. */
    method Write()
      modifies this
      ensures status == if old(status) == 0 then STATUS_OK else old(status)
    {
      if status == 0 {
        status := STATUS_OK;
      }
    }
  }

  function Recorded(calls: seq<ResponseCall>): int {
    if calls == [] then 0
    else
      var earlier, last := Recorded(calls[..|calls| - 1]), calls[|calls| - 1];
      match last
      case WriteHeaderCall(status) => status
      case WriteCall => if earlier == 0 then STATUS_OK else earlier
  }

  method ServeRecorded(calls: seq<ResponseCall>) returns (status: int)
    ensures status == Recorded(calls)
  {
    var rec := new StatusRecorder();
    for i := 0 to |calls|
      invariant rec.status == Recorded(calls[..i])
    {
      assert calls[..i + 1][..i] == calls[..i];
      match calls[i]
      case WriteHeaderCall(code) => rec.WriteHeader(code);
      case WriteCall => rec.Write();
    }
    assert calls[..|calls|] == calls;
    return rec.status;
  }

  /** What that is: the last header written, whatever body came after it; without any header, 200 for a body and nothing
      for a response never written to. */
  lemma {:induction false} RecordedIsLastHeader(calls: seq<ResponseCall>, k: nat)
    requires k <= |calls| && forall i :: k <= i < |calls| ==> calls[i].WriteCall?
    ensures k > 0 && calls[k - 1].WriteHeaderCall? && calls[k - 1].status != 0 ==> Recorded(calls) == calls[k - 1].status
    ensures k == 0 ==> Recorded(calls) == if calls == [] then 0 else STATUS_OK
  {
    if |calls| > k {
      RecordedIsLastHeader(calls[..|calls| - 1], k);
    }
  }

  // ---- the header a refusal carries

  const NANOS_PER_SECOND: int := 1_000_000_000

  /** Whole seconds, rounded up: the fewest, but at least one, that cover the wait. Dividing truncates toward zero. */
  function RetryAfterSeconds(retryAfter: Time): (seconds: int)
    ensures seconds >= 1 && retryAfter <= seconds * NANOS_PER_SECOND
    ensures seconds > 1 ==> (seconds - 1) * NANOS_PER_SECOND < retryAfter
  {
    var whole := if retryAfter >= 0 then retryAfter / NANOS_PER_SECOND else -(-retryAfter / NANOS_PER_SECOND);
    var seconds := if retryAfter > 0 && retryAfter > whole * NANOS_PER_SECOND then whole + 1 else whole;
    if seconds < 1 then 1 else seconds
  }

  /** A client that waits as long as its refusal said is not refused again. */
  lemma ObeyedHeaderIsAdmitted(cfg: Config, m: Attempts, key: Key, now: Time, later: Time)
    requires cfg.baseDelay >= 0 && cfg.maxDelay >= 0 && Answered(cfg, m, key, now).Refused?
    requires later >= now + RetryAfterSeconds(Answered(cfg, m, key, now).retryAfter) * NANOS_PER_SECOND
    ensures Admits(cfg, m, key, later)
  {
    hide Admits, Answered;
    RetryAfterIsExact(cfg, m, key, now, later);
  }

  // ---- the protocol

  datatype Phase = Outstanding(key: Key) | TurnedAway | Forwarded | Settled

  datatype Verdict = Verdict(key: Key, status: int)

  /** attempts is the limiter's map, verdicts the settled outcomes in the order they reached it. */
  datatype Sys = Sys(attempts: Attempts, requests: map<RequestId, Phase>, verdicts: seq<Verdict>)

  /** A request with no usable key is forwarded untouched. Settling is the switch on the recorded status. */
  datatype Event =
    | Arrive(request: RequestId, key: Key, now: Time)
    | Settle(request: RequestId, status: int)
    | Sweep(now: Time)

  predicate Enabled(s: Sys, e: Event) {
    match e
    case Arrive(q, _, _) => q !in s.requests
    case Settle(q, _) => q in s.requests && s.requests[q].Outstanding?
    case Sweep(_) => true
  }

  function AfterVerdict(m: Attempts, key: Key, status: int): Attempts {
    if status == STATUS_UNAUTHORIZED then m else if status == STATUS_OK then m - {key} else AfterUndo(m, key)
  }

  function Step(cfg: Config, s: Sys, e: Event): Sys {
    if !Enabled(s, e) then s
    else match e
      case Arrive(q, key, now) =>
        if key == "" then s.(requests := s.requests[q := Forwarded])
        else
          s.(attempts := AfterAttempt(cfg, s.attempts, key, now),
             requests := s.requests[q := if Answered(cfg, s.attempts, key, now).Allowed? then Outstanding(key) else TurnedAway])
      case Settle(q, status) =>
        var key := s.requests[q].key;
        Sys(AfterVerdict(s.attempts, key, status), s.requests[q := Settled], s.verdicts + [Verdict(key, status)])
      case Sweep(now) => s.(attempts := WithoutStale(cfg, s.attempts, now))
  }

  function Run(cfg: Config, events: seq<Event>): Sys {
    if events == [] then Sys(map[], map[], [])
    else Step(cfg, Run(cfg, events[..|events| - 1]), events[|events| - 1])
  }

  // ---- what a count is measured against

  /** Wrong passwords since the key last signed in. */
  function WrongSinceSuccess(verdicts: seq<Verdict>, key: Key): nat {
    if verdicts == [] then 0
    else
      var last, earlier := verdicts[|verdicts| - 1], WrongSinceSuccess(verdicts[..|verdicts| - 1], key);
      if last.key != key then earlier
      else if last.status == STATUS_OK then 0
      else if last.status == STATUS_UNAUTHORIZED then earlier + 1
      else earlier
  }

  function OutstandingFor(s: Sys, key: Key): set<RequestId> {
    set q | q in s.requests && s.requests[q] == Outstanding(key)
  }

  lemma WrongStep(verdicts: seq<Verdict>, v: Verdict, key: Key)
    ensures WrongSinceSuccess(verdicts + [v], key)
            == if v.key != key then WrongSinceSuccess(verdicts, key)
               else if v.status == STATUS_OK then 0
               else WrongSinceSuccess(verdicts, key) + if v.status == STATUS_UNAUTHORIZED then 1 else 0
  {
    assert (verdicts + [v])[..|verdicts|] == verdicts;
  }

  lemma RunStep(cfg: Config, events: seq<Event>, e: Event)
    ensures Run(cfg, events + [e]) == Step(cfg, Run(cfg, events), e)
  {
    assert (events + [e])[..|events|] == events;
  }

  lemma NothingYet(cfg: Config)
    ensures Run(cfg, []) == Sys(map[], map[], [])
  {}
}
