/**
 Control requests: one record per request, with expiry, a user decision, and single use.
 A store is what one saved file holds; every method of the program reads and rewrites it.
 */
module Requests {
  import opened Prelude

  const TAKEOVER_FRAME_MAX_AGE_SECONDS: real := 30.0

  const REQUEST_TYPES: set<string> := {
    "credential", "totp", "one_time_code", "sms_code", "email_code", "captcha", "passkey", "webauthn",
    "device_confirmation", "payment_3ds", "human_takeover", "payment_approval", "oauth_approval",
    "account_delete", "password_change", "two_factor_change", "file_upload", "message_send",
    "account_registration", "console_restart"
  }

  datatype Status =
    | Pending | UserControl | Fulfilled | Approved | Consumed | Denied | Released
    | ChallengeCompleted | Expired | Cancelled | Rejected | Failed

  datatype Decision = Yes | No
  datatype Owner = Agent | User

  datatype Frame = Frame(id: string, capturedAt: real, width: Option<int>, height: Option<int>)

  datatype Request = Request(
    id: string, requestType: string, origin: string, contextId: Option<string>, expiresAt: real,
    status: Status, oneTimeUse: bool, owner: Owner, frame: Option<Frame>, ciphertext: Option<string>,
    decision: Option<Decision>, fingerprint: Option<string>, completedByUser: bool, used: bool, updatedAt: real)

  type Store = map<string, Request>

  predicate IsExpirable(s: Status) {
    s.Pending? || s.UserControl? || s.Fulfilled? || s.Approved?
  }

  predicate IsCompleted(s: Status) {
    s.Fulfilled? || s.Approved? || s.Consumed? || s.Denied? || s.Released? || s.ChallengeCompleted?
  }

  predicate IsAborted(s: Status) {
    s.Denied? || s.Expired? || s.Cancelled? || s.Rejected? || s.Failed?
  }

  predicate IsTakeover(r: Request) {
    r.requestType == "human_takeover" || r.requestType == "account_registration"
  }

  predicate IsExpired(r: Request, now: real) {
    now > r.expiresAt
  }

  function ExpireIfNeeded(r: Request, now: real): Request {
    if IsExpirable(r.status) && IsExpired(r, now) then r.(status := Expired, updatedAt := now) else r
  }

  // ---------------------------------------------------------------- the locked sections

  predicate Keyed(s: Store) {
    forall id :: id in s ==> s[id].id == id
  }

  function Create(id: string, requestType: string, origin: string, contextId: Option<string>,
                  ttl: real, fingerprint: Option<string>, now: real): Request
  {
    var takeover := requestType == "human_takeover" || requestType == "account_registration";
    Request(id, requestType, origin, contextId, now + ttl, if takeover then UserControl else Pending, true,
            if takeover then User else Agent, None, None, None, fingerprint, false, false, now)
  }

  function List(s: Store, now: real): Store {
    map id | id in s :: ExpireIfNeeded(s[id], now)
  }

  function Get(s: Store, id: string, now: real): Store {
    if id in s then s[id := ExpireIfNeeded(s[id], now)] else s
  }

  function Update(s: Store, r: Request, now: real): Store {
    s[r.id := r.(updatedAt := now)]
  }

  // ---------------------------------------------------------------- whole methods

  datatype Action =
    | Submit(envelope: string) | Approve | Deny | Cancel | CompleteChallenge | Release
    | RecordFrame(newFrame: Frame) | ValidateFrame(frameId: Option<string>) | ConsumeApproval

  /** The readings of the clock inside one method: in `get`, in the expiry check, and in `update`. */
  datatype Clock = Clock(get: real, check: real, write: real)

  datatype Reply = Done(request: Request) | NoSuchRequest | WrongType | RequestExpired | AlreadyUsed | NotApproved | StaleFrame

  predicate NeedsTakeover(a: Action) {
    a.Release? || a.RecordFrame? || a.ValidateFrame?
  }

  predicate FrameMatches(r: Request, frameId: Option<string>, now: real) {
    r.frame.None? || r.frame.value.id == ""
    || (frameId == Some(r.frame.value.id) && now - r.frame.value.capturedAt <= TAKEOVER_FRAME_MAX_AGE_SECONDS)
  }

  /** The record a method writes once the request is actionable; what it answers if it does not write. */
  function Transition(r: Request, a: Action, now: real): Reply {
    match a
    case Submit(envelope) =>
      if r.ciphertext.Some? then AlreadyUsed
      else Done(r.(ciphertext := Some(envelope), status := Fulfilled, used := r.oneTimeUse, completedByUser := true))
    case Approve => Done(r.(decision := Some(Yes), status := Approved, used := false, completedByUser := true))
    case Deny => Done(r.(decision := Some(No), status := Denied, used := r.oneTimeUse, completedByUser := true))
    case Cancel => Done(r.(status := Cancelled, used := r.oneTimeUse, completedByUser := false))
    case CompleteChallenge =>
      Done(r.(status := ChallengeCompleted, completedByUser := true, used := r.oneTimeUse))
    case Release =>
      Done(r.(status := Released, owner := Agent, completedByUser := true, used := r.oneTimeUse))
    case RecordFrame(frame) => Done(r.(frame := Some(frame)))
    case ValidateFrame(frameId) => if FrameMatches(r, frameId, now) then Done(r) else StaleFrame
    case ConsumeApproval =>
      if r.status != Approved || r.decision != Some(Yes) then NotApproved
      else Done(r.(status := Consumed, used := true))
  }

  /** `cancel` returns the request untouched once it has completed or aborted. */
  predicate CancelIsMoot(r: Request) {
    IsCompleted(r.status) || IsAborted(r.status)
  }

  function Stamped(r: Request, now: real): Request {
    r.(updatedAt := now)
  }

  /** What a method makes of the record it has read: the record to write back, if any, and the answer. */
  function Decide(r: Request, a: Action, now: real): (Option<Request>, Reply) {
    if a.Cancel? then
      if CancelIsMoot(r) then (None, Done(r)) else (Some(Transition(r, a, now).request), Transition(r, a, now))
    else if NeedsTakeover(a) && !IsTakeover(r) then (None, WrongType)
    else if IsExpired(r, now) then (Some(r.(status := Expired)), RequestExpired)
    else if r.used && !(a.CompleteChallenge? && r.status == Fulfilled) then (None, AlreadyUsed)
    else
      var reply := Transition(r, a, now);
      (if reply.Done? && !a.ValidateFrame? then Some(reply.request) else None, reply)
  }

  /** One whole method call as it affects its request, from reading the file to writing it back. */
  function ActOne(r0: Request, a: Action, c: Clock): (Request, Reply) {
    var r := ExpireIfNeeded(r0, c.get);
    var (out, reply) := Decide(r, a, c.check);
    (if out.Some? then Stamped(out.value, c.write) else r, reply)
  }

  function Act(s: Store, id: string, a: Action, c: Clock): (Store, Reply) {
    if id !in s then (s, NoSuchRequest)
    else
      var (r, reply) := ActOne(s[id], a, c);
      (s[id := r], reply)
  }

  /** What no method ever changes about a request. */
  predicate SameIdentity(a: Request, b: Request) {
    && a.id == b.id && a.requestType == b.requestType && a.origin == b.origin && a.contextId == b.contextId
    && a.expiresAt == b.expiresAt && a.fingerprint == b.fingerprint && a.oneTimeUse == b.oneTimeUse
  }

  lemma TransitionKeepsIdentity(r: Request, a: Action, now: real, v: Request)
    requires Transition(r, a, now) == Done(v)
    ensures SameIdentity(v, r)
  {}

  lemma DecideKeepsIdentity(r: Request, a: Action, now: real, v: Request)
    requires Decide(r, a, now).0 == Some(v)
    ensures SameIdentity(v, r)
  {
    if Transition(r, a, now).Done? {
      TransitionKeepsIdentity(r, a, now, Transition(r, a, now).request);
    }
  }

  lemma ActKeepsIdentity(r: Request, a: Action, c: Clock)
    ensures SameIdentity(ActOne(r, a, c).0, r)
  {
    var got := ExpireIfNeeded(r, c.get);
    var out := Decide(got, a, c.check).0;
    if out.Some? {
      DecideKeepsIdentity(got, a, c.check, out.value);
    }
  }

  // ---------------------------------------------------------------- what a method answers and leaves

  predicate IsHandoff(r: Request) {
    r.requestType == "human_takeover" || r.requestType == "account_registration"
  }

  /** A request as creation stores it: pending, or under user control for the two handoff types, and untouched. */
  predicate IsNewRequest(r: Request, id: string, requestType: string, origin: string, contextId: Option<string>,
                         ttl: real, fingerprint: Option<string>, now: real) {
    && r.id == id && r.requestType == requestType && r.origin == origin && r.contextId == contextId
    && r.expiresAt == now + ttl && r.fingerprint == fingerprint && r.updatedAt == now
    && r.oneTimeUse && !r.used && !r.completedByUser && r.ciphertext.None? && r.decision.None? && r.frame.None?
    && r.status == (if IsHandoff(r) then UserControl else Pending) && r.owner == (if IsHandoff(r) then User else Agent)
  }

  lemma CreateIsNew(id: string, requestType: string, origin: string, contextId: Option<string>, ttl: real,
                    fingerprint: Option<string>, now: real)
    ensures IsNewRequest(Create(id, requestType, origin, contextId, ttl, fingerprint, now),
                         id, requestType, origin, contextId, ttl, fingerprint, now)
  {}

  /** The kinds of request there are: codes and challenges, handoffs, approvals, and actions on an account. */
  predicate IsKnownType(t: string) {
    || t == "credential" || t == "totp" || t == "one_time_code" || t == "sms_code" || t == "email_code" || t == "captcha"
    || t == "passkey" || t == "webauthn" || t == "device_confirmation" || t == "payment_3ds" || t == "human_takeover"
    || t == "payment_approval" || t == "oauth_approval" || t == "account_delete" || t == "password_change"
    || t == "two_factor_change" || t == "file_upload" || t == "message_send" || t == "account_registration"
    || t == "console_restart"
  }

  lemma TypesExactly(t: string)
    ensures t in REQUEST_TYPES <==> IsKnownType(t)
  {}

  /** A request still open when its time is up reads as expired; nothing else about it changes by reading. */
  lemma ReadExactly(r: Request, now: real)
    ensures var got := ExpireIfNeeded(r, now);
            && got == r.(status := got.status, updatedAt := got.updatedAt)
            && (got.status != r.status <==> (r.status.Pending? || r.status.UserControl? || r.status.Fulfilled? || r.status.Approved?) && now > r.expiresAt)
            && (got.status != r.status ==> got.status == Expired && got.updatedAt == now)
            && (got.status == r.status ==> got == r)
  {}

  /** The frame on file, if there is one, is the one named and at most thirty seconds old. */
  predicate FrameIsCurrent(r: Request, frameId: Option<string>, now: real) {
    r.frame.Some? && r.frame.value.id != "" ==> frameId == Some(r.frame.value.id) && now - r.frame.value.capturedAt <= 30.0
  }

  predicate IsOpen(r: Request, a: Action, c: Clock) {
    !r.used || (a.CompleteChallenge? && r.status == Fulfilled && c.get <= r.expiresAt)
  }

  /**
   What a method answers, in the order of its checks: a handoff is demanded, then time, then that the request is not
   used up, then what the action itself needs. A cancellation is always done.
   */
  lemma RepliesExactly(r: Request, a: Action, c: Clock)
    ensures var reply := ActOne(r, a, c).1;
            var wrong := (a.Release? || a.RecordFrame? || a.ValidateFrame?) && !IsHandoff(r);
            if a.Cancel? then reply.Done?
            else if wrong then reply == WrongType
            else if c.check > r.expiresAt then reply == RequestExpired
            else if !IsOpen(r, a, c) then reply == AlreadyUsed
            else match a
                 case Submit(_) => if r.ciphertext.Some? then reply == AlreadyUsed else reply.Done?
                 case ValidateFrame(frameId) => if FrameIsCurrent(r, frameId, c.check) then reply.Done? else reply == StaleFrame
                 case ConsumeApproval =>
                   if r.status == Approved && c.get <= r.expiresAt && r.decision == Some(Yes) then reply.Done? else reply == NotApproved
                 case _ => reply.Done?
  {
    ReadExactly(r, c.get);
  }

  /** The parts of a record that the actions write. */
  datatype Outcome = Outcome(status: Status, owner: Owner, frame: Option<Frame>, ciphertext: Option<string>,
                             decision: Option<Decision>, completedByUser: bool, used: bool)

  function OutcomeOf(r: Request): Outcome {
    Outcome(r.status, r.owner, r.frame, r.ciphertext, r.decision, r.completedByUser, r.used)
  }

  /** Completed or aborted, as far as cancelling is concerned. */
  predicate IsSettled(s: Status) {
    !s.Pending? && !s.UserControl?
  }

  /** What a method that is done leaves on file, action by action. */
  lemma DoneLeaves(r: Request, a: Action, c: Clock)
    requires ActOne(r, a, c).1.Done? && r.oneTimeUse
    ensures var got, v := ExpireIfNeeded(r, c.get), ActOne(r, a, c).0;
            var was, left := OutcomeOf(got), OutcomeOf(v);
            match a
            case Submit(envelope) =>
              left == was.(status := Fulfilled, ciphertext := Some(envelope), completedByUser := true, used := true)
            case Approve => left == was.(status := Approved, decision := Some(Yes), completedByUser := true, used := false)
            case Deny => left == was.(status := Denied, decision := Some(No), completedByUser := true, used := true)
            case Cancel =>
              if IsSettled(got.status) then v == got
              else left == was.(status := Cancelled, completedByUser := false, used := true)
            case CompleteChallenge => left == was.(status := ChallengeCompleted, completedByUser := true, used := true)
            case Release => left == was.(status := Released, owner := Agent, completedByUser := true, used := true)
            case RecordFrame(frame) => left == was.(frame := Some(frame))
            case ValidateFrame(_) => v == got
            case ConsumeApproval => left == was.(status := Consumed, used := true)
    ensures ActOne(r, a, c).1.request.(updatedAt := 0.0) == ActOne(r, a, c).0.(updatedAt := 0.0)
    ensures a.ValidateFrame? || (a.Cancel? && IsSettled(ExpireIfNeeded(r, c.get).status)) || ActOne(r, a, c).0.updatedAt == c.write
  {}

  /** A method that is not done leaves the record as read, or marks it expired if its time was up at the check. */
  lemma RefusedLeaves(r: Request, a: Action, c: Clock)
    requires !ActOne(r, a, c).1.Done?
    ensures var got, v := ExpireIfNeeded(r, c.get), ActOne(r, a, c).0;
            v == if ActOne(r, a, c).1.RequestExpired? then got.(status := Expired, updatedAt := c.write) else got
  {}

  // ---------------------------------------------------------------- the store object

  class RequestStore {
    var requests: Store

    constructor ()
      ensures requests == map[]
    {
      requests := map[];
    }

    method CreateRequest(id: string, requestType: string, origin: string, contextId: Option<string>,
                         ttl: real, fingerprint: Option<string>, now: real) returns (r: Option<Request>)
      requires id !in requests && Keyed(requests)
      modifies this
      ensures Keyed(requests) && (r.Some? <==> IsKnownType(requestType))
      ensures r.None? ==> requests == old(requests)
      ensures r.Some? ==> r.value == Create(id, requestType, origin, contextId, ttl, fingerprint, now)
                          && IsNewRequest(r.value, id, requestType, origin, contextId, ttl, fingerprint, now)
                          && requests == old(requests)[id := r.value]
    {
      TypesExactly(requestType);
      if requestType !in REQUEST_TYPES {
        return None;
      }
      var request := Request(id, requestType, origin, contextId, now + ttl, Pending, true, Agent, None, None,
                             None, fingerprint, false, false, now);
      if requestType in {"human_takeover", "account_registration"} {
        request := request.(owner := User, status := UserControl);
      }
      requests := requests[id := request];
      r := Some(request);
    }

    /** Marks every overdue expirable request expired, one at a time. */
    method ListRequests(now: real) returns (visible: set<string>)
      modifies this
      ensures requests == List(old(requests), now)
      ensures visible == set id | id in requests && requests[id].status != Expired
    {
      var todo := requests.Keys;
      while todo != {}
        invariant todo <= requests.Keys == old(requests).Keys
        invariant forall id :: id in requests ==>
                    requests[id] == if id in todo then old(requests)[id] else ExpireIfNeeded(old(requests)[id], now)
        decreases todo
      {
        var id :| id in todo;
        var r := requests[id];
        if IsExpirable(r.status) && IsExpired(r, now) {
          requests := requests[id := r.(status := Expired, updatedAt := now)];
        }
        todo := todo - {id};
      }
      visible := set id | id in requests && requests[id].status != Expired;
    }

    method GetRequest(id: string, now: real) returns (r: Option<Request>)
      modifies this
      ensures requests == Get(old(requests), id, now)
      ensures r == if id in old(requests) then Some(ExpireIfNeeded(old(requests)[id], now)) else None
    {
      if id !in requests {
        return None;
      }
      var request := requests[id];
      if IsExpirable(request.status) && IsExpired(request, now) {
        request := request.(status := Expired, updatedAt := now);
        requests := requests[id := request];
      }
      assert requests == old(requests)[id := request];
      r := Some(request);
    }

    method UpdateRequest(r: Request, now: real)
      modifies this
      ensures requests == Update(old(requests), r, now)
    {
      requests := requests[r.id := r.(updatedAt := now)];
    }

    /** None when the request may be acted on; otherwise the refusal, after recording an expiry. */
    method EnsureActionable(r: Request, allowFulfilled: bool, c: Clock) returns (refusal: Option<Reply>)
      modifies this
      ensures IsExpired(r, c.check) ==>
                refusal == Some(RequestExpired) && requests == Update(old(requests), r.(status := Expired), c.write)
      ensures !IsExpired(r, c.check) ==> requests == old(requests)
      ensures !IsExpired(r, c.check) ==>
                refusal == if r.used && !(allowFulfilled && r.status == Fulfilled) then Some(AlreadyUsed) else None
    {
      if IsExpired(r, c.check) {
        UpdateRequest(r.(status := Expired), c.write);
        return Some(RequestExpired);
      }
      if r.used && !(allowFulfilled && r.status == Fulfilled) {
        return Some(AlreadyUsed);
      }
      refusal := None;
    }

    method CancelRequest(id: string, c: Clock) returns (reply: Reply)
      requires Keyed(requests)
      modifies this
      ensures (requests, reply) == Act(old(requests), id, Cancel, c)
    {
      var got := GetRequest(id, c.get);
      if got.None? {
        return NoSuchRequest;
      }
      var r := got.value;
      if IsCompleted(r.status) || IsAborted(r.status) {
        return Done(r);
      }
      r := r.(status := Cancelled, used := r.oneTimeUse, completedByUser := false);
      UpdateRequest(r, c.write);
      assert requests == old(requests)[id := Stamped(r, c.write)];
      reply := Done(r);
    }

    /** The shape shared by the other methods: read, check the type if it matters, check, change, write. */
    method Perform(id: string, a: Action, c: Clock) returns (reply: Reply)
      requires Keyed(requests) && !a.Cancel?
      modifies this
      ensures (requests, reply) == Act(old(requests), id, a, c)
    {
      var got := GetRequest(id, c.get);
      if got.None? {
        return NoSuchRequest;
      }
      var r := got.value;
      if NeedsTakeover(a) && !IsTakeover(r) {
        return WrongType;
      }
      var refusal := EnsureActionable(r, a.CompleteChallenge?, c);
      if refusal.Some? {
        assert refusal == Some(RequestExpired) ==> requests == old(requests)[id := Stamped(r.(status := Expired), c.write)];
        return refusal.value;
      }
      reply := Transition(r, a, c.check);
      if reply.Done? && !a.ValidateFrame? {
        UpdateRequest(reply.request, c.write);
        assert requests == old(requests)[id := Stamped(reply.request, c.write)];
      }
    }
  }
}
