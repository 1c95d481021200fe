/** The controller lease (hmi/backend/services/session_lock_service.py).  Tokens are drawn from
    a counter, so a fresh token differs from every earlier one; the clock is a parameter. */
module SessionLock {
  import opened Wrappers

  type Token = nat

  datatype Lease = Lease(token: Token, sessionId: string, operatorId: string, expiresAt: int)

  /** The lock's state as a value: the slot, the time to live, and the next token to issue. */
  datatype Slot = Slot(active: Option<Lease>, ttl: int, nextToken: Token)

  datatype Failure = HeldByAnotherSession | TakeoverNeedsReason | NoLease | OtherSession | OtherOperator
                   | TokenMismatch | TokenRequired

  datatype Answer = Granted(lease: Lease) | Released | Refused(why: Failure)

  function Purge(s: Slot, now: int): Slot {
    if s.active.Some? && s.active.value.expiresAt <= now then s.(active := None) else s
  }

  /** The chain of ownership checks shared by renew, release and assert_controller. */
  function Ownership(l: Lease, sessionId: string, operatorId: string, token: Token): Option<Failure> {
    if l.sessionId != sessionId then Some(OtherSession)
    else if l.operatorId != operatorId then Some(OtherOperator)
    else if l.token != token then Some(TokenMismatch)
    else None
  }

  function Acquire(s: Slot, now: int, sessionId: string, operatorId: string,
                   force: bool, reason: string): (Slot, Answer) {
    var p := Purge(s, now);
    if p.active.Some? && p.active.value.sessionId != sessionId && !force then
      (p, Refused(HeldByAnotherSession))
    else if p.active.Some? && p.active.value.sessionId != sessionId && reason == "" then
      (p, Refused(TakeoverNeedsReason))
    else if p.active.Some? && p.active.value.sessionId == sessionId then
      var l := p.active.value.(operatorId := operatorId, expiresAt := now + p.ttl);
      (p.(active := Some(l)), Granted(l))
    else
      var l := Lease(p.nextToken, sessionId, operatorId, now + p.ttl);
      (p.(active := Some(l), nextToken := p.nextToken + 1), Granted(l))
  }

  function Renew(s: Slot, now: int, sessionId: string, operatorId: string, token: Token): (Slot, Answer) {
    var p := Purge(s, now);
    if p.active.None? then (p, Refused(NoLease))
    else
      match Ownership(p.active.value, sessionId, operatorId, token)
      case Some(why) => (p, Refused(why))
      case None =>
        var l := p.active.value.(expiresAt := now + p.ttl);
        (p.(active := Some(l)), Granted(l))
  }

  function Release(s: Slot, sessionId: string, operatorId: string, token: Token): (Slot, Answer) {
    if s.active.None? then (s, Released)
    else
      match Ownership(s.active.value, sessionId, operatorId, token)
      case Some(why) => (s, Refused(why))
      case None => (s.(active := None), Released)
  }

  function AssertController(s: Slot, now: int, sessionId: string, operatorId: string,
                            token: Option<Token>): (Slot, Answer) {
    if token.None? then (s, Refused(TokenRequired))
    else
      var p := Purge(s, now);
      if p.active.None? then (p, Refused(NoLease))
      else
        match Ownership(p.active.value, sessionId, operatorId, token.value)
        case Some(why) => (p, Refused(why))
        case None => (p, Granted(p.active.value))
  }

  /** The service object: every method reads and overwrites the slot. */
  class SessionLockService {
    const ttl: int
    var activeController: Option<Lease>
    var nextToken: Token

    function View(): Slot
      reads this
    {
      Slot(activeController, ttl, nextToken)
    }

    constructor (ttlSeconds: int)
      ensures View() == Slot(None, ttlSeconds, 0)
    {
      ttl := ttlSeconds;
      activeController := None;
      nextToken := 0;
    }

    method PurgeIfExpired(now: int)
      modifies this
      ensures View() == Purge(old(View()), now)
    {
      if activeController.Some? && activeController.value.expiresAt <= now {
        activeController := None;
      }
    }

    method CurrentController(now: int) returns (lease: Option<Lease>)
      modifies this
      ensures View() == Purge(old(View()), now) && lease == View().active
    {
      PurgeIfExpired(now);
      lease := activeController;
    }

    method AcquireController(now: int, sessionId: string, operatorId: string, force: bool, reason: string)
      returns (answer: Answer)
      modifies this
      ensures (View(), answer) == Acquire(old(View()), now, sessionId, operatorId, force, reason)
    {
      PurgeIfExpired(now);
      if activeController.Some? && activeController.value.sessionId != sessionId {
        if !force {
          return Refused(HeldByAnotherSession);
        }
        if reason == "" {
          return Refused(TakeoverNeedsReason);
        }
      }
      if activeController.Some? && activeController.value.sessionId == sessionId {
        var renewed := activeController.value.(operatorId := operatorId, expiresAt := now + ttl);
        activeController := Some(renewed);
        return Granted(renewed);
      }
      var lease := Lease(nextToken, sessionId, operatorId, now + ttl);
      nextToken := nextToken + 1;
      activeController := Some(lease);
      return Granted(lease);
    }

    method RenewLease(now: int, sessionId: string, operatorId: string, token: Token) returns (answer: Answer)
      modifies this
      ensures (View(), answer) == Renew(old(View()), now, sessionId, operatorId, token)
    {
      PurgeIfExpired(now);
      if activeController.None? {
        return Refused(NoLease);
      }
      var lease := activeController.value;
      var why := Ownership(lease, sessionId, operatorId, token);
      if why.Some? {
        return Refused(why.value);
      }
      activeController := Some(lease.(expiresAt := now + ttl));
      return Granted(activeController.value);
    }

    method ReleaseLease(sessionId: string, operatorId: string, token: Token) returns (answer: Answer)
      modifies this
      ensures (View(), answer) == Release(old(View()), sessionId, operatorId, token)
    {
      if activeController.None? {
        return Released;
      }
      var why := Ownership(activeController.value, sessionId, operatorId, token);
      if why.Some? {
        return Refused(why.value);
      }
      activeController := None;
      return Released;
    }

    method AssertOwner(now: int, sessionId: string, operatorId: string, token: Option<Token>)
      returns (answer: Answer)
      modifies this
      ensures (View(), answer) == AssertController(old(View()), now, sessionId, operatorId, token)
    {
      if token.None? {
        return Refused(TokenRequired);
      }
      PurgeIfExpired(now);
      if activeController.None? {
        return Refused(NoLease);
      }
      var why := Ownership(activeController.value, sessionId, operatorId, token.value);
      if why.Some? {
        return Refused(why.value);
      }
      return Granted(activeController.value);
    }

    method Serve(e: Event) returns (answer: Answer)
      modifies this
      ensures (View(), answer) == Respond(old(View()), e)
    {
      hide Acquire, Renew, Release, AssertController, Purge;
      match e.call {
        case AcquireCall(sid, oid, force, reason) => answer := AcquireController(e.now, sid, oid, force, reason);
        case RenewCall(sid, oid, token) => answer := RenewLease(e.now, sid, oid, token);
        case ReleaseCall(sid, oid, token) => answer := ReleaseLease(sid, oid, token);
        case AssertCall(sid, oid, token) => answer := AssertOwner(e.now, sid, oid, token);
        case CurrentCall =>
          var _ := CurrentController(e.now);
          answer := Released;
      }
    }
  }

  // ---- runs of the lock ----

  datatype Call =
    | AcquireCall(sessionId: string, operatorId: string, force: bool, reason: string)
    | RenewCall(sessionId: string, operatorId: string, token: Token)
    | ReleaseCall(sessionId: string, operatorId: string, token: Token)
    | AssertCall(sessionId: string, operatorId: string, presented: Option<Token>)
    | CurrentCall

  datatype Event = At(now: int, call: Call)

  function Respond(s: Slot, e: Event): (Slot, Answer) {
    match e.call
    case AcquireCall(sid, oid, force, reason) => Acquire(s, e.now, sid, oid, force, reason)
    case RenewCall(sid, oid, token) => Renew(s, e.now, sid, oid, token)
    case ReleaseCall(sid, oid, token) => Release(s, sid, oid, token)
    case AssertCall(sid, oid, token) => AssertController(s, e.now, sid, oid, token)
    case CurrentCall => (Purge(s, e.now), Released)
  }

  function Run(s: Slot, events: seq<Event>): Slot
    decreases |events|
  {
    if events == [] then s else Run(Respond(s, events[0]).0, events[1..])
  }

  /** The clock never runs backwards from `now` through the events. */
  ghost predicate Nondecreasing(now: int, events: seq<Event>) {
    forall i | 0 <= i < |events| :: now <= events[i].now && (i > 0 ==> events[i - 1].now <= events[i].now)
  }

  /** The token is the one in the slot and its lease has not run out. */
  predicate Live(s: Slot, token: Token, now: int) {
    s.active.Some? && s.active.value.token == token && now < s.active.value.expiresAt
  }

  ghost predicate Wf(s: Slot) {
    s.active.Some? ==> s.active.value.token < s.nextToken
  }

  lemma DeadStep(s: Slot, token: Token, now: int, e: Event)
    requires Wf(s) && token < s.nextToken && !Live(s, token, now) && now <= e.now
    ensures var t := Respond(s, e).0; Wf(t) && token < t.nextToken && !Live(t, token, e.now)
    ensures e.call.RenewCall? && e.call.token == token ==> Respond(s, e).1.Refused?
    ensures e.call.AssertCall? && e.call.presented == Some(token) ==> Respond(s, e).1.Refused?
  {
  }

  /** A token that is not live, because its lease ran out or is no longer in the slot, stays dead over
      every run: it is never live again, and neither renew nor assert_controller accepts it at the end. */
  lemma {:induction false} DeadTokenStaysDead(s: Slot, token: Token, now: int, events: seq<Event>, last: Event)
    requires Wf(s) && token < s.nextToken && !Live(s, token, now)
    requires Nondecreasing(now, events + [last])
    ensures var t := Run(s, events);
            && !Live(t, token, last.now)
            && (last.call.RenewCall? && last.call.token == token ==> Respond(t, last).1.Refused?)
            && (last.call.AssertCall? && last.call.presented == Some(token) ==> Respond(t, last).1.Refused?)
    decreases |events|
  {
    var all := events + [last];
    assert now <= all[0].now;
    if events == [] {
      assert last == all[0];
      DeadStep(s, token, now, last);
    } else {
      var e := events[0];
      assert e == all[0];
      DeadStep(s, token, now, e);
      var rest := events[1..] + [last];
      assert rest == all[1..];
      forall i | 0 <= i < |rest| ensures e.now <= rest[i].now && (i > 0 ==> rest[i - 1].now <= rest[i].now) {
        assert rest[i] == all[i + 1];
        Later(now, all, i + 1);
      }
      DeadTokenStaysDead(Respond(s, e).0, token, e.now, events[1..], last);
    }
  }

  lemma {:induction false} Later(now: int, events: seq<Event>, i: nat)
    requires Nondecreasing(now, events) && i < |events|
    ensures events[0].now <= events[i].now
  {
    if i > 0 {
      Later(now, events, i - 1);
      assert events[i - 1].now <= events[i].now;
    }
  }

  // ---- the answers ----

  /** Some lease is in the slot and has not run out. */
  predicate Held(s: Slot, now: int) {
    s.active.Some? && now < s.active.value.expiresAt
  }

  /** The three fields that make a caller the owner. */
  predicate OwnerIs(l: Lease, sessionId: string, operatorId: string, token: Token) {
    l.sessionId == sessionId && l.operatorId == operatorId && l.token == token
  }

  /** An acquire is refused exactly when another session holds the lease and is not forced aside with a
      reason; granted, it names the caller from now on, under the old token in the holder's own session and
      under a new one otherwise. */
  lemma AcquireAnswers(s: Slot, now: int, sessionId: string, operatorId: string, force: bool, reason: string)
    ensures var (t, answer) := Acquire(s, now, sessionId, operatorId, force, reason);
            var own := Held(s, now) && s.active.value.sessionId == sessionId;
            var other := Held(s, now) && s.active.value.sessionId != sessionId;
            && (answer == Refused(HeldByAnotherSession) <==> other && !force)
            && (answer == Refused(TakeoverNeedsReason) <==> other && force && reason == "")
            && (answer.Granted? <==> !other || (force && reason != ""))
            && (answer.Granted? ==>
                  && answer.lease == Lease(if own then s.active.value.token else s.nextToken, sessionId, operatorId, now + s.ttl)
                  && t == Slot(Some(answer.lease), s.ttl, if own then s.nextToken else s.nextToken + 1))
            && (!answer.Granted? ==> t == s)
  {
  }

  /** A renewal is granted exactly to the owner of a lease that has not run out, and extends it. */
  lemma RenewAnswers(s: Slot, now: int, sessionId: string, operatorId: string, token: Token)
    ensures var (t, answer) := Renew(s, now, sessionId, operatorId, token);
            && (answer.Granted? <==> Held(s, now) && OwnerIs(s.active.value, sessionId, operatorId, token))
            && (answer.Granted? ==>
                  answer.lease == Lease(token, sessionId, operatorId, now + s.ttl) && t == s.(active := Some(answer.lease)))
            && (!answer.Granted? ==> t == if Held(s, now) then s else s.(active := None))
            && (answer == Refused(NoLease) <==> !Held(s, now))
            && (answer == Refused(OtherSession) <==> Held(s, now) && s.active.value.sessionId != sessionId)
            && (answer == Refused(OtherOperator) <==>
                  Held(s, now) && s.active.value.sessionId == sessionId && s.active.value.operatorId != operatorId)
            && (answer == Refused(TokenMismatch) <==>
                  && Held(s, now) && s.active.value.sessionId == sessionId && s.active.value.operatorId == operatorId
                  && s.active.value.token != token)
  {
  }

  /** A release does not look at the clock: it succeeds on an empty slot and for the owner, and then the slot
      is empty. */
  lemma ReleaseAnswers(s: Slot, sessionId: string, operatorId: string, token: Token)
    ensures var (t, answer) := Release(s, sessionId, operatorId, token);
            && (answer == Released <==> s.active.None? || OwnerIs(s.active.value, sessionId, operatorId, token))
            && t == (if answer == Released then s.(active := None) else s)
            && (answer == Refused(OtherSession) <==> s.active.Some? && s.active.value.sessionId != sessionId)
            && (answer == Refused(OtherOperator) <==>
                  s.active.Some? && s.active.value.sessionId == sessionId && s.active.value.operatorId != operatorId)
            && (answer == Refused(TokenMismatch) <==>
                  && s.active.Some? && s.active.value.sessionId == sessionId && s.active.value.operatorId == operatorId
                  && s.active.value.token != token)
  {
  }

  /** The check grants exactly the owner of a lease that has not run out, and writes nothing but the removal
      of one that has; without a token it looks at nothing. */
  lemma AssertAnswers(s: Slot, now: int, sessionId: string, operatorId: string, token: Option<Token>)
    ensures var (t, answer) := AssertController(s, now, sessionId, operatorId, token);
            && (answer.Granted? <==> token.Some? && Held(s, now) && OwnerIs(s.active.value, sessionId, operatorId, token.value))
            && (answer.Granted? ==> answer.lease == s.active.value)
            && t == (if token.None? || Held(s, now) then s else s.(active := None))
            && (answer == Refused(TokenRequired) <==> token.None?)
            && (answer == Refused(NoLease) <==> token.Some? && !Held(s, now))
            && (answer.Granted? || answer.Refused?)
  {
  }

  // ---- displacement of a holder ----

  datatype Holder = Holder(sessionId: string, operatorId: string, token: Token)

  predicate Holds(s: Slot, h: Holder) {
    && s.active.Some?
    && s.active.value.sessionId == h.sessionId
    && s.active.value.operatorId == h.operatorId
    && s.active.value.token == h.token
  }

  /** The calls that end a live tenure. */
  predicate Displaces(c: Call, h: Holder) {
    match c
    case ReleaseCall(sid, oid, token) => Holder(sid, oid, token) == h
    case AcquireCall(sid, oid, force, reason) =>
      if sid == h.sessionId then oid != h.operatorId else force && reason != ""
    case _ => false
  }

  /** While its lease is live a holder loses the lease exactly by its own release, by a forced
      takeover from another session that states a reason, or by an acquire of the same session
      under another operator. */
  lemma DisplacedExactly(s: Slot, h: Holder, e: Event)
    requires Wf(s) && Holds(s, h) && e.now < s.active.value.expiresAt
    ensures Holds(Respond(s, e).0, h) <==> !Displaces(e.call, h)
  {
  }

  /** An acquire of the holder's own session keeps the lease, and its token, in the slot. */
  predicate OwnSessionAcquire(c: Call, h: Holder) {
    c.AcquireCall? && c.sessionId == h.sessionId
  }

  /** A displacing call kills the token, unless it is an acquire of the holder's own session: that one
      leaves the token live in the hands of the other operator. */
  lemma DisplacedTokenLivesExactly(s: Slot, h: Holder, e: Event)
    requires Wf(s) && Holds(s, h) && e.now < s.active.value.expiresAt && Displaces(e.call, h)
    ensures Wf(Respond(s, e).0) && h.token < Respond(s, e).0.nextToken
    ensures Live(Respond(s, e).0, h.token, e.now) <==> OwnSessionAcquire(e.call, h) && s.ttl > 0
  {
  }

  /** The holder presents its credentials. */
  predicate Presents(c: Call, h: Holder) {
    c == RenewCall(h.sessionId, h.operatorId, h.token) || c == AssertCall(h.sessionId, h.operatorId, Some(h.token))
  }

  /** In every continuation the displaced holder's credentials are refused. */
  ghost predicate ShutOut(s: Slot, h: Holder, now: int) {
    forall events, last | Nondecreasing(now, events + [last]) && Presents(last.call, h) ::
      Respond(Run(s, events), last).1.Refused?
  }

  /** A displaced holder is shut out for good exactly when the displacing call was not an acquire of its
      own session: after such an acquire the first operator only has to acquire again. */
  lemma ShutOutExactly(s: Slot, h: Holder, e: Event)
    requires Wf(s) && Holds(s, h) && e.now < s.active.value.expiresAt && Displaces(e.call, h)
    ensures ShutOut(Respond(s, e).0, h, e.now) <==> !(OwnSessionAcquire(e.call, h) && s.ttl > 0)
  {
    hide Respond;
    var t := Respond(s, e).0;
    DisplacedTokenLivesExactly(s, h, e);
    if OwnSessionAcquire(e.call, h) && s.ttl > 0 {
      var back, last := At(e.now, AcquireCall(h.sessionId, h.operatorId, false, "")),
                        At(e.now, RenewCall(h.sessionId, h.operatorId, h.token));
      BackAgain(s, h, e, back, last);
      assert Nondecreasing(e.now, [back] + [last]);
      assert !Respond(Run(t, [back]), last).1.Refused?;
    } else {
      forall events, last | Nondecreasing(e.now, events + [last]) && Presents(last.call, h)
        ensures Respond(Run(t, events), last).1.Refused?
      {
        DeadTokenStaysDead(t, h.token, e.now, events, last);
      }
    }
  }

  lemma BackAgain(s: Slot, h: Holder, e: Event, back: Event, last: Event)
    requires Holds(s, h) && e.now < s.active.value.expiresAt && OwnSessionAcquire(e.call, h) && s.ttl > 0
    requires back == At(e.now, AcquireCall(h.sessionId, h.operatorId, false, ""))
    requires last == At(e.now, RenewCall(h.sessionId, h.operatorId, h.token))
    ensures Respond(Run(Respond(s, e).0, [back]), last).1.Granted?
  {
    var t := Respond(s, e).0;
    var u := Respond(t, back).0;
    assert [back][1..] == [];
    assert Run(t, [back]) == u;
  }

  /** The calls by which the holder itself pushes the deadline out. */
  predicate Refreshes(c: Call, h: Holder) {
    match c
    case RenewCall(sid, oid, token) => Holder(sid, oid, token) == h
    case AcquireCall(sid, oid, _, _) => sid == h.sessionId && oid == h.operatorId
    case _ => false
  }

  /** Everything that happens, happens before the deadline the holder's latest refresh set: the
      gaps between refreshes are shorter than the time to live. */
  ghost predicate Timely(events: seq<Event>, h: Holder, deadline: int, ttl: int)
    decreases |events|
  {
    events == [] ||
    (events[0].now < deadline
     && Timely(events[1..], h, if Refreshes(events[0].call, h) then events[0].now + ttl else deadline, ttl))
  }

  /** A holder that refreshes in time keeps its lease, with its token, over every run without a
      displacing call. */
  lemma {:induction false} TimelyHolderKeepsLease(s: Slot, h: Holder, events: seq<Event>)
    requires Wf(s) && Holds(s, h) && Timely(events, h, s.active.value.expiresAt, s.ttl)
    requires forall e | e in events :: !Displaces(e.call, h)
    ensures Holds(Run(s, events), h)
    decreases |events|
  {
    if events != [] {
      var e := events[0];
      var t := Respond(s, e).0;
      assert !Displaces(e.call, h);
      assert Holds(t, h) && Wf(t) && t.ttl == s.ttl;
      assert t.active.value.expiresAt == if Refreshes(e.call, h) then e.now + s.ttl else s.active.value.expiresAt;
      forall x | x in events[1..] ensures !Displaces(x.call, h) {
        assert x in events;
      }
      TimelyHolderKeepsLease(t, h, events[1..]);
    }
  }

  /** The third displacing call is easy to overlook: it needs no force flag and no reason, and
      the displaced operator's renewal is refused although its token is still in the slot. */
  lemma SameSessionTakeover(s: Slot, h: Holder, other: string, now: int)
    requires Holds(s, h) && now < s.active.value.expiresAt && other != h.operatorId
    ensures var t := Acquire(s, now, h.sessionId, other, false, "").0;
            && t.active.value.token == h.token
            && (s.ttl > 0 ==> Renew(t, now, h.sessionId, h.operatorId, h.token).1 == Refused(OtherOperator))
  {
  }
}
