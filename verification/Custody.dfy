/** Gateway custody of the continuation token: which requests it is attached to, and what a
  self-service submit leaves behind when stores and services fail. */
module Custody {
  import Authz
  import opened Strings
  import opened TokenKeys
  import opened Wrappers

  // ---- Which application a path names ----------------------------------------------------------

  function StripSlashes(s: string): string {
    if s == "" then ""
    else if s[0] == '/' then StripSlashes(s[1..])
    else if s[|s| - 1] == '/' then StripSlashes(s[..|s| - 1])
    else s
  }

  predicate AllDigits(s: string) {
    s != "" && forall i | 0 <= i < |s| :: '0' <= s[i] <= '9'
  }

  const APPLICATIONS := "applications"

  /** The application id in applications/{id}/..., if the path names one. */
  function AppIdInPath(path: string): Option<string> {
    var parts := Split(StripSlashes(path), '/');
    if |parts| >= 2 && parts[0] == APPLICATIONS && AllDigits(parts[1]) then Some(parts[1]) else None
  }

  lemma {:induction false} SplitTakesFirst(s: string, sep: char)
    ensures |Split(s, sep)| >= 2 <==> Partition(s, sep).found
    ensures Split(s, sep)[0] == Partition(s, sep).before
    ensures Partition(s, sep).found ==> Split(s, sep)[1..] == Split(Partition(s, sep).after, sep)
  {
    if s != "" && s[0] != sep {
      SplitTakesFirst(s[1..], sep);
    }
  }

  /** A path names an application exactly when, apart from outer slashes, it is "applications/",
      digits, and then nothing or another segment. */
  lemma PathNamesApplicationExactly(path: string, id: string)
    ensures AppIdInPath(path) == Some(id) <==> AllDigits(id) && StartsWithSegments(StripSlashes(path), APPLICATIONS, id)
  {
    assert '/' !in APPLICATIONS;
    if AllDigits(id) {
      assert '/' !in id;
      SegmentsExactly(StripSlashes(path), APPLICATIONS, id);
    }
  }

  /** `s` is head/id followed by nothing or by a further segment. */
  ghost predicate StartsWithSegments(s: string, head: string, id: string) {
    exists rest :: FollowsSegments(s, head, id, rest)
  }

  ghost predicate FollowsSegments(s: string, head: string, id: string, rest: string) {
    (rest == "" || rest[0] == '/') && s == head + ['/'] + (id + rest)
  }

  predicate Segments(s: string, head: string, id: string) {
    var parts := Split(s, '/');
    |parts| >= 2 && parts[0] == head && parts[1] == id
  }

  lemma SegmentsExactly(s: string, head: string, id: string)
    requires '/' !in head && '/' !in id
    ensures Segments(s, head, id) <==> StartsWithSegments(s, head, id)
  {
    if Segments(s, head, id) {
      SplitTakesFirst(s, '/');
      PartitionPieces(s, '/');
      var rest := FirstSegment(Partition(s, '/').after, id);
      assert FollowsSegments(s, head, id, rest);
    }
    if StartsWithSegments(s, head, id) {
      var rest :| FollowsSegments(s, head, id, rest);
      FollowingSplits(s, head, id, rest);
    }
  }

  lemma {:induction false} SplitHead(s: string, sep: char)
    ensures Split(s, sep)[0] == Partition(s, sep).before
  {
    if s != "" && s[0] != sep {
      SplitHead(s[1..], sep);
    }
  }

  lemma FirstSegment(s: string, id: string) returns (rest: string)
    requires Split(s, '/')[0] == id
    ensures (rest == "" || rest[0] == '/') && s == id + rest
  {
    SplitHead(s, '/');
    PartitionPieces(s, '/');
    rest := Remainder(s, Partition(s, '/'));
  }

  lemma Remainder(s: string, p: Parts) returns (rest: string)
    requires s == if p.found then p.before + ['/'] + p.after else p.before
    ensures (rest == "" || rest[0] == '/') && s == p.before + rest
  {
    if p.found {
      rest := ['/'] + p.after;
      Regroup(p.before, ['/'], p.after);
    } else {
      rest := "";
    }
  }

  lemma FollowingSplits(s: string, head: string, id: string, rest: string)
    requires '/' !in head && '/' !in id && FollowsSegments(s, head, id, rest)
    ensures Segments(s, head, id)
  {
    PartitionAtFirst(head, id + rest, '/');
    SplitTakesFirst(s, '/');
    SplitTakesFirst(id + rest, '/');
    if rest == "" {
      assert id + rest == id;
      PartitionWithout(id, '/');
    } else {
      PartitionAtFirst(id, rest[1..], '/');
      assert id + rest == id + ['/'] + rest[1..];
    }
  }

  lemma {:induction false} PartitionWithout(s: string, sep: char)
    requires sep !in s
    ensures Partition(s, sep) == Parts(s, false, "")
  {
    if s != "" { PartitionWithout(s[1..], sep); }
  }

  // ---- Injection --------------------------------------------------------------------------------

  /** A resume session: the application id as text, and the raw token. */
  datatype Session = Session(appId: string, token: string)

  /** The token the gateway attaches to the proxied request; empty when none. */
  function InjectedToken(path: string, session: Option<Session>): string {
    if session.None? then ""
    else
      var id := AppIdInPath(path);
      if id.Some? && session.value.appId == id.value then session.value.token
      else if StripSlashes(path) == "offer" then session.value.token
      else ""
  }

  /** End to end: whatever path the browser asks for and whatever application the request ends up
      acting on, a session opened by the submit of one application lets a caller who is neither
      officer nor owner onto that application only; and on another application's path the token is
      not even sent. */
  lemma SessionDrivesItsOwnApplication(worlds: seq<Authz.World>, steps: seq<Authz.Step>, i: nat, path: string,
                                       session: Session, issuedFor: int, target: int, role: string, userId: Option<int>)
    requires Authz.IsRun(worlds, steps) && i < |worlds| && CollisionFree(worlds[0].config.digest)
    requires issuedFor in worlds[i].grants && session.token == worlds[i].grants[issuedFor].raw
    requires !Authz.IsOfficer(role)
    requires target in worlds[i].db.apps ==> !Authz.IsOwner(worlds[i].db, worlds[i].db.apps[target], userId)
    requires var caller := Authz.Caller(role, userId, InjectedToken(path, Some(session)));
             Authz.Allowed(worlds[i].db, worlds[i].config, target, caller, worlds[i].now)
    ensures target == issuedFor
    ensures AppIdInPath(path).Some? ==> AppIdInPath(path).value == session.appId
  {
    var caller := Authz.Caller(role, userId, InjectedToken(path, Some(session)));
    Authz.TokenIsScopedOrAbsent(worlds, steps, i, issuedFor, target, caller);
    OfferPathNamesNothing(path);
  }

  lemma OfferPathNamesNothing(path: string)
    ensures StripSlashes(path) == "offer" ==> AppIdInPath(path).None?
  {
    PartitionWithout("offer", '/');
    SplitTakesFirst("offer", '/');
  }

  // ---- Submit -----------------------------------------------------------------------------------

  /** Origination's answer to the proxied submit; `token` is empty when the body carries none. */
  datatype Answer = Answer(status: int, token: string, appId: Option<int>)

  /** One attempt to store the resume session: whether the store took it and whether the call
      returned. */
  datatype Attempt = Attempt(stored: bool, returned: bool)

  /** Whether the abandon call answered; one that raised may have deleted all the same. */
  datatype AbandonReply = Unreachable(deleted: bool) | Handled(deleted: bool)

  /** What the rest of the system does during one self-service submit. `answer` is None when the
      proxied call raised in the gateway. */
  datatype Surroundings = Surroundings(redisUp: bool, committed: bool, answer: Option<Answer>,
                                       create: nat -> Attempt, serviceToken: bool, abandon: AbandonReply)

  datatype Compensation = NotTried | Skipped | CallFailed | Asked(deleted: bool)

  /** How the submit ended: the browser's status and cookie, whether the application and a session for
      it exist, and what compensation was tried. */
  datatype Ending = Ending(status: int, cookie: bool, application: bool, session: bool, compensation: Compensation)

  const ATTEMPTS: nat := 3

  /** Only a committed submit is answered with 200, the id and the token; it may also be answered
      otherwise, when its commit is not acknowledged. A session call that returns has stored. */
  ghost predicate WellBehaved(x: Surroundings) {
    && (x.answer.Some? && Accepted(x.answer.value) ==> x.committed)
    && (forall k :: x.create(k).returned ==> x.create(k).stored)
  }

  predicate Accepted(a: Answer) {
    a.status == 200 && a.token != "" && a.appId.Some?
  }

  method CreateWithRetry(x: Surroundings) returns (created: bool, stored: bool)
    ensures created <==> exists k | 0 <= k < ATTEMPTS :: x.create(k).returned
    ensures created && WellBehaved(x) ==> stored
  {
    stored := false;
    for i := 0 to ATTEMPTS
      invariant forall k | 0 <= k < i :: !x.create(k).returned
    {
      stored := stored || x.create(i).stored;
      if x.create(i).returned {
        return true, stored;
      }
    }
    created := false;
  }

  method Abandon(x: Surroundings) returns (c: Compensation, deleted: bool)
    ensures c == Skipped <==> !x.serviceToken
    ensures c == CallFailed <==> x.serviceToken && x.abandon.Unreachable?
    ensures c != NotTried && (c.Asked? ==> c.deleted == deleted)
    ensures deleted <==> x.serviceToken && x.abandon.deleted
  {
    if !x.serviceToken {
      return Skipped, false;
    }
    deleted := x.abandon.deleted;
    c := if x.abandon.Unreachable? then CallFailed else Asked(deleted);
  }

  /** The application the applicant is left with: a usable one, none, or one whose compensation was
      skipped or did not delete it. */
  predicate Clean(e: Ending) {
    || (e.application && e.session && e.cookie)
    || !e.application
    || e.compensation == Skipped || e.compensation == CallFailed || e.compensation == Asked(false)
  }

  /** A self-service submit through the gateway. Redis down beforehand refuses it with nothing
      created. Otherwise the ending is clean exactly when a committed submit is answered as accepted:
      one whose answer is lost, or is anything else, strands the application with no cookie and no
      compensation. */
  method Submit(x: Surroundings) returns (e: Ending)
    requires WellBehaved(x)
    ensures !x.redisUp ==> e == Ending(503, false, false, false, NotTried)
    ensures Clean(e) <==> !(x.redisUp && x.committed && !(x.answer.Some? && Accepted(x.answer.value)))
    ensures e.cookie ==> e.application && e.session && e.status == 200 && e.compensation == NotTried
    ensures e.compensation != NotTried ==>
              !e.cookie && e.status == 503 && forall k | 0 <= k < ATTEMPTS :: !x.create(k).returned
  {
    if !x.redisUp {
      return Ending(503, false, false, false, NotTried);
    }
    if x.answer.None? {
      return Ending(500, false, x.committed, false, NotTried);
    }
    var a := x.answer.value;
    if Accepted(a) {
      var created, stored := CreateWithRetry(x);
      if !created {
        var c, deleted := Abandon(x);
        return Ending(503, false, !deleted, stored, c);
      }
      return Ending(200, true, true, stored, NotTried);
    }
    e := Ending(a.status, false, x.committed, false, NotTried);
  }
}
