/** Officer, owner or token authorization of application-scoped routes, over every run of issuing,
  key rotation, expiry, funding and abandonment. */
module Authz {
  import opened Strings
  import opened TokenKeys
  import opened Wrappers

  /** An application row; `token` is the stored digest, `expiresAt` null once retired. */
  datatype Row = Row(applicantId: Option<int>, token: Option<string>, expiresAt: Option<int>, funded: bool)

  /** `users` maps a user id to its applicant link; `loans` an application to its first loan. */
  datatype Db = Db(apps: map<int, Row>, users: map<int, Option<int>>, loans: map<int, int>)

  /** The identity the gateway forwards; an empty token means none. */
  datatype Caller = Caller(role: string, userId: Option<int>, token: string)

  const OFFICER_ROLES := {"underwriter", "admin"}

  function LowerAll(s: string): string {
    if s == "" then "" else [Lower(s[0])] + LowerAll(s[1..])
  }

  predicate IsOfficer(role: string) {
    LowerAll(Strip(role)) in OFFICER_ROLES
  }

  predicate Expired(expiresAt: Option<int>, now: int) {
    expiresAt.None? || now >= expiresAt.value
  }

  predicate IsOwner(db: Db, row: Row, userId: Option<int>) {
    && userId.Some? && userId.value in db.users && db.users[userId.value].Some?
    && row.applicantId == db.users[userId.value]
  }

  predicate TokenOpens(c: Config, row: Row, token: string, now: int) {
    && token != "" && row.token.Some? && row.token.value != ""
    && !Expired(row.expiresAt, now) && Accepts(c, token, row.token.value)
  }

  /** True when the request is let through, false for the uniform 404. */
  method RequireOfficerOrOwner(db: Db, c: Config, appId: int, caller: Caller, now: int) returns (allowed: bool)
    ensures allowed <==> Allowed(db, c, appId, caller, now)
  {
    if IsOfficer(caller.role) {
      return true;
    }
    if caller.userId.None? && caller.token == "" {
      return false;
    }
    if appId in db.apps {
      var row := db.apps[appId];
      if caller.userId.Some? {
        var linked := if caller.userId.value in db.users then db.users[caller.userId.value] else None;
        if linked.Some? && row.applicantId == linked {
          return true;
        }
      }
      if caller.token != "" && row.token.Some? && row.token.value != "" && !Expired(row.expiresAt, now) {
        var ok := VerifyToken(c, caller.token, row.token.value);
        if ok {
          return true;
        }
      }
    }
    allowed := false;
  }

  predicate Allowed(db: Db, c: Config, appId: int, caller: Caller, now: int) {
    || IsOfficer(caller.role)
    || (appId in db.apps && IsOwner(db, db.apps[appId], caller.userId))
    || (appId in db.apps && TokenOpens(c, db.apps[appId], caller.token, now))
  }

  /** The loan a retried anonymous accept may recover after funding, if any. */
  function TerminalAcceptReplay(db: Db, c: Config, appId: int, token: string): Option<int> {
    if token == "" || appId !in db.apps || !db.apps[appId].funded then None
    else
      var stored := db.apps[appId].token;
      if stored.None? || stored.value == "" || !Accepts(c, token, stored.value) then None
      else if appId in db.loans then Some(db.loans[appId]) else None
  }

  // ---- Runs -----------------------------------------------------------------------------------

  /** What was handed out for an application: the raw token, the key it was hashed under, and when it
      lapses. */
  datatype Grant = Grant(raw: string, key: Key, expiresAt: int)

  datatype World = World(db: Db, config: Config, now: int, grants: map<int, Grant>)

  datatype Step =
    | Submit(appId: int, applicantId: int, raw: string, ttl: int)
    | OtherRow(appId: int, linked: Option<int>)
    | Rotate(keys: seq<Key>, serviceToken: string, development: bool)
    | Tick(elapsed: nat)
    | Fund(appId: int, loanId: int)
    | Abandon(appId: int)

  ghost predicate Enabled(w: World, s: Step) {
    match s
    case Submit(appId, _, raw, _) =>
      // serial ids are never reused and raw tokens are fresh 256-bit values
      && appId !in w.db.apps && appId !in w.grants && raw != "" && (forall a | a in w.grants :: w.grants[a].raw != raw)
      && IssuingKey(w.config).Some?
    case OtherRow(appId, _) => appId !in w.db.apps && appId !in w.grants
    case Rotate(keys, _, _) => forall k | k in keys :: WellFormed(k)
    case Tick(_) => true
    case Fund(appId, _) => appId in w.db.apps
    case Abandon(appId) => appId in w.db.apps
  }

  ghost function Apply(w: World, s: Step): World
    requires Enabled(w, s)
  {
    match s
    case Submit(appId, applicantId, raw, ttl) =>
      var row := Row(Some(applicantId), HashToken(w.config, raw), Some(w.now + ttl), false);
      w.(db := w.db.(apps := w.db.apps[appId := row]),
         grants := w.grants[appId := Grant(raw, IssuingKey(w.config).value, w.now + ttl)])
    case OtherRow(appId, linked) => w.(db := w.db.(apps := w.db.apps[appId := Row(linked, None, None, false)]))
    case Rotate(keys, serviceToken, development) =>
      w.(config := w.config.(keys := keys, serviceToken := serviceToken, development := development))
    case Tick(elapsed) => w.(now := w.now + elapsed)
    case Fund(appId, loanId) =>
      var db := w.db.(apps := w.db.apps[appId := w.db.apps[appId].(expiresAt := None, funded := true)]);
      w.(db := if appId in db.loans then db else db.(loans := db.loans[appId := loanId]))
    case Abandon(appId) => w.(db := w.db.(apps := w.db.apps - {appId}))
  }

  ghost predicate IsRun(worlds: seq<World>, steps: seq<Step>) {
    && |worlds| == |steps| + 1
    && worlds[0].db.apps == map[] && worlds[0].grants == map[] && worlds[0].config.Valid()
    && forall i | 0 <= i < |steps| :: Enabled(worlds[i], steps[i]) && worlds[i + 1] == Apply(worlds[i], steps[i])
  }

  /** The row of an application that was granted a token. */
  ghost predicate RowMatchesGrant(w: World, row: Row, g: Grant) {
    && row.token == Some(Tag(w.config, g.key, g.raw))
    && (row.expiresAt == None || row.expiresAt == Some(g.expiresAt))
    && (row.funded ==> row.expiresAt == None)
  }

  ghost predicate Sound(w: World) {
    && w.config.Valid()
    && (forall a | a in w.grants :: w.grants[a].raw != "" && ':' !in w.grants[a].key.version)
    && (forall a, b | a in w.grants && b in w.grants && a != b :: w.grants[a].raw != w.grants[b].raw)
    && (forall a | a in w.db.apps && a in w.grants :: RowMatchesGrant(w, w.db.apps[a], w.grants[a]))
    && (forall a | a in w.db.apps && a !in w.grants :: w.db.apps[a].token == None)
  }

  lemma StepIsSound(w: World, s: Step)
    requires Sound(w) && Enabled(w, s)
    ensures Sound(Apply(w, s)) && Apply(w, s).config.digest == w.config.digest
  {
    var t := Apply(w, s);
    if s.Submit? {
      IssuingVersionHasNoColon(w.config);
    }
    forall a | a in t.db.apps && a in t.grants ensures RowMatchesGrant(t, t.db.apps[a], t.grants[a]) {
      if a in w.db.apps && a in w.grants { assert RowMatchesGrant(w, w.db.apps[a], w.grants[a]); }
    }
  }

  lemma {:induction false} EveryWorldIsSound(worlds: seq<World>, steps: seq<Step>, i: nat)
    requires IsRun(worlds, steps) && i < |worlds|
    ensures Sound(worlds[i]) && worlds[i].config.digest == worlds[0].config.digest
  {
    if i > 0 {
      EveryWorldIsSound(worlds, steps, i - 1);
      StepIsSound(worlds[i - 1], steps[i - 1]);
    }
  }

  /** The application's own grant, still live: the row exists and was not retired, the expiry is
      ahead, and the key it was issued under is still accepted. */
  ghost predicate LiveGrant(w: World, appId: int, token: string) {
    && appId in w.db.apps && appId in w.grants && token == w.grants[appId].raw
    && w.db.apps[appId].expiresAt != None && w.now < w.grants[appId].expiresAt
    && w.grants[appId].key in VerifyKeys(w.config)
  }

  /** In every run, a caller who is neither officer nor owner is let onto an application exactly by
      that application's own live token. */
  lemma TokenIsTheOnlyCapability(worlds: seq<World>, steps: seq<Step>, i: nat, appId: int, caller: Caller)
    requires IsRun(worlds, steps) && i < |worlds| && CollisionFree(worlds[0].config.digest)
    requires !IsOfficer(caller.role)
    requires appId in worlds[i].db.apps ==> !IsOwner(worlds[i].db, worlds[i].db.apps[appId], caller.userId)
    ensures Allowed(worlds[i].db, worlds[i].config, appId, caller, worlds[i].now) <==>
            LiveGrant(worlds[i], appId, caller.token)
  {
    var w := worlds[i];
    EveryWorldIsSound(worlds, steps, i);
    if appId in w.db.apps && appId in w.grants {
      var g := w.grants[appId];
      assert RowMatchesGrant(w, w.db.apps[appId], g);
      VerifiesExactly(w.config, g.key, g.raw, w.config, caller.token);
    }
  }

  /** A token issued for one application opens no other. */
  lemma TokenIsScoped(worlds: seq<World>, steps: seq<Step>, i: nat, issuedFor: int, target: int, caller: Caller)
    requires IsRun(worlds, steps) && i < |worlds| && CollisionFree(worlds[0].config.digest)
    requires !IsOfficer(caller.role) && issuedFor in worlds[i].grants && caller.token == worlds[i].grants[issuedFor].raw
    requires target in worlds[i].db.apps ==> !IsOwner(worlds[i].db, worlds[i].db.apps[target], caller.userId)
    requires Allowed(worlds[i].db, worlds[i].config, target, caller, worlds[i].now)
    ensures target == issuedFor
  {
    EveryWorldIsSound(worlds, steps, i);
    TokenIsTheOnlyCapability(worlds, steps, i, target, caller);
  }

  /** The same, for a request that may carry the token or nothing at all. */
  lemma TokenIsScopedOrAbsent(worlds: seq<World>, steps: seq<Step>, i: nat, issuedFor: int, target: int, caller: Caller)
    requires IsRun(worlds, steps) && i < |worlds| && CollisionFree(worlds[0].config.digest)
    requires !IsOfficer(caller.role) && issuedFor in worlds[i].grants
    requires caller.token == "" || caller.token == worlds[i].grants[issuedFor].raw
    requires target in worlds[i].db.apps ==> !IsOwner(worlds[i].db, worlds[i].db.apps[target], caller.userId)
    requires Allowed(worlds[i].db, worlds[i].config, target, caller, worlds[i].now)
    ensures target == issuedFor && caller.token != ""
  {
    EveryWorldIsSound(worlds, steps, i);
    TokenIsTheOnlyCapability(worlds, steps, i, target, caller);
  }

  /** After funding, the token drives nothing, yet still recovers exactly the boarded loan while its
      key is accepted; nobody else's token does. */
  lemma FundedTokenOnlyRecovers(worlds: seq<World>, steps: seq<Step>, i: nat, appId: int, token: string)
    requires IsRun(worlds, steps) && i < |worlds| && CollisionFree(worlds[0].config.digest)
    requires appId in worlds[i].db.apps && appId in worlds[i].grants && worlds[i].db.apps[appId].funded
    ensures !TokenOpens(worlds[i].config, worlds[i].db.apps[appId], token, worlds[i].now)
    ensures TerminalAcceptReplay(worlds[i].db, worlds[i].config, appId, token).Some? <==>
            && token == worlds[i].grants[appId].raw && worlds[i].grants[appId].key in VerifyKeys(worlds[i].config)
            && appId in worlds[i].db.loans
  {
    var w := worlds[i];
    EveryWorldIsSound(worlds, steps, i);
    assert RowMatchesGrant(w, w.db.apps[appId], w.grants[appId]);
    VerifiesExactly(w.config, w.grants[appId].key, w.grants[appId].raw, w.config, token);
  }
}
