/** Per-downstream circuit breaker: failing fast after repeated failures, then letting one call
  through to test recovery. */
module Breaker {
  import opened Wrappers

  const FAILURE_THRESHOLD := 5
  const COOLDOWN: real := 30.0

  datatype Status = Closed | Open | HalfOpen

  datatype Circuit = Circuit(status: Status, failures: int, openedAt: real)

  const FRESH := Circuit(Closed, 0, 0.0)

  function For(circuits: map<string, Circuit>, url: string): Circuit {
    if url in circuits then circuits[url] else FRESH
  }

  // ---- The shared table, updated in place ---------------------------------------------------

  class Table {
    var circuits: map<string, Circuit>

    constructor ()
      ensures circuits == map[]
    {
      circuits := map[];
    }

    /** Fails fast (`admitted` is false) while open inside the cooldown or while a recovery call is
        out; the first caller after the cooldown becomes that recovery call. */
    method BeforeCall(url: string, now: real) returns (admitted: bool)
      modifies this
      ensures admitted == Admits(For(old(circuits), url), now)
      ensures circuits == old(circuits)[url := Asked(For(old(circuits), url), now)]
    {
      if url !in circuits {
        circuits := circuits[url := FRESH];
      }
      var b := circuits[url];
      if b.status == Closed {
        return true;
      }
      if b.status == HalfOpen {
        return false;
      }
      if now - b.openedAt < COOLDOWN {
        return false;
      }
      circuits := circuits[url := b.(status := HalfOpen)];
      admitted := true;
    }

    method AfterCall(url: string, ok: bool, now: real)
      modifies this
      ensures circuits == old(circuits)[url := Completed(For(old(circuits), url), ok, now)]
    {
      if url !in circuits {
        circuits := circuits[url := FRESH];
      }
      var b := circuits[url];
      if ok {
        circuits := circuits[url := b.(status := Closed, failures := 0)];
        return;
      }
      if b.status == HalfOpen {
        circuits := circuits[url := b.(status := Open, openedAt := now)];
        return;
      }
      b := b.(failures := b.failures + 1);
      if b.failures >= FAILURE_THRESHOLD {
        b := b.(status := Open, openedAt := now);
      }
      circuits := circuits[url := b];
    }
  }

  predicate Admits(c: Circuit, now: real) {
    c.status == Closed || (c.status == Open && now - c.openedAt >= COOLDOWN)
  }

  function Asked(c: Circuit, now: real): Circuit {
    if c.status == Open && Admits(c, now) then c.(status := HalfOpen) else c
  }

  function Completed(c: Circuit, ok: bool, now: real): Circuit {
    if ok then c.(status := Closed, failures := 0)
    else if c.status == HalfOpen then c.(status := Open, openedAt := now)
    else if c.failures + 1 >= FAILURE_THRESHOLD then Circuit(Open, c.failures + 1, now)
    else c.(failures := c.failures + 1)
  }

  // ---- Histories -----------------------------------------------------------------------------

  /** One visit to the table, in the order the table's lock was granted. A completion may belong to
      any earlier admission, however old. */
  datatype Event = Ask(url: string, now: real) | Report(url: string, ok: bool, now: real)

  function TableAfter(history: seq<Event>): map<string, Circuit> {
    if history == [] then map[]
    else
      var before := TableAfter(history[..|history| - 1]);
      match history[|history| - 1]
      case Ask(url, now) => before[url := Asked(For(before, url), now)]
      case Report(url, ok, now) => before[url := Completed(For(before, url), ok, now)]
  }

  /** Failed completions since the last successful one. */
  function TrailingFailures(history: seq<Event>, url: string): nat {
    if history == [] then 0
    else
      var rest, last := history[..|history| - 1], history[|history| - 1];
      if last.Report? && last.url == url then (if last.ok then 0 else TrailingFailures(rest, url) + 1)
      else TrailingFailures(rest, url)
  }

  /** When the latest failed completion was reported. */
  function LastFailure(history: seq<Event>, url: string): real {
    if history == [] then 0.0
    else
      var last := history[|history| - 1];
      if last.Report? && last.url == url && !last.ok then last.now else LastFailure(history[..|history| - 1], url)
  }

  /** A recovery call was let through and no completion has been reported since. */
  predicate RecoveryOut(history: seq<Event>, url: string) {
    if history == [] then false
    else
      var rest, last := history[..|history| - 1], history[|history| - 1];
      if last.url != url then RecoveryOut(rest, url)
      else if last.Report? then false
      else
        || RecoveryOut(rest, url)
        || (TrailingFailures(rest, url) >= FAILURE_THRESHOLD && last.now - LastFailure(rest, url) >= COOLDOWN)
  }

  /** The stored circuit is a function of the history of its own URL alone: closed exactly when
      fewer than five failures trail, half open exactly when a recovery call is out, and reopened
      at the latest failure. */
  lemma {:induction false} TableRefinesHistory(history: seq<Event>, url: string)
    ensures var c := For(TableAfter(history), url);
            && (c.status == Closed <==> TrailingFailures(history, url) < FAILURE_THRESHOLD)
            && (c.status == HalfOpen <==> RecoveryOut(history, url))
            && (c.status == Closed ==> c.failures == TrailingFailures(history, url))
            && (c.status != Closed ==> c.openedAt == LastFailure(history, url) && c.failures >= FAILURE_THRESHOLD)
  {
    if history != [] {
      TableRefinesHistory(history[..|history| - 1], url);
    }
  }

  /** A call is admitted exactly when fewer than five failures trail, or the cooldown since the
      latest failure has passed and no recovery call is out. */
  lemma AdmissionExactly(history: seq<Event>, url: string, now: real)
    ensures Admits(For(TableAfter(history), url), now) <==>
            || TrailingFailures(history, url) < FAILURE_THRESHOLD
            || (now - LastFailure(history, url) >= COOLDOWN && !RecoveryOut(history, url))
  {
    TableRefinesHistory(history, url);
  }

  predicate Silent(history: seq<Event>, url: string) {
    forall e | e in history :: e.Report? ==> e.url != url
  }

  /** After a recovery call is let through nobody else is, however long it takes, until some
      completion for the URL is reported; in particular a recovery call that dies without
      reporting leaves the breaker refusing for ever. */
  lemma {:induction false} OneRecoveryAtATime(history: seq<Event>, later: seq<Event>, url: string, now: real)
    requires RecoveryOut(history, url) && Silent(later, url)
    ensures RecoveryOut(history + later, url)
    ensures !Admits(For(TableAfter(history + later), url), now)
  {
    if later == [] {
      assert history + later == history;
    } else {
      var rest := later[..|later| - 1];
      assert (history + later)[..|history + later| - 1] == history + rest;
      assert later[|later| - 1] in later;
      OneRecoveryAtATime(history, rest, url, now);
    }
    TableRefinesHistory(history + later, url);
  }

  function Only(history: seq<Event>, url: string): seq<Event> {
    if history == [] then []
    else
      var rest := Only(history[..|history| - 1], url);
      if history[|history| - 1].url == url then rest + [history[|history| - 1]] else rest
  }

  /** Downstreams do not affect each other: a circuit is what its own events alone would make it. */
  lemma {:induction false} UrlsAreIndependent(history: seq<Event>, url: string)
    ensures For(TableAfter(history), url) == For(TableAfter(Only(history, url)), url)
  {
    if history != [] {
      var rest, last := history[..|history| - 1], history[|history| - 1];
      UrlsAreIndependent(rest, url);
      if last.url == url {
        var only := Only(rest, url) + [last];
        assert only[..|only| - 1] == Only(rest, url);
      }
    }
  }

  // ---- What counts as a failure -----------------------------------------------------------------

  /** How a guarded request ended. */
  datatype Ending = Responded(code: int) | RaisedStatus(code: int) | RaisedTransport | RaisedOther

  /** What is reported to the breaker: None when nothing is. */
  function Verdict(e: Ending): Option<bool> {
    match e
    case Responded(code) => Some(code < 500)
    case RaisedStatus(code) => Some(code < 500)
    case RaisedTransport => Some(false)
    case RaisedOther => None
  }

  /** One guarded call, from admission to report. `ending` and `later` are what the network and the
      clock do. */
  method Guarded(table: Table, url: string, now: real, ending: Ending, later: real) returns (admitted: bool)
    modifies table
    ensures admitted == Admits(For(old(table.circuits), url), now)
    ensures var asked := Asked(For(old(table.circuits), url), now);
            table.circuits == old(table.circuits)[url :=
              if admitted && Verdict(ending).Some? then Completed(asked, Verdict(ending).value, later) else asked]
  {
    admitted := table.BeforeCall(url, now);
    if !admitted {
      return;
    }
    match ending
    case Responded(code) => table.AfterCall(url, code < 500, later);
    case RaisedStatus(code) => table.AfterCall(url, code < 500, later);
    case RaisedTransport => table.AfterCall(url, false, later);
    case RaisedOther =>
  }

  /** A run of any length through the table's own methods ends in the table of its history. */
  method Replay(history: seq<Event>) returns (table: Table)
    ensures fresh(table) && table.circuits == TableAfter(history)
  {
    table := new Table();
    for i := 0 to |history|
      invariant fresh(table) && table.circuits == TableAfter(history[..i])
    {
      assert history[..i + 1][..i] == history[..i];
      match history[i]
      case Ask(url, now) => var _ := table.BeforeCall(url, now);
      case Report(url, ok, now) => table.AfterCall(url, ok, now);
    }
    assert history[..|history|] == history;
  }
}
