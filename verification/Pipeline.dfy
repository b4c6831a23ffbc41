/** The disclosure pipeline: gated stages over one shared state, with a single bounded
  assemble-verify cycle. The graph runner below is shown to compute a loop-free decision table. */
module Pipeline {
  import opened Wrappers

  /** An injected call either answers or raises out of the run. */
  datatype Reply<+T> = Answers(value: T) | Raises

  const MAX_ASSEMBLE_ATTEMPTS: nat := 2

  /** The five disclosed figures. */
  datatype Five<+T> = Five(apr: T, financeCharge: T, amountFinanced: T, totalOfPayments: T, monthlyPayment: T)

  /** A figure as the disclosure service sends it. */
  datatype Value = Missing | Text(text: string) | Float(number: real) | Other(text: string)

  datatype Context = Context(outcome: string, eventId: Option<int>, principal: real, termMonths: int, annualRate: real)

  datatype Offer = Offer(offerId: Option<int>, eventId: Option<int>, figures: Five<Value>)

  /** What the maker wrote; None where the document lacks the figure. */
  datatype Document = Document(figures: Five<Option<string>>, body: string)

  datatype Brief = Unusable | Usable(grounded: bool)

  /** Everything the run asks of the outside world. `assemble(k)` is the maker's k-th rendering and
      `format` renders a float to a number of places. */
  datatype World = World(
    gather: Reply<Context>,
    computeOffer: Reply<Offer>,
    assemble: nat -> Reply<Document>,
    narrate: Reply<Brief>,
    persist: Reply<int>,
    chainComplete: Reply<bool>,
    format: (real, nat) -> string)

  datatype Reason = NoReason | RenderMismatch | NumberWrong | ProvenanceIncomplete | NotApproved | RetriesExhausted

  predicate Retryable(r: Reason) {
    r == RenderMismatch
  }

  datatype Call =
    | Gathered
    | OfferComputed(eventId: Option<int>)
    | Assembled(figures: Five<string>)
    | Narrated
    | Persisted(offerId: Option<int>, eventId: Option<int>, document: Option<Document>)
    | ProvenanceRead(disclosureId: int)

  datatype Result =
    | Blocked(reason: Reason, attempts: nat, disclosure: Option<int>)
    | Completed(document: Option<Document>, degraded: bool, disclosure: Option<int>, attempts: nat)
    | Raised

  // ---- Stages ---------------------------------------------------------------------------------

  /** The shared graph state; a stage overwrites the keys it returns and leaves the rest. */
  datatype State = State(outcome: string, eventId: Option<int>, offerId: Option<int>, figures: Option<Five<string>>,
                         document: Option<Document>, degraded: bool, disclosure: Option<int>,
                         attempts: nat, blocked: bool, reason: Reason)

  const START := State("", None, None, None, None, false, None, 0, false, NoReason)

  function Block(s: State, reason: Reason): State {
    s.(blocked := true, reason := reason)
  }

  function AsText(w: World, v: Value, places: nat): Option<string> {
    match v
    case Missing => None
    case Text(s) => Some(s)
    case Float(x) => Some(w.format(x, places))
    case Other(s) => Some(s)
  }

  function Texts(w: World, f: Five<Value>): Five<Option<string>> {
    Five(AsText(w, f.apr, 3), AsText(w, f.financeCharge, 2), AsText(w, f.amountFinanced, 2),
         AsText(w, f.totalOfPayments, 2), AsText(w, f.monthlyPayment, 2))
  }

  function AllPresent(f: Five<Option<string>>): Option<Five<string>> {
    if f.apr.Some? && f.financeCharge.Some? && f.amountFinanced.Some? && f.totalOfPayments.Some? &&
        f.monthlyPayment.Some?
    then Some(Five(f.apr.value, f.financeCharge.value, f.amountFinanced.value, f.totalOfPayments.value,
                   f.monthlyPayment.value))
    else None
  }

  function Falsy(id: Option<int>): bool {
    id.None? || id.value == 0
  }

  /** Stage 0. */
  function Route(s: State, c: Context): State {
    var t := s.(outcome := c.outcome, eventId := c.eventId);
    if Falsy(c.eventId) then Block(t, ProvenanceIncomplete)
    else if c.outcome != "approve" then Block(t, NotApproved)
    else t.(attempts := 0, blocked := false)
  }

  /** Stage 2. */
  function Compute(w: World, s: State, o: Offer): State {
    var figures := AllPresent(Texts(w, o.figures));
    if figures.None? then Block(s, NumberWrong)
    else s.(figures := figures, offerId := o.offerId, eventId := if o.eventId.None? then s.eventId else o.eventId)
  }

  /** Stage 3. */
  function Assemble(s: State, d: Document): State {
    s.(document := Some(d), attempts := s.attempts + 1)
  }

  predicate Matches(d: Document, expected: Five<string>) {
    && d.figures.apr == Some(expected.apr)
    && d.figures.financeCharge == Some(expected.financeCharge)
    && d.figures.amountFinanced == Some(expected.amountFinanced)
    && d.figures.totalOfPayments == Some(expected.totalOfPayments)
    && d.figures.monthlyPayment == Some(expected.monthlyPayment)
  }

  /** Stage 4a, the gate. */
  function Verify(s: State): State
    requires s.figures.Some?
  {
    if s.document.Some? && Matches(s.document.value, s.figures.value) then s.(blocked := false, reason := NoReason)
    else Block(s, RenderMismatch)
  }

  /** Stage 4b. */
  function Narrate(s: State, b: Brief): State {
    s.(degraded := b.Unusable? || !b.grounded)
  }

  /** Stage 5. */
  function Persist(s: State, disclosureId: int, complete: bool): State {
    var t := s.(disclosure := Some(disclosureId));
    if complete then t else Block(t, ProvenanceIncomplete)
  }

  datatype Node = AtRoute | AtCompute | AtAssemble | AtVerify | AtNarrate | AtPersist | AtEnd

  function AfterRoute(s: State): Node {
    if s.blocked then AtEnd else AtCompute
  }

  function AfterCompute(s: State): Node {
    if s.blocked then AtEnd else AtAssemble
  }

  function AfterVerify(s: State): Node {
    if !s.blocked then AtNarrate
    else if Retryable(s.reason) && s.attempts < MAX_ASSEMBLE_ATTEMPTS then AtAssemble
    else AtEnd
  }

  function Report(s: State): Result {
    if s.blocked then Blocked(if Retryable(s.reason) then RetriesExhausted else s.reason, s.attempts, s.disclosure)
    else Completed(s.document, s.degraded, s.disclosure, s.attempts)
  }

  // ---- The decision table -----------------------------------------------------------------------

  datatype Account = Account(result: Result, calls: seq<Call>)

  /** The event the disclosure will name: the offer's own when it has one. */
  function Authorizing(c: Context, o: Offer): Option<int> {
    if o.eventId.Some? then o.eventId else c.eventId
  }

  ghost function Expected(w: World): Account {
    if w.gather.Raises? then Account(Raised, [Gathered])
    else
      var c := w.gather.value;
      if Falsy(c.eventId) then Account(Blocked(ProvenanceIncomplete, 0, None), [Gathered])
      else if c.outcome != "approve" then Account(Blocked(NotApproved, 0, None), [Gathered])
      else ExpectedOffer(w, c, [Gathered, OfferComputed(c.eventId)])
  }

  ghost function ExpectedOffer(w: World, c: Context, calls: seq<Call>): Account {
    if w.computeOffer.Raises? then Account(Raised, calls)
    else
      var o := w.computeOffer.value;
      var figures := AllPresent(Texts(w, o.figures));
      if figures.None? then Account(Blocked(NumberWrong, 0, None), calls)
      else
        var first := calls + [Assembled(figures.value)];
        if w.assemble(0).Raises? then Account(Raised, first)
        else if Matches(w.assemble(0).value, figures.value) then
          ExpectedRecord(w, Authorizing(c, o), o.offerId, w.assemble(0).value, 1, first)
        else ExpectedSecond(w, c, o, figures.value, first)
  }

  ghost function ExpectedSecond(w: World, c: Context, o: Offer, figures: Five<string>, first: seq<Call>): Account {
    var second := first + [Assembled(figures)];
    if w.assemble(1).Raises? then Account(Raised, second)
    else if Matches(w.assemble(1).value, figures) then
      ExpectedRecord(w, Authorizing(c, o), o.offerId, w.assemble(1).value, 2, second)
    else Account(Blocked(RetriesExhausted, 2, None), second)
  }

  ghost function ExpectedRecord(w: World, eventId: Option<int>, offerId: Option<int>, d: Document, attempts: nat,
                                before: seq<Call>): Account {
    var narrated := before + [Narrated];
    var persisted := narrated + [Persisted(offerId, eventId, Some(d))];
    if w.narrate.Raises? then Account(Raised, narrated)
    else if w.persist.Raises? then Account(Raised, persisted)
    else
      var id := w.persist.value;
      var read := persisted + [ProvenanceRead(id)];
      if w.chainComplete.Raises? then Account(Raised, read)
      else if !w.chainComplete.value then Account(Blocked(ProvenanceIncomplete, attempts, Some(id)), read)
      else
        var degraded := w.narrate.value.Unusable? || !w.narrate.value.grounded;
        Account(Completed(Some(d), degraded, Some(id), attempts), read)
  }

  // ---- The graph runner -----------------------------------------------------------------------

  /** Where the runner stands, told in terms of the table: what remains is the table's tail. */
  ghost predicate OnTrack(w: World, node: Node, s: State, calls: seq<Call>) {
    match node
    case AtRoute => s == START && calls == []
    case AtCompute =>
      && w.gather.Answers? && calls == [Gathered]
      && s == START.(outcome := "approve", eventId := w.gather.value.eventId)
      && Expected(w) == ExpectedOffer(w, w.gather.value, [Gathered, OfferComputed(s.eventId)])
    case AtAssemble => s.attempts <= 1 && Rendering(w, s, calls) && (s.attempts == 1 ==> !Passed(w, s, 0))
    case AtVerify =>
      && 1 <= s.attempts <= 2 && Rendering(w, s, calls)
      && w.assemble(s.attempts - 1).Answers? && s.document == Some(w.assemble(s.attempts - 1).value)
      && (s.attempts == 2 ==> !Passed(w, s, 0))
    case AtNarrate =>
      && s.document.Some? && !s.blocked && s.disclosure.None?
      && Expected(w) == ExpectedRecord(w, s.eventId, s.offerId, s.document.value, s.attempts, calls)
    case AtPersist =>
      && s.document.Some? && !s.blocked && s.disclosure.None? && w.narrate.Answers? && calls != []
      && s.degraded == (w.narrate.value.Unusable? || !w.narrate.value.grounded)
      && calls[|calls| - 1] == Narrated
      && Expected(w) == ExpectedRecord(w, s.eventId, s.offerId, s.document.value, s.attempts, calls[..|calls| - 1])
    case AtEnd => Expected(w) == Account(Report(s), calls)
  }

  ghost predicate Passed(w: World, s: State, k: nat) {
    s.figures.Some? && w.assemble(k).Answers? && Matches(w.assemble(k).value, s.figures.value)
  }

  function Renderings(figures: Five<string>, n: nat): seq<Call> {
    if n == 0 then [] else Renderings(figures, n - 1) + [Assembled(figures)]
  }

  ghost predicate Rendering(w: World, s: State, calls: seq<Call>) {
    && w.gather.Answers? && w.computeOffer.Answers? && s.figures.Some? && s.disclosure.None?
    && s.figures == AllPresent(Texts(w, w.computeOffer.value.figures))
    && s.eventId == Authorizing(w.gather.value, w.computeOffer.value)
    && s.offerId == w.computeOffer.value.offerId
    && calls == [Gathered, OfferComputed(w.gather.value.eventId)] + Renderings(s.figures.value, s.attempts)
    && (forall k | 0 <= k < s.attempts :: w.assemble(k).Answers?)
    && Expected(w) == ExpectedOffer(w, w.gather.value, [Gathered, OfferComputed(w.gather.value.eventId)])
    && (s.attempts == 0 ==> !s.blocked)
  }

  function Rank(node: Node): nat {
    match node
    case AtRoute => 6
    case AtCompute => 5
    case AtAssemble => 4
    case AtVerify => 3
    case AtNarrate => 2
    case AtPersist => 1
    case AtEnd => 0
  }

  /** Progress measure of the one cycle: re-assembling spends an attempt. */
  function Remaining(node: Node, s: State): int {
    if node == AtAssemble then MAX_ASSEMBLE_ATTEMPTS - s.attempts
    else if node == AtVerify then MAX_ASSEMBLE_ATTEMPTS + 1 - s.attempts
    else if node == AtRoute || node == AtCompute then MAX_ASSEMBLE_ATTEMPTS + 1
    else 0
  }

  /** Where one node leaves the run: stopped by a call that raised, or at the next node. */
  datatype Progress = Stopped(calls: seq<Call>) | Onward(node: Node, state: State, calls: seq<Call>)

  /** One node of the graph, with the calls it makes. */
  function Visit(w: World, node: Node, s: State, calls: seq<Call>): Progress
    requires node == AtAssemble || node == AtVerify ==> s.figures.Some?
  {
    match node
    case AtRoute =>
      var more := calls + [Gathered];
      if w.gather.Raises? then Stopped(more)
      else var t := Route(s, w.gather.value); Onward(AfterRoute(t), t, more)
    case AtCompute =>
      var more := calls + [OfferComputed(s.eventId)];
      if w.computeOffer.Raises? then Stopped(more)
      else var t := Compute(w, s, w.computeOffer.value); Onward(AfterCompute(t), t, more)
    case AtAssemble =>
      var more := calls + [Assembled(s.figures.value)];
      if w.assemble(s.attempts).Raises? then Stopped(more)
      else Onward(AtVerify, Assemble(s, w.assemble(s.attempts).value), more)
    case AtVerify =>
      var t := Verify(s);
      Onward(AfterVerify(t), t, calls)
    case AtNarrate =>
      var more := calls + [Narrated];
      if w.narrate.Raises? then Stopped(more) else Onward(AtPersist, Narrate(s, w.narrate.value), more)
    case AtPersist =>
      var more := calls + [Persisted(s.offerId, s.eventId, s.document)];
      if w.persist.Raises? then Stopped(more)
      else
        var read := more + [ProvenanceRead(w.persist.value)];
        if w.chainComplete.Raises? then Stopped(read)
        else Onward(AtEnd, Persist(s, w.persist.value, w.chainComplete.value), read)
    case AtEnd => Onward(AtEnd, s, calls)
  }

  /** What a visit owes the table, and the loop its end. */
  ghost predicate Continues(w: World, node: Node, s: State, p: Progress) {
    match p
    case Stopped(calls) => Expected(w) == Account(Raised, calls)
    case Onward(next, t, calls) =>
      && OnTrack(w, next, t, calls)
      && (|| Remaining(next, t) < Remaining(node, s)
          || (Remaining(next, t) == Remaining(node, s) && Rank(next) < Rank(node)))
  }

  lemma RouteContinues(w: World)
    ensures Continues(w, AtRoute, START, Visit(w, AtRoute, START, []))
  {
    assert [] + [Gathered] == [Gathered];
  }

  lemma AssembleContinues(w: World, s: State, calls: seq<Call>)
    requires OnTrack(w, AtAssemble, s, calls)
    ensures Continues(w, AtAssemble, s, Visit(w, AtAssemble, s, calls))
  {
    var start := [Gathered, OfferComputed(w.gather.value.eventId)];
    var more := calls + [Assembled(s.figures.value)];
    assert more == start + Renderings(s.figures.value, s.attempts + 1);
    assert Renderings(s.figures.value, 1) == [Assembled(s.figures.value)];
    assert more == if s.attempts == 0 then start + [Assembled(s.figures.value)]
                   else start + [Assembled(s.figures.value)] + [Assembled(s.figures.value)];
  }

  lemma FirstVerifyContinues(w: World, s: State, calls: seq<Call>)
    requires OnTrack(w, AtVerify, s, calls) && s.attempts == 1
    ensures Continues(w, AtVerify, s, Visit(w, AtVerify, s, calls))
  {
    var start := [Gathered, OfferComputed(w.gather.value.eventId)];
    assert Renderings(s.figures.value, 1) == [Assembled(s.figures.value)];
    assert calls == start + [Assembled(s.figures.value)];
  }

  lemma SecondVerifyContinues(w: World, s: State, calls: seq<Call>)
    requires OnTrack(w, AtVerify, s, calls) && s.attempts == 2
    ensures Continues(w, AtVerify, s, Visit(w, AtVerify, s, calls))
  {
    var start := [Gathered, OfferComputed(w.gather.value.eventId)];
    assert Renderings(s.figures.value, 1) == [Assembled(s.figures.value)];
    assert calls == start + [Assembled(s.figures.value)] + [Assembled(s.figures.value)];
  }

  lemma NarrateContinues(w: World, s: State, calls: seq<Call>)
    requires OnTrack(w, AtNarrate, s, calls)
    ensures Continues(w, AtNarrate, s, Visit(w, AtNarrate, s, calls))
  {
    assert (calls + [Narrated])[..|calls|] == calls;
  }

  lemma PersistContinues(w: World, s: State, calls: seq<Call>)
    requires OnTrack(w, AtPersist, s, calls)
    ensures Continues(w, AtPersist, s, Visit(w, AtPersist, s, calls))
  {
    assert calls == calls[..|calls| - 1] + [Narrated];
  }

  lemma VisitContinues(w: World, node: Node, s: State, calls: seq<Call>)
    requires OnTrack(w, node, s, calls) && node != AtEnd
    ensures node == AtAssemble || node == AtVerify ==> s.figures.Some?
    ensures Continues(w, node, s, Visit(w, node, s, calls))
  {
    match node
    case AtRoute => RouteContinues(w);
    case AtCompute =>
    case AtAssemble => AssembleContinues(w, s, calls);
    case AtVerify =>
      if s.attempts == 1 { FirstVerifyContinues(w, s, calls); } else { SecondVerifyContinues(w, s, calls); }
    case AtNarrate => NarrateContinues(w, s, calls);
    case AtPersist => PersistContinues(w, s, calls);
  }

  method Run(w: World) returns (result: Result, calls: seq<Call>)
    ensures Account(result, calls) == Expected(w)
  {
    var s := START;
    var node := AtRoute;
    calls := [];
    while node != AtEnd
      invariant OnTrack(w, node, s, calls)
      decreases Remaining(node, s), Rank(node)
    {
      VisitContinues(w, node, s, calls);
      match Visit(w, node, s, calls)
      case Stopped(made) =>
        return Raised, made;
      case Onward(next, t, made) =>
        node, s, calls := next, t, made;
    }
    result := Report(s);
  }

  // ---- Safety -----------------------------------------------------------------------------------

  function Assemblies(calls: seq<Call>): nat {
    if calls == [] then 0 else Assemblies(calls[..|calls| - 1]) + (if calls[|calls| - 1].Assembled? then 1 else 0)
  }

  function Persists(calls: seq<Call>): nat {
    if calls == [] then 0 else Persists(calls[..|calls| - 1]) + (if calls[|calls| - 1].Persisted? then 1 else 0)
  }

  lemma Push(calls: seq<Call>, c: Call)
    ensures Assemblies(calls + [c]) == Assemblies(calls) + (if c.Assembled? then 1 else 0)
    ensures Persists(calls + [c]) == Persists(calls) + (if c.Persisted? then 1 else 0)
  {
    assert (calls + [c])[..|calls|] == calls;
  }

  /** A persist is only ever asked for what passed every gate: an approved outcome, a decision event
      that exists (the offer's own when it has one), and a document that spells out all five
      computed figures. */
  ghost predicate Gated(w: World, c: Call) {
    c.Persisted? ==>
      && w.gather.Answers? && w.gather.value.outcome == "approve" && !Falsy(w.gather.value.eventId)
      && w.computeOffer.Answers?
      && c.eventId.Some? && c.eventId == Authorizing(w.gather.value, w.computeOffer.value)
      && c.offerId == w.computeOffer.value.offerId
      && AllPresent(Texts(w, w.computeOffer.value.figures)).Some?
      && c.document.Some?
      && Matches(c.document.value, AllPresent(Texts(w, w.computeOffer.value.figures)).value)
  }

  ghost predicate AllGated(w: World, calls: seq<Call>) {
    forall c | c in calls :: Gated(w, c)
  }

  lemma PushGated(w: World, calls: seq<Call>, c: Call)
    requires AllGated(w, calls) && Gated(w, c)
    ensures AllGated(w, calls + [c])
    ensures Assemblies(calls + [c]) == Assemblies(calls) + (if c.Assembled? then 1 else 0)
    ensures Persists(calls + [c]) == Persists(calls) + (if c.Persisted? then 1 else 0)
  {
    Push(calls, c);
  }

  /** At most two assemble calls, at most one persist, nothing persisted that did not pass every gate,
      and a block never reported as a mere mismatch. */
  ghost predicate Safe(w: World, a: Account) {
    && Assemblies(a.calls) <= 2 && Persists(a.calls) <= 1
    && AllGated(w, a.calls)
    && (a.result.Blocked? ==> a.result.reason != RenderMismatch && a.result.reason != NoReason)
  }

  lemma RecordIsSafe(w: World, eventId: Option<int>, offerId: Option<int>, d: Document, attempts: nat,
                     before: seq<Call>)
    requires Gated(w, Persisted(offerId, eventId, Some(d)))
    requires Assemblies(before) <= 2 && Persists(before) == 0 && AllGated(w, before)
    ensures Safe(w, ExpectedRecord(w, eventId, offerId, d, attempts, before))
  {
    var narrated := before + [Narrated];
    var persisted := narrated + [Persisted(offerId, eventId, Some(d))];
    PushGated(w, before, Narrated);
    PushGated(w, narrated, Persisted(offerId, eventId, Some(d)));
    if w.persist.Answers? { PushGated(w, persisted, ProvenanceRead(w.persist.value)); }
  }

  /** Every run is safe. */
  lemma RunIsSafe(w: World)
    ensures Safe(w, Expected(w))
  {
    var start := [Gathered];
    PushGated(w, [], Gathered);
    assert [] + [Gathered] == start;
    if w.gather.Answers? && !Falsy(w.gather.value.eventId) && w.gather.value.outcome == "approve" {
      var c := w.gather.value;
      PushGated(w, start, OfferComputed(c.eventId));
      assert start + [OfferComputed(c.eventId)] == [Gathered, OfferComputed(c.eventId)];
      OfferIsSafe(w, c, [Gathered, OfferComputed(c.eventId)]);
    }
  }

  lemma OfferIsSafe(w: World, c: Context, start: seq<Call>)
    requires w.gather == Answers(c) && c.outcome == "approve" && !Falsy(c.eventId)
    requires Assemblies(start) == 0 && Persists(start) == 0 && AllGated(w, start)
    ensures Safe(w, ExpectedOffer(w, c, start))
  {
    if w.computeOffer.Answers? && AllPresent(Texts(w, w.computeOffer.value.figures)).Some? {
      RenderingIsSafe(w, c, w.computeOffer.value, start);
    }
  }

  lemma RenderingIsSafe(w: World, c: Context, o: Offer, start: seq<Call>)
    requires w.gather == Answers(c) && c.outcome == "approve" && !Falsy(c.eventId)
    requires w.computeOffer == Answers(o) && AllPresent(Texts(w, o.figures)).Some?
    requires Assemblies(start) == 0 && Persists(start) == 0 && AllGated(w, start)
    ensures Safe(w, ExpectedOffer(w, c, start))
  {
    var figures := AllPresent(Texts(w, o.figures)).value;
    var first := start + [Assembled(figures)];
    PushGated(w, start, Assembled(figures));
    if w.assemble(0).Answers? {
      if Matches(w.assemble(0).value, figures) {
        RecordIsSafe(w, Authorizing(c, o), o.offerId, w.assemble(0).value, 1, first);
      } else {
        SecondRenderingIsSafe(w, c, o, figures, first);
        assert ExpectedOffer(w, c, start) == ExpectedSecond(w, c, o, figures, first);
      }
    }
  }

  lemma SecondRenderingIsSafe(w: World, c: Context, o: Offer, figures: Five<string>, first: seq<Call>)
    requires w.gather == Answers(c) && c.outcome == "approve" && !Falsy(c.eventId)
    requires w.computeOffer == Answers(o) && AllPresent(Texts(w, o.figures)) == Some(figures)
    requires Assemblies(first) == 1 && Persists(first) == 0 && AllGated(w, first)
    ensures Safe(w, ExpectedSecond(w, c, o, figures, first))
  {
    PushGated(w, first, Assembled(figures));
    if w.assemble(1).Answers? && Matches(w.assemble(1).value, figures) {
      RecordIsSafe(w, Authorizing(c, o), o.offerId, w.assemble(1).value, 2, first + [Assembled(figures)]);
    }
  }

  /** "We gave up" is reported exactly when the maker was reached and both its renderings drifted
      from the computed figures. */
  lemma GivingUpExactly(w: World)
    ensures (Expected(w).result.Blocked? && Expected(w).result.reason == RetriesExhausted) <==>
            && w.gather.Answers? && !Falsy(w.gather.value.eventId) && w.gather.value.outcome == "approve"
            && w.computeOffer.Answers? && AllPresent(Texts(w, w.computeOffer.value.figures)).Some?
            && var figures := AllPresent(Texts(w, w.computeOffer.value.figures)).value;
               forall k | 0 <= k < 2 :: w.assemble(k).Answers? && !Matches(w.assemble(k).value, figures)
  {
    if w.gather.Answers? && w.computeOffer.Answers? && AllPresent(Texts(w, w.computeOffer.value.figures)).Some? {
      var figures := AllPresent(Texts(w, w.computeOffer.value.figures)).value;
      assert (forall k | 0 <= k < 2 :: w.assemble(k).Answers? && !Matches(w.assemble(k).value, figures)) <==>
             (w.assemble(0).Answers? && !Matches(w.assemble(0).value, figures)
              && w.assemble(1).Answers? && !Matches(w.assemble(1).value, figures));
    }
  }

  /** A wrong number never loops: with a figure missing, the maker is not called at all. */
  lemma WrongNumberNeverLoops(w: World)
    requires w.computeOffer.Answers? && AllPresent(Texts(w, w.computeOffer.value.figures)).None?
    ensures Assemblies(Expected(w).calls) == 0 && Persists(Expected(w).calls) == 0
    ensures !Expected(w).result.Completed?
  {
    Push([], Gathered);
    assert [] + [Gathered] == [Gathered];
    if w.gather.Answers? {
      Push([Gathered], OfferComputed(w.gather.value.eventId));
      assert [Gathered] + [OfferComputed(w.gather.value.eventId)] == [Gathered, OfferComputed(w.gather.value.eventId)];
    }
  }
}
