/** The computed part of a credit decision: the pulled score's origin, the event that records the
  decision, its validation, and the comparison that guards a replay. */
module DecisionRecord {
  import opened Scorecard
  import opened Reasons
  import opened Wrappers

  /** A field of the application payload: missing, present but null, or a number. */
  datatype Field = Absent | Null | Number(value: real)

  /** Python's `application.get(name, default)`. */
  function Get(f: Field, default: real): Option<real> {
    match f
    case Absent => Some(default)
    case Null => None
    case Number(x) => Some(x)
  }

  datatype Application = Application(appId: int, requestId: string, ssn: string, income: Field, amount: Field,
                                     term: Field, debt: Field, years: Field)

  /** Service configuration. `hmac` is the keyed digest (pepper, ssn) -> hex. */
  datatype Config = Config(bureauKey: bool, synthetic: bool, pepper: string, hmac: (string, string) -> string)

  // ---- Credit pull ------------------------------------------------------------------------

  /** What the bureau call came back with: None for any failure, including a reply without a
      score. */
  type BureauReply = Option<real>

  datatype Pulled = Pulled(score: real, source: string)

  function SyntheticScore(ssn: string): real {
    if ssn != "" && ssn[|ssn| - 1] in "02468" then 680.0 else 612.0
  }

  function PullCredit(config: Config, reply: BureauReply, ssn: string): Option<Pulled> {
    if !config.bureauKey then
      if config.synthetic then Some(Pulled(SyntheticScore(ssn), "synthetic")) else None
    else if reply.Some? then Some(Pulled(reply.value, "bureau"))
    else if config.synthetic then Some(Pulled(SyntheticScore(ssn), "synthetic_after_bureau_failure"))
    else None
  }

  /** Without the synthetic opt-in, a decision is only ever made on a real bureau score; and the
      origin written down is always one the provenance table knows. */
  lemma PullFailsClosed(config: Config, reply: BureauReply, ssn: string)
    ensures var p := PullCredit(config, reply, ssn);
            && (p.Some? ==> p.value.source in CREDIT_SOURCE_PROVENANCE)
            && (p.Some? && p.value.source == "bureau" ==> config.bureauKey && reply == Some(p.value.score))
            && (!config.synthetic ==> (p.Some? <==> config.bureauKey && reply.Some?))
            && (p.Some? && !config.synthetic ==> p.value.source == "bureau")
  {
    assert "bureau"[0] == 'b' && "synthetic"[0] == 's' && "synthetic_after_bureau_failure"[0] == 's';
  }

  // ---- Request inputs and the replay guard --------------------------------------------------

  datatype RequestInputs = RequestInputs(income: Option<real>, amount: Option<real>, term: Option<real>,
                                         debt: Option<real>, years: Option<real>, fingerprint: Option<string>)

  function Fingerprint(config: Config, ssn: string): Option<string> {
    if config.pepper == "" || ssn == "" then None else Some(config.hmac(config.pepper, ssn))
  }

  function InputsOf(config: Config, app: Application): RequestInputs {
    RequestInputs(Get(app.income, 0.0), Get(app.amount, 0.0), Get(app.term, 36.0), Get(app.debt, 0.0),
                  Get(app.years, 0.0), Fingerprint(config, app.ssn))
  }

  predicate DiffersAsFloat(stored: Option<real>, current: Option<real>) {
    OrElse(stored, 0.0) != OrElse(current, 0.0)
  }

  /** True when a reused request id arrives with different decision inputs. `stored` is None when
      the event carries no inputs. */
  predicate InputsConflict(stored: Option<RequestInputs>, current: RequestInputs) {
    if stored.None? then false
    else
      var s := stored.value;
      || DiffersAsFloat(s.income, current.income)
      || DiffersAsFloat(s.amount, current.amount)
      || DiffersAsFloat(s.term, current.term)
      || DiffersAsFloat(s.debt, current.debt)
      || DiffersAsFloat(s.years, current.years)
      || (s.fingerprint.Some? && current.fingerprint.Some? && s.fingerprint != current.fingerprint)
  }

  function ModelInputs(inputs: RequestInputs, bureau: real): Inputs {
    Inputs(Some(bureau), inputs.income, inputs.amount, inputs.term, inputs.debt, inputs.years)
  }

  /** A digest without collisions, in either of its arguments. */
  ghost predicate TellsApart(hmac: (string, string) -> string) {
    forall p, s, q, t | hmac(p, s) == hmac(q, t) :: p == q && s == t
  }

  /** A financial figure differs, or both requests carry an SSN, both configurations a pepper, and the
      SSNs or the peppers differ. */
  predicate SeenAsChanged(recording: Config, first: Application, replaying: Config, second: Application) {
    || Financials(first) != Financials(second)
    || (recording.pepper != "" && replaying.pepper != "" && first.ssn != "" && second.ssn != "" &&
        (first.ssn != second.ssn || recording.pepper != replaying.pepper))
  }

  /** When the guard against an event recorded for `first` fires on `second`, the configuration having
      possibly changed in between. */
  lemma ConflictMeansChanged(recording: Config, first: Application, replaying: Config, second: Application)
    requires recording.hmac == replaying.hmac && TellsApart(recording.hmac)
    ensures InputsConflict(Some(InputsOf(recording, first)), InputsOf(replaying, second)) <==>
            SeenAsChanged(recording, first, replaying, second)
  {
  }

  /** A request repeated unchanged is refused exactly when it carries an SSN and the pepper was rotated,
      set before as after. */
  lemma UnchangedConflictsExactly(recording: Config, replaying: Config, app: Application)
    requires recording.hmac == replaying.hmac && TellsApart(recording.hmac)
    ensures InputsConflict(Some(InputsOf(recording, app)), InputsOf(replaying, app)) <==>
            app.ssn != "" && recording.pepper != "" && replaying.pepper != "" && recording.pepper != replaying.pepper
  {
    ConflictMeansChanged(recording, app, replaying, app);
  }

  /** The guard's intent not to refuse a legitimate replay fails across a rotation of the pepper. */
  lemma RotatedPepperIsAnException(config: Config)
    requires config.hmac("old", "123456789") != config.hmac("new", "123456789")
    ensures var app := Application(1, "key", "123456789", Absent, Absent, Absent, Absent, Absent);
            InputsConflict(Some(InputsOf(config.(pepper := "old"), app)), InputsOf(config.(pepper := "new"), app))
  {
  }

  /** The five financial figures with absence, null and zero identified as the service does. */
  function Financials(app: Application): (real, real, real, real, real) {
    (OrElse(Get(app.income, 0.0), 0.0), OrElse(Get(app.amount, 0.0), 0.0), OrElse(Get(app.term, 36.0), 0.0),
     OrElse(Get(app.debt, 0.0), 0.0), OrElse(Get(app.years, 0.0), 0.0))
  }

  // ---- Building and validating the record ---------------------------------------------------

  /** `attributions` is None for an empty drivers dictionary. */
  datatype Drivers = Drivers(modelId: string, modelVersion: string, score: int, attributions: seq<Attribution>,
                             approveCutoff: int, denyCutoff: int)

  datatype Event = Event(appId: int, requestId: Option<string>, outcome: Band, reasons: seq<Reason>, drivers: Drivers,
                         band: Band, inputs: RequestInputs, bureau: real, provenance: map<string, string>,
                         decidedBy: string)

  datatype Response = Response(score: int, decision: Band, band: Band, reasons: seq<Reason>, decidedBy: string)

  datatype Refusal =
    | CreditPullFailed
    | UnmappedModel(error: Reasons.Error)
    | DenyWithoutReasons
    | ReferHidesDrivers
    | NoDrivers
    | ContradictsBand
    | NotPersisted

  datatype Outcome<+T> = Done(value: T) | Refused(why: Refusal)

  predicate HasNegativeDrivers(attributions: seq<Attribution>) {
    exists a | a in attributions :: a.hundredths < 0
  }

  /** `drivers` is None for an empty drivers dictionary. */
  function ValidateRecord(outcome: Band, band: Band, reasons: seq<Reason>, drivers: Option<Drivers>,
                          decidedBy: string): Option<Refusal> {
    if outcome == Deny && reasons == [] then Some(DenyWithoutReasons)
    else if outcome == Refer && reasons == [] && drivers.Some? && HasNegativeDrivers(drivers.value.attributions)
    then Some(ReferHidesDrivers)
    else if drivers.None? then Some(NoDrivers)
    else if outcome != band && decidedBy == ModelSignature() then Some(ContradictsBand)
    else None
  }

  function StatedReasons(band: Band, mapped: seq<Reason>): seq<Reason> {
    if band == Approve then [] else mapped
  }

  function DriversOf(output: Output): Drivers {
    Drivers(output.modelId, output.modelVersion, output.score, output.attributions, APPROVE_CUTOFF, DENY_CUTOFF)
  }

  /** Everything between the pull and the write. */
  function Evaluate(config: Config, app: Application, requestId: Option<string>, pulled: Pulled): Outcome<Event> {
    var inputs := InputsOf(config, app);
    var output := ScoreApplication(ModelInputs(inputs, pulled.score));
    var band := PolicyBand(output.score);
    var mapped := PrincipalReasons(output.attributions);
    if mapped.Err? then Refused(UnmappedModel(mapped.error))
    else
      var reasons := StatedReasons(band, mapped.value);
      var labels := FeatureProvenance(output.attributions, pulled.source);
      if labels.Err? then Refused(UnmappedModel(labels.error))
      else
        var drivers := DriversOf(output);
        var refusal := ValidateRecord(band, band, reasons, Some(drivers), ModelSignature());
        if refusal.Some? then Refused(refusal.value)
        else Done(Event(app.appId, requestId, band, reasons, drivers, band, inputs, pulled.score, labels.value,
                        ModelSignature()))
  }

  /** The response rebuilt from a stored event. */
  function FromEvent(e: Event): Response {
    Response(e.drivers.score, e.outcome, e.band, e.reasons, e.decidedBy)
  }

  /** A lawful record: a deny states at least one reason, a refer states none exactly when no driver
      is negative, an approve states none, and the outcome is the policy band of the score. */
  ghost predicate Lawful(e: Event) {
    && e.outcome == e.band == PolicyBand(e.drivers.score)
    && (e.outcome == Deny ==> e.reasons != [])
    && (e.outcome == Refer ==> (e.reasons == [] <==> !HasNegativeDrivers(e.drivers.attributions)))
    && (e.outcome == Approve ==> e.reasons == [])
  }

  lemma ModelReasonsFitTheBand(p: Profile, band: Band)
    requires band == PolicyBand(Score(p))
    ensures PrincipalReasons(Attributions(p)).Ok?
    ensures var reasons := StatedReasons(band, PrincipalReasons(Attributions(p)).value);
            && (band == Deny ==> reasons != [])
            && (band == Refer ==> (reasons == [] <==> !HasNegativeDrivers(Attributions(p))))
            && (band == Approve ==> reasons == [])
  {
    ModelReasonsAreComplete(p);
    if band == Deny {
      DenyHasNegativeAttribution(p);
    }
  }

  /** The system never refuses its own record: whatever the application, once a score was pulled the
      evaluation ends in a lawful event for that application and key. */
  lemma OwnRecordIsNeverRefused(config: Config, reply: BureauReply, app: Application, requestId: Option<string>)
    requires PullCredit(config, reply, app.ssn).Some?
    ensures var e := Evaluate(config, app, requestId, PullCredit(config, reply, app.ssn).value);
            && e.Done? && Lawful(e.value)
            && e.value.appId == app.appId && e.value.requestId == requestId && e.value.inputs == InputsOf(config, app)
  {
    var pulled := PullCredit(config, reply, app.ssn).value;
    PullFailsClosed(config, reply, app.ssn);
    KnownSourceIsRecorded(config, app, requestId, pulled);
  }

  lemma KnownSourceIsRecorded(config: Config, app: Application, requestId: Option<string>, pulled: Pulled)
    requires pulled.source in CREDIT_SOURCE_PROVENANCE
    ensures var e := Evaluate(config, app, requestId, pulled);
            && e.Done? && Lawful(e.value)
            && e.value.appId == app.appId && e.value.requestId == requestId && e.value.inputs == InputsOf(config, app)
  {
    var p := Coerce(ModelInputs(InputsOf(config, app), pulled.score));
    var band := PolicyBand(Score(p));
    ModelReasonsFitTheBand(p, band);
    ModelVocabularyIsClassified(p);
  }

  /** A replay is honest: when the guard does not fire, scoring the second application with the
      recorded bureau score would have given the recorded response, whatever the configuration is by
      then. */
  lemma ReplayMatchesFreshDecision(recording: Config, first: Application, replaying: Config, second: Application,
                                   id: Option<string>, pulled: Pulled)
    requires Evaluate(recording, first, id, pulled).Done?
    requires !InputsConflict(Some(InputsOf(recording, first)), InputsOf(replaying, second))
    ensures Evaluate(replaying, second, id, pulled).Done?
    ensures FromEvent(Evaluate(replaying, second, id, pulled).value) ==
            FromEvent(Evaluate(recording, first, id, pulled).value)
  {
    var i := ModelInputs(InputsOf(recording, first), pulled.score);
    var j := ModelInputs(InputsOf(replaying, second), pulled.score);
    assert Coerce(i) == Coerce(j) by {
      assert OrElse(i.termMonths, 36.0) == OrElse(j.termMonths, 36.0);
    }
  }
}
