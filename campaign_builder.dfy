/**
 * components/campaign-builder.tsx: the four-step campaign wizard. The pure part
 * normalises classifier output and turns API failures into the message the user
 * sees; the class `CampaignBuilder` holds the component's React state and has one
 * method per UI event, the two effects that watch the generated SMS and the edited
 * text running after every event that changes either.
 */
module Campaign {
  import opened Wrappers
  import opened JsText
  import Json
  import GenerateRoute
  import ClassifyRoute
  import SendRoute
  import Llm

  /** `GeneratedSMS.classification`; `category` is whatever value the classifier's output held. */
  datatype Classification = Classification(category: Json.Value, allowSend: bool)

  datatype GeneratedSms = GeneratedSms(content: string, classification: Classification)

  datatype CampaignData = CampaignData(persona: string, campaignType: string, message: string, recipients: seq<string>)

  /** What a `fetch` to one of the routes gave the component: the request threw, the body was not JSON, or a status and a decoded body. */
  datatype Reply = FetchFailed(error: string) | BodyUnreadable(error: string) | Received(status: nat, body: Json.Value)

  /** `response.ok`. */
  predicate IsOk(status: nat) {
    200 <= status <= 299
  }

  // ---------------------------------------------------------------- classification

  /**
   * The category and send flag the UI keeps from a classification: the first of an
   * array of categories (`undefined` if it is empty), a truthy non-array value as it
   * is, `'Unknown'` otherwise; sending is allowed only by the boolean `true`.
   */
  function Normalize(c: Json.Value): (r: Classification)
    ensures r.allowSend <==> Json.Get(c, "allow_send") == Json.Bool(true)
    ensures Json.Get(c, "categories").Arr? && |Json.Get(c, "categories").items| > 0 ==>
      r.category == Json.Get(c, "categories").items[0]
    ensures Json.Get(c, "categories").Arr? && |Json.Get(c, "categories").items| == 0 ==> r.category == Json.Undefined
    ensures !Json.Get(c, "categories").Arr? && Json.Truthy(Json.Get(c, "categories")) ==> r.category == Json.Get(c, "categories")
    ensures !Json.Truthy(Json.Get(c, "categories")) ==> r.category == Json.Str("Unknown")
  {
    var categories := Json.Get(c, "categories");
    var category :=
      if categories.Arr? then (if |categories.items| > 0 then categories.items[0] else Json.Undefined)
      else if Json.Truthy(categories) then categories
      else Json.Str("Unknown");
    Classification(category, Json.Get(c, "allow_send") == Json.Bool(true))
  }

  /** A truthy `allow_send` that is not the boolean `true` (the string `"true"`, say) does not allow sending. */
  lemma OnlyTrueAllowsSending(c: Json.Value)
    requires Json.Get(c, "allow_send") != Json.Bool(true)
    ensures !Normalize(c).allowSend
  {
  }

  /** `reClassifySMS` after its request: a new classification, or `null` for any failure. */
  function Reclassification(reply: Reply): (r: Option<Classification>)
    ensures r.Some? <==> reply.Received? && IsOk(reply.status) && Json.Truthy(Json.Get(reply.body, "classification"))
    ensures r.Some? ==> r.value == Normalize(Json.Get(reply.body, "classification"))
  {
    match reply
    case FetchFailed(_) => None
    case BodyUnreadable(_) => None
    case Received(status, body) =>
      if !IsOk(status) then None
      else
        var c := Json.Get(body, "classification");
        if !Json.Truthy(c) then None else Some(Normalize(c))
  }

  // ---------------------------------------------------------------- error copy

  /**
   * The marker that opens every policy message. The source file holds it in a
   * mis-decoded form, four characters U+F8FF U+00FC U+00F6 U+00B4, in the copy
   * and in the check alike, so the two still agree.
   */
  const PolicyMarker: string := "\U{F8FF}\U{FC}\U{F6}\U{B4}"

  const GenericPolicyCopy := "Your content violates our policy guidelines."

  /** The keyword checks of the blocked-content copy, in their order, each with its message. */
  const PolicyCopies: seq<(string, string)> := [
    ("adult", PolicyMarker + " Adult content is not allowed in SMS campaigns."),
    ("gambling", PolicyMarker + " Gambling content is not allowed in SMS campaigns."),
    ("political", PolicyMarker + " Political campaign content is not allowed."),
    ("fraud", PolicyMarker + " This content appears to be fraudulent or misleading."),
    ("illegal", PolicyMarker + " Illegal content is not allowed in SMS campaigns.")
  ]

  /** The message a non-string category produces: calling `toLowerCase` on it throws this `TypeError`. */
  const NotAStringError := "smsData.category?.toLowerCase is not a function"

  /** Reference definition: the copy of the first keyword in `table` that `lower` contains, else `fallback`. */
  function FirstMatch(lower: string, table: seq<(string, string)>, fallback: string): string {
    if table == [] then fallback
    else if Contains(lower, table[0].0) then table[0].1
    else FirstMatch(lower, table[1..], fallback)
  }

  /** The `userMessage` chain for a blocked response, written out in the component's order. */
  function BlockedCopy(category: Json.Value): (r: string)
    ensures category.Undefined? || category.Null? ==> r == GenericPolicyCopy
    ensures !(category.Undefined? || category.Null? || category.Str?) ==> r == NotAStringError
  {
    match category
    case Undefined => GenericPolicyCopy
    case Null => GenericPolicyCopy
    case Str(s) =>
      var lower := ToLower(s);
      if Contains(lower, "adult") then PolicyMarker + " Adult content is not allowed in SMS campaigns."
      else if Contains(lower, "gambling") then PolicyMarker + " Gambling content is not allowed in SMS campaigns."
      else if Contains(lower, "political") then PolicyMarker + " Political campaign content is not allowed."
      else if Contains(lower, "fraud") then PolicyMarker + " This content appears to be fraudulent or misleading."
      else if Contains(lower, "illegal") then PolicyMarker + " Illegal content is not allowed in SMS campaigns."
      else GenericPolicyCopy
    case _ => NotAStringError
  }

  /** One step of the reference definition on the table from its `k`-th row. */
  lemma FirstMatchFrom(lower: string, k: nat)
    requires k < |PolicyCopies|
    ensures FirstMatch(lower, PolicyCopies[k..], GenericPolicyCopy) ==
      if Contains(lower, PolicyCopies[k].0) then PolicyCopies[k].1
      else FirstMatch(lower, PolicyCopies[k + 1..], GenericPolicyCopy)
  {
    assert PolicyCopies[k..][0] == PolicyCopies[k];
    assert PolicyCopies[k..][1..] == PolicyCopies[k + 1..];
  }

  /** For a string category the chain picks the first keyword, in table order, that the lower-cased category contains. */
  lemma BlockedCopyIsFirstMatch(s: string)
    ensures BlockedCopy(Json.Str(s)) == FirstMatch(ToLower(s), PolicyCopies, GenericPolicyCopy)
  {
    var lower := ToLower(s);
    assert PolicyCopies[0..] == PolicyCopies && PolicyCopies[5..] == [];
    FirstMatchFrom(lower, 0);
    FirstMatchFrom(lower, 1);
    FirstMatchFrom(lower, 2);
    FirstMatchFrom(lower, 3);
    FirstMatchFrom(lower, 4);
  }

  /** A category naming several kinds gets the copy of the earliest keyword: `adult` wins over everything. */
  lemma AdultWins(s: string)
    requires Contains(ToLower(s), "adult")
    ensures BlockedCopy(Json.Str(s)) == PolicyMarker + " Adult content is not allowed in SMS campaigns."
  {
  }

  /** `errorMsg.includes(marker) ? errorMsg : errorMsg + hint`, where the hint is left out when the text mentions OpenAI. */
  function ErrorDisplay(errorMsg: string): (r: string)
    ensures Contains(errorMsg, PolicyMarker) ==> r == errorMsg
    ensures !Contains(errorMsg, PolicyMarker) && Contains(errorMsg, "OpenAI") ==> r == errorMsg
    ensures !Contains(errorMsg, PolicyMarker) && !Contains(errorMsg, "OpenAI") ==>
      r == errorMsg + ". Please check your configuration and try again."
  {
    if Contains(errorMsg, PolicyMarker) then errorMsg
    else errorMsg + (if Contains(errorMsg, "OpenAI") then "" else ". Please check your configuration and try again.")
  }

  /** What the user sees is never empty: either the message carries a marker or `OpenAI`, or the hint is appended. */
  lemma ErrorDisplayNonEmpty(errorMsg: string)
    ensures ErrorDisplay(errorMsg) != ""
  {
    if Contains(errorMsg, PolicyMarker) || Contains(errorMsg, "OpenAI") {
      var i :| OccursAt(errorMsg, PolicyMarker, i) || OccursAt(errorMsg, "OpenAI", i);
      assert |errorMsg| > 0;
    }
  }

  /** Every keyword copy carries the marker and is shown exactly as written. */
  lemma PolicyCopiesShownVerbatim(k: nat)
    requires k < |PolicyCopies|
    ensures ErrorDisplay(PolicyCopies[k].1) == PolicyCopies[k].1
  {
    var copy := PolicyCopies[k].1;
    assert copy[..|PolicyMarker|] == PolicyMarker;
    assert OccursAt(copy, PolicyMarker, 0);
  }

  lemma GenericCopyHasNoMarker()
    ensures !Contains(GenericPolicyCopy, PolicyMarker)
  {
    ContainsNeedsItsCharacters(GenericPolicyCopy, PolicyMarker, '\U{F8FF}');
  }

  lemma GenericCopyNamesNoProvider()
    ensures !Contains(GenericPolicyCopy, "OpenAI")
  {
    ContainsNeedsItsCharacters(GenericPolicyCopy, "OpenAI", 'O');
  }

  /** The generic copy has no marker and does not mention OpenAI, so the configuration hint is appended to it. */
  lemma GenericCopyGetsHint()
    ensures ErrorDisplay(GenericPolicyCopy) == GenericPolicyCopy + ". Please check your configuration and try again."
  {
    GenericCopyHasNoMarker();
    GenericCopyNamesNoProvider();
  }

  // ---------------------------------------------------------------- handleGenerateSMS

  /** `String(v)` of a thrown error's value: `new Error(v)` converts its argument. */
  function ErrorOf(v: Json.Value, fallback: string): (r: string)
    ensures Json.Truthy(v) ==> r == Json.ToJsString(v)
    ensures !Json.Truthy(v) ==> r == fallback
  {
    if Json.Truthy(v) then Json.ToJsString(v) else fallback
  }

  /**
   * The two fetches of `handleGenerateSMS`, decided: the generated SMS with its
   * normalised classification, or the message of the `Error` the handler throws.
   * The classify reply matters only once generation succeeded.
   */
  function GenerateOutcome(gen: Reply, cls: Reply): (r: Result<GeneratedSms, string>)
    ensures r.Ok? <==>
      gen.Received? && IsOk(gen.status) && !gen.body.Null? && Json.Truthy(Json.Get(gen.body, "message"))
      && cls.Received? && IsOk(cls.status) && !cls.body.Null? && Json.Truthy(Json.Get(cls.body, "classification"))
    ensures r.Ok? ==>
      r.value == GeneratedSms(Json.ToJsString(Json.Get(gen.body, "message")), Normalize(Json.Get(cls.body, "classification")))
    ensures gen.Received? && !IsOk(gen.status) && Json.Truthy(Json.Get(gen.body, "blocked")) ==>
      r == Err(BlockedCopy(Json.Get(gen.body, "category")))
  {
    match gen
    case FetchFailed(error) => Err(error)
    case BodyUnreadable(_) => Err("Server communication error. Please try again.")
    case Received(status, smsData) =>
      if !IsOk(status) then
        if Json.Truthy(Json.Get(smsData, "blocked")) then Err(BlockedCopy(Json.Get(smsData, "category")))
        else Err(ErrorOf(Json.Get(smsData, "error"), "Failed to generate SMS"))
      else if smsData.Null? then Err(Json.NullRead("message"))
      else if !Json.Truthy(Json.Get(smsData, "message")) then Err("No SMS content generated. Check your OpenAI API key.")
      else
        var message := Json.ToJsString(Json.Get(smsData, "message"));
        match cls
        case FetchFailed(error) => Err(error)
        case BodyUnreadable(error) => Err(error)
        case Received(classifyStatus, classificationData) =>
          if !IsOk(classifyStatus) then
            if classificationData.Null? then Err(Json.NullRead("error"))
            else Err(ErrorOf(Json.Get(classificationData, "error"), "Classification API Error: " + NatToString(classifyStatus)))
          else if classificationData.Null? then Err(Json.NullRead("classification"))
          else
            var classification := Json.Get(classificationData, "classification");
            if !Json.Truthy(classification) then Err("No classification data returned.")
            else Ok(GeneratedSms(message, Normalize(classification)))
  }

  /** A generation failure never consults the classifier: any classify reply gives the same error. */
  lemma GenerationFailureIgnoresClassifier(gen: Reply, cls: Reply, cls': Reply)
    requires !(gen.Received? && IsOk(gen.status) && !gen.body.Null? && Json.Truthy(Json.Get(gen.body, "message")))
    ensures GenerateOutcome(gen, cls) == GenerateOutcome(gen, cls')
    ensures GenerateOutcome(gen, cls).Err?
  {
  }

  // ---------------------------------------------------------------- client and routes together

  /** A blocked generation the client reads: the route's 400 body goes through the blocked-content copy. */
  lemma BlockedRouteBodyUsesCopy(error: string, reason: string, category: Json.Value, id: string, cls: Reply)
    ensures GenerateOutcome(Received(400, GenerateRoute.BodyJson(GenerateRoute.Blocked(error, reason, category, id))), cls)
      == Err(BlockedCopy(category))
  {
  }

  /** A string category that names none of the keywords gets the generic copy. */
  lemma NoKeywordGivesGeneric(s: string)
    requires !Contains(ToLower(s), "adult") && !Contains(ToLower(s), "gambling") && !Contains(ToLower(s), "political")
    requires !Contains(ToLower(s), "fraud") && !Contains(ToLower(s), "illegal")
    ensures BlockedCopy(Json.Str(s)) == GenericPolicyCopy
  {
  }

  /** After its fourth character, the refusal category has no `f` in either case. */
  lemma RefusalTailLacksF()
    ensures var s := GenerateRoute.RefusedCategory; forall k :: 3 <= k < |s| ==> s[k] != 'f' && s[k] != 'F'
  {
  }

  /** The refusal category does not name `fraud`: its only `f` is followed by `u`. */
  lemma RefusalLacksFraud()
    ensures !Contains(ToLower(GenerateRoute.RefusedCategory), "fraud")
  {
    var s := GenerateRoute.RefusedCategory;
    var lower := ToLower(s);
    RefusalTailLacksF();
    assert lower[0] == 'r' && lower[1] == 'e' && lower[3] == 'u';
    forall i | 0 <= i <= |lower| - 5 ensures !OccursAt(lower, "fraud", i) {
      assert lower[i..i + 5][0] == lower[i] && lower[i..i + 5][1] == lower[i + 1];
      if i >= 3 {
        assert lower[i] == LowerChar(s[i]);
      }
    }
  }

  /** Without the letter `l` in either case a category names neither `adult`, `illegal`, `gambling` nor `political`. */
  lemma MissingLRulesOut(s: string)
    requires 'l' !in s && 'L' !in s
    ensures !Contains(ToLower(s), "adult") && !Contains(ToLower(s), "illegal")
    ensures !Contains(ToLower(s), "gambling") && !Contains(ToLower(s), "political")
  {
    LowerLacks(s, "adult", 'l');
    LowerLacks(s, "illegal", 'l');
    LowerLacks(s, "gambling", 'l');
    LowerLacks(s, "political", 'l');
  }

  /** The refusal category has no `l` in either case. */
  lemma RefusalLacksL()
    ensures 'l' !in GenerateRoute.RefusedCategory && 'L' !in GenerateRoute.RefusedCategory
  {
  }

  /** The refusal category gets the generic copy. */
  lemma RefusalCategoryIsGeneric()
    ensures BlockedCopy(Json.Str(GenerateRoute.RefusedCategory)) == GenericPolicyCopy
  {
    RefusalLacksL();
    MissingLRulesOut(GenerateRoute.RefusedCategory);
    RefusalLacksFraud();
    NoKeywordGivesGeneric(GenerateRoute.RefusedCategory);
  }

  /**
   * A refusal detected by the route carries the category `RefusedCategory`, which
   * names none of the keywords: the user gets the generic copy with the hint appended.
   */
  lemma RefusalShowsGenericCopy(reason: string, id: string, cls: Reply)
    ensures GenerateOutcome(Received(400, GenerateRoute.BodyJson(
      GenerateRoute.Blocked("Content policy violation", reason, Json.Str(GenerateRoute.RefusedCategory), id))), cls)
      == Err(GenericPolicyCopy)
    ensures ErrorDisplay(GenericPolicyCopy) == GenericPolicyCopy + ". Please check your configuration and try again."
  {
    RefusalCategoryIsGeneric();
    BlockedRouteBodyUsesCopy("Content policy violation", reason, Json.Str(GenerateRoute.RefusedCategory), id, cls);
    GenericCopyGetsHint();
  }

  /**
   * When the classifier's text is not JSON, the route's fallback reaches the client
   * as an `Informational` classification that does not allow sending.
   */
  lemma UnparseableClassifierBlocksSending(gen: Reply, message: string, content: string, timestamp: string)
    requires gen.Received? && IsOk(gen.status) && !gen.body.Null? && Json.Truthy(Json.Get(gen.body, "message"))
    requires message != "" && Llm.AnswerText(Some(content)) != ""
    ensures
      var r := ClassifyRoute.Post(ClassifyRoute.Fields(Some(message)), Llm.Answered(Some(content)), Json.Unparseable, timestamp);
      var outcome := GenerateOutcome(gen, Received(r.status, ClassifyRoute.BodyJson(r.body)));
      outcome.Ok? && !outcome.value.classification.allowSend
      && outcome.value.classification.category == Json.Str("Informational")
  {
    ClassifyRoute.UnparseableFailsSafe(message, content, timestamp);
  }

  /** A successful generation response's message becomes the SMS content. */
  lemma GeneratedRouteBodyIsContent(message: string, persona: string, length: nat, remaining: int, cls: Reply)
    requires message != ""
    requires cls.Received? && IsOk(cls.status) && !cls.body.Null? && Json.Truthy(Json.Get(cls.body, "classification"))
    ensures GenerateOutcome(Received(200, GenerateRoute.BodyJson(GenerateRoute.Generated(message, persona, length, remaining))), cls)
      == Ok(GeneratedSms(message, Normalize(Json.Get(cls.body, "classification"))))
  {
  }

  // ---------------------------------------------------------------- the two effects

  /** The component's state, one field per `useState`, plus the bookkeeping React keeps for the effects. */
  datatype Ui = Ui(
    step: int,
    campaign: CampaignData,
    generatedSms: Option<GeneratedSms>,
    isGenerating: bool,
    isSending: bool,
    isReClassifying: bool,
    recipientNumber: string,
    editedSmsContent: string,
    isEditing: bool,
    errorMessage: string,
    /** error-clearing timers scheduled and not yet fired (they are never cancelled) */
    pendingErrorClears: nat,
    /** the debounce timer of the edit effect, with the text it captured */
    pendingRecheck: Option<string>,
    /** the text of the re-classification request under way */
    recheckInFlight: Option<string>,
    /** the identity of the `generatedSMS` object: every `setGeneratedSMS` makes a new one */
    smsRevision: nat,
    /** the dependency values the effects last ran with */
    seenRevision: nat,
    seenEdited: string)

  /** Lines 130-134: fill the editor from a generated SMS when the editor is empty. */
  predicate InitFires(sms: Option<GeneratedSms>, edited: string) {
    sms.Some? && sms.value.content != "" && edited == ""
  }

  /** Lines 137-139: the edit effect does its work for non-blank edited text that differs from the SMS content. */
  predicate EditFires(sms: Option<GeneratedSms>, edited: string) {
    Trim(edited) != "" && sms.Some? && edited != sms.value.content
  }

  /** Lines 142-150: the SMS takes the edited text and loses its permission to send, keeping its category. */
  function Provisional(g: GeneratedSms, edited: string): (r: GeneratedSms)
    ensures r.content == edited && !r.classification.allowSend && r.classification.category == g.classification.category
  {
    g.(content := edited, classification := g.classification.(allowSend := false))
  }

  predicate EffectsIdle(u: Ui) {
    !InitFires(u.generatedSms, u.editedSmsContent) && !EditFires(u.generatedSms, u.editedSmsContent)
  }

  predicate DepsChanged(u: Ui) {
    u.smsRevision != u.seenRevision || u.editedSmsContent != u.seenEdited
  }

  /**
   * One commit: when a dependency changed since the effects last ran, the edit
   * effect's cleanup clears its timer, then both effects run on this render's
   * values, the edit effect scheduling a new timer if it does its work.
   */
  function CommitUi(u: Ui): Ui {
    if !DepsChanged(u) then u
    else
      var sms, edited := u.generatedSms, u.editedSmsContent;
      var u1 := u.(pendingRecheck := None, seenRevision := u.smsRevision, seenEdited := edited);
      var u2 := if InitFires(sms, edited) then u1.(editedSmsContent := sms.value.content) else u1;
      if EditFires(sms, edited) then
        u2.(generatedSms := Some(Provisional(sms.value, edited)), smsRevision := u.smsRevision + 1,
            pendingRecheck := Some(edited))
      else u2
  }

  /** The commits after one event: two always reach rest (at most one effect does work, and then the next commit finds nothing to do). */
  function SettleUi(u: Ui): Ui {
    CommitUi(CommitUi(u))
  }

  /** Everything besides the SMS, the editor text and the timer. */
  predicate SameOutsideEffects(u: Ui, v: Ui) {
    v.step == u.step && v.campaign == u.campaign && v.isGenerating == u.isGenerating
    && v.isSending == u.isSending && v.isReClassifying == u.isReClassifying
    && v.recipientNumber == u.recipientNumber && v.isEditing == u.isEditing
    && v.errorMessage == u.errorMessage && v.pendingErrorClears == u.pendingErrorClears
    && v.recheckInFlight == u.recheckInFlight
  }

  /** A commit in which neither effect does work only records the dependencies and clears the timer. */
  lemma CommitIdle(u: Ui)
    requires DepsChanged(u) && EffectsIdle(u)
    ensures CommitUi(u) == u.(pendingRecheck := None, seenRevision := u.smsRevision, seenEdited := u.editedSmsContent)
  {
  }

  /** A commit in which the init effect fills the editor. */
  lemma CommitInit(u: Ui)
    requires DepsChanged(u) && InitFires(u.generatedSms, u.editedSmsContent)
    ensures CommitUi(u) == u.(pendingRecheck := None, seenRevision := u.smsRevision, seenEdited := u.editedSmsContent,
      editedSmsContent := u.generatedSms.value.content)
  {
  }

  /** A commit in which the edit effect replaces the SMS and schedules the timer. */
  lemma CommitEdit(u: Ui)
    requires DepsChanged(u) && EditFires(u.generatedSms, u.editedSmsContent)
    ensures CommitUi(u) == u.(seenRevision := u.smsRevision, seenEdited := u.editedSmsContent,
      generatedSms := Some(Provisional(u.generatedSms.value, u.editedSmsContent)), smsRevision := u.smsRevision + 1,
      pendingRecheck := Some(u.editedSmsContent))
  {
  }

  /**
   * After an event that changed a dependency the effects are at rest, and the
   * debounce timer is gone: the edit effect's own `setGeneratedSMS` triggers the
   * re-render whose cleanup clears the timer it has just set.
   */
  lemma SettleUiRests(u: Ui)
    requires DepsChanged(u)
    ensures EffectsIdle(SettleUi(u)) && !DepsChanged(SettleUi(u))
    ensures SettleUi(u).pendingRecheck.None?
    ensures SameOutsideEffects(u, SettleUi(u))
    ensures InitFires(u.generatedSms, u.editedSmsContent) ==>
      SettleUi(u).generatedSms == u.generatedSms && SettleUi(u).editedSmsContent == u.generatedSms.value.content
    ensures EditFires(u.generatedSms, u.editedSmsContent) ==>
      SettleUi(u).generatedSms == Some(Provisional(u.generatedSms.value, u.editedSmsContent))
      && SettleUi(u).editedSmsContent == u.editedSmsContent
    ensures EffectsIdle(u) ==>
      SettleUi(u).generatedSms == u.generatedSms && SettleUi(u).editedSmsContent == u.editedSmsContent
  {
    var c1 := CommitUi(u);
    if InitFires(u.generatedSms, u.editedSmsContent) {
      CommitInit(u);
      assert DepsChanged(c1) && EffectsIdle(c1);
      CommitIdle(c1);
    } else if EditFires(u.generatedSms, u.editedSmsContent) {
      CommitEdit(u);
      assert DepsChanged(c1) && EffectsIdle(c1);
      CommitIdle(c1);
    } else {
      CommitIdle(u);
      assert !DepsChanged(c1);
    }
  }

  /** Settling from a state where neither effect has work only records the dependencies. */
  lemma SettleIdle(u: Ui)
    requires DepsChanged(u) && EffectsIdle(u)
    ensures SettleUi(u) == u.(pendingRecheck := None, seenRevision := u.smsRevision, seenEdited := u.editedSmsContent)
  {
    CommitIdle(u);
    assert !DepsChanged(CommitUi(u));
  }

  /** A commit touches only the SMS, the editor text, the timer and the recorded dependencies. */
  lemma CommitKeepsTheRest(u: Ui)
    ensures SameOutsideEffects(u, CommitUi(u))
  {
    if !DepsChanged(u) {
    } else if InitFires(u.generatedSms, u.editedSmsContent) {
      CommitInit(u);
    } else if EditFires(u.generatedSms, u.editedSmsContent) {
      CommitEdit(u);
    } else {
      CommitIdle(u);
    }
  }

  /** At rest, further commits change nothing. */
  lemma SettleUiIdempotent(u: Ui)
    requires DepsChanged(u)
    ensures SettleUi(SettleUi(u)) == SettleUi(u)
  {
    SettleUiRests(u);
  }

  /** What the preview and the length check show: the edited text if non-empty, else the SMS content. */
  function Displayed(edited: string, content: string): (r: string)
    ensures edited != "" ==> r == edited
    ensures edited == "" ==> r == content
  {
    if edited != "" then edited else content
  }

  /** Line 710: the send button is enabled. */
  predicate SendEnabled(recipient: string, isSending: bool, isReClassifying: bool, displayed: string) {
    Trim(recipient) != "" && !isSending && !isReClassifying && JsLength(displayed) <= 160
  }

  /**
   * The send button and `handleSendSMS`'s own guard (lines 284-296, 710): a request
   * with the edited text and the recipient exactly when the button is enabled and
   * the edited text is not blank.
   */
  function SendRequest(u: Ui): (r: Option<SendRoute.Request>)
    requires u.generatedSms.Some?
    ensures r.Some? <==>
      SendEnabled(u.recipientNumber, u.isSending, u.isReClassifying, Displayed(u.editedSmsContent, u.generatedSms.value.content))
      && Trim(u.editedSmsContent) != ""
    ensures r.Some? ==> r.value == SendRoute.Fields(Some(u.editedSmsContent), Some(u.recipientNumber))
  {
    var content := u.generatedSms.value.content;
    if !SendEnabled(u.recipientNumber, u.isSending, u.isReClassifying, Displayed(u.editedSmsContent, content)) then None
    else if u.recipientNumber == "" || Trim(u.editedSmsContent) == "" then None
    else Some(SendRoute.Fields(Some(u.editedSmsContent), Some(u.recipientNumber)))
  }

  /** The invariant of every state the component reaches, apart from the ghost record of what was classified. */
  predicate ValidUi(u: Ui) {
    1 <= u.step <= 4
    && !DepsChanged(u) && EffectsIdle(u)
    && (u.step == 4 ==> u.generatedSms.Some?)
    && (u.isReClassifying <==> u.recheckInFlight.Some?)
    && (u.recheckInFlight.Some? ==> Trim(u.recheckInFlight.value) != "")
    && (u.pendingRecheck.Some? || u.recheckInFlight.Some? ==> u.generatedSms.Some?)
  }

  /** A classification that allows sending was computed for exactly the text it is attached to. */
  predicate Consistent(u: Ui, classified: string) {
    u.generatedSms.Some? && u.generatedSms.value.classification.allowSend ==> u.generatedSms.value.content == classified
  }

  /** A re-classification lands (lines 157-161 and the `finally`): the SMS takes the captured text and the new classification. */
  function Landed(u: Ui, c: Classification): (r: Ui)
    requires u.recheckInFlight.Some?
    ensures r.generatedSms == Some(GeneratedSms(u.recheckInFlight.value, c))
    ensures r.recheckInFlight.None? && !r.isReClassifying
  {
    u.(isReClassifying := false, recheckInFlight := None,
       generatedSms := Some(GeneratedSms(u.recheckInFlight.value, c)), smsRevision := u.smsRevision + 1)
  }

  /**
   * After a re-classification lands and the effects settle, the invariant holds
   * with the captured text as the classified one; when the editor still shows that
   * text, the new classification stays attached to it.
   */
  lemma LandedSettles(u: Ui, c: Classification)
    requires ValidUi(u) && u.recheckInFlight.Some?
    ensures ValidUi(SettleUi(Landed(u, c))) && Consistent(SettleUi(Landed(u, c)), u.recheckInFlight.value)
    ensures SettleUi(Landed(u, c)).recheckInFlight.None? && !SettleUi(Landed(u, c)).isReClassifying
    ensures u.editedSmsContent == u.recheckInFlight.value ==>
      SettleUi(Landed(u, c)).generatedSms == Some(GeneratedSms(u.recheckInFlight.value, c))
  {
    assert DepsChanged(Landed(u, c));
    SettleUiRests(Landed(u, c));
  }

  /**
   * In every state the component reaches, a send request carries the text the
   * permission to send was computed for, and that text fits in one SMS.
   */
  lemma SendsClassifiedText(u: Ui, classified: string)
    requires ValidUi(u) && Consistent(u, classified)
    requires u.generatedSms.Some? && u.generatedSms.value.classification.allowSend && SendRequest(u).Some?
    ensures u.editedSmsContent == classified && JsLength(u.editedSmsContent) <= 160
  {
    TrimEmptyIff(u.editedSmsContent);
    assert !EditFires(u.generatedSms, u.editedSmsContent);
  }

  /** The SMS, the editor, the re-classification and the effect bookkeeping are as they were. */
  predicate SameEffectState(u: Ui, v: Ui) {
    v.generatedSms == u.generatedSms && v.editedSmsContent == u.editedSmsContent
    && v.isReClassifying == u.isReClassifying && v.recheckInFlight == u.recheckInFlight
    && v.pendingRecheck == u.pendingRecheck && v.smsRevision == u.smsRevision
    && v.seenRevision == u.seenRevision && v.seenEdited == u.seenEdited
  }

  /**
   * An event that changes only what the effects do not watch (the step, the
   * campaign data, the flags, the recipient, the error) keeps the invariant, as
   * long as step 4 still has an SMS to show, and adds no timer or request.
   */
  lemma ViewChangeKeepsValid(u: Ui, v: Ui, classified: string)
    requires ValidUi(u) && Consistent(u, classified) && SameEffectState(u, v)
    requires 1 <= v.step <= 4 && (v.step == 4 ==> v.generatedSms.Some?)
    ensures ValidUi(v) && Consistent(v, classified)
    ensures QuiescentUi(u) ==> QuiescentUi(v)
  {
  }

  /** No debounce timer and no re-classification under way. */
  predicate QuiescentUi(u: Ui) {
    u.pendingRecheck.None? && u.recheckInFlight.None?
  }

  // ---------------------------------------------------------------- the component

  class CampaignBuilder {
    var step: int
    var campaign: CampaignData
    var generatedSms: Option<GeneratedSms>
    var isGenerating: bool
    var isSending: bool
    var isReClassifying: bool
    var recipientNumber: string
    var editedSmsContent: string
    var isEditing: bool
    var errorMessage: string
    var pendingErrorClears: nat
    var pendingRecheck: Option<string>
    var recheckInFlight: Option<string>
    var smsRevision: nat
    var seenRevision: nat
    var seenEdited: string
    /** The text the current classification was computed for. */
    ghost var classifiedText: string

    function State(): Ui
      reads this
    {
      Ui(step, campaign, generatedSms, isGenerating, isSending, isReClassifying, recipientNumber,
         editedSmsContent, isEditing, errorMessage, pendingErrorClears, pendingRecheck, recheckInFlight,
         smsRevision, seenRevision, seenEdited)
    }

    ghost predicate Valid()
      reads this
    {
      ValidUi(State()) && Consistent(State(), classifiedText)
    }

    predicate Quiescent()
      reads this
    {
      QuiescentUi(State())
    }

    /** Step 4 is on screen. */
    predicate OnReview()
      reads this
    {
      step == 4 && generatedSms.Some?
    }

    constructor ()
      ensures Valid() && Quiescent()
      ensures State() == Ui(1, CampaignData("", "", "", []), None, false, false, false, "", "", false, "", 0, None, None, 0, 0, "")
    {
      step := 1;
      campaign := CampaignData("", "", "", []);
      generatedSms := None;
      isGenerating, isSending, isReClassifying := false, false, false;
      recipientNumber := "";
      editedSmsContent := "";
      isEditing := false;
      errorMessage := "";
      pendingErrorClears := 0;
      pendingRecheck, recheckInFlight := None, None;
      smsRevision, seenRevision, seenEdited := 0, 0, "";
      classifiedText := "";
    }

    /** Writes back the values a commit can change; everything else is already equal. */
    method WriteEffects(v: Ui)
      requires SameOutsideEffects(State(), v)
      modifies this
      ensures State() == v
      ensures classifiedText == old(classifiedText)
    {
      WriteOutputs(v.generatedSms, v.editedSmsContent, v.pendingRecheck);
      WriteDeps(v.smsRevision, v.seenRevision, v.seenEdited);
    }

    /** The values the effects set: the SMS, the editor text and the debounce timer. */
    method WriteOutputs(sms: Option<GeneratedSms>, edited: string, recheck: Option<string>)
      modifies this
      ensures State() == old(State()).(generatedSms := sms, editedSmsContent := edited, pendingRecheck := recheck)
      ensures classifiedText == old(classifiedText)
    {
      generatedSms, editedSmsContent, pendingRecheck := sms, edited, recheck;
    }

    /** The identity of the SMS object and the dependency values the effects last ran with. */
    method WriteDeps(revision: nat, seen: nat, seenText: string)
      modifies this
      ensures State() == old(State()).(smsRevision := revision, seenRevision := seen, seenEdited := seenText)
      ensures classifiedText == old(classifiedText)
    {
      smsRevision, seenRevision, seenEdited := revision, seen, seenText;
    }

    /** One commit of the effects. */
    method Commit()
      modifies this
      ensures State() == CommitUi(old(State()))
      ensures classifiedText == old(classifiedText)
    {
      CommitKeepsTheRest(State());
      WriteEffects(CommitUi(State()));
    }

    /** The commits that follow an event, until the effects are at rest. */
    method Settle()
      modifies this
      ensures State() == SettleUi(old(State()))
      ensures classifiedText == old(classifiedText)
    {
      Commit();
      Commit();
    }

    /** `handlePersonaSelect`. */
    method SelectPersona(persona: string)
      requires Valid() && step == 1
      modifies this
      ensures Valid() && (old(Quiescent()) ==> Quiescent())
      ensures State() == old(State()).(campaign := old(campaign).(persona := persona), errorMessage := "", step := 2)
      ensures classifiedText == old(classifiedText)
    {
      ghost var before := State();
      campaign := campaign.(persona := persona);
      errorMessage := "";
      step := 2;
      ViewChangeKeepsValid(before, State(), classifiedText);
    }

    /** `handleCampaignTypeSelect`. */
    method SelectCampaignType(campaignType: string)
      requires Valid() && step == 2
      modifies this
      ensures Valid() && (old(Quiescent()) ==> Quiescent())
      ensures State() == old(State()).(campaign := old(campaign).(campaignType := campaignType), errorMessage := "", step := 3)
      ensures classifiedText == old(classifiedText)
    {
      ghost var before := State();
      campaign := campaign.(campaignType := campaignType);
      errorMessage := "";
      step := 3;
      ViewChangeKeepsValid(before, State(), classifiedText);
    }

    /** Back on step 2 (lines 484-487) and on step 3 (lines 531-534). */
    method Back()
      requires Valid() && (step == 2 || step == 3)
      modifies this
      ensures Valid() && (old(Quiescent()) ==> Quiescent())
      ensures State() == old(State()).(step := old(step) - 1, errorMessage := "")
      ensures classifiedText == old(classifiedText)
    {
      ghost var before := State();
      step := step - 1;
      errorMessage := "";
      ViewChangeKeepsValid(before, State(), classifiedText);
    }

    /** Typing the brief on step 3 (lines 512-515). */
    method TypeBrief(text: string)
      requires Valid() && step == 3
      modifies this
      ensures Valid() && (old(Quiescent()) ==> Quiescent())
      ensures State() == old(State()).(campaign := old(campaign).(message := text), errorMessage := "")
      ensures classifiedText == old(classifiedText)
    {
      ghost var before := State();
      campaign := campaign.(message := text);
      if errorMessage != "" {
        errorMessage := "";
      }
      ViewChangeKeepsValid(before, State(), classifiedText);
    }

    /**
     * The Generate button: disabled for a blank brief or while generating;
     * otherwise generation starts and the request body for the route is returned.
     */
    method ClickGenerate() returns (request: Option<GenerateRoute.Request>)
      requires Valid() && step == 3
      modifies this
      ensures Valid() && (old(Quiescent()) ==> Quiescent())
      ensures request.Some? <==> Trim(old(campaign.message)) != "" && !old(isGenerating)
      ensures request.Some? ==> request.value == GenerateRoute.Fields(Some(campaign.persona), Some(campaign.message))
      ensures State() == old(State()).(isGenerating := old(isGenerating) || request.Some?)
      ensures classifiedText == old(classifiedText)
    {
      ghost var before := State();
      if Trim(campaign.message) == "" || isGenerating {
        return None;
      }
      isGenerating := true;
      request := Some(GenerateRoute.Fields(Some(campaign.persona), Some(campaign.message)));
      ViewChangeKeepsValid(before, State(), classifiedText);
    }

    /** The updates of a successful `handleGenerateSMS` (lines 252-262 and its `finally`), before the effects run. */
    method ShowGenerated(sms: GeneratedSms)
      modifies this
      ensures State() == old(State()).(generatedSms := Some(sms), smsRevision := old(smsRevision) + 1, step := 4,
        editedSmsContent := sms.content, isGenerating := false)
      ensures classifiedText == sms.content
    {
      StoreSms(sms);
      step, editedSmsContent, isGenerating := 4, sms.content, false;
    }

    /** `setGeneratedSMS` with a new SMS: a new object, whose text is the one its classification was computed for. */
    method StoreSms(sms: GeneratedSms)
      modifies this
      ensures State() == old(State()).(generatedSms := Some(sms), smsRevision := old(smsRevision) + 1)
      ensures classifiedText == sms.content
    {
      generatedSms, smsRevision, classifiedText := Some(sms), smsRevision + 1, sms.content;
    }

    /** The updates of a failed `handleGenerateSMS` (lines 263-281): the message, its clearing timer, the `finally`. */
    method ShowError(message: string)
      modifies this
      ensures State() == old(State()).(errorMessage := message, isGenerating := false,
        pendingErrorClears := old(pendingErrorClears) + 1)
      ensures classifiedText == old(classifiedText)
    {
      errorMessage, pendingErrorClears, isGenerating := message, pendingErrorClears + 1, false;
    }

    /**
     * The rest of `handleGenerateSMS`, once both replies are known: success shows
     * the SMS on step 4 with the editor refilled; a failure leaves the step as it
     * was, shows a non-empty message and schedules its clearing.
     */
    method GenerateFinished(gen: Reply, cls: Reply)
      requires Valid() && isGenerating
      modifies this
      ensures Valid() && (old(Quiescent()) ==> Quiescent())
      ensures GenerateOutcome(gen, cls).Ok? ==>
        State() == old(State()).(generatedSms := Some(GenerateOutcome(gen, cls).value), step := 4,
          editedSmsContent := GenerateOutcome(gen, cls).value.content, isGenerating := false,
          smsRevision := old(smsRevision) + 1, seenRevision := old(smsRevision) + 1,
          seenEdited := GenerateOutcome(gen, cls).value.content, pendingRecheck := None)
        && classifiedText == GenerateOutcome(gen, cls).value.content
      ensures GenerateOutcome(gen, cls).Err? ==>
        State() == old(State()).(errorMessage := ErrorDisplay(GenerateOutcome(gen, cls).error), isGenerating := false,
          pendingErrorClears := old(pendingErrorClears) + 1)
        && classifiedText == old(classifiedText) && errorMessage != ""
    {
      match GenerateOutcome(gen, cls)
      case Ok(sms) =>
        ShowGenerated(sms);
        SettleIdle(State());
        Settle();
      case Err(error) =>
        ErrorDisplayNonEmpty(error);
        ShowError(ErrorDisplay(error));
    }

    /** One of the five-second timers set after a failure fires; it clears whatever message is shown by then. */
    method ErrorTimerFires()
      requires Valid() && pendingErrorClears > 0
      modifies this
      ensures Valid() && (old(Quiescent()) ==> Quiescent())
      ensures State() == old(State()).(errorMessage := "", pendingErrorClears := old(pendingErrorClears) - 1)
      ensures classifiedText == old(classifiedText)
    {
      ghost var before := State();
      errorMessage := "";
      pendingErrorClears := pendingErrorClears - 1;
      ViewChangeKeepsValid(before, State(), classifiedText);
    }

    /** The close button of the error panel. */
    method DismissError()
      requires Valid() && errorMessage != ""
      modifies this
      ensures Valid() && (old(Quiescent()) ==> Quiescent())
      ensures State() == old(State()).(errorMessage := "")
      ensures classifiedText == old(classifiedText)
    {
      ghost var before := State();
      errorMessage := "";
      ViewChangeKeepsValid(before, State(), classifiedText);
    }

    /**
     * The Edit / Done button (lines 583-588). Entering the editor fills it when it is
     * empty, but the init effect has already done so whenever the SMS has content:
     * only the editing flag changes.
     */
    method ToggleEdit()
      requires Valid() && OnReview()
      modifies this
      ensures Valid() && (old(Quiescent()) ==> Quiescent())
      ensures State() == old(State()).(isEditing := !old(isEditing))
      ensures classifiedText == old(classifiedText)
    {
      ghost var before := State();
      if !isEditing {
        editedSmsContent := if editedSmsContent != "" then editedSmsContent else generatedSms.value.content;
      }
      isEditing := !isEditing;
      ViewChangeKeepsValid(before, State(), classifiedText);
    }

    /**
     * Typing in the editor (line 599). Text that is not blank and differs from the
     * SMS becomes the SMS content at once and withdraws the permission to send,
     * keeping the category; clearing the editor refills it from the SMS. The
     * debounce timer the edit effect schedules is cleared again by the re-render.
     */
    method Edit(text: string)
      requires Valid() && OnReview() && isEditing
      modifies this
      ensures Valid() && (old(Quiescent()) ==> Quiescent())
      ensures State() == SettleUi(old(State()).(editedSmsContent := text))
      ensures editedSmsContent == (if text == "" then old(generatedSms.value.content) else text)
      ensures EditFires(old(generatedSms), text) ==> generatedSms == Some(Provisional(old(generatedSms.value), text))
      ensures !EditFires(old(generatedSms), text) ==> generatedSms == old(generatedSms)
      ensures text != old(editedSmsContent) ==> pendingRecheck.None?
      ensures SameOutsideEffects(old(State()), State())
      ensures classifiedText == old(classifiedText)
    {
      if text != editedSmsContent {
        editedSmsContent := text;
        SettleUiRests(State());
        Settle();
      }
    }

    /** Reset (lines 611-614): the editor takes the SMS content, which an edit has already replaced. */
    method Reset()
      requires Valid() && OnReview() && isEditing
      modifies this
      ensures Valid() && (old(Quiescent()) ==> Quiescent())
      ensures State() == SettleUi(old(State()).(editedSmsContent := old(generatedSms.value.content), isEditing := false))
      ensures generatedSms == old(generatedSms) && editedSmsContent == old(generatedSms.value.content) && !isEditing
      ensures old(editedSmsContent) != old(generatedSms.value.content) ==> pendingRecheck.None?
      ensures classifiedText == old(classifiedText)
    {
      var changed := generatedSms.value.content != editedSmsContent;
      editedSmsContent, isEditing := generatedSms.value.content, false;
      if changed {
        SettleIdle(State());
        Settle();
      }
    }

    /** The updates of "Back to Edit" (lines 724-729), before the effects run. */
    method LeaveReview()
      modifies this
      ensures State() == old(State()).(step := 3, editedSmsContent := "", isEditing := false, errorMessage := "")
      ensures classifiedText == old(classifiedText)
    {
      step := 3;
      editedSmsContent := "";
      isEditing := false;
      errorMessage := "";
    }

    /** "Back to Edit": step 3 with the editor closed and emptied, which the init effect refills from the SMS. */
    method BackToBrief()
      requires Valid() && OnReview()
      modifies this
      ensures Valid() && (old(Quiescent()) ==> Quiescent())
      ensures State() == SettleUi(old(State()).(step := 3, editedSmsContent := "", isEditing := false, errorMessage := ""))
      ensures step == 3 && !isEditing && errorMessage == ""
      ensures generatedSms == old(generatedSms) && editedSmsContent == old(generatedSms.value.content)
      ensures campaign == old(campaign) && recipientNumber == old(recipientNumber)
      ensures classifiedText == old(classifiedText)
    {
      var changed := editedSmsContent != "";
      LeaveReview();
      if changed {
        SettleUiRests(State());
        Settle();
      }
    }

    /** The recipient field, rendered only while sending is allowed. */
    method TypeRecipient(text: string)
      requires Valid() && OnReview() && generatedSms.value.classification.allowSend
      modifies this
      ensures Valid() && (old(Quiescent()) ==> Quiescent())
      ensures State() == old(State()).(recipientNumber := text)
      ensures classifiedText == old(classifiedText)
    {
      ghost var before := State();
      recipientNumber := text;
      ViewChangeKeepsValid(before, State(), classifiedText);
    }

    /**
     * The send button, offered only while sending is allowed: it issues the request
     * `SendRequest` computes and marks sending as under way; the text sent is exactly
     * the text the permission was computed for.
     */
    method ClickSend() returns (request: Option<SendRoute.Request>)
      requires Valid() && OnReview() && generatedSms.value.classification.allowSend
      modifies this
      ensures Valid() && (old(Quiescent()) ==> Quiescent())
      ensures request == SendRequest(old(State()))
      ensures request.Some? ==> editedSmsContent == classifiedText && JsLength(editedSmsContent) <= 160
      ensures State() == old(State()).(isSending := old(isSending) || request.Some?)
      ensures classifiedText == old(classifiedText)
    {
      request := SendRequest(State());
      if request.Some? {
        SendsClassifiedText(State(), classifiedText);
        StartSending();
      }
    }

    /** `setIsSending(true)`. */
    method StartSending()
      requires Valid()
      modifies this
      ensures Valid() && (old(Quiescent()) ==> Quiescent())
      ensures State() == old(State()).(isSending := true)
      ensures classifiedText == old(classifiedText)
    {
      ghost var before := State();
      isSending := true;
      ViewChangeKeepsValid(before, State(), classifiedText);
    }

    /** The `finally` of `handleSendSMS`; the alert it shows is not part of the model. */
    method SendFinished()
      requires Valid() && isSending
      modifies this
      ensures Valid() && (old(Quiescent()) ==> Quiescent())
      ensures State() == old(State()).(isSending := false)
      ensures classifiedText == old(classifiedText)
    {
      ghost var before := State();
      isSending := false;
      ViewChangeKeepsValid(before, State(), classifiedText);
    }

    /**
     * The debounce timer fires (lines 153-154) and `reClassifySMS` starts for the
     * text it captured, unless that text is blank. No state the component reaches
     * has a pending timer, since the re-render clears it first.
     */
    method RecheckTimerFires() returns (request: Option<ClassifyRoute.Request>)
      requires Valid() && pendingRecheck.Some? && recheckInFlight.None?
      modifies this
      ensures Valid()
      ensures request.Some? <==> Trim(old(pendingRecheck.value)) != ""
      ensures request.Some? ==> request.value == ClassifyRoute.Fields(Some(old(pendingRecheck.value)))
      ensures State() == old(State()).(pendingRecheck := None,
        isReClassifying := request.Some?, recheckInFlight := if request.Some? then old(pendingRecheck) else None)
      ensures classifiedText == old(classifiedText)
    {
      var text := pendingRecheck.value;
      if Trim(text) == "" {
        DropTimer();
        request := None;
      } else {
        StartRecheck(text);
        request := Some(ClassifyRoute.Fields(Some(text)));
      }
    }

    /** The timer fired with blank text: `reClassifySMS` returns at once and only the timer is gone. */
    method DropTimer()
      requires Valid() && pendingRecheck.Some?
      modifies this
      ensures Valid() && State() == old(State()).(pendingRecheck := None)
      ensures classifiedText == old(classifiedText)
    {
      pendingRecheck := None;
    }

    /** `reClassifySMS` starts for the captured, non-blank text. */
    method StartRecheck(text: string)
      requires Valid() && pendingRecheck.Some? && recheckInFlight.None? && Trim(text) != ""
      modifies this
      ensures Valid()
      ensures State() == old(State()).(pendingRecheck := None, isReClassifying := true, recheckInFlight := Some(text))
      ensures classifiedText == old(classifiedText)
    {
      pendingRecheck, isReClassifying, recheckInFlight := None, true, Some(text);
    }

    /** The timer callback's `setGeneratedSMS` (lines 157-161): the SMS takes the captured text and its new classification. */
    method ApplyClassification(text: string, c: Classification)
      requires generatedSms.Some?
      modifies this
      ensures State() == old(State()).(generatedSms := Some(GeneratedSms(text, c)), smsRevision := old(smsRevision) + 1)
      ensures classifiedText == text
    {
      generatedSms := Some(generatedSms.value.(content := text, classification := c));
      smsRevision := smsRevision + 1;
      classifiedText := text;
    }

    /**
     * The re-classification answers (lines 155-161 and the `finally` of
     * `reClassifySMS`): a new classification replaces the old one together with
     * the captured text, and the effects then run on the result.
     */
    method RecheckFinished(reply: Reply)
      requires Valid() && recheckInFlight.Some?
      modifies this
      ensures Valid() && !isReClassifying && recheckInFlight.None?
      ensures Reclassification(reply).None? ==>
        State() == old(State()).(isReClassifying := false, recheckInFlight := None)
      ensures Reclassification(reply).Some? ==>
        State() == SettleUi(Landed(old(State()), Reclassification(reply).value))
      ensures Reclassification(reply).Some? && old(editedSmsContent) == old(recheckInFlight.value) ==>
        generatedSms == Some(GeneratedSms(old(recheckInFlight.value), Reclassification(reply).value))
        && classifiedText == old(recheckInFlight.value)
    {
      var result := Reclassification(reply);
      if result.Some? {
        Land(result.value);
      } else {
        isReClassifying, recheckInFlight := false, None;
      }
    }

    /** A new classification arrived: it replaces the old one together with the captured text, and the effects run. */
    method Land(c: Classification)
      requires Valid() && recheckInFlight.Some?
      modifies this
      ensures Valid() && !isReClassifying && recheckInFlight.None?
      ensures State() == SettleUi(Landed(old(State()), c))
      ensures old(editedSmsContent) == old(recheckInFlight.value) ==>
        generatedSms == Some(GeneratedSms(old(recheckInFlight.value), c)) && classifiedText == old(recheckInFlight.value)
    {
      LandedSettles(State(), c);
      Arrive(c);
      Settle();
    }

    /** The request ends and the SMS takes the captured text with the new classification, before the effects run. */
    method Arrive(c: Classification)
      requires recheckInFlight.Some? && generatedSms.Some?
      modifies this
      ensures State() == Landed(old(State()), c)
      ensures classifiedText == old(recheckInFlight.value)
    {
      var text := recheckInFlight.value;
      isReClassifying, recheckInFlight := false, None;
      ApplyClassification(text, c);
    }
  }
}
