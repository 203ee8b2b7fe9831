/**
 * The four conversation games: their pure helpers (`poison_game_question`,
 * `curse_generator`), the step each handler takes, and the registry of
 * active conversations together with each user's `user_data`.
 *
 * A step handler returns the next conversation state, or `None` for
 * `ConversationHandler.END`. The random choice a handler makes is the `pick`
 * parameter.
 */
module Games {
  import opened Options
  import opened Text
  import Memory

  type UserId = Memory.UserId

  // ---------------------------------------------------------------------------
  // Conversation states
  // ---------------------------------------------------------------------------

  /** The four games, in the order their conversation handlers are registered. */
  datatype GameKind = HideBody | Poison | PlotNovel | Curse

  /** The conversation states that handlers return (the numbers they are declared with play no part). */
  datatype GameState = HideBodyLocation | HideBodyMethod | PoisonGame | NovelPlot | CurseTarget | CurseReason

  /** The game a state belongs to. */
  function KindOf(s: GameState): GameKind {
    match s
    case HideBodyLocation => HideBody
    case HideBodyMethod => HideBody
    case PoisonGame => Poison
    case NovelPlot => PlotNovel
    case CurseTarget => Curse
    case CurseReason => Curse
  }

  /** The state a game's entry command returns. */
  function Entry(k: GameKind): (s: GameState)
    ensures KindOf(s) == k
  {
    match k
    case HideBody => HideBodyLocation
    case Poison => PoisonGame
    case PlotNovel => NovelPlot
    case Curse => CurseTarget
  }

  /** Registration order: a lower rank is consulted first. */
  function Rank(k: GameKind): nat {
    match k
    case HideBody => 0
    case Poison => 1
    case PlotNovel => 2
    case Curse => 3
  }

  // ---------------------------------------------------------------------------
  // user_data
  // ---------------------------------------------------------------------------

  /** The session fields kept in `context.user_data`; `None` is a missing key. */
  datatype UserData = UserData(poisonAnswer: Option<string>, poisonTrivia: Option<string>, curseTarget: Option<string>)

  const EmptyData: UserData := UserData(None, None, None)

  /** No stored field is ever removed: `user_data` only gains or overwrites keys. */
  predicate Grows(before: UserData, after: UserData) {
    (before.poisonAnswer.Some? ==> after.poisonAnswer.Some?)
    && (before.poisonTrivia.Some? ==> after.poisonTrivia.Some?)
    && (before.curseTarget.Some? ==> after.curseTarget.Some?)
  }

  // ---------------------------------------------------------------------------
  // poison_game_question
  // ---------------------------------------------------------------------------

  datatype PoisonEntry = PoisonEntry(name: string, symptoms: string, trivia: string)

  const Poisons: seq<PoisonEntry> := [
    PoisonEntry("Arsenic", "Garlic breath, severe stomach pain, " + "bloody diarrhea, dehydration",
                "Known as \"inheritance powder\" in Renaissance Italy"),
    PoisonEntry("Cyanide", "Bitter almond smell, seizures, " + "loss of consciousness, cherry-red skin",
                "Blocks cellular respiration. Death in minutes"),
    PoisonEntry("Ricin", "Severe vomiting, internal bleeding, " + "organ failure over days",
                "Derived from castor beans. Just 1 milligram is fatal"),
    PoisonEntry("Hemlock", "Ascending paralysis starting from legs, " + "respiratory failure",
                "Killed Socrates. At least he died doing philosophy"),
    PoisonEntry("Strychnine", "Violent muscle spasms, arched back, " + "facial distortion",
                "Victim remains conscious throughout. Quite theatrical")
  ]

  /** The question dictionary: symptoms to show, the answer and the trivia to keep. */
  datatype Question = Question(symptoms: string, answer: string, trivia: string)

  /** `poison_game_question`: the symptoms, name and trivia of one poison, never mixed. */
  function PoisonQuestion(pick: nat): (q: Question)
    ensures exists i | 0 <= i < |Poisons| ::
              q == Question(Poisons[i].symptoms, Poisons[i].name, Poisons[i].trivia)
  {
    var p := Poisons[pick % |Poisons|];
    Question(p.symptoms, p.name, p.trivia)
  }

  // ---------------------------------------------------------------------------
  // curse_generator
  // ---------------------------------------------------------------------------

  /** A curse template: fixed text around the target and then the reason. */
  datatype CurseTemplate = CurseTemplate(opening: string, middle: string, closing: string)

  const CurseTemplates: seq<CurseTemplate> := [
    CurseTemplate("May ",
      "'s coffee always be lukewarm and their Wi-Fi perpetually buffer during crucial moments. ",
      " demands no less."),
    CurseTemplate("I curse ",
      " to forever find single socks, never pairs. Their laundry shall know only chaos because ",
      "."),
    CurseTemplate("Upon ",
      ", I bestow the curse of eternal autocorrect fails and phantom phone vibrations. ",
      " has earned this."),
    CurseTemplate("May ",
      "'s pillow always be warm on both sides, and may they stub their toe weekly. For ",
      ", this is fitting."),
    CurseTemplate("I hex ",
      " with the curse of being forever interrupted mid-sentence and having their favorite shows canceled. ",
      " justifies this hex.")
  ]

  /** The f-string substitution of one template. */
  function Fill(t: CurseTemplate, target: string, reason: string): string {
    t.opening + target + t.middle + reason + t.closing
  }

  /** `curse_generator(target, reason)`: one of the five templates, filled in. */
  function CurseGenerator(target: string, reason: string, pick: nat): (r: string)
    ensures exists i | 0 <= i < |CurseTemplates| :: r == Fill(CurseTemplates[i], target, reason)
  {
    Fill(CurseTemplates[pick % |CurseTemplates|], target, reason)
  }

  /** A filled template carries the target verbatim, and the reason verbatim after it. */
  lemma FillVerbatim(t: CurseTemplate, target: string, reason: string)
    ensures var r := Fill(t, target, reason);
            OccursAt(r, target, |t.opening|)
            && OccursAt(r, reason, |t.opening| + |target| + |t.middle|)
  {
    var r := Fill(t, target, reason);
    var i := |t.opening|;
    var j := i + |target| + |t.middle|;
    assert r == t.opening + target + t.middle + reason + t.closing;
    assert r[i..i + |target|] == target;
    assert r[j..j + |reason|] == reason;
  }

  /** Every curse names the target and, later in the text, the reason, both unaltered. */
  lemma CurseNamesTargetThenReason(target: string, reason: string, pick: nat)
    ensures var r := CurseGenerator(target, reason, pick);
            exists i: nat, j: nat | i + |target| <= j ::
              OccursAt(r, target, i) && OccursAt(r, reason, j)
  {
    var t := CurseTemplates[pick % |CurseTemplates|];
    FillVerbatim(t, target, reason);
    var i := |t.opening|;
    var j := |t.opening| + |target| + |t.middle|;
    assert OccursAt(CurseGenerator(target, reason, pick), target, i);
    assert OccursAt(CurseGenerator(target, reason, pick), reason, j);
  }

  // ---------------------------------------------------------------------------
  // Replies and steps
  // ---------------------------------------------------------------------------

  /** Number of assessments `hidebody_method` and `plotnovel_contribute` choose from. */
  const PlanAssessmentCount: nat := 4
  const NovelAssessmentCount: nat := 6

  /** Stands for `curse_target`'s missing key default. */
  const DefaultCurseTarget: string := "the target"

  datatype GameReply =
    | Intro(kind: GameKind)                         // fixed opening text of a game
    | Dossier(symptoms: string)                     // the poison question
    | LocationCritique(choice: char)                // the critique of A-D and the evidence question
    | InvalidChoice
    | PlanAssessed(plan: string, assessment: nat)   // the plan echoed with an assessment
    | PoisonVerdict(correct: bool, answer: string, trivia: string)
    | NovelAssessed(assessment: nat)
    | TargetIdentified(target: string)
    | CurseGenerated(target: string, reason: string, curse: string)
    | Terminated                                    // `/cancel`

  /** What a handler does: the next state (`None` ends the game), the new `user_data`, the reply. */
  datatype Step = Step(next: Option<GameState>, data: UserData, reply: GameReply)

  /** The four hide-body choices, as `text.upper()` must spell them. */
  predicate IsChoice(choice: string) {
    choice == "A" || choice == "B" || choice == "C" || choice == "D"
  }

  /** `hidebody_location`: an exact A-D (either case, nothing around it) goes on, anything else ends. */
  function LocationStep(data: UserData, text: string): Step {
    var choice := Upper(text);
    if IsChoice(choice) then Step(Some(HideBodyMethod), data, LocationCritique(choice[0]))
    else Step(None, data, InvalidChoice)
  }

  /** `hidebody_method`: echo the plan with an assessment and end. */
  function MethodStep(data: UserData, text: string, pick: nat): Step {
    Step(None, data, PlanAssessed(text, pick % PlanAssessmentCount))
  }

  /** `poison_answer`: compare the stripped answer with the stored one, ignoring case, and end. */
  function PoisonAnswerStep(data: UserData, text: string): Step {
    var userAnswer := Strip(text);
    var correct := data.poisonAnswer.GetOr("");
    var trivia := data.poisonTrivia.GetOr("");
    Step(None, data, PoisonVerdict(Lower(userAnswer) == Lower(correct), correct, trivia))
  }

  /** `plotnovel_contribute`: an assessment and the fixed addition, then end. */
  function NovelStep(data: UserData, pick: nat): Step {
    Step(None, data, NovelAssessed(pick % NovelAssessmentCount))
  }

  /** `curse_target`: store the stripped target and ask for the reason. */
  function CurseTargetStep(data: UserData, text: string): Step {
    var target := Strip(text);
    Step(Some(CurseReason), data.(curseTarget := Some(target)), TargetIdentified(target))
  }

  /** `curse_generate`: the stored target (or the default), the stripped reason, a curse; then end. */
  function CurseGenerateStep(data: UserData, text: string, pick: nat): Step {
    var target := data.curseTarget.GetOr(DefaultCurseTarget);
    var reason := Strip(text);
    Step(None, data, CurseGenerated(target, reason, CurseGenerator(target, reason, pick)))
  }

  /** The handler registered for `state`, applied to a text message. */
  function Advance(state: GameState, data: UserData, text: string, pick: nat): (s: Step)
    ensures Grows(data, s.data)
    ensures state != CurseTarget ==> s.data == data
    ensures s.next.Some? ==> KindOf(s.next.value) == KindOf(state)
  {
    match state
    case HideBodyLocation => LocationStep(data, text)
    case HideBodyMethod => MethodStep(data, text, pick)
    case PoisonGame => PoisonAnswerStep(data, text)
    case NovelPlot => NovelStep(data, pick)
    case CurseTarget => CurseTargetStep(data, text)
    case CurseReason => CurseGenerateStep(data, text, pick)
  }

  /**
   * The entry command of a game. Only `/poison` touches `user_data`: it
   * stores the answer and trivia of the question it asks.
   */
  function StartGame(kind: GameKind, data: UserData, pick: nat): (s: Step)
    ensures s.next == Some(Entry(kind))
    ensures Grows(data, s.data)
    ensures kind != Poison ==> s.data == data && s.reply == Intro(kind)
    ensures kind == Poison ==>
              exists i | 0 <= i < |Poisons| ::
                s.reply == Dossier(Poisons[i].symptoms)
                && s.data == data.(poisonAnswer := Some(Poisons[i].name), poisonTrivia := Some(Poisons[i].trivia))
  {
    match kind
    case Poison =>
      var q := PoisonQuestion(pick);
      assert q == Question(Poisons[pick % |Poisons|].symptoms, Poisons[pick % |Poisons|].name,
                           Poisons[pick % |Poisons|].trivia);
      Step(Some(PoisonGame), data.(poisonAnswer := Some(q.answer), poisonTrivia := Some(q.trivia)), Dossier(q.symptoms))
    case _ => Step(Some(Entry(kind)), data, Intro(kind))
  }

  /** `cancel_conversation`: a fixed reply, and the game ends whatever its state. */
  function CancelStep(data: UserData): (s: Step)
    ensures s.next == None && s.data == data
  {
    Step(None, data, Terminated)
  }

  // ---------------------------------------------------------------------------
  // Properties of the steps
  // ---------------------------------------------------------------------------

  /** Hide-body goes on to the method question exactly for "a".."d" or "A".."D", nothing else. */
  lemma LocationAdvancesIff(data: UserData, text: string, pick: nat)
    ensures Advance(HideBodyLocation, data, text, pick).next == Some(HideBodyMethod)
            <==> text in ["A", "a", "B", "b", "C", "c", "D", "d"]
    ensures Advance(HideBodyLocation, data, text, pick).next != Some(HideBodyMethod)
            ==> Advance(HideBodyLocation, data, text, pick) == Step(None, data, InvalidChoice)
  {
    UpperIsLetter(text, 'A');
    UpperIsLetter(text, 'B');
    UpperIsLetter(text, 'C');
    UpperIsLetter(text, 'D');
  }

  /** A choice padded with a space is not stripped, so it is invalid. */
  lemma PaddedChoiceInvalid(data: UserData, pick: nat)
    ensures Advance(HideBodyLocation, data, "A ", pick).reply == InvalidChoice
  {
    LocationAdvancesIff(data, "A ", pick);
  }

  /**
   * Only two transitions keep a game going: location to method, and target
   * to reason. Every other handler ends its game.
   */
  lemma OnlyTwoStepsContinue(state: GameState, data: UserData, text: string, pick: nat)
    ensures var s := Advance(state, data, text, pick);
            s.next.Some? ==> (state == HideBodyLocation && s.next == Some(HideBodyMethod))
                             || (state == CurseTarget && s.next == Some(CurseReason))
    ensures state == CurseTarget ==> Advance(state, data, text, pick).next == Some(CurseReason)
    ensures state !in {HideBodyLocation, CurseTarget} ==> Advance(state, data, text, pick).next == None
  {
  }

  /** In the poison state, a text message goes to `poison_answer`. */
  lemma AdvancePoison(data: UserData, text: string, pick: nat)
    ensures Advance(PoisonGame, data, text, pick) == PoisonAnswerStep(data, text)
  {
  }

  /**
   * Whatever whitespace surrounds it, a trimmed answer is judged correct
   * exactly when its letters agree with the stored answer's up to case.
   */
  lemma PoisonAnswerIgnoresCaseAndSpace(data: UserData, pre: string, typed: string, post: string, pick: nat)
    requires data.poisonAnswer.Some?
    requires AllSpace(pre) && AllSpace(post) && Trimmed(typed)
    ensures Advance(PoisonGame, data, pre + typed + post, pick).reply.correct
            <==> Lower(typed) == Lower(data.poisonAnswer.value)
  {
    AdvancePoison(data, pre + typed + post, pick);
    StripSurrounded(pre, typed, post);
  }

  /**
   * Every reply splits the text into blank space, the typed answer and blank
   * space, and it is correct exactly when the typed answer agrees with the
   * stored one up to case: an unrelated text is judged incorrect.
   */
  lemma PoisonVerdictIff(data: UserData, text: string, pick: nat)
    requires data.poisonAnswer.Some?
    ensures text == Leading(text) + Strip(text) + Trailing(text)
    ensures AllSpace(Leading(text)) && AllSpace(Trailing(text)) && Trimmed(Strip(text))
    ensures Advance(PoisonGame, data, text, pick).reply.correct
            <==> Lower(Strip(text)) == Lower(data.poisonAnswer.value)
  {
    StripParts(text);
    AdvancePoison(data, text, pick);
  }

  /** Without a stored question the source compares with "", so only blank text counts as correct. */
  lemma PoisonWithoutQuestion(data: UserData, text: string, pick: nat)
    requires data.poisonAnswer.None?
    ensures Advance(PoisonGame, data, text, pick).reply.correct <==> AllSpace(text)
  {
    assert Advance(PoisonGame, data, text, pick) == PoisonAnswerStep(data, text);
    StripEmptyIff(text);
    var answer := Strip(text);
    assert PoisonAnswerStep(data, text).reply.correct <==> Lower(answer) == Lower("");
    assert |Lower(answer)| == |answer|;
  }

  /** Each poison name has nothing to strip and no lower-case letter to lose. */
  lemma PoisonNameTrimmed(i: nat)
    requires i < |Poisons|
    ensures Trimmed(Poisons[i].name) && Trimmed(Upper(Poisons[i].name))
  {
  }

  /** The five names start with five different capital letters. */
  lemma PoisonInitialsDistinct(i: nat, j: nat)
    requires i < |Poisons| && j < |Poisons| && i != j
    ensures |Poisons[i].name| > 0 && |Poisons[j].name| > 0
    ensures IsUpperAscii(Poisons[i].name[0]) && IsUpperAscii(Poisons[j].name[0])
    ensures Poisons[i].name[0] != Poisons[j].name[0]
  {
  }

  /** The five symptom lists differ, so the dossier shown identifies the poison. */
  lemma PoisonSymptomsDistinct(i: nat, j: nat)
    requires i < |Poisons| && j < |Poisons| && i != j
    ensures Poisons[i].symptoms != Poisons[j].symptoms
  {
    assert Poisons[0].symptoms[0] == 'G' && Poisons[1].symptoms[0] == 'B' && Poisons[2].symptoms[0] == 'S';
    assert Poisons[3].symptoms[0] == 'A' && Poisons[4].symptoms[0] == 'V';
    assert Poisons[i].symptoms[0] != Poisons[j].symptoms[0];
  }

  /** An answer whose first letter differs from the stored answer's, ignoring case, is incorrect. */
  lemma DifferentInitialIncorrect(data: UserData, typed: string, pick: nat)
    requires data.poisonAnswer.Some? && data.poisonAnswer.value != [] && typed != [] && Trimmed(typed)
    requires LowerChar(typed[0]) != LowerChar(data.poisonAnswer.value[0])
    ensures !Advance(PoisonGame, data, typed, pick).reply.correct
  {
    var stored := data.poisonAnswer.value;
    AdvancePoison(data, typed, pick);
    StripTrimmed(typed);
    assert Lower(typed)[0] != Lower(stored)[0];
  }

  /** Naming another poison is incorrect: the five names differ even ignoring case. */
  lemma OtherPoisonIncorrect(i: nat, j: nat, pick: nat)
    requires i < |Poisons| && j < |Poisons| && i != j
    ensures var data := UserData(Some(Poisons[i].name), Some(Poisons[i].trivia), None);
            Advance(PoisonGame, data, Poisons[j].name, pick)
            == Step(None, data, PoisonVerdict(false, Poisons[i].name, Poisons[i].trivia))
  {
    var data := UserData(Some(Poisons[i].name), Some(Poisons[i].trivia), None);
    PoisonNameTrimmed(j);
    PoisonInitialsDistinct(i, j);
    DifferentInitialIncorrect(data, Poisons[j].name, pick);
  }

  /**
   * After `/poison` has shown the symptoms of poison `i`, that poison's
   * name in capitals, surrounded by any whitespace, is judged correct.
   */
  lemma PoisonRoundTrip(data: UserData, pre: string, post: string, pick: nat, pick2: nat, i: nat)
    requires AllSpace(pre) && AllSpace(post)
    requires i < |Poisons| && StartGame(Poison, data, pick).reply == Dossier(Poisons[i].symptoms)
    ensures var started := StartGame(Poison, data, pick);
            Advance(PoisonGame, started.data, pre + Upper(Poisons[i].name) + post, pick2).reply.correct
  {
    var started := StartGame(Poison, data, pick);
    if i != pick % |Poisons| {
      PoisonSymptomsDistinct(i, pick % |Poisons|);
    }
    assert started.data.poisonAnswer == Some(Poisons[i].name);
    PoisonNameTrimmed(i);
    LowerOfUpper(Poisons[i].name);
    PoisonAnswerIgnoresCaseAndSpace(started.data, pre, Upper(Poisons[i].name), post, pick2);
  }


  /** The curse is built on the stored target; "the target" is used only when none is stored. */
  lemma CurseUsesStoredTarget(data: UserData, text: string, pick: nat)
    ensures var s := Advance(CurseReason, data, text, pick);
            var r := s.reply;
            s.next == None
            && r.CurseGenerated?
            && r.target == (if data.curseTarget.Some? then data.curseTarget.value else DefaultCurseTarget)
            && r.reason == Strip(text)
            && r.curse == CurseGenerator(r.target, r.reason, pick)
  {
  }

  /** Target then reason: the curse names the stripped target and then the stripped reason. */
  lemma CurseRoundTrip(data: UserData, targetText: string, reasonText: string, pick1: nat, pick2: nat)
    ensures var first := Advance(CurseTarget, data, targetText, pick1);
            var second := Advance(first.next.value, first.data, reasonText, pick2);
            first.next == Some(CurseReason)
            && second.next == None
            && second.reply == CurseGenerated(Strip(targetText), Strip(reasonText),
                                              CurseGenerator(Strip(targetText), Strip(reasonText), pick2))
  {
    var target := Strip(targetText);
    CurseTargetStored(data, targetText, pick1);
    CurseUsesStoredTarget(data.(curseTarget := Some(target)), reasonText, pick2);
  }

  /** The first curse step stores the stripped target and asks for the reason. */
  lemma CurseTargetStored(data: UserData, text: string, pick: nat)
    ensures Advance(CurseTarget, data, text, pick)
         == Step(Some(CurseReason), data.(curseTarget := Some(Strip(text))), TargetIdentified(Strip(text)))
  {
  }

  // ---------------------------------------------------------------------------
  // The registry of active conversations
  // ---------------------------------------------------------------------------

  /** A conversation is kept per user and per game, as each conversation handler keeps its own. */
  datatype Key = Key(user: UserId, kind: GameKind)

  function DataOf(userData: map<UserId, UserData>, user: UserId): UserData {
    if user in userData then userData[user] else EmptyData
  }

  /** The fields a state's handler reads are present: the source's defaults are then never used. */
  predicate Ready(state: GameState, data: UserData) {
    (state == PoisonGame ==> data.poisonAnswer.Some? && data.poisonTrivia.Some?)
    && (state == CurseReason ==> data.curseTarget.Some?)
  }

  predicate SessionsReady(sessions: map<Key, GameState>, userData: map<UserId, UserData>) {
    forall key | key in sessions ::
      KindOf(sessions[key]) == key.kind && Ready(sessions[key], DataOf(userData, key.user))
  }

  /**
   * The conversation a text message from `user` goes to: the first game, in
   * registration order, that has one active.
   */
  function ActiveKind(sessions: map<Key, GameState>, user: UserId): (k: Option<GameKind>)
    ensures k.None? <==> Key(user, HideBody) !in sessions && Key(user, Poison) !in sessions
                         && Key(user, PlotNovel) !in sessions && Key(user, Curse) !in sessions
    ensures k.Some? ==> Key(user, k.value) in sessions
    ensures k.Some? ==> forall kind: GameKind :: Rank(kind) < Rank(k.value) ==> Key(user, kind) !in sessions
  {
    if Key(user, HideBody) in sessions then Some(HideBody)
    else if Key(user, Poison) in sessions then Some(Poison)
    else if Key(user, PlotNovel) in sessions then Some(PlotNovel)
    else if Key(user, Curse) in sessions then Some(Curse)
    else None
  }

  /** The conversation map after a handler returned `next` for `key`. */
  function Resume(sessions: map<Key, GameState>, key: Key, next: Option<GameState>): map<Key, GameState> {
    if next.None? then sessions - {key} else sessions[key := next.value]
  }

  /** A step from a ready state leaves every conversation of that user ready. */
  lemma AdvanceKeepsReady(sessions: map<Key, GameState>, userData: map<UserId, UserData>,
                          key: Key, text: string, pick: nat)
    requires SessionsReady(sessions, userData) && key in sessions
    ensures var s := Advance(sessions[key], DataOf(userData, key.user), text, pick);
            SessionsReady(Resume(sessions, key, s.next), userData[key.user := s.data])
  {
    var s := Advance(sessions[key], DataOf(userData, key.user), text, pick);
    var after := userData[key.user := s.data];
    forall other | other in Resume(sessions, key, s.next)
      ensures Ready(Resume(sessions, key, s.next)[other], DataOf(after, other.user))
    {
      if other != key {
        assert Grows(DataOf(userData, other.user), DataOf(after, other.user));
      }
    }
  }

  class GameRegistry {
    /** The active conversations, by user and game. */
    var sessions: map<Key, GameState>
    /** Each user's `user_data`; it outlives the conversations. */
    var userData: map<UserId, UserData>

    ghost predicate Valid()
      reads this
    {
      SessionsReady(sessions, userData)
    }

    constructor ()
      ensures Valid() && sessions == map[] && userData == map[]
    {
      sessions := map[];
      userData := map[];
    }

    /**
     * An entry command. It starts the game unless that game is already
     * active for the user, in which case nothing handles the command.
     */
    method Start(user: UserId, kind: GameKind, pick: nat) returns (reply: Option<GameReply>)
      requires Valid()
      modifies this
      ensures Valid()
      ensures Key(user, kind) in old(sessions) ==>
                reply == None && sessions == old(sessions) && userData == old(userData)
      ensures Key(user, kind) !in old(sessions) ==>
                var s := StartGame(kind, DataOf(old(userData), user), pick);
                reply == Some(s.reply)
                && sessions == old(sessions)[Key(user, kind) := Entry(kind)]
                && userData == old(userData)[user := s.data]
    {
      var key := Key(user, kind);
      if key in sessions {
        return None;
      }
      var s := StartGame(kind, DataOf(userData, user), pick);
      var after := userData[user := s.data];
      forall other | other in sessions
        ensures Ready(sessions[other], DataOf(after, other.user))
      {
        assert Grows(DataOf(userData, other.user), DataOf(after, other.user));
      }
      userData := after;
      sessions := sessions[key := Entry(kind)];
      reply := Some(s.reply);
    }

    /**
     * A text message: the active conversation, if any, takes it. `None`
     * means no game handled it and the message falls through.
     */
    method OnText(user: UserId, text: string, pick: nat) returns (reply: Option<GameReply>)
      requires Valid()
      modifies this
      ensures Valid()
      ensures ActiveKind(old(sessions), user).None? ==>
                reply == None && sessions == old(sessions) && userData == old(userData)
      ensures ActiveKind(old(sessions), user).Some? ==>
                var key := Key(user, ActiveKind(old(sessions), user).value);
                var s := Advance(old(sessions)[key], DataOf(old(userData), user), text, pick);
                reply == Some(s.reply)
                && sessions == Resume(old(sessions), key, s.next)
                && userData == old(userData)[user := s.data]
    {
      var active := ActiveKind(sessions, user);
      if active.None? {
        return None;
      }
      var key := Key(user, active.value);
      var s := Advance(sessions[key], DataOf(userData, user), text, pick);
      AdvanceKeepsReady(sessions, userData, key, text, pick);
      userData := userData[user := s.data];
      sessions := Resume(sessions, key, s.next);
      reply := Some(s.reply);
    }

    /**
     * `/cancel`, the fallback of every game: the first active conversation
     * ends. With none active, nothing handles the command.
     */
    method Cancel(user: UserId) returns (reply: Option<GameReply>)
      requires Valid()
      modifies this
      ensures Valid()
      ensures userData == old(userData)
      ensures ActiveKind(old(sessions), user).None? ==> reply == None && sessions == old(sessions)
      ensures ActiveKind(old(sessions), user).Some? ==>
                reply == Some(Terminated)
                && sessions == old(sessions) - {Key(user, ActiveKind(old(sessions), user).value)}
    {
      var active := ActiveKind(sessions, user);
      if active.None? {
        return None;
      }
      var s := CancelStep(DataOf(userData, user));
      sessions := Resume(sessions, Key(user, active.value), s.next);
      reply := Some(s.reply);
    }
  }

  /** Through the registry, a poison answer is always judged against a question that was asked. */
  lemma ReadyPoisonUsesQuestion(data: UserData, text: string, pick: nat)
    requires Ready(PoisonGame, data)
    ensures var r := Advance(PoisonGame, data, text, pick).reply;
            r.answer == data.poisonAnswer.value && r.trivia == data.poisonTrivia.value
  {
  }

  /** Through the registry, a curse always uses the target the user gave. */
  lemma ReadyCurseUsesTarget(data: UserData, text: string, pick: nat)
    requires Ready(CurseReason, data)
    ensures Advance(CurseReason, data, text, pick).reply.target == data.curseTarget.value
  {
  }
}
