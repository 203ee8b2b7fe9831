/**
 * The reply classifier of `WednesdayPersonality.generate_response`: keyword
 * rules tried in a fixed order over the lower-cased message, the first match
 * choosing the kind of reply.
 *
 * Replies are abstract: a reply records which corpus line was picked (an
 * index below the corpus size) and which fixed additions were made, not the
 * text itself. Every random pick is an index parameter, taken modulo the size
 * of the corpus it picks from.
 */
module Classifier {
  import opened Options
  import opened Text
  import opened Moods

  // ---------------------------------------------------------------------------
  // Keyword lists and corpus sizes
  // ---------------------------------------------------------------------------

  const GreetingWords: seq<string> := ["hi", "hello", "hey", "good morning", "good evening"]
  const CheerfulWords: seq<string> := ["happy", "excited", "love", "amazing", "awesome"]
  const DarkWords: seq<string> := ["death", "murder", "dark", "gothic", "poison", "kill"]
  const SmallTalkPhrases: seq<string> := ["how are you", "what's up", "wassup"]
  const ComplimentWords: seq<string> := ["beautiful", "pretty", "nice", "kind", "sweet"]

  /** Sizes of `OPENING_LINES`, `DARK_FACTS` and `BORED_RESPONSES`. */
  const OpeningLineCount: nat := 5
  const DarkFactCount: nat := 8
  const BoredCount: nat := 7
  /** Sizes of the local response lists of the cheerful, dark, small-talk and compliment handlers. */
  const CheerfulCount: nat := 4
  const EngagedCount: nat := 4
  const SmallTalkCount: nat := 4
  const ComplimentCount: nat := 4

  /** A message with fewer words than this gets a bored reply by default. */
  const ShortMessageWords: nat := 5

  // ---------------------------------------------------------------------------
  // Replies
  // ---------------------------------------------------------------------------

  datatype Category = GreetingCategory | CheerfulCategory | DarkCategory
                    | SmallTalkCategory | ComplimentCategory | DefaultCategory

  /** The mood-specific sentence appended to a greeting's opening line. */
  datatype Elaboration = NoElaboration | SocialDemise | NovelChapter | GuillotineAngle(userName: string)

  /** The mood-specific paragraphs of the default reply to a longer message. */
  datatype Paragraph = MasterPlan | PoeQuote | ControlGroup | Atoms | PartialAttention

  datatype Reply =
    | Greeting(opening: nat, elaboration: Elaboration)
    | Cheerful(line: nat)
    | DarkTopic(line: nat, fact: Option<nat>, philosophicalCoda: bool)
    | SmallTalk(line: nat, softened: bool)
    | Compliment(line: nat)
    | Bored(line: nat)
    | MoodParagraph(paragraph: Paragraph)

  /** The rule a reply comes from. */
  function CategoryOf(r: Reply): Category {
    match r
    case Greeting(_, _) => GreetingCategory
    case Cheerful(_) => CheerfulCategory
    case DarkTopic(_, _, _) => DarkCategory
    case SmallTalk(_, _) => SmallTalkCategory
    case Compliment(_) => ComplimentCategory
    case Bored(_) => DefaultCategory
    case MoodParagraph(_) => DefaultCategory
  }

  // ---------------------------------------------------------------------------
  // The rules
  // ---------------------------------------------------------------------------

  /** The chain of `if any(...)` tests in `generate_response`, over the lower-cased message. */
  function Categorize(lowered: string): Category {
    if ContainsAny(lowered, GreetingWords) then GreetingCategory
    else if ContainsAny(lowered, CheerfulWords) then CheerfulCategory
    else if ContainsAny(lowered, DarkWords) then DarkCategory
    else if ContainsAny(lowered, SmallTalkPhrases) then SmallTalkCategory
    else if ContainsAny(lowered, ComplimentWords) then ComplimentCategory
    else DefaultCategory
  }

  /** A keyword rule: the words that trigger it and the category it selects. */
  datatype Rule = Rule(words: seq<string>, category: Category)

  /** The rules as an ordered table, highest priority first. */
  const Rules: seq<Rule> := [
    Rule(GreetingWords, GreetingCategory),
    Rule(CheerfulWords, CheerfulCategory),
    Rule(DarkWords, DarkCategory),
    Rule(SmallTalkPhrases, SmallTalkCategory),
    Rule(ComplimentWords, ComplimentCategory)
  ]

  /** Reference semantics of a priority list: the first rule that matches decides. */
  function FirstMatch(rules: seq<Rule>, lowered: string): Category
    decreases |rules|
  {
    if rules == [] then DefaultCategory
    else if ContainsAny(lowered, rules[0].words) then rules[0].category
    else FirstMatch(rules[1..], lowered)
  }

  /** No rule before index `i` matches. */
  predicate NoEarlierMatch(rules: seq<Rule>, lowered: string, i: nat)
    requires i <= |rules|
  {
    forall j | 0 <= j < i :: !ContainsAny(lowered, rules[j].words)
  }

  /** The first matching rule decides, whatever later rules would say. */
  lemma {:induction false} FirstMatchWins(rules: seq<Rule>, lowered: string, i: nat)
    requires i < |rules| && ContainsAny(lowered, rules[i].words)
    requires NoEarlierMatch(rules, lowered, i)
    ensures FirstMatch(rules, lowered) == rules[i].category
    decreases i
  {
    if i > 0 {
      assert !ContainsAny(lowered, rules[0].words);
      assert forall j | 0 <= j < i - 1 :: rules[1..][j] == rules[j + 1];
      FirstMatchWins(rules[1..], lowered, i - 1);
    }
  }

  /** When no rule matches, the default applies. */
  lemma {:induction false} FirstMatchDefault(rules: seq<Rule>, lowered: string)
    requires NoEarlierMatch(rules, lowered, |rules|)
    ensures FirstMatch(rules, lowered) == DefaultCategory
    decreases |rules|
  {
    if rules != [] {
      assert !ContainsAny(lowered, rules[0].words);
      assert forall j | 0 <= j < |rules| - 1 :: rules[1..][j] == rules[j + 1];
      FirstMatchDefault(rules[1..], lowered);
    }
  }

  /** The chain of tests in the source is exactly the priority table. */
  lemma CategorizeIsFirstMatch(lowered: string)
    ensures Categorize(lowered) == FirstMatch(Rules, lowered)
  {
    if ContainsAny(lowered, GreetingWords) {
      FirstMatchWins(Rules, lowered, 0);
    } else if ContainsAny(lowered, CheerfulWords) {
      FirstMatchWins(Rules, lowered, 1);
    } else if ContainsAny(lowered, DarkWords) {
      FirstMatchWins(Rules, lowered, 2);
    } else if ContainsAny(lowered, SmallTalkPhrases) {
      FirstMatchWins(Rules, lowered, 3);
    } else if ContainsAny(lowered, ComplimentWords) {
      FirstMatchWins(Rules, lowered, 4);
    } else {
      FirstMatchDefault(Rules, lowered);
    }
  }

  /**
   * Priority: rule `i` decides exactly when it matches and no earlier rule
   * does; the default decides exactly when no rule matches.
   */
  lemma CategorizePriority(lowered: string, i: nat)
    requires i < |Rules|
    ensures Categorize(lowered) == Rules[i].category
            <==> ContainsAny(lowered, Rules[i].words) && NoEarlierMatch(Rules, lowered, i)
    ensures Categorize(lowered) == DefaultCategory <==> NoEarlierMatch(Rules, lowered, |Rules|)
  {
    CategorizeIsFirstMatch(lowered);
    if ContainsAny(lowered, Rules[i].words) && NoEarlierMatch(Rules, lowered, i) {
      FirstMatchWins(Rules, lowered, i);
    }
    if NoEarlierMatch(Rules, lowered, |Rules|) {
      FirstMatchDefault(Rules, lowered);
    }
  }

  // ---------------------------------------------------------------------------
  // The handlers
  // ---------------------------------------------------------------------------

  /** `_handle_greeting`: an opening line, then a sentence for three of the moods. */
  function HandleGreeting(userName: string, mood: MoodValue, pick: nat): (r: Reply)
    ensures r.Greeting? && r.opening < OpeningLineCount
    ensures r.elaboration == NoElaboration
            <==> !IsMood(mood, Plotting) && !IsMood(mood, Literary) && !IsMood(mood, Scientific)
    ensures r.elaboration.GuillotineAngle? <==> IsMood(mood, Scientific)
    ensures r.elaboration.GuillotineAngle? ==> r.elaboration.userName == userName
    ensures forall m: Mood :: IsMood(mood, m) ==> r.elaboration == ElaborationFor(m, userName)
  {
    var opening := pick % OpeningLineCount;
    if IsMood(mood, Plotting) then Greeting(opening, SocialDemise)
    else if IsMood(mood, Literary) then Greeting(opening, NovelChapter)
    else if IsMood(mood, Scientific) then Greeting(opening, GuillotineAngle(userName))
    else Greeting(opening, NoElaboration)
  }

  /** `_handle_cheerful_message`: one dismissive line. */
  function HandleCheerful(pick: nat): (r: Reply)
    ensures r.Cheerful? && r.line < CheerfulCount
  {
    Cheerful(pick % CheerfulCount)
  }

  /**
   * `_handle_dark_topic`: one engaged line; a dark fact is added when the
   * message mentions "death", the philosophical coda when the mood is
   * philosophical, each independently of the other.
   */
  function HandleDarkTopic(lowered: string, mood: MoodValue, pick: nat, factPick: nat): (r: Reply)
    ensures r.DarkTopic? && r.line < EngagedCount
    ensures r.fact.Some? <==> Contains(lowered, "death")
    ensures r.fact.Some? ==> r.fact.value < DarkFactCount
    ensures r.philosophicalCoda <==> IsMood(mood, Philosophical)
  {
    DarkTopic(pick % EngagedCount,
              if Contains(lowered, "death") then Some(factPick % DarkFactCount) else None,
              IsMood(mood, Philosophical))
  }

  /** `_handle_small_talk`: one line, softened only in the vulnerable mood. */
  function HandleSmallTalk(mood: MoodValue, pick: nat): (r: Reply)
    ensures r.SmallTalk? && r.line < SmallTalkCount
    ensures r.softened <==> IsMood(mood, Vulnerable)
  {
    SmallTalk(pick % SmallTalkCount, IsMood(mood, Vulnerable))
  }

  /** `_handle_compliment`: one suspicious line. */
  function HandleCompliment(pick: nat): (r: Reply)
    ensures r.Compliment? && r.line < ComplimentCount
  {
    Compliment(pick % ComplimentCount)
  }

  /**
   * `_default_response`: a bored line for a message of fewer than five words,
   * otherwise the paragraph of the mood, and the last paragraph for any value
   * that is none of the first four mood names.
   */
  function DefaultResponse(mood: MoodValue, message: string, pick: nat): (r: Reply)
    ensures |Split(message)| < ShortMessageWords <==> r.Bored?
    ensures r.Bored? ==> r.line < BoredCount
    ensures !r.Bored? ==> r.MoodParagraph?
    ensures r.MoodParagraph? && r.paragraph == PartialAttention
            <==> |Split(message)| >= ShortMessageWords
                 && !IsMood(mood, Plotting) && !IsMood(mood, Literary)
                 && !IsMood(mood, Scientific) && !IsMood(mood, Philosophical)
    ensures forall m: Mood :: |Split(message)| >= ShortMessageWords && IsMood(mood, m) ==>
              r == MoodParagraph(ParagraphFor(m))
  {
    if |Split(message)| < ShortMessageWords then Bored(pick % BoredCount)
    else MoodParagraph(StoredMoodParagraph(mood))
  }

  /** The `if`/`elif` chain on the mood that picks the default paragraph. */
  function StoredMoodParagraph(mood: MoodValue): (p: Paragraph)
    ensures forall m: Mood :: IsMood(mood, m) ==> p == ParagraphFor(m)
    ensures p == PartialAttention
            <==> !IsMood(mood, Plotting) && !IsMood(mood, Literary)
                 && !IsMood(mood, Scientific) && !IsMood(mood, Philosophical)
  {
    if IsMood(mood, Plotting) then MasterPlan
    else if IsMood(mood, Literary) then PoeQuote
    else if IsMood(mood, Scientific) then ControlGroup
    else if IsMood(mood, Philosophical) then Atoms
    else PartialAttention
  }

  /** The handler a category dispatches to; the reply stays in that category. */
  function Respond(category: Category, lowered: string, message: string, mood: MoodValue,
                   userName: string, pick: nat, factPick: nat): (r: Reply)
    ensures CategoryOf(r) == category
  {
    match category
    case GreetingCategory => HandleGreeting(userName, mood, pick)
    case CheerfulCategory => HandleCheerful(pick)
    case DarkCategory => HandleDarkTopic(lowered, mood, pick, factPick)
    case SmallTalkCategory => HandleSmallTalk(mood, pick)
    case ComplimentCategory => HandleCompliment(pick)
    case DefaultCategory => DefaultResponse(mood, message, pick)
  }

  /**
   * `generate_response` once the mood has been read: the reply comes from the
   * rule that `Categorize` selects. `pick` picks the corpus line, `factPick`
   * the dark fact.
   */
  function Classify(message: string, mood: MoodValue, userName: string, pick: nat, factPick: nat): (r: Reply)
    ensures CategoryOf(r) == Categorize(Lower(message))
  {
    var lowered := Lower(message);
    Respond(Categorize(lowered), lowered, message, mood, userName, pick, factPick)
  }

  // ---------------------------------------------------------------------------
  // Properties of the classifier
  // ---------------------------------------------------------------------------

  /** A message that says "hello" is greeted, even when it also mentions death. */
  lemma GreetingBeatsDarkTopic(message: string, mood: MoodValue, userName: string, pick: nat, factPick: nat)
    requires Contains(Lower(message), "hello")
    ensures Classify(message, mood, userName, pick, factPick).Greeting?
  {
    ContainsOneOf(Lower(message), GreetingWords, 1);
  }

  /** "hello, tell me about death" matches both rules; the greeting wins. */
  lemma GreetingAndDeathExample()
    ensures ContainsAny("hello, tell me about death", DarkWords)
    ensures Categorize("hello, tell me about death") == GreetingCategory
  {
    var s := "hello, tell me about death";
    ContainsAt(s, "hello", 0);
    ContainsOneOf(s, GreetingWords, 1);
    ContainsAt(s, "death", 21);
    ContainsOneOf(s, DarkWords, 0);
  }

  /** Matching is substring containment: "hi" is found inside "this". */
  lemma HiInsideThis()
    ensures Categorize("this") == GreetingCategory
  {
    ContainsAt("this", "hi", 1);
    ContainsOneOf("this", GreetingWords, 0);
  }

  /** A dark-topic reply adds the fact iff "death" occurs and the coda iff the mood is philosophical. */
  lemma DarkTopicAdditions(message: string, mood: MoodValue, userName: string, pick: nat, factPick: nat)
    requires Categorize(Lower(message)) == DarkCategory
    ensures var r := Classify(message, mood, userName, pick, factPick);
            && r.DarkTopic?
            && (r.fact.Some? <==> Contains(Lower(message), "death"))
            && (r.philosophicalCoda <==> IsMood(mood, Philosophical))
  {
  }

  /** With no rule matching, a short message is answered with a bored line. */
  lemma ShortDefaultIsBored(message: string, mood: MoodValue, userName: string, pick: nat, factPick: nat)
    requires Categorize(Lower(message)) == DefaultCategory
    ensures Classify(message, mood, userName, pick, factPick).Bored? <==> |Split(message)| < ShortMessageWords
  {
  }

  /**
   * The behaviour that actually runs: with a stored value that equals no
   * mood name (the list `random.choices` returns), greetings are the bare
   * opening line, no coda or softening is ever added, and a longer default
   * message always gets the last paragraph.
   */
  lemma UnmatchedMoodReplies(message: string, mood: MoodValue, userName: string, pick: nat, factPick: nat)
    requires NamesNoMood(mood)
    ensures IgnoresMood(Classify(message, mood, userName, pick, factPick))
  {
  }

  /** A reply in which no mood-specific branch was taken. */
  predicate IgnoresMood(r: Reply) {
    && (r.Greeting? ==> r.elaboration == NoElaboration)
    && (r.DarkTopic? ==> !r.philosophicalCoda)
    && (r.SmallTalk? ==> !r.softened)
    && (r.MoodParagraph? ==> r.paragraph == PartialAttention)
  }

  /** Composed with the draw as written, whatever mood was drawn, no mood-specific branch is taken. */
  lemma AsWrittenReplies(message: string, m: Mood, userName: string, pick: nat, factPick: nat)
    ensures IgnoresMood(Classify(message, ChoicesDraw(m), userName, pick, factPick))
  {
    ChoicesDrawNamesNoMood(m);
    UnmatchedMoodReplies(message, ChoicesDraw(m), userName, pick, factPick);
  }

  /** The elaboration of a greeting in mood `m`. */
  function ElaborationFor(m: Mood, userName: string): Elaboration {
    match m
    case Plotting => SocialDemise
    case Literary => NovelChapter
    case Scientific => GuillotineAngle(userName)
    case Philosophical => NoElaboration
    case Vulnerable => NoElaboration
  }

  /** The default paragraph in mood `m`. */
  function ParagraphFor(m: Mood): Paragraph {
    match m
    case Plotting => MasterPlan
    case Literary => PoeQuote
    case Scientific => ControlGroup
    case Philosophical => Atoms
    case Vulnerable => PartialAttention
  }

  /** A reply in which every mood-specific branch followed mood `m`. */
  predicate FollowsMood(r: Reply, m: Mood, userName: string) {
    && (r.Greeting? ==> r.elaboration == ElaborationFor(m, userName))
    && (r.DarkTopic? ==> (r.philosophicalCoda <==> m == Philosophical))
    && (r.SmallTalk? ==> (r.softened <==> m == Vulnerable))
    && (r.MoodParagraph? ==> r.paragraph == ParagraphFor(m))
  }

  /** With the intended draw every mood-specific branch is reachable and follows the drawn mood. */
  lemma PickedMoodReplies(message: string, m: Mood, userName: string, pick: nat, factPick: nat)
    ensures FollowsMood(Classify(message, PickDraw(m), userName, pick, factPick), m, userName)
  {
    forall n: Mood ensures IsMood(PickDraw(m), n) <==> m == n {
      PickDrawIsMood(m, n);
    }
  }
}
