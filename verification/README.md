# Wednesday Addams bot: a verified model of its core

This Dafny project models the logic of the Wednesday Addams Telegram bot
(`main.py`). The bot keeps one process-wide *mood*, which is redrawn lazily
when it is read more than an hour after the last draw. It answers ordinary
text with a keyword *classifier* whose rules are tried in a fixed order. It
keeps a *user memory* of profiles that every ordinary message updates, and
that `/profile` and the occasional *profile comment* read back. It also runs
four *conversation games* (hide a body, name that poison, plot my novel,
curse generator) as small state machines. Their transient fields live in
each user's `user_data`.

Modules:

- `Options`: `Option`, with `GetOr` for `dict.get(key, default)`.
- `Text`: Python's `in` on strings, `lower()`, `upper()`, `strip()` and `split()`.
- `Moods`: the mood values, the scheduler class, and the `/mood` lookup.
- `Classifier`: `generate_response` and its helpers, pure functions over an abstract reply.
- `Memory`: the `UserMemory` class, the pure functions that specify it, and the profile comment.
- `Games`: the game steps, `poison_game_question`, `curse_generator`, and the registry class for active conversations.
- `Bot`: the composition, for either draw rule. It covers `handle_message`, routing text to an active game, `/profile`, `/mood`, game entry and `/cancel`.

Modelling choices:

- **Clock.** The clock is an integer count of seconds passed in as `now`. Whole days are `(now - last) / 86400`, which is floor division, as `timedelta.days` is.
- **Randomness.** Every random choice is a parameter: a `pick: nat` reduced modulo the corpus size, a `bool` for each coin flip, a `Mood` for a mood draw.
- **Replies.** Replies are datatypes that name the corpus line or paragraph chosen, not the Markdown text.
- **Strings.** Strings are `seq<char>`. Whitespace for `strip()` and `split()` is exactly the set of characters for which `str.isspace()` holds.
- **Routing.** Text goes first to the first active conversation, in the order the conversation handlers are registered (`main.py:781-819`). Only when no conversation is active does it reach `handle_message` (`main.py:823`). So game answers are neither recorded nor classified.
- **Registry.** The game registry holds one conversation per user and per game, as each `ConversationHandler` keeps its own. An entry command for a game that is already active is not handled. `/cancel` ends the first active conversation. With none active, `/cancel` gets no answer. These rules follow the defaults of python-telegram-bot's `ConversationHandler`, whose code is not part of this model.

Behaviour of the code a reader may not expect:

- **Mood value.** The stored mood is the one-element list that `random.choices` returns, not a mood name. The `Bot` class takes a `DrawRule`: with `AsWritten` it stores that list, as the code does, and with `AsIntended` it stores the drawn name. Each `Bot` method states what it does under both. See Findings.
- **`/mood` lookup.** The lookup fails instead of always finding a description. See Findings.
- **Absence comment.** The ">7 days absent" comment is computed after the current message has been recorded, not before. It therefore never fires from `handle_message`, only from `/profile`.
- **Curse inputs.** The curse target and reason are not required to be non-empty. An empty stripped text is accepted.
- **Several games at once.** Several games can be active for one user at the same time, one per game.

## Model

| member | source | states |
|---|---|---|
| Text.Strip | main.py:557 | `str.strip()`: the result has no whitespace at either end and occurs in the input |
| Text.StripSurrounded | main.py:557 | stripping removes exactly the surrounding whitespace: `strip(pre + t + post) == t` for blank `pre`, `post` and trimmed `t` |
| Text.StripParts | main.py:557 | every text is its leading whitespace, then its stripped form, then its trailing whitespace |
| Text.StripEmptyIff | main.py:557 | `strip()` gives the empty string exactly for whitespace-only text |
| Text.SplitSpaced | main.py:198 | `str.split()` recovers the words of any text that puts non-empty whitespace runs between non-empty whitespace-free words, with any whitespace before and after |
| Text.SplitGivesWords | main.py:198 | every piece `split()` returns is non-empty and free of whitespace |
| Text.SplitBlank | main.py:198 | whitespace-only text splits into no words |
| Text.LowerOfUpper | main.py:561 | for ASCII case mapping, lower-casing forgets case: `s.upper().lower() == s.lower()` |
| Text.UpperIsLetter | main.py:489 | `s.upper()` is the capital letter `c` exactly when `s` is `c` or its lower-case form |
| Moods.MoodNameInjective | main.py:52-58 | the five entries of `MOOD_STATES` are distinct |
| Moods.ChoicesDraw | main.py:100 | the draw as written stores a one-element list |
| Moods.ChoicesDrawNamesNoMood | main.py:100 | the stored list compares unequal to every mood name |
| Moods.PickDrawIsMood | main.py:106 | the intended draw compares equal to the drawn mood's name and to no other |
| Moods.MoodScheduler.constructor | main.py:99-101 | the scheduler starts with the given draw, stamped with the given time |
| Moods.MoodScheduler.GetMood | main.py:103-108 | more than 3600 s after the last draw, store the new draw and stamp `now`; otherwise change nothing; return the stored value |
| Moods.StableWithinHour | main.py:103-108 | two reads within the hour return the same, originally stored mood whatever the draws |
| Moods.DescribeMood | main.py:425-437 | `mood_descriptions[current_mood]` describes exactly when the stored value is a mood name, each name with its own description; a list raises `TypeError` (unhashable), a string naming no mood `KeyError` |
| Moods.MoodCommandAlwaysRaises | main.py:425-437 | as written, `/mood` always raises `TypeError` |
| Moods.MoodCommandDescribesPick | main.py:425-437 | with the intended draw, `/mood` describes the drawn mood |
| Classifier.CategorizeIsFirstMatch | main.py:116-132 | the chain of keyword tests is the ordered rule table evaluated first-match-wins |
| Classifier.FirstMatchWins | main.py:116-132 | in a rule table, the first matching rule decides whatever later rules say |
| Classifier.FirstMatchDefault | main.py:131-132 | with no rule matching, the default decides |
| Classifier.CategorizePriority | main.py:116-132 | rule `i` decides if and only if it matches and no earlier rule does; the default decides if and only if no rule matches |
| Classifier.Classify | main.py:110-132 | the reply's category is the one the rules select on the lower-cased message |
| Classifier.GreetingBeatsDarkTopic | main.py:116-123 | a message containing "hello" gets a greeting, even if it also mentions death |
| Classifier.GreetingAndDeathExample | main.py:116-123 | "hello, tell me about death" matches the dark words but is classified as a greeting |
| Classifier.HiInsideThis | main.py:116 | matching is by substring: "this" is a greeting |
| Classifier.HandleGreeting | main.py:134-144 | an opening line; no elaboration if and only if the mood is none of plotting, literary, scientific; each mood name gets its own elaboration (plotting the social demise, literary the novel chapter, scientific the guillotine angle naming the user) |
| Classifier.HandleCheerful | main.py:146-153 | one line of the four-line corpus |
| Classifier.HandleDarkTopic | main.py:155-171 | one engaged line; a fact if and only if "death" occurs; the coda if and only if the mood is philosophical, independently |
| Classifier.HandleSmallTalk | main.py:173-186 | one line, softened if and only if the mood is vulnerable |
| Classifier.HandleCompliment | main.py:188-195 | one line of the four-line corpus |
| Classifier.DefaultResponse | main.py:197-210 | bored if and only if `split()` gives fewer than 5 words; otherwise the paragraph of the stored mood name (plotting the master plan, literary Poe, scientific the control group, philosophical atoms, vulnerable the last), and the last one for any value that is none of the first four mood names |
| Classifier.StoredMoodParagraph | main.py:201-210 | each of the five mood names gets its own paragraph; the last paragraph exactly when the value is none of the first four mood names |
| Classifier.DarkTopicAdditions | main.py:155-171 | through the classifier, a dark reply has a fact if and only if "death" occurs, and a coda if and only if the mood is philosophical |
| Classifier.ShortDefaultIsBored | main.py:197-199 | an unmatched message is answered with a bored line if and only if it has fewer than five words |
| Classifier.UnmatchedMoodReplies | main.py:134-210 | with a stored value naming no mood: bare greeting, no coda, no softening, last default paragraph |
| Classifier.AsWrittenReplies | main.py:100-210 | composed with the draw as written, no mood-specific branch is ever taken |
| Classifier.PickedMoodReplies | main.py:134-210 | with the intended draw, each mood-specific branch follows the drawn mood |
| Memory.AddInterests | main.py:238-243 | the scan appends at most one entry per watched keyword |
| Memory.AddInterestsMembers | main.py:238-243 | a keyword is recorded afterwards if and only if it was before, or it is watched and occurs in the message |
| Memory.AddInterestsNoDuplicates | main.py:238-243 | the scan never records a keyword twice |
| Memory.AddInterestsAppendsInOrder | main.py:238-243 | the scan keeps the old interests as a prefix and appends exactly the new keywords, in watch-list order |
| Memory.AddInterestsIdempotent | main.py:238-243 | recording the same message again adds no interest |
| Memory.AddInterestsUnchanged | main.py:238-243 | when every found keyword is already recorded, the interests are unchanged |
| Memory.ScanWatchList | main.py:238-243 | the watch-list loop computes the specified scan |
| Memory.NewProfile | main.py:225-232 | a new profile starts with count 0, no interests and no grudges |
| Memory.Recorded | main.py:223-243 | recording adds the sender to the store and leaves the set of other users as it was |
| Memory.RecordedOthersUnchanged | main.py:223-243 | recording one user's message leaves every other profile as it was |
| Memory.RecordedProfile | main.py:223-243 | the count goes up by exactly one, the last interaction is now, name, first contact and grudges are kept, new keywords are appended in order |
| Memory.RecordedKeepsInterestsValid | main.py:238-243 | every profile's interests stay duplicate-free watch-list keywords |
| Memory.Candidates | main.py:252-264 | a persistence comment if and only if count > 10, an interests comment if and only if interests are non-empty, an absence comment if and only if more than 7 whole days have passed, each with its figures |
| Memory.TouchedNeverAbsent | main.py:235-263 | a profile touched at `now` has no absence comment at `now` |
| Memory.UserMemory.constructor | main.py:220-221 | the store starts empty |
| Memory.UserMemory.RecordInteraction | main.py:223-243 | the new store is the specified recording, and the interests invariant is kept |
| Memory.UserMemory.ProfileComment | main.py:245-266 | no comment for an unknown user or when no predicate holds, otherwise one of the candidates |
| Games.Entry | main.py:781-812 | each entry command returns a state of its own game |
| Games.PoisonQuestion | main.py:277-312 | symptoms, answer and trivia all come from the same one of the five poisons |
| Games.CurseGenerator | main.py:315-325 | the curse is one of the five templates with target and reason substituted |
| Games.FillVerbatim | main.py:318-322 | a filled template holds the target, and after it the reason, unchanged |
| Games.CurseNamesTargetThenReason | main.py:315-325 | every curse contains the target and, later, the reason verbatim |
| Games.Advance | main.py:487-693 | no handler drops a `user_data` field; every handler but `curse_target` leaves `user_data` unchanged; any next state is of the same game |
| Games.StartGame | main.py:464-648 | an entry command returns its game's first state; the others leave `user_data` alone and send their intro, while `/poison` shows one poison's symptoms and stores that same poison's name and trivia |
| Games.CancelStep | main.py:745-748 | `/cancel` ends the game and leaves `user_data` alone |
| Games.LocationAdvancesIff | main.py:487-505 | hide-body goes on to the method question if and only if the text is one of a-d or A-D; otherwise the invalid-choice reply and END |
| Games.PaddedChoiceInvalid | main.py:489 | "A " is not stripped and so is an invalid choice |
| Games.OnlyTwoStepsContinue | main.py:487-693 | only location to method and target to reason continue; target always continues; every other handler ends |
| Games.PoisonAnswerIgnoresCaseAndSpace | main.py:555-561 | a trimmed answer with any surrounding whitespace is correct if and only if it equals the stored name up to case |
| Games.PoisonVerdictIff | main.py:555-561 | any text splits into blank, trimmed, blank parts, and it is correct if and only if its trimmed part equals the stored name up to case |
| Games.PoisonWithoutQuestion | main.py:558-561 | with no stored answer the comparison is with "", so only blank text is correct |
| Games.PoisonNameTrimmed | main.py:280-304 | the poison names have no surrounding whitespace, upper-cased or not |
| Games.PoisonInitialsDistinct | main.py:280-304 | the five names start with five different capitals |
| Games.DifferentInitialIncorrect | main.py:557-561 | an answer whose first letter differs from the stored one's, ignoring case, is incorrect |
| Games.OtherPoisonIncorrect | main.py:555-581 | naming a different poison is incorrect, and the game ends |
| Games.PoisonSymptomsDistinct | main.py:280-304 | the five symptom texts differ, so the dossier shown identifies the poison |
| Games.PoisonRoundTrip | main.py:533-561 | after `/poison` has shown a poison's symptoms, that poison's name in capitals with surrounding whitespace is judged correct |
| Games.CurseTargetStored | main.py:651-665 | the first curse step stores the stripped target, names it and asks for the reason |
| Games.CurseUsesStoredTarget | main.py:668-693 | the curse uses the stored target, or "the target" when none is stored, and the stripped reason, fills a template with them, and ends |
| Games.CurseRoundTrip | main.py:651-693 | target then reason: the curse is built from the stripped target and the stripped reason, then END |
| Games.ActiveKind | main.py:816-819 | text goes to the first game, in registration order, that is active for the user |
| Games.AdvanceKeepsReady | main.py:533-693 | a step keeps every active conversation's fields present |
| Games.ReadyPoisonUsesQuestion | main.py:555-559 | through the registry, an answer is judged against the question that was asked |
| Games.ReadyCurseUsesTarget | main.py:668-670 | through the registry, the curse uses the target the user gave |
| Games.GameRegistry.constructor | main.py:781-819 | no conversation is active and no `user_data` exists at start |
| Games.GameRegistry.Start | main.py:781-812 | an entry command starts its game unless that game is already active |
| Games.GameRegistry.OnText | main.py:781-819 | the first active conversation takes the text and advances or ends; with none active nothing changes |
| Games.GameRegistry.Cancel | main.py:745-748 | `/cancel` ends the first active conversation; with none active nothing answers |
| Bot.DisplayName | main.py:703 | `first_name or "Human"` is never empty and is the first name when there is one |
| Bot.Bot.constructor | main.py:333-335 | one scheduler holding the first draw as the rule stores it, an empty memory and no active games |
| Bot.Bot.ReadMood | main.py:103-108 | `get_mood`: a stale mood is replaced by the draw as the rule stores it, stamped `now`; a fresh one is kept; the stored value is returned |
| Bot.Bot.HandleMessage | main.py:696-718 | record, then read the mood and classify; as written no mood-specific branch is taken, as intended each follows the stored mood; a comment only on its coin flip and never the absence comment; a fact only on its coin flip |
| Bot.Bot.OnText | main.py:816-823 | with a game active, the game's step gives the reply, the new conversations and `user_data`, and memory and mood stay as they were; otherwise the games stay as they were and the message is recorded and answered as `handle_message` does |
| Bot.Bot.ProfileCommand | main.py:403-414 | the "new" reply if and only if there is no comment, otherwise an analysis around one candidate |
| Bot.Bot.MoodCommand | main.py:425-437 | `/mood` reads the mood as `get_mood` does; as written it always raises `TypeError`, as intended it gives the stored mood's description |
| Bot.Bot.StartGame | main.py:781-812 | an entry command for an active game changes nothing; otherwise its game starts at its first state with the entry step's `user_data`, and other conversations stay |
| Bot.Bot.Cancel | main.py:745-748 | `/cancel` ends exactly the first active conversation with the termination reply and keeps `user_data`; with none active nothing answers or changes |
| Bot.AbsenceReachableViaProfile | main.py:245-264 | the absence comment is reachable through `/profile`: eight idle days after one message |

## Left out

- The Telegram transport is not modelled. This covers `Update`, `reply_text`, Markdown parse modes, `Application`, `run_polling` and the error handler (`main.py:751-830`). Only the routing order of the handlers is kept.
- The library's conversation keying by chat and user is not modelled. Conversations are keyed by user, as in a private chat. `ConversationHandler` code is not part of this model; its default behaviour is assumed, as stated above.
- async/await and concurrency are left out. The model is sequential.
- The mood weights (`main.py:60`) and the coin-flip thresholds 0.15 and 0.1 (`main.py:709`, `main.py:715`) are floating-point probabilities. They become parameters, and no distribution is modelled.
- `time.time()` and `datetime.now()` become one integer clock reading per operation. `get_mood` reads the clock twice in the source (`main.py:105-107`); the model uses one reading for both.
- The reply texts and corpora are left out: the opening lines, bored lines, dark facts, assessments and fixed paragraphs. Replies record which line or paragraph was chosen. The profile comment records its figures, and the join of interests with ", " is left out.
- The handlers that only send constant text or one random pick are left out: `start_command`, `help_command`, `game_command`, `goodbye_command`, `handle_photo` and `darkfact_command`. The fixed opening texts of `hidebody_start`, `plotnovel_start` and `curse_start` appear only as `Intro`.
- The numeric constants of the conversation states (`main.py:37-43`) are left out. The states are a datatype, and the numbers play no part in the logic.
- Logging configuration (`main.py:24-28`) is left out.
- Profile field `grudges` is created empty and never written, so it is modelled as such.
- `last_interaction` starts as `None` but is set in the same call that creates the profile (`main.py:231-236`), so the model stores it as a plain time and drops the `None` test at `main.py:261`.
- Text.Lower: maps only ASCII letters. Python's `str.lower()` also maps other letters, some of them to several characters.
- Text.Upper: maps only ASCII letters. Python's `str.upper()` also maps other letters.

## Findings

| source | as written | input that shows it | evidently intended | confidence | as-written member | corrected member |
|---|---|---|---|---|---|---|
| main.py:100-106 | `random.choices(...)` returns a one-element list. Every `mood == '...'` test against it is false, so greetings never get an elaboration, no coda or softening is ever added, and long default messages always get the last paragraph. | any draw, e.g. `['plotting']` stored and then "hello" received: the reply is the bare opening line | store the drawn name (`random.choices(...)[0]` or `random.choice`), so the mood-specific branches follow the mood | high (not executed) | Classifier.AsWrittenReplies | Classifier.PickedMoodReplies |
| main.py:425-437 | `mood_descriptions[current_mood]` is looked up with the stored list. A list is unhashable, so `/mood` always raises `TypeError` and the error handler answers instead. | any `/mood` command | look up the drawn mood's name and reply with its description | high (not executed) | Moods.MoodCommandAlwaysRaises | Moods.MoodCommandDescribesPick |
