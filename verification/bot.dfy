/**
 * The bot as the handlers put it together: one mood scheduler, one user
 * memory and the game registry, shared by every update.
 *
 * A text message goes to the user's active game if there is one; otherwise
 * `handle_message` records it, reads the mood, classifies the text and may
 * add a profile comment and a dark fact. The coin flips and corpus picks of
 * one message are a `Draws` value.
 */
module Bot {
  import opened Options
  import opened Moods
  import opened Classifier
  import opened Memory
  import Games

  /** `user.first_name or "Human"`. */
  function DisplayName(firstName: string): (n: string)
    ensures n != []
    ensures firstName != [] ==> n == firstName
  {
    if firstName == [] then "Human" else firstName
  }

  /** The random outcomes one text message may consume. */
  datatype Draws = Draws(
    mood: Mood,            // the mood drawn if the stored one is stale
    replyPick: nat,        // the corpus line of the reply
    factPick: nat,         // the fact a "death" message gets
    commentRoll: bool,     // `random.random() < 0.15`
    commentPick: nat,      // which candidate comment
    factRoll: bool,        // `random.random() < 0.1`
    extraFactPick: nat)    // which dark fact is appended

  /** The reply to an ordinary message: the classified reply plus the optional additions. */
  datatype MessageReply = MessageReply(body: Reply, comment: Option<Comment>, fact: Option<nat>)

  /** What a text message gets: a game's turn or an ordinary reply. */
  datatype TextReply = GameTurn(turn: Games.GameReply) | Chat(chat: MessageReply)

  /** `/profile`: the "you're new" text, or the analysis around one comment. */
  datatype ProfileReply = NotEnoughData | Analysis(comment: Comment)

  class Bot {
    /** Which mood value the scheduler stores: the list as written, or the name as intended. */
    const rule: DrawRule
    const personality: MoodScheduler
    const memory: UserMemory
    const games: Games.GameRegistry

    ghost predicate Valid()
      reads this, personality, memory, games
    {
      memory.Valid() && games.Valid() && exists m: Mood :: personality.current == Drawn(rule, m)
    }

    /** `WednesdayPersonality.__init__` draws the first mood at start-up. */
    constructor (now: int, rule: DrawRule, firstMood: Mood)
      ensures Valid() && this.rule == rule
      ensures personality.current == Drawn(rule, firstMood) && personality.setAt == now
      ensures memory.users == map[] && games.sessions == map[] && games.userData == map[]
    {
      this.rule := rule;
      personality := new MoodScheduler(now, Drawn(rule, firstMood));
      memory := new UserMemory();
      games := new Games.GameRegistry();
    }

    /** `get_mood`: a stale mood is replaced by the value `rule` makes of the draw. */
    method ReadMood(now: int, draw: Mood) returns (v: MoodValue)
      requires Valid()
      modifies personality
      ensures Valid()
      ensures now - old(personality.setAt) > StaleAfter ==>
                personality.current == Drawn(rule, draw) && personality.setAt == now
      ensures now - old(personality.setAt) <= StaleAfter ==>
                personality.current == old(personality.current) && personality.setAt == old(personality.setAt)
      ensures v == personality.current
    {
      v := personality.GetMood(now, Drawn(rule, draw));
    }

    /**
     * `handle_message`: record first, then reply; the profile comment is
     * read after recording, so it can never be the absence comment. As
     * written the reply never depends on the mood; as intended every
     * mood-specific branch follows the stored mood.
     */
    method HandleMessage(user: UserId, firstName: string, text: string, now: int, d: Draws) returns (r: MessageReply)
      requires Valid()
      modifies personality, memory
      ensures Valid()
      ensures memory.users == Recorded(old(memory.users), user, text, DisplayName(firstName), now)
      ensures now - old(personality.setAt) > StaleAfter ==>
                personality.current == Drawn(rule, d.mood) && personality.setAt == now
      ensures now - old(personality.setAt) <= StaleAfter ==>
                personality.current == old(personality.current) && personality.setAt == old(personality.setAt)
      ensures r.body == Classify(text, personality.current, DisplayName(firstName), d.replyPick, d.factPick)
      ensures rule == AsWritten ==> IgnoresMood(r.body)
      ensures forall m: Mood :: rule == AsIntended && personality.current == PickDraw(m) ==>
                FollowsMood(r.body, m, DisplayName(firstName))
      ensures r.comment == (if d.commentRoll then memory.ProfileComment(user, now, d.commentPick) else None)
      ensures r.comment.Some? ==> !r.comment.value.Absence?
      ensures r.fact == (if d.factRoll then Some(d.extraFactPick % DarkFactCount) else None)
    {
      var name := DisplayName(firstName);
      memory.RecordInteraction(user, text, name, now);
      var mood := ReadMood(now, d.mood);
      var body := Classify(text, mood, name, d.replyPick, d.factPick);
      var drawn: Mood :| mood == Drawn(rule, drawn);
      if rule == AsWritten {
        AsWrittenReplies(text, drawn, name, d.replyPick, d.factPick);
      }
      forall m: Mood | rule == AsIntended && mood == PickDraw(m)
        ensures FollowsMood(body, m, name)
      {
        PickedMoodReplies(text, m, name, d.replyPick, d.factPick);
      }
      var comment := None;
      if d.commentRoll {
        comment := memory.ProfileComment(user, now, d.commentPick);
        TouchedNeverAbsent(ProfileOrNew(old(memory.users), user, name, now), text, now);
      }
      var fact := if d.factRoll then Some(d.extraFactPick % DarkFactCount) else None;
      r := MessageReply(body, comment, fact);
    }

    /**
     * A text message that is not a command. The conversation handlers are
     * registered before the message handler, so an active game takes the
     * text and the memory and mood are left alone; otherwise the games are
     * left alone and `handle_message` answers.
     */
    method OnText(user: UserId, firstName: string, text: string, now: int, d: Draws, gamePick: nat)
      returns (r: TextReply)
      requires Valid()
      modifies personality, memory, games
      ensures Valid()
      ensures Games.ActiveKind(old(games.sessions), user).Some? ==>
                var key := Games.Key(user, Games.ActiveKind(old(games.sessions), user).value);
                var s := Games.Advance(old(games.sessions)[key], Games.DataOf(old(games.userData), user), text, gamePick);
                r == GameTurn(s.reply)
                && games.sessions == Games.Resume(old(games.sessions), key, s.next)
                && games.userData == old(games.userData)[user := s.data]
                && memory.users == old(memory.users)
                && personality.current == old(personality.current) && personality.setAt == old(personality.setAt)
      ensures Games.ActiveKind(old(games.sessions), user).None? ==>
                r.Chat? && games.sessions == old(games.sessions) && games.userData == old(games.userData)
                && memory.users == Recorded(old(memory.users), user, text, DisplayName(firstName), now)
                && (now - old(personality.setAt) > StaleAfter ==>
                      personality.current == Drawn(rule, d.mood) && personality.setAt == now)
                && (now - old(personality.setAt) <= StaleAfter ==>
                      personality.current == old(personality.current) && personality.setAt == old(personality.setAt))
                && r.chat.body == Classify(text, personality.current, DisplayName(firstName), d.replyPick, d.factPick)
                && (rule == AsWritten ==> IgnoresMood(r.chat.body))
                && (forall m: Mood :: rule == AsIntended && personality.current == PickDraw(m) ==>
                      FollowsMood(r.chat.body, m, DisplayName(firstName)))
                && r.chat.comment == (if d.commentRoll then memory.ProfileComment(user, now, d.commentPick) else None)
                && (r.chat.comment.Some? ==> !r.chat.comment.value.Absence?)
                && r.chat.fact == (if d.factRoll then Some(d.extraFactPick % DarkFactCount) else None)
    {
      var turn := games.OnText(user, text, gamePick);
      if turn.Some? {
        r := GameTurn(turn.value);
      } else {
        var chat := HandleMessage(user, firstName, text, now, d);
        r := Chat(chat);
      }
    }

    /** `/profile`: reads the memory and changes nothing. */
    method ProfileCommand(user: UserId, now: int, pick: nat) returns (r: ProfileReply)
      ensures r.NotEnoughData? <==> memory.ProfileComment(user, now, pick).None?
      ensures r.Analysis? ==> user in memory.users && r.comment in Candidates(memory.users[user], now)
    {
      var comment := memory.ProfileComment(user, now, pick);
      if comment.None? {
        r := NotEnoughData;
      } else {
        r := Analysis(comment.value);
      }
    }

    /**
     * `/mood`: reads the mood and looks up its description. As written the
     * stored list is no dictionary key and the lookup raises; as intended
     * it describes the stored mood.
     */
    method MoodCommand(now: int, draw: Mood) returns (r: LookupResult)
      requires Valid()
      modifies personality
      ensures Valid()
      ensures now - old(personality.setAt) > StaleAfter ==>
                personality.current == Drawn(rule, draw) && personality.setAt == now
      ensures now - old(personality.setAt) <= StaleAfter ==>
                personality.current == old(personality.current) && personality.setAt == old(personality.setAt)
      ensures rule == AsWritten ==> r == Raised(UnhashableKey)
      ensures forall m: Mood :: rule == AsIntended && personality.current == PickDraw(m) ==>
                r == Described(Description(m))
    {
      var v := ReadMood(now, draw);
      r := DescribeMood(v);
      var drawn: Mood :| v == Drawn(rule, drawn);
      if rule == AsWritten {
        MoodCommandAlwaysRaises(drawn);
      }
    }

    /** A game's entry command; the memory and the mood are not involved. */
    method StartGame(user: UserId, kind: Games.GameKind, pick: nat) returns (r: Option<Games.GameReply>)
      requires Valid()
      modifies games
      ensures Valid()
      ensures Games.Key(user, kind) in old(games.sessions) ==>
                r == None && games.sessions == old(games.sessions) && games.userData == old(games.userData)
      ensures Games.Key(user, kind) !in old(games.sessions) ==>
                var s := Games.StartGame(kind, Games.DataOf(old(games.userData), user), pick);
                r == Some(s.reply)
                && games.sessions == old(games.sessions)[Games.Key(user, kind) := Games.Entry(kind)]
                && games.userData == old(games.userData)[user := s.data]
    {
      r := games.Start(user, kind, pick);
    }

    /** `/cancel`: ends the first active game; with none active nothing answers. */
    method Cancel(user: UserId) returns (r: Option<Games.GameReply>)
      requires Valid()
      modifies games
      ensures Valid()
      ensures games.userData == old(games.userData)
      ensures Games.ActiveKind(old(games.sessions), user).None? ==>
                r == None && games.sessions == old(games.sessions)
      ensures Games.ActiveKind(old(games.sessions), user).Some? ==>
                r == Some(Games.Terminated)
                && games.sessions == old(games.sessions) - {Games.Key(user, Games.ActiveKind(old(games.sessions), user).value)}
    {
      r := games.Cancel(user);
    }
  }

  /** Through `/profile` the absence comment is reachable: eight idle days after one message. */
  lemma AbsenceReachableViaProfile(name: string, message: string)
    ensures var p := Touch(NewProfile(name, 0), message, 0);
            p.darkInterests == [] ==> Candidates(p, 8 * SecondsPerDay) == [Absence(8)]
  {
  }
}
