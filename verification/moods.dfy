/**
 * The mood scheduler: one process-wide mood, redrawn lazily when it is read
 * more than an hour after it was last drawn.
 *
 * The source draws the mood with `random.choices(MOOD_STATES, weights=...)`,
 * which returns a one-element LIST, and then compares the stored value with
 * mood names (`mood == 'plotting'`). A `MoodValue` therefore records what was
 * actually stored: a plain name (`Name`) or a list of names (`ListOf`).
 * `ChoicesDraw` is the draw as written, `PickDraw` the draw as intended
 * (a plain name); a `DrawRule` says which of the two the bot stores.
 */
module Moods {

  datatype Mood = Plotting | Literary | Scientific | Philosophical | Vulnerable

  /** The names in `MOOD_STATES`, in order. */
  function MoodName(m: Mood): string {
    match m
    case Plotting => "plotting"
    case Literary => "literary"
    case Scientific => "scientific"
    case Philosophical => "philosophical"
    case Vulnerable => "vulnerable"
  }

  /** Distinct moods have distinct names. */
  lemma MoodNameInjective(m: Mood, n: Mood)
    ensures MoodName(m) == MoodName(n) <==> m == n
  {
  }

  /** The value held in `current_mood`: a string, or a list of strings. */
  datatype MoodValue = Name(name: string) | ListOf(items: seq<string>)

  /** Python's `mood == '<name of m>'`: true only for the plain string. */
  predicate IsMood(v: MoodValue, m: Mood) {
    v == Name(MoodName(m))
  }

  /** The stored value equals none of the five mood names. */
  predicate NamesNoMood(v: MoodValue) {
    !IsMood(v, Plotting) && !IsMood(v, Literary) && !IsMood(v, Scientific)
    && !IsMood(v, Philosophical) && !IsMood(v, Vulnerable)
  }

  /** The draw as written: `random.choices(...)` yields a one-element list. */
  function ChoicesDraw(m: Mood): (v: MoodValue)
    ensures v.ListOf? && |v.items| == 1
  {
    ListOf([MoodName(m)])
  }

  /** The draw as intended: the chosen name itself. */
  function PickDraw(m: Mood): (v: MoodValue)
    ensures v.Name?
  {
    Name(MoodName(m))
  }

  /** Which draw the bot stores: the list the code builds, or the name it means. */
  datatype DrawRule = AsWritten | AsIntended

  function Drawn(rule: DrawRule, m: Mood): MoodValue {
    match rule
    case AsWritten => ChoicesDraw(m)
    case AsIntended => PickDraw(m)
  }

  /** What the source stores never compares equal to any mood name. */
  lemma ChoicesDrawNamesNoMood(m: Mood)
    ensures NamesNoMood(ChoicesDraw(m))
    ensures forall n: Mood :: !IsMood(ChoicesDraw(m), n)
  {
  }

  /** The intended draw compares equal to exactly the mood drawn. */
  lemma PickDrawIsMood(m: Mood, n: Mood)
    ensures IsMood(PickDraw(m), n) <==> m == n
  {
    MoodNameInjective(m, n);
  }

  /** Seconds after which a read redraws the mood. */
  const StaleAfter: int := 3600

  /**
   * `WednesdayPersonality`'s mood fields. The clock reading and the drawn
   * value are passed in; they stand for `time.time()` and the random draw.
   */
  class MoodScheduler {
    var current: MoodValue
    var setAt: int

    constructor (now: int, draw: MoodValue)
      ensures current == draw && setAt == now
    {
      current := draw;
      setAt := now;
    }

    /** `get_mood`: redraw when more than an hour has passed, then read. */
    method GetMood(now: int, draw: MoodValue) returns (m: MoodValue)
      modifies this
      ensures now - old(setAt) > StaleAfter ==> current == draw && setAt == now
      ensures now - old(setAt) <= StaleAfter ==> current == old(current) && setAt == old(setAt)
      ensures m == current
    {
      if now - setAt > StaleAfter {
        current := draw;
        setAt := now;
      }
      m := current;
    }
  }

  /** Two reads within the hour see the same mood, whatever the second draw offers. */
  method StableWithinHour(s: MoodScheduler, t1: int, t2: int, d1: MoodValue, d2: MoodValue)
    returns (m1: MoodValue, m2: MoodValue)
    requires t1 <= t2 <= s.setAt + StaleAfter
    modifies s
    ensures m1 == m2 == old(s.current)
  {
    m1 := s.GetMood(t1, d1);
    m2 := s.GetMood(t2, d2);
  }

  /** The text of the `/mood` command for each mood. */
  datatype MoodDescription = PlottingMode | LiteraryMode | ScientificMode | PhilosophicalMode | UnrecognisedState

  /** Why the `mood_descriptions[current_mood]` lookup fails. */
  datatype LookupError = UnhashableKey | KeyError

  datatype LookupResult = Described(description: MoodDescription) | Raised(error: LookupError)

  function Description(m: Mood): MoodDescription {
    match m
    case Plotting => PlottingMode
    case Literary => LiteraryMode
    case Scientific => ScientificMode
    case Philosophical => PhilosophicalMode
    case Vulnerable => UnrecognisedState
  }

  /**
   * `mood_descriptions[current_mood]` in `mood_command`: a list key raises
   * `TypeError` (lists are unhashable), an unknown string raises `KeyError`.
   */
  function DescribeMood(v: MoodValue): (r: LookupResult)
    ensures r.Described? <==> exists m: Mood :: IsMood(v, m)
    ensures forall m: Mood :: IsMood(v, m) ==> r == Described(Description(m))
    ensures v.ListOf? ==> r == Raised(UnhashableKey)
    ensures v.Name? && NamesNoMood(v) ==> r == Raised(KeyError)
  {
    match v
    case ListOf(_) => Raised(UnhashableKey)
    case Name(n) =>
      if n == "plotting" then assert IsMood(v, Plotting); Described(PlottingMode)
      else if n == "literary" then assert IsMood(v, Literary); Described(LiteraryMode)
      else if n == "scientific" then assert IsMood(v, Scientific); Described(ScientificMode)
      else if n == "philosophical" then assert IsMood(v, Philosophical); Described(PhilosophicalMode)
      else if n == "vulnerable" then assert IsMood(v, Vulnerable); Described(UnrecognisedState)
      else
        assert forall m: Mood :: !IsMood(v, m);
        Raised(KeyError)
  }

  /** As written, `/mood` always fails: the stored list cannot be a dictionary key. */
  lemma MoodCommandAlwaysRaises(m: Mood)
    ensures DescribeMood(ChoicesDraw(m)) == Raised(UnhashableKey)
  {
  }

  /** With the intended draw, `/mood` describes the mood that was drawn. */
  lemma MoodCommandDescribesPick(m: Mood)
    ensures DescribeMood(PickDraw(m)) == Described(Description(m))
  {
    assert IsMood(PickDraw(m), m);
  }
}
