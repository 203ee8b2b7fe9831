/**
 * The user memory store (`UserMemory`): a map from user id to a profile that
 * every ordinary message updates, and the profile comment derived from it.
 *
 * Times are whole seconds on one integer clock that stands for
 * `datetime.now()`; an elapsed time in days is the floor of the seconds
 * divided by 86400, as `timedelta.days` is.
 */
module Memory {
  import opened Options
  import opened Text

  type UserId = int

  /**
   * A profile record. `lastInteraction` is set in the same call that creates
   * the profile, so the source's initial `None` is never observed.
   * `grudges` is kept but never written.
   */
  datatype Profile = Profile(
    name: string,
    firstContact: int,
    messageCount: nat,
    darkInterests: seq<string>,
    lastInteraction: int,
    grudges: seq<string>)

  /** The keywords `record_interaction` watches for, in the order it checks them. */
  const WatchList: seq<string> := ["death", "murder", "dark", "poison", "gothic", "torture", "cemetery"]

  predicate NoDuplicates(s: seq<string>) {
    forall i, j | 0 <= i < j < |s| :: s[i] != s[j]
  }

  /** The invariant of a profile's interests: duplicate-free watch-list keywords. */
  predicate InterestsValid(interests: seq<string>) {
    NoDuplicates(interests) && forall k | k in interests :: k in WatchList
  }

  /** Every stored profile keeps the interests invariant. */
  predicate AllInterestsValid(users: map<UserId, Profile>) {
    forall u | u in users :: InterestsValid(users[u].darkInterests)
  }

  // ---------------------------------------------------------------------------
  // record_interaction
  // ---------------------------------------------------------------------------

  /**
   * The interests after scanning `keywords` in order: each keyword that occurs
   * in the lower-cased message and is not yet recorded is appended.
   */
  function AddInterests(interests: seq<string>, lowered: string, keywords: seq<string>): (r: seq<string>)
    ensures |interests| <= |r| <= |interests| + |keywords|
    // `interests` is named here so that the verifier does not unroll the
    // scan over the constant watch-list wherever it meets it.
    decreases |keywords|, |interests|
  {
    if keywords == [] then interests
    else
      var k := keywords[0];
      AddInterests(if Contains(lowered, k) && k !in interests then interests + [k] else interests,
                   lowered, keywords[1..])
  }

  /**
   * A keyword is recorded afterwards exactly when it was recorded before, or
   * it is scanned and occurs in the message.
   */
  lemma {:induction false} AddInterestsMembers(interests: seq<string>, lowered: string, keywords: seq<string>, k: string)
    ensures k in AddInterests(interests, lowered, keywords)
            <==> k in interests || (k in keywords && Contains(lowered, k))
    decreases |keywords|
  {
    if keywords != [] {
      var next := if Contains(lowered, keywords[0]) && keywords[0] !in interests
                  then interests + [keywords[0]] else interests;
      AddInterestsMembers(next, lowered, keywords[1..], k);
      assert k in keywords <==> k == keywords[0] || k in keywords[1..];
    }
  }

  /** The scan never records a keyword twice. */
  lemma {:induction false} AddInterestsNoDuplicates(interests: seq<string>, lowered: string, keywords: seq<string>)
    requires NoDuplicates(interests)
    ensures NoDuplicates(AddInterests(interests, lowered, keywords))
    decreases |keywords|
  {
    if keywords != [] {
      var next := if Contains(lowered, keywords[0]) && keywords[0] !in interests
                  then interests + [keywords[0]] else interests;
      AddInterestsNoDuplicates(next, lowered, keywords[1..]);
    }
  }

  /** One step of the scan, as the loop of `record_interaction` takes it. */
  lemma AddInterestsStep(interests: seq<string>, lowered: string, keywords: seq<string>)
    requires keywords != []
    ensures AddInterests(interests, lowered, keywords)
            == AddInterests(if Contains(lowered, keywords[0]) && keywords[0] !in interests
                            then interests + [keywords[0]] else interests, lowered, keywords[1..])
  {
  }

  /** The keywords of `keywords` that occur in the message and are not yet recorded, in order. */
  function NewKeywords(interests: seq<string>, lowered: string, keywords: seq<string>): seq<string>
    decreases |keywords|
  {
    if keywords == [] then []
    else if Contains(lowered, keywords[0]) && keywords[0] !in interests
    then [keywords[0]] + NewKeywords(interests, lowered, keywords[1..])
    else NewKeywords(interests, lowered, keywords[1..])
  }

  lemma {:induction false} NewKeywordsIgnores(interests: seq<string>, k: string, lowered: string, keywords: seq<string>)
    requires k !in keywords
    ensures NewKeywords(interests + [k], lowered, keywords) == NewKeywords(interests, lowered, keywords)
    decreases |keywords|
  {
    if keywords != [] {
      assert keywords[0] in interests + [k] <==> keywords[0] in interests;
      assert forall x | x in keywords[1..] :: x in keywords;
      NewKeywordsIgnores(interests, k, lowered, keywords[1..]);
    }
  }

  /**
   * For a duplicate-free watch-list, recording appends exactly the new
   * keywords, in watch-list order, after the interests already recorded.
   */
  lemma {:induction false} AddInterestsAppendsInOrder(interests: seq<string>, lowered: string, keywords: seq<string>)
    requires NoDuplicates(keywords)
    ensures AddInterests(interests, lowered, keywords) == interests + NewKeywords(interests, lowered, keywords)
    decreases |keywords|
  {
    if keywords != [] {
      var k, rest := keywords[0], keywords[1..];
      assert NoDuplicates(rest);
      assert k !in rest;
      if Contains(lowered, k) && k !in interests {
        AddInterestsAppendsInOrder(interests + [k], lowered, rest);
        NewKeywordsIgnores(interests, k, lowered, rest);
        assert interests + [k] + NewKeywords(interests, lowered, rest) == interests + ([k] + NewKeywords(interests, lowered, rest));
      } else {
        AddInterestsAppendsInOrder(interests, lowered, rest);
      }
    }
  }

  /** Recording the same message a second time adds no interest: keywords are kept once. */
  lemma {:induction false} AddInterestsIdempotent(interests: seq<string>, lowered: string, keywords: seq<string>)
    ensures AddInterests(AddInterests(interests, lowered, keywords), lowered, keywords)
            == AddInterests(interests, lowered, keywords)
  {
    var once := AddInterests(interests, lowered, keywords);
    forall k | k in keywords && Contains(lowered, k)
      ensures k in once
    {
      AddInterestsMembers(interests, lowered, keywords, k);
    }
    AddInterestsUnchanged(once, lowered, keywords);
  }

  /** Scanning keywords that are all recorded already, or absent from the message, changes nothing. */
  lemma {:induction false} AddInterestsUnchanged(interests: seq<string>, lowered: string, keywords: seq<string>)
    requires forall k | k in keywords && Contains(lowered, k) :: k in interests
    ensures AddInterests(interests, lowered, keywords) == interests
    decreases |keywords|
  {
    if keywords != [] {
      assert keywords[0] in keywords;
      assert forall x | x in keywords[1..] :: x in keywords;
      AddInterestsUnchanged(interests, lowered, keywords[1..]);
    }
  }

  lemma WatchListDistinct()
    ensures NoDuplicates(WatchList)
  {
  }

  /**
   * The watch-list loop of `record_interaction`: append, in watch-list order,
   * each keyword found in the lower-cased message that is not yet recorded.
   */
  method ScanWatchList(interests: seq<string>, lowered: string) returns (r: seq<string>)
    ensures r == AddInterests(interests, lowered, WatchList)
  {
    r := interests;
    var i := 0;
    while i < |WatchList|
      invariant 0 <= i <= |WatchList|
      invariant AddInterests(r, lowered, WatchList[i..]) == AddInterests(interests, lowered, WatchList)
    {
      var keyword := WatchList[i];
      AddInterestsStep(r, lowered, WatchList[i..]);
      assert WatchList[i..][1..] == WatchList[i + 1..];
      if Contains(lowered, keyword) && keyword !in r {
        r := r + [keyword];
      }
      i := i + 1;
    }
    assert WatchList[i..] == [];
  }

  /** A brand-new profile, as `record_interaction` creates it before counting the message. */
  function NewProfile(name: string, now: int): (p: Profile)
    ensures p.messageCount == 0 && p.darkInterests == [] && p.grudges == []
  {
    Profile(name, now, 0, [], now, [])
  }

  /** The profile `record_interaction` starts from: the stored one, or a new one. */
  function ProfileOrNew(users: map<UserId, Profile>, id: UserId, name: string, now: int): Profile {
    if id in users then users[id] else NewProfile(name, now)
  }

  /** One message counted: count up by one, last interaction now, interests extended. */
  function Touch(p: Profile, message: string, now: int): Profile {
    p.(messageCount := p.messageCount + 1,
       lastInteraction := now,
       darkInterests := AddInterests(p.darkInterests, Lower(message), WatchList))
  }

  /** The store after `record_interaction(id, message, name)` at time `now`. */
  function Recorded(users: map<UserId, Profile>, id: UserId, message: string, name: string, now: int): (r: map<UserId, Profile>)
    ensures r.Keys == users.Keys + {id}
  {
    users[id := Touch(ProfileOrNew(users, id, name, now), message, now)]
  }

  /** Recording a message from one user leaves every other profile as it was. */
  lemma RecordedOthersUnchanged(users: map<UserId, Profile>, id: UserId, message: string, name: string, now: int, u: UserId)
    requires u in users && u != id
    ensures Recorded(users, id, message, name, now)[u] == users[u]
  {
  }

  /** What one recorded message does to its sender's profile. */
  lemma RecordedProfile(users: map<UserId, Profile>, id: UserId, message: string, name: string, now: int)
    ensures var p := Recorded(users, id, message, name, now)[id];
            && p.messageCount == (if id in users then users[id].messageCount else 0) + 1
            && p.lastInteraction == now
            && p.name == (if id in users then users[id].name else name)
            && p.firstContact == (if id in users then users[id].firstContact else now)
            && p.grudges == (if id in users then users[id].grudges else [])
            && p.darkInterests == ProfileOrNew(users, id, name, now).darkInterests
                                  + NewKeywords(ProfileOrNew(users, id, name, now).darkInterests, Lower(message), WatchList)
  {
    WatchListDistinct();
    AddInterestsAppendsInOrder(ProfileOrNew(users, id, name, now).darkInterests, Lower(message), WatchList);
  }

  /** Recording keeps every profile's interests duplicate-free watch-list keywords. */
  lemma RecordedKeepsInterestsValid(users: map<UserId, Profile>, id: UserId, message: string, name: string, now: int)
    requires AllInterestsValid(users)
    ensures AllInterestsValid(Recorded(users, id, message, name, now))
  {
    var before := ProfileOrNew(users, id, name, now).darkInterests;
    var after := AddInterests(before, Lower(message), WatchList);
    AddInterestsNoDuplicates(before, Lower(message), WatchList);
    forall k | k in after
      ensures k in WatchList
    {
      AddInterestsMembers(before, Lower(message), WatchList, k);
    }
  }

  // ---------------------------------------------------------------------------
  // get_profile_comment
  // ---------------------------------------------------------------------------

  /** More than this many messages earns the persistence comment. */
  const PersistentAfter: nat := 10
  /** More than this many whole days of absence earns the absence comment. */
  const AbsentAfterDays: int := 7
  const SecondsPerDay: int := 86400

  /** The three observations a profile comment can make. */
  datatype Comment = Persistence(count: nat) | Interests(keywords: seq<string>) | Absence(days: int)

  /** Whole days since the last interaction (floor division, as `timedelta.days`). */
  function DaysSince(last: int, now: int): int {
    (now - last) / SecondsPerDay
  }

  /** The candidate comments, in the order the source builds its list. */
  function Candidates(p: Profile, now: int): (cs: seq<Comment>)
    ensures (exists c | c in cs :: c.Persistence?) <==> p.messageCount > PersistentAfter
    ensures (exists c | c in cs :: c.Interests?) <==> p.darkInterests != []
    ensures (exists c | c in cs :: c.Absence?) <==> DaysSince(p.lastInteraction, now) > AbsentAfterDays
    ensures forall c | c in cs :: (c.Persistence? ==> c.count == p.messageCount)
                                && (c.Interests? ==> c.keywords == p.darkInterests)
                                && (c.Absence? ==> c.days == DaysSince(p.lastInteraction, now))
  {
    var days := DaysSince(p.lastInteraction, now);
    var persistence := if p.messageCount > PersistentAfter then [Persistence(p.messageCount)] else [];
    var interests := if p.darkInterests != [] then [Interests(p.darkInterests)] else [];
    var absence := if days > AbsentAfterDays then [Absence(days)] else [];
    var cs := persistence + interests + absence;
    assert forall c :: c in cs <==> c in persistence || c in interests || c in absence;
    assert p.messageCount > PersistentAfter ==> cs[0].Persistence?;
    assert p.darkInterests != [] ==> cs[|persistence|].Interests?;
    assert days > AbsentAfterDays ==> cs[|cs| - 1].Absence?;
    cs
  }

  /** A profile just touched at `now` cannot be absent: the absence comment never applies. */
  lemma TouchedNeverAbsent(p: Profile, message: string, now: int)
    ensures forall c | c in Candidates(Touch(p, message, now), now) :: !c.Absence?
  {
  }

  // ---------------------------------------------------------------------------
  // The store
  // ---------------------------------------------------------------------------

  class UserMemory {
    var users: map<UserId, Profile>

    ghost predicate Valid()
      reads this
    {
      AllInterestsValid(users)
    }

    constructor ()
      ensures Valid() && users == map[]
    {
      users := map[];
    }

    /**
     * `record_interaction`: create the profile on first sight, count the
     * message, stamp the time, then scan the watch-list in order.
     */
    method RecordInteraction(id: UserId, message: string, name: string, now: int)
      requires Valid()
      modifies this
      ensures Valid()
      ensures users == Recorded(old(users), id, message, name, now)
    {
      var p := if id in users then users[id] else NewProfile(name, now);
      ghost var before := p;
      p := p.(messageCount := p.messageCount + 1, lastInteraction := now);
      var interests := ScanWatchList(p.darkInterests, Lower(message));
      p := p.(darkInterests := interests);
      assert p == Touch(before, message, now);
      users := users[id := p];
      RecordedKeepsInterestsValid(old(users), id, message, name, now);
    }

    /**
     * `get_profile_comment`: nothing for an unknown user or when no
     * observation applies, otherwise one of the candidates (`pick` chooses).
     */
    function ProfileComment(id: UserId, now: int, pick: nat): (r: Option<Comment>)
      reads this
      ensures id !in users ==> r == None
      ensures id in users ==>
                (r == None <==> users[id].messageCount <= PersistentAfter
                                && users[id].darkInterests == []
                                && DaysSince(users[id].lastInteraction, now) <= AbsentAfterDays)
      ensures r.Some? ==> id in users && r.value in Candidates(users[id], now)
    {
      if id !in users then None
      else
        var cs := Candidates(users[id], now);
        if cs == [] then None else Some(cs[pick % |cs|])
    }
  }
}
