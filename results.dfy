/** The result screen: the reward tier and the performance message, both
    classifications of the final score against the number of questions. */
module Results {

  /** The three reward tiers, best first. */
  datatype RewardTier = High | Mid | Participation

  /** The label shown for each tier. */
  function RewardLabel(tier: RewardTier): (text: string)
    ensures tier == High <==> text == "0.01 ETH"
    ensures tier == Mid <==> text == "0.005 ETH"
    ensures tier == Participation <==> text == "Participation Badge NFT"
  {
    match tier
    case High => "0.01 ETH"
    case Mid => "0.005 ETH"
    case Participation => "Participation Badge NFT"
  }

  /** The reward tier for `score` out of `total`: 80 percent or more is the
      high tier, 60 percent or more the middle one. The percentages are
      compared by cross-multiplication on integers. */
  function Reward(score: int, total: int): (tier: RewardTier)
    requires total > 0
  {
    if score * 100 >= 80 * total then High
    else if score * 100 >= 60 * total then Mid
    else Participation
  }

  /** The score as a percentage of the questions, in exact arithmetic. */
  function Percentage(score: int, total: int): (pct: real)
    requires total > 0
  {
    (score as real / total as real) * 100.0
  }

  /** For a positive total, comparing the percentage with a bound `b` is the
      same as comparing 100 * score with b * total. */
  lemma PercentageAtLeast(score: int, total: int, b: int)
    requires total > 0
    ensures Percentage(score, total) >= b as real <==> score * 100 >= b * total
  {
  }

  /** The integer tiers agree with the percentage thresholds. */
  lemma RewardByPercentage(score: int, total: int)
    requires total > 0
    ensures Reward(score, total) == High <==> Percentage(score, total) >= 80.0
    ensures Reward(score, total) == Mid <==> 60.0 <= Percentage(score, total) < 80.0
    ensures Reward(score, total) == Participation <==> Percentage(score, total) < 60.0
  {
    PercentageAtLeast(score, total, 80);
    PercentageAtLeast(score, total, 60);
  }

  /** Tiers ranked 2, 1, 0 from best to worst. */
  function Rank(tier: RewardTier): (rank: nat)
  {
    match tier
    case High => 2
    case Mid => 1
    case Participation => 0
  }

  /** A higher score never earns a lower tier. */
  lemma RewardMonotone(s1: int, s2: int, total: int)
    requires total > 0 && s1 <= s2
    ensures Rank(Reward(s1, total)) <= Rank(Reward(s2, total))
  {
  }

  /** A full score earns the high tier and a zero score the participation
      badge, whatever the number of questions. */
  lemma RewardExtremes(total: int)
    requires total > 0
    ensures Reward(total, total) == High
    ensures Reward(0, total) == Participation
  {
  }

  /** The four performance messages of the result screen. */
  datatype Message = Perfect | Great | GoodEffort | KeepStudying

  /** The messages the result screen shows: each is guarded by its own
      condition and all whose condition holds are displayed, in this order.
      The thresholds 70 and 40 percent are compared on integers. */
  function Messages(score: int, total: int): (msgs: seq<Message>)
  {
    (if score == total then [Perfect] else [])
    + (if 10 * score >= 7 * total && score < total then [Great] else [])
    + (if 10 * score >= 4 * total && 10 * score < 7 * total then [GoodEffort] else [])
    + (if 10 * score < 4 * total then [KeepStudying] else [])
  }

  /** The messages with their conditions written as in the source, on the
      reals: `score >= total * 0.7` and so on. */
  function MessagesOnReals(score: int, total: int): (msgs: seq<Message>)
  {
    var s, t := score as real, total as real;
    (if s == t then [Perfect] else [])
    + (if s >= t * 0.7 && s < t then [Great] else [])
    + (if s >= t * 0.4 && s < t * 0.7 then [GoodEffort] else [])
    + (if s < t * 0.4 then [KeepStudying] else [])
  }

  /** The integer conditions select the same messages as the real ones. */
  lemma MessagesAgree(score: int, total: int)
    ensures Messages(score, total) == MessagesOnReals(score, total)
  {
  }

  /** For every score from 0 to the total exactly one message is shown, and
      this is that message. */
  function Feedback(score: int, total: int): (m: Message)
    requires 0 <= score <= total
    ensures Messages(score, total) == [m]
    ensures m == Perfect <==> score == total
  {
    if score == total then Perfect
    else if 10 * score >= 7 * total then Great
    else if 10 * score >= 4 * total then GoodEffort
    else KeepStudying
  }

  /** With a non-negative total, exactly one message is shown precisely for
      the scores up to the total; a score above it shows none. */
  lemma MessagesExactlyOne(score: int, total: int)
    requires total >= 0
    ensures |Messages(score, total)| == 1 <==> score <= total
    ensures score > total ==> Messages(score, total) == []
  {
  }
}
