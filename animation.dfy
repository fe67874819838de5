/**
 * Choosing a decorative animation from a condition text: the keyed table
 * used for the current-conditions and forecast-day animation, and the
 * fixed chain used for the full-page background. Only the choice of URL
 * is modelled; downloading the animation is not.
 */
module Animation {
  import opened Wrappers
  import opened Text

  const SunUrl: string := "https://assets3.lottiefiles.com/packages/lf20_sun.json"
  const CloudyUrl: string := "https://assets5.lottiefiles.com/packages/lf20_cloudy.json"
  const RainUrl: string := "https://assets3.lottiefiles.com/packages/lf20_rain.json"
  const SnowUrl: string := "https://assets3.lottiefiles.com/packages/lf20_snow.json"
  const ThunderUrl: string := "https://assets3.lottiefiles.com/packages/lf20_thunder.json"
  const FogUrl: string := "https://assets3.lottiefiles.com/packages/lf20_fog.json"

  /** The condition keys and their animations, in declaration order. */
  const LottieTable: seq<(string, string)> := [
    ("Sunny", SunUrl),
    ("Clear", SunUrl),
    ("Partly cloudy", CloudyUrl),
    ("Cloudy", CloudyUrl),
    ("Rain", RainUrl),
    ("Snow", SnowUrl),
    ("Thunderstorm", ThunderUrl),
    ("Mist", FogUrl)
  ]

  /** `key.lower() in condition.lower()`. */
  predicate KeyMatches(key: string, condition: string)
  {
    Contains(Lower(condition), Lower(key))
  }

  /** Matching ignores case on both sides: a condition and its lower-cased
      form match the same keys, and so do a key and its lower-cased form. */
  lemma KeyMatchesIgnoresCase(key: string, condition: string)
    ensures KeyMatches(key, condition) <==> KeyMatches(key, Lower(condition))
    ensures KeyMatches(key, condition) <==> KeyMatches(Lower(key), condition)
  {
    LowerIdempotent(condition);
    LowerIdempotent(key);
  }

  /** `get_lottie_for_condition`: the animation of the first key, in
      declaration order, that occurs in the condition ignoring case, or
      `None` when no key does. */
  method LottieForCondition(condition: string) returns (r: Option<string>)
    ensures r.None? <==> forall k :: 0 <= k < |LottieTable| ==> !KeyMatches(LottieTable[k].0, condition)
    ensures r.Some? ==>
      exists k :: 0 <= k < |LottieTable| && KeyMatches(LottieTable[k].0, condition)
        && r.value == LottieTable[k].1
        && (forall j :: 0 <= j < k ==> !KeyMatches(LottieTable[j].0, condition))
  {
    for k := 0 to |LottieTable|
      invariant forall j :: 0 <= j < k ==> !KeyMatches(LottieTable[j].0, condition)
    {
      if KeyMatches(LottieTable[k].0, condition) {
        return Some(LottieTable[k].1);
      }
    }
    return None;
  }

  /** The condition text, lower-cased, contains `word`. */
  predicate Mentions(condition: string, word: string)
  {
    Contains(Lower(condition), word)
  }

  /** `set_full_bg_animation`'s choice of background: sun or clear first,
      then cloud, then rain or thunder, then snow; nothing otherwise. */
  function BackgroundFor(condition: string): (r: Option<string>)
    ensures r == Some(SunUrl) <==> Mentions(condition, "sun") || Mentions(condition, "clear")
    ensures r == Some(CloudyUrl) <==>
      !Mentions(condition, "sun") && !Mentions(condition, "clear") && Mentions(condition, "cloud")
    ensures r == Some(RainUrl) <==>
      !Mentions(condition, "sun") && !Mentions(condition, "clear") && !Mentions(condition, "cloud")
      && (Mentions(condition, "rain") || Mentions(condition, "thunder"))
    ensures r == Some(SnowUrl) <==>
      !Mentions(condition, "sun") && !Mentions(condition, "clear") && !Mentions(condition, "cloud")
      && !Mentions(condition, "rain") && !Mentions(condition, "thunder") && Mentions(condition, "snow")
    ensures r == None <==>
      !Mentions(condition, "sun") && !Mentions(condition, "clear") && !Mentions(condition, "cloud")
      && !Mentions(condition, "rain") && !Mentions(condition, "thunder") && !Mentions(condition, "snow")
  {
    if Mentions(condition, "sun") || Mentions(condition, "clear") then Some(SunUrl)
    else if Mentions(condition, "cloud") then Some(CloudyUrl)
    else if Mentions(condition, "rain") || Mentions(condition, "thunder") then Some(RainUrl)
    else if Mentions(condition, "snow") then Some(SnowUrl)
    else None
  }

  /** A key with a character the condition lacks does not match it. */
  lemma KeyMissesCondition(key: string, condition: string, i: int)
    requires 0 <= i < |key| && LowerChar(key[i]) !in Lower(condition)
    ensures !KeyMatches(key, condition)
  {
    ContainedCharsOccur(Lower(condition), Lower(key));
  }

  /** A word with a character the condition lacks is not mentioned. */
  lemma WordMissing(condition: string, word: string, i: int)
    requires 0 <= i < |word| && word[i] !in Lower(condition)
    ensures !Mentions(condition, word)
  {
    ContainedCharsOccur(Lower(condition), word);
  }

  /** The table has an animation for mist; the chain has no background
      for it. */
  lemma MistChoices()
    ensures KeyMatches("Mist", "Mist") && BackgroundFor("Mist") == None
  {
    assert Lower("Mist") == "mist";
    WordMissing("Mist", "sun", 1);
    WordMissing("Mist", "clear", 0);
    WordMissing("Mist", "cloud", 0);
    WordMissing("Mist", "rain", 0);
    WordMissing("Mist", "thunder", 1);
    WordMissing("Mist", "snow", 2);
  }

  /** A bare "Thunder" gets the rain background from the chain ... */
  lemma ThunderBackground()
    ensures BackgroundFor("Thunder") == Some(RainUrl)
  {
    assert Lower("Thunder") == "thunder";
    WordMissing("Thunder", "sun", 0);
    WordMissing("Thunder", "clear", 0);
    WordMissing("Thunder", "cloud", 0);
    WordMissing("Thunder", "rain", 1);
  }

  /** ... but matches no key of the table, whose key is "Thunderstorm". */
  lemma ThunderHasNoKey()
    ensures forall k :: 0 <= k < |LottieTable| ==> !KeyMatches(LottieTable[k].0, "Thunder")
  {
    assert Lower("Thunder") == "thunder";
    forall k | 0 <= k < |LottieTable| ensures !KeyMatches(LottieTable[k].0, "Thunder") {
      var key := LottieTable[k].0;
      if k == 0 {
        KeyMissesCondition(key, "Thunder", 4);
      } else if k == 1 || k == 2 || k == 3 || k == 4 || k == 7 {
        KeyMissesCondition(key, "Thunder", 1);
      } else if k == 5 {
        KeyMissesCondition(key, "Thunder", 2);
      } else {
        ContainedCharsOccur(Lower("Thunder"), Lower(key));
      }
    }
  }
}
