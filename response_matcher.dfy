/**
 * backend/voice/response_matcher.py: the phrase tables, the reverse lookup
 * built at construction, `match` and `get_accepted_phrases`.
 */
module ResponseMatching {
  import opened Strings
  import opened TextNormalization

  /** Replies accepted for any checklist item. */
  const UniversalResponses: seq<string> :=
    ["check", "checked", "confirm", "confirmed", "set", "yes", "affirmative"]

  /** Expected response -> spoken phrases accepted for it. */
  const ResponsePhrases: map<string, seq<string>> := map[
    "removed" := ["removed", "remove"],
    "checked" := ["checked", "check"],
    "on" := ["on"],
    "off" := ["off"],
    "set" := ["set"],
    "closed" := ["closed", "close"],
    "zero" := ["zero", "neutral"],
    "confirmed" := ["confirmed", "confirm", "affirm"],
    "as rqrd" := ["as required", "as needed", "set"],
    "as required" := ["as required", "as needed", "set"],
    "nav" := ["nav", "navigation", "navigate"],
    "ta/ra" := ["t a r a", "ta ra", "tara", "traffic alert", "traffic"],
    "t.o." := ["takeoff", "t o", "take off", "set"],
    "t.o. (both)" := ["takeoff", "t o", "take off", "takeoff both", "set"],
    "t.o. no blue" := ["no blue", "takeoff no blue", "t o no blue"],
    "ldg no blue" := ["no blue", "landing no blue", "l d g no blue"],
    "up" := ["up", "gear up"],
    "down" := ["down", "gear down"],
    "retracted" := ["retracted", "up", "zero", "flaps up"],
    "armed" := ["armed", "arm"],
    "disarmed" := ["disarmed", "disarm", "retracted"],
    "review" := ["review", "reviewed"],
    "monitor" := ["monitor", "monitored", "monitoring"],
    "adjust" := ["adjust", "adjusted", "set"],
    "all or blw" := ["all", "below", "all or below", "traffic all", "traffic below"],
    "___kg checked" := ["checked", "fuel checked", "kilos checked"],
    "___set (both)" := ["set", "set both", "both set"],
    "___% set" := ["set", "percent set", "trim set"],
    "___set" := ["set"],
    "closed (both)" := ["closed", "closed both", "both closed"],
    "checked (both)" := ["checked", "checked both", "both checked"]
  ]

  /** Some universal response occurs in the spoken text. */
  predicate HasUniversal(spoken: string) {
    exists u :: u in UniversalResponses && Contains(spoken, u)
  }

  /** Some phrase occurs in the spoken text, or the spoken text occurs in it. */
  predicate PhraseHit(spoken: string, phrases: seq<string>) {
    exists p :: p in phrases && (Contains(spoken, p) || Contains(p, spoken))
  }

  /** The table test as written: the normalised expected text is itself a table key. */
  predicate TableHit(spoken: string, expected: string) {
    expected in ResponsePhrases && PhraseHit(spoken, ResponsePhrases[expected])
  }

  /** The table test with the keys normalised as well. */
  predicate NormalisedTableHit(spoken: string, expected: string) {
    exists key :: key in ResponsePhrases && Normalize(key) == expected && PhraseHit(spoken, ResponsePhrases[key])
  }

  /** At least one word, and at least half of the expected words, were spoken. */
  predicate WordOverlap(expected: string, spoken: string) {
    var shared := Words(expected) * Words(spoken);
    |shared| > 0 && 2 * |shared| >= |Words(expected)|
  }

  /**
   * The decision ladder of `match` on normalised texts, given the outcome of
   * the table test and of the reverse-lookup test. A reply is accepted
   * exactly when its confidence is positive, and the confidence is one of
   * the five levels the ladder assigns.
   */
  function Decide(spoken: string, expected: string, tableHit: bool, reverseHit: bool): (r: (bool, real))
    ensures r.0 <==> r.1 > 0.0
    ensures r.1 == 0.0 || r.1 == 0.7 || r.1 == 0.8 || r.1 == 0.9 || r.1 == 1.0
    ensures r.1 == 1.0 <==> spoken == expected
  {
    if spoken == expected then (true, 1.0)
    else if HasUniversal(spoken) then (true, 0.8)
    else if tableHit then (true, 0.9)
    else if reverseHit then (true, 0.9)
    else if WordOverlap(expected, spoken) then (true, 0.7)
    else (false, 0.0)
  }

  /** A reverse-lookup hit that implies a table hit cannot change the decision. */
  lemma DecideReverseRedundant(spoken: string, expected: string, tableHit: bool, reverseHit: bool)
    ensures (reverseHit ==> tableHit) ==>
      Decide(spoken, expected, tableHit, reverseHit) == Decide(spoken, expected, tableHit, false)
  {
  }

  /** `rev` maps each phrase listed in `table` to the responses that list it, and holds nothing else. */
  ghost predicate IsReverseIndex(table: map<string, seq<string>>, rev: map<string, seq<string>>) {
    (forall phrase :: phrase in rev ==> rev[phrase] != []) &&
    (forall phrase, response :: phrase in rev && response in rev[phrase] ==>
      response in table && phrase in table[response]) &&
    (forall response, phrase :: response in table && phrase in table[response] ==>
      phrase in rev && response in rev[phrase])
  }

  /**
   * The reverse index after the responses in `done` have been entered in
   * full and `response` has had the phrases in `prefix` entered.
   */
  ghost predicate PartlyIndexed(table: map<string, seq<string>>, rev: map<string, seq<string>>,
                                done: set<string>, response: string, prefix: seq<string>) {
    (forall phrase :: phrase in rev ==> rev[phrase] != []) &&
    (forall phrase, r :: phrase in rev && r in rev[phrase] ==>
      (r in done && r in table && phrase in table[r]) || (r == response && phrase in prefix)) &&
    (forall r, phrase :: r in done && r in table && phrase in table[r] ==>
      phrase in rev && r in rev[phrase]) &&
    (forall phrase :: phrase in prefix ==> phrase in rev && response in rev[phrase])
  }

  /** Entering one more phrase of `response`. */
  lemma IndexPhrase(table: map<string, seq<string>>, rev: map<string, seq<string>>,
                    done: set<string>, response: string, prefix: seq<string>, phrase: string)
    requires PartlyIndexed(table, rev, done, response, prefix)
    ensures PartlyIndexed(table, rev[phrase := (if phrase in rev then rev[phrase] else []) + [response]],
                          done, response, prefix + [phrase])
  {
  }

  /** Once all its phrases are entered, `response` counts as done. */
  lemma IndexResponse(table: map<string, seq<string>>, rev: map<string, seq<string>>,
                      done: set<string>, response: string)
    requires response in table && PartlyIndexed(table, rev, done, response, table[response])
    ensures PartlyIndexed(table, rev, done + {response}, "", [])
  {
  }

  /** A reverse-lookup hit is always a table hit already. */
  lemma ReverseHitIsTableHit(rev: map<string, seq<string>>, spoken: string, expected: string)
    ensures IsReverseIndex(ResponsePhrases, rev) && spoken in rev && expected in rev[spoken] ==>
      TableHit(spoken, expected)
  {
    ContainsSelf(spoken);
  }

  /** `list(set(s))`: each element once. */
  function Dedup(s: seq<string>): (r: seq<string>)
    ensures forall x :: x in r <==> x in s
    ensures forall i, j :: 0 <= i < j < |r| ==> r[i] != r[j]
    decreases |s|
  {
    if s == [] then []
    else
      var t := Dedup(s[..|s| - 1]);
      assert forall x :: x in s <==> x in s[..|s| - 1] || x == s[|s| - 1];
      if s[|s| - 1] in t then t else t + [s[|s| - 1]]
  }

  /** All responses entered: the reverse index is complete. */
  lemma IndexComplete(table: map<string, seq<string>>, rev: map<string, seq<string>>)
    requires PartlyIndexed(table, rev, table.Keys, "", [])
    ensures IsReverseIndex(table, rev)
  {
  }

  /**
   * The loop of `ResponseMatcher.__init__`: for each response and each of
   * its phrases, append the response to the phrase's list, creating the
   * list on first sight.
   */
  method BuildReverseIndex(table: map<string, seq<string>>) returns (rev: map<string, seq<string>>)
    ensures IsReverseIndex(table, rev)
  {
    rev := map[];
    var pending := table.Keys;
    while pending != {}
      invariant pending <= table.Keys
      invariant PartlyIndexed(table, rev, table.Keys - pending, "", [])
      decreases pending
    {
      var response :| response in pending;
      var phrases := table[response];
      var j := 0;
      while j < |phrases|
        invariant 0 <= j <= |phrases|
        invariant PartlyIndexed(table, rev, table.Keys - pending, response, phrases[..j])
      {
        var phrase := phrases[j];
        IndexPhrase(table, rev, table.Keys - pending, response, phrases[..j], phrase);
        var known := if phrase in rev then rev[phrase] else [];
        rev := rev[phrase := known + [response]];
        assert phrases[..j + 1] == phrases[..j] + [phrase];
        j := j + 1;
      }
      assert phrases[..j] == phrases;
      IndexResponse(table, rev, table.Keys - pending, response);
      assert table.Keys - (pending - {response}) == (table.Keys - pending) + {response};
      pending := pending - {response};
    }
    IndexComplete(table, rev);
  }

  class ResponseMatcher {
    /** Listed phrase -> the responses whose phrase lists contain it. */
    var phraseToResponses: map<string, seq<string>>

    ghost predicate Valid()
      reads this
    {
      IsReverseIndex(ResponsePhrases, phraseToResponses)
    }

    /** Builds the reverse lookup, one response and one phrase at a time. */
    constructor()
      ensures Valid()
    {
      var rev := BuildReverseIndex(ResponsePhrases);
      phraseToResponses := rev;
    }

    /**
     * `match`: whether the spoken reply answers the expected response, and
     * with what confidence. With a valid reverse index, the reverse-lookup
     * test never changes the outcome.
     */
    function Match(spoken: string, expected: string): (r: (bool, real))
      reads this
      ensures r.0 <==> r.1 > 0.0
      ensures Valid() ==>
        r == Decide(Normalize(spoken), Normalize(expected), TableHit(Normalize(spoken), Normalize(expected)), false)
    {
      var s := Normalize(spoken);
      var e := Normalize(expected);
      var reverseHit := s in phraseToResponses && e in phraseToResponses[s];
      var tableHit := TableHit(s, e);
      ReverseHitIsTableHit(phraseToResponses, s, e);
      DecideReverseRedundant(s, e, tableHit, reverseHit);
      Decide(s, e, tableHit, reverseHit)
    }

    /** `match` with the table keys normalised before they are compared. */
    function MatchNormalisedKeys(spoken: string, expected: string): (r: (bool, real))
      reads this
      ensures r.0 <==> r.1 > 0.0
    {
      var s := Normalize(spoken);
      var e := Normalize(expected);
      Decide(s, e, NormalisedTableHit(s, e), s in phraseToResponses && e in phraseToResponses[s])
    }

    /**
     * `get_accepted_phrases`: the universal replies and the phrases listed
     * for the normalised expected response, each once.
     */
    function AcceptedPhrases(expected: string): (r: seq<string>)
      ensures forall i, j :: 0 <= i < j < |r| ==> r[i] != r[j]
      ensures forall x :: x in r <==>
        x in UniversalResponses ||
        (Normalize(expected) in ResponsePhrases && x in ResponsePhrases[Normalize(expected)])
    {
      var e := Normalize(expected);
      Dedup(UniversalResponses + (if e in ResponsePhrases then ResponsePhrases[e] else []))
    }
  }

  /** A reply containing any accepted phrase is accepted, with confidence at least 0.8. */
  lemma AcceptedPhraseInReplyMatches(m: ResponseMatcher, spoken: string, expected: string, phrase: string)
    requires m.Valid()
    requires phrase in m.AcceptedPhrases(expected) && Contains(Normalize(spoken), phrase)
    ensures m.Match(spoken, expected).0 && m.Match(spoken, expected).1 >= 0.8
  {
    var s := Normalize(spoken);
    var e := Normalize(expected);
    if phrase in UniversalResponses {
      assert HasUniversal(s);
    } else {
      assert TableHit(s, e);
    }
  }

  /** Saying nothing is accepted for every expected response that is a table key. */
  lemma SilenceAccepted(m: ResponseMatcher, spoken: string, expected: string)
    requires m.Valid()
    requires Normalize(spoken) == [] && Normalize(expected) in ResponsePhrases
    ensures m.Match(spoken, expected).0
  {
    var sn, en := Normalize(spoken), Normalize(expected);
    PhraseListsNonEmpty(en);
    SilenceHitsAnyList(ResponsePhrases[en]);
    assert TableHit(sn, en);
    assert m.Match(spoken, expected) == Decide(sn, en, true, false);
    DecideAcceptsTableHit(sn, en, false);
  }

  /** The empty reply occurs in every phrase. */
  lemma SilenceHitsAnyList(phrases: seq<string>)
    requires phrases != []
    ensures PhraseHit([], phrases)
  {
    assert Contains(phrases[0], []);
  }

  lemma PhraseListsNonEmpty(key: string)
    requires key in ResponsePhrases
    ensures ResponsePhrases[key] != []
  {
  }

  lemma CoveredWordsOverlap(spoken: string, expected: string)
    requires Words(expected) != {} && Words(expected) <= Words(spoken)
    ensures WordOverlap(expected, spoken)
  {
    assert Words(expected) * Words(spoken) == Words(expected);
  }

  lemma DecideAcceptsOverlap(spoken: string, expected: string, tableHit: bool, reverseHit: bool)
    requires WordOverlap(expected, spoken)
    ensures Decide(spoken, expected, tableHit, reverseHit).0
  {
  }

  lemma DecideAcceptsTableHit(spoken: string, expected: string, reverseHit: bool)
    ensures Decide(spoken, expected, true, reverseHit).0
  {
  }

  /** A reply that holds every expected word is accepted. */
  lemma AllExpectedWordsSpoken(m: ResponseMatcher, spoken: string, expected: string)
    requires m.Valid()
    requires Words(Normalize(expected)) != {} && Words(Normalize(expected)) <= Words(Normalize(spoken))
    ensures m.Match(spoken, expected).0
  {
    var s := Normalize(spoken);
    var e := Normalize(expected);
    CoveredWordsOverlap(s, e);
    DecideAcceptsOverlap(s, e, TableHit(s, e), false);
  }

  lemma NormalisedHitFromListedPhrase(spoken: string, response: string, phrase: string)
    requires response in ResponsePhrases && phrase in ResponsePhrases[response]
    requires Contains(spoken, phrase)
    ensures NormalisedTableHit(spoken, Normalize(response))
  {
  }

  /** A reply containing a phrase listed for a response is accepted once keys are normalised. */
  lemma ListedPhraseAccepted(m: ResponseMatcher, spoken: string, response: string, phrase: string)
    requires response in ResponsePhrases && phrase in ResponsePhrases[response]
    requires Contains(Normalize(spoken), phrase)
    ensures m.MatchNormalisedKeys(spoken, response).0
  {
    var s := Normalize(spoken);
    var e := Normalize(response);
    NormalisedHitFromListedPhrase(s, response, phrase);
    var reverseHit := s in m.phraseToResponses && e in m.phraseToResponses[s];
    assert m.MatchNormalisedKeys(spoken, response) == Decide(s, e, true, reverseHit);
    DecideAcceptsTableHit(s, e, reverseHit);
  }

  lemma LowerTOExample()
    ensures Lower("T.O.") == "t.o."
  {
    assert "T.O."[1..] == ".O." && ".O."[1..] == "O." && "O."[1..] == "." && "."[1..] == "";
    assert Lower(".") == ".";
    assert Lower("O.") == "o.";
    assert Lower(".O.") == ".o.";
  }

  lemma StripTOExample()
    ensures Strip("t.o.") == "t.o."
  {
    assert !IsSpace("t.o."[0]) && !IsSpace("t.o."[3]);
  }

  lemma RemovePunctuationTOExample()
    ensures RemovePunctuation("t.o.") == "to"
  {
    assert "t.o."[1..] == ".o." && ".o."[1..] == "o." && "o."[1..] == "." && "."[1..] == "";
    assert RemovePunctuation(".") == "";
    assert RemovePunctuation("o.") == "o";
    assert RemovePunctuation(".o.") == "o";
  }

  lemma NormalizeTOExample()
    ensures Normalize("T.O.") == "to"
  {
    LowerTOExample();
    StripTOExample();
    RemovePunctuationTOExample();
    CollapseToExample();
  }

  lemma CollapseToExample()
    ensures Collapse("to") == "to"
  {
    assert "to"[1..] == "o" && "o"[1..] == "";
    assert Collapse("o") == "o";
  }

  lemma NormalizeTSpaceOExample()
    ensures Normalize("t o") == "t o"
  {
    assert Clean("t o");
    CleanIsNormal("t o");
  }

  lemma ListedForTO()
    ensures "t o" in ResponsePhrases["t.o."]
  {
  }

  lemma SplitToExample()
    ensures Split("to") == ["to"]
  {
    assert "to"[1..] == "o" && "o"[1..] == "" && "to"[2..] == "";
    assert TrimStart("to") == "to";
    assert TakeWord("o") == "o";
    assert TakeWord("to") == "to";
    assert TrimStart("") == "";
  }

  lemma NoUniversalInTSpaceO()
    ensures !HasUniversal("t o")
  {
    assert "t o"[..3] == "t o" && "t o"[1..] == " o";
    assert !Contains("t o", "set") && !Contains("t o", "yes");
  }

  /** A one-word expected text that does not occur in the reply shares no word with it. */
  lemma SingleWordNotSpoken(expected: string, spoken: string)
    requires Words(expected) == {expected} && !Contains(spoken, expected)
    ensures !WordOverlap(expected, spoken)
  {
    SplitWordsOccur(spoken);
    assert Words(expected) * Words(spoken) == {};
  }

  lemma WordsToExample()
    ensures Words("to") == {"to"}
  {
    SplitToExample();
    WordsOfOneWord("to");
  }

  lemma WordsOfOneWord(s: string)
    requires Split(s) == [s]
    ensures Words(s) == {s}
  {
    assert s in Split(s);
  }

  lemma ToNotInTSpaceO()
    ensures !Contains("t o", "to")
  {
    assert "t o"[..2][1] != "to"[1] && "t o"[1..] == " o";
    assert " o"[..2][0] != "to"[0] && " o"[1..] == "o";
    assert !Contains("o", "to");
  }

  lemma NoOverlapTSpaceO()
    ensures !WordOverlap("to", "t o")
  {
    WordsToExample();
    ToNotInTSpaceO();
    SingleWordNotSpoken("to", "t o");
  }

  lemma ToNotAKey()
    ensures !TableHit("t o", "to")
  {
    assert "to" !in ResponsePhrases;
  }

  lemma DecideRejectsTSpaceO()
    ensures Decide("t o", "to", TableHit("t o", "to"), false) == (false, 0.0)
  {
    NoUniversalInTSpaceO();
    ToNotAKey();
    NoOverlapTSpaceO();
  }

  /**
   * As written, the phrase "t o" listed for the table key "t.o." is refused
   * for the expected response "T.O.": that key differs from every
   * normalised text, so its phrase list is never consulted.
   */
  lemma ListedPhraseRejected(m: ResponseMatcher)
    requires m.Valid()
    ensures "t o" in ResponsePhrases["t.o."]
    ensures m.Match("t o", "T.O.") == (false, 0.0)
  {
    NormalizeTSpaceOExample();
    NormalizeTOExample();
    DecideRejectsTSpaceO();
    ListedForTO();
  }
}
