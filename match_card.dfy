/** The match card (frontend/src/components/match-card.tsx): the three-letter team codes,
    the sport badge's class and what the card shows for a match and the stored
    predictions. */
module MatchCard {
  import opened Wrappers
  import opened Js
  import opened ClientFilters
  import opened Predictions

  // ---------------------------------------------------------------------------
  // Team codes

  /** `word[0]`, with `undefined` for an empty word written as "" by `join`. */
  function Initial(word: string): (r: string)
    ensures |r| <= 1 && (r == [] <==> word == [])
    ensures r != [] ==> r[0] == word[0]
  {
    if word == [] then "" else [word[0]]
  }

  /** `words.map(word => word[0])`. */
  function Initials(words: seq<string>): (r: seq<string>)
    ensures |r| == |words|
    ensures forall i :: 0 <= i < |words| ==> r[i] == Initial(words[i])
  {
    if words == [] then [] else [Initial(words[0])] + Initials(words[1..])
  }

  /** `.slice(0, 3)`. */
  function Take3(s: string): (r: string)
    ensures |r| <= 3 && r <= s
    ensures |s| <= 3 ==> r == s
  {
    if |s| <= 3 then s else s[..3]
  }

  /** `name.split(" ").map(w => w[0]).join("").toUpperCase().slice(0, 3)`. */
  function TeamCode(name: string): (r: string)
    ensures |r| <= 3
  {
    Take3(ToUpper(Join(Initials(Split(name)), "")))
  }

  /** The reference reading: the first character of every run of non-spaces, in order.
      `atStart` says that the previous character was a space (or that there was none). */
  function WordStarts(s: string, atStart: bool): (r: string)
    ensures |r| <= |s|
  {
    if s == [] then []
    else if s[0] == ' ' then WordStarts(s[1..], true)
    else (if atStart then [s[0]] else []) + WordStarts(s[1..], false)
  }

  lemma JoinFront(a: string, parts: seq<string>)
    ensures Join([a] + parts, "") == a + Join(parts, "")
  {
    if parts != [] {
      assert ([a] + parts)[1..] == parts;
    }
  }

  /** The segments after the first give the word starts after the first word. */
  lemma {:induction false} InitialsOfLaterSegments(s: string)
    ensures Join(Initials(Split(s)[1..]), "") == WordStarts(s, false)
  {
    if s == [] {
    } else if s[0] == ' ' {
      assert Split(s)[1..] == Split(s[1..]);
      InitialsOfSegments(s[1..]);
    } else {
      var rest := Split(s[1..]);
      assert Split(s)[1..] == rest[1..];
      InitialsOfLaterSegments(s[1..]);
    }
  }

  /** Joining the initials of the segments gives exactly the word starts: empty segments,
      from leading or repeated spaces, contribute nothing. */
  lemma {:induction false} InitialsOfSegments(s: string)
    ensures Join(Initials(Split(s)), "") == WordStarts(s, true)
  {
    if s == [] {
      assert Split(s) == [""];
      assert Initials([""]) == [""];
    } else if s[0] == ' ' {
      var rest := Split(s[1..]);
      assert Split(s) == [""] + rest;
      assert Initials(Split(s)) == [""] + Initials(rest);
      JoinFront("", Initials(rest));
      InitialsOfSegments(s[1..]);
    } else {
      var rest := Split(s[1..]);
      var first := [s[0]] + rest[0];
      assert Split(s) == [first] + rest[1..];
      assert Initials(Split(s)) == [[s[0]]] + Initials(rest[1..]);
      JoinFront([s[0]], Initials(rest[1..]));
      InitialsOfLaterSegments(s[1..]);
    }
  }

  /** A team code is the upper-cased word starts of the name, cut after three. */
  lemma TeamCodeIsWordStarts(name: string)
    ensures TeamCode(name) == Take3(ToUpper(WordStarts(name, true)))
    ensures |TeamCode(name)| == if |WordStarts(name, true)| < 3 then |WordStarts(name, true)| else 3
  {
    InitialsOfSegments(name);
  }

  /** Each character of a code is the upper-cased first character of a word of the name,
      and the words are taken in order. */
  lemma TeamCodeCharacters(name: string)
    ensures forall i :: 0 <= i < |TeamCode(name)| ==>
              i < |WordStarts(name, true)| && TeamCode(name)[i] == UpperChar(WordStarts(name, true)[i])
  {
    TeamCodeIsWordStarts(name);
  }

  /** The first character of each word. */
  function Firsts(words: seq<string>): (r: string)
    requires forall i :: 0 <= i < |words| ==> words[i] != []
    ensures |r| == |words|
  {
    if words == [] then [] else [words[0][0]] + Firsts(words[1..])
  }

  /** Words without spaces, joined by single spaces: the code is the upper-cased first
      characters of the first three words. */
  lemma SpacedWordsName(words: seq<string>)
    requires forall i :: 0 <= i < |words| ==> words[i] != [] && ' ' !in words[i]
    ensures TeamCode(Join(words, " ")) == Take3(ToUpper(Firsts(words)))
    ensures |TeamCode(Join(words, " "))| == if |words| < 3 then |words| else 3
  {
    WordStartsOfJoin(words);
    TeamCodeIsWordStarts(Join(words, " "));
  }

  lemma {:induction false} WordStartsOfJoin(words: seq<string>)
    requires forall i :: 0 <= i < |words| ==> words[i] != [] && ' ' !in words[i]
    ensures WordStarts(Join(words, " "), true) == Firsts(words)
  {
    if |words| == 1 {
      WordStartsOfWord(words[0], [], true);
      assert words[0] + [] == words[0];
    } else if |words| > 1 {
      WordThenRest(words[0], Join(words[1..], " "));
      WordStartsOfJoin(words[1..]);
    }
  }

  /** A word and a space: the word's first character, then the starts of what follows. */
  lemma WordThenRest(w: string, rest: string)
    requires w != [] && ' ' !in w
    ensures WordStarts(w + " " + rest, true) == [w[0]] + WordStarts(rest, true)
  {
    assert w + " " + rest == w + (" " + rest);
    WordStartsOfWord(w, " " + rest, true);
    WordStartsAfterSpace(rest, false);
  }

  /** A space starts a new word. */
  lemma WordStartsAfterSpace(rest: string, atStart: bool)
    ensures WordStarts(" " + rest, atStart) == WordStarts(rest, true)
  {
    assert (" " + rest)[1..] == rest;
  }

  /** A word without spaces contributes its first character (when at a word start) and
      nothing else. */
  lemma {:induction false} WordStartsOfWord(w: string, rest: string, atStart: bool)
    requires w != [] && ' ' !in w
    ensures WordStarts(w + rest, atStart) == (if atStart then [w[0]] else []) + WordStarts(rest, false)
    decreases |w|
  {
    assert (w + rest)[0] == w[0];
    assert (w + rest)[1..] == w[1..] + rest;
    if |w| > 1 {
      WordStartsOfWord(w[1..], rest, false);
    }
  }

  // ---------------------------------------------------------------------------
  // The sport badge

  const DefaultSportClass := "bg-primary text-primary-foreground"

  /** `sportColors`. */
  const SportColors: seq<(string, string)> := [
    ("Basketball", "bg-orange-500 text-white"),
    ("Football", "bg-green-600 text-white"),
    ("Soccer", "bg-blue-600 text-white"),
    ("Baseball", "bg-red-600 text-white")
  ]

  function LookupColor(table: seq<(string, string)>, sport: string): (r: Option<string>)
    ensures r.None? <==> forall i :: 0 <= i < |table| ==> table[i].0 != sport
    ensures r.Some? ==> exists i :: 0 <= i < |table| && table[i] == (sport, r.value)
  {
    if table == [] then None
    else if table[0].0 == sport then Some(table[0].1)
    else
      var r := LookupColor(table[1..], sport);
      assert r.Some? ==> exists i :: 0 <= i < |table[1..]| && table[1..][i] == (sport, r.value);
      r
  }

  /** `sportColors[sport] || default`. */
  function SportClass(sport: string): (r: string)
    ensures r == DefaultSportClass || exists i :: 0 <= i < |SportColors| && SportColors[i] == (sport, r)
  {
    LookupColor(SportColors, sport).GetOr(DefaultSportClass)
  }

  /** A sport of the table gets its own class; any other sport gets the default. */
  lemma SportClassTable(sport: string)
    ensures sport == "Basketball" ==> SportClass(sport) == "bg-orange-500 text-white"
    ensures sport == "Football" ==> SportClass(sport) == "bg-green-600 text-white"
    ensures sport == "Soccer" ==> SportClass(sport) == "bg-blue-600 text-white"
    ensures sport == "Baseball" ==> SportClass(sport) == "bg-red-600 text-white"
    ensures (forall i :: 0 <= i < |SportColors| ==> SportColors[i].0 != sport) ==>
              SportClass(sport) == DefaultSportClass
  {
  }

  /** Only the default class is given to a sport outside the table. */
  lemma DefaultOnlyOutsideTable(sport: string)
    ensures SportClass(sport) == DefaultSportClass <==>
              forall i :: 0 <= i < |SportColors| ==> SportColors[i].0 != sport
  {
    var r := LookupColor(SportColors, sport);
    if r.Some? {
      var i :| 0 <= i < |SportColors| && SportColors[i] == (sport, r.value);
      ColorIsNotDefault(i);
    }
  }

  /** No class of the table is the default one. */
  lemma ColorIsNotDefault(i: int)
    requires 0 <= i < |SportColors|
    ensures SportColors[i].1 != DefaultSportClass
  {
    assert DefaultSportClass[3] == 'p';
    if i < 2 {
      assert i == 0 || i == 1;
    } else {
      assert i == 2 || i == 3;
    }
    assert SportColors[i].1[3] != 'p';
  }

  // ---------------------------------------------------------------------------
  // The card

  /** What a card shows, apart from layout: the badge class, the "Predicted" badge, the
      two codes, the scores, the odds and the button label. */
  datatype CardView = CardView(
    sportClass: string,
    predictedBadge: bool,
    homeCode: string,
    awayCode: string,
    homeScore: Option<int>,
    awayScore: Option<int>,
    homeOdds: Option<real>,
    awayOdds: Option<real>,
    buttonLabel: string)

  /** The key the card and its form use: `match.id` as a property name. */
  function PredictionKey(m: Match): string {
    NumberToString(m.id)
  }

  function ShowCard(m: Match, predictions: Store): (v: CardView)
    ensures v.predictedBadge <==> PredictionKey(m) in predictions
    ensures v.buttonLabel == (if PredictionKey(m) in predictions then "Edit Prediction" else "Make Prediction")
    ensures v.homeOdds.Some? <==> v.predictedBadge
    ensures v.homeOdds.Some? ==> v.homeOdds.value == predictions[PredictionKey(m)].teamA &&
                                 v.awayOdds == Some(predictions[PredictionKey(m)].teamB)
    ensures v.awayOdds.Some? <==> v.predictedBadge
    ensures v.homeScore.Some? <==> m.status == "completed"
    ensures v.homeScore.Some? ==> v.homeScore.value == m.homeScore && v.awayScore == Some(m.awayScore)
    ensures v.awayScore.Some? <==> m.status == "completed"
    ensures v.homeCode == TeamCode(m.homeTeamName) && v.awayCode == TeamCode(m.awayTeamName)
    ensures v.sportClass == SportClass(m.sportName)
  {
    var key := PredictionKey(m);
    var prediction := if key in predictions then Some(predictions[key]) else None;
    var completed := m.status == "completed";
    CardView(
      SportClass(m.sportName),
      prediction.Some?,
      TeamCode(m.homeTeamName),
      TeamCode(m.awayTeamName),
      if completed then Some(m.homeScore) else None,
      if completed then Some(m.awayScore) else None,
      if prediction.Some? then Some(prediction.value.teamA) else None,
      if prediction.Some? then Some(prediction.value.teamB) else None,
      if prediction.Some? then "Edit Prediction" else "Make Prediction")
  }

  /** Home and away codes follow one rule: swapping the teams swaps the codes. */
  lemma SwappedTeamsSwapCodes(m: Match, predictions: Store)
    ensures var swapped := m.(homeTeamName := m.awayTeamName, awayTeamName := m.homeTeamName);
            ShowCard(swapped, predictions).homeCode == ShowCard(m, predictions).awayCode &&
            ShowCard(swapped, predictions).awayCode == ShowCard(m, predictions).homeCode
  {
  }

  /** After a save under the card's key the card shows the saved pair; after a clear it
      offers a new prediction. */
  lemma CardFollowsStore(m: Match, predictions: Store, p: Prediction)
    ensures ShowCard(m, SavePrediction(predictions, PredictionKey(m), p)).homeOdds == Some(p.teamA)
    ensures ShowCard(m, SavePrediction(predictions, PredictionKey(m), p)).awayOdds == Some(p.teamB)
    ensures !ShowCard(m, ClearPrediction(predictions, PredictionKey(m))).predictedBadge
    ensures ShowCard(m, ClearPrediction(predictions, PredictionKey(m))).buttonLabel == "Make Prediction"
  {
  }
}
