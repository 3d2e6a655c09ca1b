/**
  gateway_bot.py's `parse_team_format`, applied there to lower-cased message content.

  It first searches for `((?:\d+v)+\d+)` (lower-case `v` only) and reads every digit run
  of the match; when that finds nothing it retries with `(\d+)v(\d+)`.  A match of the
  second pattern is a match of the first, so the retry never succeeds; it is modelled
  anyway and `FallbackNeverFires` proves it dead.
*/
module GatewayTeams {
  import opened Wrappers
  import opened Text
  import opened TeamFormat
  import ServerText

  /** A `(\d+)v(\d+)` match starting at `i`: the two digit runs. */
  function PairAt(s: string, i: nat): (r: Option<seq<nat>>)
    requires i <= |s|
    ensures r.Some? ==> |r.value| == 2
    ensures r.Some? <==> MatchAt(s, i, false).Some?
  {
    if i < |s| && IsDigit(s[i]) then
      var j := RunEnd(s, i);
      if SepDigitAt(s, j, false) then
        var k := RunEnd(s, j + 1);
        Some([DecimalValue(s[i..j]), DecimalValue(s[j + 1..k])])
      else None
    else None
  }

  /** `re.search(r'(\d+)v(\d+)', s)` from position `i`. */
  function PairSearch(s: string, i: nat): (r: Option<seq<nat>>)
    requires i <= |s|
    ensures r.None? <==> forall m :: i <= m <= |s| ==> PairAt(s, m).None?
    ensures r.Some? ==> |r.value| == 2
    decreases |s| - i
  {
    if PairAt(s, i).Some? then PairAt(s, i)
    else if i == |s| then None
    else PairSearch(s, i + 1)
  }

  /** gateway_bot.py's `parse_team_format`, both searches and the evenness check. */
  function GatewayParseTeamFormat(text: string): (r: Option<Teams>)
    ensures SearchFrom(text, 0, false).None? ==> r.None?
    ensures SearchFrom(text, 0, false).Some? ==>
              var sizes := SearchFrom(text, 0, false).value;
              && (r.Some? <==> Uniform(sizes))
              && (r.Some? ==> r.value.teamSize == sizes[0] && r.value.numTeams == |sizes|)
    ensures r.Some? ==> r.value.numTeams >= 2 && r.value.totalNeeded == r.value.teamSize * r.value.numTeams
  {
    match SearchFrom(text, 0, false)
    case Some(sizes) => CountTeams(sizes)
    case None =>
      FallbackNeverFires(text);
      match PairSearch(text, 0)
      case None => None
      case Some(pair) => CountTeams(pair)
  }

  /**
    The tail of the gateway parser: `None` for no sizes or uneven sizes, otherwise
    `(size, count, size * count)`.
  */
  function CountTeams(sizes: seq<nat>): (r: Option<Teams>)
    ensures r.Some? <==> sizes != [] && Uniform(sizes)
    ensures |sizes| >= 2 ==> r == FromSizes(sizes)
    ensures r.Some? ==> r.value.numTeams == |sizes| && r.value.totalNeeded == r.value.teamSize * |sizes|
  {
    if sizes == [] then None
    else if !Uniform(sizes) then None
    else Some(Teams(sizes[0], |sizes|, sizes[0] * |sizes|))
  }

  /** When the first search finds nothing, neither does the retry. */
  lemma FallbackNeverFires(text: string)
    ensures SearchFrom(text, 0, false).None? ==> PairSearch(text, 0).None?
  {
    if SearchFrom(text, 0, false).None? {
      assert NoMatchIn(text, 0, |text| + 1, false);
      forall m | 0 <= m <= |text|
        ensures PairAt(text, m).None?
      {
        assert MatchAt(text, m, false).None?;
      }
    }
  }

  /**
    Two strings of equal length that agree on digits and on where separators stand:
    every digit of one is the same digit in the other, and separator positions coincide.
  */
  predicate SameShape(s: string, ics: bool, u: string, icu: bool) {
    |s| == |u|
    && forall k :: 0 <= k < |s| ==>
         (IsDigit(s[k]) <==> IsDigit(u[k])) && (IsDigit(s[k]) ==> s[k] == u[k])
         && (IsSep(s[k], ics) <==> IsSep(u[k], icu))
  }

  /** Lower-casing keeps digits, creates none and turns `V` into `v`. */
  lemma LowerSameShape(t: string)
    ensures SameShape(t, true, Lower(t), false)
  {
  }

  lemma {:induction false} RunEndSameShape(s: string, ics: bool, u: string, icu: bool, i: nat)
    requires SameShape(s, ics, u, icu) && i <= |s|
    ensures RunEnd(s, i) == RunEnd(u, i)
    ensures s[i..RunEnd(s, i)] == u[i..RunEnd(u, i)]
    decreases |s| - i
  {
    if i < |s| && IsDigit(s[i]) {
      RunEndSameShape(s, ics, u, icu, i + 1);
    }
  }

  lemma {:induction false} TailSameShape(s: string, ics: bool, u: string, icu: bool, j: nat)
    requires SameShape(s, ics, u, icu) && j <= |s|
    ensures Tail(s, j, ics) == Tail(u, j, icu)
    decreases |s| - j
  {
    if SepDigitAt(s, j, ics) {
      RunEndSameShape(s, ics, u, icu, j + 1);
      TailSameShape(s, ics, u, icu, RunEnd(s, j + 1));
    }
  }

  lemma MatchAtSameShape(s: string, ics: bool, u: string, icu: bool, i: nat)
    requires SameShape(s, ics, u, icu) && i <= |s|
    ensures MatchAt(s, i, ics) == MatchAt(u, i, icu)
  {
    if i < |s| && IsDigit(s[i]) {
      RunEndSameShape(s, ics, u, icu, i);
      TailSameShape(s, ics, u, icu, RunEnd(s, i));
    }
  }

  lemma {:induction false} FirstMatchSameShape(s: string, ics: bool, u: string, icu: bool, i: nat)
    requires SameShape(s, ics, u, icu) && i <= |s|
    ensures FirstMatch(s, i, ics) == FirstMatch(u, i, icu)
    decreases |s| - i
  {
    if i < |s| {
      MatchAtSameShape(s, ics, u, icu, i);
      if MatchAt(s, i, ics).None? {
        FirstMatchSameShape(s, ics, u, icu, i + 1);
        assert FirstMatch(s, i, ics) == FirstMatch(s, i + 1, ics);
        assert FirstMatch(u, i, icu) == FirstMatch(u, i + 1, icu);
      }
    }
  }

  lemma SearchSameShape(s: string, ics: bool, u: string, icu: bool, i: nat)
    requires SameShape(s, ics, u, icu) && i <= |s|
    ensures SearchFrom(s, i, ics) == SearchFrom(u, i, icu)
  {
    FirstMatchSameShape(s, ics, u, icu, i);
    MatchAtSameShape(s, ics, u, icu, FirstMatch(s, i, ics));
  }

  /**
    The two bots agree: the gateway parser on lower-cased text (as the gateway calls it)
    gives what server.py's case-insensitive parser gives on the original text.
  */
  lemma GatewayAgreesWithServer(text: string)
    ensures GatewayParseTeamFormat(Lower(text)) == ServerText.ParseTeamFormat(text)
  {
    LowerSameShape(text);
    SearchSameShape(text, true, Lower(text), false, 0);
    FallbackNeverFires(Lower(text));
  }
}
