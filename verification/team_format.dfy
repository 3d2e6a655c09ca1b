/**
  The team-format scanner shared by the two `parse_team_format` functions (server.py and
  gateway_bot.py).  Both search text for the leftmost run of the shape `2v2v2`, a digit
  run followed by one or more groups of a separator `v` and a digit run, and read the
  digit runs as team sizes.  `ignoreCase` says whether `V` also separates (server.py
  passes `re.IGNORECASE`).

  Python's `re.search` returns the match starting at the leftmost position.  A position
  inside a digit run matches exactly when the start of that run does (both see the same
  run end), and once a match starts the greedy groups never need to back off, so the
  match is: the maximal digit run at the start, then every `v<digits>` group that
  follows, each digit run maximal.
*/
module TeamFormat {
  import opened Wrappers

  /** `\d` restricted to ASCII digits. */
  predicate IsDigit(c: char) {
    '0' <= c <= '9'
  }

  predicate AllDigits(d: string) {
    forall k :: 0 <= k < |d| ==> IsDigit(d[k])
  }

  /** End of the maximal digit run that starts at `i`. */
  function RunEnd(s: string, i: nat): (j: nat)
    requires i <= |s|
    ensures i <= j <= |s|
    ensures forall k :: i <= k < j ==> IsDigit(s[k])
    ensures j == |s| || !IsDigit(s[j])
    decreases |s| - i
  {
    if i < |s| && IsDigit(s[i]) then RunEnd(s, i + 1) else i
  }

  function DigitValue(c: char): nat
    requires IsDigit(c)
  {
    c as int - '0' as int
  }

  /** Python's `int(d)` for a non-empty string of ASCII digits. */
  function DecimalValue(d: string): nat
    requires AllDigits(d)
  {
    if d == [] then 0 else DecimalValue(d[..|d| - 1]) * 10 + DigitValue(d[|d| - 1])
  }

  /** The separator `v` (and `V` when matching ignores case). */
  predicate IsSep(c: char, ignoreCase: bool) {
    c == 'v' || (ignoreCase && c == 'V')
  }

  /** A separator at `j` immediately followed by a digit. */
  predicate SepDigitAt(s: string, j: nat, ignoreCase: bool) {
    j + 1 < |s| && IsSep(s[j], ignoreCase) && IsDigit(s[j + 1])
  }

  /** The sizes read by the repeated `v\d+` groups starting at `j`. */
  function Tail(s: string, j: nat, ignoreCase: bool): seq<nat>
    requires j <= |s|
    decreases |s| - j
  {
    if SepDigitAt(s, j, ignoreCase) then
      var k := RunEnd(s, j + 1);
      [DecimalValue(s[j + 1..k])] + Tail(s, k, ignoreCase)
    else []
  }

  /** The sizes of a match starting at `i`, or `None` when the pattern does not match there. */
  function MatchAt(s: string, i: nat, ignoreCase: bool): (r: Option<seq<nat>>)
    requires i <= |s|
    ensures r.Some? ==> |r.value| >= 2
  {
    if i < |s| && IsDigit(s[i]) then
      var j := RunEnd(s, i);
      if SepDigitAt(s, j, ignoreCase) then Some([DecimalValue(s[i..j])] + Tail(s, j, ignoreCase))
      else None
    else None
  }

  /** No match starts at any position in `[i, k)`. */
  predicate NoMatchIn(s: string, i: nat, k: nat, ignoreCase: bool)
    requires k <= |s| + 1
  {
    forall m :: i <= m < k ==> MatchAt(s, m, ignoreCase).None?
  }

  /**
    The leftmost position from `i` on where a match starts, or `|s|` when there is none
    (no match can start at the very end).
  */
  function FirstMatch(s: string, i: nat, ignoreCase: bool): (k: nat)
    requires i <= |s|
    ensures i <= k <= |s|
    ensures NoMatchIn(s, i, k, ignoreCase)
    ensures k < |s| ==> MatchAt(s, k, ignoreCase).Some?
    decreases |s| - i
  {
    if i == |s| || MatchAt(s, i, ignoreCase).Some? then i
    else
      var k := FirstMatch(s, i + 1, ignoreCase);
      assert NoMatchIn(s, i, k, ignoreCase) by {
        forall m | i <= m < k
          ensures MatchAt(s, m, ignoreCase).None?
        {
          if m != i {
            assert i + 1 <= m < k;
          }
        }
      }
      k
  }

  /** `re.search` from position `i`: the match at the leftmost position that has one. */
  function SearchFrom(s: string, i: nat, ignoreCase: bool): (r: Option<seq<nat>>)
    requires i <= |s|
    ensures r.None? <==> NoMatchIn(s, i, |s| + 1, ignoreCase)
    ensures r.Some? ==> |r.value| >= 2
  {
    MatchAt(s, FirstMatch(s, i, ignoreCase), ignoreCase)
  }

  /** The parsed format `(team_size, num_teams, total_needed)`. */
  datatype Teams = Teams(teamSize: nat, numTeams: nat, totalNeeded: nat)

  /** Every size equals the first. */
  predicate Uniform(sizes: seq<nat>) {
    forall k :: 0 <= k < |sizes| ==> sizes[k] == sizes[0]
  }

  /** The common tail of both parsers: reject uneven teams, otherwise count them. */
  function FromSizes(sizes: seq<nat>): (r: Option<Teams>)
    requires |sizes| >= 2
    ensures r.Some? <==> Uniform(sizes)
    ensures r.Some? ==> r.value.teamSize == sizes[0] && r.value.numTeams == |sizes| >= 2
                        && r.value.totalNeeded == r.value.teamSize * r.value.numTeams
  {
    if Uniform(sizes) then Some(Teams(sizes[0], |sizes|, sizes[0] * |sizes|)) else None
  }

  // ---- Rendering, used to state the parsers' round trip ----

  /** The decimal digits of `n`, as `str(n)` writes them. */
  function ShowNat(n: nat): (d: string)
    ensures |d| >= 1 && AllDigits(d)
    ensures DecimalValue(d) == n
  {
    if n < 10 then [('0' as int + n) as char]
    else
      var d := ShowNat(n / 10) + [('0' as int + n % 10) as char];
      assert d[..|d| - 1] == ShowNat(n / 10);
      d
  }

  /** `"v" + str(x)` for every size after the first. */
  function RenderTail(xs: seq<nat>): string {
    if xs == [] then "" else "v" + ShowNat(xs[0]) + RenderTail(xs[1..])
  }

  /** The format string for `sizes`, e.g. `[2, 2, 2]` as `2v2v2`. */
  function Render(sizes: seq<nat>): string
    requires sizes != []
  {
    ShowNat(sizes[0]) + RenderTail(sizes[1..])
  }

  lemma RenderTailStart(xs: seq<nat>)
    ensures RenderTail(xs) == [] || RenderTail(xs)[0] == 'v'
  {
  }

  /** A digit string placed at `i` and followed by a non-digit (or the end) is a maximal run. */
  lemma {:induction false} RunEndOf(s: string, i: nat, d: string)
    requires i + |d| <= |s| && s[i..i + |d|] == d && AllDigits(d)
    requires i + |d| == |s| || !IsDigit(s[i + |d|])
    ensures RunEnd(s, i) == i + |d|
    decreases |d|
  {
    if d != [] {
      assert s[i] == d[0];
      assert s[i + 1..i + 1 + |d[1..]|] == d[1..];
      RunEndOf(s, i + 1, d[1..]);
    }
  }

  /** The three parts of a suffix that is a concatenation, located in the whole string. */
  lemma SuffixParts(s: string, j: nat, a: string, b: string, c: string)
    requires j <= |s| && s[j..] == a + b + c
    ensures j + |a| + |b| <= |s|
    ensures s[j..j + |a|] == a && s[j + |a|..j + |a| + |b|] == b && s[j + |a| + |b|..] == c
  {
    assert s[j..][..|a|] == a;
    assert s[j..][|a|..|a| + |b|] == b;
    assert s[j..][|a| + |b|..] == c;
  }

  /** The first group of a rendered tail: a separator, then the maximal digit run of its size. */
  lemma RenderTailGroup(s: string, j: nat, xs: seq<nat>)
    requires j <= |s| && s[j..] == RenderTail(xs) && xs != []
    ensures var k := j + 1 + |ShowNat(xs[0])|;
            && k <= |s| && s[j] == 'v' && IsDigit(s[j + 1])
            && RunEnd(s, j + 1) == k && s[j + 1..k] == ShowNat(xs[0])
            && s[k..] == RenderTail(xs[1..])
  {
    var d := ShowNat(xs[0]);
    var k := j + 1 + |d|;
    SuffixParts(s, j, "v", d, RenderTail(xs[1..]));
    assert s[j] == s[j..j + 1][0];
    assert s[j + 1] == d[0];
    RenderTailStart(xs[1..]);
    if k < |s| {
      assert s[k] == s[k..][0];
    }
    RunEndOf(s, j + 1, d);
  }

  /** One group of `Tail`: the size read at `j`, then the groups after its digit run. */
  lemma TailUnfold(s: string, j: nat, ignoreCase: bool, k: nat)
    requires j <= |s| && SepDigitAt(s, j, ignoreCase) && RunEnd(s, j + 1) == k
    ensures Tail(s, j, ignoreCase) == [DecimalValue(s[j + 1..k])] + Tail(s, k, ignoreCase)
  {
  }

  /** The groups of a rendered tail read back as the sizes that produced them. */
  lemma {:induction false} TailOfRender(s: string, j: nat, xs: seq<nat>, ignoreCase: bool)
    requires j <= |s| && s[j..] == RenderTail(xs)
    ensures Tail(s, j, ignoreCase) == xs
    decreases |xs|
  {
    if xs == [] {
      assert s[j..] == [];
    } else {
      RenderTailGroup(s, j, xs);
      var d := ShowNat(xs[0]);
      var k := j + 1 + |d|;
      assert SepDigitAt(s, j, ignoreCase);
      assert DecimalValue(s[j + 1..k]) == xs[0];
      TailOfRender(s, k, xs[1..], ignoreCase);
      TailUnfold(s, j, ignoreCase, k);
    }
  }

  /** Searching a rendered format finds it at position 0 and reads back its sizes. */
  lemma SearchRender(sizes: seq<nat>, ignoreCase: bool)
    requires |sizes| >= 2
    ensures SearchFrom(Render(sizes), 0, ignoreCase) == Some(sizes)
  {
    var s := Render(sizes);
    var d := ShowNat(sizes[0]);
    SuffixParts(s, 0, d, "", RenderTail(sizes[1..]));
    RenderTailGroup(s, |d|, sizes[1..]);
    RunEndOf(s, 0, d);
    TailOfRender(s, |d|, sizes[1..], ignoreCase);
    assert s[0..|d|] == d;
    assert MatchAt(s, 0, ignoreCase) == Some([sizes[0]] + sizes[1..]);
    assert [sizes[0]] + sizes[1..] == sizes;
    assert FirstMatch(s, 0, ignoreCase) == 0;
  }
}
