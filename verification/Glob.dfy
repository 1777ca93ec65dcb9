/** A rule's patterns: `*` for any run of characters, `?` for one. */
module Glob {

  /** What a pattern means, said without any algorithm. */
  ghost predicate Matches(p: string, v: string)
    decreases |p|
  {
    if p == "" then v == ""
    else if p[0] == '*' then exists k :: 0 <= k <= |v| && Matches(p[1..], v[k..])
    else v != "" && MatchesChar(p[0], v[0]) && Matches(p[1..], v[1..])
  }

  predicate MatchesChar(p: char, v: char) { p == '?' || p == v }

  predicate StarFree(p: string) { forall i :: 0 <= i < |p| ==> p[i] != '*' }

  predicate CharByChar(p: string, v: string)
  {
    |p| == |v| && forall i :: 0 <= i < |p| ==> MatchesChar(p[i], v[i])
  }

  /** Some position at or after `from` where the rest of the pattern matches. */
  ghost predicate MatchesFrom(p: string, v: string, from: nat)
  {
    exists k :: from <= k <= |v| && Matches(p, v[k..])
  }

  lemma StarIsAnywhere(p: string, v: string, from: nat)
    requires p != "" && p[0] == '*' && from <= |v|
    ensures Matches(p, v[from..]) <==> MatchesFrom(p[1..], v, from)
  {
    if Matches(p, v[from..]) {
      var k :| 0 <= k <= |v[from..]| && Matches(p[1..], v[from..][k..]);
      assert v[from..][k..] == v[from + k..];
    }
    if MatchesFrom(p[1..], v, from) {
      var k :| from <= k <= |v| && Matches(p[1..], v[k..]);
      assert v[from..][k - from..] == v[k..];
    }
  }

  /** A star-free segment matches exactly its own length, character by character, and the rest follows. */
  lemma {:induction false} SegmentFirst(seg: string, rest: string, v: string)
    requires StarFree(seg)
    ensures Matches(seg + rest, v) <==> |v| >= |seg| && CharByChar(seg, v[..|seg|]) && Matches(rest, v[|seg|..])
  {
    if seg == "" {
      assert seg + rest == rest && v[0..] == v;
    } else if v != "" {
      assert (seg + rest)[1..] == seg[1..] + rest;
      SegmentFirst(seg[1..], rest, v[1..]);
      if |v| >= |seg| {
        assert v[1..][..|seg| - 1] == v[..|seg|][1..] && v[1..][|seg| - 1..] == v[|seg|..];
        assert forall i :: 0 < i < |seg| ==> seg[1..][i - 1] == seg[i] && v[..|seg|][1..][i - 1] == v[i];
        assert CharByChar(seg, v[..|seg|]) <==> MatchesChar(seg[0], v[0]) && CharByChar(seg[1..], v[1..][..|seg| - 1]) by {
          if MatchesChar(seg[0], v[0]) && CharByChar(seg[1..], v[1..][..|seg| - 1]) {
            forall i | 0 <= i < |seg| ensures MatchesChar(seg[i], v[..|seg|][i]) {
              if i > 0 {
                assert MatchesChar(seg[1..][i - 1], v[1..][..|seg| - 1][i - 1]);
              }
            }
          }
        }
      }
    }
  }

  /** Where the scan stands: the last star and where it is being tried from, and the star-free segment since,
      matched so far. The whole match is decided by what is left of that star's tries. */
  ghost predicate Standing(pat: string, val: string, p: nat, v: nat, star: int, mark: nat)
  {
    && -1 <= star < p <= |pat| && mark <= v <= |val|
    && (star >= 0 ==> pat[star] == '*')
    && p - (star + 1) == v - mark
    && StarFree(pat[star + 1..p]) && CharByChar(pat[star + 1..p], val[mark..v])
    && (star < 0 ==> mark == 0)
    && (Matches(pat, val) <==> if star < 0 then Matches(pat, val[mark..]) else MatchesFrom(pat[star + 1..], val, mark))
  }

  /** The current try succeeds exactly when what is left of pattern and value match. */
  lemma ThisTry(pat: string, val: string, p: nat, v: nat, star: int, mark: nat)
    requires Standing(pat, val, p, v, star, mark)
    ensures Matches(pat[star + 1..], val[mark..]) <==> Matches(pat[p..], val[v..])
  {
    var seg := pat[star + 1..p];
    assert pat[star + 1..] == seg + pat[p..];
    SegmentFirst(seg, pat[p..], val[mark..]);
    assert val[mark..][..|seg|] == val[mark..v] && val[mark..][|seg|..] == val[v..];
  }

  /** At another star the earlier one is done with: its earliest try leaves the most. */
  lemma NextStar(pat: string, val: string, p: nat, v: nat, star: int, mark: nat)
    requires Standing(pat, val, p, v, star, mark) && p < |pat| && pat[p] == '*'
    ensures Standing(pat, val, p + 1, v, p, v)
  {
    hide Matches;
    ThisTry(pat, val, p, v, star, mark);
    StarIsAnywhere(pat[p..], val, v);
    assert pat[p..][1..] == pat[p + 1..];
    if star >= 0 && MatchesFrom(pat[star + 1..], val, mark) {
      var k :| mark <= k <= |val| && Matches(pat[star + 1..], val[k..]);
      LaterTry(pat, val, p, star, k);
    } else if star < 0 {
      assert pat[0..] == pat && val[0..] == val;
    }
  }

  /** A try from `k` reaches the next star no earlier than its segment is long. */
  lemma LaterTry(pat: string, val: string, p: nat, star: int, k: nat)
    requires -1 <= star < p < |pat| && pat[p] == '*' && StarFree(pat[star + 1..p]) && k <= |val|
    requires Matches(pat[star + 1..], val[k..])
    ensures MatchesFrom(pat[p + 1..], val, k + (p - star - 1))
  {
    hide Matches;
    var seg := pat[star + 1..p];
    assert pat[star + 1..] == seg + pat[p..];
    SegmentFirst(seg, pat[p..], val[k..]);
    assert val[k..][|seg|..] == val[k + |seg|..];
    StarIsAnywhere(pat[p..], val, k + |seg|);
    assert pat[p..][1..] == pat[p + 1..];
  }

  lemma NextChar(pat: string, val: string, p: nat, v: nat, star: int, mark: nat)
    requires Standing(pat, val, p, v, star, mark) && p < |pat| && v < |val| && pat[p] != '*' && MatchesChar(pat[p], val[v])
    ensures Standing(pat, val, p + 1, v + 1, star, mark)
  {
    hide Matches, MatchesFrom;
    assert pat[star + 1..p + 1] == pat[star + 1..p] + [pat[p]];
    assert val[mark..v + 1] == val[mark..v] + [val[v]];
  }

  /** What is left cannot match: the pattern is spent, or its next character is another. */
  lemma StuckHere(pat: string, val: string, p: nat, v: nat)
    requires p <= |pat| && v < |val| && (p < |pat| ==> pat[p] != '*' && !MatchesChar(pat[p], val[v]))
    ensures !Matches(pat[p..], val[v..])
  {
  }

  lemma TryAgain(pat: string, val: string, p: nat, v: nat, star: int, mark: nat)
    requires Standing(pat, val, p, v, star, mark) && star >= 0 && v < |val| && !Matches(pat[p..], val[v..])
    ensures Standing(pat, val, star + 1, mark + 1, star, mark + 1)
  {
    hide Matches;
    ThisTry(pat, val, p, v, star, mark);
    if MatchesFrom(pat[star + 1..], val, mark) {
      var k :| mark <= k <= |val| && Matches(pat[star + 1..], val[k..]);
      assert k != mark;
    }
  }

  /** When the value is used up no later try is long enough. */
  lemma ValueUsedUp(pat: string, val: string, p: nat, star: int, mark: nat)
    requires Standing(pat, val, p, |val|, star, mark)
    ensures Matches(pat, val) <==> Matches(pat[p..], "")
  {
    hide Matches;
    assert val[|val|..] == "";
    ThisTry(pat, val, p, |val|, star, mark);
    if star < 0 {
      assert pat[0..] == pat;
    } else if MatchesFrom(pat[star + 1..], val, mark) {
      var k :| mark <= k <= |val| && Matches(pat[star + 1..], val[k..]);
      var seg := pat[star + 1..p];
      assert pat[star + 1..] == seg + pat[p..];
      SegmentFirst(seg, pat[p..], val[k..]);
      assert k == mark;
    }
  }

  lemma EmptyNeedsStars(pat: string, p: nat)
    requires p < |pat|
    ensures pat[p] == '*' ==> (Matches(pat[p..], "") <==> Matches(pat[p + 1..], ""))
    ensures pat[p] != '*' ==> !Matches(pat[p..], "")
  {
    assert pat[p..][1..] == pat[p + 1..];
    assert ""[0..] == "";
  }

  /** Decides a match backtracking only to the last star, in at most (|pattern|+1)*(|value|+1) turns. */
  method Decide(pat: string, val: string) returns (ok: bool, ghost turns: nat)
    ensures ok <==> pat == "" || Matches(pat, val)
    ensures turns <= (|pat| + 1) * (|val| + 1)
  {
    hide Matches, Standing, Grid;
    turns := 0;
    GridIs(|val|, |pat| + 1);
    if pat == "" {
      return true, 0;
    }
    var p, v, star, mark := 0, 0, -1, 0;
    Starts(pat, val);
    while v < |val|
      invariant 0 <= p <= |pat| && 0 <= mark <= v <= |val| && -1 <= star < p
      invariant Standing(pat, val, p, v, star, mark)
      invariant turns <= Grid(mark, |pat| + 1) + p
      decreases |val| - mark, |pat| - p
    {
      TurnsLeft(mark, |pat| + 1);
      if p < |pat| && pat[p] == '*' {
        NextStar(pat, val, p, v, star, mark);
        MoreTurns(mark, v, |pat| + 1);
        star, mark := p, v;
        p := p + 1;
      } else if p < |pat| && (pat[p] == '?' || pat[p] == val[v]) {
        NextChar(pat, val, p, v, star, mark);
        p, v := p + 1, v + 1;
      } else {
        StuckHere(pat, val, p, v);
        if star >= 0 {
          TryAgain(pat, val, p, v, star, mark);
          mark := mark + 1;
          p, v := star + 1, mark;
        } else {
          NoStarNoMatch(pat, val, p, v, mark);
          MoreTurns(mark, |val|, |pat| + 1);
          return false, turns + 1;
        }
      }
      turns := turns + 1;
    }
    MoreTurns(mark, |val|, |pat| + 1);
    ValueUsedUp(pat, val, p, star, mark);
    while p < |pat| && pat[p] == '*'
      invariant p <= |pat| && (Matches(pat, val) <==> Matches(pat[p..], ""))
    {
      EmptyNeedsStars(pat, p);
      p := p + 1;
    }
    if p < |pat| {
      EmptyNeedsStars(pat, p);
    } else {
      SpentMatchesEmpty();
      assert pat[p..] == "";
    }
    ok := p == |pat|;
  }

  lemma Starts(pat: string, val: string)
    ensures Standing(pat, val, 0, 0, -1, 0)
  {
    assert val[0..] == val;
  }

  lemma SpentMatchesEmpty()
    ensures Matches("", "")
  {
  }

  lemma NoStarNoMatch(pat: string, val: string, p: nat, v: nat, mark: nat)
    requires Standing(pat, val, p, v, -1, mark) && !Matches(pat[p..], val[v..])
    ensures !Matches(pat, val)
  {
    hide Matches;
    ThisTry(pat, val, p, v, -1, mark);
    assert pat[0..] == pat;
  }

  /** So many rows of so many turns each. */
  function Grid(rows: nat, width: nat): nat { rows * width }

  lemma GridIs(rows: nat, width: nat)
    ensures Grid(rows, width) + width == width * (rows + 1)
  {
  }

  lemma TurnsLeft(mark: nat, width: nat)
    ensures Grid(mark + 1, width) == Grid(mark, width) + width
  {
  }

  lemma MoreTurns(a: nat, b: nat, width: nat)
    requires a <= b
    ensures Grid(a, width) <= Grid(b, width)
  {
  }
}
