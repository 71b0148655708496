/**
 * Day 08: antennas on a map. Every character other than `.` is an antenna
 * of that frequency. Each pair of antennas of one frequency makes two
 * antinodes, one on each side, as far beyond each antenna as the antennas
 * are apart; part 1 counts the distinct antinodes on the map.
 */
module Day08 {
  import opened Wrappers

  /** A position as (x, y): column, then line. */
  type Pos = (int, int)

  /** The antennas of each frequency, in reading order. */
  type Stations = map<char, seq<Pos>>

  // ----- Reading the map -----

  /** The positions of `c` in the first `k` characters of line `y`. */
  function RowPositions(line: string, y: int, c: char, k: nat): seq<Pos>
    requires k <= |line|
  {
    if k == 0 then []
    else RowPositions(line, y, c, k - 1) + if line[k - 1] == c then [(k - 1, y)] else []
  }

  /** The positions of `c` in the lines, in reading order. */
  function Positions(lines: seq<string>, c: char): seq<Pos>
  {
    if lines == [] then []
    else
      var y := |lines| - 1;
      Positions(lines[..y], c) + RowPositions(lines[y], y, c, |lines[y]|)
  }

  lemma {:induction false} RowPositionsMeans(line: string, y: int, c: char, k: nat)
    requires k <= |line|
    ensures forall p :: p in RowPositions(line, y, c, k) <==> p.1 == y && 0 <= p.0 < k && line[p.0] == c
    ensures forall i :: 0 <= i < |RowPositions(line, y, c, k)| ==> RowPositions(line, y, c, k)[i].1 == y
  {
    if k > 0 {
      RowPositionsMeans(line, y, c, k - 1);
    }
  }

  /** The positions listed for `c` are exactly those where the lines hold `c`. */
  lemma {:induction false} PositionsMeans(lines: seq<string>, c: char)
    ensures forall p :: p in Positions(lines, c) <==> 0 <= p.1 < |lines| && 0 <= p.0 < |lines[p.1]| && lines[p.1][p.0] == c
    ensures forall i :: 0 <= i < |Positions(lines, c)| ==> 0 <= Positions(lines, c)[i].1 < |lines|
  {
    if lines != [] {
      var y := |lines| - 1;
      PositionsMeans(lines[..y], c);
      RowPositionsMeans(lines[y], y, c, |lines[y]|);
      forall p: Pos | 0 <= p.1 < |lines| && 0 <= p.0 < |lines[p.1]| && lines[p.1][p.0] == c
        ensures p in Positions(lines, c)
      {
        if p.1 < y {
          assert lines[..y][p.1] == lines[p.1];
        }
      }
    }
  }

  /** No position is listed twice. */
  predicate NoRepeats(ps: seq<Pos>)
  {
    forall i, j :: 0 <= i < j < |ps| ==> ps[i] != ps[j]
  }

  lemma {:induction false} RowPositionsOrdered(line: string, y: int, c: char, k: nat)
    requires k <= |line|
    ensures forall i, j :: 0 <= i < j < |RowPositions(line, y, c, k)| ==> RowPositions(line, y, c, k)[i].0 < RowPositions(line, y, c, k)[j].0
  {
    if k > 0 {
      RowPositionsOrdered(line, y, c, k - 1);
      RowPositionsMeans(line, y, c, k - 1);
      var before := RowPositions(line, y, c, k - 1);
      forall i | 0 <= i < |before|
        ensures before[i].0 < k - 1
      {
        assert before[i] in before;
      }
    }
  }

  lemma {:induction false} PositionsOrdered(lines: seq<string>, c: char)
    ensures NoRepeats(Positions(lines, c))
  {
    if lines != [] {
      var y := |lines| - 1;
      var a, b := Positions(lines[..y], c), RowPositions(lines[y], y, c, |lines[y]|);
      PositionsOrdered(lines[..y], c);
      RowPositionsOrdered(lines[y], y, c, |lines[y]|);
      PositionsMeans(lines[..y], c);
      RowPositionsMeans(lines[y], y, c, |lines[y]|);
      var ps := a + b;
      forall i, j | 0 <= i < j < |ps|
        ensures ps[i] != ps[j]
      {
        if j >= |a| && i < |a| {
          assert ps[i].1 < y && ps[j].1 == y;
        } else if i >= |a| {
          assert ps[i] == b[i - |a|] && ps[j] == b[j - |a|];
        }
      }
    }
  }

  /** The characters on the map. */
  function CharsOf(lines: seq<string>): set<char>
  {
    set y, x | 0 <= y < |lines| && 0 <= x < |lines[y]| :: lines[y][x]
  }

  /** The antennas of the map: each character other than `.` with its positions. */
  function StationsOf(lines: seq<string>): Stations
  {
    map c | c in CharsOf(lines) && c != '.' :: Positions(lines, c)
  }

  /** What `m` lists for `c`, nothing when `c` is not a key. */
  function Listed(m: Stations, c: char): seq<Pos>
  {
    if c in m then m[c] else []
  }

  /** The reading loop so far: the lines before `y` and the first `x` characters of line `y` are grouped by character. */
  ghost predicate Grouped(lines: seq<string>, y: nat, x: nat, m: Stations)
    requires y < |lines| && x <= |lines[y]|
  {
    && '.' !in m
    && (forall c :: c in m ==> m[c] != [])
    && (forall c :: c != '.' ==> Listed(m, c) == Positions(lines[..y], c) + RowPositions(lines[y], y, c, x))
  }

  /** One more character of a line adds its position when it is `c`. */
  lemma RowStep(line: string, y: int, c: char, x: nat)
    requires x < |line|
    ensures RowPositions(line, y, c, x + 1) == RowPositions(line, y, c, x) + if line[x] == c then [(x, y)] else []
  {
  }

  lemma ListedOther(m: Stations, ch: char, ps: seq<Pos>, c: char)
    requires c != ch
    ensures Listed(m[ch := ps], c) == Listed(m, c)
  {
  }

  /** One character read: an antenna joins the positions of its frequency. */
  method ReadCell(lines: seq<string>, y: nat, x: nat, m: Stations) returns (m': Stations)
    requires y < |lines| && x < |lines[y]| && Grouped(lines, y, x, m)
    ensures Grouped(lines, y, x + 1, m')
  {
    var ch := lines[y][x];
    if ch == '.' {
      forall c | c != '.'
        ensures Listed(m, c) == Positions(lines[..y], c) + RowPositions(lines[y], y, c, x + 1)
      {
        RowStep(lines[y], y, c, x);
      }
      return m;
    }
    m' := m[ch := Listed(m, ch) + [(x, y)]];
    forall c | c != '.'
      ensures Listed(m', c) == Positions(lines[..y], c) + RowPositions(lines[y], y, c, x + 1)
    {
      RowStep(lines[y], y, c, x);
      if c == ch {
        var before, row := Positions(lines[..y], c), RowPositions(lines[y], y, c, x);
        assert Listed(m, c) == before + row;
        assert (before + row) + [(x, y)] == before + (row + [(x, y)]);
      } else {
        ListedOther(m, ch, Listed(m, ch) + [(x, y)], c);
      }
    }
  }

  /** A whole line read: the next line starts with nothing of its own. */
  lemma NextLine(lines: seq<string>, y: nat, m: Stations)
    requires y + 1 < |lines| && Grouped(lines, y, |lines[y]|, m)
    ensures Grouped(lines, y + 1, 0, m)
  {
    assert lines[..y + 1][..y] == lines[..y];
  }

  /** Every line read: the groups are the map's antennas. */
  lemma AllLines(lines: seq<string>, m: Stations)
    requires lines != [] && Grouped(lines, |lines| - 1, |lines[|lines| - 1]|, m)
    ensures m == StationsOf(lines)
  {
    var y := |lines| - 1;
    assert lines[..y + 1] == lines;
    forall c
      ensures forall p :: p in Positions(lines, c) <==> 0 <= p.1 < |lines| && 0 <= p.0 < |lines[p.1]| && lines[p.1][p.0] == c
    {
      PositionsMeans(lines, c);
    }
    forall c | c in m
      ensures c in StationsOf(lines) && m[c] == Positions(lines, c)
    {
      var p := m[c][0];
      assert Listed(m, c) == Positions(lines, c);
      assert p in Positions(lines, c);
      assert lines[p.1][p.0] in CharsOf(lines);
    }
    forall c | c in StationsOf(lines)
      ensures c in m
    {
      var y', x' :| 0 <= y' < |lines| && 0 <= x' < |lines[y']| && lines[y'][x'] == c;
      assert (x', y') in Positions(lines, c);
    }
  }

  /** The antennas, grouped by frequency, reading the lines in order. */
  method Parse(lines: seq<string>) returns (stations: Stations)
    ensures stations == StationsOf(lines)
  {
    stations := map[];
    if lines == [] {
      return;
    }
    var y := 0;
    while y < |lines|
      invariant y < |lines| && Grouped(lines, y, 0, stations)
      decreases |lines| - y
    {
      var x := 0;
      while x < |lines[y]|
        invariant x <= |lines[y]| && Grouped(lines, y, x, stations)
      {
        stations := ReadCell(lines, y, x, stations);
        x := x + 1;
      }
      if y + 1 == |lines| {
        AllLines(lines, stations);
        return;
      }
      NextLine(lines, y, stations);
      y := y + 1;
    }
  }

  // ----- Antinodes -----

  /** The antinode beyond `a`, as far from `a` as `b` is on the other side. */
  function Beyond(a: Pos, b: Pos): Pos
  {
    (2 * a.0 - b.0, 2 * a.1 - b.1)
  }

  /** The antinodes of the pairs of `s` whose lower index is below `i`. */
  ghost function Formed(s: seq<Pos>, i: nat): set<Pos>
  {
    set a, b | 0 <= a < |s| && 0 <= b < |s| && a != b && (a < i || b < i) :: Beyond(s[a], s[b])
  }

  /** Every antinode of the antennas of `s`. */
  ghost function GroupAntinodes(s: seq<Pos>): set<Pos>
  {
    Formed(s, |s|)
  }

  /** The antinodes of every frequency among `keys`. */
  ghost function Antinodes(stations: Stations, keys: set<char>): set<Pos>
  {
    set c, p | c in keys && c in stations && p in GroupAntinodes(stations[c]) :: p
  }

  /** The antinodes on a map of `width` by `height`. */
  function InBounds(antinodes: set<Pos>, width: nat, height: nat): set<Pos>
  {
    set p | p in antinodes && 0 <= p.0 < width && 0 <= p.1 < height
  }

  /** The pairs of `s` whose lower index is `i` and higher below `j`, both ways. */
  ghost function Row(s: seq<Pos>, i: nat, j: nat): set<Pos>
    requires i < |s| && j <= |s|
  {
    (set b | i < b < j :: Beyond(s[i], s[b])) + (set b | i < b < j :: Beyond(s[b], s[i]))
  }

  lemma RowDone(s: seq<Pos>, i: nat)
    requires i < |s|
    ensures Formed(s, i) + Row(s, i, |s|) == Formed(s, i + 1)
  {
    forall p | p in Formed(s, i + 1)
      ensures p in Formed(s, i) + Row(s, i, |s|)
    {
      var a, b :| 0 <= a < |s| && 0 <= b < |s| && a != b && (a < i + 1 || b < i + 1) && p == Beyond(s[a], s[b]);
      if a >= i && b >= i {
        if a == i {
          assert p in set b' | i < b' < |s| :: Beyond(s[i], s[b']);
        } else {
          assert p in set b' | i < b' < |s| :: Beyond(s[b'], s[i]);
        }
      }
    }
  }

  /** The pairs of one frequency: for each antenna, every later one, both antinodes. */
  method AddGroup(s: seq<Pos>, visited: set<Pos>) returns (visited': set<Pos>)
    ensures visited' == visited + GroupAntinodes(s)
  {
    visited' := visited;
    for i := 0 to |s|
      invariant visited' == visited + Formed(s, i)
    {
      for j := i + 1 to |s|
        invariant visited' == visited + Formed(s, i) + Row(s, i, j)
      {
        visited' := visited' + {Beyond(s[i], s[j]), Beyond(s[j], s[i])};
      }
      RowDone(s, i);
    }
  }

  /** Part 1 on parsed antennas: the antinodes of every frequency, then those on the map counted. */
  method CountAntinodes(stations: Stations, width: nat, height: nat) returns (count: nat)
    ensures count == |InBounds(Antinodes(stations, stations.Keys), width, height)|
  {
    var visited: set<Pos> := {};
    var todo := stations.Keys;
    ghost var done: set<char> := {};
    while todo != {}
      invariant todo + done == stations.Keys && todo !! done
      invariant visited == Antinodes(stations, done)
      decreases |todo|
    {
      var c :| c in todo;
      visited := AddGroup(stations[c], visited);
      assert Antinodes(stations, done + {c}) == Antinodes(stations, done) + GroupAntinodes(stations[c]);
      done := done + {c};
      todo := todo - {c};
    }
    count := |InBounds(visited, width, height)|;
  }

  /** Part 1: the map's width is its first line's, its height the number of lines; no lines is an error. */
  method Part1(lines: seq<string>) returns (r: Option<nat>)
    ensures lines == [] ==> r.None?
    ensures lines != [] ==> r == Some(|InBounds(Antinodes(StationsOf(lines), StationsOf(lines).Keys), |lines[0]|, |lines|)|)
  {
    if lines == [] {
      return None;
    }
    var stations := Parse(lines);
    var count := CountAntinodes(stations, |lines[0]|, |lines|);
    return Some(count);
  }

  // ----- What part 1 counts -----

  /** The frequency of the antenna at `p`, or `None` for `.` and off the map. */
  function AntennaAt(lines: seq<string>, p: Pos): Option<char>
  {
    if 0 <= p.1 < |lines| && 0 <= p.0 < |lines[p.1]| && lines[p.1][p.0] != '.' then Some(lines[p.1][p.0]) else None
  }

  /** Two different antennas of one frequency, and their antinode beyond `a`. */
  ghost predicate AntinodeOf(lines: seq<string>, p: Pos, a: Pos, b: Pos)
  {
    a != b && AntennaAt(lines, a).Some? && AntennaAt(lines, a) == AntennaAt(lines, b) && p == Beyond(a, b)
  }

  /** An antinode of a listed pair is one of two different antennas of one frequency. */
  lemma AntinodeFrom(lines: seq<string>, p: Pos) returns (a: Pos, b: Pos)
    requires p in Antinodes(StationsOf(lines), StationsOf(lines).Keys)
    ensures AntinodeOf(lines, p, a, b)
  {
    var stations := StationsOf(lines);
    var c :| c in stations && p in GroupAntinodes(stations[c]);
    var s := Positions(lines, c);
    var i, j :| 0 <= i < |s| && 0 <= j < |s| && i != j && (i < |s| || j < |s|) && p == Beyond(s[i], s[j]);
    PositionsMeans(lines, c);
    PositionsOrdered(lines, c);
    assert s[i] in s && s[j] in s;
    if i < j {
      assert s[i] != s[j];
    } else {
      assert s[j] != s[i];
    }
    a, b := s[i], s[j];
  }

  /** Two different antennas of one frequency make an antinode part 1 lists. */
  lemma AntinodeListed(lines: seq<string>, p: Pos, a: Pos, b: Pos)
    requires AntinodeOf(lines, p, a, b)
    ensures p in Antinodes(StationsOf(lines), StationsOf(lines).Keys)
  {
    var c := AntennaAt(lines, a).value;
    var s := Positions(lines, c);
    PositionsMeans(lines, c);
    assert lines[a.1][a.0] in CharsOf(lines);
    assert a in s && b in s;
    var i :| 0 <= i < |s| && s[i] == a;
    var j :| 0 <= j < |s| && s[j] == b;
    assert p in Formed(s, |s|);
    var stations := StationsOf(lines);
    assert c in stations && stations[c] == s;
    assert p in GroupAntinodes(stations[c]);
  }

  /**
   * Part 1 lists exactly the antinodes of pairs of different antennas of
   * one frequency: each such pair is taken once, and both antinodes with it.
   */
  lemma AntinodesMean(lines: seq<string>, p: Pos)
    ensures p in Antinodes(StationsOf(lines), StationsOf(lines).Keys) <==> exists a, b :: AntinodeOf(lines, p, a, b)
  {
    if p in Antinodes(StationsOf(lines), StationsOf(lines).Keys) {
      var a, b := AntinodeFrom(lines, p);
    }
    if exists a, b :: AntinodeOf(lines, p, a, b) {
      var a, b :| AntinodeOf(lines, p, a, b);
      AntinodeListed(lines, p, a, b);
    }
  }
}
