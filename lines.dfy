/**
 * Splitting text into newline-terminated lines.
 *
 * `SplitLines` is what the reading loop of `read_serial` does with the bytes it has
 * (bmp280_x11_gui5.cpp:422-427): from the current position it looks for the next
 * '\n' (`buf.find('\n', pos)`), hands on the line before it and continues after it;
 * what follows the last '\n' is kept for the next read. `GetLines` is what a
 * `std::getline` loop over a whole file yields (used by `load_data` and
 * `load_config`): the same lines plus a last unterminated one when it is not empty.
 */
module Lines {

  predicate NoNewline(s: string) {
    forall i | 0 <= i < |s| :: s[i] != '\n'
  }

  predicate AllWithoutNewline(lines: seq<string>) {
    forall k | 0 <= k < |lines| :: NoNewline(lines[k])
  }

  /** `buf.find('\n', pos)`: the first '\n' at or after `pos`, or |s| when there is none. */
  function FindFrom(s: string, pos: nat): (i: nat)
    requires pos <= |s|
    ensures pos <= i <= |s|
    ensures i < |s| ==> s[i] == '\n'
    decreases |s| - pos
  {
    if pos == |s| || s[pos] == '\n' then pos else FindFrom(s, pos + 1)
  }

  /** No position before the one `find` returns holds a '\n'. */
  lemma {:induction false} FindFromSkips(s: string, pos: nat)
    requires pos <= |s|
    ensures forall k | pos <= k < FindFrom(s, pos) :: s[k] != '\n'
    decreases |s| - pos
  {
    if pos < |s| && s[pos] != '\n' {
      FindFromSkips(s, pos + 1);
    }
  }

  /** The first '\n' from `pos` is the one position with none before it and '\n' (or the end) at it. */
  lemma {:induction false} FindFromUnique(s: string, pos: nat, j: nat)
    requires pos <= j <= |s| && (j < |s| ==> s[j] == '\n')
    requires forall k | pos <= k < j :: s[k] != '\n'
    ensures FindFrom(s, pos) == j
    decreases j - pos
  {
    if pos < j {
      FindFromUnique(s, pos + 1, j);
    }
  }

  /** Lines written out again, each followed by its '\n'. */
  function JoinLines(lines: seq<string>): string {
    if lines == [] then "" else lines[0] + "\n" + JoinLines(lines[1..])
  }

  /** Writing one more line appends it and its '\n'. */
  lemma {:induction false} JoinAppend(lines: seq<string>, line: string)
    ensures JoinLines(lines + [line]) == JoinLines(lines) + line + "\n"
  {
    if lines != [] {
      assert (lines + [line])[1..] == lines[1..] + [line];
      JoinAppend(lines[1..], line);
    }
  }

  datatype Split = Split(lines: seq<string>, rest: string)

  /**
   * The lines of `s` from `pos` on, found one `find` from the current position at a
   * time, and the text after the last one.
   */
  function SplitFrom(s: string, pos: nat): Split
    requires pos <= |s|
    decreases |s| - pos
  {
    var nl := FindFrom(s, pos);
    if nl == |s| then Split([], s[pos..])
    else
      var r := SplitFrom(s, nl + 1);
      Split([s[pos..nl]] + r.lines, r.rest)
  }

  /** The lines found from `pos`, written out again with the rest, give back the text from `pos`. */
  lemma {:induction false} SplitFromJoin(s: string, pos: nat)
    requires pos <= |s|
    ensures JoinLines(SplitFrom(s, pos).lines) + SplitFrom(s, pos).rest == s[pos..]
    decreases |s| - pos
  {
    var nl := FindFrom(s, pos);
    if nl < |s| {
      SplitFromJoin(s, nl + 1);
      LineThenRest(s, pos, nl);
    }
  }

  lemma LineThenRest(s: string, pos: nat, nl: nat)
    requires pos <= nl < |s| && nl == FindFrom(s, pos)
    requires JoinLines(SplitFrom(s, nl + 1).lines) + SplitFrom(s, nl + 1).rest == s[nl + 1..]
    ensures JoinLines(SplitFrom(s, pos).lines) + SplitFrom(s, pos).rest == s[pos..]
  {
    var r := SplitFrom(s, nl + 1);
    SplitFromStep(s, pos, nl);
    JoinConsText(s[pos..nl], r.lines, r.rest);
    Around(s, pos, nl);
  }

  /** One `find` from `pos`: the line up to the '\n' at `nl`, then the lines after it. */
  lemma SplitFromStep(s: string, pos: nat, nl: nat)
    requires pos <= nl < |s| && nl == FindFrom(s, pos)
    ensures SplitFrom(s, pos) == Split([s[pos..nl]] + SplitFrom(s, nl + 1).lines, SplitFrom(s, nl + 1).rest)
  {
  }

  /** Taking the line up to the next '\n' moves it from the lines still to find to those found. */
  lemma SplitFromAdvance(s: string, pos: nat, nl: nat, done: seq<string>)
    requires pos <= nl < |s| && nl == FindFrom(s, pos)
    ensures done + SplitFrom(s, pos).lines == (done + [s[pos..nl]]) + SplitFrom(s, nl + 1).lines
    ensures SplitFrom(s, pos).rest == SplitFrom(s, nl + 1).rest
  {
    SplitFromStep(s, pos, nl);
    assert done + ([s[pos..nl]] + SplitFrom(s, nl + 1).lines) == (done + [s[pos..nl]]) + SplitFrom(s, nl + 1).lines;
  }

  /** Text from `pos` is the line up to the '\n' at `nl`, the '\n', and the text after it. */
  lemma Around(s: string, pos: nat, nl: nat)
    requires pos <= nl < |s| && s[nl] == '\n'
    ensures s[pos..] == s[pos..nl] + "\n" + s[nl + 1..]
  {
  }

  /** Writing a line in front of others puts it and its '\n' in front. */
  lemma JoinConsText(line: string, lines: seq<string>, rest: string)
    ensures JoinLines([line] + lines) + rest == line + "\n" + (JoinLines(lines) + rest)
  {
    assert ([line] + lines)[1..] == lines;
  }

  /** No line found from `pos`, and not the rest, holds a '\n'. */
  lemma {:induction false} SplitFromClean(s: string, pos: nat)
    requires pos <= |s|
    ensures AllWithoutNewline(SplitFrom(s, pos).lines) && NoNewline(SplitFrom(s, pos).rest)
    decreases |s| - pos
  {
    var nl := FindFrom(s, pos);
    FindFromSkips(s, pos);
    if nl == |s| {
      assert forall i | 0 <= i < |s| - pos :: s[pos..][i] == s[pos + i];
    } else {
      var line, r := s[pos..nl], SplitFrom(s, nl + 1);
      SplitFromClean(s, nl + 1);
      assert forall i | 0 <= i < |line| :: line[i] == s[pos + i];
      assert ([line] + r.lines)[0] == line;
      assert forall k | 1 <= k < |r.lines| + 1 :: ([line] + r.lines)[k] == r.lines[k - 1];
    }
  }

  /** The newline-terminated lines of `s` in order, and the text after the last newline. */
  function SplitLines(s: string): Split {
    SplitFrom(s, 0)
  }

  /**
   * Splitting loses nothing and adds nothing: the lines, each with its '\n', and
   * then the rest make up the text, and none of them holds a '\n'.
   */
  lemma SplitLinesMeaning(s: string)
    ensures JoinLines(SplitLines(s).lines) + SplitLines(s).rest == s
    ensures AllWithoutNewline(SplitLines(s).lines) && NoNewline(SplitLines(s).rest)
  {
    SplitFromJoin(s, 0);
    SplitFromClean(s, 0);
    assert s[0..] == s;
  }

  /** `SplitLines` undoes `JoinLines`: text made of lines is split back into them. */
  lemma SplitJoin(lines: seq<string>, rest: string)
    requires AllWithoutNewline(lines) && NoNewline(rest)
    ensures SplitLines(JoinLines(lines) + rest) == Split(lines, rest)
  {
    var s := JoinLines(lines) + rest;
    assert s[0..] == s;
    SplitFromOfJoin(s, 0, lines, rest);
  }

  /** Scanning text that is made of lines from `pos` on finds exactly those lines. */
  lemma {:induction false} SplitFromOfJoin(s: string, pos: nat, lines: seq<string>, rest: string)
    requires pos <= |s| && s[pos..] == JoinLines(lines) + rest
    requires AllWithoutNewline(lines) && NoNewline(rest)
    ensures SplitFrom(s, pos) == Split(lines, rest)
    decreases lines
  {
    if lines == [] {
      OfJoinEmpty(s, pos, rest);
    } else {
      var first := lines[0];
      JoinConsText(first, lines[1..], rest);
      assert [first] + lines[1..] == lines;
      Pieces(s, pos, first, JoinLines(lines[1..]) + rest);
      FindFromUnique(s, pos, pos + |first|);
      SplitFromOfJoin(s, pos + |first| + 1, lines[1..], rest);
      OfJoinCons(s, pos, lines, rest);
    }
  }

  lemma OfJoinEmpty(s: string, pos: nat, rest: string)
    requires pos <= |s| && s[pos..] == JoinLines([]) + rest && NoNewline(rest)
    ensures SplitFrom(s, pos) == Split([], rest)
  {
    assert s[pos..] == rest;
    NoNewlineFrom(s, pos);
    FindFromUnique(s, pos, |s|);
    SplitFromEnd(s, pos);
  }

  lemma OfJoinCons(s: string, pos: nat, lines: seq<string>, rest: string)
    requires lines != [] && pos + |lines[0]| < |s| && FindFrom(s, pos) == pos + |lines[0]|
    requires s[pos..pos + |lines[0]|] == lines[0]
    requires SplitFrom(s, pos + |lines[0]| + 1) == Split(lines[1..], rest)
    ensures SplitFrom(s, pos) == Split(lines, rest)
  {
    SplitFromStep(s, pos, pos + |lines[0]|);
    assert [lines[0]] + lines[1..] == lines;
  }

  /** No '\n' from `pos` on: all of it is rest. */
  lemma SplitFromEnd(s: string, pos: nat)
    requires pos <= |s| && FindFrom(s, pos) == |s|
    ensures SplitFrom(s, pos) == Split([], s[pos..])
  {
  }

  /** Text from `pos` with no '\n' in it: no position from `pos` on holds one. */
  lemma NoNewlineFrom(s: string, pos: nat)
    requires pos <= |s| && NoNewline(s[pos..])
    ensures forall k | pos <= k < |s| :: s[k] != '\n'
  {
    assert forall k | pos <= k < |s| :: s[k] == s[pos..][k - pos];
  }

  /** Where a line, its '\n' and the text after it sit when they start at `pos`. */
  lemma Pieces(s: string, pos: nat, first: string, tail: string)
    requires pos <= |s| && s[pos..] == first + "\n" + tail && NoNewline(first)
    ensures pos + |first| < |s| && s[pos + |first|] == '\n'
    ensures forall k | pos <= k < pos + |first| :: s[k] != '\n'
    ensures s[pos..pos + |first|] == first && s[pos + |first| + 1..] == tail
  {
    var t := first + "\n" + tail;
    assert s[pos + |first|] == t[|first|];
    assert forall k | pos <= k < pos + |first| :: s[k] == t[k - pos] == first[k - pos];
    assert s[pos..pos + |first|] == t[..|first|];
    assert s[pos + |first| + 1..] == t[|first| + 1..];
  }

  /** The lines a `std::getline` loop reads from a whole text. */
  function GetLines(text: string): seq<string> {
    var r := SplitLines(text);
    r.lines + (if r.rest == "" then [] else [r.rest])
  }

  /** Reading back text written one line per '\n' gives the same lines. */
  lemma GetLinesOfJoin(lines: seq<string>)
    requires AllWithoutNewline(lines)
    ensures GetLines(JoinLines(lines)) == lines
  {
    SplitJoin(lines, "");
    assert JoinLines(lines) + "" == JoinLines(lines);
  }
}
