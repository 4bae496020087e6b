/** Python's str.splitlines, and filtering what it yields. */
module Text {

  /** The line boundaries of str.splitlines: LF, VT, FF, CR, FS, GS, RS, NEL, LS, PS. */
  predicate IsBreak(c: char) {
    var n := c as int;
    10 <= n <= 13 || 28 <= n <= 30 || n == 133 || n == 0x2028 || n == 0x2029
  }

  predicate OneLine(s: string) { forall i :: 0 <= i < |s| ==> !IsBreak(s[i]) }

  function FirstBreak(s: string): (n: nat)
    ensures n <= |s| && OneLine(s[..n]) && (n < |s| ==> IsBreak(s[n]))
  {
    if s == [] || IsBreak(s[0]) then 0
    else
      var n := 1 + FirstBreak(s[1..]);
      assert s[..n] == [s[0]] + s[1..][..n - 1];
      n
  }

  function SplitLines(s: string): (lines: seq<string>)
    ensures forall i :: 0 <= i < |lines| ==> OneLine(lines[i])
    decreases |s|
  {
    if s == [] then []
    else
      var n := FirstBreak(s);
      if n == |s| then (assert s[..n] == s; [s])
      else
        var width := if s[n] == '\r' && n + 1 < |s| && s[n + 1] == '\n' then 2 else 1;
        [s[..n]] + SplitLines(s[n + width..])
  }

  lemma {:induction false} FirstBreakAt(line: string, rest: string)
    requires OneLine(line) && (rest == [] || IsBreak(rest[0]))
    ensures FirstBreak(line + rest) == |line|
  {
    if line != [] {
      assert (line + rest)[1..] == line[1..] + rest;
      FirstBreakAt(line[1..], rest);
    } else {
      assert line + rest == rest;
    }
  }

  /** Lines written one after the other, each with its newline. */
  function Terminated(lines: seq<string>): string {
    if lines == [] then [] else lines[0] + "\n" + Terminated(lines[1..])
  }

  /** Terminated lines are read back as themselves, however many there are. */
  lemma {:induction false} SplitTerminated(lines: seq<string>)
    requires forall i :: 0 <= i < |lines| ==> OneLine(lines[i])
    ensures SplitLines(Terminated(lines)) == lines
  {
    if lines != [] {
      var line, rest := lines[0], Terminated(lines[1..]);
      var s := line + "\n" + rest;
      assert s == line + ("\n" + rest);
      FirstBreakAt(line, "\n" + rest);
      assert s[..|line|] == line && s[|line| + 1..] == rest && s[|line|] == '\n';
      SplitTerminated(lines[1..]);
    }
  }

  lemma SplitOne(line: string)
    requires OneLine(line)
    ensures SplitLines(line + "\n") == [line]
  {
    var alone: seq<string> := [line];
    SplitTerminated(alone);
    assert alone[1..] == [] && Terminated(alone) == line + "\n" + Terminated(alone[1..]) == line + "\n";
  }

  /** A carriage return before the newline belongs to the same break. */
  lemma SplitCrLf(line: string, rest: string)
    requires OneLine(line)
    ensures SplitLines(line + "\r\n" + rest) == [line] + SplitLines(rest)
  {
    var s := line + "\r\n" + rest;
    assert s == line + ("\r\n" + rest);
    FirstBreakAt(line, "\r\n" + rest);
    assert s[..|line|] == line && s[|line| + 2..] == rest && s[|line|] == '\r' && s[|line| + 1] == '\n';
  }

  function Filter<T>(keep: T -> bool, xs: seq<T>): seq<T> {
    if xs == [] then [] else (if keep(xs[0]) then [xs[0]] else []) + Filter(keep, xs[1..])
  }

  /** Exactly the wanted elements, in their order. */
  lemma {:induction false} FilterConcat<T>(keep: T -> bool, a: seq<T>, b: seq<T>)
    ensures Filter(keep, a + b) == Filter(keep, a) + Filter(keep, b)
    decreases |a|
  {
    var both := a + b;
    if a == [] {
      assert both == b;
    } else {
      assert both[0] == a[0] && both[1..] == a[1..] + b;
      FilterConcat(keep, a[1..], b);
      var head := if keep(a[0]) then [a[0]] else [];
      assert Filter(keep, both) == head + Filter(keep, both[1..]);
      assert Filter(keep, a) == head + Filter(keep, a[1..]);
    }
  }

  lemma FilterAppend<T>(keep: T -> bool, xs: seq<T>, x: T)
    ensures Filter(keep, xs + [x]) == Filter(keep, xs) + if keep(x) then [x] else []
  {
    FilterConcat(keep, xs, [x]);
    assert [x][1..] == [];
  }

  lemma {:induction false} FilterKeeps<T>(keep: T -> bool, xs: seq<T>, i: nat)
    requires i < |xs| && keep(xs[i])
    ensures xs[i] in Filter(keep, xs)
  {
    if i > 0 { FilterKeeps(keep, xs[1..], i - 1); }
  }
}
