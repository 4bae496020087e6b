/** deploy/scripts/deployment_supervisor/diagnostics.py: the bounded, redacted tail of an
    untrusted worker log. */
module LogTail {
  import opened Common

  type Bytes = seq<int>

  /** The regular expressions, case folding and UTF-8 of the source, as functions:
      `clean` removes escapes and unprintable characters, `begins` and `ends` recognise the
      borders of a private-key block, `sensitive` a line to redact. */
  datatype Rules = Rules(
    clean: string -> string, begins: string -> bool, ends: string -> bool, sensitive: string -> bool,
    encode: string -> Bytes)

  const KEY_LINE := "| [REDACTED private key material]"
  const SENSITIVE_LINE := "| [REDACTED sensitive line]"
  const EMPTY_LINE := "| [worker log is empty]"
  const MARKER_LINE := "| [earlier sanitized worker log omitted]"

  /** Line i is read inside a private-key block: an earlier line began one and no line
      since has ended it without beginning another. */
  ghost predicate Inside(lines: seq<string>, rules: Rules, i: nat)
    requires i <= |lines|
  {
    exists j :: 0 <= j < i && rules.begins(lines[j]) &&
      forall k :: j < k < i ==> rules.ends(lines[k]) ==> rules.begins(lines[k])
  }

  lemma InsideStep(lines: seq<string>, rules: Rules, i: nat)
    requires i < |lines|
    ensures Inside(lines, rules, i + 1) <==>
      rules.begins(lines[i]) || (Inside(lines, rules, i) && !rules.ends(lines[i]))
  {
    if rules.begins(lines[i]) {
    } else if Inside(lines, rules, i + 1) {
      var j :| 0 <= j < i + 1 && rules.begins(lines[j]) &&
        forall k :: j < k < i + 1 ==> rules.ends(lines[k]) ==> rules.begins(lines[k]);
      assert j < i;
    } else if Inside(lines, rules, i) && !rules.ends(lines[i]) {
      var j :| 0 <= j < i && rules.begins(lines[j]) &&
        forall k :: j < k < i ==> rules.ends(lines[k]) ==> rules.begins(lines[k]);
      assert forall k :: j < k < i + 1 ==> rules.ends(lines[k]) ==> rules.begins(lines[k]);
    }
  }

  /** What the report shows for a line, given whether it is read inside a block. */
  function ShownWhen(rules: Rules, line: string, inside: bool): seq<string> {
    if rules.begins(line) then [KEY_LINE]
    else if inside then []
    else if rules.sensitive(line) then [SENSITIVE_LINE]
    else ["| " + line]
  }

  /** What the report shows for line i: nothing of a block but its first line. */
  ghost function Shown(lines: seq<string>, rules: Rules, i: nat): seq<string>
    requires i < |lines|
  {
    ShownWhen(rules, lines[i], Inside(lines, rules, i))
  }

  ghost function Redacted(lines: seq<string>, rules: Rules, n: nat): seq<string>
    requires n <= |lines|
  {
    if n == 0 then [] else Redacted(lines, rules, n - 1) + Shown(lines, rules, n - 1)
  }

  function Cleaned(original: seq<string>, rules: Rules): seq<string> {
    seq(|original|, i requires 0 <= i < |original| => rules.clean(original[i]))
  }

  /** Every reported line is one of the fixed texts or a line outside all blocks that the
      rules do not call sensitive. */
  lemma {:induction false} NothingSecretShown(lines: seq<string>, rules: Rules, n: nat, shown: string)
    requires n <= |lines| && shown in Redacted(lines, rules, n)
    ensures shown == KEY_LINE || shown == SENSITIVE_LINE ||
      exists i :: 0 <= i < n && shown == "| " + lines[i] && !Inside(lines, rules, i) && !rules.sensitive(lines[i])
  {
    if shown in Redacted(lines, rules, n - 1) {
      NothingSecretShown(lines, rules, n - 1, shown);
    }
  }

  /** Line i has its place in the redaction: a block shows one fixed line where it begins, a
      sensitive line outside shows another, a harmless one shows itself, and the inside of a
      block shows nothing. */
  lemma {:induction false} EveryLineHasItsPlace(lines: seq<string>, rules: Rules, n: nat, i: nat)
    requires i < n <= |lines|
    ensures
      var all, before, upTo := Redacted(lines, rules, n), Redacted(lines, rules, i), Redacted(lines, rules, i + 1);
      && before <= upTo <= all
      && (rules.begins(lines[i]) ==> upTo == before + [KEY_LINE])
      && (!rules.begins(lines[i]) && Inside(lines, rules, i) ==> upTo == before)
      && (!rules.begins(lines[i]) && !Inside(lines, rules, i) ==>
            upTo == before + [if rules.sensitive(lines[i]) then SENSITIVE_LINE else "| " + lines[i]])
  {
    if i + 1 < n { EveryLineHasItsPlace(lines, rules, n - 1, i); }
  }

  /** What the first half reports: the redaction, or the fixed line for an empty log. */
  ghost function ShownLines(original: seq<string>, rules: Rules): seq<string> {
    var all := Redacted(Cleaned(original, rules), rules, |original|);
    if all == [] then [EMPTY_LINE] else all
  }

  /** Every line the first half reports is a fixed text or a harmless line outside all blocks. */
  lemma ShownLinesAreSafe(original: seq<string>, rules: Rules, line: string)
    requires line in ShownLines(original, rules)
    ensures
      || line == KEY_LINE || line == SENSITIVE_LINE || line == EMPTY_LINE
      || exists i :: 0 <= i < |original| && line == "| " + Cleaned(original, rules)[i]
           && !Inside(Cleaned(original, rules), rules, i) && !rules.sensitive(Cleaned(original, rules)[i])
  {
    if line in Redacted(Cleaned(original, rules), rules, |original|) {
      NothingSecretShown(Cleaned(original, rules), rules, |original|, line);
    }
  }

  /** One turn of the redaction loop. */
  method RedactLine(rules: Rules, line: string, inside: bool) returns (out: seq<string>, insideAfter: bool)
    ensures out == ShownWhen(rules, line, inside)
    ensures insideAfter <==> rules.begins(line) || (inside && !rules.ends(line))
  {
    insideAfter := inside;
    if rules.begins(line) { return [KEY_LINE], true; }
    if inside { return [], !rules.ends(line); }
    out := [if rules.sensitive(line) then SENSITIVE_LINE else "| " + line];
  }

  /** The first half of sanitized_worker_log. */
  method RedactLines(original: seq<string>, rules: Rules) returns (shown: seq<string>)
    ensures shown == ShownLines(original, rules)
  {
    ghost var lines := Cleaned(original, rules);
    shown := [];
    var insidePrivateKey := false;
    for i := 0 to |original|
      invariant shown == Redacted(lines, rules, i)
      invariant insidePrivateKey <==> Inside(lines, rules, i)
    {
      InsideStep(lines, rules, i);
      var out, insideAfter := RedactLine(rules, rules.clean(original[i]), insidePrivateKey);
      insidePrivateKey := insideAfter;
      shown := shown + out;
    }
    if shown == [] { shown := [EMPTY_LINE]; }
  }

  // ----- the bounded tail

  function Rendered(rules: Rules, line: string): Bytes { rules.encode(line + "\n") }

  function Join(rules: Rules, lines: seq<string>): Bytes {
    if lines == [] then [] else Rendered(rules, lines[0]) + Join(rules, lines[1..])
  }

  function JoinReversed(chunks: seq<Bytes>): Bytes {
    if chunks == [] then [] else chunks[|chunks| - 1] + JoinReversed(chunks[..|chunks| - 1])
  }

  /** The chunks are the lines from k on, last line first. */
  ghost predicate Selects(rules: Rules, lines: seq<string>, k: nat, chunks: seq<Bytes>) {
    && k <= |lines| && |chunks| == |lines| - k
    && forall i :: 0 <= i < |chunks| ==> chunks[i] == Rendered(rules, lines[|lines| - 1 - i])
  }

  lemma {:induction false} SelectsJoin(rules: Rules, lines: seq<string>, k: nat, chunks: seq<Bytes>)
    requires Selects(rules, lines, k, chunks)
    ensures JoinReversed(chunks) == Join(rules, lines[k..])
    decreases |chunks|
  {
    if |chunks| > 0 {
      SelectsJoin(rules, lines, k + 1, chunks[..|chunks| - 1]);
      assert lines[k..][1..] == lines[k + 1..];
    }
  }

  lemma JoinStep(rules: Rules, lines: seq<string>, k: nat)
    requires k < |lines|
    ensures Join(rules, lines[k..]) == Rendered(rules, lines[k]) + Join(rules, lines[k + 1..])
  {
    assert lines[k..][1..] == lines[k + 1..];
  }

  lemma {:induction false} LongerSuffix(rules: Rules, lines: seq<string>, j: nat, k: nat)
    requires j <= k <= |lines|
    ensures |Join(rules, lines[j..])| >= |Join(rules, lines[k..])|
    decreases k - j
  {
    if j < k {
      LongerSuffix(rules, lines, j + 1, k);
      JoinStep(rules, lines, j);
    }
  }

  /** The loop from the last line backwards: the longest run of last lines within the limit. */
  method SelectTail(lines: seq<string>, rules: Rules, limit: nat)
    returns (selected: seq<Bytes>, used: nat, omitted: bool, ghost k: nat)
    ensures Selects(rules, lines, k, selected) && used == |Join(rules, lines[k..])| <= limit
    ensures omitted <==> k > 0
    ensures omitted ==> |Join(rules, lines[k - 1..])| > limit
  {
    selected, used, omitted := [], 0, false;
    var i := |lines|;
    assert lines[|lines|..] == [];
    while i > 0 && !omitted
      invariant 0 <= i <= |lines|
      invariant Selects(rules, lines, i, selected)
      invariant used == |Join(rules, lines[i..])| <= limit
      invariant omitted ==> i > 0 && |Join(rules, lines[i - 1..])| > limit
      decreases i, !omitted
    {
      JoinStep(rules, lines, i - 1);
      var chunk := Rendered(rules, lines[i - 1]);
      if |chunk| > limit - used {
        omitted := true;
      } else {
        i := i - 1;
        selected := selected + [chunk];
        used := used + |chunk|;
      }
    }
    k := i;
  }

  /** The loop that drops selected lines, earliest first, until the marker fits. */
  method MakeRoom(lines: seq<string>, rules: Rules, limit: nat, chosen: seq<Bytes>, total: nat, width: nat, ghost from: nat)
    returns (selected: seq<Bytes>, used: nat, ghost k: nat)
    requires 0 < from && Selects(rules, lines, from, chosen) && total == |Join(rules, lines[from..])| <= limit
    requires |Join(rules, lines[from - 1..])| > limit
    ensures 0 < k && Selects(rules, lines, k, selected) && used == |Join(rules, lines[k..])| <= limit
    ensures width + |Join(rules, lines[k - 1..])| > limit
    ensures used + width <= limit || selected == []
  {
    selected, used, k := chosen, total, from;
    while selected != [] && used + width > limit
      invariant 0 < k <= |lines|
      invariant Selects(rules, lines, k, selected)
      invariant used == |Join(rules, lines[k..])| <= limit
      invariant width + |Join(rules, lines[k - 1..])| > limit
      decreases |selected|
    {
      JoinStep(rules, lines, k);
      used := used - |selected[|selected| - 1]|;
      selected := selected[..|selected| - 1];
      k := k + 1;
    }
  }

  /** The second half of sanitized_worker_log.  The report never exceeds the limit.  It is
      everything if everything fits; otherwise the marker and the longest run of last lines
      that fits after it; nothing at all when not even the marker fits. */
  method BoundedTail(lines: seq<string>, rules: Rules, limit: nat) returns (report: Bytes, ghost k: nat)
    ensures |report| <= limit && k <= |lines|
    ensures |Join(rules, lines)| <= limit <==> k == 0
    ensures |Join(rules, lines)| <= limit ==> report == Join(rules, lines)
    ensures |Join(rules, lines)| > limit && |Rendered(rules, MARKER_LINE)| <= limit ==>
      && report == Rendered(rules, MARKER_LINE) + Join(rules, lines[k..])
      && |Rendered(rules, MARKER_LINE)| + |Join(rules, lines[k - 1..])| > limit
    ensures |Join(rules, lines)| > limit && |Rendered(rules, MARKER_LINE)| > limit ==> report == []
  {
    assert lines[0..] == lines;
    var selected, used, omitted;
    selected, used, omitted, k := SelectTail(lines, rules, limit);
    if omitted {
      LongerSuffix(rules, lines, 0, k - 1);
      var marker := Rendered(rules, MARKER_LINE);
      selected, used, k := MakeRoom(lines, rules, limit, selected, used, |marker|, k);
      SelectsJoin(rules, lines, k, selected);
      report := JoinReversed(selected);
      if |marker| <= limit - used {
        assert (selected + [marker])[..|selected|] == selected;
        report := JoinReversed(selected + [marker]);
      }
    } else {
      SelectsJoin(rules, lines, k, selected);
      report := JoinReversed(selected);
    }
  }

  /** sanitized_worker_log; None is the SupervisorError for a limit that is not positive.
      `k` is how many of the redacted lines were dropped, always from the front. */
  method Sanitize(original: seq<string>, rules: Rules, limit: int) returns (report: Option<Bytes>, ghost k: nat)
    ensures report.None? <==> limit <= 0
    ensures report.Some? ==> |report.value| <= limit && k <= |ShownLines(original, rules)|
    ensures report.Some? ==>
      var shown, marker := ShownLines(original, rules), Rendered(rules, MARKER_LINE);
      if |Join(rules, shown)| <= limit then k == 0 && report.value == Join(rules, shown)
      else if |marker| <= limit then
        && 0 < k && report.value == marker + Join(rules, shown[k..])
        && |marker| + |Join(rules, shown[k - 1..])| > limit
      else report.value == []
    ensures forall line <- ShownLines(original, rules) ::
      || line == KEY_LINE || line == SENSITIVE_LINE || line == EMPTY_LINE
      || exists i :: 0 <= i < |original| && line == "| " + Cleaned(original, rules)[i]
           && !Inside(Cleaned(original, rules), rules, i) && !rules.sensitive(Cleaned(original, rules)[i])
  {
    forall line | line in ShownLines(original, rules)
      ensures
        || line == KEY_LINE || line == SENSITIVE_LINE || line == EMPTY_LINE
        || exists i :: 0 <= i < |original| && line == "| " + Cleaned(original, rules)[i]
             && !Inside(Cleaned(original, rules), rules, i) && !rules.sensitive(Cleaned(original, rules)[i])
    {
      ShownLinesAreSafe(original, rules, line);
    }
    k := 0;
    if limit <= 0 { return None, 0; }
    var lines := RedactLines(original, rules);
    var bytes;
    bytes, k := BoundedTail(lines, rules, limit);
    report := Some(bytes);
  }
}
