/** rust/apps/server/src/web_shell.rs: splicing the server-rendered lobby into the built
    page and stamping the release into it. */
module WebShell {
  import opened Common
  import opened Substring

  const MARKER := "<!-- P2P_SSR_LOBBY_"
  const START := MARKER + "START -->"
  const END := MARKER + "END -->"
  const BOOT := "id=\"boot-fallback\""
  const MAIN := "id=\"main\""
  const PLACEHOLDER := "__P2P_RELEASE__"

  const STYLE := "href=\"/shell/" + "app-shell.css"
  const RESTORE := "src=\"/shell/" + "room-restore.js"
  const SCRIPT := "src=\"/shell/" + "app-shell.js"

  /** One of the three versioned asset references. */
  function Reference(asset: string): string { asset + "?v=" + PLACEHOLDER + "\"" }

  /** is_safe_release_version */
  predicate SafeRelease(r: string) {
    r != [] && forall i :: 0 <= i < |r| ==> SafeChar(r[i])
  }

  predicate SafeChar(c: char) {
    'a' <= c <= 'z' || 'A' <= c <= 'Z' || '0' <= c <= '9' || c == '.' || c == '_' || c == '-'
  }

  // ----- what makes a placeholder harmless to replace

  /** A placeholder with its guards. */
  ghost predicate GuardedAt(t: string, q: int) {
    OccursAt(t, PLACEHOLDER, q) && 0 < q && q + 15 < |t| && t[q - 1] == '=' && t[q + 15] == '"'
  }

  /** Every placeholder stands between an equals sign and a quote. */
  ghost predicate Guarded(s: string) {
    forall i :: OccursAt(s, PLACEHOLDER, i) ==>
      0 < i && i + |PLACEHOLDER| < |s| && s[i - 1] == '=' && s[i + |PLACEHOLDER|] == '"'
  }

  /** The two ids: `id="` followed by no further equals sign, no underscore, no newline. */
  ghost predicate IdLike(q: string) {
    && |q| >= 4 && q[0] == 'i' && q[1] == 'd' && q[2] == '=' && q[3] == '"'
    && (forall j :: 2 < j < |q| ==> q[j] != '=') && '_' !in q && '\n' !in q
  }

  lemma IdsAreIdLike()
    ensures IdLike(BOOT) && IdLike(MAIN) && Solo(BOOT) && Solo(MAIN)
  {
  }

  lemma PlaceholderChars()
    ensures |PLACEHOLDER| == 15 && PLACEHOLDER[0] == '_' && PLACEHOLDER[14] == '_'
    ensures '=' !in PLACEHOLDER && '"' !in PLACEHOLDER && 'i' !in PLACEHOLDER && '\n' !in PLACEHOLDER
    ensures '<' !in PLACEHOLDER && '>' !in PLACEHOLDER
  {
  }

  /** The middle part of a text that occurs, occurs. */
  lemma OccursInside(t: string, a: string, p: string, b: string, o: int)
    requires OccursAt(t, a + p + b, o)
    ensures OccursAt(t, p, o + |a|)
  {
    var whole := a + p + b;
    forall k | 0 <= k < |p| ensures t[o + |a| + k] == p[k] {
      OccursChar(t, whole, o, |a| + k);
      assert whole[|a| + k] == p[k];
    }
  }

  /** An asset reference contains a guarded placeholder. */
  lemma ReferenceGuards(t: string, asset: string, o: int) returns (q: int)
    requires OccursAt(t, Reference(asset), o) && |asset| >= 4
    ensures q == o + |asset| + 3 && GuardedAt(t, q) && t[q - 7] == asset[|asset| - 4]
  {
    PlaceholderChars();
    var before := asset + "?v=";
    var ref := Reference(asset);
    assert ref == before + PLACEHOLDER + "\"";
    q := o + |before|;
    OccursInside(t, before, PLACEHOLDER, "\"", o);
    assert |ref| == |asset| + 19 && ref[|asset| + 2] == '=' && ref[|asset| + 18] == '"';
    OccursChar(t, ref, o, |asset| + 2);
    OccursChar(t, ref, o, |asset| + 18);
    OccursChar(t, ref, o, |asset| - 4);
  }

  /** Nothing overlaps a guarded placeholder. */
  lemma Isolated(t: string, q: int, i: int)
    requires GuardedAt(t, q) && OccursAt(t, PLACEHOLDER, i) && q - 15 < i < q + 15
    ensures i == q
  {
    PlaceholderChars();
    if i < q { OccursChar(t, PLACEHOLDER, i, q - 1 - i); }
    if i > q { OccursChar(t, PLACEHOLDER, i, q + 15 - i); }
  }

  lemma GuardedIsListed(t: string, q: int)
    requires GuardedAt(t, q)
    ensures q in MatchIndices(t, PLACEHOLDER, 0)
  {
    PlaceholderChars();
    ListedOrOverlapped(t, PLACEHOLDER, 0, q);
    var found := MatchIndices(t, PLACEHOLDER, 0);
    var k :| 0 <= k < |found| && found[k] <= q < found[k] + 15;
    Isolated(t, q, found[k]);
  }

  lemma AssetsDiffer()
    ensures |STYLE| >= 4 && STYLE[|STYLE| - 4] == '.'
    ensures |RESTORE| >= 4 && RESTORE[|RESTORE| - 4] == 'e'
    ensures |SCRIPT| >= 4 && SCRIPT[|SCRIPT| - 4] == 'l'
  {
  }

  /** Three guarded placeholders among three matches leave no placeholder elsewhere, not even
      one that overlaps another. */
  lemma OnlyThese(t: string, found: seq<nat>, q1: int, q2: int, q3: int, i: int)
    requires OccursAt(t, PLACEHOLDER, i) && Covered(found, 15, i)
    requires GuardedAt(t, q1) && GuardedAt(t, q2) && GuardedAt(t, q3) && q1 != q2 && q2 != q3 && q1 != q3
    requires |found| == 3 && q1 in found && q2 in found && q3 in found
    ensures i == q1 || i == q2 || i == q3
  {
    var k :| 0 <= k < |found| && found[k] <= i < found[k] + 15;
    OneOfThree(found, q1, q2, q3, k);
    Isolated(t, found[k], i);
  }

  /** Where the placeholder of a reference found at o begins. */
  function PlaceholderOf(asset: string, o: int): int { o + |asset| + 3 }

  lemma ReferencePlaceholder(t: string, asset: string, o: int)
    requires OccursAt(t, Reference(asset), o) && |asset| >= 4
    ensures
      var q := PlaceholderOf(asset, o);
      GuardedAt(t, q) && q in MatchIndices(t, PLACEHOLDER, 0) && q >= 7 && t[q - 7] == asset[|asset| - 4]
  {
    var q := ReferenceGuards(t, asset, o);
    GuardedIsListed(t, q);
  }

  /** Assets that differ four characters before their end guard different placeholders. */
  lemma ThreePlaceholders(t: string, a: string, b: string, c: string, i: int, j: int, k: int)
    requires OccursAt(t, Reference(a), i) && OccursAt(t, Reference(b), j) && OccursAt(t, Reference(c), k)
    requires |a| >= 4 && |b| >= 4 && |c| >= 4
    requires a[|a| - 4] != b[|b| - 4] && b[|b| - 4] != c[|c| - 4] && a[|a| - 4] != c[|c| - 4]
    ensures
      var q1, q2, q3 := PlaceholderOf(a, i), PlaceholderOf(b, j), PlaceholderOf(c, k);
      && GuardedAt(t, q1) && GuardedAt(t, q2) && GuardedAt(t, q3) && q1 != q2 && q2 != q3 && q1 != q3
      && var found := MatchIndices(t, PLACEHOLDER, 0); q1 in found && q2 in found && q3 in found
  {
    ReferencePlaceholder(t, a, i);
    ReferencePlaceholder(t, b, j);
    ReferencePlaceholder(t, c, k);
  }

  ghost predicate OnlyAt(t: string, q1: int, q2: int, q3: int) {
    forall q :: OccursAt(t, PLACEHOLDER, q) ==> q == q1 || q == q2 || q == q3
  }

  /** Every placeholder belongs to one of the three references found there. */
  ghost predicate OnlyInReferences(t: string, i: int, j: int, k: int) {
    OnlyAt(t, PlaceholderOf(STYLE, i), PlaceholderOf(RESTORE, j), PlaceholderOf(SCRIPT, k))
  }

  /** Beside the three references, a count of three says that there is no other placeholder,
      not even an overlapping one, and nothing else says so. */
  lemma ThreeMeansNoOther(t: string, i: int, j: int, k: int)
    requires OccursAt(t, Reference(STYLE), i) && OccursAt(t, Reference(RESTORE), j) && OccursAt(t, Reference(SCRIPT), k)
    ensures Matches(t, PLACEHOLDER) == 3 <==> OnlyInReferences(t, i, j, k)
    ensures OnlyInReferences(t, i, j, k) ==> Guarded(t)
  {
    AssetsDiffer();
    ThreePlaceholders(t, STYLE, RESTORE, SCRIPT, i, j, k);
    ThreeOrOther(t, PlaceholderOf(STYLE, i), PlaceholderOf(RESTORE, j), PlaceholderOf(SCRIPT, k));
  }

  lemma ThreeOrOther(t: string, q1: int, q2: int, q3: int)
    requires GuardedAt(t, q1) && GuardedAt(t, q2) && GuardedAt(t, q3) && q1 != q2 && q2 != q3 && q1 != q3
    requires var found := MatchIndices(t, PLACEHOLDER, 0); q1 in found && q2 in found && q3 in found
    ensures Matches(t, PLACEHOLDER) == 3 <==> OnlyAt(t, q1, q2, q3)
    ensures OnlyAt(t, q1, q2, q3) ==> Guarded(t)
  {
    if Matches(t, PLACEHOLDER) == 3 { NoneBesideThree(t, q1, q2, q3); }
    if OnlyAt(t, q1, q2, q3) {
      CountOfThree(t, q1, q2, q3);
      GuardedByThree(t, q1, q2, q3);
    }
  }

  lemma GuardedByThree(t: string, q1: int, q2: int, q3: int)
    requires GuardedAt(t, q1) && GuardedAt(t, q2) && GuardedAt(t, q3) && OnlyAt(t, q1, q2, q3)
    ensures Guarded(t)
  {
    PlaceholderChars();
  }

  lemma TemplateIsGuarded(t: string)
    requires Matches(t, PLACEHOLDER) == 3
    requires Contains(t, Reference(STYLE)) && Contains(t, Reference(RESTORE)) && Contains(t, Reference(SCRIPT))
    ensures Guarded(t)
  {
    var i :| OccursAt(t, Reference(STYLE), i);
    var j :| OccursAt(t, Reference(RESTORE), j);
    var k :| OccursAt(t, Reference(SCRIPT), k);
    ThreeMeansNoOther(t, i, j, k);
  }

  lemma NoneBesideThree(t: string, q1: int, q2: int, q3: int)
    requires Matches(t, PLACEHOLDER) == 3
    requires GuardedAt(t, q1) && GuardedAt(t, q2) && GuardedAt(t, q3) && q1 != q2 && q2 != q3 && q1 != q3
    requires var found := MatchIndices(t, PLACEHOLDER, 0); q1 in found && q2 in found && q3 in found
    ensures OnlyAt(t, q1, q2, q3)
  {
    PlaceholderChars();
    forall q | OccursAt(t, PLACEHOLDER, q) ensures q == q1 || q == q2 || q == q3 {
      ListedOrOverlapped(t, PLACEHOLDER, 0, q);
      OnlyThese(t, MatchIndices(t, PLACEHOLDER, 0), q1, q2, q3, q);
    }
  }

  lemma CountOfThree(t: string, q1: int, q2: int, q3: int)
    requires OnlyAt(t, q1, q2, q3)
    requires q1 != q2 && q2 != q3 && q1 != q3
    requires var found := MatchIndices(t, PLACEHOLDER, 0); q1 in found && q2 in found && q3 in found
    ensures Matches(t, PLACEHOLDER) == 3
  {
    var found := MatchIndices(t, PLACEHOLDER, 0);
    MatchesIncrease(t, PLACEHOLDER, 0);
    ElementsCount(found);
    assert Elements(found) == {q1, q2, q3};
  }

  function Elements(found: seq<nat>): set<int> { set q: int | q in found }

  lemma {:induction false} ElementsCount(found: seq<nat>)
    requires Increasing(found)
    ensures |Elements(found)| == |found|
    decreases |found|
  {
    if found != [] {
      var n := |found| - 1;
      ElementsCount(found[..n]);
      assert found == found[..n] + [found[n]];
      assert Elements(found) == Elements(found[..n]) + {found[n]};
    }
  }

  lemma OneOfThree(found: seq<nat>, a: int, b: int, c: int, k: nat)
    requires |found| == 3 && a in found && b in found && c in found && a != b && b != c && a != c && k < 3
    ensures found[k] == a || found[k] == b || found[k] == c
  {
  }

  // ----- replacing guarded placeholders

  /** The leftmost occurrence. */
  lemma FirstOccurrence(s: string, p: string) returns (k: nat)
    requires Contains(s, p)
    ensures OccursAt(s, p, k) && forall j :: 0 <= j < k ==> !OccursAt(s, p, j)
  {
    var i :| OccursAt(s, p, i);
    k := 0;
    while !OccursAt(s, p, k)
      invariant k <= i && forall j :: 0 <= j < k ==> !OccursAt(s, p, j)
      decreases i - k
    {
      k := k + 1;
    }
  }

  lemma ReplaceFirst(u: string, v: string, r: string)
    requires !Contains(u, PLACEHOLDER) && u != [] && u[|u| - 1] == '='
    ensures Replace(u + (PLACEHOLDER + v), PLACEHOLDER, r) == u + (r + Replace(v, PLACEHOLDER, r))
  {
    PlaceholderChars();
    SeamByChar(u, PLACEHOLDER + v, PLACEHOLDER);
    ReplaceConcat(u, PLACEHOLDER + v, PLACEHOLDER, r);
    ReplaceNone(u, PLACEHOLDER, r);
    assert PLACEHOLDER <= PLACEHOLDER + v && (PLACEHOLDER + v)[15..] == v;
  }

  lemma NoneBeforeFirst(s: string, p: string, k: nat)
    requires k <= |s| && p != [] && forall j :: 0 <= j < k ==> !OccursAt(s, p, j)
    ensures !Contains(s[..k], p)
  {
    assert s == s[..k] + s[k..];
    forall i ensures !OccursAt(s[..k], p, i) {
      if OccursAt(s[..k], p, i) { OccursLeft(s[..k], s[k..], p, i); }
    }
  }

  /** A guarded text with a placeholder, cut at the first one. */
  lemma Cut(s: string, r: string) returns (u: string, v: string)
    requires Guarded(s) && Contains(s, PLACEHOLDER)
    ensures s == u + (PLACEHOLDER + v) && |v| < |s|
    ensures u != [] && u[|u| - 1] == '=' && v != [] && v[0] == '"' && !Contains(u, PLACEHOLDER) && Guarded(v)
    ensures Replace(s, PLACEHOLDER, r) == u + (r + Replace(v, PLACEHOLDER, r))
  {
    PlaceholderChars();
    var k := FirstOccurrence(s, PLACEHOLDER);
    u, v := s[..k], s[k + 15..];
    assert s == u + (PLACEHOLDER + v) by { assert s[k..k + 15] == PLACEHOLDER; }
    NoneBeforeFirst(s, PLACEHOLDER, k);
    SuffixGuarded(s, k + 15);
    ReplaceFirst(u, v, r);
  }

  /** A suffix that does not begin with a placeholder is guarded too. */
  lemma SuffixGuarded(s: string, n: nat)
    requires Guarded(s) && n <= |s| && (n < |s| ==> s[n] != '_')
    ensures Guarded(s[n..])
  {
    PlaceholderChars();
    forall i | OccursAt(s[n..], PLACEHOLDER, i)
      ensures 0 < i && i + 15 < |s[n..]| && s[n..][i - 1] == '=' && s[n..][i + 15] == '"'
    {
      assert s == s[..n] + s[n..];
      OccursRight(s[..n], s[n..], PLACEHOLDER, i + n);
      OccursChar(s[n..], PLACEHOLDER, i, 0);
    }
  }

  /** A prefix that does not end inside or right after a placeholder is guarded too. */
  lemma PrefixGuarded(s: string, n: nat)
    requires Guarded(s) && 0 < n <= |s| && s[n - 1] == '>'
    ensures Guarded(s[..n])
  {
    PlaceholderChars();
    forall i | OccursAt(s[..n], PLACEHOLDER, i)
      ensures 0 < i && i + 15 < n && s[i - 1] == '=' && s[i + 15] == '"'
    {
      assert s == s[..n] + s[n..];
      OccursLeft(s[..n], s[n..], PLACEHOLDER, i);
      OccursChar(s[..n], PLACEHOLDER, i, 14);
    }
  }

  lemma ReplaceKeepsHead(v: string, r: string)
    requires v != [] && v[0] == '"'
    ensures Replace(v, PLACEHOLDER, r) != [] && Replace(v, PLACEHOLDER, r)[0] == '"'
  {
    PlaceholderChars();
  }

  lemma NoIdIn(s: string, q: string, c: char, t: nat)
    requires t < |q| && q[t] == c && c !in s
    ensures !Contains(s, q)
  {
    forall i ensures !OccursAt(s, q, i) {
      if OccursAt(s, q, i) { OccursChar(s, q, i, t); }
    }
  }

  /** An id neither touches a placeholder nor arises around a release. */
  lemma IdSeams(u: string, v: string, w: string, r: string, q: string)
    requires IdLike(q) && SafeRelease(r) && u != [] && u[|u| - 1] == '=' && w != [] && w[0] == '"'
    ensures Seamless(u, PLACEHOLDER + v, q) && Seamless(PLACEHOLDER, v, q) && !Contains(PLACEHOLDER, q)
    ensures Seamless(u, r + w, q) && Seamless(r, w, q) && !Contains(r, q)
  {
    PlaceholderChars();
    SeamByChar(u, PLACEHOLDER + v, q);
    SeamByChar(PLACEHOLDER, v, q);
    NoIdIn(PLACEHOLDER, q, 'i', 0);
    assert '=' !in r && '"' !in r by { assert !SafeChar('=') && !SafeChar('"'); }
    NoIdIn(r, q, '=', 2);
    forall i | OccursAt(u + (r + w), q, i) ensures i + |q| <= |u| || |u| <= i {
      if i < |u| < i + |q| {
        OccursChar(u + (r + w), q, i, |u| - 1 - i);
        OccursChar(u + (r + w), q, i, |u| - i);
      }
    }
    forall i | OccursAt(r + w, q, i) ensures i + |q| <= |r| || |r| <= i {
      if i < |r| < i + |q| {
        OccursChar(r + w, q, i, |r| - i);
        OccursChar(r + w, q, i, 2);
      }
    }
  }

  /** Stamping a release in adds no id. */
  lemma {:induction false} NoNewId(s: string, r: string, q: string)
    requires Guarded(s) && SafeRelease(r) && IdLike(q) && !Contains(s, q)
    ensures !Contains(Replace(s, PLACEHOLDER, r), q)
    decreases |s|
  {
    if !Contains(s, PLACEHOLDER) {
      ReplaceNone(s, PLACEHOLDER, r);
    } else {
      var u, v := Cut(s, r);
      var w := Replace(v, PLACEHOLDER, r);
      ReplaceKeepsHead(v, r);
      IdSeams(u, v, w, r, q);
      assert !Contains(u, q) && !Contains(v, q) by {
        forall i ensures !OccursAt(u, q, i) { IdSides(u, v, q, i); }
        forall i ensures !OccursAt(v, q, i) { IdSides(u, v, q, i + |u| + |PLACEHOLDER|); }
      }
      NoNewId(v, r, q);
      NoneInConcat(r, w, q);
      NoneInConcat(u, r + w, q);
    }
  }

  /** In a text cut at a placeholder, an id is left or right of it. */
  lemma IdSides(u: string, v: string, q: string, j: int)
    requires Seamless(u, PLACEHOLDER + v, q) && Seamless(PLACEHOLDER, v, q) && !Contains(PLACEHOLDER, q)
    ensures OccursAt(u + (PLACEHOLDER + v), q, j) <==> OccursAt(u, q, j) || OccursAt(v, q, j - |u| - |PLACEHOLDER|)
  {
    OccursEither(u, PLACEHOLDER + v, q, j);
    OccursEither(PLACEHOLDER, v, q, j - |u|);
  }

  lemma IdOnLeft(u: string, v: string, q: string, i: int)
    requires Seamless(u, PLACEHOLDER + v, q) && Seamless(PLACEHOLDER, v, q) && !Contains(PLACEHOLDER, q)
    requires Once(u + (PLACEHOLDER + v), q, i) && OccursAt(u, q, i)
    ensures Once(u, q, i) && !Contains(v, q)
  {
    forall j | OccursAt(u, q, j) ensures j == i { IdSides(u, v, q, j); }
    forall j ensures !OccursAt(v, q, j) {
      IdSides(u, v, q, j + |u| + |PLACEHOLDER|);
    }
  }

  lemma IdOnRight(u: string, v: string, q: string, i: int)
    requires Seamless(u, PLACEHOLDER + v, q) && Seamless(PLACEHOLDER, v, q) && !Contains(PLACEHOLDER, q)
    requires Once(u + (PLACEHOLDER + v), q, i) && !OccursAt(u, q, i)
    ensures !Contains(u, q) && Once(v, q, i - |u| - |PLACEHOLDER|)
  {
    IdSides(u, v, q, i);
    forall j ensures !OccursAt(u, q, j) { IdSides(u, v, q, j); }
    forall j | OccursAt(v, q, j) ensures j == i - |u| - |PLACEHOLDER| {
      IdSides(u, v, q, j + |u| + |PLACEHOLDER|);
    }
  }

  lemma IdStaysLeft(u: string, v: string, r: string, q: string, i: int)
    requires IdLike(q) && SafeRelease(r) && Guarded(v) && u != [] && u[|u| - 1] == '=' && v != [] && v[0] == '"'
    requires Once(u + (PLACEHOLDER + v), q, i) && OccursAt(u, q, i)
    ensures Once(u + (r + Replace(v, PLACEHOLDER, r)), q, i)
  {
    var w := Replace(v, PLACEHOLDER, r);
    ReplaceKeepsHead(v, r);
    IdSeams(u, v, w, r, q);
    IdOnLeft(u, v, q, i);
    NoNewId(v, r, q);
    NoneInConcat(r, w, q);
    OnceLeft(u, r + w, q, i);
  }

  lemma IdStaysRight(u: string, v: string, r: string, q: string, k: int)
    requires IdLike(q) && SafeRelease(r) && u != [] && u[|u| - 1] == '=' && v != [] && v[0] == '"'
    requires !Contains(u, q) && Once(Replace(v, PLACEHOLDER, r), q, k)
    ensures Once(u + (r + Replace(v, PLACEHOLDER, r)), q, |u| + (|r| + k))
  {
    var w := Replace(v, PLACEHOLDER, r);
    ReplaceKeepsHead(v, r);
    IdSeams(u, v, w, r, q);
    OnceRight(r, w, q, k);
    OnceRight(u, r + w, q, |r| + k);
  }

  lemma IdSplits(u: string, v: string, r: string, q: string, i: int)
    requires IdLike(q) && SafeRelease(r) && u != [] && u[|u| - 1] == '=' && v != [] && v[0] == '"'
    requires Once(u + (PLACEHOLDER + v), q, i) && !OccursAt(u, q, i)
    ensures !Contains(u, q) && Once(v, q, i - |u| - |PLACEHOLDER|)
  {
    IdSeams(u, v, v, r, q);
    IdOnRight(u, v, q, i);
  }

  /** Stamping a release in moves an id but keeps it single. */
  lemma {:induction false} IdSurvives(s: string, r: string, q: string, i: int) returns (i': int)
    requires Guarded(s) && SafeRelease(r) && IdLike(q) && Once(s, q, i)
    ensures Once(Replace(s, PLACEHOLDER, r), q, i')
    decreases |s|, 0
  {
    if !Contains(s, PLACEHOLDER) {
      ReplaceNone(s, PLACEHOLDER, r);
      i' := i;
    } else {
      var u, v := Cut(s, r);
      i' := IdSurvivesCut(u, v, r, q, i);
    }
  }

  lemma {:induction false} IdSurvivesCut(u: string, v: string, r: string, q: string, i: int) returns (i': int)
    requires IdLike(q) && SafeRelease(r) && Guarded(v) && u != [] && u[|u| - 1] == '=' && v != [] && v[0] == '"'
    requires Once(u + (PLACEHOLDER + v), q, i)
    ensures Once(u + (r + Replace(v, PLACEHOLDER, r)), q, i')
    decreases |v|, 1
  {
    if OccursAt(u, q, i) {
      IdStaysLeft(u, v, r, q, i);
      i' := i;
    } else {
      IdSplits(u, v, r, q, i);
      var k := IdSurvives(v, r, q, i - |u| - |PLACEHOLDER|);
      IdStaysRight(u, v, r, q, k);
      i' := |u| + (|r| + k);
    }
  }

  /** No placeholder is left unless the release brings one. */
  lemma {:induction false} NoPlaceholderLeft(s: string, r: string)
    requires Guarded(s) && !Contains(r, PLACEHOLDER)
    ensures !Contains(Replace(s, PLACEHOLDER, r), PLACEHOLDER)
    decreases |s|
  {
    if !Contains(s, PLACEHOLDER) {
      ReplaceNone(s, PLACEHOLDER, r);
    } else {
      var u, v := Cut(s, r);
      var w := Replace(v, PLACEHOLDER, r);
      ReplaceKeepsHead(v, r);
      PlaceholderChars();
      NoPlaceholderLeft(v, r);
      SeamByChar(r, w, PLACEHOLDER);
      NoneInConcat(r, w, PLACEHOLDER);
      SeamByChar(u, r + w, PLACEHOLDER);
      NoneInConcat(u, r + w, PLACEHOLDER);
    }
  }

  // ----- str::trim

  predicate White(c: char) {
    var n := c as int;
    || 9 <= n <= 13 || n == 32 || n == 0x85 || n == 0xA0 || n == 0x1680 || 0x2000 <= n <= 0x200A
    || n == 0x2028 || n == 0x2029 || n == 0x202F || n == 0x205F || n == 0x3000
  }

  function TrimStart(s: string): string { if s != [] && White(s[0]) then TrimStart(s[1..]) else s }

  function TrimEnd(s: string): string {
    if s != [] && White(s[|s| - 1]) then TrimEnd(s[..|s| - 1]) else s
  }

  function Trim(s: string): string { TrimEnd(TrimStart(s)) }

  /** Trimming cuts white space off both ends and nothing else. */
  lemma {:induction false} TrimStartCuts(s: string) returns (n: nat)
    ensures n <= |s| && TrimStart(s) == s[n..] && forall i :: 0 <= i < n ==> White(s[i])
  {
    n := 0;
    if s != [] && White(s[0]) {
      n := TrimStartCuts(s[1..]);
      assert s[1..][n..] == s[n + 1..];
      assert forall i :: 0 < i < n + 1 ==> s[i] == s[1..][i - 1];
      n := n + 1;
    }
  }

  lemma {:induction false} TrimEndCuts(s: string) returns (n: nat)
    ensures n <= |s| && TrimEnd(s) == s[..n] && forall i :: n <= i < |s| ==> White(s[i])
  {
    n := |s|;
    if s != [] && White(s[|s| - 1]) {
      var init := s[..|s| - 1];
      n := TrimEndCuts(init);
      assert init[..n] == s[..n];
    }
  }

  /** Cutting white space off keeps exactly the occurrences of a pattern that has none. */
  lemma TrimKeeps(s: string, q: string) returns (n: nat)
    requires q != [] && forall t :: 0 <= t < |q| ==> !White(q[t])
    ensures forall i :: OccursAt(Trim(s), q, i - n) <==> OccursAt(s, q, i)
  {
    n := TrimStartCuts(s);
    var inner := s[n..];
    var m := TrimEndCuts(inner);
    assert s == s[..n] + inner && inner == inner[..m] + inner[m..];
    forall i ensures OccursAt(inner[..m], q, i - n) <==> OccursAt(s, q, i) {
      if OccursAt(s, q, i) {
        OccursChar(s, q, i, 0);
        OccursChar(s, q, i, |q| - 1);
        assert i >= n;
        OccursRight(s[..n], inner, q, i);
        OccursChar(inner, q, i - n, |q| - 1);
        OccursLeft(inner[..m], inner[m..], q, i - n);
      } else if OccursAt(inner[..m], q, i - n) {
        OccursLeft(inner[..m], inner[m..], q, i - n);
        OccursRight(s[..n], inner, q, i);
      }
    }
  }

  // ----- from_template

  datatype ShellError =
    | EmptyLobby | ReservedMarkerInLobby | BootFallbackCount(actual: nat) | IslandMountInLobby
    | MarkerCount(marker: string, actual: nat) | MarkerOrder | BootFallbackOutsidePlaceholder
    | IslandMountCount(actual: nat) | IslandInsideLobby | ReleaseFingerprintCount(actual: nat)
    | AssetReferenceCount(reference: string, actual: nat) | InvalidReleaseVersion

  /** The checks of the lobby, in the order in which they are made; None accepts. */
  function CheckLobby(lobby: string): Option<ShellError> {
    if Trim(lobby) == [] then Some(EmptyLobby)
    else if Matches(lobby, START) > 0 || Matches(lobby, END) > 0 || Matches(lobby, PLACEHOLDER) > 0 then Some(ReservedMarkerInLobby)
    else if Matches(lobby, BOOT) != 1 then Some(BootFallbackCount(Matches(lobby, BOOT)))
    else if Matches(lobby, MAIN) > 0 then Some(IslandMountInLobby)
    else None
  }

  /** The checks of markers and ids in the template. */
  function CheckOrder(template: string): Option<ShellError> {
    if Matches(template, START) != 1 then Some(MarkerCount(START, Matches(template, START)))
    else if Matches(template, END) != 1 then Some(MarkerCount(END, Matches(template, END)))
    else
      var start, end := MatchIndices(template, START, 0)[0], MatchIndices(template, END, 0)[0];
      var boots := MatchIndices(template, BOOT, 0);
      if start >= end then Some(MarkerOrder)
      else if exists k :: 0 <= k < |boots| && (boots[k] <= start || boots[k] >= end) then Some(BootFallbackOutsidePlaceholder)
      else if Matches(template, MAIN) != 1 then Some(IslandMountCount(Matches(template, MAIN)))
      else if MatchIndices(template, MAIN, 0)[0] <= end then Some(IslandInsideLobby)
      else None
  }

  /** The checks of placeholders and asset references. */
  function CheckReleaseMarks(template: string): Option<ShellError> {
    if Matches(template, PLACEHOLDER) != 3 then Some(ReleaseFingerprintCount(Matches(template, PLACEHOLDER)))
    else if Matches(template, Reference(STYLE)) != 1 then Some(AssetReferenceCount(Reference(STYLE), Matches(template, Reference(STYLE))))
    else if Matches(template, Reference(RESTORE)) != 1 then Some(AssetReferenceCount(Reference(RESTORE), Matches(template, Reference(RESTORE))))
    else if Matches(template, Reference(SCRIPT)) != 1 then Some(AssetReferenceCount(Reference(SCRIPT), Matches(template, Reference(SCRIPT))))
    else None
  }

  /** All checks, in the order in which they are made. */
  function Check(template: string, lobby: string, release: string): Option<ShellError> {
    if CheckLobby(lobby).Some? then CheckLobby(lobby)
    else if CheckOrder(template).Some? then CheckOrder(template)
    else if CheckReleaseMarks(template).Some? then CheckReleaseMarks(template)
    else if !SafeRelease(release) then Some(InvalidReleaseVersion)
    else None
  }

  /** What the checks add up to, in terms of occurrences: a head that ends with the start
      marker, a tail that begins with the end marker. */
  ghost predicate Sound(head: string, tail: string, lobby: string, release: string) {
    && Guarded(head) && Guarded(tail) && SafeRelease(release)
    && !Contains(head, BOOT) && !Contains(tail, BOOT) && (exists i :: Once(lobby, BOOT, i))
    && !Contains(head, MAIN) && (exists i :: Once(tail, MAIN, i)) && !Contains(lobby, MAIN)
    && !Contains(lobby, PLACEHOLDER)
  }

  lemma MatchesZero(s: string, p: string)
    requires p != []
    ensures Matches(s, p) == 0 <==> !Contains(s, p)
  {
    forall i | OccursAt(s, p, i) ensures Matches(s, p) > 0 { ListedOrOverlapped(s, p, 0, i); }
    if Matches(s, p) > 0 { assert OccursAt(s, p, MatchIndices(s, p, 0)[0]); }
  }

  lemma MarkerChars()
    ensures |START| == 28 && START[0] == '<' && START[27] == '>'
    ensures forall j :: 0 < j < 28 ==> START[j] != '<'
    ensures 'i' !in START && |END| > 0 && END[0] == '<'
  {
    var tail := "START -->";
    assert forall j :: 19 <= j < 28 ==> START[j] == tail[j - 19];
    assert forall j :: 0 <= j < 19 ==> START[j] == MARKER[j];
  }

  /** The start marker ends before the end marker begins. */
  lemma MarkersApart(t: string, start: nat, end: nat)
    requires OccursAt(t, START, start) && OccursAt(t, END, end) && start < end
    ensures start + 28 <= end && t[start + 27] == '>' && t[end] == '<'
  {
    MarkerChars();
    OccursChar(t, END, end, 0);
    OccursChar(t, START, start, 27);
    if end < start + 28 { OccursChar(t, START, start, end - start); }
  }

  lemma NoBootInHead(t: string, start: nat)
    requires OccursAt(t, START, start) && forall i :: OccursAt(t, BOOT, i) ==> start < i
    ensures !Contains(t[..start + 28], BOOT)
  {
    MarkerChars();
    IdsAreIdLike();
    var head := t[..start + 28];
    forall i ensures !OccursAt(head, BOOT, i) {
      if OccursAt(head, BOOT, i) {
        assert t == head + t[start + 28..];
        OccursLeft(head, t[start + 28..], BOOT, i);
        OccursChar(t, BOOT, i, 0);
        OccursChar(t, START, start, i - start);
      }
    }
  }

  lemma NotInTail(t: string, end: nat, q: string)
    requires end <= |t| && forall i :: OccursAt(t, q, i) ==> i < end
    ensures !Contains(t[end..], q)
  {
    forall i ensures !OccursAt(t[end..], q, i) {
      if OccursAt(t[end..], q, i) {
        assert t == t[..end] + t[end..];
        OccursRight(t[..end], t[end..], q, i + end);
      }
    }
  }

  lemma NotInHead(t: string, n: nat, q: string)
    requires n <= |t| && forall i :: OccursAt(t, q, i) ==> n <= i
    requires q != []
    ensures !Contains(t[..n], q)
  {
    forall i ensures !OccursAt(t[..n], q, i) {
      if OccursAt(t[..n], q, i) {
        assert t == t[..n] + t[n..];
        OccursLeft(t[..n], t[n..], q, i);
      }
    }
  }

  lemma OnceInTail(t: string, end: nat, q: string, i: int)
    requires Once(t, q, i) && end <= i && end <= |t|
    ensures Once(t[end..], q, i - end)
  {
    assert t == t[..end] + t[end..];
    forall j | 0 <= j ensures OccursAt(t[end..], q, j) <==> j == i - end {
      OccursRight(t[..end], t[end..], q, j + end);
    }
  }

  lemma TrimKeepsNone(s: string, q: string)
    requires q != [] && (forall t :: 0 <= t < |q| ==> !White(q[t])) && !Contains(s, q)
    ensures !Contains(Trim(s), q)
  {
    var n := TrimKeeps(s, q);
    forall j ensures !OccursAt(Trim(s), q, j) { assert !OccursAt(s, q, j + n); }
  }

  lemma TrimKeepsOnce(s: string, q: string, at: int) returns (i: int)
    requires q != [] && (forall t :: 0 <= t < |q| ==> !White(q[t])) && Once(s, q, at)
    ensures Once(Trim(s), q, i)
  {
    var n := TrimKeeps(s, q);
    i := at - n;
    assert OccursAt(s, q, at);
    forall j | OccursAt(Trim(s), q, j) ensures j == i { assert OccursAt(s, q, j + n); }
  }

  lemma NoWhite()
    ensures forall t :: 0 <= t < |BOOT| ==> !White(BOOT[t])
    ensures forall t :: 0 <= t < |MAIN| ==> !White(MAIN[t])
    ensures forall t :: 0 <= t < |PLACEHOLDER| ==> !White(PLACEHOLDER[t])
  {
  }

  lemma LobbyIsSound(lobby: string)
    requires Matches(lobby, BOOT) == 1 && Matches(lobby, MAIN) == 0 && Matches(lobby, PLACEHOLDER) == 0
    ensures exists i :: Once(Trim(lobby), BOOT, i)
    ensures !Contains(Trim(lobby), MAIN) && !Contains(Trim(lobby), PLACEHOLDER)
  {
    IdsAreIdLike();
    NoWhite();
    MatchesZero(lobby, MAIN);
    MatchesZero(lobby, PLACEHOLDER);
    SoloOnce(lobby, BOOT);
    var i := TrimKeepsOnce(lobby, BOOT, MatchIndices(lobby, BOOT, 0)[0]);
    TrimKeepsNone(lobby, MAIN);
    TrimKeepsNone(lobby, PLACEHOLDER);
  }

  function StartOf(t: string): nat
    requires Matches(t, START) == 1
  {
    MatchIndices(t, START, 0)[0]
  }

  function EndOf(t: string): nat
    requires Matches(t, END) == 1
  {
    MatchIndices(t, END, 0)[0]
  }

  /** What the template's own checks establish. */
  lemma TemplateIsSound(template: string, lobby: string, release: string)
    requires Check(template, lobby, release).None?
    ensures
      var start, end := StartOf(template), EndOf(template);
      && start + 28 <= end <= |template|
      && Sound(template[..start + 28], template[end..], Trim(lobby), release)
  {
    var start, end := StartOf(template), EndOf(template);
    MarkersApart(template, start, end);
    IdsAreIdLike();
    LobbyIsSound(lobby);
    MatchesZero(template, Reference(STYLE));
    MatchesZero(template, Reference(RESTORE));
    MatchesZero(template, Reference(SCRIPT));
    TemplateIsGuarded(template);
    PrefixGuarded(template, start + 28);
    SuffixGuarded(template, end);
    var boots := MatchIndices(template, BOOT, 0);
    forall i | OccursAt(template, BOOT, i) ensures start < i < end {
      SoloIsListed(template, BOOT, i);
      var k :| 0 <= k < |boots| && boots[k] == i;
    }
    NoBootInHead(template, start);
    NotInTail(template, end, BOOT);
    SoloOnce(template, MAIN);
    var m := MatchIndices(template, MAIN, 0)[0];
    NotInHead(template, start + 28, MAIN);
    OnceInTail(template, end, MAIN, m);
  }

  function Stamped(s: string, release: string): string { Replace(s, PLACEHOLDER, release) }

  /** The replacement over the spliced page is the replacement over its template parts. */
  lemma SpliceThenStamp(head: string, lobby: string, tail: string, release: string)
    requires !Contains(lobby, PLACEHOLDER)
    ensures Stamped(head + ("\n" + (lobby + ("\n" + tail))), release)
      == Stamped(head, release) + ("\n" + (lobby + ("\n" + Stamped(tail, release))))
  {
    PlaceholderChars();
    NewlineStep(tail, release);
    SeamByChar(lobby, "\n" + tail, PLACEHOLDER);
    ReplaceConcat(lobby, "\n" + tail, PLACEHOLDER, release);
    ReplaceNone(lobby, PLACEHOLDER, release);
    NewlineStep(lobby + ("\n" + tail), release);
    SeamByChar(head, "\n" + (lobby + ("\n" + tail)), PLACEHOLDER);
    ReplaceConcat(head, "\n" + (lobby + ("\n" + tail)), PLACEHOLDER, release);
  }

  lemma NewlineStep(s: string, release: string)
    ensures Stamped("\n" + s, release) == "\n" + Stamped(s, release)
  {
    PlaceholderChars();
    assert ("\n" + s)[0] == '\n' && ("\n" + s)[1..] == s;
  }

  /** An id sits in exactly one of three parts joined by newlines. */
  lemma NewlineSeams(a: string, b: string, c: string, q: string)
    requires '\n' !in q && q != []
    ensures Seamless(a, "\n" + (b + ("\n" + c)), q) && Seamless("\n", b + ("\n" + c), q)
    ensures Seamless(b, "\n" + c, q) && Seamless("\n", c, q) && !Contains("\n", q)
  {
    SeamByChar(a, "\n" + (b + ("\n" + c)), q);
    SeamByChar("\n", b + ("\n" + c), q);
    SeamByChar(b, "\n" + c, q);
    SeamByChar("\n", c, q);
    NoIdIn("\n", q, q[0], 0);
  }

  /** The fallback id of the page is the lobby's. */
  lemma BootOnce(a: string, b: string, c: string, i: int)
    requires !Contains(a, BOOT) && !Contains(c, BOOT) && Once(b, BOOT, i)
    ensures Once(a + ("\n" + (b + ("\n" + c))), BOOT, |a| + (1 + i))
  {
    IdsAreIdLike();
    NewlineSeams(a, b, c, BOOT);
    NoneInConcat("\n", c, BOOT);
    OnceLeft(b, "\n" + c, BOOT, i);
    OnceRight("\n", b + ("\n" + c), BOOT, i);
    OnceRight(a, "\n" + (b + ("\n" + c)), BOOT, 1 + i);
  }

  /** The island's id of the page is the template's. */
  lemma MainOnce(a: string, b: string, c: string, i: int)
    requires !Contains(a, MAIN) && !Contains(b, MAIN) && Once(c, MAIN, i)
    ensures Once(a + ("\n" + (b + ("\n" + c))), MAIN, |a| + (1 + (|b| + (1 + i))))
  {
    IdsAreIdLike();
    NewlineSeams(a, b, c, MAIN);
    OnceRight("\n", c, MAIN, i);
    OnceRight(b, "\n" + c, MAIN, 1 + i);
    OnceRight("\n", b + ("\n" + c), MAIN, |b| + (1 + i));
    OnceRight(a, "\n" + (b + ("\n" + c)), MAIN, 1 + (|b| + (1 + i)));
  }

  lemma PlaceholderGone(a: string, b: string, c: string)
    requires !Contains(a, PLACEHOLDER) && !Contains(b, PLACEHOLDER) && !Contains(c, PLACEHOLDER)
    ensures !Contains(a + ("\n" + (b + ("\n" + c))), PLACEHOLDER)
  {
    PlaceholderChars();
    NewlineSeams(a, b, c, PLACEHOLDER);
    NoneInConcat("\n", c, PLACEHOLDER);
    NoneInConcat(b, "\n" + c, PLACEHOLDER);
    NoneInConcat("\n", b + ("\n" + c), PLACEHOLDER);
    NoneInConcat(a, "\n" + (b + ("\n" + c)), PLACEHOLDER);
  }

  /** What every accepted page is: the template's text before and after the markers, stamped
      with the release, around the trimmed lobby; exactly one fallback id, then exactly one
      island id; no placeholder unless the release contains one. */
  ghost predicate WellMade(page: string, template: string, lobby: string, release: string)
    requires Matches(template, START) == 1 && Matches(template, END) == 1
  {
    var start, end := StartOf(template), EndOf(template);
    && start + 28 <= end <= |template|
    && page == Stamped(template[..start + 28], release)
               + ("\n" + (Trim(lobby) + ("\n" + Stamped(template[end..], release))))
    && (exists b, m :: Once(page, BOOT, b) && Once(page, MAIN, m) && b < m)
    && (!Contains(release, PLACEHOLDER) ==> !Contains(page, PLACEHOLDER))
  }

  /** The page of a template with its two markers. */
  function Page(template: string, lobby: string, release: string): string
    requires Matches(template, START) == 1 && Matches(template, END) == 1
  {
    Stamped(template[..StartOf(template) + |START|] + ("\n" + (Trim(lobby) + ("\n" + template[EndOf(template)..]))), release)
  }

  lemma AcceptedPagesAreWellMade(template: string, lobby: string, release: string)
    requires Check(template, lobby, release).None?
    ensures WellMade(Page(template, lobby, release), template, lobby, release)
  {
    TemplateIsSound(template, lobby, release);
    MarkerChars();
    PartsMakePage(template[..StartOf(template) + |START|], Trim(lobby), template[EndOf(template)..], release);
  }

  lemma PartsMakePage(head: string, lobby: string, tail: string, release: string)
    requires Sound(head, tail, lobby, release)
    ensures
      var page := Stamped(head + ("\n" + (lobby + ("\n" + tail))), release);
      && page == Stamped(head, release) + ("\n" + (lobby + ("\n" + Stamped(tail, release))))
      && (exists b, m :: Once(page, BOOT, b) && Once(page, MAIN, m) && b < m)
      && (!Contains(release, PLACEHOLDER) ==> !Contains(page, PLACEHOLDER))
  {
    IdsAreIdLike();
    SpliceThenStamp(head, lobby, tail, release);
    var a, c := Stamped(head, release), Stamped(tail, release);
    NoNewId(head, release, BOOT);
    NoNewId(tail, release, BOOT);
    NoNewId(head, release, MAIN);
    var b :| Once(lobby, BOOT, b);
    var m :| Once(tail, MAIN, m);
    var m' := IdSurvives(tail, release, MAIN, m);
    BootOnce(a, lobby, c, b);
    MainOnce(a, lobby, c, m');
    assert |a| + (1 + b) < |a| + (1 + (|lobby| + (1 + m')));
    if !Contains(release, PLACEHOLDER) {
      NoPlaceholderLeft(head, release);
      NoPlaceholderLeft(tail, release);
      PlaceholderGone(a, lobby, c);
    }
  }

  // ----- which templates are accepted

  /** Said of occurrences alone: the lobby has text, one fallback id, no island id and no
      reserved text; the template has each marker once and in order, its fallback ids between
      them and its one island id after them, each asset reference once, and no placeholder
      outside these references. */
  ghost predicate Acceptable(template: string, lobby: string, release: string) {
    && (exists i :: 0 <= i < |lobby| && !White(lobby[i]))
    && !Contains(lobby, START) && !Contains(lobby, END) && !Contains(lobby, PLACEHOLDER) && !Contains(lobby, MAIN)
    && (exists i :: Once(lobby, BOOT, i))
    && (exists start, end, m :: InOrder(template, start, end, m))
    && (exists i, j, k :: Referenced(template, i, j, k))
    && SafeRelease(release)
  }

  ghost predicate InOrder(t: string, start: int, end: int, m: int) {
    && Once(t, START, start) && Once(t, END, end) && Once(t, MAIN, m) && start < end < m
    && forall i :: OccursAt(t, BOOT, i) ==> start < i < end
  }

  ghost predicate Referenced(t: string, i: int, j: int, k: int) {
    && Once(t, Reference(STYLE), i) && Once(t, Reference(RESTORE), j) && Once(t, Reference(SCRIPT), k)
    && OnlyInReferences(t, i, j, k)
  }

  /** Nothing is left of a text exactly when it is all white space. */
  lemma TrimsToNothing(s: string)
    ensures Trim(s) != [] <==> exists i :: 0 <= i < |s| && !White(s[i])
  {
    var n := TrimStartCuts(s);
    var inner := s[n..];
    var m := TrimEndCuts(inner);
    if Trim(s) == [] {
      forall i | 0 <= i < |s| ensures White(s[i]) {
        if i >= n { assert inner[i - n] == s[i]; }
      }
    } else {
      StartsBlack(s);
      EndsBlack(inner);
      assert inner[m - 1] == s[n + (m - 1)];
    }
  }

  lemma {:induction false} StartsBlack(s: string)
    ensures TrimStart(s) != [] ==> !White(TrimStart(s)[0])
  {
    if s != [] && White(s[0]) { StartsBlack(s[1..]); }
  }

  lemma {:induction false} EndsBlack(s: string)
    ensures TrimEnd(s) != [] ==> !White(TrimEnd(s)[|TrimEnd(s)| - 1])
  {
    if s != [] && White(s[|s| - 1]) { EndsBlack(s[..|s| - 1]); }
  }

  lemma MarkersAreSolo()
    ensures Solo(START) && Solo(END)
  {
    MarkerChars();
    var tail := "END -->";
    assert forall j :: 19 <= j < |END| ==> END[j] == tail[j - 19];
    assert forall j :: 0 <= j < 19 ==> END[j] == MARKER[j];
    assert forall j :: 0 < j < |END| ==> END[j] != '<';
  }

  /** An asset whose first two characters do not come again makes a reference that does not
      overlap itself. */
  lemma ReferenceIsSolo(asset: string)
    requires |asset| >= 2 && asset[0] !in "?v=" + PLACEHOLDER + "\"" && asset[1] != '?'
    requires forall j :: 0 < j < |asset| && asset[j] == asset[0] ==> j + 1 == |asset| || asset[j + 1] != asset[1]
    ensures Solo(Reference(asset))
  {
    var p, rest := Reference(asset), "?v=" + PLACEHOLDER + "\"";
    assert p == asset + rest;
    forall j | 0 < j < |p| ensures !StartsAgain(p, j) {
      if j >= |asset| { assert p[j] == rest[j - |asset|]; }
      if j == |asset| - 1 { assert p[j + 1] == rest[0] == '?'; }
    }
  }

  lemma ReferencesAreSolo()
    ensures Solo(Reference(STYLE)) && Solo(Reference(RESTORE)) && Solo(Reference(SCRIPT))
  {
    ReferenceIsSolo(STYLE);
    ReferenceIsSolo(RESTORE);
    ReferenceIsSolo(SCRIPT);
  }

  /** The checks accept exactly the acceptable templates. */
  lemma AcceptsExactly(template: string, lobby: string, release: string)
    ensures Check(template, lobby, release).None? <==> Acceptable(template, lobby, release)
  {
    IdsAreIdLike();
    LobbyCounts(lobby);
    TrimsToNothing(lobby);
    OrderCounts(template);
    ReferenceCounts(template);
  }

  lemma LobbyCounts(lobby: string)
    ensures Matches(lobby, START) == 0 <==> !Contains(lobby, START)
    ensures Matches(lobby, END) == 0 <==> !Contains(lobby, END)
    ensures Matches(lobby, PLACEHOLDER) == 0 <==> !Contains(lobby, PLACEHOLDER)
    ensures Matches(lobby, MAIN) == 0 <==> !Contains(lobby, MAIN)
    ensures Matches(lobby, BOOT) == 1 <==> exists i :: Once(lobby, BOOT, i)
  {
    IdsAreIdLike();
    MatchesZero(lobby, START);
    MatchesZero(lobby, END);
    MatchesZero(lobby, PLACEHOLDER);
    MatchesZero(lobby, MAIN);
    SoloCount(lobby, BOOT);
  }

  /** What the checks of markers and ids decide, first as they are made. */
  predicate OrderChecked(t: string) {
    && Matches(t, START) == 1 && Matches(t, END) == 1 && Matches(t, MAIN) == 1
    && StartOf(t) < EndOf(t) < MatchIndices(t, MAIN, 0)[0]
    && var boots := MatchIndices(t, BOOT, 0); forall k :: 0 <= k < |boots| ==> StartOf(t) < boots[k] < EndOf(t)
  }

  lemma OrderCounts(t: string)
    ensures OrderChecked(t) <==> exists start, end, m :: InOrder(t, start, end, m)
  {
    IdsAreIdLike();
    MarkersAreSolo();
    if OrderChecked(t) {
      SoloOnce(t, START);
      SoloOnce(t, END);
      SoloOnce(t, MAIN);
      forall i | OccursAt(t, BOOT, i) ensures StartOf(t) < i < EndOf(t) {
        SoloIsListed(t, BOOT, i);
        var boots := MatchIndices(t, BOOT, 0);
        var k :| 0 <= k < |boots| && boots[k] == i;
      }
      assert InOrder(t, StartOf(t), EndOf(t), MatchIndices(t, MAIN, 0)[0]);
    }
    if start, end, m :| InOrder(t, start, end, m) {
      OnceIsListed(t, START, start);
      OnceIsListed(t, END, end);
      OnceIsListed(t, MAIN, m);
    }
  }

  predicate ReferencesChecked(t: string) {
    && Matches(t, PLACEHOLDER) == 3
    && Matches(t, Reference(STYLE)) == 1 && Matches(t, Reference(RESTORE)) == 1 && Matches(t, Reference(SCRIPT)) == 1
  }

  lemma ReferenceCounts(t: string)
    ensures ReferencesChecked(t) <==> exists i, j, k :: Referenced(t, i, j, k)
  {
    ReferencesAreSolo();
    if ReferencesChecked(t) {
      SoloOnce(t, Reference(STYLE));
      SoloOnce(t, Reference(RESTORE));
      SoloOnce(t, Reference(SCRIPT));
      var i, j, k := MatchIndices(t, Reference(STYLE), 0)[0], MatchIndices(t, Reference(RESTORE), 0)[0], MatchIndices(t, Reference(SCRIPT), 0)[0];
      ThreeMeansNoOther(t, i, j, k);
      assert Referenced(t, i, j, k);
    }
    if i, j, k :| Referenced(t, i, j, k) {
      OnceIsListed(t, Reference(STYLE), i);
      OnceIsListed(t, Reference(RESTORE), j);
      OnceIsListed(t, Reference(SCRIPT), k);
      ThreeMeansNoOther(t, i, j, k);
    }
  }

  /** What each error says, in terms of occurrences. */
  ghost predicate Truthful(error: ShellError, template: string, lobby: string, release: string) {
    match error
    case EmptyLobby => forall i :: 0 <= i < |lobby| ==> White(lobby[i])
    case ReservedMarkerInLobby => Contains(lobby, START) || Contains(lobby, END) || Contains(lobby, PLACEHOLDER)
    case BootFallbackCount(n) => n == Matches(lobby, BOOT) && !exists i :: Once(lobby, BOOT, i)
    case IslandMountInLobby => Contains(lobby, MAIN)
    case MarkerCount(marker, n) =>
      (marker == START || marker == END) && n == Matches(template, marker) && !exists i :: Once(template, marker, i)
    case MarkerOrder => exists s, e :: Once(template, START, s) && Once(template, END, e) && e <= s
    case BootFallbackOutsidePlaceholder =>
      exists s, e, i :: Once(template, START, s) && Once(template, END, e) && OccursAt(template, BOOT, i) && (i <= s || e <= i)
    case IslandMountCount(n) => n == Matches(template, MAIN) && !exists i :: Once(template, MAIN, i)
    case IslandInsideLobby => exists e, m :: Once(template, END, e) && Once(template, MAIN, m) && m <= e
    case ReleaseFingerprintCount(n) => n == Matches(template, PLACEHOLDER) && n != 3
    case AssetReferenceCount(reference, n) =>
      && (reference == Reference(STYLE) || reference == Reference(RESTORE) || reference == Reference(SCRIPT))
      && n == Matches(template, reference) && !exists i :: Once(template, reference, i)
    case InvalidReleaseVersion => !SafeRelease(release)
  }

  /** Every error tells the truth, and a lobby error comes before a template error. */
  lemma ErrorsAreTrue(template: string, lobby: string, release: string)
    requires Check(template, lobby, release).Some?
    ensures Truthful(Check(template, lobby, release).value, template, lobby, release)
  {
    if CheckLobby(lobby).Some? {
      LobbyErrorsAreTrue(template, lobby, release);
    } else if CheckOrder(template).Some? {
      OrderErrorsAreTrue(template, lobby, release);
    } else if CheckReleaseMarks(template).Some? {
      ReleaseErrorsAreTrue(template, lobby, release);
    }
  }

  lemma LobbyErrorsAreTrue(template: string, lobby: string, release: string)
    requires CheckLobby(lobby).Some?
    ensures Truthful(CheckLobby(lobby).value, template, lobby, release)
  {
    TrimsToNothing(lobby);
    LobbyCounts(lobby);
  }

  lemma OrderErrorsAreTrue(template: string, lobby: string, release: string)
    requires CheckOrder(template).Some?
    ensures Truthful(CheckOrder(template).value, template, lobby, release)
  {
    IdsAreIdLike();
    MarkersAreSolo();
    SoloCount(template, START);
    SoloCount(template, END);
    SoloCount(template, MAIN);
    if Matches(template, START) == 1 == Matches(template, END) {
      SoloOnce(template, START);
      SoloOnce(template, END);
      if Matches(template, MAIN) == 1 { SoloOnce(template, MAIN); }
    }
  }

  lemma ReleaseErrorsAreTrue(template: string, lobby: string, release: string)
    requires CheckReleaseMarks(template).Some?
    ensures Truthful(CheckReleaseMarks(template).value, template, lobby, release)
  {
    ReferencesAreSolo();
    SoloCount(template, Reference(STYLE));
    SoloCount(template, Reference(RESTORE));
    SoloCount(template, Reference(SCRIPT));
  }

  // ----- the renderer

  /** unique_marker_offset */
  method UniqueMarkerOffset(template: string, marker: string) returns (offset: nat, error: Option<ShellError>)
    requires Solo(marker)
    ensures error.None? <==> exists i :: Once(template, marker, i)
    ensures error.None? ==> Once(template, marker, offset) && MatchIndices(template, marker, 0) == [offset]
    ensures error.Some? ==> error.value == MarkerCount(marker, Matches(template, marker)) && Matches(template, marker) != 1
  {
    SoloCount(template, marker);
    var offsets := MatchIndices(template, marker, 0);
    if |offsets| == 0 { return 0, Some(MarkerCount(marker, 0)); }
    if |offsets| > 1 { return 0, Some(MarkerCount(marker, Matches(template, marker))); }
    SoloOnce(template, marker);
    offset, error := offsets[0], None;
  }

  /** The loop over VERSIONED_SHELL_ASSET_REFERENCES: the first one not found exactly once. */
  method CheckReferences(template: string, assets: seq<string>) returns (error: Option<ShellError>)
    ensures error.None? ==> forall i :: 0 <= i < |assets| ==> Matches(template, Reference(assets[i])) == 1
    ensures error.Some? ==>
      exists i :: 0 <= i < |assets| && Matches(template, Reference(assets[i])) != 1
        && (forall j :: 0 <= j < i ==> Matches(template, Reference(assets[j])) == 1)
        && error.value == AssetReferenceCount(Reference(assets[i]), Matches(template, Reference(assets[i])))
  {
    for i := 0 to |assets|
      invariant forall j :: 0 <= j < i ==> Matches(template, Reference(assets[j])) == 1
    {
      var actual := Matches(template, Reference(assets[i]));
      if actual != 1 { return Some(AssetReferenceCount(Reference(assets[i]), actual)); }
    }
    error := None;
  }

  /** WebShellRenderer::from_template: answers the first failing check; exactly the acceptable
      templates get a page, and it is a well-made one. */
  method FromTemplate(template: string, lobby: string, release: string) returns (page: Option<string>, error: Option<ShellError>)
    ensures error == Check(template, lobby, release)
    ensures page.Some? <==> error.None?
    ensures page.Some? <==> Acceptable(template, lobby, release)
    ensures page.Some? ==>
      Matches(template, START) == 1 && Matches(template, END) == 1 && WellMade(page.value, template, lobby, release)
  {
    error := Validate(template, lobby, release);
    AcceptsExactly(template, lobby, release);
    if error.Some? { return None, error; }
    var html := BuildPage(template, lobby, release);
    page := Some(html);
  }

  /** The last part of from_template: the pushes and the replacement. */
  method BuildPage(template: string, lobby: string, release: string) returns (html: string)
    requires Check(template, lobby, release).None?
    ensures WellMade(html, template, lobby, release)
  {
    html := Splice(template, Trim(lobby), StartOf(template) + |START|, EndOf(template));
    html := Stamped(html, release);
    AcceptedPagesAreWellMade(template, lobby, release);
  }

  method Splice(template: string, lobby: string, contentStart: nat, end: nat) returns (html: string)
    requires contentStart <= |template| && end <= |template|
    ensures html == template[..contentStart] + ("\n" + (lobby + ("\n" + template[end..])))
  {
    html := template[..contentStart];
    html := html + "\n";
    html := html + lobby;
    html := html + "\n";
    html := html + template[end..];
  }

  /** The part of from_template that comes before the page is built. */
  method Validate(template: string, lobby: string, release: string) returns (error: Option<ShellError>)
    ensures error == Check(template, lobby, release)
  {
    if Trim(lobby) == [] { return Some(EmptyLobby); }
    if Matches(lobby, START) > 0 || Matches(lobby, END) > 0 || Matches(lobby, PLACEHOLDER) > 0 { return Some(ReservedMarkerInLobby); }
    var fallbacks := Matches(lobby, BOOT);
    if fallbacks != 1 { return Some(BootFallbackCount(fallbacks)); }
    if Matches(lobby, MAIN) > 0 { return Some(IslandMountInLobby); }
    MarkersAreSolo();
    var start, end;
    start, error := UniqueMarkerOffset(template, START);
    if error.Some? { return; }
    end, error := UniqueMarkerOffset(template, END);
    if error.Some? { return; }
    if start >= end { return Some(MarkerOrder); }
    var boots := MatchIndices(template, BOOT, 0);
    if exists k :: 0 <= k < |boots| && (boots[k] <= start || boots[k] >= end) { return Some(BootFallbackOutsidePlaceholder); }
    var islands := MatchIndices(template, MAIN, 0);
    if |islands| != 1 { return Some(IslandMountCount(|islands|)); }
    if islands[0] <= end { return Some(IslandInsideLobby); }
    var fingerprints := Matches(template, PLACEHOLDER);
    if fingerprints != 3 { return Some(ReleaseFingerprintCount(fingerprints)); }
    var assets := [STYLE, RESTORE, SCRIPT];
    error := CheckReferences(template, assets);
    assert assets[0] == STYLE && assets[1] == RESTORE && assets[2] == SCRIPT;
    if error.Some? { return; }
    if !SafeRelease(release) { error := Some(InvalidReleaseVersion); }
  }
}
