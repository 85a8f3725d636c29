/** Host names of certificates, the directories that hold them, and the way back from a changed path. */
module CertPaths {
  import opened Text

  // ---- Host names -----------------------------------------------------------------------------------------

  predicate LabelChar(c: char) { 'a' <= c <= 'z' || '0' <= c <= '9' || c == '-' }

  /** Letters, digits and inner hyphens, at most 63 of them. */
  predicate ValidLabel(l: string) {
    && 1 <= |l| <= 63 && (forall i :: 0 <= i < |l| ==> LabelChar(l[i]))
    && l[0] != '-' && l[|l| - 1] != '-'
  }

  predicate ValidLabels(ls: seq<string>) { forall i :: 0 <= i < |ls| ==> ValidLabel(ls[i]) }

  /** A dotted name of valid labels. An empty label, a slash or a blank already fails the label test. */
  predicate Plain(s: string) { ValidLabels(Split(s, '.')) }

  const Star: string := "*."

  /** The lower-case trimmed name if it is plain, or plain behind a wildcard label; otherwise empty. */
  function Sanitize(host: string): string {
    var h := TrimSpace(ToLower(host));
    if Plain(TrimPrefix(h, Star)) then h else ""
  }

  predicate Sanitized(h: string) { Plain(TrimPrefix(h, Star)) }

  predicate NameChar(c: char) { c == '.' || LabelChar(c) }

  lemma {:induction false} LabelChars(s: string)
    requires Plain(s)
    ensures s != "" && LabelChar(s[0]) && s[0] != '-' && LabelChar(s[|s| - 1])
    ensures forall i :: 0 <= i < |s| ==> NameChar(s[i])
    decreases |s|
  {
    var head := Before(s, '.');
    if |head| < |s| {
      var rest := s[|head| + 1..];
      TailLabels(head, Split(rest, '.'));
      LabelChars(rest);
      Reassemble(s, head, '.');
      DottedChars(head, rest);
    } else {
      assert head == s && ValidLabel([head][0]);
    }
  }

  lemma DottedChars(head: string, rest: string)
    requires ValidLabel(head) && rest != "" && LabelChar(rest[|rest| - 1])
    requires forall i :: 0 <= i < |rest| ==> NameChar(rest[i])
    ensures var s := head + ['.'] + rest;
            LabelChar(s[0]) && s[0] != '-' && LabelChar(s[|s| - 1]) && forall i :: 0 <= i < |s| ==> NameChar(s[i])
  {
  }

  lemma TailLabels(head: string, tail: seq<string>)
    requires ValidLabels([head] + tail)
    ensures ValidLabel(head) && ValidLabels(tail)
  {
    assert ([head] + tail)[0] == head;
    forall i | 0 <= i < |tail| ensures ValidLabel(tail[i]) {
      assert ([head] + tail)[i + 1] == tail[i];
    }
  }

  /** Sanitised names are the plain ones and the plain ones behind a wildcard label. */
  lemma SanitizedShape(h: string)
    requires Sanitized(h)
    ensures Plain(h) || (Star <= h && Plain(h[2..]))
    ensures h != "" && '/' !in h
  {
    var rest := TrimPrefix(h, Star);
    LabelChars(rest);
    if Star <= h {
      StarHasNoSlash(h, rest);
    }
  }

  lemma StarHasNoSlash(h: string, rest: string)
    requires Star <= h && rest == h[2..] && '/' !in rest
    ensures '/' !in h
  {
    assert h == Star + rest;
  }

  lemma NameCharFacts(c: char)
    requires NameChar(c) || c == '*'
    ensures LowerChar(c) == c && !IsSpace(c)
  {
  }

  lemma NameText(h: string)
    requires h != "" && forall i :: 0 <= i < |h| ==> NameChar(h[i]) || h[i] == '*'
    ensures ToLower(h) == h && TrimSpace(h) == h
  {
    forall i | 0 <= i < |h| ensures LowerChar(h[i]) == h[i] && !IsSpace(h[i]) {
      NameCharFacts(h[i]);
    }
  }

  lemma SanitizedText(h: string)
    requires Sanitized(h)
    ensures h != "" && ToLower(h) == h && TrimSpace(h) == h
  {
    var rest := TrimPrefix(h, Star);
    LabelChars(rest);
    if Star <= h {
      assert h == Star + rest;
    }
    NameText(h);
  }

  /** Sanitising leaves sanitised names alone, and whatever it returns is sanitised or empty. */
  lemma SanitizeFixed(h: string)
    ensures Sanitized(h) ==> Sanitize(h) == h
    ensures Sanitize(h) == "" || Sanitized(Sanitize(h))
  {
    if Sanitized(h) {
      SanitizedText(h);
    }
  }

  /** It only lowers case and trims, or gives up: exactly if what is left is no sanitised name. */
  lemma SanitizeIs(h: string)
    ensures Sanitize(h) == if Sanitized(TrimSpace(ToLower(h))) then TrimSpace(ToLower(h)) else ""
    ensures !Sanitized("")
  {
    NothingIsNotPlain();
  }

  lemma NothingIsNotPlain()
    ensures !Plain("")
  {
    SplitNone("", '.');
    assert Split("", '.')[0] == "";
  }

  /** A plain name, character by character: lower-case letters, digits, hyphens and dots, no hyphen or dot at either end
      or beside a dot, and no more than 63 characters between dots. */
  predicate PlainText(s: string) {
    && s != "" && (forall i :: 0 <= i < |s| ==> 'a' <= s[i] <= 'z' || '0' <= s[i] <= '9' || s[i] == '-' || s[i] == '.')
    && s[0] != '-' && s[0] != '.' && s[|s| - 1] != '-' && s[|s| - 1] != '.'
    && (forall i :: 0 <= i < |s| - 1 && s[i] == '.' ==> s[i + 1] != '.' && s[i + 1] != '-')
    && (forall i :: 0 < i < |s| && s[i] == '.' ==> s[i - 1] != '-')
    && (forall i, j :: 0 <= i <= j <= |s| && j - i > 63 ==> '.' in s[i..j])
  }

  lemma {:induction false} PlainIff(s: string)
    ensures Plain(s) <==> PlainText(s)
    decreases |s|
  {
    var head := Before(s, '.');
    BeforeHasNone(s, '.');
    SplitStep(s);
    if |head| == |s| {
      OneLabel(s);
    } else {
      var rest := s[|head| + 1..];
      PlainIff(rest);
      Reassemble(s, head, '.');
      LabelAndRest(s, head, rest);
      FirstLabel(head, Split(rest, '.'));
    }
  }

  lemma FirstLabel(head: string, tail: seq<string>)
    ensures ValidLabels([head] + tail) <==> ValidLabel(head) && ValidLabels(tail)
  {
    var all := [head] + tail;
    if ValidLabels(all) {
      TailLabels(head, tail);
    }
  }

  lemma OneLabel(s: string)
    requires '.' !in s
    ensures ValidLabels([s]) <==> PlainText(s)
  {
    assert s[0..|s|] == s;
    if ValidLabels([s]) {
      assert ValidLabel([s][0]);
    }
  }

  lemma LabelAndRest(s: string, head: string, rest: string)
    requires '.' !in head && s == head + ['.'] + rest
    ensures PlainText(s) <==> ValidLabel(head) && PlainText(rest)
  {
    if PlainText(s) {
      LabelFirst(s, head, rest);
    }
    if ValidLabel(head) && PlainText(rest) {
      LabelJoined(s, head, rest);
    }
  }

  lemma LabelFirst(s: string, head: string, rest: string)
    requires '.' !in head && s == head + ['.'] + rest && PlainText(s)
    ensures ValidLabel(head) && PlainText(rest)
  {
    DotAtEnds(s, head, rest);
    HeadIsLabel(s, head, rest);
    RestIsPlain(s, head, rest);
  }

  lemma RestIsPlain(s: string, head: string, rest: string)
    requires s == head + ['.'] + rest && rest != "" && PlainText(s)
    ensures PlainText(rest)
  {
    var n := |head| + 1;
    assert s[|head|] == '.' && rest == s[n..];
    forall i | 0 <= i < |rest| ensures rest[i] == s[i + n] {
    }
    assert rest[0] == s[|head| + 1];
    forall i, j | 0 <= i <= j <= |rest| && j - i > 63 ensures '.' in rest[i..j] {
      SameWindow(s, rest, n, i, j);
    }
  }

  lemma SameWindow(s: string, rest: string, n: nat, i: nat, j: nat)
    requires n <= |s| && rest == s[n..] && i <= j <= |rest|
    ensures rest[i..j] == s[i + n..j + n]
  {
  }

  lemma HeadIsLabel(s: string, head: string, rest: string)
    requires '.' !in head && head != "" && s == head + ['.'] + rest && PlainText(s)
    ensures ValidLabel(head)
  {
    assert s[0..|head|] == head && s[|head|] == '.';
    forall i | 0 <= i < |head| ensures LabelChar(head[i]) {
      assert head[i] == s[i] && head[i] in head;
    }
    assert head[|head| - 1] == s[|head| - 1];
  }

  lemma DotAtEnds(s: string, head: string, rest: string)
    requires s == head + ['.'] + rest
    ensures head == "" ==> s[0] == '.'
    ensures rest == "" ==> s[|s| - 1] == '.'
  {
  }

  lemma LabelJoined(s: string, head: string, rest: string)
    requires '.' !in head && s == head + ['.'] + rest && ValidLabel(head) && PlainText(rest)
    ensures PlainText(s)
  {
    forall i | 0 <= i < |s|
      ensures s[i] == (if i < |head| then head[i] else if i == |head| then '.' else rest[i - |head| - 1])
    {
    }
    forall i, j | 0 <= i <= j <= |s| && j - i > 63 ensures '.' in s[i..j] {
      if i <= |head| < j {
        assert s[i..j][|head| - i] == '.';
      } else if i > |head| {
        assert s[i..j] == rest[i - |head| - 1..j - |head| - 1];
      }
    }
  }

  // ---- Directories and paths --------------------------------------------------------------------------------

  const WildcardDir: string := ".wildcard"

  function DirectoryName(hostname: string): string {
    var h := Sanitize(hostname);
    if Star <= h then WildcardDir + "/" + h[2..] else h
  }

  /** A plain name's directory has its name, a wildcard's is the name without the star below ".wildcard". */
  lemma DirectoryIs(h: string)
    requires Plain(h)
    ensures DirectoryName(h) == h && DirectoryName("*." + h) == ".wildcard/" + h
  {
    PlainDirectory(h);
    WildcardDirectory(h);
    assert WildcardDir + "/" == ".wildcard/" && Star == "*.";
  }

  /** The directory is that of the sanitised name, and what is no name has none. */
  lemma DirectoryOfAny(hostname: string)
    ensures DirectoryName(hostname) == if Sanitize(hostname) == "" then "" else DirectoryName(Sanitize(hostname))
  {
    SanitizeFixed(hostname);
    if Sanitize(hostname) != "" {
      SanitizeFixed(Sanitize(hostname));
    }
  }

  lemma PlainDirectory(h: string)
    requires Plain(h)
    ensures DirectoryName(h) == h
  {
    LabelChars(h);
    assert TrimPrefix(h, Star) == h;
    SanitizeFixed(h);
  }

  lemma WildcardDirectory(h: string)
    requires Plain(h)
    ensures DirectoryName(Star + h) == WildcardDir + "/" + h
  {
    AfterStar(h);
    SanitizeFixed(Star + h);
    assert (Star + h)[2..] == h;
  }

  /** The path of a clean `path` relative to a clean `root`; `None`-like ".." when it lies outside. */
  function Rel(root: string, path: string): string {
    if path == root then "."
    else if root + "/" <= path then path[|root| + 1..]
    else ".."
  }

  function HostOfParts(parts: seq<string>): string
    requires parts != []
  {
    if parts[0] != WildcardDir then Sanitize(parts[0])
    else if |parts| < 2 then "" else Sanitize(Star + parts[1])
  }

  predicate Outside(rel: string) { rel == "." || HasPrefix(rel, "..") }

  function HostOfRel(rel: string): string {
    if Outside(rel) then "" else HostOfParts(Split(rel, '/'))
  }

  function HostnameFromPath(root: string, path: string): string { HostOfRel(Rel(root, path)) }

  /** Anything at or below a directory of the root. */
  function Below(root: string, dir: string, tail: string): string { root + "/" + dir + tail }

  predicate PathTail(tail: string) { tail == "" || tail[0] == '/' }

  lemma RelBelow(root: string, dir: string, tail: string)
    ensures Rel(root, Below(root, dir, tail)) == dir + tail
  {
    var p := Below(root, dir, tail);
    assert p == (root + "/") + (dir + tail);
    assert p[|root| + 1..] == dir + tail;
    assert |p| > |root|;
  }

  lemma FirstPart(a: string, tail: string)
    requires '/' !in a && PathTail(tail)
    ensures Split(a + tail, '/')[0] == a
  {
    if tail == "" {
      assert a + tail == a;
    } else {
      assert a + tail == a + "/" + tail[1..];
      SplitFirst(a, tail[1..], '/');
    }
  }

  lemma PlainRel(h: string, tail: string)
    requires Plain(h) && PathTail(tail)
    ensures !Outside(h + tail) && Split(h + tail, '/')[0] == h && h != WildcardDir
  {
    LabelChars(h);
    FirstPart(h, tail);
    assert (h + tail)[0] == h[0];
  }

  lemma WildcardRel(rest: string, tail: string)
    requires '/' !in rest && PathTail(tail)
    ensures var rel := WildcardDir + "/" + (rest + tail);
            !Outside(rel) && |Split(rel, '/')| >= 2 && Split(rel, '/')[0] == WildcardDir && Split(rel, '/')[1] == rest
  {
    var rel := WildcardDir + "/" + (rest + tail);
    assert rel[1] == 'w';
    FirstPart(rest, tail);
    SplitFirst(WildcardDir, rest + tail, '/');
  }

  lemma PlainHost(h: string, tail: string)
    requires Plain(h) && Sanitize(h) == h && PathTail(tail)
    ensures HostOfRel(h + tail) == h
  {
    PlainRel(h, tail);
  }

  lemma WildcardHost(h: string, rest: string, tail: string)
    requires h == Star + rest && '/' !in rest && Sanitize(h) == h && PathTail(tail)
    ensures HostOfRel(WildcardDir + "/" + (rest + tail)) == h
  {
    WildcardRel(rest, tail);
  }

  /** A change anywhere at or below a host's directory leads back to exactly that host. */
  lemma PathInvertsDirectory(root: string, h: string, tail: string)
    requires Sanitized(h) && PathTail(tail)
    ensures HostnameFromPath(root, Below(root, DirectoryName(h), tail)) == h
  {
    SanitizeFixed(h);
    SanitizedShape(h);
    RelBelow(root, DirectoryName(h), tail);
    if Star <= h {
      WildcardHost(h, h[2..], tail);
      Regroup(h[2..], tail);
    } else {
      PlainHost(h, tail);
    }
  }

  lemma Regroup(rest: string, tail: string)
    ensures WildcardDir + "/" + rest + tail == WildcardDir + "/" + (rest + tail)
  {
  }

  /** A path that is not below the root, or is the root or the wildcard directory itself, is nobody's. */
  lemma NobodysPath(root: string, path: string)
    requires path == root || path == root + "/.wildcard" || forall rest: string :: path != root + "/" + rest
    ensures HostnameFromPath(root, path) == ""
  {
    if path == root + "/.wildcard" {
      RelBelow(root, ".wildcard", "");
      assert Below(root, ".wildcard", "") == path && ".wildcard" + "" == ".wildcard";
      OnlyWildcardDir();
    } else if path != root && root + "/" <= path {
      assert path == root + "/" + path[|root| + 1..];
    }
  }

  /** Whatever the path, it leads to a sanitised name or to nobody. */
  lemma PathsLeadToNames(root: string, path: string)
    ensures HostnameFromPath(root, path) == "" || Sanitized(HostnameFromPath(root, path))
  {
    PartsLeadToNames(Split(Rel(root, path), '/'));
  }

  lemma PartsLeadToNames(parts: seq<string>)
    requires parts != []
    ensures HostOfParts(parts) == "" || Sanitized(HostOfParts(parts))
  {
    SanitizeFixed(parts[0]);
    if |parts| > 1 {
      SanitizeFixed(Star + parts[1]);
    }
  }

  lemma OnlyWildcardDir()
    ensures HostOfRel(".wildcard") == ""
  {
    assert '/' !in ".wildcard";
    SplitNone(".wildcard", '/');
    assert ".wildcard"[1] == 'w';
  }

  /** So two hosts never share a directory. */
  lemma DirectoriesAreDistinct(h1: string, h2: string)
    requires Sanitized(h1) && Sanitized(h2) && DirectoryName(h1) == DirectoryName(h2)
    ensures h1 == h2
  {
    PathInvertsDirectory("r", h1, "");
    PathInvertsDirectory("r", h2, "");
  }

  // ---- Candidates -------------------------------------------------------------------------------------------

  /** "*." before each proper suffix of at least two labels, from the longest. */
  function Wildcards(parts: seq<string>, i: nat): seq<string>
    decreases |parts| - i
  {
    if i + 1 >= |parts| then [] else [Star + Join(parts[i..], '.')] + Wildcards(parts, i + 1)
  }

  function Candidates(hostname: string): seq<string> {
    var h := Sanitize(hostname);
    if h == "" then [] else [h] + Wildcards(Split(h, '.'), 1)
  }

  /** The candidate list as it is built. */
  method CertificateCandidates(hostname: string) returns (candidates: seq<string>)
    ensures candidates == Candidates(hostname)
  {
    var h := Sanitize(hostname);
    if h == "" {
      return [];
    }
    JoinSplit(h, '.');
    candidates := WildcardLoop(Split(h, '.'));
  }

  method WildcardLoop(parts: seq<string>) returns (candidates: seq<string>)
    ensures candidates == [Join(parts, '.')] + Wildcards(parts, 1)
  {
    candidates := [Join(parts, '.')];
    var i := 1;
    while i < |parts| - 1
      invariant 1 <= i && candidates + Wildcards(parts, i) == [Join(parts, '.')] + Wildcards(parts, 1)
      decreases |parts| - i
    {
      assert candidates + ([Star + Join(parts[i..], '.')] + Wildcards(parts, i + 1))
          == (candidates + [Star + Join(parts[i..], '.')]) + Wildcards(parts, i + 1);
      candidates := candidates + [Star + Join(parts[i..], '.')];
      i := i + 1;
    }
    assert candidates + [] == candidates;
  }

  // ---- Which candidates, and in which order -----------------------------------------------------------------

  lemma {:induction false} WildcardsHave(parts: seq<string>, i: nat, j: nat)
    requires i <= j && j + 1 < |parts|
    ensures Star + Join(parts[j..], '.') in Wildcards(parts, i)
    decreases |parts| - i
  {
    if i < j {
      WildcardsHave(parts, i + 1, j);
    }
  }

  /** Behind every dot stands the rest of the labels. */
  lemma {:induction false} LabelsBehind(s: string, n: nat) returns (i: nat)
    requires n < |s| && s[n] == '.'
    ensures 1 <= i < |Split(s, '.')| && Join(Split(s, '.')[i..], '.') == s[n + 1..]
    decreases |s|
  {
    var head := Before(s, '.');
    NoDotBefore(s, n);
    var rest := s[|head| + 1..];
    assert Split(s, '.') == [head] + Split(rest, '.');
    if n == |head| {
      i := 1;
      JoinSplit(rest, '.');
      assert Split(s, '.')[1..] == Split(rest, '.');
    } else {
      var k := LabelsBehind(rest, n - |head| - 1);
      i := k + 1;
      assert Split(s, '.')[i..] == Split(rest, '.')[k..];
      assert rest[n - |head|..] == s[n + 1..];
    }
  }

  lemma NoDotBefore(s: string, n: nat)
    requires n < |s| && s[n] == '.'
    ensures |Before(s, '.')| <= n
  {
    BeforeHasNone(s, '.');
  }

  /** And before every rest of the labels stands a dot. */
  lemma DotBefore(s: string, i: nat) returns (n: nat)
    requires 1 <= i < |Split(s, '.')|
    ensures n < |s| && s[n] == '.' && Join(Split(s, '.')[i..], '.') == s[n + 1..]
  {
    JoinSplit(s, '.');
    n := DotInJoin(Split(s, '.'), i);
  }

  lemma {:induction false} DotInJoin(parts: seq<string>, i: nat) returns (n: nat)
    requires 1 <= i < |parts|
    ensures var all := Join(parts, '.'); n < |all| && all[n] == '.' && Join(parts[i..], '.') == all[n + 1..]
  {
    var all, rest := Join(parts, '.'), Join(parts[1..], '.');
    assert all == parts[0] + ['.'] + rest;
    if i == 1 {
      n := |parts[0]|;
    } else {
      var k := DotInJoin(parts[1..], i - 1);
      n := |parts[0]| + 1 + k;
      assert parts[1..][i - 1..] == parts[i..];
      assert all[n + 1..] == rest[k + 1..];
    }
  }

  lemma SplitStep(s: string)
    ensures var head := Before(s, '.');
            if |head| == |s| then head == s && Split(s, '.') == [s]
            else s[|head|] == '.' && Split(s, '.') == [head] + Split(s[|head| + 1..], '.')
  {
  }

  lemma DotInRest(s: string, i: nat)
    requires i < |Split(s, '.')|
    ensures '.' in Join(Split(s, '.')[i..], '.') <==> i + 1 < |Split(s, '.')|
  {
    var rest := Split(s, '.')[i..];
    SplitHasNone(s, '.', i);
    if i + 1 < |Split(s, '.')| {
      assert Join(rest, '.')[|rest[0]|] == '.';
    }
  }

  /** The candidates of a name are the name, and a wildcard for each dotted part of it behind a dot. */
  lemma CandidatesIff(h: string, c: string)
    requires Sanitized(h)
    ensures c in Candidates(h) <==>
            c == h || exists p: string, s: string :: h == p + "." + s && '.' in s && c == "*." + s
  {
    SanitizeFixed(h);
    SanitizedShape(h);
    if c in Wildcards(Split(h, '.'), 1) {
      WildcardIsRest(h, c);
    }
    if p: string, s: string :| h == p + "." + s && '.' in s && c == "*." + s {
      RestHasWildcard(h, p, s);
    }
  }

  lemma WildcardIsRest(h: string, c: string)
    requires c in Wildcards(Split(h, '.'), 1)
    ensures exists p: string, s: string :: h == p + "." + s && '.' in s && c == "*." + s
  {
    var j := WildcardsAre(Split(h, '.'), 1, c);
    var n := DotBefore(h, j);
    DotInRest(h, j);
    assert h == h[..n] + "." + h[n + 1..];
  }

  lemma RestHasWildcard(h: string, p: string, s: string)
    requires h == p + "." + s && '.' in s
    ensures "*." + s in Wildcards(Split(h, '.'), 1)
  {
    assert h[|p|] == '.' && h[|p| + 1..] == s;
    var j := LabelsBehind(h, |p|);
    DotInRest(h, j);
    WildcardsHave(Split(h, '.'), 1, j);
  }

  lemma {:induction false} WildcardsShrink(parts: seq<string>, i: nat)
    ensures forall a, b :: 0 <= a < b < |Wildcards(parts, i)| ==>
              |Wildcards(parts, i)[a]| > |Wildcards(parts, i)[b]|
    ensures i < |parts| ==> forall a :: 0 <= a < |Wildcards(parts, i)| ==>
              |Wildcards(parts, i)[a]| <= 2 + |Join(parts[i..], '.')|
    decreases |parts| - i
  {
    if i + 1 < |parts| {
      WildcardsShrink(parts, i + 1);
      var rest := parts[i..];
      assert rest[1..] == parts[i + 1..];
      assert |Join(rest, '.')| > |Join(rest[1..], '.')|;
    }
  }

  /** The name comes first, and the wildcards from the longest to the shortest; a bad name has no candidates. */
  lemma CandidatesInOrder(hostname: string)
    ensures var cs := Candidates(hostname);
            if Sanitize(hostname) == "" then cs == []
            else cs != [] && cs[0] == Sanitize(hostname) && forall i, j :: 1 <= i < j < |cs| ==> |cs[i]| > |cs[j]|
  {
    var h := Sanitize(hostname);
    if h != "" {
      var ws := Wildcards(Split(h, '.'), 1);
      WildcardsShrink(Split(h, '.'), 1);
      var cs := Candidates(hostname);
      forall i, j | 1 <= i < j < |cs| ensures |cs[i]| > |cs[j]| {
        assert cs[i] == ws[i - 1] && cs[j] == ws[j - 1];
      }
    }
  }

  lemma WildcardSanitized(tail: seq<string>)
    requires tail != [] && ValidLabels(tail) && forall k :: 0 <= k < |tail| ==> '.' !in tail[k]
    ensures Sanitized(Star + Join(tail, '.'))
  {
    SplitJoin(tail, '.');
    AfterStar(Join(tail, '.'));
  }

  lemma AfterStar(rest: string)
    ensures TrimPrefix(Star + rest, Star) == rest
  {
  }

  /** The labels after the first are valid; the first may be the wildcard. */
  ghost predicate ValidTail(parts: seq<string>) {
    forall k :: 1 <= k < |parts| ==> ValidLabel(parts[k]) && '.' !in parts[k]
  }

  lemma WildcardAt(parts: seq<string>, i: nat)
    requires 1 <= i < |parts| && ValidTail(parts)
    ensures Sanitized(Star + Join(parts[i..], '.'))
  {
    var tail := parts[i..];
    forall k | 0 <= k < |tail| ensures ValidLabel(tail[k]) && '.' !in tail[k] {
      assert tail[k] == parts[i + k];
    }
    WildcardSanitized(tail);
  }

  lemma {:induction false} WildcardsAre(parts: seq<string>, i: nat, c: string) returns (j: nat)
    requires c in Wildcards(parts, i)
    ensures i <= j && j + 1 < |parts| && c == Star + Join(parts[j..], '.')
    decreases |parts| - i
  {
    if c == Star + Join(parts[i..], '.') {
      j := i;
    } else {
      j := WildcardsAre(parts, i + 1, c);
    }
  }

  lemma WildcardOf(h: string, c: string)
    requires Sanitized(h) && c in Wildcards(Split(h, '.'), 1)
    ensures Sanitized(c)
  {
    PartsValid(h);
    var j := WildcardsAre(Split(h, '.'), 1, c);
    WildcardAt(Split(h, '.'), j);
  }

  /** Every candidate is a sanitised name, so its directory is its own. */
  lemma CandidatesSanitized(hostname: string, c: string)
    requires c in Candidates(hostname)
    ensures Sanitized(c)
  {
    var h := Sanitize(hostname);
    SanitizeFixed(hostname);
    if c != h {
      WildcardOf(h, c);
    }
  }

  lemma PartsValid(h: string)
    requires Sanitized(h)
    ensures ValidTail(Split(h, '.'))
  {
    var rest := TrimPrefix(h, Star);
    PlainTail(rest, Split(rest, '.'));
    if Star <= h {
      SplitStar(h, rest);
    }
  }

  lemma SplitStar(h: string, rest: string)
    requires Star <= h && rest == h[2..]
    ensures Split(h, '.') == ["*"] + Split(rest, '.')
  {
    assert h == "*" + ['.'] + rest;
    SplitFirst("*", rest, '.');
  }

  lemma PlainTail(s: string, parts: seq<string>)
    requires parts == Split(s, '.') && ValidLabels(parts)
    ensures ValidTail(parts) && ValidTail(["*"] + parts)
  {
  }
}
