/** The string operations the components share. Letter case is ASCII; blanks are Unicode White_Space. */
module Text {

  function LowerChar(c: char): char {
    if 'A' <= c <= 'Z' then c - 'A' + 'a' else c
  }

  function UpperChar(c: char): char {
    if 'a' <= c <= 'z' then c - 'a' + 'A' else c
  }

  function ToLower(s: string): (r: string)
    ensures |r| == |s| && forall i :: 0 <= i < |s| ==> r[i] == LowerChar(s[i])
  {
    seq(|s|, i requires 0 <= i < |s| => LowerChar(s[i]))
  }

  function ToUpper(s: string): (r: string)
    ensures |r| == |s| && forall i :: 0 <= i < |s| ==> r[i] == UpperChar(s[i])
  {
    seq(|s|, i requires 0 <= i < |s| => UpperChar(s[i]))
  }

  predicate IsSpace(c: char) {
    || c == ' ' || '\t' <= c <= '\r'
    || c as int in {0x85, 0xA0, 0x1680, 0x2028, 0x2029, 0x202f, 0x205f, 0x3000}
    || 0x2000 <= c as int <= 0x200a
  }

  function TrimLeft(s: string, drop: char -> bool): (r: string)
    ensures |r| <= |s|
    ensures r != [] ==> !drop(r[0])
    ensures s != [] && !drop(s[0]) ==> r == s
  {
    if s == [] || !drop(s[0]) then s else TrimLeft(s[1..], drop)
  }

  function TrimRight(s: string, drop: char -> bool): (r: string)
    ensures |r| <= |s|
    ensures r != [] ==> s != [] && r[0] == s[0] && !drop(r[|r| - 1])
    ensures s != [] && !drop(s[|s| - 1]) ==> r == s
  {
    if s == [] || !drop(s[|s| - 1]) then s else TrimRight(s[..|s| - 1], drop)
  }

  /** Both ends stripped of the characters in `drop`; what is left is a slice that neither starts nor ends with one. */
  function Trim(s: string, drop: char -> bool): (r: string)
    ensures r != [] ==> !drop(r[0]) && !drop(r[|r| - 1])
    ensures (s == [] || (!drop(s[0]) && !drop(s[|s| - 1]))) ==> r == s
  {
    TrimRight(TrimLeft(s, drop), drop)
  }

  function TrimSpace(s: string): (r: string)
    ensures r != [] ==> !IsSpace(r[0]) && !IsSpace(r[|r| - 1])
    ensures (s == [] || (!IsSpace(s[0]) && !IsSpace(s[|s| - 1]))) ==> r == s
  {
    Trim(s, IsSpace)
  }

  predicate All(s: string, drop: char -> bool) { forall i :: 0 <= i < |s| ==> drop(s[i]) }

  /** Trimming takes off a run of dropped characters at each end, and nothing else. */
  lemma TrimSlice(s: string, drop: char -> bool) returns (a: string, b: string)
    ensures s == a + Trim(s, drop) + b && All(a, drop) && All(b, drop)
  {
    a := LeftSlice(s, drop);
    b := RightSlice(TrimLeft(s, drop), drop);
    assert a + (Trim(s, drop) + b) == a + Trim(s, drop) + b;
  }

  lemma {:induction false} LeftSlice(s: string, drop: char -> bool) returns (a: string)
    ensures s == a + TrimLeft(s, drop) && All(a, drop)
  {
    a := "";
    if s != [] && drop(s[0]) {
      var rest := LeftSlice(s[1..], drop);
      a := [s[0]] + rest;
      assert s == [s[0]] + s[1..];
    }
  }

  lemma {:induction false} RightSlice(s: string, drop: char -> bool) returns (b: string)
    ensures s == TrimRight(s, drop) + b && All(b, drop)
  {
    b := "";
    if s != [] && drop(s[|s| - 1]) {
      var rest := RightSlice(s[..|s| - 1], drop);
      b := rest + [s[|s| - 1]];
      assert s == s[..|s| - 1] + [s[|s| - 1]];
    }
  }

  /** So the text between two runs of blanks is what trimming leaves, whatever the blanks. */
  lemma TrimBetween(a: string, s: string, b: string, drop: char -> bool)
    requires All(a, drop) && All(b, drop) && (s != "" ==> !drop(s[0]) && !drop(s[|s| - 1]))
    ensures Trim(a + s + b, drop) == s
  {
    if s == "" {
      var x, y := TrimSlice(a + s + b, drop);
      FirstKept(a + s + b, x, Trim(a + s + b, drop), y);
    } else {
      SkipLeft(a, s + b, drop);
      assert a + s + b == a + (s + b);
      SkipRight(s, b, drop);
    }
  }

  lemma FirstKept(s: string, a: string, r: string, b: string)
    requires s == a + r + b
    ensures r != "" ==> |a| < |s| && s[|a|] == r[0]
  {
  }

  lemma {:induction false} SkipLeft(a: string, s: string, drop: char -> bool)
    requires All(a, drop) && s != "" && !drop(s[0])
    ensures TrimLeft(a + s, drop) == s
  {
    if a == "" {
      assert a + s == s;
    } else {
      assert (a + s)[1..] == a[1..] + s;
      SkipLeft(a[1..], s, drop);
    }
  }

  lemma {:induction false} SkipRight(s: string, b: string, drop: char -> bool)
    requires All(b, drop) && s != "" && !drop(s[|s| - 1])
    ensures TrimRight(s + b, drop) == s
  {
    if b == "" {
      assert s + b == s;
    } else {
      assert (s + b)[..|s + b| - 1] == s + b[..|b| - 1];
      SkipRight(s, b[..|b| - 1], drop);
    }
  }

  /** The twenty-six letters change case, and no other character does. */
  lemma LettersChangeCase(i: nat, c: char)
    requires i < 26
    ensures LowerChar(('A' as int + i) as char) == ('a' as int + i) as char
    ensures UpperChar(('a' as int + i) as char) == ('A' as int + i) as char
    ensures !('A' <= c <= 'Z') ==> LowerChar(c) == c
    ensures !('a' <= c <= 'z') ==> UpperChar(c) == c
  {
  }

  /** The blanks are the characters with Unicode's White_Space property. */
  lemma BlanksAre(c: char)
    ensures IsSpace(c) <==>
            c as int in {9, 10, 11, 12, 13, 32, 133, 160, 5760, 8192, 8193, 8194, 8195, 8196, 8197, 8198, 8199, 8200,
                         8201, 8202, 8232, 8233, 8239, 8287, 12288}
  {
  }

  /** Trimming brings in no new character. */
  lemma TrimHasNone(s: string, drop: char -> bool, c: char)
    requires c !in s
    ensures c !in Trim(s, drop)
  {
    LeftHasNone(s, drop, c);
    RightHasNone(TrimLeft(s, drop), drop, c);
  }

  lemma {:induction false} LeftHasNone(s: string, drop: char -> bool, c: char)
    requires c !in s
    ensures c !in TrimLeft(s, drop)
  {
    if s != [] && drop(s[0]) {
      LeftHasNone(s[1..], drop, c);
    }
  }

  lemma {:induction false} RightHasNone(s: string, drop: char -> bool, c: char)
    requires c !in s
    ensures c !in TrimRight(s, drop)
  {
    if s != [] && drop(s[|s| - 1]) {
      RightHasNone(s[..|s| - 1], drop, c);
    }
  }

  predicate HasPrefix(s: string, p: string) { p <= s }

  function TrimPrefix(s: string, p: string): string {
    if p <= s then s[|p|..] else s
  }

  predicate HasSuffix(s: string, p: string) { |p| <= |s| && s[|s| - |p|..] == p }

  function TrimSuffix(s: string, p: string): string {
    if HasSuffix(s, p) then s[..|s| - |p|] else s
  }

  /** A suffix or prefix is taken off once if it is there, and only then. */
  lemma AffixesAre(s: string, p: string)
    ensures TrimSuffix(s + p, p) == s && TrimPrefix(p + s, p) == s
    ensures (forall t: string :: s != t + p) ==> TrimSuffix(s, p) == s
    ensures (forall t: string :: s != p + t) ==> TrimPrefix(s, p) == s
  {
    assert (s + p)[|s|..] == p && (p + s)[|p|..] == s;
    if HasSuffix(s, p) {
      assert s == s[..|s| - |p|] + p;
    }
    if p <= s {
      assert s == p + s[|p|..];
    }
  }

  // ---- Byte-wise string order -----------------------------------------------------------------

  predicate Less(a: string, b: string) {
    if b == [] then false
    else if a == [] then true
    else a[0] < b[0] || (a[0] == b[0] && Less(a[1..], b[1..]))
  }

  /** The order is decided at the first difference, and a proper prefix comes first. */
  lemma {:induction false} LessAtDifference(common: string, a: string, b: string)
    requires a == "" || b == "" || a[0] != b[0]
    ensures Less(common + a, common + b) <==> b != "" && (a == "" || a[0] < b[0])
  {
    if common == "" {
      assert common + a == a && common + b == b;
    } else {
      assert (common + a)[1..] == common[1..] + a && (common + b)[1..] == common[1..] + b;
      LessAtDifference(common[1..], a, b);
    }
  }

  lemma {:induction false} LessTotal(a: string, b: string)
    ensures Less(a, b) || Less(b, a) || a == b
    ensures !(Less(a, b) && Less(b, a)) && (a == b ==> !Less(a, b))
    decreases a
  {
    if a != [] && b != [] && a[0] == b[0] {
      LessTotal(a[1..], b[1..]);
      assert a == [a[0]] + a[1..] && b == [b[0]] + b[1..];
    }
  }

  lemma {:induction false} LessTransitive(a: string, b: string, c: string)
    requires Less(a, b) && Less(b, c)
    ensures Less(a, c)
    decreases a
  {
    if a != [] && a[0] == b[0] == c[0] {
      LessTransitive(a[1..], b[1..], c[1..]);
    }
  }

  // ---- Joining with a separator that the last part does not contain -----------------------------

  lemma SeparatorAt(h: string, t: string, sep: char)
    requires sep !in t
    ensures var s := h + [sep] + t; s[|h|] == sep && forall i :: |h| < i < |s| ==> s[i] != sep
  {
    var s := h + [sep] + t;
    forall i | |h| < i < |s| ensures s[i] != sep {
      assert s[i] == t[i - |h| - 1];
    }
  }

  /** A key `head + sep + tail` whose tail has no separator determines both parts. */
  lemma LastSeparator(h1: string, t1: string, h2: string, t2: string, sep: char)
    requires sep !in t1 && sep !in t2 && h1 + [sep] + t1 == h2 + [sep] + t2
    ensures h1 == h2 && t1 == t2
  {
    var s := h1 + [sep] + t1;
    SeparatorAt(h1, t1, sep);
    SeparatorAt(h2, t2, sep);
    assert |h1| == |h2|;
    assert s[..|h1|] == h1 && s[..|h1|] == h2;
    assert s[|h1| + 1..] == t1 && s[|h1| + 1..] == t2;
  }

  // ---- Splitting --------------------------------------------------------------------------------------

  /** What stands before the first `c`, or the whole string. */
  function Before(s: string, c: char): (r: string)
    ensures r <= s
    ensures |r| < |s| ==> s[|r|] == c
  {
    if s == "" || s[0] == c then "" else [s[0]] + Before(s[1..], c)
  }

  lemma {:induction false} BeforeHasNone(s: string, c: char)
    ensures forall i :: 0 <= i < |Before(s, c)| ==> Before(s, c)[i] != c
  {
    if s != "" && s[0] != c {
      BeforeHasNone(s[1..], c);
    }
  }

  /** The parts between the separators; there is always at least one. */
  function Split(s: string, c: char): (r: seq<string>)
    ensures r != []
    decreases |s|
  {
    var head := Before(s, c);
    if |head| == |s| then [head] else [head] + Split(s[|head| + 1..], c)
  }

  lemma {:induction false} SplitHasNone(s: string, c: char, k: nat)
    requires k < |Split(s, c)|
    ensures c !in Split(s, c)[k]
    decreases |s|
  {
    var head := Before(s, c);
    BeforeHasNone(s, c);
    if |head| < |s| && k > 0 {
      SplitHasNone(s[|head| + 1..], c, k - 1);
    }
  }

  lemma {:induction false} BeforeAll(s: string, c: char)
    requires c !in s
    ensures Before(s, c) == s
  {
    if s != "" {
      BeforeAll(s[1..], c);
    }
  }

  lemma SplitNone(s: string, c: char)
    requires c !in s
    ensures Split(s, c) == [s]
  {
    BeforeAll(s, c);
  }

  lemma {:induction false} BeforeIs(s: string, c: char, n: nat)
    requires n < |s| && s[n] == c && c !in s[..n]
    ensures Before(s, c) == s[..n]
  {
    if n > 0 {
      assert s[0] in s[..n] && s[1..][..n - 1] == s[..n][1..];
      BeforeIs(s[1..], c, n - 1);
    }
  }

  /** Splitting at the first separator. */
  lemma SplitFirst(a: string, b: string, c: char)
    requires c !in a
    ensures Split(a + [c] + b, c) == [a] + Split(b, c)
  {
    var s := a + [c] + b;
    assert s[..|a|] == a && s[|a|] == c;
    BeforeIs(s, c, |a|);
    assert s[|a| + 1..] == b;
  }

  function Join(parts: seq<string>, c: char): string {
    if parts == [] then "" else if |parts| == 1 then parts[0] else parts[0] + [c] + Join(parts[1..], c)
  }

  lemma {:induction false} JoinSplit(s: string, c: char)
    ensures Join(Split(s, c), c) == s
    decreases |s|
  {
    var head := Before(s, c);
    if |head| < |s| {
      var rest := s[|head| + 1..];
      JoinSplit(rest, c);
      JoinCons(head, Split(rest, c), c);
      Reassemble(s, head, c);
    }
  }

  lemma Reassemble(s: string, head: string, c: char)
    requires head <= s && |head| < |s| && s[|head|] == c
    ensures head + [c] + s[|head| + 1..] == s
  {
  }

  lemma JoinCons(head: string, parts: seq<string>, c: char)
    requires parts != []
    ensures Join([head] + parts, c) == head + [c] + Join(parts, c)
  {
    assert ([head] + parts)[1..] == parts;
  }

  lemma {:induction false} SplitJoin(parts: seq<string>, c: char)
    requires parts != [] && forall i :: 0 <= i < |parts| ==> c !in parts[i]
    ensures Split(Join(parts, c), c) == parts
  {
    if |parts| == 1 {
      SplitNone(parts[0], c);
    } else {
      SplitJoin(parts[1..], c);
      SplitFirst(parts[0], Join(parts[1..], c), c);
    }
  }

  /** A host without blanks, upper case, scheme or port. */
  function BareHost(host: string): (r: string)
    ensures ':' !in r
  {
    var bare := TrimPrefix(TrimPrefix(TrimSpace(ToLower(host)), "http://"), "https://");
    BeforeHasNone(bare, ':');
    Before(bare, ':')
  }

  /** A lower-case name stays, and loses a scheme before it and a port behind it. */
  lemma BareHostIs(scheme: string, name: string, port: string)
    requires name != "" && ':' !in name && !IsSpace(name[0]) && !IsSpace(name[|name| - 1]) && ToLower(name) == name
    requires scheme in {"", "http://", "https://"} && (port == "" || (port[0] == ':' && Digital(port[1..])))
    ensures BareHost(scheme + name + port) == name
  {
    var s := scheme + name + port;
    LowerIs(scheme, name, port);
    NoBlankEnds(scheme, name, port);
    BareName(scheme, name, port);
  }

  lemma LowerIs(scheme: string, name: string, port: string)
    requires ToLower(name) == name && scheme in {"", "http://", "https://"}
    requires port == "" || (port[0] == ':' && Digital(port[1..]))
    ensures ToLower(scheme + name + port) == scheme + name + port
  {
    assert ToLower(scheme) == scheme;
    LowerPort(port);
    LowerConcat(scheme, name);
    LowerConcat(scheme + name, port);
  }

  lemma LowerPort(port: string)
    requires port == "" || (port[0] == ':' && Digital(port[1..]))
    ensures ToLower(port) == port && (port != "" ==> !IsSpace(port[|port| - 1]))
  {
    forall i | 0 <= i < |port| ensures LowerChar(port[i]) == port[i] && !IsSpace(port[i]) {
      assert i > 0 ==> port[i] == port[1..][i - 1];
    }
  }

  lemma NoBlankEnds(scheme: string, name: string, port: string)
    requires name != "" && !IsSpace(name[0]) && !IsSpace(name[|name| - 1]) && scheme in {"", "http://", "https://"}
    requires port == "" || (port[0] == ':' && Digital(port[1..]))
    ensures TrimSpace(scheme + name + port) == scheme + name + port
  {
    var s := scheme + name + port;
    LowerPort(port);
    assert s[0] == (scheme + name)[0] && (scheme + name)[0] == (if scheme == "" then name[0] else 'h');
    assert s[|s| - 1] == (if port == "" then name[|name| - 1] else port[|port| - 1]);
  }

  /** Blanks around a host and letter case do not count. */
  lemma BareHostBlind(a: string, host: string, b: string)
    requires All(a, IsSpace) && All(b, IsSpace)
    ensures BareHost(a + host + b) == BareHost(host) == BareHost(ToLower(host))
  {
    var low := ToLower(host);
    assert ToLower(low) == low;
    LowerConcat(a, host);
    LowerConcat(a + host, b);
    LowerBlanks(a);
    LowerBlanks(b);
    TrimAround(a, low, b);
  }

  lemma TrimAround(a: string, s: string, b: string)
    requires All(a, IsSpace) && All(b, IsSpace)
    ensures TrimSpace(a + s + b) == TrimSpace(s)
  {
    var x, y := TrimSlice(s, IsSpace);
    assert a + s + b == (a + x) + TrimSpace(s) + (y + b);
    TrimBetween(a + x, TrimSpace(s), y + b, IsSpace);
  }

  lemma LowerConcat(a: string, b: string)
    ensures ToLower(a + b) == ToLower(a) + ToLower(b)
  {
  }

  lemma LowerBlanks(a: string)
    requires All(a, IsSpace)
    ensures ToLower(a) == a
  {
  }

  lemma BareName(scheme: string, name: string, port: string)
    requires name != "" && ':' !in name && scheme in {"", "http://", "https://"}
    requires port == "" || (port[0] == ':' && Digital(port[1..]))
    ensures Before(TrimPrefix(TrimPrefix(scheme + name + port, "http://"), "https://"), ':') == name
  {
    var rest := name + port;
    assert scheme + name + port == scheme + rest;
    NoScheme(name, port);
    SchemeOff(scheme, rest);
    if port == "" {
      assert rest == name;
      BeforeAll(name, ':');
    } else {
      assert rest[..|name|] == name;
      BeforeIs(rest, ':', |name|);
    }
  }

  lemma SchemeOff(scheme: string, rest: string)
    requires scheme in {"", "http://", "https://"} && !("http://" <= rest) && !("https://" <= rest)
    ensures TrimPrefix(TrimPrefix(scheme + rest, "http://"), "https://") == rest
  {
    var s := scheme + rest;
    assert s[|scheme|..] == rest;
    if scheme == "https://" {
      assert s[4] == 's';
    }
  }

  /** A name with or without a port starts with no scheme. */
  lemma NoScheme(name: string, port: string)
    requires ':' !in name && (port == "" || (port[0] == ':' && Digital(port[1..])))
    ensures !("http://" <= name + port) && !("https://" <= name + port)
  {
    var s := name + port;
    SchemeChars(s);
    forall i | 0 < i < |s| && s[i - 1] == ':' ensures s[i] != '/' {
      SlashFree(name, port, i);
    }
  }

  lemma SchemeChars(s: string)
    ensures "http://" <= s ==> |s| > 5 && s[4] == ':' && s[5] == '/'
    ensures "https://" <= s ==> |s| > 6 && s[5] == ':' && s[6] == '/'
  {
  }

  /** Right behind its only colon stands a digit. */
  lemma SlashFree(name: string, port: string, i: nat)
    requires ':' !in name && (port == "" || (port[0] == ':' && Digital(port[1..])))
    requires 0 < i < |name + port| && (name + port)[i - 1] == ':'
    ensures (name + port)[i] != '/'
  {
    var s := name + port;
    if i - 1 >= |name| {
      assert s[i] == port[1..][i - |name| - 1];
    }
  }

  predicate Digital(s: string) { forall i :: 0 <= i < |s| ==> IsDigit(s[i]) }

  // ---- Request paths, numbers ------------------------------------------------------------------

  /** A route or request path: trimmed, and "/" unless it starts with a slash. */
  function NormalizePath(path: string): (r: string)
    ensures r != "" && r[0] == '/'
    ensures NormalizedPath(r)
    ensures NormalizedPath(path) ==> r == path
  {
    Rooted(TrimSpace(path))
  }

  /** Blanks around a path do not count, and what starts with no slash is the root. */
  lemma NormalizePathIs(a: string, p: string, b: string)
    requires All(a, IsSpace) && All(b, IsSpace) && (p != "" ==> !IsSpace(p[0]) && !IsSpace(p[|p| - 1]))
    ensures NormalizePath(a + p + b) == if p != "" && p[0] == '/' then p else "/"
  {
    TrimBetween(a, p, b, IsSpace);
  }

  function Rooted(p: string): (r: string)
    requires p == "" || !IsSpace(p[|p| - 1])
    ensures NormalizedPath(r) && (NormalizedPath(p) ==> r == p)
  {
    if p == "" || p[0] != '/' then "/" else p
  }

  predicate NormalizedPath(p: string) {
    p != "" && p[0] == '/' && !IsSpace(p[|p| - 1])
  }

  /** Go's conversion to a 32-bit signed integer. */
  function Int32(n: int): int {
    var m := n % 0x1_0000_0000;
    if m < 0x8000_0000 then m else m - 0x1_0000_0000
  }

  /** The one 32-bit number congruent to `n`. */
  lemma Int32Is(n: int, r: int)
    ensures Int32(n) == r <==> -0x8000_0000 <= r < 0x8000_0000 && (n - r) % 0x1_0000_0000 == 0
  {
  }

  predicate IsDigit(c: char) { '0' <= c <= '9' }

  function Digit(d: nat): (c: char)
    requires d < 10
    ensures IsDigit(c) && c as int - '0' as int == d
  {
    d as char + '0'
  }

  /** The decimal form that `%d` prints. */
  function Decimal(n: nat): (s: string)
    ensures s != "" && forall i :: 0 <= i < |s| ==> IsDigit(s[i])
  {
    if n < 10 then [Digit(n)] else Decimal(n / 10) + [Digit(n % 10)]
  }
}
