/** Forwarded answers as text values and back: name, MX and SRV records. */
module DnsText {
  import opened Options
  import opened Text
  import opened DnsNames

  type Word16 = n: nat | n < 0x1_0000

  datatype Kind = CNAME | NS | MX | SRV

  datatype Data =
    | Alias(target: string)
    | NameServer(target: string)
    | MailExchange(preference: Word16, target: string)
    | Service(priority: Word16, weight: Word16, port: Word16, target: string)

  function KindOf(d: Data): Kind {
    match d
    case Alias(_) => CNAME
    case NameServer(_) => NS
    case MailExchange(_, _) => MX
    case Service(_, _, _, _) => SRV
  }

  datatype Answer = Answer(name: string, ttl: nat, data: Data)

  /** A stored record: the kind is that of the question, `values` the printed text. */
  datatype Row = Row(fqdn: string, kind: Kind, ttl: nat, values: string)

  // ---- Splitting --------------------------------------------------------------------------------------

  predicate IsQuote(c: char) { c == '"' }

  function CleanPart(part: string): string { TrimSpace(Trim(part, IsQuote)) }

  function CleanAll(parts: seq<string>): (r: seq<string>)
    ensures |r| == |parts|
  {
    seq(|parts|, i requires 0 <= i < |parts| => CleanPart(parts[i]))
  }

  function KeepNonEmpty(parts: seq<string>): seq<string> {
    if parts == [] then []
    else KeepNonEmpty(parts[..|parts| - 1]) + if parts[|parts| - 1] == "" then [] else [parts[|parts| - 1]]
  }

  function Unbracket(raw: string): string {
    if '[' in raw then TrimSuffix(TrimPrefix(raw, "["), "]") else raw
  }

  function SplitValues(values: string): seq<string> {
    var raw := TrimSpace(values);
    if raw == "" then [] else KeepNonEmpty(CleanAll(Split(Unbracket(raw), ',')))
  }

  /** A maximal run of non-blank characters from the start. */
  function FirstWord(s: string): (w: string)
    ensures w <= s && forall i :: 0 <= i < |w| ==> !IsSpace(w[i])
    ensures |w| < |s| ==> IsSpace(s[|w|])
    ensures s != "" && !IsSpace(s[0]) ==> w != ""
  {
    if s == "" || IsSpace(s[0]) then "" else [s[0]] + FirstWord(s[1..])
  }

  function Fields(s: string): seq<string>
    decreases |s|
  {
    if s == "" then []
    else if IsSpace(s[0]) then Fields(s[1..])
    else
      var w := FirstWord(s);
      [w] + Fields(s[|w|..])
  }

  // ---- Numbers ----------------------------------------------------------------------------------------

  predicate Digits(s: string) { forall i :: 0 <= i < |s| ==> IsDigit(s[i]) }

  function DigitsValue(s: string): nat
    requires Digits(s)
  {
    if s == "" then 0 else DigitsValue(s[..|s| - 1]) * 10 + (s[|s| - 1] as int - '0' as int)
  }

  const MaxInt: int := 0x7fff_ffff_ffff_ffff

  /** Base-ten parsing of a 64-bit integer: an optional sign, then digits. */
  function Atoi(s: string): Option<int> {
    var negative := s != "" && s[0] == '-';
    var body := if s != "" && s[0] in {'-', '+'} then s[1..] else s;
    if body == "" || !Digits(body) then None
    else
      var n: int := DigitsValue(body);
      if negative then (if n > MaxInt + 1 then None else Some(-n)) else if n > MaxInt then None else Some(n)
  }

  /** Go's truncation to 16 bits. */
  function ToWord16(n: int): Word16 { n % 0x1_0000 }

  lemma {:induction false} DecimalValue(n: nat)
    ensures Digits(Decimal(n)) && DigitsValue(Decimal(n)) == n
  {
    if n >= 10 {
      DecimalValue(n / 10);
      var s := Decimal(n);
      assert s[..|s| - 1] == Decimal(n / 10);
    } else {
      assert Decimal(n)[..0] == "";
    }
  }

  lemma AtoiDecimal(n: Word16)
    ensures Atoi(Decimal(n)) == Some(n) && ToWord16(n) == n
  {
    DecimalValue(n);
    assert IsDigit(Decimal(n)[0]);
  }

  // ---- Printing and parsing ---------------------------------------------------------------------------

  function Print(d: Data): string {
    var target := NormalizeFqdn(d.target);
    match d
    case Alias(_) => target
    case NameServer(_) => target
    case MailExchange(p, _) => Decimal(p) + " " + target
    case Service(p, w, o, _) => Spaced(Decimal(p), Decimal(w), Decimal(o), target)
  }

  function Spaced(a: string, b: string, c: string, rest: string): string { a + " " + (b + " " + (c + " " + rest)) }

  function ParseMx(value: string): Option<Data> {
    var head := Before(value, ' ');
    if |head| == |value| then None
    else
      match Atoi(TrimSpace(head))
      case None => None
      case Some(n) => Some(MailExchange(ToWord16(n), NormalizeFqdn(value[|head| + 1..])))
  }

  function ParseSrv(value: string): Option<Data> { FromFields(Fields(value)) }

  function FromFields(parts: seq<string>): Option<Data> {
    if |parts| != 4 then None
    else
      match (Atoi(parts[0]), Atoi(parts[1]), Atoi(parts[2]))
      case (Some(p), Some(w), Some(o)) => Some(Service(ToWord16(p), ToWord16(w), ToWord16(o), NormalizeFqdn(parts[3])))
      case _ => None
  }

  function ParseValue(kind: Kind, value: string): Option<Data> {
    match kind
    case CNAME => Some(Alias(NormalizeFqdn(value)))
    case NS => Some(NameServer(NormalizeFqdn(value)))
    case MX => ParseMx(value)
    case SRV => ParseSrv(value)
  }

  function ParseEach(kind: Kind, values: seq<string>): (r: seq<Option<Data>>)
    ensures |r| == |values|
  {
    seq(|values|, i requires 0 <= i < |values| => ParseValue(kind, values[i]))
  }

  /** All results in order, or nothing if one is missing. */
  function Sequence(os: seq<Option<Data>>): Option<seq<Data>> {
    if os == [] then Some([])
    else
      var init, last := Sequence(os[..|os| - 1]), os[|os| - 1];
      if init.Some? && last.Some? then Some(init.value + [last.value]) else None
  }

  function ToRow(a: Answer): Row { Row(NormalizeFqdn(a.name), KindOf(a.data), a.ttl, Print(a.data)) }

  function Named(name: string, ttl: nat, ds: seq<Data>): seq<Answer> {
    seq(|ds|, i requires 0 <= i < |ds| => Answer(name, ttl, ds[i]))
  }

  function ToAnswers(r: Row): Option<seq<Answer>> {
    match Sequence(ParseEach(r.kind, SplitValues(r.values)))
    case None => None
    case Some(ds) => Some(Named(NormalizeFqdn(r.fqdn), r.ttl, ds))
  }

  /** The splitting loop as it runs. */
  method KeepLoop(parts: seq<string>) returns (out: seq<string>)
    ensures out == KeepNonEmpty(parts)
  {
    out := [];
    for i := 0 to |parts|
      invariant out == KeepNonEmpty(parts[..i])
    {
      assert parts[..i + 1][..i] == parts[..i];
      if parts[i] == "" {
        continue;
      }
      out := out + [parts[i]];
    }
    assert parts[..|parts|] == parts;
  }

  method SplitText(values: string) returns (out: seq<string>)
    ensures out == SplitValues(values)
  {
    var raw := TrimSpace(values);
    if raw == "" {
      return [];
    }
    out := KeepLoop(CleanAll(Split(Unbracket(raw), ',')));
  }

  /** The rendering loop as it runs: the first bad value ends it. */
  method SequenceLoop(os: seq<Option<Data>>) returns (r: Option<seq<Data>>)
    ensures r == Sequence(os)
  {
    var ds: seq<Data> := [];
    for i := 0 to |os|
      invariant Sequence(os[..i]) == Some(ds)
    {
      assert os[..i + 1][..i] == os[..i];
      if os[i].None? {
        FailureSpreads(os, i + 1);
        return None;
      }
      ds := ds + [os[i].value];
    }
    assert os[..|os|] == os;
    return Some(ds);
  }

  method ToRR(r: Row) returns (answers: Option<seq<Answer>>)
    ensures answers == ToAnswers(r)
  {
    var values := SplitText(r.values);
    var ds := SequenceLoop(ParseEach(r.kind, values));
    if ds.None? {
      return None;
    }
    return Some(Named(NormalizeFqdn(r.fqdn), r.ttl, ds.value));
  }

  lemma {:induction false} FailureSpreads(os: seq<Option<Data>>, n: nat)
    requires n <= |os| && Sequence(os[..n]) == None
    ensures Sequence(os) == None
    decreases |os|
  {
    if n == |os| {
      assert os[..n] == os;
    } else {
      var init := os[..|os| - 1];
      assert init[..n] == os[..n];
      FailureSpreads(init, n);
    }
  }

  // ---- The round trip ---------------------------------------------------------------------------------

  /** Exactly the data that printing and parsing recover: a normal, non-root target without commas; for a
      service also without blanks; for a name record not starting with a quote or an opening bracket. */
  predicate Printable(d: Data) {
    && NormalFqdn(d.target) && d.target != "" && ',' !in d.target
    && (d.Service? ==> forall i :: 0 <= i < |d.target| ==> !IsSpace(d.target[i]))
    && (d.Alias? || d.NameServer? ==> d.target[0] != '"' && d.target[0] != '[')
  }

  /** A value that the splitter hands over whole. */
  predicate Whole(v: string) {
    && v != "" && ',' !in v
    && !IsSpace(v[0]) && v[0] != '"' && v[0] != '[' && v[|v| - 1] == '.'
  }

  lemma WholeValue(v: string)
    requires Whole(v)
    ensures SplitValues(v) == [v]
  {
    assert TrimSpace(v) == v;
    UnbracketWhole(v);
    SplitNone(v, ',');
    CleanWhole(v);
    KeepOne(v);
  }

  lemma KeepOne(v: string)
    requires v != "" && CleanPart(v) == v
    ensures KeepNonEmpty(CleanAll([v])) == [v]
  {
    var vs := CleanAll([v]);
    assert vs == [v] && vs[..0] == [];
    assert KeepNonEmpty(vs) == KeepNonEmpty(vs[..0]) + [v];
  }

  lemma UnbracketWhole(v: string)
    requires Whole(v)
    ensures Unbracket(v) == v
  {
    assert !HasPrefix(v, "[");
    assert v[|v| - 1..] == ".";
  }

  lemma CleanWhole(v: string)
    requires v != "" && !IsSpace(v[0]) && v[0] != '"' && v[|v| - 1] == '.'
    ensures CleanPart(v) == v
  {
    assert Trim(v, IsQuote) == v;
  }

  lemma ParseOne(kind: Kind, v: string)
    ensures Sequence(ParseEach(kind, [v])) == match ParseValue(kind, v) case Some(d) => Some([d]) case None => None
  {
    var os := ParseEach(kind, [v]);
    assert os == [ParseValue(kind, v)];
    SequenceOne(os[0]);
  }

  lemma SequenceOne(o: Option<Data>)
    ensures Sequence([o]) == match o case Some(d) => Some([d]) case None => None
  {
    assert [o][..0] == [];
    if o.Some? {
      assert [] + [o.value] == [o.value];
    }
  }

  lemma SpaceAt(head: string, rest: string)
    requires ' ' !in head
    ensures Before(head + " " + rest, ' ') == head && (head + " " + rest)[|head| + 1..] == rest
  {
    var s := head + " " + rest;
    assert s[..|head|] == head;
    BeforeIs(s, ' ', |head|);
  }

  lemma DigitsHaveNoSpace(n: nat)
    ensures ' ' !in Decimal(n) && ',' !in Decimal(n)
    ensures forall i :: 0 <= i < |Decimal(n)| ==> !IsSpace(Decimal(n)[i])
  {
  }

  // ---- Recovery -----------------------------------------------------------------------------------------

  lemma ClosedTarget(target: string)
    requires NormalFqdn(target) && target != ""
    ensures Closed(target)
  {
    NormalizedIsClosed(target);
  }

  lemma NameRecovered(target: string)
    requires NormalFqdn(target) && target != "" && ',' !in target && target[0] != '"' && target[0] != '['
    ensures SplitValues(target) == [target]
  {
    ClosedTarget(target);
    WholeValue(target);
  }

  lemma MxRecovered(p: Word16, target: string)
    requires NormalFqdn(target) && target != "" && ',' !in target
    ensures var v := Decimal(p) + " " + target; SplitValues(v) == [v] && ParseMx(v) == Some(MailExchange(p, target))
  {
    ClosedTarget(target);
    DecimalIsWord(p);
    TwoWhole(Decimal(p), target);
    WholeValue(Decimal(p) + " " + target);
    MxParsed(p, target);
  }

  lemma TwoWhole(a: string, target: string)
    requires a != "" && !IsSpace(a[0]) && a[0] != '"' && a[0] != '[' && ',' !in a
    requires ',' !in target && target != "" && target[|target| - 1] == '.'
    ensures Whole(a + " " + target)
  {
    var v := a + " " + target;
    assert v[0] == a[0] && v[|v| - 1] == target[|target| - 1];
  }

  lemma MxParsed(p: Word16, target: string)
    requires NormalFqdn(target)
    ensures ParseMx(Decimal(p) + " " + target) == Some(MailExchange(p, target))
  {
    DigitsHaveNoSpace(p);
    AtoiDecimal(p);
    assert TrimSpace(Decimal(p)) == Decimal(p);
    ParseMxAt(Decimal(p), target, p);
  }

  lemma ParseMxAt(head: string, rest: string, n: Word16)
    requires ' ' !in head && Atoi(TrimSpace(head)) == Some(n) && ToWord16(n) == n
    ensures ParseMx(head + " " + rest) == Some(MailExchange(n, NormalizeFqdn(rest)))
  {
    SpaceAt(head, rest);
  }

  lemma {:induction false} FirstWordIs(w: string, rest: string)
    requires (forall i :: 0 <= i < |w| ==> !IsSpace(w[i])) && (rest != "" ==> IsSpace(rest[0]))
    ensures FirstWord(w + rest) == w
  {
    if w == "" {
      assert w + rest == rest;
    } else {
      assert (w + rest)[1..] == w[1..] + rest;
      FirstWordIs(w[1..], rest);
    }
  }

  lemma FieldsCons(w: string, rest: string)
    requires w != "" && forall i :: 0 <= i < |w| ==> !IsSpace(w[i])
    ensures Fields(w + " " + rest) == [w] + Fields(rest)
  {
    var s := w + " " + rest;
    FirstWordIs(w, " " + rest);
    assert s == w + (" " + rest) && s[|w|..] == " " + rest && (" " + rest)[1..] == rest;
  }

  lemma FieldsOne(w: string)
    requires w != "" && forall i :: 0 <= i < |w| ==> !IsSpace(w[i])
    ensures Fields(w) == [w]
  {
    FirstWordIs(w, "");
    assert w + "" == w && w[|w|..] == "";
  }

  predicate IsWord(w: string) { w != "" && forall i :: 0 <= i < |w| ==> !IsSpace(w[i]) }

  lemma SpacedFields(a: string, b: string, c: string, rest: string)
    requires IsWord(a) && IsWord(b) && IsWord(c)
    ensures Fields(Spaced(a, b, c, rest)) == [a, b, c] + Fields(rest)
  {
    var r2 := c + " " + rest;
    var r1 := b + " " + r2;
    FieldsCons(c, rest);
    FieldsCons(b, r2);
    FieldsCons(a, r1);
    assert Spaced(a, b, c, rest) == a + " " + r1;
    assert [a] + ([b] + ([c] + Fields(rest))) == [a, b, c] + Fields(rest);
  }

  lemma SpacedWhole(a: string, b: string, c: string, target: string)
    requires a != "" && !IsSpace(a[0]) && a[0] != '"' && a[0] != '['
    requires ',' !in a && ',' !in b && ',' !in c && ',' !in target && target != "" && target[|target| - 1] == '.'
    ensures Whole(Spaced(a, b, c, target))
  {
    var v := Spaced(a, b, c, target);
    assert v[0] == a[0] && v[|v| - 1] == target[|target| - 1];
  }

  lemma DecimalIsWord(n: nat)
    ensures IsWord(Decimal(n)) && ',' !in Decimal(n) && Decimal(n)[0] != '"' && Decimal(n)[0] != '['
  {
    DigitsHaveNoSpace(n);
  }

  lemma FromDecimals(p: Word16, w: Word16, o: Word16, target: string)
    requires NormalFqdn(target)
    ensures FromFields([Decimal(p), Decimal(w), Decimal(o), target]) == Some(Service(p, w, o, target))
  {
    AtoiDecimal(p);
    AtoiDecimal(w);
    AtoiDecimal(o);
  }

  lemma SrvWhole(p: Word16, w: Word16, o: Word16, target: string)
    requires Closed(target) && ',' !in target
    ensures var v := Spaced(Decimal(p), Decimal(w), Decimal(o), target); SplitValues(v) == [v]
  {
    DecimalIsWord(p);
    DecimalIsWord(w);
    DecimalIsWord(o);
    SpacedWhole(Decimal(p), Decimal(w), Decimal(o), target);
    WholeValue(Spaced(Decimal(p), Decimal(w), Decimal(o), target));
  }

  lemma SrvFields(p: Word16, w: Word16, o: Word16, target: string)
    requires IsWord(target)
    ensures Fields(Spaced(Decimal(p), Decimal(w), Decimal(o), target)) == [Decimal(p), Decimal(w), Decimal(o), target]
  {
    DecimalIsWord(p);
    DecimalIsWord(w);
    DecimalIsWord(o);
    FourFields(Decimal(p), Decimal(w), Decimal(o), target);
  }

  lemma FourFields(a: string, b: string, c: string, target: string)
    requires IsWord(a) && IsWord(b) && IsWord(c) && IsWord(target)
    ensures Fields(Spaced(a, b, c, target)) == [a, b, c, target]
  {
    SpacedFields(a, b, c, target);
    FieldsOne(target);
  }

  lemma SrvRecovered(p: Word16, w: Word16, o: Word16, target: string)
    requires NormalFqdn(target) && IsWord(target) && ',' !in target
    ensures var v := Spaced(Decimal(p), Decimal(w), Decimal(o), target);
            SplitValues(v) == [v] && ParseSrv(v) == Some(Service(p, w, o, target))
  {
    ClosedTarget(target);
    SrvWhole(p, w, o, target);
    SrvFields(p, w, o, target);
    FromDecimals(p, w, o, target);
  }

  /** What is read back from the printed form. */
  function Reread(kind: Kind, printed: string): Option<seq<Data>> { Sequence(ParseEach(kind, SplitValues(printed))) }

  lemma RecoveredFrom(kind: Kind, v: string, d: Data)
    requires SplitValues(v) == [v] && ParseValue(kind, v) == Some(d)
    ensures Reread(kind, v) == Some([d])
  {
    ParseOne(kind, v);
  }

  lemma ParseMxIs(v: string)
    ensures ParseValue(MX, v) == ParseMx(v)
  {
  }

  lemma ParseSrvIs(v: string)
    ensures ParseValue(SRV, v) == ParseSrv(v)
  {
  }

  lemma PrintableRecovered(d: Data)
    requires Printable(d)
    ensures Reread(KindOf(d), Print(d)) == Some([d])
  {
    match d
    case Alias(t) => AliasRecovered(d);
    case NameServer(t) => AliasRecovered(d);
    case MailExchange(p, t) => MailRecovered(d);
    case Service(p, w, o, t) => ServiceRecovered(d);
  }

  lemma AliasRecovered(d: Data)
    requires Printable(d) && (d.Alias? || d.NameServer?)
    ensures Reread(KindOf(d), Print(d)) == Some([d])
  {
    NameRecovered(d.target);
    PrintName(d);
    RecoveredFrom(KindOf(d), Print(d), d);
  }

  lemma PrintName(d: Data)
    requires (d.Alias? || d.NameServer?) && NormalFqdn(d.target)
    ensures Print(d) == d.target && ParseValue(KindOf(d), d.target) == Some(d)
  {
  }

  lemma PrintMail(p: Word16, t: string)
    requires NormalFqdn(t)
    ensures Print(MailExchange(p, t)) == Decimal(p) + " " + t
  {
  }

  lemma MailRecovered(d: Data)
    requires Printable(d) && d.MailExchange?
    ensures Reread(KindOf(d), Print(d)) == Some([d])
  {
    MxRecovered(d.preference, d.target);
    PrintMail(d.preference, d.target);
    ParseMxIs(Print(d));
    RecoveredFrom(MX, Print(d), d);
  }

  lemma PrintService(p: Word16, w: Word16, o: Word16, t: string)
    requires NormalFqdn(t)
    ensures Print(Service(p, w, o, t)) == Spaced(Decimal(p), Decimal(w), Decimal(o), t)
  {
  }

  lemma ServiceRecovered(d: Data)
    requires Printable(d) && d.Service?
    ensures Reread(KindOf(d), Print(d)) == Some([d])
  {
    SrvRecovered(d.priority, d.weight, d.port, d.target);
    PrintService(d.priority, d.weight, d.port, d.target);
    ParseSrvIs(Print(d));
    RecoveredFrom(SRV, Print(d), d);
  }

  // ---- Nothing else is recovered --------------------------------------------------------------------------

  lemma {:induction false} SequenceParts(os: seq<Option<Data>>)
    ensures Sequence(os).Some? ==> |Sequence(os).value| == |os| && forall i :: 0 <= i < |os| ==>
              os[i] == Some(Sequence(os).value[i])
  {
    if os != [] {
      SequenceParts(os[..|os| - 1]);
    }
  }

  lemma {:induction false} KeptAreParts(parts: seq<string>)
    ensures forall v :: v in KeepNonEmpty(parts) ==> v in parts && v != ""
  {
    if parts != [] {
      KeptAreParts(parts[..|parts| - 1]);
    }
  }

  /** The pieces of a printed value contain no comma. */
  lemma PiecesHaveNoComma(values: string, v: string)
    requires v in SplitValues(values)
    ensures ',' !in v
  {
    var parts := Split(Unbracket(TrimSpace(values)), ',');
    KeptAreParts(CleanAll(parts));
    assert v in CleanAll(parts);
    var i :| 0 <= i < |parts| && CleanAll(parts)[i] == v;
    SplitHasNone(Unbracket(TrimSpace(values)), ',', i);
    CleanHasNone(parts[i], ',');
  }

  lemma CleanHasNone(part: string, c: char)
    requires c !in part
    ensures c !in CleanPart(part)
  {
    TrimHasNone(part, IsQuote, c);
    TrimHasNone(Trim(part, IsQuote), IsSpace, c);
  }

  lemma NormalizedChars(x: string, c: char)
    requires c in NormalizeFqdn(x) && c != '.'
    ensures c in ToLower(x)
  {
    var low := TrimSpace(ToLower(x));
    var v := TrimSuffix(low, ".");
    assert c in v;
    assert c in low;
    if c !in ToLower(x) {
      TrimHasNone(ToLower(x), IsSpace, c);
    }
  }

  lemma LowerHas(x: string, c: char) returns (i: nat)
    requires c in ToLower(x)
    ensures i < |x| && LowerChar(x[i]) == c
  {
    i :| 0 <= i < |x| && ToLower(x)[i] == c;
  }

  lemma CommaFromComma(x: string)
    requires ',' in NormalizeFqdn(x)
    ensures ',' in x
  {
    NormalizedChars(x, ',');
    CommaFromLower(x);
  }

  lemma CommaFromLower(x: string)
    requires ',' in ToLower(x)
    ensures ',' in x
  {
    var i :| 0 <= i < |x| && ToLower(x)[i] == ',';
    assert x[i] == ',';
  }

  lemma NoSpaceIn(x: string)
    requires forall i :: 0 <= i < |x| ==> !IsSpace(x[i])
    ensures forall i :: 0 <= i < |NormalizeFqdn(x)| ==> !IsSpace(NormalizeFqdn(x)[i])
  {
    forall i | 0 <= i < |NormalizeFqdn(x)| ensures !IsSpace(NormalizeFqdn(x)[i]) {
      var c := NormalizeFqdn(x)[i];
      if c != '.' {
        NormalizedChars(x, c);
        var j := LowerHas(x, c);
        LowerNotSpace(x[j]);
      }
    }
  }

  lemma LowerNotSpace(c: char)
    requires !IsSpace(c)
    ensures !IsSpace(LowerChar(c))
  {
  }

  lemma {:induction false} FieldsAreWords(s: string, k: nat)
    requires k < |Fields(s)|
    ensures forall i :: 0 <= i < |Fields(s)[k]| ==> !IsSpace(Fields(s)[k][i])
    decreases |s|
  {
    if IsSpace(s[0]) {
      FieldsAreWords(s[1..], k);
    } else if k > 0 {
      FieldsAreWords(s[|FirstWord(s)|..], k - 1);
    }
  }

  lemma {:induction false} FieldsChars(s: string, c: char)
    requires c !in s
    ensures forall k :: 0 <= k < |Fields(s)| ==> c !in Fields(s)[k]
    decreases |s|
  {
    if s != "" {
      if IsSpace(s[0]) {
        FieldsChars(s[1..], c);
      } else {
        var w := FirstWord(s);
        assert forall x :: x in w ==> x in s;
        FieldsChars(s[|w|..], c);
      }
    }
  }

  /** What a parsed target is like: normal, without commas if the value had none. */
  ghost predicate TargetFrom(target: string, v: string) {
    NormalFqdn(target) && (',' !in v ==> ',' !in target)
  }

  lemma NormalizedFrom(x: string, v: string)
    requires ',' !in v ==> ',' !in x
    ensures TargetFrom(NormalizeFqdn(x), v)
  {
    FqdnIdempotent(x);
    if ',' in NormalizeFqdn(x) {
      CommaFromComma(x);
    }
  }

  lemma MxTarget(v: string)
    requires ParseMx(v).Some?
    ensures ParseMx(v).value.MailExchange? && TargetFrom(ParseMx(v).value.target, v)
  {
    MxParts(v);
    NormalizedFrom(v[|Before(v, ' ')| + 1..], v);
  }

  lemma MxParts(v: string)
    requires ParseMx(v).Some?
    ensures |Before(v, ' ')| < |v| && ParseMx(v).value.MailExchange?
    ensures ParseMx(v).value.target == NormalizeFqdn(v[|Before(v, ' ')| + 1..])
  {
  }

  lemma SrvTarget(v: string)
    requires ParseSrv(v).Some?
    ensures var d := ParseSrv(v).value;
            d.Service? && TargetFrom(d.target, v) && forall i :: 0 <= i < |d.target| ==> !IsSpace(d.target[i])
  {
    var parts := Fields(v);
    if ',' !in v {
      FieldsChars(v, ',');
    }
    FieldsAreWords(v, 3);
    NormalizedFrom(parts[3], v);
    NoSpaceIn(parts[3]);
  }

  lemma ParsedTarget(kind: Kind, v: string, d: Data)
    requires ParseValue(kind, v) == Some(d)
    ensures TargetFrom(d.target, v)
    ensures d.Service? ==> forall i :: 0 <= i < |d.target| ==> !IsSpace(d.target[i])
  {
    match kind
    case CNAME => NormalizedFrom(v, v);
    case NS => NormalizedFrom(v, v);
    case MX => ParseMxIs(v); MxTarget(v);
    case SRV => ParseSrvIs(v); SrvTarget(v);
  }

  // The root is lost: its printed form is empty or ends in a blank that is trimmed away.

  lemma TrimEnd(s: string)
    requires s != "" && !IsSpace(s[0]) && !IsSpace(s[|s| - 1])
    ensures TrimSpace(s + " ") == s
  {
    var t := s + " ";
    assert t[0] == s[0] && t[..|t| - 1] == s;
    assert TrimRight(t, IsSpace) == TrimRight(s, IsSpace);
  }

  lemma PlainValue(s: string)
    requires s != "" && ',' !in s
    requires '[' !in s && !IsSpace(s[0]) && !IsSpace(s[|s| - 1]) && s[0] != '"' && s[|s| - 1] != '"'
    ensures SplitValues(s + " ") == [s]
  {
    TrimEnd(s);
    assert Unbracket(s) == s;
    SplitNone(s, ',');
    assert Trim(s, IsQuote) == s;
    assert CleanPart(s) == s;
    KeepOne(s);
  }

  lemma MxRoot(p: Word16)
    ensures SplitValues(Decimal(p) + " " + "") == [Decimal(p)] && ParseMx(Decimal(p)) == None
  {
    DecimalIsWord(p);
    assert Decimal(p) + " " + "" == Decimal(p) + " ";
    DecimalHasNoBracket(p);
    PlainValue(Decimal(p));
  }

  lemma DecimalHasNoBracket(n: nat)
    ensures '[' !in Decimal(n) && ' ' !in Decimal(n)
    ensures !IsSpace(Decimal(n)[|Decimal(n)| - 1]) && Decimal(n)[|Decimal(n)| - 1] != '"'
  {
  }

  function Three(a: string, b: string, c: string): string { a + " " + (b + " " + c) }

  lemma SpacedRoot(a: string, b: string, c: string)
    ensures Spaced(a, b, c, "") == Three(a, b, c) + " "
  {
    assert c + " " + "" == c + " ";
  }

  lemma ThreeFields(a: string, b: string, c: string)
    requires IsWord(a) && IsWord(b) && IsWord(c)
    ensures Fields(Three(a, b, c)) == [a, b, c]
  {
    FieldsOne(c);
    FieldsCons(b, c);
    FieldsCons(a, b + " " + c);
  }

  /** A piece of text that splitting, unquoting and trimming leave alone. */
  predicate Undisturbed(s: string) {
    s != "" && ',' !in s && '[' !in s && !IsSpace(s[0]) && !IsSpace(s[|s| - 1]) && s[0] != '"' && s[|s| - 1] != '"'
  }

  lemma ThreeUndisturbed(a: string, b: string, c: string)
    requires Undisturbed(a) && Undisturbed(b) && Undisturbed(c)
    ensures Undisturbed(Three(a, b, c))
  {
    var s := Three(a, b, c);
    assert s[0] == a[0] && s[|s| - 1] == c[|c| - 1];
  }

  lemma DecimalUndisturbed(n: nat)
    ensures Undisturbed(Decimal(n))
  {
    DecimalIsWord(n);
    DecimalHasNoBracket(n);
  }

  lemma ThreePlain(p: Word16, w: Word16, o: Word16)
    ensures SplitValues(Three(Decimal(p), Decimal(w), Decimal(o)) + " ") == [Three(Decimal(p), Decimal(w), Decimal(o))]
  {
    DecimalUndisturbed(p);
    DecimalUndisturbed(w);
    DecimalUndisturbed(o);
    ThreeUndisturbed(Decimal(p), Decimal(w), Decimal(o));
    PlainValue(Three(Decimal(p), Decimal(w), Decimal(o)));
  }

  lemma SrvRoot(p: Word16, w: Word16, o: Word16)
    ensures var s := Three(Decimal(p), Decimal(w), Decimal(o));
            SplitValues(Spaced(Decimal(p), Decimal(w), Decimal(o), "")) == [s] && ParseSrv(s) == None
  {
    SpacedRoot(Decimal(p), Decimal(w), Decimal(o));
    ThreePlain(p, w, o);
    DecimalIsWord(p);
    DecimalIsWord(w);
    DecimalIsWord(o);
    ThreeFields(Decimal(p), Decimal(w), Decimal(o));
  }

  lemma RootPrints(d: Data)
    requires d.target == ""
    ensures match d
            case Alias(_) => Print(d) == ""
            case NameServer(_) => Print(d) == ""
            case MailExchange(p, _) => Print(d) == Decimal(p) + " " + ""
            case Service(p, w, o, _) => Print(d) == Spaced(Decimal(p), Decimal(w), Decimal(o), "")
  {
    EmptyIsNormal();
  }

  lemma NameRootLost(kind: Kind, d: Data)
    ensures Reread(kind, "") != Some([d])
  {
    assert SplitValues("") == [];
    SequenceParts(ParseEach(kind, []));
  }

  lemma MailRootLost(p: Word16, d: Data)
    ensures Reread(MX, Decimal(p) + " " + "") != Some([d])
  {
    MxRoot(p);
    ParseMxIs(Decimal(p));
    ParseOne(MX, Decimal(p));
  }

  lemma ServiceRootLost(p: Word16, w: Word16, o: Word16, d: Data)
    ensures Reread(SRV, Spaced(Decimal(p), Decimal(w), Decimal(o), "")) != Some([d])
  {
    var s := Three(Decimal(p), Decimal(w), Decimal(o));
    SrvRoot(p, w, o);
    ParseSrvIs(s);
    ParseOne(SRV, s);
  }

  lemma RootLost(d: Data)
    requires d.target == ""
    ensures Reread(KindOf(d), Print(d)) != Some([d])
  {
    match d
    case Alias(_) => PrintedNameLost(d);
    case NameServer(_) => PrintedNameLost(d);
    case MailExchange(p, _) => PrintedMailLost(d);
    case Service(p, w, o, _) => PrintedServiceLost(d);
  }

  lemma PrintedNameLost(d: Data)
    requires d.target == "" && (d.Alias? || d.NameServer?)
    ensures Reread(KindOf(d), Print(d)) != Some([d])
  {
    RootPrints(d);
    NameRootLost(KindOf(d), d);
  }

  lemma PrintedMailLost(d: Data)
    requires d.target == "" && d.MailExchange?
    ensures Reread(KindOf(d), Print(d)) != Some([d])
  {
    RootPrints(d);
    MailRootLost(d.preference, d);
  }

  lemma PrintedServiceLost(d: Data)
    requires d.target == "" && d.Service?
    ensures Reread(KindOf(d), Print(d)) != Some([d])
  {
    RootPrints(d);
    ServiceRootLost(d.priority, d.weight, d.port, d);
  }

  // A name that starts with a quote or a bracket comes back shorter.

  lemma CleanShrinks(part: string)
    requires part != "" && part[|part| - 1] == '.'
    ensures var r := CleanPart(part);
            r != "" && r[|r| - 1] == '.' && |r| <= |part| && (part[0] == '"' ==> |r| < |part|)
  {
    UnquoteShrinks(part);
    UnspaceShrinks(Trim(part, IsQuote));
  }

  lemma UnquoteShrinks(part: string)
    requires part != "" && part[|part| - 1] == '.'
    ensures var r := Trim(part, IsQuote);
            r != "" && r[|r| - 1] == '.' && |r| <= |part| && (part[0] == '"' ==> |r| < |part|)
  {
    TrimKeepsEnd(part, IsQuote);
  }

  lemma UnspaceShrinks(s: string)
    requires s != "" && s[|s| - 1] == '.'
    ensures var r := TrimSpace(s); r != "" && r[|r| - 1] == '.' && |r| <= |s|
  {
    TrimKeepsEnd(s, IsSpace);
  }

  lemma TrimKeepsEnd(s: string, drop: char -> bool)
    requires s != "" && s[|s| - 1] == '.' && !drop('.')
    ensures var r := Trim(s, drop);
            r != "" && r[|r| - 1] == '.' && |r| <= |s| && (drop(s[0]) ==> |r| < |s|)
  {
    LeftKeepsEnd(s, drop);
    assert Trim(s, drop) == TrimLeft(s, drop);
  }

  lemma {:induction false} LeftKeepsEnd(s: string, drop: char -> bool)
    requires s != "" && s[|s| - 1] == '.' && !drop('.')
    ensures var r := TrimLeft(s, drop);
            r != "" && r[|r| - 1] == '.' && |r| <= |s| && (drop(s[0]) ==> |r| < |s|)
  {
    if drop(s[0]) {
      LeftKeepsEnd(s[1..], drop);
    }
  }

  lemma CloseShrinks(t: string)
    requires t != "" && t[|t| - 1] == '.'
    ensures |Close(t)| <= |t|
  {
    assert t[|t| - 1..] == ".";
  }

  lemma NormalizeShrinks(v: string)
    requires v != "" && v[|v| - 1] == '.'
    ensures |NormalizeFqdn(v)| <= |v|
  {
    var low := ToLower(v);
    assert low[|low| - 1] == '.';
    TrimKeepsEnd(low, IsSpace);
    CloseShrinks(TrimSpace(low));
  }

  lemma StartLost(t: string)
    requires Closed(t) && ',' !in t && (t[0] == '"' || t[0] == '[')
    ensures |SplitValues(t)| == 1 ==> |NormalizeFqdn(SplitValues(t)[0])| < |t|
  {
    StartShrinks(t);
    NormalizeShrinks(SplitValues(t)[0]);
  }

  lemma StartShrinks(t: string)
    requires Closed(t) && ',' !in t && (t[0] == '"' || t[0] == '[')
    ensures var vs := SplitValues(t); |vs| == 1 && vs[0] != "" && vs[0][|vs[0]| - 1] == '.' && |vs[0]| < |t|
  {
    assert TrimSpace(t) == t;
    var u := Unbracket(t);
    UnbracketShrinks(t);
    SplitNone(u, ',');
    OnePartShrinks(u);
  }

  lemma OnePartShrinks(u: string)
    requires u != "" && u[|u| - 1] == '.'
    ensures var vs := KeepNonEmpty(CleanAll([u]));
            |vs| == 1 && vs[0] != "" && vs[0][|vs[0]| - 1] == '.' && |vs[0]| <= |u| && (u[0] == '"' ==> |vs[0]| < |u|)
  {
    CleanShrinks(u);
    CleanOne(u);
  }

  lemma UnbracketShrinks(t: string)
    requires Closed(t) && ',' !in t
    ensures var u := Unbracket(t);
            && u != "" && u[|u| - 1] == '.' && ',' !in u && |u| <= |t|
            && (t[0] == '[' ==> |u| < |t|) && (t[0] == '"' ==> u == t)
  {
    if '[' in t {
      var v := TrimPrefix(t, "[");
      assert t[0] == '[' <==> HasPrefix(t, "[");
      assert v == t || v == t[1..];
      assert v[|v| - 1..] == ".";
      assert TrimSuffix(v, "]") == v;
    }
  }

  lemma CleanOne(u: string)
    requires CleanPart(u) != ""
    ensures KeepNonEmpty(CleanAll([u])) == [CleanPart(u)]
  {
    var vs := CleanAll([u]);
    assert vs == [CleanPart(u)] && vs[..0] == [];
    assert KeepNonEmpty(vs) == KeepNonEmpty(vs[..0]) + [vs[0]];
  }

  // ---- Exactly when ---------------------------------------------------------------------------------------

  lemma SinglePiece(kind: Kind, vs: seq<string>, d: Data)
    requires Sequence(ParseEach(kind, vs)) == Some([d])
    ensures |vs| == 1 && ParseValue(kind, vs[0]) == Some(d)
  {
    SequenceParts(ParseEach(kind, vs));
    assert ParseEach(kind, vs)[0] == ParseValue(kind, vs[0]);
  }

  lemma OnlyPrintable(d: Data)
    requires Reread(KindOf(d), Print(d)) == Some([d])
    ensures Printable(d)
  {
    var vs := SplitValues(Print(d));
    SinglePiece(KindOf(d), vs, d);
    PiecesHaveNoComma(Print(d), vs[0]);
    NotRoot(d);
    PieceIsPrintable(d, vs[0]);
  }

  lemma NotRoot(d: Data)
    requires Reread(KindOf(d), Print(d)) == Some([d])
    ensures d.target != ""
  {
    if d.target == "" {
      RootLost(d);
      assert false;
    }
  }

  lemma PieceIsPrintable(d: Data, v: string)
    requires SplitValues(Print(d)) == [v] && ParseValue(KindOf(d), v) == Some(d) && ',' !in v && d.target != ""
    ensures Printable(d)
  {
    ParsedTarget(KindOf(d), v, d);
    if d.Alias? || d.NameServer? {
      NamedStart(d, v);
    }
  }

  lemma NamedStart(d: Data, v: string)
    requires (d.Alias? || d.NameServer?) && NormalFqdn(d.target) && d.target != "" && ',' !in d.target
    requires SplitValues(Print(d)) == [v] && ParseValue(KindOf(d), v) == Some(d)
    ensures d.target[0] != '"' && d.target[0] != '['
  {
    ClosedTarget(d.target);
    assert Print(d) == d.target && NormalizeFqdn(v) == d.target;
    if d.target[0] == '"' || d.target[0] == '[' {
      StartLost(d.target);
      assert false;
    }
  }

  /** Printing an answer into a record and rendering that record gives the answer back, and it alone, if and only
      if its name is normal and its data is printable. */
  lemma RoundTripIff(a: Answer)
    ensures ToAnswers(ToRow(a)) == Some([a]) <==> NormalFqdn(a.name) && Printable(a.data)
  {
    RowParses(a);
    if Printable(a.data) {
      PrintableRecovered(a.data);
    }
    if Reread(KindOf(a.data), Print(a.data)) == Some([a.data]) {
      OnlyPrintable(a.data);
    }
  }

  lemma RowParses(a: Answer)
    ensures ToAnswers(ToRow(a)) == Some([a]) <==>
            NormalFqdn(a.name) && Reread(KindOf(a.data), Print(a.data)) == Some([a.data])
  {
    FqdnIdempotent(a.name);
    var name := NormalizeFqdn(a.name);
    var parsed := Reread(KindOf(a.data), Print(a.data));
    assert ToAnswers(ToRow(a)) == if parsed.None? then None else Some(Named(name, a.ttl, parsed.value));
    if parsed.Some? {
      NamedIs(name, a, parsed.value);
    }
  }

  lemma NamedIs(name: string, a: Answer, ds: seq<Data>)
    ensures Named(name, a.ttl, ds) == [a] <==> name == a.name && ds == [a.data]
  {
    if Named(name, a.ttl, ds) == [a] {
      assert |ds| == 1 && Named(name, a.ttl, ds)[0] == Answer(name, a.ttl, ds[0]);
    } else if name == a.name && ds == [a.data] {
      NamedOne(name, a.ttl, a.data);
      assert false;
    }
  }

  lemma NamedOne(name: string, ttl: nat, d: Data)
    ensures Named(name, ttl, [d]) == [Answer(name, ttl, d)]
  {
  }
}
