/** Records that hold a list of values: how the stored text splits, and the answers it gives. */
module DnsLists {
  import opened Options
  import opened Text
  import opened DnsNames
  import opened DnsText

  /** A value that survives in a list: no comma, and no blank or quote at either end. */
  predicate Piece(v: string) {
    && v != "" && ',' !in v && !IsSpace(v[0]) && !IsSpace(v[|v| - 1]) && v[0] != '"' && v[|v| - 1] != '"'
  }

  function Quoted(vs: seq<string>): (r: seq<string>)
    ensures |r| == |vs| && forall i :: 0 <= i < |vs| ==> r[i] == "\"" + vs[i] + "\""
  {
    seq(|vs|, i requires 0 <= i < |vs| => "\"" + vs[i] + "\"")
  }

  /** The values as a JSON array, which is how records keep them. */
  function Json(vs: seq<string>): string { "[" + Join(Quoted(vs), ',') + "]" }

  lemma CleanQuoted(v: string)
    requires Piece(v)
    ensures CleanPart("\"" + v + "\"") == v
  {
    TrimBetween("\"", v, "\"", IsQuote);
  }

  lemma {:induction false} KeepAll(vs: seq<string>)
    requires forall i :: 0 <= i < |vs| ==> vs[i] != ""
    ensures KeepNonEmpty(vs) == vs
  {
    if vs != [] {
      KeepAll(vs[..|vs| - 1]);
    }
  }

  lemma UnbracketJson(body: string)
    ensures TrimSpace("[" + body + "]") == "[" + body + "]" && Unbracket("[" + body + "]") == body
  {
    var raw := "[" + body + "]";
    assert raw[0] == '[' && raw[|raw| - 1] == ']' && raw[1..] == body + "]";
    AffixesAre(body, "]");
  }

  lemma QuotedSplit(vs: seq<string>)
    requires vs != [] && forall i :: 0 <= i < |vs| ==> Piece(vs[i])
    ensures Split(Join(Quoted(vs), ','), ',') == Quoted(vs)
  {
    forall i | 0 <= i < |vs| ensures ',' !in Quoted(vs)[i] {
      NoComma(vs[i]);
    }
    SplitJoin(Quoted(vs), ',');
  }

  lemma NoComma(v: string)
    requires ',' !in v
    ensures ',' !in "\"" + v + "\""
  {
  }

  /** A JSON array of such values splits into the values, in order. */
  lemma JsonListSplits(vs: seq<string>)
    requires forall i :: 0 <= i < |vs| ==> Piece(vs[i])
    ensures SplitValues(Json(vs)) == vs
  {
    var body := Join(Quoted(vs), ',');
    UnbracketJson(body);
    if vs == [] {
      NothingSplits();
    } else {
      QuotedSplit(vs);
      var clean := CleanAll(Quoted(vs));
      forall i | 0 <= i < |vs| ensures clean[i] == vs[i] {
        CleanQuoted(vs[i]);
      }
      assert clean == vs;
      KeepAll(vs);
    }
  }

  lemma NothingSplits()
    ensures KeepNonEmpty(CleanAll(Split("", ','))) == []
  {
    SplitNone("", ',');
    assert CleanPart("") == "";
    assert CleanAll([""]) == [""] && [""][..0] == [];
    assert KeepNonEmpty([""]) == KeepNonEmpty([""][..0]);
  }

  /** Each part of a comma list counts without the blanks around it, and not at all if nothing is left. */
  lemma CommaListSplits(parts: seq<string>, vs: seq<string>, before: seq<string>, after: seq<string>)
    requires |parts| == |vs| == |before| == |after| > 0 && TrimSpace(Join(parts, ',')) == Join(parts, ',') != ""
    requires '[' !in Join(parts, ',')
    requires forall i :: 0 <= i < |vs| ==>
               && ',' !in parts[i] && parts[i] == before[i] + vs[i] + after[i]
               && All(before[i], IsSpace) && All(after[i], IsSpace) && (vs[i] == "" || Piece(vs[i]))
    ensures SplitValues(Join(parts, ',')) == KeepNonEmpty(vs)
  {
    SplitJoin(parts, ',');
    var clean := CleanAll(parts);
    forall i | 0 <= i < |vs| ensures clean[i] == vs[i] {
      CleanBlanks(before[i], vs[i], after[i]);
    }
    assert clean == vs;
  }

  lemma CleanBlanks(a: string, v: string, b: string)
    requires All(a, IsSpace) && All(b, IsSpace) && (v == "" || Piece(v))
    ensures CleanPart(a + v + b) == v
  {
    var s := a + v + b;
    if s != "" {
      assert s[0] != '"' && s[|s| - 1] != '"' by {
        EndsAre(a, v, b);
      }
    }
    TrimBetween(a, v, b, IsSpace);
  }

  lemma EndsAre(a: string, v: string, b: string)
    requires All(a, IsSpace) && All(b, IsSpace) && (v == "" || Piece(v)) && a + v + b != ""
    ensures var s := a + v + b; s[0] != '"' && s[|s| - 1] != '"'
  {
    var s := a + v + b;
    assert s[0] == (if a != "" then a[0] else if v != "" then v[0] else b[0]);
    assert s[|s| - 1] == (if b != "" then b[|b| - 1] else if v != "" then v[|v| - 1] else a[|a| - 1]);
  }

  /** Keeping takes the non-empty parts, each in its place. */
  lemma {:induction false} KeepConcat(a: seq<string>, b: seq<string>)
    ensures KeepNonEmpty(a + b) == KeepNonEmpty(a) + KeepNonEmpty(b)
  {
    if b == [] {
      assert a + b == a;
    } else {
      assert (a + b)[..|a + b| - 1] == a + b[..|b| - 1];
      KeepConcat(a, b[..|b| - 1]);
    }
  }

  lemma KeepSingle(v: string)
    ensures KeepNonEmpty([v]) == if v == "" then [] else [v]
  {
    assert [v][..0] == [];
  }

  // ---- Several values -----------------------------------------------------------------------------------

  lemma PrintedPiece(d: Data)
    requires Printable(d)
    ensures Piece(Print(d)) && ParseValue(KindOf(d), Print(d)) == Some(d)
  {
    PrintableRecovered(d);
    PrintedWhole(d);
    WholeValue(Print(d));
    SinglePiece(KindOf(d), SplitValues(Print(d)), d);
  }

  lemma PrintedWhole(d: Data)
    requires Printable(d)
    ensures Whole(Print(d))
  {
    ClosedTarget(d.target);
    match d
    case Alias(_) => PrintName(d);
    case NameServer(_) => PrintName(d);
    case MailExchange(p, t) => MailWhole(p, t);
    case Service(p, w, o, t) => ServiceWhole(p, w, o, t);
  }

  lemma MailWhole(p: Word16, t: string)
    requires NormalFqdn(t) && Closed(t) && ',' !in t
    ensures Whole(Print(MailExchange(p, t)))
  {
    PrintMail(p, t);
    DecimalIsWord(p);
    var v := Decimal(p) + " " + t;
    assert v[0] == Decimal(p)[0] && v[|v| - 1] == t[|t| - 1];
  }

  lemma ServiceWhole(p: Word16, w: Word16, o: Word16, t: string)
    requires NormalFqdn(t) && Closed(t) && ',' !in t
    ensures Whole(Print(Service(p, w, o, t)))
  {
    PrintService(p, w, o, t);
    DecimalIsWord(p);
    DecimalIsWord(w);
    DecimalIsWord(o);
    SpacedWhole(Decimal(p), Decimal(w), Decimal(o), t);
  }

  function Printed(ds: seq<Data>): (r: seq<string>)
    ensures |r| == |ds| && forall i :: 0 <= i < |ds| ==> r[i] == Print(ds[i])
  {
    seq(|ds|, i requires 0 <= i < |ds| => Print(ds[i]))
  }

  lemma {:induction false} AllPresent(os: seq<Option<Data>>, ds: seq<Data>)
    requires |os| == |ds| && forall i :: 0 <= i < |os| ==> os[i] == Some(ds[i])
    ensures Sequence(os) == Some(ds)
  {
    if os != [] {
      var n := |os| - 1;
      AllPresent(os[..n], ds[..n]);
      assert ds == ds[..n] + [ds[n]];
    }
  }

  /** A record that keeps the printed forms of any number of values gives one answer for each, in order, with the
      record's normal name and its time to live. */
  lemma ListIsAnswered(fqdn: string, kind: Kind, ttl: nat, ds: seq<Data>)
    requires forall i :: 0 <= i < |ds| ==> Printable(ds[i]) && KindOf(ds[i]) == kind
    ensures var r := ToAnswers(Row(fqdn, kind, ttl, Json(Printed(ds))));
            && r.Some? && |r.value| == |ds|
            && forall i :: 0 <= i < |ds| ==>
                 r.value[i].name == NormalizeFqdn(fqdn) && r.value[i].ttl == ttl && r.value[i].data == ds[i]
  {
    var vs := Printed(ds);
    forall i | 0 <= i < |ds| ensures Piece(vs[i]) && ParseEach(kind, vs)[i] == Some(ds[i]) {
      PrintedPiece(ds[i]);
    }
    JsonListSplits(vs);
    AllPresent(ParseEach(kind, vs), ds);
  }

  function Normal(d: Data): Data {
    match d
    case Alias(t) => Alias(NormalizeFqdn(t))
    case NameServer(t) => NameServer(NormalizeFqdn(t))
    case MailExchange(p, t) => MailExchange(p, NormalizeFqdn(t))
    case Service(p, w, o, t) => Service(p, w, o, NormalizeFqdn(t))
  }

  /** What is stored of an answer is its normal form: its normal name, its time to live, and the text of its data with
      a normal target, which is all that reading it back can give. */
  lemma RowIsNormal(a: Answer)
    ensures var r := ToRow(a);
            && r.fqdn == NormalizeFqdn(a.name) && r.ttl == a.ttl && r.kind == KindOf(a.data)
            && r.values == Print(Normal(a.data))
    ensures Printable(Normal(a.data)) ==>
              ToAnswers(ToRow(a)) == Some([Answer(NormalizeFqdn(a.name), a.ttl, Normal(a.data))])
  {
    FqdnIdempotent(a.data.target);
    FqdnIdempotent(a.name);
    var n := Answer(NormalizeFqdn(a.name), a.ttl, Normal(a.data));
    assert ToRow(n) == ToRow(a);
    if Printable(Normal(a.data)) {
      RoundTripIff(n);
    }
  }

  /** One value that does not parse spoils the whole record. */
  lemma BadValueSpoils(r: Row, i: nat)
    requires i < |SplitValues(r.values)| && ParseValue(r.kind, SplitValues(r.values)[i]) == None
    ensures ToAnswers(r) == None
  {
    var vs := SplitValues(r.values);
    SequenceParts(ParseEach(r.kind, vs));
    assert ParseEach(r.kind, vs)[i] == None;
  }

  // ---- Numbers ------------------------------------------------------------------------------------------

  lemma DigitsSnoc(s: string, c: char)
    requires Digits(s) && IsDigit(c)
    ensures Digits(s + [c]) && DigitsValue(s + [c]) == DigitsValue(s) * 10 + (c as int - '0' as int)
  {
    assert (s + [c])[..|s|] == s;
  }

  /** Digits with or without a sign are read as the number they write, if it fits in 64 bits. */
  lemma AtoiReads(d: string)
    requires d != "" && Digits(d)
    ensures var n: int := DigitsValue(d);
            && Atoi(d) == Atoi("+" + d) == (if n <= 9223372036854775807 then Some(n) else None)
            && Atoi("-" + d) == (if n <= 9223372036854775808 then Some(-n) else None)
  {
    assert ("+" + d)[1..] == d && ("-" + d)[1..] == d;
    assert IsDigit(d[0]);
  }

  /** And nothing else is. */
  lemma AtoiRefuses(s: string)
    requires forall d: string :: d != "" && Digits(d) ==> s != d && s != "+" + d && s != "-" + d
    ensures Atoi(s) == None
  {
    SignAndBody(s);
  }

  lemma SignAndBody(s: string)
    ensures var body := if s != "" && s[0] in {'-', '+'} then s[1..] else s;
            s == body || s == "+" + body || s == "-" + body
  {
    if s != "" {
      assert s == [s[0]] + s[1..];
    }
  }

  lemma ToWord16Is(n: int, r: int)
    ensures ToWord16(n) == r <==> 0 <= r < 0x1_0000 && (n - r) % 0x1_0000 == 0
  {
  }

  /** A mail exchange is a number, a blank and a name; more blanks count as part of the name. */
  lemma MailParses(head: string, rest: string)
    requires ' ' !in head
    ensures ParseValue(MX, head) == None
    ensures ParseValue(MX, head + " " + rest) ==
            match Atoi(TrimSpace(head))
            case None => None
            case Some(n) => Some(MailExchange(ToWord16(n), NormalizeFqdn(rest)))
  {
    SpaceAt(head, rest);
    BeforeAll(head, ' ');
    var v := head + " " + rest;
    assert |Before(v, ' ')| < |v|;
  }

  /** A service is three numbers and a name, with any blanks between them, and nothing more. */
  lemma ServiceParses(value: string)
    ensures var fs := Fields(value);
            ParseValue(SRV, value).Some? <==> |fs| == 4 && Atoi(fs[0]).Some? && Atoi(fs[1]).Some? && Atoi(fs[2]).Some?
    ensures ParseValue(SRV, value).Some? ==>
              var fs, d := Fields(value), ParseValue(SRV, value).value;
              d == Service(ToWord16(Atoi(fs[0]).value), ToWord16(Atoi(fs[1]).value), ToWord16(Atoi(fs[2]).value),
                           NormalizeFqdn(fs[3]))
  {
    ParseSrvIs(value);
    FromFieldsIs(Fields(value));
  }

  lemma FromFieldsIs(fs: seq<string>)
    ensures FromFields(fs).Some? <==> |fs| == 4 && Atoi(fs[0]).Some? && Atoi(fs[1]).Some? && Atoi(fs[2]).Some?
    ensures FromFields(fs).Some? ==>
              FromFields(fs).value
              == Service(ToWord16(Atoi(fs[0]).value), ToWord16(Atoi(fs[1]).value), ToWord16(Atoi(fs[2]).value),
                         NormalizeFqdn(fs[3]))
  {
  }

  lemma BlankBeforeFields(c: char, s: string)
    requires IsSpace(c)
    ensures Fields([c] + s) == Fields(s)
  {
    assert ([c] + s)[1..] == s;
  }
}
