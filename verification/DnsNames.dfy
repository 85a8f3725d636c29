/** Normal forms of DNS names and record types, and the cache key of a question. */
module DnsNames {
  import opened Text

  /** One trailing dot, unless nothing else is left. */
  function Close(low: string): string {
    var v := TrimSuffix(low, ".");
    if v == "" then "" else v + "."
  }

  function NormalizeFqdn(value: string): string { Close(TrimSpace(ToLower(value))) }

  /** `known` is the table of record type names of the DNS library. */
  function NormalizeType(value: string, known: set<string>): string {
    var v := ToUpper(TrimSpace(value));
    if v in known then v else ""
  }

  function CacheKey(fqdn: string, recordType: string): string { fqdn + "|" + recordType }

  predicate NormalFqdn(s: string) { NormalizeFqdn(s) == s }

  predicate NormalType(t: string, known: set<string>) { NormalizeType(t, known) == t }

  /** Type names never contain the separator of the cache key. */
  predicate GoodTypes(known: set<string>) { forall t :: t in known ==> '|' !in t }

  predicate LowerCase(s: string) { forall i :: 0 <= i < |s| ==> LowerChar(s[i]) == s[i] }

  /** A lower-case name that does not start with a blank, closed by a dot. */
  predicate Closed(s: string) {
    |s| >= 2 && s[|s| - 1] == '.' && !IsSpace(s[0]) && LowerCase(s)
  }

  lemma DropDot(v: string)
    ensures TrimSuffix(v + ".", ".") == v
  {
    var r := v + ".";
    assert r[|r| - 1..] == "." && r[..|r| - 1] == v;
  }

  lemma ClosedIsNormal(s: string)
    requires Closed(s)
    ensures NormalFqdn(s)
  {
    var v := s[..|s| - 1];
    assert ToLower(s) == s;
    assert TrimSpace(s) == s;
    assert s == v + ".";
    DropDot(v);
  }

  lemma EmptyIsNormal()
    ensures NormalFqdn("")
  {
    assert ToLower("") == "";
  }

  lemma CloseUp(low: string)
    requires LowerCase(low) && low != "" && !IsSpace(low[0]) && TrimSuffix(low, ".") != ""
    ensures Closed(TrimSuffix(low, ".") + ".")
  {
    var v := TrimSuffix(low, ".");
    assert v == low || v == low[..|low| - 1];
    var r := v + ".";
    assert forall i :: 0 <= i < |v| ==> r[i] == low[i];
  }

  /** A name is lowered, freed of the blanks around it and closed by one dot; the root becomes empty. */
  lemma FqdnIs(a: string, name: string, b: string)
    requires All(a, IsSpace) && All(b, IsSpace) && (name != "" ==> !IsSpace(name[0]) && !IsSpace(name[|name| - 1]))
    ensures var low := ToLower(name);
            NormalizeFqdn(a + name + b) ==
            if low == "" || low == "." then "" else if low[|low| - 1] == '.' then low else low + "."
  {
    var low := ToLower(name);
    LowerAround(a, name, b);
    CloseIs(low);
  }

  lemma LowerAround(a: string, name: string, b: string)
    requires All(a, IsSpace) && All(b, IsSpace) && (name != "" ==> !IsSpace(name[0]) && !IsSpace(name[|name| - 1]))
    ensures TrimSpace(ToLower(a + name + b)) == ToLower(name)
  {
    LowerConcat(a, name);
    LowerConcat(a + name, b);
    LowerBlanks(a);
    LowerBlanks(b);
    if name != "" {
      LowerNotBlank(name[0]);
      LowerNotBlank(name[|name| - 1]);
    }
    TrimBetween(a, ToLower(name), b, IsSpace);
  }

  lemma LowerNotBlank(c: char)
    requires !IsSpace(c)
    ensures !IsSpace(LowerChar(c))
  {
  }

  lemma CloseIs(low: string)
    ensures Close(low) == if low == "" || low == "." then "" else if low[|low| - 1] == '.' then low else low + "."
  {
    if low != "" && low[|low| - 1] == '.' {
      assert low == low[..|low| - 1] + ".";
      DropDot(low[..|low| - 1]);
    } else if low != "" {
      assert low[|low| - 1..] == [low[|low| - 1]];
    }
  }

  /** A type name is known in any letter case and with any blanks around it. */
  lemma TypeIs(a: string, name: string, b: string, known: set<string>)
    requires All(a, IsSpace) && All(b, IsSpace) && (name != "" ==> !IsSpace(name[0]) && !IsSpace(name[|name| - 1]))
    ensures NormalizeType(a + name + b, known) == if ToUpper(name) in known then ToUpper(name) else ""
  {
    TrimBetween(a, name, b, IsSpace);
  }

  /** The normal names are the empty one and the closed ones. */
  lemma NormalizedIsClosed(value: string)
    ensures NormalizeFqdn(value) == "" || Closed(NormalizeFqdn(value))
  {
    var low := TrimSpace(ToLower(value));
    forall c | c in low ensures c in ToLower(value) {
      if c !in ToLower(value) {
        TrimHasNone(ToLower(value), IsSpace, c);
      }
    }
    LowerStays(value, low);
    if TrimSuffix(low, ".") != "" {
      CloseUp(low);
    }
  }

  lemma FqdnIdempotent(value: string)
    ensures NormalFqdn(NormalizeFqdn(value))
  {
    NormalizedIsClosed(value);
    if NormalizeFqdn(value) == "" {
      EmptyIsNormal();
    } else {
      ClosedIsNormal(NormalizeFqdn(value));
    }
  }

  lemma LowerStays(value: string, v: string)
    requires forall c :: c in v ==> c in ToLower(value)
    ensures forall i :: 0 <= i < |v| ==> LowerChar(v[i]) == v[i]
  {
    forall i | 0 <= i < |v| ensures LowerChar(v[i]) == v[i] {
      assert v[i] in ToLower(value);
    }
  }

  lemma TypeIdempotent(value: string, known: set<string>)
    ensures NormalType(NormalizeType(value, known), known)
  {
    var t := TrimSpace(value);
    var v := ToUpper(t);
    if v in known {
      assert ToUpper(v) == v;
      if v != "" {
        UpperNotSpace(t[0]);
        UpperNotSpace(t[|t| - 1]);
      }
      assert TrimSpace(v) == v;
    } else {
      assert ToUpper("") == "";
    }
  }

  lemma UpperNotSpace(c: char)
    requires !IsSpace(c)
    ensures !IsSpace(UpperChar(c))
  {
  }

  /** A cache key determines its normalised question. */
  lemma KeyInjective(f1: string, t1: string, f2: string, t2: string, known: set<string>)
    requires GoodTypes(known) && NormalType(t1, known) && NormalType(t2, known)
    ensures CacheKey(f1, t1) == CacheKey(f2, t2) <==> f1 == f2 && t1 == t2
  {
    if CacheKey(f1, t1) == CacheKey(f2, t2) {
      LastSeparator(f1, t1, f2, t2, '|');
    }
  }
}
