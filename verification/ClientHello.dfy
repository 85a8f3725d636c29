/** Reading the server name from a TLS ClientHello record, byte by byte.

    The encoding follows section 4.1.2 of RFC 8446 (ClientHello) and section 3 of RFC 6066 (server_name). */
module ClientHello {
  import opened Options

  type Byte = x: nat | x < 256

  datatype ParseError = InvalidFrame | NotClientHello | UnexpectedEOF | SniNotFound

  datatype Parsed = Name(name: seq<Byte>) | Error(error: ParseError)

  function Word(high: Byte, low: Byte): nat { high as int * 256 + low as int }

  function U16(frame: seq<Byte>, pos: nat): nat
    requires pos + 1 < |frame|
  {
    Word(frame[pos], frame[pos + 1])
  }

  // ---- The parser as functions of a position ----------------------------------------------------------

  /** The name list from `i`: a host name, an error, or nothing. */
  function ScanNames(frame: seq<Byte>, i: nat, listEnd: nat): Option<Parsed>
    decreases |frame| - i
  {
    if i + 3 > listEnd || i + 3 > |frame| then None
    else
      var start, size := i + 3, U16(frame, i + 1);
      if start + size > listEnd || start + size > |frame| then Some(Error(UnexpectedEOF))
      else if frame[i] == 0 then Some(Name(frame[start..start + size]))
      else ScanNames(frame, start + size, listEnd)
  }

  function ScanExtensions(frame: seq<Byte>, pos: nat, end: nat): Parsed
    requires end <= |frame|
    decreases end - pos
  {
    if pos + 4 > end then Error(SniNotFound)
    else
      var kind, size, data := U16(frame, pos), U16(frame, pos + 2), pos + 4;
      if data + size > end then Error(UnexpectedEOF)
      else if kind == 0 then
        if data + 2 > end then Error(UnexpectedEOF)
        else
          var names := ScanNames(frame, data + 2, data + 2 + U16(frame, data));
          if names.Some? then names.value else ScanExtensions(frame, data + size, end)
      else ScanExtensions(frame, data + size, end)
  }

  /** The whole record: fixed header, session id, cipher suites, compression methods, extensions. */
  function ServerName(frame: seq<Byte>): Parsed {
    if |frame| < 43 || frame[0] != 22 then Error(InvalidFrame)
    else if frame[5] != 1 then Error(NotClientHello)
    else if 43 >= |frame| then Error(UnexpectedEOF)
    else
      var ciphers := 44 + frame[43] as int;
      if ciphers + 2 > |frame| then Error(UnexpectedEOF)
      else
        var compression := ciphers + 2 + U16(frame, ciphers);
        if compression >= |frame| then Error(UnexpectedEOF)
        else
          var extensions := compression + 1 + frame[compression] as int;
          if extensions + 2 > |frame| then Error(UnexpectedEOF)
          else
            var pos := extensions + 2;
            var end := pos + U16(frame, extensions);
            if end > |frame| then Error(UnexpectedEOF) else ScanExtensions(frame, pos, end)
  }

  // ---- The parser as it runs ----------------------------------------------------------------------------

  /** The bytes `part` stand in the frame at `pos`. */
  predicate At(frame: seq<Byte>, pos: nat, part: seq<Byte>) {
    pos + |part| <= |frame| && frame[pos..pos + |part|] == part
  }

  /** The name stands at `p` in the frame behind a host_name header, within the name list of the server_name
      extension at `ext`; an extension lies within the frame, but its name list need not end within it. */
  ghost predicate Lies(frame: seq<Byte>, ext: nat, p: nat, name: seq<Byte>) {
    && ext + 6 <= |frame| && U16(frame, ext) == 0 && ext + 4 + U16(frame, ext + 2) <= |frame|
    && ListHas(frame, ext + 6, ext + 6 + U16(frame, ext + 4), p, name)
  }

  ghost predicate ListHas(frame: seq<Byte>, start: nat, end: nat, p: nat, name: seq<Byte>) {
    start + 3 <= p && p + |name| <= end && At(frame, p, name) && frame[p - 3] == 0 && U16(frame, p - 2) == |name|
  }

  /** Where the first host name of a list stands. */
  ghost function NamePosition(frame: seq<Byte>, i: nat, listEnd: nat): nat
    decreases |frame| - i
  {
    if i + 3 > listEnd || i + 3 > |frame| then 0
    else
      var next := i + 3 + U16(frame, i + 1);
      if next > listEnd || next > |frame| then 0
      else if frame[i] == 0 then i + 3 else NamePosition(frame, next, listEnd)
  }

  predicate IsName(r: Option<Parsed>) { r.Some? && r.value.Name? }

  lemma {:induction false} NameStands(frame: seq<Byte>, i: nat, listEnd: nat)
    requires IsName(ScanNames(frame, i, listEnd))
    ensures ListHas(frame, i, listEnd, NamePosition(frame, i, listEnd), ScanNames(frame, i, listEnd).value.name)
    decreases |frame| - i
  {
    if frame[i] != 0 {
      NameStands(frame, i + 3 + U16(frame, i + 1), listEnd);
    }
  }

  /** With another end of the list a name is found if and only if it ends there or before, and then it is this one. */
  lemma {:induction false} NameWithin(frame: seq<Byte>, i: nat, listEnd: nat, limit: nat)
    requires IsName(ScanNames(frame, i, listEnd))
    ensures var name := ScanNames(frame, i, listEnd).value.name;
            && (IsName(ScanNames(frame, i, limit)) <==> NamePosition(frame, i, listEnd) + |name| <= limit)
            && (IsName(ScanNames(frame, i, limit)) ==> ScanNames(frame, i, limit) == ScanNames(frame, i, listEnd))
    decreases |frame| - i
  {
    if frame[i] != 0 {
      var next := i + 3 + U16(frame, i + 1);
      NameStands(frame, next, listEnd);
      NameWithin(frame, next, listEnd, limit);
    }
  }

  /** The extension at `ext` ends where its size says. */
  function ExtensionEnd(frame: seq<Byte>, ext: nat): nat
    requires ext + 4 <= |frame|
  {
    ext + 4 + U16(frame, ext + 2)
  }

  lemma {:induction false} NameLies(frame: seq<Byte>, pos: nat, end: nat) returns (ext: nat, p: nat)
    requires end <= |frame| && ScanExtensions(frame, pos, end).Name?
    ensures pos <= ext && ext + 6 <= end && ExtensionEnd(frame, ext) <= end
    ensures var name := ScanExtensions(frame, pos, end).name;
            && Lies(frame, ext, p, name)
            && (p + |name| <= ExtensionEnd(frame, ext) <==> IsName(ScanNames(frame, ext + 6, ExtensionEnd(frame, ext))))
    decreases end - pos
  {
    if U16(frame, pos) == 0 && ScanNames(frame, pos + 6, pos + 6 + U16(frame, pos + 4)).Some? {
      ext, p := pos, NamePosition(frame, pos + 6, pos + 6 + U16(frame, pos + 4));
      NameStands(frame, pos + 6, pos + 6 + U16(frame, pos + 4));
      NameWithin(frame, pos + 6, pos + 6 + U16(frame, pos + 4), ExtensionEnd(frame, pos));
    } else {
      ext, p := NameLies(frame, ExtensionEnd(frame, pos), end);
    }
  }

  /** On every byte string: a parsed name stands behind its host_name header in the name list of a server_name
      extension. It lies within that extension if and only if the list, ended with the extension, still yields a
      name; and so whenever the list's length fits the extension's. */
  lemma ParsedNameLies(frame: seq<Byte>) returns (ext: nat, p: nat)
    requires ServerName(frame).Name?
    ensures var name := ServerName(frame).name;
            && Lies(frame, ext, p, name)
            && (p + |name| <= ExtensionEnd(frame, ext) <==> IsName(ScanNames(frame, ext + 6, ExtensionEnd(frame, ext))))
            && (U16(frame, ext + 4) + 2 <= U16(frame, ext + 2) ==> p + |name| <= ExtensionEnd(frame, ext))
  {
    var ciphers := 44 + frame[43] as int;
    var compression := ciphers + 2 + U16(frame, ciphers);
    var extensions := compression + 1 + frame[compression] as int;
    ext, p := NameLies(frame, extensions + 2, extensions + 2 + U16(frame, extensions));
  }

  // ---- What every outcome means, on every byte string ------------------------------------------------------

  /** The entry at `p` ends within the list and the frame. */
  predicate EntryFits(frame: seq<Byte>, p: nat, listEnd: nat) {
    p + 3 <= |frame| && p + 3 + U16(frame, p + 1) <= listEnd && p + 3 + U16(frame, p + 1) <= |frame|
  }

  /** Entries of other kinds that fit stand one after another from the first position to the last. */
  ghost predicate OtherNames(frame: seq<Byte>, listEnd: nat, ps: seq<nat>) {
    ps != [] && forall k :: 0 <= k < |ps| - 1 ==>
        EntryFits(frame, ps[k], listEnd) && frame[ps[k]] != 0 && ps[k + 1] == ps[k] + 3 + U16(frame, ps[k] + 1)
  }

  /** Behind all entries of other kinds stands a host name that fits and is returned, or an entry that does not fit and
      is an error, or not even the header of one. */
  lemma {:induction false} NamesOutcome(frame: seq<Byte>, i: nat, listEnd: nat) returns (ps: seq<nat>)
    ensures OtherNames(frame, listEnd, ps) && ps[0] == i
    ensures var q, r := ps[|ps| - 1], ScanNames(frame, i, listEnd);
            if q + 3 > listEnd || q + 3 > |frame| then r == None
            else if !EntryFits(frame, q, listEnd) then r == Some(Error(UnexpectedEOF))
            else frame[q] == 0 && r == Some(Name(frame[q + 3..q + 3 + U16(frame, q + 1)]))
    decreases |frame| - i
  {
    ps := [i];
    if i + 3 <= listEnd && EntryFits(frame, i, listEnd) && frame[i] != 0 {
      var rest := NamesOutcome(frame, i + 3 + U16(frame, i + 1), listEnd);
      ps := [i] + rest;
      OneMoreName(frame, listEnd, i, rest);
    }
  }

  lemma OneMoreName(frame: seq<Byte>, listEnd: nat, i: nat, rest: seq<nat>)
    requires EntryFits(frame, i, listEnd) && frame[i] != 0 && OtherNames(frame, listEnd, rest)
    requires rest[0] == i + 3 + U16(frame, i + 1)
    ensures OtherNames(frame, listEnd, [i] + rest)
  {
    var ps := [i] + rest;
    forall k | 0 <= k < |ps| - 1
      ensures EntryFits(frame, ps[k], listEnd) && frame[ps[k]] != 0 && ps[k + 1] == ps[k] + 3 + U16(frame, ps[k] + 1)
    {
      assert k > 0 ==> ps[k] == rest[k - 1] && ps[k + 1] == rest[k];
    }
  }

  /** The extension at `p` ends within the block. */
  predicate ExtensionFits(frame: seq<Byte>, p: nat, end: nat)
    requires end <= |frame|
  {
    p + 4 <= end && p + 4 + U16(frame, p + 2) <= end
  }

  /** The extension is of another kind, or a server_name list without a host name and without a broken entry. */
  predicate Passed(frame: seq<Byte>, p: nat, end: nat)
    requires end <= |frame|
  {
    && ExtensionFits(frame, p, end)
    && (U16(frame, p) == 0 ==> p + 6 <= end && ScanNames(frame, p + 6, p + 6 + U16(frame, p + 4)) == None)
  }

  ghost predicate OtherExtensions(frame: seq<Byte>, end: nat, ps: seq<nat>)
    requires end <= |frame|
  {
    ps != [] && forall k :: 0 <= k < |ps| - 1 ==>
        Passed(frame, ps[k], end) && ps[k + 1] == ps[k] + 4 + U16(frame, ps[k] + 2)
  }

  /** Behind all extensions passed over, the block ends and there is no name, or an extension does not fit and is an
      error, or a server_name list decides. */
  lemma {:induction false} ExtensionsOutcome(frame: seq<Byte>, pos: nat, end: nat) returns (ps: seq<nat>)
    requires end <= |frame|
    ensures OtherExtensions(frame, end, ps) && ps[0] == pos
    ensures var q, r := ps[|ps| - 1], ScanExtensions(frame, pos, end);
            if q + 4 > end then r == Error(SniNotFound)
            else if !ExtensionFits(frame, q, end) then r == Error(UnexpectedEOF)
            else
              && U16(frame, q) == 0
              && if q + 6 > end then r == Error(UnexpectedEOF)
                 else ScanNames(frame, q + 6, q + 6 + U16(frame, q + 4)) == Some(r)
    decreases end - pos
  {
    ps := [pos];
    if Passed(frame, pos, end) {
      var rest := ExtensionsOutcome(frame, pos + 4 + U16(frame, pos + 2), end);
      ps := [pos] + rest;
      OneMoreExtension(frame, end, pos, rest);
      PassedOver(frame, pos, end);
    } else {
      Decided(frame, pos, end);
    }
  }

  lemma OneMoreExtension(frame: seq<Byte>, end: nat, pos: nat, rest: seq<nat>)
    requires end <= |frame| && Passed(frame, pos, end) && OtherExtensions(frame, end, rest)
    requires rest[0] == pos + 4 + U16(frame, pos + 2)
    ensures OtherExtensions(frame, end, [pos] + rest)
  {
    var ps := [pos] + rest;
    forall k | 0 <= k < |ps| - 1 ensures Passed(frame, ps[k], end) && ps[k + 1] == ps[k] + 4 + U16(frame, ps[k] + 2) {
      assert k > 0 ==> ps[k] == rest[k - 1] && ps[k + 1] == rest[k];
    }
  }

  lemma PassedOver(frame: seq<Byte>, pos: nat, end: nat)
    requires end <= |frame| && Passed(frame, pos, end)
    ensures ScanExtensions(frame, pos, end) == ScanExtensions(frame, pos + 4 + U16(frame, pos + 2), end)
  {
  }

  lemma Decided(frame: seq<Byte>, q: nat, end: nat)
    requires end <= |frame| && !Passed(frame, q, end)
    ensures var r := ScanExtensions(frame, q, end);
            if q + 4 > end then r == Error(SniNotFound)
            else if !ExtensionFits(frame, q, end) then r == Error(UnexpectedEOF)
            else
              && U16(frame, q) == 0
              && if q + 6 > end then r == Error(UnexpectedEOF)
                 else ScanNames(frame, q + 6, q + 6 + U16(frame, q + 4)) == Some(r)
  {
  }

  /** From byte 43 on stand the session id, the cipher suites at `c`, the compression methods at `m` and the extension
      block at `x`, each behind its length, and all within the frame. */
  predicate Laid(frame: seq<Byte>, c: nat, m: nat, x: nat) {
    && |frame| > 43 && c == 44 + frame[43] as int && c + 2 <= |frame|
    && m == c + 2 + (frame[c] as int * 256 + frame[c + 1] as int) && m < |frame|
    && x == m + 1 + frame[m] as int && x + 2 <= |frame|
    && x + 2 + (frame[x] as int * 256 + frame[x + 1] as int) <= |frame|
  }

  predicate IsHello(frame: seq<Byte>) { |frame| >= 43 && frame[0] == 22 && frame[5] == 1 }

  /** A frame that is too short or no handshake record is invalid, and one that is no ClientHello is not read on. */
  lemma HeaderOutcome(frame: seq<Byte>)
    ensures ServerName(frame) == Error(InvalidFrame) <==> |frame| < 43 || frame[0] != 22
    ensures ServerName(frame) == Error(NotClientHello) <==> |frame| >= 43 && frame[0] == 22 && frame[5] != 1
  {
    if IsHello(frame) {
      if c: nat, m: nat, x: nat :| Laid(frame, c, m, x) {
        LaidOutcome(frame, c, m, x);
        NoHeaderError(frame, x + 2, x + 2 + U16(frame, x));
      } else {
        NotLaidOutcome(frame);
      }
    }
  }

  /** A ClientHello without room for its own lengths ends early. */
  lemma NotLaidOutcome(frame: seq<Byte>)
    requires IsHello(frame) && forall c: nat, m: nat, x: nat :: !Laid(frame, c, m, x)
    ensures ServerName(frame) == Error(UnexpectedEOF)
  {
    if |frame| > 43 {
      var c := 44 + frame[43] as int;
      if c + 2 <= |frame| {
        var m := c + 2 + U16(frame, c);
        if m < |frame| {
          assert !Laid(frame, c, m, m + 1 + frame[m] as int);
        }
      }
    }
  }

  /** Any other is decided by its extensions. */
  lemma LaidOutcome(frame: seq<Byte>, c: nat, m: nat, x: nat)
    requires IsHello(frame) && Laid(frame, c, m, x)
    ensures ServerName(frame)
         == ScanExtensions(frame, x + 2, x + 2 + (frame[x] as int * 256 + frame[x + 1] as int))
  {
    assert U16(frame, c) == frame[c] as int * 256 + frame[c + 1] as int;
    assert U16(frame, x) == frame[x] as int * 256 + frame[x + 1] as int;
    BlockScanned(frame, c, m, x, ScanExtensions(frame, x + 2, x + 2 + U16(frame, x)));
  }

  lemma BlockScanned(frame: seq<Byte>, c: nat, m: nat, x: nat, r: Parsed)
    requires IsHello(frame) && |frame| > 43 && c == 44 + frame[43] as int && c + 2 <= |frame|
    requires m == c + 2 + U16(frame, c) && m < |frame| && x == m + 1 + frame[m] as int && x + 2 <= |frame|
    requires x + 2 + U16(frame, x) <= |frame| && r == ScanExtensions(frame, x + 2, x + 2 + U16(frame, x))
    ensures ServerName(frame) == r
  {
  }

  lemma {:induction false} NoHeaderError(frame: seq<Byte>, pos: nat, end: nat)
    requires end <= |frame|
    ensures var r := ScanExtensions(frame, pos, end); r.Name? || r.error == UnexpectedEOF || r.error == SniNotFound
    decreases end - pos
  {
    if ExtensionFits(frame, pos, end) {
      NoHeaderError(frame, pos + 4 + U16(frame, pos + 2), end);
      if pos + 6 <= end {
        NoHeaderErrorIn(frame, pos + 6, pos + 6 + U16(frame, pos + 4));
      }
    }
  }

  lemma {:induction false} NoHeaderErrorIn(frame: seq<Byte>, i: nat, listEnd: nat)
    ensures var r := ScanNames(frame, i, listEnd); r.Some? && r.value.Error? ==> r.value.error == UnexpectedEOF
    decreases |frame| - i
  {
    if EntryFits(frame, i, listEnd) {
      NoHeaderErrorIn(frame, i + 3 + U16(frame, i + 1), listEnd);
    }
  }

  method ParseNames(frame: seq<Byte>, start: nat, listEnd: nat) returns (r: Option<Parsed>)
    ensures r == ScanNames(frame, start, listEnd)
  {
    var i := start;
    while i + 3 <= listEnd && i + 3 <= |frame|
      invariant ScanNames(frame, start, listEnd) == ScanNames(frame, i, listEnd)
      decreases |frame| - i
    {
      var nameType := frame[i];
      var nameLen := Word(frame[i + 1], frame[i + 2]);
      i := i + 3;
      if i + nameLen > listEnd || i + nameLen > |frame| {
        return Some(Error(UnexpectedEOF));
      }
      if nameType == 0 {
        return Some(Name(frame[i..i + nameLen]));
      }
      i := i + nameLen;
    }
    return None;
  }

  /** One extension: the outcome it decides, or nothing if it is passed over. */
  method ParseExtension(frame: seq<Byte>, pos: nat, end: nat) returns (r: Option<Parsed>)
    requires pos + 4 <= end <= |frame|
    ensures r.Some? ==> ScanExtensions(frame, pos, end) == r.value
    ensures r.None? ==>
              && pos + 4 + U16(frame, pos + 2) <= end
              && ScanExtensions(frame, pos, end) == ScanExtensions(frame, pos + 4 + U16(frame, pos + 2), end)
  {
    if Passed(frame, pos, end) {
      PassedOver(frame, pos, end);
    } else {
      Decided(frame, pos, end);
    }
    var extType := U16(frame, pos);
    var extSize := U16(frame, pos + 2);
    if pos + 4 + extSize > end {
      return Some(Error(UnexpectedEOF));
    }
    if extType != 0 {
      return None;
    }
    if pos + 6 > end {
      return Some(Error(UnexpectedEOF));
    }
    r := ParseNames(frame, pos + 6, pos + 6 + U16(frame, pos + 4));
  }

  method ParseExtensions(frame: seq<Byte>, start: nat, end: nat) returns (r: Parsed)
    requires end <= |frame|
    ensures r == ScanExtensions(frame, start, end)
  {
    var pos := start;
    while pos + 4 <= end
      invariant ScanExtensions(frame, start, end) == ScanExtensions(frame, pos, end)
      decreases end - pos
    {
      var decided := ParseExtension(frame, pos, end);
      if decided.Some? {
        return decided.value;
      }
      pos := pos + 4 + U16(frame, pos + 2);
    }
    return Error(SniNotFound);
  }

  /** On every byte string: ends, reads only inside the frame, and a returned name lies in a server_name list. */
  method ParseTLSClientHelloServerName(frame: seq<Byte>) returns (r: Parsed)
    ensures r == ServerName(frame)
    ensures r.Name? ==> exists ext, p :: Lies(frame, ext, p, r.name)
  {
    if |frame| < 43 || frame[0] != 22 {
      return Error(InvalidFrame);
    }
    var pos := 5;
    if frame[pos] != 1 {
      return Error(NotClientHello);
    }
    pos := pos + 4 + 2 + 32;
    if pos >= |frame| {
      return Error(UnexpectedEOF);
    }
    pos := pos + 1 + frame[pos] as int;
    if pos + 2 > |frame| {
      return Error(UnexpectedEOF);
    }
    pos := pos + 2 + Word(frame[pos], frame[pos + 1]);
    if pos >= |frame| {
      return Error(UnexpectedEOF);
    }
    pos := pos + 1 + frame[pos] as int;
    if pos + 2 > |frame| {
      return Error(UnexpectedEOF);
    }
    var end := pos + 2 + Word(frame[pos], frame[pos + 1]);
    if end > |frame| {
      return Error(UnexpectedEOF);
    }
    r := ParseExtensions(frame, pos + 2, end);
    if r.Name? {
      ghost var ext, p := ParsedNameLies(frame);
    }
  }

  // ---- Messages and their encoding ------------------------------------------------------------------------

  datatype NameEntry = NameEntry(kind: Byte, name: seq<Byte>)

  datatype Extension = ServerNames(entries: seq<NameEntry>) | Other(kind: nat, data: seq<Byte>)

  datatype Hello = Hello(version: seq<Byte>, random: seq<Byte>, sessionId: seq<Byte>, ciphers: seq<Byte>,
                         compression: seq<Byte>, extensions: Option<seq<Extension>>)

  /** The two bytes whose big-endian value is `n`. */
  ghost function Put16(n: nat): (r: seq<Byte>)
    requires n < 0x1_0000
    ensures |r| == 2 && U16(r, 0) == n
  {
    TwoBytes(n);
    var r: seq<Byte> :| |r| == 2 && U16(r, 0) == n;
    r
  }

  /** The high byte comes first. */
  lemma Put16Is(n: nat)
    requires n < 0x1_0000
    ensures Put16(n) == [n / 256, n % 256]
  {
    var r := Put16(n);
    assert r[0] as int * 256 + r[1] as int == n;
  }

  lemma TwoBytes(n: nat)
    requires n < 0x1_0000
    ensures exists r: seq<Byte> :: |r| == 2 && U16(r, 0) == n
  {
    var r: seq<Byte> := [n / 256, n % 256];
    assert U16(r, 0) == n;
  }

  predicate FitsEntry(e: NameEntry) { |e.name| < 0x1_0000 }

  ghost function EncodeEntry(e: NameEntry): seq<Byte>
    requires FitsEntry(e)
  {
    [e.kind] + Put16(|e.name|) + e.name
  }

  predicate FitsEntries(es: seq<NameEntry>) { forall i :: 0 <= i < |es| ==> FitsEntry(es[i]) }

  ghost function EncodeEntries(es: seq<NameEntry>): seq<Byte>
    requires FitsEntries(es)
  {
    if es == [] then [] else EncodeEntry(es[0]) + EncodeEntries(es[1..])
  }

  ghost predicate FitsExtension(x: Extension) {
    match x
    case ServerNames(es) => FitsEntries(es) && |EncodeEntries(es)| + 2 < 0x1_0000
    case Other(kind, data) => 0 < kind < 0x1_0000 && |data| < 0x1_0000
  }

  function KindOf(x: Extension): nat { if x.ServerNames? then 0 else x.kind }

  ghost function DataOf(x: Extension): (r: seq<Byte>)
    requires FitsExtension(x)
    ensures |r| < 0x1_0000
  {
    match x
    case ServerNames(es) => Put16(|EncodeEntries(es)|) + EncodeEntries(es)
    case Other(_, data) => data
  }

  ghost function EncodeExtension(x: Extension): seq<Byte>
    requires FitsExtension(x)
  {
    Put16(KindOf(x)) + Put16(|DataOf(x)|) + DataOf(x)
  }

  ghost predicate FitsExtensions(xs: seq<Extension>) { forall i :: 0 <= i < |xs| ==> FitsExtension(xs[i]) }

  ghost function EncodeExtensions(xs: seq<Extension>): seq<Byte>
    requires FitsExtensions(xs)
  {
    if xs == [] then [] else EncodeExtension(xs[0]) + EncodeExtensions(xs[1..])
  }

  /** The first host_name entry in extension order, then list order. */
  function FirstHostIn(es: seq<NameEntry>): Option<seq<Byte>> {
    if es == [] then None else if es[0].kind == 0 then Some(es[0].name) else FirstHostIn(es[1..])
  }

  function FirstHost(xs: seq<Extension>): Option<seq<Byte>> {
    if xs == [] then None
    else if xs[0].ServerNames? && FirstHostIn(xs[0].entries).Some? then FirstHostIn(xs[0].entries)
    else FirstHost(xs[1..])
  }

  ghost predicate Fits(h: Hello) {
    && |h.version| == 2 && |h.random| == 32 && |h.sessionId| < 256 && |h.ciphers| < 0x1_0000 && |h.compression| < 256
    && (h.extensions.Some? ==> FitsExtensions(h.extensions.value) && |EncodeExtensions(h.extensions.value)| < 0x1_0000)
  }

  ghost function ExtensionBlock(h: Hello): seq<Byte>
    requires Fits(h)
  {
    if h.extensions.None? then []
    else Put16(|EncodeExtensions(h.extensions.value)|) + EncodeExtensions(h.extensions.value)
  }

  ghost function AfterRandom(h: Hello): seq<Byte>
    requires Fits(h)
  {
    var last := [|h.compression|] + (h.compression + ExtensionBlock(h));
    [|h.sessionId|] + (h.sessionId + (Put16(|h.ciphers|) + (h.ciphers + last)))
  }

  /** A single record: `record` and `handshake` stand for the version and length bytes, which are not read. */
  ghost function Encode(h: Hello, record: seq<Byte>, handshake: seq<Byte>): seq<Byte>
    requires Fits(h) && |record| == 4 && |handshake| == 3
  {
    [22] + record + [1] + handshake + h.version + h.random + AfterRandom(h)
  }

  // ---- Round trip -----------------------------------------------------------------------------------------

  lemma AtConcat(frame: seq<Byte>, pos: nat, a: seq<Byte>, b: seq<Byte>)
    requires At(frame, pos, a + b)
    ensures At(frame, pos, a) && At(frame, pos + |a|, b)
  {
    var s := frame[pos..pos + |a + b|];
    assert s[..|a|] == a && s[|a|..] == b;
    assert frame[pos..pos + |a|] == s[..|a|];
    assert frame[pos + |a|..pos + |a| + |b|] == s[|a|..];
  }

  lemma At16(frame: seq<Byte>, pos: nat, n: nat)
    requires n < 0x1_0000 && At(frame, pos, Put16(n))
    ensures pos + 2 <= |frame| && U16(frame, pos) == n
  {
    var s := frame[pos..pos + 2];
    assert s[0] == frame[pos] && s[1] == frame[pos + 1];
  }

  /** The entries lie one after another from `i` to `end`. */
  ghost predicate EntriesLie(frame: seq<Byte>, i: nat, es: seq<NameEntry>, end: nat)
    decreases es
  {
    if es == [] then i == end
    else FitsEntry(es[0]) && At(frame, i, EncodeEntry(es[0])) && EntriesLie(frame, i + 3 + |es[0].name|, es[1..], end)
  }

  lemma {:induction false} EntriesAt(frame: seq<Byte>, i: nat, es: seq<NameEntry>)
    requires FitsEntries(es) && At(frame, i, EncodeEntries(es))
    ensures EntriesLie(frame, i, es, i + |EncodeEntries(es)|)
    decreases es
  {
    if es != [] {
      var first, rest := EncodeEntry(es[0]), EncodeEntries(es[1..]);
      AtConcat(frame, i, first, rest);
      EntriesAt(frame, i + |first|, es[1..]);
    }
  }

  lemma {:induction false} EntriesEnd(frame: seq<Byte>, i: nat, es: seq<NameEntry>, end: nat)
    requires i <= |frame| && EntriesLie(frame, i, es, end)
    ensures i <= end <= |frame|
    decreases es
  {
    if es != [] {
      EntriesEnd(frame, i + 3 + |es[0].name|, es[1..], end);
    }
  }

  /** Scanning encoded entries finds the first host name. */
  lemma {:induction false} ScanEntries(frame: seq<Byte>, i: nat, es: seq<NameEntry>, end: nat)
    requires i <= |frame| && EntriesLie(frame, i, es, end)
    ensures ScanNames(frame, i, end) == if FirstHostIn(es).Some? then Some(Name(FirstHostIn(es).value)) else None
    decreases es
  {
    if es != [] {
      var e := es[0];
      EntryAt(frame, i, e);
      EntriesEnd(frame, i + 3 + |e.name|, es[1..], end);
      ScanEntries(frame, i + 3 + |e.name|, es[1..], end);
    }
  }

  lemma NamesRoundTrip(frame: seq<Byte>, i: nat, es: seq<NameEntry>)
    requires FitsEntries(es) && At(frame, i, EncodeEntries(es))
    ensures ScanNames(frame, i, i + |EncodeEntries(es)|)
         == if FirstHostIn(es).Some? then Some(Name(FirstHostIn(es).value)) else None
  {
    EntriesAt(frame, i, es);
    ScanEntries(frame, i, es, i + |EncodeEntries(es)|);
  }

  lemma EntryAt(frame: seq<Byte>, i: nat, e: NameEntry)
    requires FitsEntry(e) && At(frame, i, EncodeEntry(e))
    ensures i + 3 <= |frame| && frame[i] == e.kind && U16(frame, i + 1) == |e.name| && At(frame, i + 3, e.name)
  {
    AtConcat(frame, i, [e.kind] + Put16(|e.name|), e.name);
    AtConcat(frame, i, [e.kind], Put16(|e.name|));
    At16(frame, i + 1, |e.name|);
    FirstByte(frame, i, e.kind);
  }

  lemma ExtensionAt(frame: seq<Byte>, pos: nat, x: Extension)
    requires FitsExtension(x) && At(frame, pos, EncodeExtension(x))
    ensures U16(frame, pos) == KindOf(x) && U16(frame, pos + 2) == |DataOf(x)| && At(frame, pos + 4, DataOf(x))
    ensures x.ServerNames? ==>
              U16(frame, pos + 4) == |EncodeEntries(x.entries)| && At(frame, pos + 6, EncodeEntries(x.entries))
  {
    AtConcat(frame, pos, Put16(KindOf(x)) + Put16(|DataOf(x)|), DataOf(x));
    AtConcat(frame, pos, Put16(KindOf(x)), Put16(|DataOf(x)|));
    At16(frame, pos, KindOf(x));
    At16(frame, pos + 2, |DataOf(x)|);
    if x.ServerNames? {
      ListAt(frame, pos + 4, x.entries);
    }
  }

  lemma ListAt(frame: seq<Byte>, pos: nat, es: seq<NameEntry>)
    requires FitsExtension(ServerNames(es)) && At(frame, pos, DataOf(ServerNames(es)))
    ensures U16(frame, pos) == |EncodeEntries(es)| && At(frame, pos + 2, EncodeEntries(es))
  {
    AtConcat(frame, pos, Put16(|EncodeEntries(es)|), EncodeEntries(es));
    At16(frame, pos, |EncodeEntries(es)|);
  }

  lemma ScanStep(frame: seq<Byte>, pos: nat, end: nat, size: nat)
    requires pos + 4 + size <= end <= |frame| && U16(frame, pos + 2) == size
    ensures U16(frame, pos) != 0 ==> ScanExtensions(frame, pos, end) == ScanExtensions(frame, pos + 4 + size, end)
    ensures U16(frame, pos) == 0 && size >= 2 ==>
              ScanExtensions(frame, pos, end) ==
              (var names := ScanNames(frame, pos + 6, pos + 6 + U16(frame, pos + 4));
               if names.Some? then names.value else ScanExtensions(frame, pos + 4 + size, end))
  {
  }

  /** Scanning one encoded extension: its first host name, or on to what follows it. */
  lemma OneExtension(frame: seq<Byte>, pos: nat, end: nat, x: Extension)
    requires FitsExtension(x) && At(frame, pos, EncodeExtension(x)) && pos + |EncodeExtension(x)| <= end <= |frame|
    ensures ScanExtensions(frame, pos, end) ==
            if x.ServerNames? && FirstHostIn(x.entries).Some? then Name(FirstHostIn(x.entries).value)
            else ScanExtensions(frame, pos + |EncodeExtension(x)|, end)
  {
    ExtensionAt(frame, pos, x);
    ScanStep(frame, pos, end, |DataOf(x)|);
    if x.ServerNames? {
      NamesRoundTrip(frame, pos + 6, x.entries);
    }
  }

  ghost predicate ExtensionsLie(frame: seq<Byte>, pos: nat, xs: seq<Extension>, end: nat)
    decreases xs
  {
    if xs == [] then pos == end
    else
      && FitsExtension(xs[0]) && At(frame, pos, EncodeExtension(xs[0]))
      && ExtensionsLie(frame, pos + |EncodeExtension(xs[0])|, xs[1..], end)
  }

  lemma {:induction false} ExtensionsAt(frame: seq<Byte>, pos: nat, xs: seq<Extension>)
    requires FitsExtensions(xs) && At(frame, pos, EncodeExtensions(xs))
    ensures ExtensionsLie(frame, pos, xs, pos + |EncodeExtensions(xs)|)
    decreases xs
  {
    if xs != [] {
      var first, rest := EncodeExtension(xs[0]), EncodeExtensions(xs[1..]);
      AtConcat(frame, pos, first, rest);
      ExtensionsAt(frame, pos + |first|, xs[1..]);
    }
  }

  lemma {:induction false} ExtensionsEnd(frame: seq<Byte>, pos: nat, xs: seq<Extension>, end: nat)
    requires pos <= |frame| && ExtensionsLie(frame, pos, xs, end)
    ensures pos <= end <= |frame|
    decreases xs
  {
    if xs != [] {
      ExtensionsEnd(frame, pos + |EncodeExtension(xs[0])|, xs[1..], end);
    }
  }

  lemma {:induction false} ScanLying(frame: seq<Byte>, pos: nat, xs: seq<Extension>, end: nat)
    requires pos <= end <= |frame| && ExtensionsLie(frame, pos, xs, end)
    ensures ScanExtensions(frame, pos, end)
             == if FirstHost(xs).Some? then Name(FirstHost(xs).value) else Error(SniNotFound)
    decreases xs
  {
    if xs != [] {
      var next := pos + |EncodeExtension(xs[0])|;
      ExtensionsEnd(frame, next, xs[1..], end);
      OneExtension(frame, pos, end, xs[0]);
      ScanLying(frame, next, xs[1..], end);
    }
  }

  lemma ExtensionsRoundTrip(frame: seq<Byte>, pos: nat, end: nat, xs: seq<Extension>)
    requires FitsExtensions(xs) && At(frame, pos, EncodeExtensions(xs)) && end == pos + |EncodeExtensions(xs)|
    ensures ScanExtensions(frame, pos, end)
             == if FirstHost(xs).Some? then Name(FirstHost(xs).value) else Error(SniNotFound)
  {
    ExtensionsAt(frame, pos, xs);
    ScanLying(frame, pos, xs, end);
  }

  lemma HeaderOf(h: Hello, record: seq<Byte>, handshake: seq<Byte>)
    requires Fits(h) && |record| == 4 && |handshake| == 3
    ensures var frame := Encode(h, record, handshake);
            && |frame| > 43 && frame[0] == 22 && frame[5] == 1
            && At(frame, 43, AfterRandom(h)) && |frame| == 43 + |AfterRandom(h)|
  {
    var frame := Encode(h, record, handshake);
    assert frame[43..] == AfterRandom(h);
  }

  lemma FirstByte(frame: seq<Byte>, pos: nat, b: Byte)
    requires At(frame, pos, [b])
    ensures frame[pos] == b
  {
    assert frame[pos..pos + 1][0] == frame[pos];
  }

  /** A byte-counted field followed by `rest`. */
  lemma ShortField(frame: seq<Byte>, pos: nat, field: seq<Byte>, rest: seq<Byte>)
    requires |field| < 256 && At(frame, pos, [|field|] + (field + rest))
    ensures pos < |frame| && frame[pos] == |field| && At(frame, pos + 1 + |field|, rest)
  {
    AtConcat(frame, pos, [|field|], field + rest);
    FirstByte(frame, pos, |field|);
    AtConcat(frame, pos + 1, field, rest);
  }

  /** A field counted by two bytes followed by `rest`. */
  lemma LongField(frame: seq<Byte>, pos: nat, field: seq<Byte>, rest: seq<Byte>)
    requires |field| < 0x1_0000 && At(frame, pos, Put16(|field|) + (field + rest))
    ensures pos + 2 <= |frame| && U16(frame, pos) == |field| && At(frame, pos + 2 + |field|, rest)
  {
    AtConcat(frame, pos, Put16(|field|), field + rest);
    At16(frame, pos, |field|);
    AtConcat(frame, pos + 2, field, rest);
  }

  /** A counted extension block at `x`. */
  function ScanBlock(frame: seq<Byte>, x: nat): Parsed
    requires x + 2 <= |frame|
  {
    var end := x + 2 + U16(frame, x);
    if end > |frame| then Error(UnexpectedEOF) else ScanExtensions(frame, x + 2, end)
  }

  /** The parser's walk over a record with these field sizes. */
  lemma WalkFields(frame: seq<Byte>, s: nat, c: nat, m: nat)
    requires |frame| > 43 && frame[0] == 22 && frame[5] == 1 && frame[43] == s
    requires 46 + s <= |frame| && U16(frame, 44 + s) == c
    requires 46 + s + c < |frame| && frame[46 + s + c] == m
    ensures var x := 47 + s + c + m;
            ServerName(frame) ==
            if x + 2 > |frame| then Error(UnexpectedEOF) else ScanBlock(frame, x)
  {
  }

  /** Every well-formed single-record ClientHello: the first host_name entry in extension order, "not found"
      exactly when there is none; a hello without an extension block reads as truncated. */
  lemma ServerNameOfEncoding(h: Hello, record: seq<Byte>, handshake: seq<Byte>)
    requires Fits(h) && |record| == 4 && |handshake| == 3
    ensures ServerName(Encode(h, record, handshake)) ==
            match h.extensions
            case None => Error(UnexpectedEOF)
            case Some(xs) => if FirstHost(xs).Some? then Name(FirstHost(xs).value) else Error(SniNotFound)
  {
    HeaderOf(h, record, handshake);
    ServerNameOfFrame(Encode(h, record, handshake), h);
  }

  lemma ServerNameOfFrame(frame: seq<Byte>, h: Hello)
    requires Fits(h) && |frame| > 43 && frame[0] == 22 && frame[5] == 1 && At(frame, 43, AfterRandom(h))
    requires |frame| == 43 + |AfterRandom(h)|
    ensures ServerName(frame) ==
            match h.extensions
            case None => Error(UnexpectedEOF)
            case Some(xs) => if FirstHost(xs).Some? then Name(FirstHost(xs).value) else Error(SniNotFound)
  {
    FieldsAt(frame, h);
    WalkFields(frame, |h.sessionId|, |h.ciphers|, |h.compression|);
    if h.extensions.Some? {
      BlockRoundTrip(frame, 47 + |h.sessionId| + |h.ciphers| + |h.compression|, h.extensions.value);
    }
  }

  lemma FieldsAt(frame: seq<Byte>, h: Hello)
    requires Fits(h) && At(frame, 43, AfterRandom(h)) && |frame| == 43 + |AfterRandom(h)|
    ensures var s, c, m := |h.sessionId|, |h.ciphers|, |h.compression|;
            && 43 < |frame| && frame[43] == s
            && 46 + s <= |frame| && U16(frame, 44 + s) == c
            && 46 + s + c < |frame| && frame[46 + s + c] == m
            && At(frame, 47 + s + c + m, ExtensionBlock(h)) && |frame| == 47 + s + c + m + |ExtensionBlock(h)|
  {
    ThreeFieldsAt(frame, h.sessionId, h.ciphers, h.compression, ExtensionBlock(h));
  }

  lemma ThreeFieldsAt(frame: seq<Byte>, sessionId: seq<Byte>, ciphers: seq<Byte>, compression: seq<Byte>,
                      block: seq<Byte>)
    requires |sessionId| < 256 && |ciphers| < 0x1_0000 && |compression| < 256
    requires var last := [|compression|] + (compression + block);
             At(frame, 43, [|sessionId|] + (sessionId + (Put16(|ciphers|) + (ciphers + last))))
    ensures var s, c, m := |sessionId|, |ciphers|, |compression|;
            && 43 < |frame| && frame[43] == s
            && 46 + s <= |frame| && U16(frame, 44 + s) == c
            && 46 + s + c < |frame| && frame[46 + s + c] == m
            && At(frame, 47 + s + c + m, block)
  {
    var last := [|compression|] + (compression + block);
    ShortField(frame, 43, sessionId, Put16(|ciphers|) + (ciphers + last));
    LongField(frame, 44 + |sessionId|, ciphers, last);
    ShortField(frame, 46 + |sessionId| + |ciphers|, compression, block);
  }

  lemma BlockRoundTrip(frame: seq<Byte>, pos: nat, xs: seq<Extension>)
    requires FitsExtensions(xs) && |EncodeExtensions(xs)| < 0x1_0000
    requires At(frame, pos, Put16(|EncodeExtensions(xs)|) + EncodeExtensions(xs))
    ensures pos + 2 <= |frame|
    ensures ScanBlock(frame, pos) == if FirstHost(xs).Some? then Name(FirstHost(xs).value) else Error(SniNotFound)
  {
    BlockParts(frame, pos, EncodeExtensions(xs));
    ExtensionsRoundTrip(frame, pos + 2, pos + 2 + |EncodeExtensions(xs)|, xs);
    BlockScan(frame, pos, |EncodeExtensions(xs)|,
              if FirstHost(xs).Some? then Name(FirstHost(xs).value) else Error(SniNotFound));
  }

  lemma BlockParts(frame: seq<Byte>, pos: nat, block: seq<Byte>)
    requires |block| < 0x1_0000 && At(frame, pos, Put16(|block|) + block)
    ensures pos + 2 + |block| <= |frame| && U16(frame, pos) == |block| && At(frame, pos + 2, block)
  {
    AtConcat(frame, pos, Put16(|block|), block);
    At16(frame, pos, |block|);
  }

  lemma BlockScan(frame: seq<Byte>, pos: nat, size: nat, r: Parsed)
    requires pos + 2 + size <= |frame| && U16(frame, pos) == size
    requires r == ScanExtensions(frame, pos + 2, pos + 2 + size)
    ensures ScanBlock(frame, pos) == r
  {
  }

  // ---- A name outside its extension -------------------------------------------------------------------------

  /** A record whose one extension says it is two bytes long and whose name list says it is four, followed by a name. */
  const Overlong: seq<Byte> :=
    seq(43, i => if i == 0 then 22 else if i == 5 then 1 else 0) + [0, 0, 0, 0, 0, 6, 0, 0, 0, 2, 0, 4, 0, 0, 1, 97]

  lemma OverlongBytes()
    ensures var f := Overlong;
            && |f| == 59 && f[0] == 22 && f[5] == 1 && f[43] == 0 && f[44] == 0 && f[45] == 0 && f[46] == 0
            && f[47] == 0 && f[48] == 6 && f[49] == 0 && f[50] == 0 && f[51] == 0 && f[52] == 2 && f[53] == 0
            && f[54] == 4
            && f[55] == 0 && f[56] == 0 && f[57] == 1 && f[58] == 97
  {
  }

  /** The parser returns that name, although it stands behind the last extension. */
  lemma OverlongNameIsReturned()
    ensures ServerName(Overlong) == Name([97]) && Lies(Overlong, 49, 58, [97]) && ExtensionEnd(Overlong, 49) == 55
  {
    OverlongBytes();
    OverlongScan(Overlong);
    WalkFields(Overlong, 0, 0, 0);
  }

  lemma OverlongScan(f: seq<Byte>)
    requires |f| == 59 && f[47] == 0 && f[48] == 6 && f[49] == 0 && f[50] == 0 && f[51] == 0 && f[52] == 2
    requires f[53] == 0 && f[54] == 4 && f[55] == 0 && f[56] == 0 && f[57] == 1 && f[58] == 97
    ensures ScanBlock(f, 47) == Name([97]) && Lies(f, 49, 58, [97]) && ExtensionEnd(f, 49) == 55
  {
    assert f[58..59] == [97];
    assert ScanNames(f, 55, 59) == Some(Name([97]));
    assert ScanExtensions(f, 49, 55) == Name([97]);
  }
}
