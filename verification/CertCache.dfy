/** Certificate loading through the cache, against what an uncached lookup on disk would return. */
module CertCache {
  import opened Options
  import opened Lru
  import opened CertPaths

  /** What a certificate directory holds: no complete pair, a pair that does not load, or a certificate. */
  datatype Dir = Missing | Broken | Holds(cert: Cert)

  type Disk = map<string, Dir>

  function Read(disk: Disk, dir: string): Dir {
    if dir in disk then disk[dir] else Missing
  }

  datatype Result = Loaded(cert: Cert) | LoadFailed | NotFound | NoHostname

  /** The first candidate whose directory holds a pair decides. */
  function LookupOnDisk(disk: Disk, candidates: seq<string>): Result {
    if candidates == [] then NotFound
    else
      match Read(disk, DirectoryName(candidates[0]))
      case Missing => LookupOnDisk(disk, candidates[1..])
      case Broken => LoadFailed
      case Holds(cert) => Loaded(cert)
  }

  function UncachedLoad(disk: Disk, hostname: string): Result {
    if Sanitize(hostname) == "" then NoHostname else LookupOnDisk(disk, Candidates(hostname))
  }

  /** Candidates without a pair are passed over; the first with one decides, whether it loads or not. */
  lemma {:induction false} FirstPairDecides(disk: Disk, candidates: seq<string>, n: nat)
    requires n <= |candidates|
    requires forall i :: 0 <= i < n ==> Read(disk, DirectoryName(candidates[i])) == Missing
    ensures n == |candidates| ==> LookupOnDisk(disk, candidates) == NotFound
    ensures n < |candidates| ==>
              match Read(disk, DirectoryName(candidates[n]))
              case Missing => true
              case Broken => LookupOnDisk(disk, candidates) == LoadFailed
              case Holds(cert) => LookupOnDisk(disk, candidates) == Loaded(cert)
  {
    if n > 0 {
      assert forall i :: 0 <= i < n - 1 ==> candidates[1..][i] == candidates[i + 1];
      FirstPairDecides(disk, candidates[1..], n - 1);
    }
  }

  /** The same walk, asking the cache before the disk and remembering what it loads. */
  function LookupCached(disk: Disk, items: seq<Entry>, capacity: nat, candidates: seq<string>): (Result, seq<Entry>)
    decreases |candidates|
  {
    if candidates == [] then (NotFound, items)
    else
      var c := candidates[0];
      match Find(items, c)
      case Some(cert) => (Loaded(cert), AfterGet(items, c))
      case None =>
        match Read(disk, DirectoryName(c))
        case Missing => LookupCached(disk, items, capacity, candidates[1..])
        case Broken => (LoadFailed, items)
        case Holds(cert) => (Loaded(cert), AfterAdd(items, capacity, c, cert))
  }

  function Load(disk: Disk, items: seq<Entry>, capacity: nat, hostname: string): (Result, seq<Entry>) {
    if Sanitize(hostname) == "" then (NoHostname, items) else LookupCached(disk, items, capacity, Candidates(hostname))
  }

  /** The walk without its last step: what it found on disk is still to be remembered. */
  function LookUp(disk: Disk, items: seq<Entry>, candidates: seq<string>): (Result, seq<Entry>, Option<Entry>)
    decreases |candidates|
  {
    if candidates == [] then (NotFound, items, None)
    else
      var c := candidates[0];
      match Find(items, c)
      case Some(cert) => (Loaded(cert), AfterGet(items, c), None)
      case None =>
        match Read(disk, DirectoryName(c))
        case Missing => LookUp(disk, items, candidates[1..])
        case Broken => (LoadFailed, items, None)
        case Holds(cert) => (Loaded(cert), items, Some(Entry(c, cert)))
  }

  function Remembered(items: seq<Entry>, capacity: nat, found: Option<Entry>): seq<Entry> {
    if found.Some? then AfterAdd(items, capacity, found.value.key, found.value.value) else items
  }

  /** A load is its two halves, one right after the other. */
  lemma {:induction false} TwoHalves(disk: Disk, items: seq<Entry>, capacity: nat, candidates: seq<string>)
    ensures var (r, after, found) := LookUp(disk, items, candidates);
            LookupCached(disk, items, capacity, candidates) == (r, Remembered(after, capacity, found))
    decreases |candidates|
  {
    if candidates != [] {
      TwoHalves(disk, items, capacity, candidates[1..]);
    }
  }

  /** Loading as the resolver runs it. */
  method LoadCertificate(disk: Disk, cache: CertLRU, hostname: string) returns (r: Result)
    requires cache.Valid()
    modifies cache
    ensures cache.Valid() && (r, cache.Items()) == Load(disk, old(cache.Items()), cache.capacity, hostname)
  {
    if Sanitize(hostname) == "" {
      return NoHostname;
    }
    var candidates := CertificateCandidates(hostname);
    r := LoadLoop(disk, cache, candidates);
  }

  method LoadLoop(disk: Disk, cache: CertLRU, candidates: seq<string>) returns (r: Result)
    requires cache.Valid()
    modifies cache
    ensures cache.Valid() && (r, cache.Items()) == LookupCached(disk, old(cache.Items()), cache.capacity, candidates)
  {
    for i := 0 to |candidates|
      invariant cache.Valid()
      invariant LookupCached(disk, old(cache.Items()), cache.capacity, candidates)
             == LookupCached(disk, cache.Items(), cache.capacity, candidates[i..])
    {
      assert candidates[i..][0] == candidates[i] && candidates[i..][1..] == candidates[i + 1..];
      var hit := cache.Get(candidates[i]);
      if hit.Some? {
        return Loaded(hit.value);
      }
      match Read(disk, DirectoryName(candidates[i]))
      case Missing =>
      case Broken => return LoadFailed;
      case Holds(cert) =>
        cache.Add(candidates[i], cert);
        return Loaded(cert);
    }
    return NotFound;
  }

  /** Delivering a batch of changed paths as the watcher does. */
  method InvalidateCacheForPaths(cache: CertLRU, root: string, paths: seq<string>)
    requires cache.Valid()
    modifies cache
    ensures cache.Valid() && cache.Items() == DropHosts(old(cache.Items()), HostsOf(root, paths))
  {
    var hosts := HostsOf(root, paths);
    InvalidateHosts(cache, hosts);
  }

  method InvalidateHosts(cache: CertLRU, hosts: seq<string>)
    requires cache.Valid()
    modifies cache
    ensures cache.Valid() && cache.Items() == DropHosts(old(cache.Items()), hosts)
  {
    for i := 0 to |hosts|
      invariant cache.Valid() && cache.Items() == DropHosts(old(cache.Items()), hosts[..i])
    {
      assert hosts[..i + 1][..i] == hosts[..i];
      if hosts[i] == "" {
        continue;
      }
      cache.Delete(hosts[i]);
    }
    assert hosts[..|hosts|] == hosts;
  }

  // ---- Runs -------------------------------------------------------------------------------------------------

  /** A certificate a load has read from disk and not yet remembered. `overtaken` notes that an invalidation of its host
      has been delivered since. */
  datatype Reading = Reading(entry: Entry, overtaken: bool)

  /** `pending` holds the paths of changes whose invalidation has not been delivered yet, `late` the hosts whose entry
      was remembered after such an overtaking. */
  datatype State = State(root: string, capacity: nat, disk: Disk, items: seq<Entry>, pending: set<string>,
                         readings: seq<Reading>, late: set<string>)

  datatype Step =
    | Change(dir: string, tail: string, content: Dir)
    | Invalidate(paths: seq<string>)
    | StartLoad(hostname: string)
    | Remember(which: nat)
    | Forget(hostname: string)
    | ForgetAll

  function DropHosts(items: seq<Entry>, hosts: seq<string>): seq<Entry> {
    if hosts == [] then items
    else
      var rest := DropHosts(items, hosts[..|hosts| - 1]);
      if hosts[|hosts| - 1] == "" then rest else Without(rest, hosts[|hosts| - 1])
  }

  function HostsOf(root: string, paths: seq<string>): (r: seq<string>)
    ensures |r| == |paths|
  {
    seq(|paths|, i requires 0 <= i < |paths| => HostnameFromPath(root, paths[i]))
  }

  function Overtake(readings: seq<Reading>, hosts: seq<string>): (r: seq<Reading>)
    ensures |r| == |readings|
  {
    seq(|readings|, i requires 0 <= i < |readings| =>
      readings[i].(overtaken := readings[i].overtaken || readings[i].entry.key in hosts))
  }

  function Started(s: State, hostname: string): (Result, seq<Entry>, Option<Entry>) {
    if Sanitize(hostname) == "" then (NoHostname, s.items, None) else LookUp(s.disk, s.items, Candidates(hostname))
  }

  /** Loads are cut in two: other steps come between reading a certificate and remembering it. */
  function Next(s: State, step: Step): State {
    match step
    case Change(dir, tail, content) =>
      if !PathTail(tail) then s
      else s.(disk := s.disk[dir := content], pending := s.pending + {Below(s.root, dir, tail)})
    case Invalidate(paths) =>
      var hosts := HostsOf(s.root, paths);
      s.(items := DropHosts(s.items, hosts), pending := s.pending - set i | 0 <= i < |paths| :: paths[i],
         readings := Overtake(s.readings, hosts), late := s.late - set i | 0 <= i < |hosts| :: hosts[i])
    case StartLoad(hostname) =>
      var (_, items, found) := Started(s, hostname);
      s.(items := items, readings := if found.Some? then s.readings + [Reading(found.value, false)] else s.readings)
    case Remember(i) =>
      if i >= |s.readings| then s
      else
        var r := s.readings[i];
        s.(items := AfterAdd(s.items, s.capacity, r.entry.key, r.entry.value),
           readings := s.readings[..i] + s.readings[i + 1..],
           late := if r.overtaken then s.late + {r.entry.key} else s.late - {r.entry.key})
    case Forget(hostname) => s.(items := Without(s.items, hostname), late := s.late - {hostname})
    case ForgetAll => s.(items := [], late := {})
  }

  function Run(root: string, capacity: nat, disk: Disk, steps: seq<Step>): State {
    if steps == [] then State(root, capacity, disk, [], {}, [], {})
    else Next(Run(root, capacity, disk, steps[..|steps| - 1]), steps[|steps| - 1])
  }

  /** A change at or below the host's directory is still waiting to be delivered. */
  ghost predicate Stale(s: State, host: string) {
    exists tail :: PathTail(tail) && Below(s.root, DirectoryName(host), tail) in s.pending
  }

  /** A cached certificate is what its directory holds, or its invalidation is pending. */
  ghost predicate EntryOk(s: State, e: Entry) {
    Sanitized(e.key) && (Stale(s, e.key) || Read(s.disk, DirectoryName(e.key)) == Holds(e.value))
  }

  ghost predicate ReadingOk(s: State, r: Reading) { Sanitized(r.entry.key) && (r.overtaken || EntryOk(s, r.entry)) }

  ghost predicate CachedOk(s: State, e: Entry) { Sanitized(e.key) && (e.key in s.late || EntryOk(s, e)) }

  ghost predicate Coherent(s: State) {
    && (forall e :: e in s.items ==> CachedOk(s, e))
    && (forall r :: r in s.readings ==> ReadingOk(s, r))
  }

  // ---- Transparency -----------------------------------------------------------------------------------------

  lemma GetKeeps(items: seq<Entry>, k: string, e: Entry)
    requires e in AfterGet(items, k)
    ensures e in items
  {
    FindIs(items, k);
    if Find(items, k).Some? {
      WithoutHas(items, k, e);
    }
  }

  lemma AddKeeps(items: seq<Entry>, capacity: nat, k: string, v: Cert, e: Entry)
    requires e in AfterAdd(items, capacity, k, v)
    ensures e == Entry(k, v) || (e in items && e.key != k)
  {
    WithoutHas(items, k, e);
    FindIs(items, k);
  }

  /** A lookup leaves nothing in the cache but what was there. */
  lemma {:induction false} LookUpKeeps(disk: Disk, items: seq<Entry>, candidates: seq<string>, e: Entry)
    requires e in LookUp(disk, items, candidates).1
    ensures e in items
    decreases |candidates|
  {
    if candidates != [] {
      if Find(items, candidates[0]).Some? {
        GetKeeps(items, candidates[0], e);
      } else if Read(disk, DirectoryName(candidates[0])).Missing? {
        LookUpKeeps(disk, items, candidates[1..], e);
      }
    }
  }

  /** It finds only what is on disk. */
  lemma {:induction false} LookUpFinds(disk: Disk, items: seq<Entry>, candidates: seq<string>)
    requires LookUp(disk, items, candidates).2.Some?
    ensures var e := LookUp(disk, items, candidates).2.value;
            e.key in candidates && Read(disk, DirectoryName(e.key)) == Holds(e.value)
    decreases |candidates|
  {
    if Read(disk, DirectoryName(candidates[0])).Missing? {
      LookUpFinds(disk, items, candidates[1..]);
    }
  }

  lemma StartCoherent(s: State, hostname: string)
    requires Coherent(s)
    ensures Coherent(Next(s, StartLoad(hostname)))
  {
    var t := Next(s, StartLoad(hostname));
    var (_, items, found) := Started(s, hostname);
    StartedFacts(s, hostname);
    forall r | r in t.readings ensures r in s.readings || OnDisk(t, r.entry) {
      assert r in s.readings || (found.Some? && r.entry == found.value);
    }
    SameCoherent(s, t);
  }

  lemma StartedFacts(s: State, hostname: string)
    ensures var (_, items, found) := Started(s, hostname);
            (forall e :: e in items ==> e in s.items) && (found.Some? ==> OnDisk(s, found.value))
  {
    var (_, items, found) := Started(s, hostname);
    if Sanitize(hostname) != "" {
      forall e | e in items ensures e in s.items {
        LookUpKeeps(s.disk, s.items, Candidates(hostname), e);
      }
      if found.Some? {
        LookUpFinds(s.disk, s.items, Candidates(hostname));
        CandidatesSanitized(hostname, found.value.key);
      }
    }
  }

  /** Entries and readings that were there before, or are on disk. */
  lemma SameCoherent(s: State, t: State)
    requires Coherent(s) && t.disk == s.disk && t.root == s.root && s.pending <= t.pending && t.late == s.late
    requires forall e :: e in t.items ==> e in s.items
    requires forall r :: r in t.readings ==> r in s.readings || OnDisk(t, r.entry)
    ensures Coherent(t)
  {
    forall e | e in t.items ensures CachedOk(t, e) {
      if EntryOk(s, e) {
        SameOk(s, t, e);
      }
    }
    forall r | r in t.readings ensures ReadingOk(t, r) {
      if r in s.readings && !r.overtaken {
        SameOk(s, t, r.entry);
      }
    }
  }

  predicate OnDisk(s: State, e: Entry) { Sanitized(e.key) && Read(s.disk, DirectoryName(e.key)) == Holds(e.value) }

  lemma RememberCoherent(s: State, i: nat)
    requires Coherent(s) && i < |s.readings|
    ensures Coherent(Next(s, Remember(i)))
  {
    var t, r := Next(s, Remember(i)), s.readings[i];
    assert ReadingOk(s, r);
    forall e | e in t.items ensures CachedOk(t, e) {
      AddKeeps(s.items, s.capacity, r.entry.key, r.entry.value, e);
      if EntryOk(s, e) {
        SameOk(s, t, e);
      }
    }
    forall x | x in t.readings ensures ReadingOk(t, x) {
      assert x in s.readings;
      if !x.overtaken {
        SameOk(s, t, x.entry);
      }
    }
  }

  lemma SameOk(s: State, t: State, e: Entry)
    requires EntryOk(s, e) && t.disk == s.disk && t.root == s.root && s.pending <= t.pending
    ensures EntryOk(t, e)
  {
    if Stale(s, e.key) {
      var tail :| PathTail(tail) && Below(s.root, DirectoryName(e.key), tail) in s.pending;
      assert Below(t.root, DirectoryName(e.key), tail) in t.pending;
    }
  }

  lemma ChangeOk(s: State, dir: string, tail: string, content: Dir, e: Entry)
    requires EntryOk(s, e) && PathTail(tail)
    ensures EntryOk(Next(s, Change(dir, tail, content)), e)
  {
    var t := Next(s, Change(dir, tail, content));
    if DirectoryName(e.key) == dir {
      assert Below(t.root, dir, tail) in t.pending;
    } else if Stale(s, e.key) {
      var x :| PathTail(x) && Below(s.root, DirectoryName(e.key), x) in s.pending;
      assert Below(t.root, DirectoryName(e.key), x) in t.pending;
    }
  }

  lemma ChangeCoherent(s: State, dir: string, tail: string, content: Dir)
    requires Coherent(s) && PathTail(tail)
    ensures Coherent(Next(s, Change(dir, tail, content)))
  {
    var t := Next(s, Change(dir, tail, content));
    forall e | e in t.items ensures CachedOk(t, e) {
      if EntryOk(s, e) {
        ChangeOk(s, dir, tail, content, e);
      }
    }
    forall r | r in t.readings ensures ReadingOk(t, r) {
      if !r.overtaken {
        ChangeOk(s, dir, tail, content, r.entry);
      }
    }
  }

  lemma {:induction false} DropHostsKeeps(items: seq<Entry>, hosts: seq<string>, e: Entry)
    requires e in DropHosts(items, hosts)
    ensures e in items && forall i :: 0 <= i < |hosts| ==> hosts[i] == "" || hosts[i] != e.key
  {
    if hosts != [] {
      var n := |hosts| - 1;
      WithoutHas(DropHosts(items, hosts[..n]), hosts[n], e);
      DropHostsKeeps(items, hosts[..n], e);
    }
  }

  /** Delivering an invalidation drops the very host it is about. */
  lemma InvalidateCoherent(s: State, paths: seq<string>)
    requires Coherent(s)
    ensures Coherent(Next(s, Invalidate(paths)))
  {
    var t := Next(s, Invalidate(paths));
    forall e | e in t.items ensures CachedOk(t, e) {
      InvalidateKeepsEntry(s, paths, e);
    }
    forall r | r in t.readings ensures ReadingOk(t, r) {
      var i :| 0 <= i < |t.readings| && t.readings[i] == r;
      InvalidateKeepsReading(s, paths, i);
    }
  }

  lemma InvalidateKeepsEntry(s: State, paths: seq<string>, e: Entry)
    requires (forall x :: x in s.items ==> CachedOk(s, x)) && e in Next(s, Invalidate(paths)).items
    ensures CachedOk(Next(s, Invalidate(paths)), e)
  {
    DropHostsKeeps(s.items, HostsOf(s.root, paths), e);
    SanitizedShape(e.key);
    if EntryOk(s, e) {
      NotInvalidated(s, paths, e);
    }
  }

  lemma InvalidateKeepsReading(s: State, paths: seq<string>, i: nat)
    requires i < |s.readings| && ReadingOk(s, s.readings[i])
    ensures ReadingOk(Next(s, Invalidate(paths)), Next(s, Invalidate(paths)).readings[i])
  {
    if !Next(s, Invalidate(paths)).readings[i].overtaken {
      NotInvalidated(s, paths, s.readings[i].entry);
    }
  }

  lemma NotInvalidated(s: State, paths: seq<string>, e: Entry)
    requires EntryOk(s, e)
    requires forall i :: 0 <= i < |paths| ==> HostsOf(s.root, paths)[i] == "" || HostsOf(s.root, paths)[i] != e.key
    ensures EntryOk(Next(s, Invalidate(paths)), e)
  {
    if Stale(s, e.key) {
      var tail :| PathTail(tail) && Below(s.root, DirectoryName(e.key), tail) in s.pending;
      StillPending(s, paths, e, tail);
    }
  }

  lemma StillPending(s: State, paths: seq<string>, e: Entry, tail: string)
    requires Sanitized(e.key) && PathTail(tail) && Below(s.root, DirectoryName(e.key), tail) in s.pending
    requires forall i :: 0 <= i < |paths| ==> HostsOf(s.root, paths)[i] == "" || HostsOf(s.root, paths)[i] != e.key
    ensures Stale(Next(s, Invalidate(paths)), e.key)
  {
    var path := Below(s.root, DirectoryName(e.key), tail);
    PathInvertsDirectory(s.root, e.key, tail);
    SanitizedShape(e.key);
    forall i | 0 <= i < |paths| ensures paths[i] != path {
      assert HostsOf(s.root, paths)[i] == HostnameFromPath(s.root, paths[i]);
    }
    assert path in Next(s, Invalidate(paths)).pending;
  }

  lemma {:induction false} RunCoherent(root: string, capacity: nat, disk: Disk, steps: seq<Step>)
    ensures Coherent(Run(root, capacity, disk, steps))
  {
    if steps != [] {
      var s, step := Run(root, capacity, disk, steps[..|steps| - 1]), steps[|steps| - 1];
      RunCoherent(root, capacity, disk, steps[..|steps| - 1]);
      match step
      case Change(dir, tail, content) => if PathTail(tail) { ChangeCoherent(s, dir, tail, content); }
      case Invalidate(paths) => InvalidateCoherent(s, paths);
      case StartLoad(hostname) => StartCoherent(s, hostname);
      case Remember(i) => if i < |s.readings| { RememberCoherent(s, i); }
      case Forget(hostname) => ForgetCoherent(s, hostname);
      case ForgetAll => ForgetAllCoherent(s);
    }
  }

  lemma ForgetCoherent(s: State, hostname: string)
    requires Coherent(s)
    ensures Coherent(Next(s, Forget(hostname)))
  {
    var t := Next(s, Forget(hostname));
    forall e | e in t.items ensures CachedOk(t, e) {
      WithoutHas(s.items, hostname, e);
      if EntryOk(s, e) {
        SameOk(s, t, e);
      }
    }
    forall r | r in t.readings ensures ReadingOk(t, r) {
      if !r.overtaken {
        SameOk(s, t, r.entry);
      }
    }
  }

  lemma ForgetAllCoherent(s: State)
    requires Coherent(s)
    ensures Coherent(Next(s, ForgetAll))
  {
    var t := Next(s, ForgetAll);
    forall r | r in t.readings ensures ReadingOk(t, r) {
      if !r.overtaken {
        SameOk(s, t, r.entry);
      }
    }
  }

  /** The host has no undelivered change, and no entry from an overtaken load. */
  ghost predicate UpToDate(s: State, host: string) {
    !Stale(s, host) && (Find(s.items, host).Some? ==> host !in s.late)
  }

  lemma {:induction false} CachedEqualsDisk(s: State, candidates: seq<string>)
    requires Coherent(s) && forall c :: c in candidates ==> UpToDate(s, c)
    ensures LookupCached(s.disk, s.items, s.capacity, candidates).0 == LookupOnDisk(s.disk, candidates)
    decreases |candidates|
  {
    if candidates != [] {
      var c := candidates[0];
      FindIs(s.items, c);
      if Find(s.items, c).Some? {
        assert UpToDate(s, c) && EntryOk(s, Entry(c, Find(s.items, c).value));
      } else if Read(s.disk, DirectoryName(c)).Missing? {
        CachedEqualsDisk(s, candidates[1..]);
      }
    }
  }

  /** Every run of changes, loads in two halves, evictions and invalidations: a load none of whose candidates has an
      undelivered change or an entry from an overtaken load returns exactly what an uncached lookup on disk would. */
  lemma LoadIsTransparent(root: string, capacity: nat, disk: Disk, steps: seq<Step>, hostname: string)
    requires var s := Run(root, capacity, disk, steps); forall c :: c in Candidates(hostname) ==> UpToDate(s, c)
    ensures var s := Run(root, capacity, disk, steps);
            Load(s.disk, s.items, s.capacity, hostname).0 == UncachedLoad(s.disk, hostname)
  {
    RunCoherent(root, capacity, disk, steps);
    if Sanitize(hostname) != "" {
      CachedEqualsDisk(Run(root, capacity, disk, steps), Candidates(hostname));
    }
  }

  // ---- Overtaken loads --------------------------------------------------------------------------------------

  ghost predicate Clean(s: State) { forall e :: e in s.items ==> EntryOk(s, e) }

  /** Remembering what a load has read leaves no wrong entry if and only if its directory still holds it, or a change of
      the directory has not been delivered yet. */
  lemma RememberIff(s: State, i: nat)
    requires Clean(s) && i < |s.readings| && s.capacity > 0 && Sanitized(s.readings[i].entry.key)
    ensures var host := s.readings[i].entry.key;
            Clean(Next(s, Remember(i))) <==>
            Read(s.disk, DirectoryName(host)) == Holds(s.readings[i].entry.value) || Stale(s, host)
  {
    var t, e := Next(s, Remember(i)), s.readings[i].entry;
    assert t.items[0] == e;
    forall x | x in t.items && x != e ensures EntryOk(t, x) {
      AddKeeps(s.items, s.capacity, e.key, e.value, x);
      SameOk(s, t, x);
    }
    if EntryOk(s, e) {
      SameOk(s, t, e);
    }
    if EntryOk(t, e) {
      SameOk(t, s, e);
    }
  }

  /** A load reads the certificate, the directory changes, its invalidation is delivered, and then the load remembers
      what it read. */
  function OvertakenLoad(root: string, h: string, new': Cert): seq<Step> {
    var dir := DirectoryName(h);
    [StartLoad(h), Change(dir, "", Holds(new')), Invalidate([Below(root, dir, "")]), Remember(0)]
  }

  lemma FirstCandidate(h: string)
    requires Sanitized(h)
    ensures Sanitize(h) == h && h != "" && Candidates(h) != [] && Candidates(h)[0] == h
  {
    SanitizeFixed(h);
    SanitizedShape(h);
  }

  /** Afterwards nothing is pending, and every load of the host still returns the old certificate. */
  lemma OvertakenLoadGoesStale(root: string, capacity: nat, h: string, old': Cert, new': Cert)
    requires Sanitized(h) && capacity > 0
    ensures var s := Run(root, capacity, map[DirectoryName(h) := Holds(old')], OvertakenLoad(root, h, new'));
            && s.pending == {} && Load(s.disk, s.items, s.capacity, h).0 == Loaded(old')
            && UncachedLoad(s.disk, h) == Loaded(new')
  {
    var s := OvertakenRun(root, capacity, h, old', new', OvertakenLoad(root, h, new'));
    LoadsDiffer(s, h, old', new');
  }

  lemma OvertakenRun(root: string, capacity: nat, h: string, old': Cert, new': Cert, all: seq<Step>) returns (s: State)
    requires Sanitized(h) && capacity > 0 && |all| == 4
    requires all[0] == StartLoad(h) && all[1] == Change(DirectoryName(h), "", Holds(new'))
    requires all[2] == Invalidate([Below(root, DirectoryName(h), "")]) && all[3] == Remember(0)
    ensures s == Run(root, capacity, map[DirectoryName(h) := Holds(old')], all)
    ensures s.pending == {} && s.items == [Entry(h, old')] && Read(s.disk, DirectoryName(h)) == Holds(new')
  {
    FourSteps(root, capacity, map[DirectoryName(h) := Holds(old')], all);
    var s2 := OvertakenRead(root, capacity, h, old', new', all[0], all[1]);
    s := OvertakenEnd(s2, h, old', all[2], all[3]);
  }

  lemma FourSteps(root: string, capacity: nat, disk: Disk, all: seq<Step>)
    requires |all| == 4
    ensures Run(root, capacity, disk, all)
         == Then(Then(Run(root, capacity, disk, []), all[0], all[1]), all[2], all[3])
  {
    TwoSteps(root, capacity, disk, [], all[0], all[1]);
    TwoSteps(root, capacity, disk, all[..2], all[2], all[3]);
    assert [] + [all[0], all[1]] == all[..2] && all[..2] + [all[2], all[3]] == all;
  }

  function Then(s: State, a: Step, b: Step): State { Next(Next(s, a), b) }

  lemma OvertakenEnd(s: State, h: string, cert: Cert, a: Step, b: Step) returns (t: State)
    requires s.capacity > 0 && s.items == [] && |s.readings| == 1 && s.readings[0].entry == Entry(h, cert)
    requires s.pending == {Below(s.root, DirectoryName(h), "")}
    requires a == Invalidate([Below(s.root, DirectoryName(h), "")]) && b == Remember(0)
    ensures t == Then(s, a, b) && t.pending == {} && t.items == [Entry(h, cert)] && t.disk == s.disk
  {
    InvalidateOne(s, [Below(s.root, DirectoryName(h), "")]);
    RememberOnly(Next(s, a), Entry(h, cert));
    t := Then(s, a, b);
  }

  lemma OvertakenRead(root: string, capacity: nat, h: string, old': Cert, new': Cert, a: Step, b: Step)
    returns (s: State)
    requires Sanitized(h) && a == StartLoad(h) && b == Change(DirectoryName(h), "", Holds(new'))
    ensures s == Then(Run(root, capacity, map[DirectoryName(h) := Holds(old')], []), a, b)
    ensures s.root == root && s.capacity == capacity && s.items == [] && |s.readings| == 1
    ensures s.readings[0].entry == Entry(h, old') && s.pending == {Below(root, DirectoryName(h), "")}
    ensures Read(s.disk, DirectoryName(h)) == Holds(new')
  {
    var s0 := Run(root, capacity, map[DirectoryName(h) := Holds(old')], []);
    StartReads(s0, h, old');
    s := Then(s0, a, b);
  }

  lemma TwoSteps(root: string, capacity: nat, disk: Disk, init: seq<Step>, a: Step, b: Step)
    ensures Run(root, capacity, disk, init + [a, b]) == Then(Run(root, capacity, disk, init), a, b)
  {
    var all := init + [a, b];
    assert all[..|all| - 1] == init + [a] && (init + [a])[..|init|] == init;
  }

  lemma StartReads(s: State, h: string, cert: Cert)
    requires Sanitized(h) && s.items == [] && Read(s.disk, DirectoryName(h)) == Holds(cert)
    ensures Next(s, StartLoad(h)) == s.(readings := s.readings + [Reading(Entry(h, cert), false)])
  {
    FirstCandidate(h);
  }

  lemma InvalidateOne(s: State, paths: seq<string>)
    requires s.items == [] && |paths| == 1 && s.pending == {paths[0]} && |s.readings| == 1
    ensures var t := Next(s, Invalidate(paths));
            && t == s.(items := [], pending := {}, readings := t.readings, late := t.late)
            && |t.readings| == 1 && t.readings[0].entry == s.readings[0].entry
  {
    var hosts := HostsOf(s.root, paths);
    assert hosts[..0] == [] && DropHosts(s.items, hosts[..0]) == [];
    assert paths[0] in set i | 0 <= i < |paths| :: paths[i];
  }

  lemma RememberOnly(s: State, e: Entry)
    requires s.items == [] && s.capacity > 0 && |s.readings| == 1 && s.readings[0].entry == e
    ensures var t := Next(s, Remember(0)); t.items == [e] && t.disk == s.disk && t.pending == s.pending
  {
  }

  lemma LoadsDiffer(s: State, h: string, cached: Cert, stored: Cert)
    requires Sanitized(h) && s.items == [Entry(h, cached)] && Read(s.disk, DirectoryName(h)) == Holds(stored)
    ensures Load(s.disk, s.items, s.capacity, h).0 == Loaded(cached) && UncachedLoad(s.disk, h) == Loaded(stored)
  {
    FirstCandidate(h);
  }
}
