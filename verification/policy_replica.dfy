/**
 A replica: the synced folder brings manifest and wasms in any order and state, each sync installs what the manifest
 names, repairs the routers' region and answers the notices it satisfies.
 */
module PolicyReplica {
  import opened Basics
  import opened PolicyPublish
  import W = WasmExports

  const MAX_WASM := 4 * 1024 * 1024
  const NOTICE_TTL := 300_000

  // ---- the routers' region ----

  datatype Status = RegionOk | RegionError
  datatype Region = Region(version: nat, hash: Hash, status: Status, entrypoint: string)

  /** What a write leaves in the region: a wasm that does not fit leaves none, and an error. */
  function WritePolicy(version: nat, wasm: Option<Bytes>, entrypoint: string): Region {
    match wasm
    case None => Region(version, NoPolicy, RegionOk, entrypoint)
    case Some(w) =>
      if |w| > MAX_WASM then Region(version, NoPolicy, RegionError, entrypoint)
      else Region(version, Sha(w), RegionOk, entrypoint)
  }

  // ---- state ----

  datatype Reading = Absent | Unreadable | Read(m: Manifest)
  datatype Notice = Notice(id: nat, version: nat, hash: Hash, received: int)
  datatype Answer = Answer(notice: Notice, current: Option<Policy>, region: Region)

  datatype State = State(
    manifest: Reading,
    wasms: map<Hash, Bytes>,       // the folder as it arrived here, whole files or not
    current: Option<Policy>,
    region: Region,
    pending: seq<Notice>,
    answers: seq<Answer>,          // every "ok", with what was installed when it was sent
    received: nat,                 // notices so far
    reloads: nat)                  // reload broadcasts so far

  /** How the file writes of one sync end: the wasm is written before the metadata, and a write that fails may have
      emptied its file first. */
  datatype Install =
    | Wrote
    | Refused              // nothing was written
    | Torn(k: nat)         // the write of the wasm failed after k bytes
    | WasmOnly             // the wasm is there, the write of the metadata never began
    | MetaLost             // it began and failed: what it left is no JSON
    | Unreported           // both files are written, and an error was returned all the same
  datatype Clearing = ClearedAll | ClearRefused | LostMeta | LostWasm
  datatype Io = Io(staged: bool, install: Install, clearing: Clearing)

  const CLEAN := Io(true, Wrote, ClearedAll)

  /** The checks of an installed wasm: its header, and the export the routers call. */
  type Check = Bytes -> bool

  function OnDisk(wasm: Bytes, version: nat, entrypoint: string): Option<Policy> {
    if wasm == [] then None else Some(Policy(wasm, version, entrypoint))
  }

  function Entry(e: string): string { if e == "" then DEFAULT_ENTRYPOINT else e }

  function OldVersion(p: Option<Policy>): nat { if p.Some? then p.value.version else 0 }
  function OldEntry(p: Option<Policy>): string { if p.Some? then p.value.entrypoint else "" }

  // ---- one sync ----

  function ClearPolicy(s: State, c: Clearing): State {
    match c
    case ClearedAll => s.(current := None, region := WritePolicy(0, None, ""), reloads := s.reloads + 1)
    case ClearRefused => s
    case LostMeta => if s.current.Some? then s.(current := OnDisk(s.current.value.wasm, 0, "")) else s
    case LostWasm => s.(current := None)
  }

  function Apply(s: State, wasm: Bytes, m: Manifest, install: Install, ok: Check): State {
    if !ok(wasm) then s.(region := s.region.(status := RegionError))
    else
      match install
      case Refused => s
      case WasmOnly => s.(current := OnDisk(wasm, OldVersion(s.current), OldEntry(s.current)))
      case MetaLost => s.(current := OnDisk(wasm, 0, ""))
      case Unreported => s.(current := OnDisk(wasm, m.version, Entry(m.entrypoint)))
      case Torn(k) =>
        s.(current := OnDisk(if k < |wasm| then wasm[..k] else wasm, OldVersion(s.current), OldEntry(s.current)))
      case Wrote =>
        s.(current := OnDisk(wasm, m.version, Entry(m.entrypoint)),
           region := WritePolicy(m.version, Some(wasm), Entry(m.entrypoint)),
           reloads := s.reloads + 1)
  }

  function Sync(s: State, io: Io, ok: Check): State {
    if !s.manifest.Read? then s
    else
      var m := s.manifest.m;
      if m.hash == NoPolicy then if s.current.None? then s else ClearPolicy(s, io.clearing)
      else if m.hash == HashOf(s.current) then s
      else if m.file !in s.wasms then s
      else if Sha(s.wasms[m.file]) != m.hash then s
      else if !io.staged then s
      else Apply(s, s.wasms[m.file], m, io.install, ok)
  }

  /** The region is made to carry the installed policy. */
  function Repair(s: State, ok: Check): State {
    match s.current
    case None =>
      if s.region.hash == NoPolicy then s else s.(region := WritePolicy(0, None, ""), reloads := s.reloads + 1)
    case Some(p) =>
      if !ok(p.wasm) || s.region.hash == Sha(p.wasm) then s
      else s.(region := WritePolicy(p.version, Some(p.wasm), Entry(p.entrypoint)), reloads := s.reloads + 1)
  }

  predicate Waits(n: Notice, hash: Hash, now: int) { n.hash != hash && now - n.received < NOTICE_TTL }

  /** The clock is read once for each notice. */
  type Clock = nat -> int

  function Kept(ns: seq<Notice>, hash: Hash, now: Clock): seq<Notice> {
    if ns == [] then []
    else
      var k := |ns| - 1;
      Kept(ns[..k], hash, now) + if Waits(ns[k], hash, now(k)) then [ns[k]] else []
  }

  function Answered(ns: seq<Notice>, current: Option<Policy>, region: Region): seq<Answer> {
    if ns == [] then []
    else
      Answered(ns[..|ns| - 1], current, region) +
      if ns[|ns| - 1].hash == HashOf(current) then [Answer(ns[|ns| - 1], current, region)] else []
  }

  function AnswerPending(s: State, now: Clock): State {
    s.(pending := Kept(s.pending, HashOf(s.current), now),
      answers := s.answers + Answered(s.pending, s.current, s.region))
  }

  function SyncOnce(s: State, io: Io, now: Clock, ok: Check): State {
    AnswerPending(Repair(Sync(s, io, ok), ok), now)
  }

  // ---- a restart ----

  /** The region a start leaves: an installed wasm that passes the checks is written again, any other only marked. */
  function Loaded(current: Option<Policy>, region: Region, ok: Check): Region {
    match current
    case None => region.(status := RegionOk)
    case Some(p) =>
      if !ok(p.wasm) then region.(status := RegionError)
      else WritePolicy(if p.version == 0 then 1 else p.version, Some(p.wasm), Entry(p.entrypoint))
  }

  /** A start writes the metadata of a wasm that passes the checks again; a write that fails may lose it. */
  function Rewritten(current: Option<Policy>, metaKept: bool, ok: Check): Option<Policy> {
    if current.Some? && ok(current.value.wasm) && !metaKept then OnDisk(current.value.wasm, 0, "") else current
  }

  /** Notices are in memory only. */
  function Restarted(s: State, lost: bool, metaKept: bool, ok: Check): State {
    s.(region := Loaded(s.current, if lost then WritePolicy(0, None, "") else s.region, ok),
       current := Rewritten(s.current, metaKept, ok), pending := [])
  }

  // ---- runs ----

  datatype Action =
    | Arrives(file: Hash, data: Bytes)          // whole, partial or wrong
    | Vanishes(file: Hash)
    | ManifestArrives(r: Reading)
    | NoticeArrives(version: nat, hash: Hash, at: int)
    | Syncs(io: Io, now: Clock)
    | Restarts(regionLost: bool, metaKept: bool)  // the process starts again; a reboot loses the shared region

  function Step(s: State, a: Action, ok: Check): State {
    match a
    case Arrives(file, data) => s.(wasms := s.wasms[file := data])
    case Vanishes(file) => s.(wasms := s.wasms - {file})
    case ManifestArrives(r) => s.(manifest := r)
    case NoticeArrives(v, h, at) =>
      s.(pending := s.pending + [Notice(s.received, v, h, at)], received := s.received + 1)
    case Syncs(io, now) => SyncOnce(s, io, now, ok)
    case Restarts(lost, metaKept) => Restarted(s, lost, metaKept, ok)
  }

  function Run(s: State, acts: seq<Action>, ok: Check): State
    decreases |acts|
  {
    if acts == [] then s else Run(Step(s, acts[0], ok), acts[1..], ok)
  }

  // ---- integrity ----

  /** A manifest read here was published. */
  ghost predicate Legal(a: Action, published: iset<Hash>) {
    a.ManifestArrives? && a.r.Read? ==> a.r.m.hash in published
  }

  ghost predicate Integral(s: State, published: iset<Hash>) {
    && NoPolicy in published && HashOf(s.current) in published && s.region.hash in published
    && (s.manifest.Read? ==> s.manifest.m.hash in published)
    && OnDiskOk(s)
  }

  /** An empty file is no policy, and the region names only a wasm that fits it. */
  ghost predicate OnDiskOk(s: State) {
    (s.current.Some? ==> s.current.value.wasm != []) && (s.region.hash.Sha? ==> |s.region.hash.wasm| <= MAX_WASM)
  }

  /** The sync installs the wasm the manifest names. */
  predicate Installs(s: State, io: Io, ok: Check) {
    && s.manifest.Read? && s.manifest.m.hash != NoPolicy && s.manifest.m.hash != HashOf(s.current)
    && s.manifest.m.file in s.wasms && Sha(s.wasms[s.manifest.m.file]) == s.manifest.m.hash
    && io.staged && ok(s.wasms[s.manifest.m.file])
  }

  /** The sync leaves a part of that wasm installed, which was never published itself. */
  ghost predicate Tears(s: State, io: Io, ok: Check, published: iset<Hash>) {
    && Installs(s, io, ok) && io.install.Torn?
    && var wasm := s.wasms[s.manifest.m.file];
       0 < io.install.k < |wasm| && Sha(wasm[..io.install.k]) !in published
  }

  lemma SyncIntegralIff(s: State, io: Io, ok: Check, published: iset<Hash>)
    requires Integral(s, published)
    ensures Integral(Sync(s, io, ok), published) <==> !Tears(s, io, ok, published)
  {
  }

  lemma RepairIntegralIff(s: State, ok: Check, published: iset<Hash>)
    requires NoPolicy in published && s.region.hash in published && OnDiskOk(s)
    requires s.manifest.Read? ==> s.manifest.m.hash in published
    ensures Integral(Repair(s, ok), published) <==> HashOf(s.current) in published
  {
  }

  lemma RestartIntegral(s: State, lost: bool, metaKept: bool, ok: Check, published: iset<Hash>)
    requires Integral(s, published)
    ensures Integral(Restarted(s, lost, metaKept, ok), published)
  {
  }

  lemma SyncKeepsRegion(s: State, io: Io, ok: Check, published: iset<Hash>)
    requires Integral(s, published)
    ensures
      var r := Sync(s, io, ok);
      && r.region.hash in published && OnDiskOk(r) && r.manifest == s.manifest
  {
  }

  /** The exact condition: a step keeps the hashes published unless it is a sync whose install is cut short inside the
      wasm, at a point that leaves no published one. */
  lemma StepIntegralIff(s: State, a: Action, ok: Check, published: iset<Hash>)
    requires Integral(s, published) && Legal(a, published)
    ensures Integral(Step(s, a, ok), published) <==> !(a.Syncs? && Tears(s, a.io, ok, published))
  {
    if a.Syncs? {
      SyncIntegralIff(s, a.io, ok, published);
      SyncKeepsRegion(s, a.io, ok, published);
      RepairIntegralIff(Sync(s, a.io, ok), ok, published);
    }
    if a.Restarts? { RestartIntegral(s, a.regionLost, a.metaKept, ok, published); }
  }

  /** Some sync of the run tears. */
  ghost predicate RunTears(s: State, acts: seq<Action>, ok: Check, published: iset<Hash>)
    decreases |acts|
  {
    acts != [] && ((acts[0].Syncs? && Tears(s, acts[0].io, ok, published)) ||
                   RunTears(Step(s, acts[0], ok), acts[1..], ok, published))
  }

  /** Every state of a run keeps the hashes published. */
  ghost predicate AlwaysIntegral(s: State, acts: seq<Action>, ok: Check, published: iset<Hash>)
    decreases |acts|
  {
    Integral(s, published) && (acts == [] || AlwaysIntegral(Step(s, acts[0], ok), acts[1..], ok, published))
  }

  /** Whatever arrives, in any order and state, whatever fails, with restarts: what is installed, and what the routers
      are handed, always has the hash of a published manifest if and only if no install is cut short. */
  lemma {:induction false} EveryRunIntegral(s: State, acts: seq<Action>, ok: Check, published: iset<Hash>)
    requires Integral(s, published) && forall i :: 0 <= i < |acts| ==> Legal(acts[i], published)
    ensures AlwaysIntegral(s, acts, ok, published) <==> !RunTears(s, acts, ok, published)
    decreases |acts|
  {
    if acts != [] {
      var s1 := Step(s, acts[0], ok);
      StepIntegralIff(s, acts[0], ok, published);
      if Integral(s1, published) { EveryRunIntegral(s1, acts[1..], ok, published); }
    }
  }

  /** The published hashes, and those of the front parts of what was published. */
  ghost function WithParts(published: iset<Hash>): iset<Hash> {
    iset h: Hash | h in published || PartOf(h, published)
  }

  ghost predicate PartOf(h: Hash, published: iset<Hash>) {
    h.Sha? && exists w: Bytes :: Sha(w) in published && h.wasm <= w
  }

  lemma PartsHaveParts(published: iset<Hash>, w: Bytes, k: nat)
    requires Sha(w) in WithParts(published) && k <= |w|
    ensures Sha(w[..k]) in WithParts(published)
  {
    if Sha(w) in published {
      assert w[..k] <= w;
      assert PartOf(Sha(w[..k]), published);
    } else {
      var v: Bytes :| Sha(v) in published && w <= v;
      assert w[..k] <= v;
      assert PartOf(Sha(w[..k]), published);
    }
  }

  lemma {:induction false} NeverTearsParts(s: State, acts: seq<Action>, ok: Check, published: iset<Hash>)
    requires Integral(s, WithParts(published))
    requires forall i :: 0 <= i < |acts| ==> Legal(acts[i], WithParts(published))
    ensures AlwaysIntegral(s, acts, ok, WithParts(published))
    decreases |acts|
  {
    if acts != [] {
      var a, s1 := acts[0], Step(s, acts[0], ok);
      if a.Syncs? && Tears(s, a.io, ok, WithParts(published)) {
        PartsHaveParts(published, s.wasms[s.manifest.m.file], a.io.install.k);
        assert false;
      }
      StepIntegralIff(s, a, ok, WithParts(published));
      NeverTearsParts(s1, acts[1..], ok, published);
    }
  }

  /** With installs cut short anywhere: what is installed, and what the routers are handed, is never more than a front
      part of a published policy. */
  lemma EveryRunInParts(s: State, acts: seq<Action>, ok: Check, published: iset<Hash>)
    requires Integral(s, published) && forall i :: 0 <= i < |acts| ==> Legal(acts[i], published)
    ensures AlwaysIntegral(s, acts, ok, WithParts(published))
  {
    forall i | 0 <= i < |acts| ensures Legal(acts[i], WithParts(published)) { }
    NeverTearsParts(s, acts, ok, published);
  }

  // ---- convergence ----

  /** The manifest is here, and the wasm it names, whole and loadable. */
  ghost predicate Arrived(s: State, wasm: Bytes, ok: Check) {
    && s.manifest.Read? && s.manifest.m.hash == Sha(wasm) && wasm != [] && ok(wasm)
    && s.manifest.m.file in s.wasms && s.wasms[s.manifest.m.file] == wasm
  }

  ghost predicate SameWrites(s: State, s': State) {
    s'.current == s.current && s'.region == s.region && s'.reloads == s.reloads
  }

  /** One clean sync installs it, whatever was there; the region follows, and a second sync writes nothing, exactly
      when the wasm fits the region. */
  lemma ConvergesIff(s: State, wasm: Bytes, now: Clock, later: Clock, ok: Check)
    requires Arrived(s, wasm, ok) && OnDiskOk(s)
    ensures
      var s1 := SyncOnce(s, CLEAN, now, ok);
      var s2 := SyncOnce(s1, CLEAN, later, ok);
      && HashOf(s1.current) == s.manifest.m.hash
      && (s1.region.hash == s.manifest.m.hash <==> |wasm| <= MAX_WASM)
      && (SameWrites(s1, s2) <==> |wasm| <= MAX_WASM)
  {
    var r1 := Sync(s, CLEAN, ok);
    assert HashOf(r1.current) == Sha(wasm) && r1.current.value.wasm == wasm;
    var s1 := SyncOnce(s, CLEAN, now, ok);
    assert s1.current == r1.current && s1.manifest == s.manifest;
    assert Sync(s1, CLEAN, ok) == s1;
  }

  /** A cleared policy converges the same way. */
  lemma ClearConverges(s: State, now: Clock, later: Clock, ok: Check)
    requires s.manifest.Read? && s.manifest.m.hash == NoPolicy
    ensures
      var s1 := SyncOnce(s, CLEAN, now, ok);
      && s1.current.None? && s1.region.hash == NoPolicy && SameWrites(s1, SyncOnce(s1, CLEAN, later, ok))
      && (s.current.Some? ==> s1.region == Region(0, NoPolicy, RegionOk, "") && s1.reloads == s.reloads + 1)
  {
    var s1 := SyncOnce(s, CLEAN, now, ok);
    assert Sync(s1, CLEAN, ok) == s1;
  }

  /** From hive to hive: a replica whose folder is a sound publication of p installs p and hands it to its routers in
      one clean sync. It has the published version and entrypoint, in every run until another manifest, exactly when it
      did not run that wasm before or had them already, and no start lost them: hashes only are compared. */
  lemma PublishedReachesReplica(s: State, f: Folder, p: Option<Policy>, now: Clock, acts: seq<Action>, ok: Check)
    requires Sound(f) && f.manifest.Some? && Names(f.manifest.value, p) && OnDiskOk(s)
    requires s.manifest == Read(f.manifest.value) && s.wasms == f.wasms
    requires Running(p).Some? ==> ok(p.value.wasm) && |p.value.wasm| <= MAX_WASM
    requires forall i :: 0 <= i < |acts| ==> !acts[i].ManifestArrives?
    ensures
      var s' := SyncOnce(s, CLEAN, now, ok);
      && HashOf(s'.current) == s'.region.hash == HashOf(p)
      && (Running(p).Some? ==>
          var w := Wanted(p.value);
          && (Run(s', acts, ok).current == Some(w) <==>
              (HashOf(s.current) != HashOf(p) || s.current == Some(w)) &&
              !exists i :: 0 <= i < |acts| && LosesMeta(acts[i]))
          && (HashOf(s.current) != HashOf(p) ==> s'.region == Region(w.version, HashOf(p), RegionOk, w.entrypoint)))
  {
    if Running(p).Some? {
      assert Arrived(s, p.value.wasm, ok);
      ConvergesIff(s, p.value.wasm, now, now, ok);
      SettledStays(SyncOnce(s, CLEAN, now, ok), acts, ok);
    } else {
      ClearConverges(s, now, now, ok);
    }
  }

  /** A policy that is new to the replica arrives as it was published if and only if it had a version and an
      entrypoint; the routers are handed the same. */
  lemma ArrivesAsPublished(s: State, f: Folder, p: Policy, now: Clock, ok: Check)
    requires Sound(f) && f.manifest.Some? && Names(f.manifest.value, Some(p)) && OnDiskOk(s) && p.wasm != []
    requires s.manifest == Read(f.manifest.value) && s.wasms == f.wasms && ok(p.wasm) && |p.wasm| <= MAX_WASM
    requires HashOf(s.current) != HashOf(Some(p))
    ensures
      var s' := SyncOnce(s, CLEAN, now, ok);
      && (s'.current == Some(p) <==> p.version != 0 && p.entrypoint != "")
      && s'.current.Some? && s'.current.value.wasm == p.wasm
      && s'.current.value.version == s'.region.version == (if p.version == 0 then 1 else p.version)
      && s'.current.value.entrypoint == s'.region.entrypoint ==
         (if p.entrypoint == "" then "router/target" else p.entrypoint)
  {
    PublishedReachesReplica(s, f, Some(p), now, [], ok);
  }

  /** The same wasm published again under another version or entrypoint never reaches a replica that runs it. */
  lemma SameWasmNeverReaches(s: State, p: Policy, acts: seq<Action>, ok: Check)
    requires p.wasm != [] && s.manifest.Read? && Names(s.manifest.m, Some(p))
    requires HashOf(s.current) == HashOf(Some(p)) && s.current != Some(Wanted(p))
    requires forall i :: 0 <= i < |acts| ==> !acts[i].ManifestArrives?
    ensures Run(s, acts, ok).current != Some(Wanted(p))
  {
    SettledStays(s, acts, ok);
  }

  // ---- what the routers are handed ----

  /** The region after a start: an installed wasm that can be loaded and fits is handed over with its version and
      entrypoint, one that does not fit leaves none and an error; one that cannot be loaded, or none, changes the
      status of what was there. */
  lemma StartHandsOver(s: State, lost: bool, metaKept: bool, ok: Check)
    ensures
      var s' := Step(s, Restarts(lost, metaKept), ok);
      s'.pending == [] && s'.answers == s.answers && s'.manifest == s.manifest && s'.wasms == s.wasms
    ensures
      var r := Step(s, Restarts(lost, metaKept), ok).region;
      var was := if lost then Region(0, NoPolicy, RegionOk, "") else s.region;
      match s.current
      case None => r == Region(was.version, was.hash, RegionOk, was.entrypoint)
      case Some(p) =>
        if !ok(p.wasm) then r == Region(was.version, was.hash, RegionError, was.entrypoint)
        else
          && r.version == (if p.version == 0 then 1 else p.version)
          && r.entrypoint == (if p.entrypoint == "" then "router/target" else p.entrypoint)
          && (|p.wasm| <= 4_194_304 ==> r.hash == Sha(p.wasm) && r.status == RegionOk)
          && (|p.wasm| > 4_194_304 ==> r.hash == NoPolicy && r.status == RegionError)
  {
  }

  /** The region after a sync that installs nothing: what is installed and can be loaded is in it, with its version and
      entrypoint if it had to be written; one that does not fit leaves none and an error. */
  lemma SyncHandsOver(s: State, io: Io, now: Clock, ok: Check, p: Policy)
    requires s.current == Some(p) && p.wasm != [] && ok(p.wasm) && OnDiskOk(s)
    requires s.manifest.Read? ==> s.manifest.m.hash == Sha(p.wasm)
    ensures
      var s' := SyncOnce(s, io, now, ok);
      && s'.current == s.current
      && (s.region.hash == Sha(p.wasm) ==> s'.region == s.region && s'.reloads == s.reloads)
      && (s.region.hash != Sha(p.wasm) ==>
          && s'.reloads == s.reloads + 1 && s'.region.version == p.version
          && s'.region.entrypoint == (if p.entrypoint == "" then "router/target" else p.entrypoint)
          && (|p.wasm| <= 4_194_304 ==> s'.region.hash == Sha(p.wasm) && s'.region.status == RegionOk)
          && (|p.wasm| > 4_194_304 ==> s'.region.hash == NoPolicy && s'.region.status == RegionError))
  {
  }

  /** A named wasm that cannot be loaded is not installed, and marks the region. */
  lemma UnloadableMarks(s: State, wasm: Bytes, io: Io, ok: Check)
    requires s.manifest.Read? && s.manifest.m.hash == Sha(wasm) != HashOf(s.current) && !ok(wasm) && io.staged
    requires s.manifest.m.file in s.wasms && s.wasms[s.manifest.m.file] == wasm
    ensures Sync(s, io, ok) == s.(region := Region(s.region.version, s.region.hash, RegionError, s.region.entrypoint))
  {
  }

  /** The wasm that the manifest here names arrives whole: the next clean sync installs it. */
  lemma ArrivalInstalls(s: State, wasm: Bytes, now: Clock, ok: Check)
    requires s.manifest.Read? && s.manifest.m.hash == Sha(wasm) != HashOf(s.current) && wasm != [] && ok(wasm)
    ensures HashOf(Run(s, [Arrives(s.manifest.m.file, wasm), Syncs(CLEAN, now)], ok).current) == Sha(wasm)
  {
    TwoSteps(s, Arrives(s.manifest.m.file, wasm), Syncs(CLEAN, now), ok);
  }

  /** Arrived with other bytes, or taken away, it is waited for: no sync changes what is installed. */
  lemma ArrivalWaitedFor(s: State, wasm: Bytes, data: Bytes, io: Io, now: Clock, ok: Check)
    requires s.manifest.Read? && s.manifest.m.hash == Sha(wasm) && data != wasm
    ensures Run(s, [Arrives(s.manifest.m.file, data), Syncs(io, now)], ok).current == s.current
    ensures Run(s, [Vanishes(s.manifest.m.file), Syncs(io, now)], ok).current == s.current
  {
    TwoSteps(s, Arrives(s.manifest.m.file, data), Syncs(io, now), ok);
    TwoSteps(s, Vanishes(s.manifest.m.file), Syncs(io, now), ok);
    NotThereStays(Step(s, Arrives(s.manifest.m.file, data), ok), io, now, ok);
    NotThereStays(Step(s, Vanishes(s.manifest.m.file), ok), io, now, ok);
  }

  lemma NotThereStays(s: State, io: Io, now: Clock, ok: Check)
    requires s.manifest.Read? && s.manifest.m.hash != NoPolicy
    requires s.manifest.m.file in s.wasms ==> Sha(s.wasms[s.manifest.m.file]) != s.manifest.m.hash
    ensures Step(s, Syncs(io, now), ok).current == s.current
  {
    assert Sync(s, io, ok) == s;
  }

  lemma TwoSteps(s: State, a: Action, b: Action, ok: Check)
    ensures Run(s, [a, b], ok) == Step(Step(s, a, ok), b, ok)
  {
    assert [a, b][1..] == [b] && [b][1..] == [];
    assert Run(Step(s, a, ok), [b], ok) == Run(Step(Step(s, a, ok), b, ok), [], ok);
  }

  /** A clear that is cut short: nothing is told to the routers, and what is left installed is the wasm without its
      metadata, or nothing. */
  lemma ClearCutShort(s: State, io: Io, ok: Check)
    requires s.manifest.Read? && s.manifest.m.hash == NoPolicy && s.current.Some? && s.current.value.wasm != []
    requires !io.clearing.ClearedAll?
    ensures
      var s' := Sync(s, io, ok);
      && s'.region == s.region && s'.reloads == s.reloads
      && s'.current == match io.clearing
           case ClearRefused => s.current
           case LostMeta => Some(Policy(s.current.value.wasm, 0, ""))
           case _ => None
  {
  }

  // ---- answers ----

  /** A notice waits behind those that came before it. */
  lemma NoticeWaits(s: State, version: nat, hash: Hash, at: int, ok: Check)
    ensures
      var s' := Step(s, NoticeArrives(version, hash, at), ok);
      && |s'.pending| == |s.pending| + 1 && s.pending <= s'.pending
      && (var n := s'.pending[|s.pending|];
          n.version == version && n.hash == hash && n.received == at && n.id == s.received)
      && s'.received == s.received + 1
  {
  }

  /** Sent with the announced policy installed, and in the region if that wasm is loadable and fits. */
  ghost predicate AnswerOk(a: Answer, ok: Check) {
    && HashOf(a.current) == a.notice.hash
    && (a.current.None? || (ok(a.current.value.wasm) && |a.current.value.wasm| <= MAX_WASM) ==>
      a.region.hash == a.notice.hash)
  }

  /** Ids rise along the pending notices and stay below the next one; answered ids are distinct and not pending. */
  ghost predicate Accounted(s: State) {
    && (forall i, j :: 0 <= i < j < |s.pending| ==> s.pending[i].id < s.pending[j].id)
    && (forall i :: 0 <= i < |s.pending| ==> s.pending[i].id < s.received)
    && (forall i :: 0 <= i < |s.answers| ==> s.answers[i].notice.id < s.received)
    && (forall i, j :: 0 <= i < |s.answers| && 0 <= j < |s.pending| ==> s.answers[i].notice.id != s.pending[j].id)
    && (forall i, j :: 0 <= i < j < |s.answers| ==> s.answers[i].notice.id != s.answers[j].notice.id)
  }

  /** The filter keeps exactly the unsatisfied notices younger than the time allowed. */
  lemma {:induction false} KeptExactly(ns: seq<Notice>, hash: Hash, now: Clock, n: Notice)
    ensures n in Kept(ns, hash, now) <==> exists i: nat :: KeptAt(ns, hash, now, n, i)
  {
    if ns != [] {
      var k := |ns| - 1;
      KeptExactly(ns[..k], hash, now, n);
      if i: nat :| KeptAt(ns[..k], hash, now, n, i) { assert KeptAt(ns, hash, now, n, i); }
      if i: nat :| KeptAt(ns, hash, now, n, i) {
        if i < k { assert KeptAt(ns[..k], hash, now, n, i); }
      }
      if ns[k] == n && Waits(n, hash, now(k)) { assert KeptAt(ns, hash, now, n, k); }
    }
  }

  ghost predicate KeptAt(ns: seq<Notice>, hash: Hash, now: Clock, n: Notice, i: nat) {
    i < |ns| && ns[i] == n && Waits(n, hash, now(i))
  }

  ghost predicate Rising(ns: seq<Notice>) { forall i, j :: 0 <= i < j < |ns| ==> ns[i].id < ns[j].id }

  lemma {:induction false} KeptRising(ns: seq<Notice>, hash: Hash, now: Clock)
    requires Rising(ns)
    ensures Rising(Kept(ns, hash, now)) && forall x :: x in Kept(ns, hash, now) ==> x in ns && x.hash != hash
  {
    if ns != [] {
      var k := |ns| - 1;
      KeptRising(ns[..k], hash, now);
      var kept := Kept(ns[..k], hash, now);
      forall i | 0 <= i < |kept| ensures kept[i].id < ns[k].id {
        assert kept[i] in ns[..k];
      }
      assert forall x :: x in ns[..k] ==> x in ns;
    }
  }

  ghost predicate RisingAnswers(xs: seq<Answer>) {
    forall i, j :: 0 <= i < j < |xs| ==> xs[i].notice.id < xs[j].notice.id
  }

  lemma {:induction false} AnsweredRising(ns: seq<Notice>, current: Option<Policy>, region: Region)
    requires Rising(ns)
    ensures RisingAnswers(Answered(ns, current, region))
    ensures forall a :: a in Answered(ns, current, region) ==>
      a.notice in ns && a.notice.hash == HashOf(current) && a.current == current && a.region == region
  {
    if ns != [] {
      var k := |ns| - 1;
      AnsweredRising(ns[..k], current, region);
      var xs := Answered(ns[..k], current, region);
      forall i | 0 <= i < |xs| ensures xs[i].notice.id < ns[k].id {
        assert xs[i] in xs && xs[i].notice in ns[..k];
      }
      assert forall x :: x in ns[..k] ==> x in ns;
    }
  }

  lemma {:induction false} AnsweredAll(ns: seq<Notice>, current: Option<Policy>, region: Region, n: Notice)
    ensures Answer(n, current, region) in Answered(ns, current, region) <==> n in ns && n.hash == HashOf(current)
  {
    if ns != [] {
      var k := |ns| - 1;
      AnsweredAll(ns[..k], current, region, n);
      assert ns == ns[..k] + [ns[k]];
    }
  }

  lemma SameId(ns: seq<Notice>, x: Notice, y: Notice)
    requires Rising(ns) && x in ns && y in ns && x.id == y.id
    ensures x == y
  {
    var i :| 0 <= i < |ns| && ns[i] == x;
    var j :| 0 <= j < |ns| && ns[j] == y;
  }

  lemma AnswerAccounted(s: State, now: Clock)
    requires Accounted(s)
    ensures Accounted(AnswerPending(s, now))
  {
    var h, s' := HashOf(s.current), AnswerPending(s, now);
    var sent := Answered(s.pending, s.current, s.region);
    KeptRising(s.pending, h, now);
    AnsweredRising(s.pending, s.current, s.region);
    forall i | 0 <= i < |sent| ensures sent[i].notice in s.pending && sent[i].notice.hash == h {
      assert sent[i] in sent;
    }
    forall j | 0 <= j < |s'.pending| ensures s'.pending[j] in s.pending && s'.pending[j].hash != h {
      assert s'.pending[j] in s'.pending;
    }
    forall i, j | 0 <= i < |sent| && 0 <= j < |s'.pending| ensures sent[i].notice.id != s'.pending[j].id {
      if sent[i].notice.id == s'.pending[j].id {
        SameId(s.pending, sent[i].notice, s'.pending[j]);
      }
    }
  }

  lemma SyncKeepsNotices(s: State, io: Io, ok: Check)
    ensures
      var s' := Repair(Sync(s, io, ok), ok);
      s'.pending == s.pending && s'.answers == s.answers && s'.received == s.received
  {
  }

  lemma RepairedRegion(s: State, ok: Check)
    requires s.current.Some? ==> s.current.value.wasm != []
    ensures
      var s' := Repair(s, ok);
      && s'.current == s.current
      && (s.current.None? || (ok(s.current.value.wasm) && |s.current.value.wasm| <= MAX_WASM) ==>
        s'.region.hash == HashOf(s.current))
  {
  }

  lemma SyncNonEmpty(s: State, io: Io, ok: Check)
    requires s.current.Some? ==> s.current.value.wasm != []
    ensures Sync(s, io, ok).current.Some? ==> Sync(s, io, ok).current.value.wasm != []
  {
  }

  ghost predicate NoticesOk(s: State, ok: Check) {
    && Accounted(s) && (forall a :: a in s.answers ==> AnswerOk(a, ok))
    && (s.current.Some? ==> s.current.value.wasm != [])
  }

  lemma SyncNoticesOk(s: State, io: Io, now: Clock, ok: Check)
    requires NoticesOk(s, ok)
    ensures NoticesOk(SyncOnce(s, io, now, ok), ok)
  {
    var r := Sync(s, io, ok);
    SyncNonEmpty(s, io, ok);
    RepairedRegion(r, ok);
    var t := Repair(r, ok);
    SyncKeepsNotices(s, io, ok);
    assert Accounted(t) by { assert Accounted(s); }
    AnswerAccounted(t, now);
    AnsweredRising(t.pending, t.current, t.region);
    var s' := AnswerPending(t, now);
    forall a | a in s'.answers ensures AnswerOk(a, ok) {
      if a !in t.answers { assert a in Answered(t.pending, t.current, t.region); }
    }
  }

  lemma StepNoticesOk(s: State, a: Action, ok: Check)
    requires NoticesOk(s, ok)
    ensures NoticesOk(Step(s, a, ok), ok)
  {
    if a.Syncs? { SyncNoticesOk(s, a.io, a.now, ok); }
  }

  /** Over every run, torn installs included: each notice is answered at most once, and every answer is sent with the
      announced policy installed and, if it is loadable and fits, in the routers' region. */
  lemma {:induction false} EveryAnswerHolds(s: State, acts: seq<Action>, ok: Check)
    requires NoticesOk(s, ok)
    ensures NoticesOk(Run(s, acts, ok), ok)
    decreases |acts|
  {
    if acts != [] {
      StepNoticesOk(s, acts[0], ok);
      EveryAnswerHolds(Step(s, acts[0], ok), acts[1..], ok);
    }
  }

  /** No notice is lost in a sync: it is answered, still waiting, or too old when it was looked at. */
  lemma NoticeFate(s: State, io: Io, now: Clock, ok: Check, i: nat)
    requires Rising(s.pending) && i < |s.pending|
    ensures
      var s' := SyncOnce(s, io, now, ok);
      var n := s.pending[i];
      if n.hash == HashOf(s'.current) then Answer(n, s'.current, s'.region) in s'.answers && n !in s'.pending
      else n in s'.pending <==> now(i) - n.received < NOTICE_TTL
  {
    var t, n := Repair(Sync(s, io, ok), ok), s.pending[i];
    SyncKeepsNotices(s, io, ok);
    KeptExactly(t.pending, HashOf(t.current), now, n);
    AnsweredAll(t.pending, t.current, t.region, n);
    if Waits(n, HashOf(t.current), now(i)) { assert KeptAt(t.pending, HashOf(t.current), now, n, i); }
    forall j: nat | KeptAt(t.pending, HashOf(t.current), now, n, j) ensures j == i { }
  }

  // ---- what a failed install leaves ----

  /** A start whose write of the metadata failed. */
  predicate LosesMeta(a: Action) { a.Restarts? && !a.metaKept }

  ghost predicate RunLosesMeta(current: Option<Policy>, acts: seq<Action>, ok: Check) {
    current.Some? && ok(current.value.wasm) && exists i :: 0 <= i < |acts| && LosesMeta(acts[i])
  }

  /** While the installed hash is the manifest's, no sync rewrites the installed files; a start can lose the metadata
      for good. */
  lemma {:induction false} SettledStays(s: State, acts: seq<Action>, ok: Check)
    requires s.manifest.Read? && s.manifest.m.hash == HashOf(s.current) &&
      (s.current.Some? ==> s.current.value.wasm != [])
    requires forall i :: 0 <= i < |acts| ==> !acts[i].ManifestArrives?
    ensures Run(s, acts, ok).current ==
      if RunLosesMeta(s.current, acts, ok) then Some(Policy(s.current.value.wasm, 0, "")) else s.current
    decreases |acts|
  {
    if acts != [] {
      var s1, rest := Step(s, acts[0], ok), acts[1..];
      assert s1.manifest == s.manifest && s1.current ==
        if RunLosesMeta(s.current, [acts[0]], ok) then Some(Policy(s.current.value.wasm, 0, "")) else s.current by {
        assert [acts[0]][0] == acts[0];
      }
      SettledStays(s1, rest, ok);
      LosesFirstOrLater(s.current, acts, ok);
    }
  }

  lemma LosesFirstOrLater(current: Option<Policy>, acts: seq<Action>, ok: Check)
    requires acts != []
    ensures RunLosesMeta(current, acts, ok) <==>
      RunLosesMeta(current, [acts[0]], ok) || RunLosesMeta(current, acts[1..], ok)
  {
    if RunLosesMeta(current, acts, ok) {
      var i :| 0 <= i < |acts| && LosesMeta(acts[i]);
      if i == 0 { assert LosesMeta([acts[0]][0]); } else { assert LosesMeta(acts[1..][i - 1]); }
    }
    if RunLosesMeta(current, acts[1..], ok) {
      var i :| 0 <= i < |acts| - 1 && LosesMeta(acts[1..][i]);
      assert LosesMeta(acts[i + 1]);
    }
  }

  /** The version and the entrypoint an install leaves: those of the manifest, for as long as it stays, exactly when the
      metadata was written too, or its write never began and it was the same before, and no start lost it since. */
  lemma MetadataRightIff(s: State, wasm: Bytes, io: Io, now: Clock, acts: seq<Action>, ok: Check)
    requires Arrived(s, wasm, ok) && s.manifest.m.hash != HashOf(s.current)
    requires io.staged && !io.install.Refused? && !io.install.Torn?
    requires forall i :: 0 <= i < |acts| ==> !acts[i].ManifestArrives?
    ensures
      var m := s.manifest.m;
      var last := Run(SyncOnce(s, io, now, ok), acts, ok);
      && HashOf(last.current) == m.hash
      && (last.current == Some(Policy(wasm, m.version, Entry(m.entrypoint))) <==>
          && (io.install.Wrote? || io.install.Unreported? ||
              (io.install.WasmOnly? && OldVersion(s.current) == m.version &&
               OldEntry(s.current) == Entry(m.entrypoint)))
          && !exists i :: 0 <= i < |acts| && LosesMeta(acts[i]))
  {
    var s1, m := SyncOnce(s, io, now, ok), s.manifest.m;
    assert s1.current == match io.install
      case WasmOnly => Some(Policy(wasm, OldVersion(s.current), OldEntry(s.current)))
      case MetaLost => Some(Policy(wasm, 0, ""))
      case _ => Some(Policy(wasm, m.version, Entry(m.entrypoint)));
    SettledStays(s1, acts, ok);
  }

  /** A write of the metadata that never began leaves the version and the entrypoint of the policy before; one that
      failed leaves none. As long as the manifest stays, no later sync corrects either. */
  lemma OldMetadataStays(s: State, wasm: Bytes, install: Install, now: Clock, acts: seq<Action>, ok: Check)
    requires Arrived(s, wasm, ok) && s.manifest.m.hash != HashOf(s.current)
    requires install.WasmOnly? || install.MetaLost?
    requires forall i :: 0 <= i < |acts| ==> !acts[i].ManifestArrives?
    ensures
      var last := Run(SyncOnce(s, Io(true, install, ClearedAll), now, ok), acts, ok);
      last.current ==
        if install.MetaLost? || exists i :: 0 <= i < |acts| && LosesMeta(acts[i]) then Some(Policy(wasm, 0, ""))
        else Some(Policy(wasm, OldVersion(s.current), OldEntry(s.current)))
  {
    var s1 := SyncOnce(s, Io(true, install, ClearedAll), now, ok);
    assert s1.current == if install.MetaLost? then Some(Policy(wasm, 0, ""))
                         else Some(Policy(wasm, OldVersion(s.current), OldEntry(s.current)));
    SettledStays(s1, acts, ok);
  }

  const OPA_EVAL: Bytes := [0x6f, 0x70, 0x61, 0x5f, 0x65, 0x76, 0x61, 0x6c]

  predicate Loadable(wasm: Bytes) { W.ValidWasm(wasm) && W.HasExport(wasm, OPA_EVAL) }

  /** An install cut short at byte k reaches the routers in the same sync exactly when the cut left the whole export
      section: the checks of an installed wasm look no further. */
  lemma TornReachesRouters(s: State, m: W.Module, k: nat, now: Clock)
    requires W.ModuleOk(m) && m.WithExports? && W.NameAmong(m.list.exports, OPA_EVAL) &&
      0 < k < |W.Encode(m)| <= MAX_WASM
    requires Arrived(s, W.Encode(m), Loadable) && s.manifest.m.hash != HashOf(s.current)
    requires s.region.hash != Sha(W.Encode(m)[..k])
    ensures
      var s1 := SyncOnce(s, Io(true, Torn(k), ClearedAll), now, Loadable);
      s1.region.hash == Sha(W.Encode(m)[..k]) <==> k >= W.ExportsEnd(m)
  {
    var cut := W.Encode(m)[..k];
    W.CutModule(m, OPA_EVAL, k);
    W.ExportFoundExactly(m, OPA_EVAL);
    if k >= 8 { CutKeepsHeader(W.Encode(m), k); }
    assert Loadable(cut) <==> k >= W.ExportsEnd(m);
    TornSync(s, W.Encode(m), k, now, Loadable);
  }

  lemma CutKeepsHeader(wasm: Bytes, k: nat)
    requires W.ValidWasm(wasm) && 8 <= k <= |wasm|
    ensures W.ValidWasm(wasm[..k])
  {
    assert wasm[..k][..4] == wasm[..4];
  }

  lemma TornSync(s: State, wasm: Bytes, k: nat, now: Clock, ok: Check)
    requires Arrived(s, wasm, ok) && s.manifest.m.hash != HashOf(s.current) && 0 < k < |wasm| <= MAX_WASM
    requires s.region.hash != Sha(wasm[..k])
    ensures
      var s1 := SyncOnce(s, Io(true, Torn(k), ClearedAll), now, ok);
      s1.region.hash == Sha(wasm[..k]) <==> ok(wasm[..k])
  {
    var r := Sync(s, Io(true, Torn(k), ClearedAll), ok);
    assert r.current == Some(Policy(wasm[..k], OldVersion(s.current), OldEntry(s.current))) && r.region == s.region;
  }
}
