/** Consent bound to held model files: the stats snapshot of `_hold`, and the
    re-check that a transcript must pass.

    The held descriptors keep their inodes.  One fstat, one block read, one look into
    the digest cache and one clock reading are one step each; files may change and
    other threads may use the cache between any two of them.
  */
module HeldPayload {
  import opened Basics
  import opened Disk
  import DigestCache

  type Part = (nat, int)

  /** A required file: the label it is hashed under, and its inode. */
  datatype Held = Held(path: string, id: FileId)

  /** `hash` is the digest of one file, `combine` that of the list of parts. */
  datatype Hashes = Hashes(hash: Bytes -> int, combine: seq<Part> -> int)

  /** `_stats_taken` and `_stats`, with the parts hashed for them. */
  datatype Snapshot = Snapshot(taken: int, stats: seq<Stat>, parts: seq<Part>)

  /** What the holder is doing.  `seen` is never read: the true digest of each file's
      bytes at the moment this call looked at that file.  `reading` says that
      `fd_digest` is at work on the next file. */
  datatype Activity =
    | Unheld
    | Taking(hold: bool, taken: int, stats: seq<Stat>, seen: seq<Part>)
    | Hashing(hold: bool, taken: int, stats: seq<Stat>, parts: seq<Part>, reading: bool)
    | Holding
    | Vouched(taken: int, seen: seq<Part>)  // _require_unchanged returned
    | Refused                               // _require_unchanged raised

  /** `c` is the disk with the digest cache and everybody's `fd_digest` calls. */
  datatype World = World(c: DigestCache.World, snapshot: Snapshot, payload: int, act: Activity)

  /** The holder's own `fd_digest` call. */
  const OWN: DigestCache.JobId := 0

  /** `_settled`, for one file and for all. */
  predicate Old(taken: int, s: Stat) {
    s.mtime < taken - RACY && s.ctime < taken - RACY
  }

  predicate Settled(s: Snapshot) {
    forall i :: 0 <= i < |s.stats| ==> Old(s.taken, s.stats[i])
  }

  predicate HoldsFiles(d: Disk, held: seq<Held>) {
    forall i :: 0 <= i < |held| ==> held[i].id in d.files
  }

  datatype Action =
    | Outside(a: DigestCache.Action)  // time, changes, and other threads' fd_digest calls
    | StartHold
    | StartCheck
    | StatNext
    | Compare
    | HashBegin
    | HashRead(n: nat)
    | HashRecheck
    | HashEnd
    | Conclude(consented: Option<int>)

  predicate Others(a: DigestCache.Action) {
    match a
    case Tick => true
    case Change(_) => true
    case Begin(j, _, _) => j != OWN
    case ReadBlock(j, _) => j != OWN
    case Recheck(j) => j != OWN
    case End(j) => j != OWN
  }

  /** The clock is read first: everything this call stats is stat-ed later. */
  predicate StartStep(w: World, w': World, hold: bool) {
    && (if hold then w.act.Unheld? else w.act.Holding? || w.act.Vouched? || w.act.Refused?)
    && w' == w.(act := Taking(hold, w.c.disk.now, [], []))
  }

  predicate StatStep(w: World, w': World, held: seq<Held>, hs: Hashes) {
    && w.act.Taking? && |w.act.stats| < |held| && held[|w.act.stats|].id in w.c.disk.files
    && var id := held[|w.act.stats|].id;
       w' == w.(act := Taking(w.act.hold, w.act.taken, w.act.stats + [Fstat(w.c.disk, id)],
                              w.act.seen + [Fresh(hs.hash, w.c.disk.files[id])]))
  }

  /** All stats are in: equal and settled stats vouch at once, anything else is
      hashed.  `_hold` always hashes. */
  predicate CompareStep(w: World, w': World, held: seq<Held>) {
    && w.act.Taking? && |w.act.stats| == |held|
    && w' == w.(act := if !w.act.hold && w.act.stats == w.snapshot.stats && Settled(w.snapshot)
                       then Vouched(w.act.taken, w.act.seen)
                       else Hashing(w.act.hold, w.act.taken, w.act.stats, [], false))
  }

  /** `fd_digest` on the next file: its fstat, and the answer if the cache has one. */
  predicate HashBeginStep(w: World, w': World, held: seq<Held>, hs: Hashes) {
    && w.act.Hashing? && !w.act.reading && |w.act.parts| < |held|
    && var next := held[|w.act.parts|];
       && DigestCache.Next(w.c, w'.c, DigestCache.Begin(OWN, next.path, next.id), hs.hash)
       && var key := DigestCache.Key(next.path, Fstat(w.c.disk, next.id));
          w' == w.(c := w'.c,
                   act := if key in w.c.cache then w.act.(parts := w.act.parts + [w.c.cache[key]])
                          else w.act.(reading := true))
  }

  /** One block, or the end of the file and the second fstat. */
  predicate HashMoreStep(w: World, w': World, a: DigestCache.Action, hs: Hashes) {
    && w.act.Hashing? && w.act.reading
    && DigestCache.Next(w.c, w'.c, a, hs.hash)
    && w' == w.(c := w'.c)
  }

  /** The digest is returned, stored or not, whatever the second fstat showed. */
  predicate HashEndStep(w: World, w': World, hs: Hashes) {
    && w.act.Hashing? && w.act.reading
    && DigestCache.Next(w.c, w'.c, DigestCache.End(OWN), hs.hash)
    && var bytes := w.c.jobs[OWN].bytes;
       w' == w.(c := w'.c,
                act := w.act.(parts := w.act.parts + [(|bytes|, hs.hash(bytes))], reading := false))
  }

  predicate ConcludeStep(w: World, w': World, held: seq<Held>, hs: Hashes, consented: Option<int>) {
    && w.act.Hashing? && !w.act.reading && |w.act.parts| == |held|
    && var found := hs.combine(w.act.parts);
       var snapshot := Snapshot(w.act.taken, w.act.stats, w.act.parts);
       if w.act.hold then
         w' == if consented == None || consented.value == found
               then World(w.c, snapshot, found, Holding)
               else w.(act := Unheld)
       else
         w' == if found == w.payload then w.(snapshot := snapshot, act := Vouched(w.act.taken, w.act.parts))
               else w.(act := Refused)
  }

  predicate Next(w: World, w': World, a: Action, held: seq<Held>, hs: Hashes) {
    match a
    case Outside(o) => Others(o) && DigestCache.Next(w.c, w'.c, o, hs.hash) && w' == w.(c := w'.c)
    case StartHold => StartStep(w, w', true)
    case StartCheck => StartStep(w, w', false)
    case StatNext => StatStep(w, w', held, hs)
    case Compare => CompareStep(w, w', held)
    case HashBegin => HashBeginStep(w, w', held, hs)
    case HashRead(n) => HashMoreStep(w, w', DigestCache.ReadBlock(OWN, n), hs)
    case HashRecheck => HashMoreStep(w, w', DigestCache.Recheck(OWN), hs)
    case HashEnd => HashEndStep(w, w', hs)
    case Conclude(consented) => ConcludeStep(w, w', held, hs, consented)
  }

  /** What the digest cache needs: see DigestCache. */
  predicate CacheUndisturbed(w: World, w': World, a: Action) {
    a.Outside? ==> DigestCache.NoRacyOverlap(w.c, w'.c, a.a)
  }

  /** No rewrite falls on a held file while this holder hashes it.  A change that leaves the
      bytes alone may. */
  predicate HashUndisturbed(w: World, w': World, a: Action) {
    a.Outside? && a.a.Change? && OWN in w.c.jobs && a.a.id == w.c.jobs[OWN].key.stat.id ==>
      !DigestCache.Rewrites(w.c.disk, w'.c.disk, a.a.id)
  }

  predicate Undisturbed(w: World, w': World, a: Action) {
    CacheUndisturbed(w, w', a) && HashUndisturbed(w, w', a)
  }

  // ----- the invariant -----

  /** A stat old enough when the clock was read cannot be stamped again. */
  predicate Unrepeatable(d: Disk, taken: int, s: Stat) {
    Old(taken, s) ==> s.ctime < d.coarse
  }

  /** As long as the ctime is the old one, so are the bytes. */
  predicate StillHashed(d: Disk, taken: int, s: Stat, part: Part, h: Bytes -> int) {
    Old(taken, s) && s.id in d.files && d.files[s.id].ctime == s.ctime ==> Fresh(h, d.files[s.id]) == part
  }

  predicate StatsSound(d: Disk, held: seq<Held>, taken: int, stats: seq<Stat>) {
    && taken <= d.now && |stats| <= |held|
    && forall i :: 0 <= i < |stats| ==> stats[i].id == held[i].id && Unrepeatable(d, taken, stats[i])
  }

  predicate PartsSound(d: Disk, taken: int, stats: seq<Stat>, parts: seq<Part>, h: Bytes -> int) {
    && |parts| <= |stats|
    && forall i :: 0 <= i < |parts| ==> StillHashed(d, taken, stats[i], parts[i], h)
  }

  predicate HasSnapshot(w: World) {
    w.act.Holding? || w.act.Vouched? || w.act.Refused?
    || (w.act.Taking? && !w.act.hold) || (w.act.Hashing? && !w.act.hold)
  }

  predicate SnapshotSound(d: Disk, s: Snapshot, payload: int, held: seq<Held>, hs: Hashes) {
    && |s.parts| == |s.stats| == |held| && hs.combine(s.parts) == payload
    && StatsSound(d, held, s.taken, s.stats)
    && PartsSound(d, s.taken, s.stats, s.parts, hs.hash)
  }

  /** A stat equal to the snapshot's has shown the snapshot's bytes. */
  predicate SeenSound(w: World) {
    w.act.Taking? ==>
      && |w.act.seen| == |w.act.stats|
      && (HasSnapshot(w) && Settled(w.snapshot) ==>
            forall i :: 0 <= i < |w.act.stats| && i < |w.snapshot.stats| && i < |w.snapshot.parts| ==>
              w.act.stats[i] == w.snapshot.stats[i] ==> w.act.seen[i] == w.snapshot.parts[i])
  }

  /** What the holder has read of the file at hand is what the file holds. */
  predicate OwnSound(w: World, held: seq<Held>) {
    && (OWN in w.c.jobs <==> w.act.Hashing? && w.act.reading)
    && (w.act.Hashing? && w.act.reading ==>
          && |w.act.parts| < |held|
          && var job := w.c.jobs[OWN];
             && job.key.stat.id == held[|w.act.parts|].id && job.key.stat.id in w.c.disk.files
             && ReadSoFar(job, w.c.disk.files[job.key.stat.id].content))
  }

  predicate ReadSoFar(job: DigestCache.Job, content: Bytes) {
    && |job.bytes| <= |content| && job.bytes == content[..|job.bytes|]
    && (job.Checked? ==> job.bytes == content)
  }

  predicate ActSound(w: World, held: seq<Held>, hs: Hashes) {
    && (HasSnapshot(w) ==> SnapshotSound(w.c.disk, w.snapshot, w.payload, held, hs))
    && (w.act.Taking? || w.act.Hashing? ==> StatsSound(w.c.disk, held, w.act.taken, w.act.stats))
    && (w.act.Hashing? ==>
          |w.act.stats| == |held| && PartsSound(w.c.disk, w.act.taken, w.act.stats, w.act.parts, hs.hash))
    && SeenSound(w)
    && (w.act.Vouched? ==> |w.act.seen| == |held| && hs.combine(w.act.seen) == w.payload)
  }

  ghost predicate Inv(w: World, held: seq<Held>, hs: Hashes) {
    DigestCache.Inv(w.c, hs.hash) && OwnSound(w, held) && ActSound(w, held, hs)
  }

  // ----- every step keeps it -----

  lemma ChangeKeepsParts(d: Disk, d': Disk, id: FileId, held: seq<Held>, taken: int, stats: seq<Stat>, parts: seq<Part>, h: Bytes -> int)
    requires ClockSound(d) && Changed(d, d', id)
    requires StatsSound(d, held, taken, stats) && PartsSound(d, taken, stats, parts, h)
    ensures PartsSound(d', taken, stats, parts, h)
  {
    forall i | 0 <= i < |parts| ensures StillHashed(d', taken, stats[i], parts[i], h) {
      assert StillHashed(d, taken, stats[i], parts[i], h) && Unrepeatable(d, taken, stats[i]);
    }
  }

  lemma ChangeKeepsAct(w: World, w': World, id: FileId, held: seq<Held>, hs: Hashes)
    requires ClockSound(w.c.disk) && ActSound(w, held, hs)
    requires Changed(w.c.disk, w'.c.disk, id) && w' == w.(c := w'.c)
    ensures ActSound(w', held, hs)
  {
    if HasSnapshot(w) {
      ChangeKeepsParts(w.c.disk, w'.c.disk, id, held, w.snapshot.taken, w.snapshot.stats, w.snapshot.parts, hs.hash);
    }
    if w.act.Hashing? {
      ChangeKeepsParts(w.c.disk, w'.c.disk, id, held, w.act.taken, w.act.stats, w.act.parts, hs.hash);
    }
  }

  lemma TickKeepsAct(w: World, w': World, held: seq<Held>, hs: Hashes)
    requires ActSound(w, held, hs) && Ticked(w.c.disk, w'.c.disk) && w' == w.(c := w'.c)
    ensures ActSound(w', held, hs)
  {
  }

  lemma SameDiskKeepsAct(w: World, w': World, held: seq<Held>, hs: Hashes)
    requires ActSound(w, held, hs) && w'.c.disk == w.c.disk && w' == w.(c := w'.c)
    ensures ActSound(w', held, hs)
  {
  }

  /** Only a change touches files, only a tick the clock, and each call its own job. */
  lemma OutsideFrame(c: DigestCache.World, c': DigestCache.World, a: DigestCache.Action, h: Bytes -> int)
    requires DigestCache.Next(c, c', a, h)
    ensures !a.Tick? && !a.Change? ==> c'.disk == c.disk
    ensures a.Tick? ==> Ticked(c.disk, c'.disk)
    ensures a.Change? ==> Changed(c.disk, c'.disk, a.id)
    ensures Others(a) ==> (OWN in c'.jobs <==> OWN in c.jobs) && (OWN in c.jobs ==> c'.jobs[OWN] == c.jobs[OWN])
  {
  }

  lemma OutsideKeepsInv(w: World, w': World, a: DigestCache.Action, held: seq<Held>, hs: Hashes)
    requires Inv(w, held, hs) && Next(w, w', Outside(a), held, hs) && Undisturbed(w, w', Outside(a))
    ensures Inv(w', held, hs)
  {
    hide DigestCache.Inv, ActSound;
    DigestCache.NextKeepsInv(w.c, w'.c, a, hs.hash);
    OutsideFrame(w.c, w'.c, a, hs.hash);
    assert ClockSound(w.c.disk) by { ClockOf(w.c, hs.hash); }
    if a.Change? {
      ChangeKeepsAct(w, w', a.id, held, hs);
    } else if a.Tick? {
      TickKeepsAct(w, w', held, hs);
    } else {
      SameDiskKeepsAct(w, w', held, hs);
    }
  }

  lemma ClockOf(c: DigestCache.World, h: Bytes -> int)
    requires DigestCache.Inv(c, h)
    ensures ClockSound(c.disk)
  {
  }

  lemma StatKeepsInv(w: World, w': World, held: seq<Held>, hs: Hashes)
    requires Inv(w, held, hs) && StatStep(w, w', held, hs)
    ensures Inv(w', held, hs)
  {
    ClockOf(w.c, hs.hash);
    hide DigestCache.Inv;
    var n := |w.act.stats|;
    assert forall i :: 0 <= i < n ==> w'.act.stats[i] == w.act.stats[i] && w'.act.seen[i] == w.act.seen[i];
    if HasSnapshot(w) && Settled(w.snapshot) && w'.act.stats[n] == w.snapshot.stats[n] {
      assert StillHashed(w.c.disk, w.snapshot.taken, w.snapshot.stats[n], w.snapshot.parts[n], hs.hash);
    }
  }

  lemma CompareKeepsInv(w: World, w': World, held: seq<Held>, hs: Hashes)
    requires Inv(w, held, hs) && CompareStep(w, w', held)
    ensures Inv(w', held, hs)
  {
    hide DigestCache.Inv;
    if w'.act.Vouched? {
      assert w.act.seen == w.snapshot.parts;
    }
  }

  /** Every part that `fd_digest` gives is the true digest of the file as it is then: of
      what the cache answers because of the cache's invariant, of what was read because
      nothing fell on the file meanwhile. */
  lemma PartIsFresh(w: World, w': World, a: Action, held: seq<Held>, hs: Hashes)
    requires Inv(w, held, hs) && Next(w, w', a, held, hs) && (a.HashBegin? || a.HashEnd?)
    requires w'.act.parts != w.act.parts
    ensures w'.c.disk == w.c.disk && |w.act.parts| < |held| && held[|w.act.parts|].id in w.c.disk.files
    ensures w'.act == w.act.(parts := w.act.parts + [Fresh(hs.hash, w.c.disk.files[held[|w.act.parts|].id])],
                             reading := false)
  {
    if a.HashBegin? {
      var next := held[|w.act.parts|];
      var key := DigestCache.Key(next.path, Fstat(w.c.disk, next.id));
      assert DigestCache.EntrySound(w.c.disk, key, w.c.cache[key], hs.hash);
    }
  }

  lemma HashKeepsInv(w: World, w': World, a: Action, held: seq<Held>, hs: Hashes)
    requires Inv(w, held, hs) && Next(w, w', a, held, hs)
    requires a.HashBegin? || a.HashRead? || a.HashRecheck? || a.HashEnd?
    ensures Inv(w', held, hs)
  {
    HashKeepsCache(w, w', a, held, hs);
    HashKeepsOwn(w, w', a, held, hs);
    if w'.act.parts != w.act.parts {
      PartIsFresh(w, w', a, held, hs);
      hide DigestCache.Inv, DigestCache.Next;
    } else {
      assert w'.c.disk == w.c.disk;
    }
  }

  lemma HashKeepsCache(w: World, w': World, a: Action, held: seq<Held>, hs: Hashes)
    requires DigestCache.Inv(w.c, hs.hash) && Next(w, w', a, held, hs)
    requires a.HashBegin? || a.HashRead? || a.HashRecheck? || a.HashEnd?
    ensures DigestCache.Inv(w'.c, hs.hash) && w'.c.disk == w.c.disk
  {
    var own := match a
      case HashBegin => DigestCache.Begin(OWN, held[|w.act.parts|].path, held[|w.act.parts|].id)
      case HashRead(n) => DigestCache.ReadBlock(OWN, n)
      case HashRecheck => DigestCache.Recheck(OWN)
      case _ => DigestCache.End(OWN);
    OutsideFrame(w.c, w'.c, own, hs.hash);
    DigestCache.NextKeepsInv(w.c, w'.c, own, hs.hash);
  }

  lemma HashKeepsOwn(w: World, w': World, a: Action, held: seq<Held>, hs: Hashes)
    requires OwnSound(w, held) && Next(w, w', a, held, hs)
    requires a.HashBegin? || a.HashRead? || a.HashRecheck? || a.HashEnd?
    ensures OwnSound(w', held)
  {
    if a.HashRead? {
      var content := w.c.disk.files[w.c.jobs[OWN].key.stat.id].content;
      var n := |w.c.jobs[OWN].bytes|;
      assert content[..n] + content[n..n + a.n] == content[..n + a.n];
    }
  }

  lemma ConcludeKeepsInv(w: World, w': World, held: seq<Held>, hs: Hashes, consented: Option<int>)
    requires Inv(w, held, hs) && ConcludeStep(w, w', held, hs, consented)
    ensures Inv(w', held, hs)
  {
    hide DigestCache.Inv;
  }

  lemma NextKeepsInv(w: World, w': World, a: Action, held: seq<Held>, hs: Hashes)
    requires Inv(w, held, hs) && Next(w, w', a, held, hs) && Undisturbed(w, w', a)
    ensures Inv(w', held, hs)
  {
    match a
    case Outside(o) => OutsideKeepsInv(w, w', o, held, hs);
    case StartHold => StartKeepsInv(w, w', true, held, hs);
    case StartCheck => StartKeepsInv(w, w', false, held, hs);
    case StatNext => StatKeepsInv(w, w', held, hs);
    case Compare => CompareKeepsInv(w, w', held, hs);
    case Conclude(consented) => ConcludeKeepsInv(w, w', held, hs, consented);
    case _ => HashKeepsInv(w, w', a, held, hs);
  }

  lemma StartKeepsInv(w: World, w': World, hold: bool, held: seq<Held>, hs: Hashes)
    requires Inv(w, held, hs) && StartStep(w, w', hold)
    ensures Inv(w', held, hs)
  {
    hide DigestCache.Inv;
  }

  // ----- whole runs -----

  ghost predicate Run(ws: seq<World>, acts: seq<Action>, held: seq<Held>, hs: Hashes) {
    && |ws| == |acts| + 1
    && ClockSound(ws[0].c.disk) && ws[0].c.cache == map[] && ws[0].c.jobs == map[] && ws[0].act == Unheld
    && forall i :: 0 <= i < |acts| ==> Next(ws[i], ws[i + 1], acts[i], held, hs)
  }

  predicate UndisturbedTo(ws: seq<World>, acts: seq<Action>, n: nat)
    requires n <= |acts| < |ws|
  {
    forall k :: 0 <= k < n ==> Undisturbed(ws[k], ws[k + 1], acts[k])
  }

  lemma {:induction false} RunKeepsInv(ws: seq<World>, acts: seq<Action>, held: seq<Held>, hs: Hashes, n: nat)
    requires Run(ws, acts, held, hs) && n < |ws| && UndisturbedTo(ws, acts, n)
    ensures Inv(ws[n], held, hs)
  {
    hide Next, Undisturbed;
    if n > 0 {
      RunKeepsInv(ws, acts, held, hs, n - 1);
      assert Next(ws[n - 1], ws[n - 1 + 1], acts[n - 1], held, hs);
      NextKeepsInv(ws[n - 1], ws[n], acts[n - 1], held, hs);
    }
  }

  /** The index of the first state of the call that is in progress, or just over, at `n`. */
  function CallStart(acts: seq<Action>, n: nat): (m: nat)
    requires n <= |acts|
    ensures m <= n
  {
    if n == 0 || acts[n - 1].StartHold? || acts[n - 1].StartCheck? then n else CallStart(acts, n - 1)
  }

  /** File `i` had this digest at some moment of the call, no later than `n`. */
  ghost predicate Observed(ws: seq<World>, acts: seq<Action>, held: seq<Held>, hs: Hashes, n: nat, i: nat, part: Part)
    requires n <= |acts| < |ws| && i < |held|
  {
    exists k :: CallStart(acts, n) <= k <= n && Showed(ws[k], held[i].id, hs, part)
  }

  predicate Showed(w: World, id: FileId, hs: Hashes, part: Part) {
    id in w.c.disk.files && Fresh(hs.hash, w.c.disk.files[id]) == part
  }

  /** The digests a call has looked at so far. */
  function Looked(act: Activity): seq<Part> {
    match act
    case Taking(_, _, _, seen) => seen
    case Hashing(_, _, _, parts, _) => parts
    case Vouched(_, seen) => seen
    case _ => []
  }

  /** A step looks at one file at most, and as it is then. */
  lemma LookStep(w: World, w': World, a: Action, held: seq<Held>, hs: Hashes, i: nat)
    requires Inv(w, held, hs) && Next(w, w', a, held, hs)
    requires i < |Looked(w'.act)| && i < |held|
    ensures
      || (!a.StartHold? && !a.StartCheck? && i < |Looked(w.act)| && Looked(w'.act)[i] == Looked(w.act)[i])
      || (!a.StartHold? && !a.StartCheck? && Showed(w', held[i].id, hs, Looked(w'.act)[i]))
  {
    hide DigestCache.Inv, DigestCache.Next, ActSound, OwnSound;
    if (a.HashBegin? || a.HashEnd?) && w'.act.parts != w.act.parts { PartIsFresh(w, w', a, held, hs); }
    if a.StatNext? { SeenAsLong(w, held, hs); }
  }

  lemma SeenAsLong(w: World, held: seq<Held>, hs: Hashes)
    requires Inv(w, held, hs) && w.act.Taking?
    ensures |w.act.seen| == |w.act.stats|
  {
  }

  lemma {:induction false} LookedAtRealBytes(ws: seq<World>, acts: seq<Action>, held: seq<Held>, hs: Hashes, n: nat, i: nat)
    requires Run(ws, acts, held, hs) && n < |ws| && UndisturbedTo(ws, acts, n)
    requires i < |Looked(ws[n].act)| && i < |held|
    ensures Observed(ws, acts, held, hs, n, i, Looked(ws[n].act)[i])
  {
    hide Next, Undisturbed, Inv, Showed, Looked;
    assert Looked(Unheld) == [] by { NothingYet(); }
    RunKeepsInv(ws, acts, held, hs, n - 1);
    assert Next(ws[n - 1], ws[n - 1 + 1], acts[n - 1], held, hs);
    LookStep(ws[n - 1], ws[n], acts[n - 1], held, hs, i);
    if i < |Looked(ws[n - 1].act)| && Looked(ws[n].act)[i] == Looked(ws[n - 1].act)[i] {
      LookedAtRealBytes(ws, acts, held, hs, n - 1, i);
    }
  }

  lemma NothingYet()
    ensures Looked(Unheld) == []
  {
  }

  /** When `_require_unchanged` returns, each held file's bytes, at a moment inside
      that very call, hash to parts that combine to the payload recorded at `_hold`;
      equally when equal stats vouched, when the cache answered and when a re-hash did,
      and after any number of refreshed snapshots. */
  lemma VouchedMeansConsentedBytes(ws: seq<World>, acts: seq<Action>, held: seq<Held>, hs: Hashes, n: nat)
    requires Run(ws, acts, held, hs) && n < |ws| && UndisturbedTo(ws, acts, n) && ws[n].act.Vouched?
    ensures |ws[n].act.seen| == |held|
    ensures hs.combine(ws[n].act.seen) == ws[n].payload
    ensures forall i :: 0 <= i < |held| ==> Observed(ws, acts, held, hs, n, i, ws[n].act.seen[i])
  {
    RunKeepsInv(ws, acts, held, hs, n);
    forall i | 0 <= i < |held| ensures Observed(ws, acts, held, hs, n, i, ws[n].act.seen[i]) {
      LookedAtRealBytes(ws, acts, held, hs, n, i);
    }
  }

  /** Once held, the payload is never anything else, disturbed or not. */
  lemma {:induction false} PayloadIsFixed(ws: seq<World>, acts: seq<Action>, held: seq<Held>, hs: Hashes, m: nat, n: nat)
    requires Run(ws, acts, held, hs) && m <= n < |ws| && HasSnapshot(ws[m])
    ensures HasSnapshot(ws[n]) && ws[n].payload == ws[m].payload
  {
    hide DigestCache.Next;
    if m < n {
      PayloadIsFixed(ws, acts, held, hs, m, n - 1);
      assert Next(ws[n - 1], ws[n - 1 + 1], acts[n - 1], held, hs);
    }
  }

  /** A call that hashed all files decides by bytes that each of them really held during it:
      a hold succeeds exactly when they are the consented ones, or nobody says which, and a
      check exactly when they still give the payload. */
  lemma HashedCallsDecideByRealBytes(ws: seq<World>, acts: seq<Action>, held: seq<Held>, hs: Hashes, k: nat)
    requires Run(ws, acts, held, hs) && k < |acts| && UndisturbedTo(ws, acts, k) && acts[k].Conclude?
    ensures ws[k].act.Hashing? && |ws[k].act.parts| == |held|
    ensures forall i :: 0 <= i < |held| ==> Observed(ws, acts, held, hs, k, i, ws[k].act.parts[i])
    ensures var found, consented := hs.combine(ws[k].act.parts), acts[k].consented;
      if ws[k].act.hold then
        if consented == None || consented.value == found then ws[k + 1].act.Holding? && ws[k + 1].payload == found
        else ws[k + 1].act.Unheld?
      else
        ws[k + 1].payload == ws[k].payload && if found == ws[k].payload then ws[k + 1].act.Vouched? else ws[k + 1].act.Refused?
  {
    assert Next(ws[k], ws[k + 1], acts[k], held, hs);
    assert Looked(ws[k].act) == ws[k].act.parts;
    hide Next, Undisturbed;
    forall i | 0 <= i < |held| ensures Observed(ws, acts, held, hs, k, i, ws[k].act.parts[i]) {
      LookedAtRealBytes(ws, acts, held, hs, k, i);
    }
  }

  /** So what is held for a consented payload is vouched for by that payload ever after. */
  lemma VouchedIsWhatWasConsented(ws: seq<World>, acts: seq<Action>, held: seq<Held>, hs: Hashes, k: nat, n: nat)
    requires Run(ws, acts, held, hs) && k < n < |ws| && UndisturbedTo(ws, acts, n)
    requires acts[k].Conclude? && acts[k].consented.Some? && ws[k + 1].act.Holding? && ws[n].act.Vouched?
    ensures |ws[n].act.seen| == |held|
    ensures hs.combine(ws[n].act.seen) == acts[k].consented.value
    ensures forall i :: 0 <= i < |held| ==> Observed(ws, acts, held, hs, n, i, ws[n].act.seen[i])
  {
    hide Next, Undisturbed, Observed;
    assert UndisturbedTo(ws, acts, k);
    HashedCallsDecideByRealBytes(ws, acts, held, hs, k);
    PayloadIsFixed(ws, acts, held, hs, k + 1, n);
    VouchedMeansConsentedBytes(ws, acts, held, hs, n);
  }

  // ----- why no rewrite may fall on a file that is being hashed -----

  function PartOf(content: Bytes, hs: Hashes): Part {
    (|content|, hs.hash(content))
  }

  predicate StartsCall(a: Action) {
    a.StartHold? || a.StartCheck?
  }

  /** From step `from` on the cache is undisturbed, no call starts, nothing from outside
      comes after the first two steps, and file `i` never shows `part`. */
  ghost predicate GoesOn(ws: seq<World>, acts: seq<Action>, held: seq<Held>, hs: Hashes, from: nat, i: nat, part: Part)
    requires i < |held|
  {
    && Run(ws, acts, held, hs) && from <= |acts|
    && (forall k :: from <= k < |acts| ==> CacheUndisturbed(ws[k], ws[k + 1], acts[k]) && !StartsCall(acts[k]))
    && (forall k :: from + 2 <= k < |acts| ==> !acts[k].Outside?)
    && (forall k :: from <= k <= |acts| ==> !Showed(ws[k], held[i].id, hs, part))
  }

  lemma Go(ws: seq<World>, acts: seq<Action>, held: seq<Held>, hs: Hashes, from: nat, i: nat, part: Part, w: World, a: Action)
    returns (ws': seq<World>, acts': seq<Action>)
    requires i < |held| && GoesOn(ws, acts, held, hs, from, i, part)
    requires Next(ws[|acts|], w, a, held, hs) && CacheUndisturbed(ws[|acts|], w, a)
    requires !StartsCall(a) && (a.Outside? ==> |acts| < from + 2) && !Showed(w, held[i].id, hs, part)
    ensures GoesOn(ws', acts', held, hs, from, i, part) && ws' == ws + [w] && acts' == acts + [a]
  {
    hide Next, CacheUndisturbed, Showed;
    ws', acts' := ws + [w], acts + [a];
    forall k | 0 <= k < |acts'|
      ensures Next(ws'[k], ws'[k + 1], acts'[k], held, hs)
      ensures from <= k ==> CacheUndisturbed(ws'[k], ws'[k + 1], acts'[k])
    {
      if k < |acts| { assert ws'[k] == ws[k] && ws'[k + 1] == ws[k + 1] && acts'[k] == acts[k]; }
    }
  }

  /** The holder stands between two files, or reads one from a state in which the cache is
      sound. */
  ghost predicate Reads(w: World, h: Bytes -> int) {
    && w.act.Hashing? && w.act.reading && DigestCache.Inv(w.c, h)
    && OWN in w.c.jobs && w.c.jobs[OWN].Reading?
    && var id := w.c.jobs[OWN].key.stat.id;
       id in w.c.disk.files && |w.c.jobs[OWN].bytes| <= |w.c.disk.files[id].content|
  }

  ghost predicate Between(w: World, h: Bytes -> int) {
    w.act.Hashing? && !w.act.reading && DigestCache.Inv(w.c, h) && OWN !in w.c.jobs
  }

  /** What reading on will have read. */
  function WillRead(w: World): Bytes
    requires OWN in w.c.jobs && w.c.jobs[OWN].key.stat.id in w.c.disk.files
    requires |w.c.jobs[OWN].bytes| <= |w.c.disk.files[w.c.jobs[OWN].key.stat.id].content|
  {
    var bytes := w.c.jobs[OWN].bytes;
    bytes + w.c.disk.files[w.c.jobs[OWN].key.stat.id].content[|bytes|..]
  }

  lemma OneBlock(w: World, held: seq<Held>, hs: Hashes) returns (w': World, a: Action)
    requires Reads(w, hs.hash)
    requires var job := w.c.jobs[OWN]; |job.bytes| < |w.c.disk.files[job.key.stat.id].content|
    ensures a.HashRead? && Next(w, w', a, held, hs) && Reads(w', hs.hash)
    ensures w' == w.(c := w'.c) && w'.c.disk == w.c.disk && WillRead(w') == WillRead(w)
    ensures w'.c.jobs[OWN].key == w.c.jobs[OWN].key && |w.c.jobs[OWN].bytes| < |w'.c.jobs[OWN].bytes|
  {
    var job := w.c.jobs[OWN];
    var content, at := w.c.disk.files[job.key.stat.id].content, |job.bytes|;
    var n := DigestCache.Min(DigestCache.BLOCK, |content| - at);
    var longer := DigestCache.Reading(job.key, job.bytes + content[at..at + n]);
    w' := w.(c := w.c.(jobs := w.c.jobs[OWN := longer]));
    a := HashRead(n);
    HashKeepsCache(w, w', a, held, hs);
    hide DigestCache.Inv;
    assert content[at..at + n] + content[at + n..] == content[at..];
    assert longer.bytes + content[at + n..] == job.bytes + content[at..];
  }

  lemma Rechecks(w: World, held: seq<Held>, hs: Hashes) returns (w1: World, w2: World)
    requires Reads(w, hs.hash)
    requires var job := w.c.jobs[OWN]; |job.bytes| == |w.c.disk.files[job.key.stat.id].content|
    ensures Next(w, w1, HashRecheck, held, hs) && Next(w1, w2, HashEnd, held, hs) && w1.c.disk == w.c.disk
    ensures w2.c.disk == w.c.disk && Between(w2, hs.hash)
    ensures w2 == w.(c := w2.c, act := w.act.(parts := w.act.parts + [PartOf(w.c.jobs[OWN].bytes, hs)], reading := false))
  {
    var c, job := w.c, w.c.jobs[OWN];
    var checked := DigestCache.Checked(job.key, job.bytes, Fstat(c.disk, job.key.stat.id) == job.key.stat);
    w1 := w.(c := c.(jobs := c.jobs[OWN := checked]));
    HashKeepsCache(w, w1, HashRecheck, held, hs);
    var part := PartOf(job.bytes, hs);
    w2 := w.(c := DigestCache.World(c.disk, DigestCache.Remember(c.cache, job.key, part, checked.stable, c.disk.now),
                                    w1.c.jobs - {OWN}),
             act := w.act.(parts := w.act.parts + [part], reading := false));
    HashKeepsCache(w1, w2, HashEnd, held, hs);
  }

  /** Left alone, the holder reads its file to the end and takes the digest of what it has
      read. */
  lemma ReadsOut(ws: seq<World>, acts: seq<Action>, held: seq<Held>, hs: Hashes, from: nat, i: nat, part: Part)
    returns (ws': seq<World>, acts': seq<Action>)
    requires i < |held| && GoesOn(ws, acts, held, hs, from, i, part) && from + 2 <= |acts|
    requires Reads(ws[|acts|], hs.hash)
    ensures GoesOn(ws', acts', held, hs, from, i, part) && acts <= acts' && ws <= ws'
    ensures var w, w' := ws[|acts|], ws'[|acts'|];
      && Between(w', hs.hash) && w'.c.disk == w.c.disk
      && w' == w.(c := w'.c, act := w.act.(parts := w.act.parts + [PartOf(WillRead(w), hs)], reading := false))
  {
    var w := ws[|acts|];
    var key := w.c.jobs[OWN].key;
    var content := w.c.disk.files[key.stat.id].content;
    ws', acts' := ws, acts;
    var now := w;
    while |now.c.jobs[OWN].bytes| < |content|
      invariant GoesOn(ws', acts', held, hs, from, i, part) && acts <= acts' && ws <= ws' && ws'[|acts'|] == now
      invariant now == w.(c := now.c) && now.c.disk == w.c.disk && Reads(now, hs.hash) && now.c.jobs[OWN].key == key
      invariant WillRead(now) == WillRead(w)
      decreases |content| - |now.c.jobs[OWN].bytes|
    {
      hide Reads, Next, WillRead;
      var next, a := OneBlock(now, held, hs);
      ws', acts' := Go(ws', acts', held, hs, from, i, part, next, a);
      now := next;
      ReadsWithin(now, hs.hash);
    }
    ReadAll(now);
    var w1, w2 := Rechecks(now, held, hs);
    hide Next, Reads;
    ws', acts' := Go(ws', acts', held, hs, from, i, part, w1, HashRecheck);
    ws', acts' := Go(ws', acts', held, hs, from, i, part, w2, HashEnd);
  }

  lemma ReadAll(w: World)
    requires OWN in w.c.jobs && w.c.jobs[OWN].key.stat.id in w.c.disk.files
    requires |w.c.jobs[OWN].bytes| == |w.c.disk.files[w.c.jobs[OWN].key.stat.id].content|
    ensures WillRead(w) == w.c.jobs[OWN].bytes
  {
  }

  lemma ReadsWithin(w: World, h: Bytes -> int)
    requires Reads(w, h)
    ensures OWN in w.c.jobs && w.c.jobs[OWN].key.stat.id in w.c.disk.files
    ensures |w.c.jobs[OWN].bytes| <= |w.c.disk.files[w.c.jobs[OWN].key.stat.id].content|
  {
  }

  /** Left alone, `fd_digest` gives the true digest of the next file, cached or not. */
  lemma HashesNext(ws: seq<World>, acts: seq<Action>, held: seq<Held>, hs: Hashes, from: nat, i: nat, part: Part)
    returns (ws': seq<World>, acts': seq<Action>)
    requires i < |held| && GoesOn(ws, acts, held, hs, from, i, part) && from + 2 <= |acts|
    requires var w := ws[|acts|];
      Between(w, hs.hash) && |w.act.parts| < |held| && held[|w.act.parts|].id in w.c.disk.files
    ensures GoesOn(ws', acts', held, hs, from, i, part) && acts <= acts' && ws <= ws'
    ensures var w, w' := ws[|acts|], ws'[|acts'|];
      && Between(w', hs.hash) && w'.c.disk == w.c.disk
      && w' == w.(c := w'.c,
                  act := w.act.(parts := w.act.parts + [Fresh(hs.hash, w.c.disk.files[held[|w.act.parts|].id])]))
  {
    var w := ws[|acts|];
    var next := held[|w.act.parts|];
    var key := DigestCache.Key(next.path, Fstat(w.c.disk, next.id));
    var w1 := BeginsOn(w, held, hs);
    ws', acts' := Go(ws, acts, held, hs, from, i, part, w1, HashBegin);
    if key !in w.c.cache {
      hide Next, CacheUndisturbed, GoesOn;
      ws', acts' := ReadsOut(ws', acts', held, hs, from, i, part);
      assert [] + w.c.disk.files[next.id].content[0..] == w.c.disk.files[next.id].content;
    }
  }

  lemma BeginsOn(w: World, held: seq<Held>, hs: Hashes) returns (w': World)
    requires Between(w, hs.hash) && |w.act.parts| < |held| && held[|w.act.parts|].id in w.c.disk.files
    ensures Next(w, w', HashBegin, held, hs) && w'.c.disk == w.c.disk
    ensures var next := held[|w.act.parts|]; var key := DigestCache.Key(next.path, Fstat(w.c.disk, next.id));
      if key in w.c.cache then
        && Between(w', hs.hash)
        && w' == w.(act := w.act.(parts := w.act.parts + [Fresh(hs.hash, w.c.disk.files[next.id])]))
      else
        && Reads(w', hs.hash) && w'.c.jobs[OWN] == DigestCache.Reading(key, [])
        && w' == w.(c := w'.c, act := w.act.(reading := true))
  {
    var next := held[|w.act.parts|];
    var key := DigestCache.Key(next.path, Fstat(w.c.disk, next.id));
    if key in w.c.cache {
      assert DigestCache.EntrySound(w.c.disk, key, w.c.cache[key], hs.hash);
      w' := w.(act := w.act.(parts := w.act.parts + [w.c.cache[key]]));
    } else {
      w' := w.(c := w.c.(jobs := w.c.jobs[OWN := DigestCache.Reading(key, [])]), act := w.act.(reading := true));
    }
    HashKeepsCache(w, w', HashBegin, held, hs);
  }

  /** The files that are still to be hashed show what the snapshot says of them. */
  predicate RestAgrees(w: World, held: seq<Held>, hs: Hashes, from: nat) {
    && |w.snapshot.parts| == |held|
    && forall k :: from <= k < |held| ==> Showed(w, held[k].id, hs, w.snapshot.parts[k])
  }

  lemma HashesRest(ws: seq<World>, acts: seq<Action>, held: seq<Held>, hs: Hashes, from: nat, i: nat, part: Part)
    returns (ws': seq<World>, acts': seq<Action>)
    requires i < |held| && GoesOn(ws, acts, held, hs, from, i, part) && from + 2 <= |acts|
    requires var w := ws[|acts|];
      && Between(w, hs.hash) && |w.act.parts| <= |held| && RestAgrees(w, held, hs, |w.act.parts|)
      && w.act.parts == w.snapshot.parts[..|w.act.parts|]
    ensures GoesOn(ws', acts', held, hs, from, i, part) && acts <= acts' && ws <= ws'
    ensures var w, w' := ws[|acts|], ws'[|acts'|];
      && w' == w.(c := w'.c, act := w.act.(parts := w.snapshot.parts)) && w'.c.disk == w.c.disk
  {
    var w := ws[|acts|];
    ws', acts' := ws, acts;
    var now := w;
    while |now.act.parts| < |held|
      invariant GoesOn(ws', acts', held, hs, from, i, part) && acts <= acts' && ws <= ws' && ws'[|acts'|] == now
      invariant Between(now, hs.hash) && now.c.disk == w.c.disk && |now.act.parts| <= |held|
      invariant now == w.(c := now.c, act := w.act.(parts := w.snapshot.parts[..|now.act.parts|]))
      invariant |now.act.parts| >= |w.act.parts|
      decreases |held| - |now.act.parts|
    {
      hide GoesOn;
      var k := |now.act.parts|;
      assert Showed(w, held[k].id, hs, w.snapshot.parts[k]);
      ws', acts' := HashesNext(ws', acts', held, hs, from, i, part);
      assert w.snapshot.parts[..k] + [w.snapshot.parts[k]] == w.snapshot.parts[..k + 1];
      now := ws'[|acts'|];
    }
    assert w.snapshot.parts[..|held|] == w.snapshot.parts;
  }

  /** What is needed for a wrong answer: the check has read a proper, non-empty beginning of
      the file at hand, and it is that of `original`, the bytes that were consented to; all
      that was hashed before agrees with the snapshot, and so do the files that follow. */
  predicate HalfRead(w: World, held: seq<Held>, hs: Hashes, original: Bytes) {
    && w.act.Hashing? && !w.act.hold && w.act.reading && OWN in w.c.jobs && w.c.jobs[OWN].Reading?
    && var i := |w.act.parts|; var bytes := w.c.jobs[OWN].bytes;
       && i < |held| == |w.snapshot.parts| && w.act.parts == w.snapshot.parts[..i]
       && w.snapshot.parts[i] == PartOf(original, hs)
       && 0 < |bytes| < |original| && bytes == original[..|bytes|]
       && RestAgrees(w, held, hs, i + 1)
       && forall k :: i < k < |held| ==> held[k].id != held[i].id
  }

  /** The tick, and the rewrite: `content` under any mtime. */
  lemma TicksAndRewrites(w: World, held: seq<Held>, hs: Hashes, content: Bytes, mtime: int) returns (w1: World, w2: World)
    requires Inv(w, held, hs) && w.act.Hashing? && w.act.reading && w.c.jobs[OWN].Reading?
    requires |w.c.jobs[OWN].bytes| <= |content|
    ensures var tick, change := Outside(DigestCache.Tick), Outside(DigestCache.Change(w.c.jobs[OWN].key.stat.id));
      && Next(w, w1, tick, held, hs) && CacheUndisturbed(w, w1, tick)
      && Next(w1, w2, change, held, hs) && CacheUndisturbed(w1, w2, change)
    ensures w1 == w.(c := w1.c) && w1.c.disk.files == w.c.disk.files
    ensures w2 == w.(c := w2.c) && w2.c.jobs == w.c.jobs && Reads(w2, hs.hash)
    ensures var id := w.c.jobs[OWN].key.stat.id;
      && w2.c.disk.files.Keys == w.c.disk.files.Keys + {id} && w2.c.disk.files[id].content == content
      && forall x :: x in w.c.disk.files && x != id ==> w2.c.disk.files[x] == w.c.disk.files[x]
  {
    var id, later := w.c.jobs[OWN].key.stat.id, w.c.disk.now + 1;
    w1 := w.(c := w.c.(disk := w.c.disk.(now := later, coarse := later)));
    w2 := w1.(c := w1.c.(disk := w1.c.disk.(files := w1.c.disk.files[id := File(content, mtime, later)])));
    forall j | j in w1.c.jobs ensures w1.c.jobs[j].key.stat.ctime < w1.c.disk.coarse {
      assert DigestCache.JobSound(w.c.disk, w.c.jobs[j]);
    }
    DigestCache.NextKeepsInv(w.c, w1.c, DigestCache.Tick, hs.hash);
    DigestCache.NextKeepsInv(w1.c, w2.c, DigestCache.Change(id), hs.hash);
  }

  /** From every sound state in which a check has read such a beginning of a file that has
      not shown those bytes during the call, one rewrite of the file, with the end it ought
      to have behind some other beginning, leads to an answer that vouches for bytes the
      file never held while the check went on.  The cache is not disturbed. */
  lemma HalfReadFileVouches(ws: seq<World>, acts: seq<Action>, held: seq<Held>, hs: Hashes, original: Bytes, head: Bytes, mtime: int)
    returns (ws': seq<World>, acts': seq<Action>)
    requires Run(ws, acts, held, hs) && Inv(ws[|acts|], held, hs) && HalfRead(ws[|acts|], held, hs, original)
    requires !Observed(ws, acts, held, hs, |acts|, |ws[|acts|].act.parts|, PartOf(original, hs))
    requires var n := |ws[|acts|].c.jobs[OWN].bytes|;
      |head| == n && hs.hash(head + original[n..]) != hs.hash(original)
    ensures Run(ws', acts', held, hs) && ws <= ws' && acts <= acts'
    ensures |acts| + 2 <= |acts'| && acts'[|acts|] == Outside(DigestCache.Tick)
    ensures acts'[|acts| + 1] == Outside(DigestCache.Change(held[|ws[|acts|].act.parts|].id))
    ensures forall k :: |acts| + 2 <= k < |acts'| ==> !acts'[k].Outside?
    ensures forall k :: |acts| <= k < |acts'| ==> CacheUndisturbed(ws'[k], ws'[k + 1], acts'[k])
    ensures ws'[|acts'|].act.Vouched? && ws'[|acts'|].act.seen == ws[|acts|].snapshot.parts
    ensures !Observed(ws', acts', held, hs, |acts'|, |ws[|acts|].act.parts|, PartOf(original, hs))
  {
    var i, part := |ws[|acts|].act.parts|, PartOf(original, hs);
    ws', acts' := ReadsMixture(ws, acts, held, hs, original, head, mtime);
    ws', acts' := VouchesInTheEnd(ws', acts', held, hs, |acts|, i, part);
    hide Next, CacheUndisturbed;
    NotSeenBefore(ws, acts, ws', acts', held, hs, i, part);
  }

  lemma ReadsMixture(ws: seq<World>, acts: seq<Action>, held: seq<Held>, hs: Hashes, original: Bytes, head: Bytes, mtime: int)
    returns (ws': seq<World>, acts': seq<Action>)
    requires Run(ws, acts, held, hs) && Inv(ws[|acts|], held, hs) && HalfRead(ws[|acts|], held, hs, original)
    requires !Observed(ws, acts, held, hs, |acts|, |ws[|acts|].act.parts|, PartOf(original, hs))
    requires var n := |ws[|acts|].c.jobs[OWN].bytes|;
      |head| == n && hs.hash(head + original[n..]) != hs.hash(original)
    ensures var i := |ws[|acts|].act.parts|;
      && GoesOn(ws', acts', held, hs, |acts|, i, PartOf(original, hs))
      && acts + [Outside(DigestCache.Tick), Outside(DigestCache.Change(held[i].id))] <= acts' && ws <= ws'
    ensures var w, w' := ws[|acts|], ws'[|acts'|]; var k := |w.act.parts| + 1;
      && Between(w', hs.hash) && RestAgrees(w', held, hs, k)
      && w' == w.(c := w'.c, act := w.act.(parts := w.snapshot.parts[..k], reading := false))
  {
    var w := ws[|acts|];
    var i, n := |w.act.parts|, |w.c.jobs[OWN].bytes|;
    ws', acts' := RewritesIt(ws, acts, held, hs, original, head + original[n..], mtime);
    hide GoesOn, Next, CacheUndisturbed, Inv, Reads, Between, RestAgrees, Observed, Run, WillRead, PartOf;
    var before := ws'[|acts'|];
    MixtureIsOriginal(before, original, head);
    ws', acts' := ReadsOut(ws', acts', held, hs, |acts|, i, PartOf(original, hs));
    assert w.snapshot.parts[..i] + [w.snapshot.parts[i]] == w.snapshot.parts[..i + 1];
    StillAgrees(before, ws'[|acts'|], held, hs, i + 1);
  }

  lemma MixtureIsOriginal(w: World, original: Bytes, head: Bytes)
    requires OWN in w.c.jobs && w.c.jobs[OWN].key.stat.id in w.c.disk.files
    requires var bytes := w.c.jobs[OWN].bytes;
      && |head| == |bytes| <= |original| && bytes == original[..|bytes|]
      && w.c.disk.files[w.c.jobs[OWN].key.stat.id].content == head + original[|bytes|..]
    ensures WillRead(w) == original
  {
    var n := |head|;
    assert (head + original[n..])[n..] == original[n..];
    assert original[..n] + original[n..] == original;
  }

  lemma StillAgrees(w: World, w': World, held: seq<Held>, hs: Hashes, from: nat)
    requires RestAgrees(w, held, hs, from) && w'.c.disk == w.c.disk && w'.snapshot == w.snapshot
    ensures RestAgrees(w', held, hs, from)
  {
    forall k | from <= k < |held| ensures Showed(w', held[k].id, hs, w'.snapshot.parts[k]) {
      assert Showed(w, held[k].id, hs, w.snapshot.parts[k]);
    }
  }

  lemma RewritesIt(ws: seq<World>, acts: seq<Action>, held: seq<Held>, hs: Hashes, original: Bytes, content: Bytes, mtime: int)
    returns (ws': seq<World>, acts': seq<Action>)
    requires Run(ws, acts, held, hs) && Inv(ws[|acts|], held, hs) && HalfRead(ws[|acts|], held, hs, original)
    requires !Observed(ws, acts, held, hs, |acts|, |ws[|acts|].act.parts|, PartOf(original, hs))
    requires |ws[|acts|].c.jobs[OWN].bytes| <= |content| && hs.hash(content) != hs.hash(original)
    ensures var i := |ws[|acts|].act.parts|;
      && GoesOn(ws', acts', held, hs, |acts|, i, PartOf(original, hs))
      && acts' == acts + [Outside(DigestCache.Tick), Outside(DigestCache.Change(held[i].id))] && ws <= ws'
    ensures var w, w' := ws[|acts|], ws'[|acts'|]; var id := held[|w.act.parts|].id;
      && Reads(w', hs.hash) && w' == w.(c := w'.c) && w'.c.jobs == w.c.jobs && w.c.jobs[OWN].key.stat.id == id
      && w'.c.disk.files[id].content == content && RestAgrees(w', held, hs, |w.act.parts| + 1)
  {
    var w, from := ws[|acts|], |acts|;
    var i, part := |w.act.parts|, PartOf(original, hs);
    assert !Showed(w, held[i].id, hs, part);
    assert OwnSound(w, held);
    var w1, w2 := TicksAndRewrites(w, held, hs, content, mtime);
    hide Next, CacheUndisturbed, Inv, Reads;
    assert GoesOn(ws, acts, held, hs, from, i, part);
    ws', acts' := Go(ws, acts, held, hs, from, i, part, w1, Outside(DigestCache.Tick));
    ws', acts' := Go(ws', acts', held, hs, from, i, part, w2, Outside(DigestCache.Change(held[i].id)));
  }

  lemma VouchesInTheEnd(ws: seq<World>, acts: seq<Action>, held: seq<Held>, hs: Hashes, from: nat, i: nat, part: Part)
    returns (ws': seq<World>, acts': seq<Action>)
    requires i < |held| && GoesOn(ws, acts, held, hs, from, i, part) && from + 2 <= |acts|
    requires var w := ws[|acts|];
      && Between(w, hs.hash) && !w.act.hold && |w.act.parts| <= |held| && RestAgrees(w, held, hs, |w.act.parts|)
      && w.act.parts == w.snapshot.parts[..|w.act.parts|] && hs.combine(w.snapshot.parts) == w.payload
    ensures GoesOn(ws', acts', held, hs, from, i, part) && acts <= acts' && ws <= ws'
    ensures ws'[|acts'|].act == Vouched(ws[|acts|].act.taken, ws[|acts|].snapshot.parts)
  {
    ws', acts' := HashesRest(ws, acts, held, hs, from, i, part);
    hide GoesOn, Next, CacheUndisturbed;
    var w := Concludes(ws'[|acts'|], held, hs);
    assert CacheUndisturbed(ws'[|acts'|], w, Conclude(None)) by { NotOutside(ws'[|acts'|], w, Conclude(None)); }
    assert !Showed(ws'[|acts'|], held[i].id, hs, part) by { StillUnseen(ws', acts', held, hs, from, i, part); }
    ws', acts' := Go(ws', acts', held, hs, from, i, part, w, Conclude(None));
  }

  lemma NotOutside(w: World, w': World, a: Action)
    requires !a.Outside?
    ensures CacheUndisturbed(w, w', a)
  {
  }

  lemma StillUnseen(ws: seq<World>, acts: seq<Action>, held: seq<Held>, hs: Hashes, from: nat, i: nat, part: Part)
    requires i < |held| && GoesOn(ws, acts, held, hs, from, i, part)
    ensures !Showed(ws[|acts|], held[i].id, hs, part)
  {
  }

  lemma Concludes(w: World, held: seq<Held>, hs: Hashes) returns (w': World)
    requires w.act.Hashing? && !w.act.reading && !w.act.hold && |w.act.parts| == |held|
    requires hs.combine(w.act.parts) == w.payload
    ensures Next(w, w', Conclude(None), held, hs) && w'.c == w.c && w'.act == Vouched(w.act.taken, w.act.parts)
  {
    w' := w.(snapshot := Snapshot(w.act.taken, w.act.stats, w.act.parts), act := Vouched(w.act.taken, w.act.parts));
  }

  /** Not shown before `|acts|` in this call, nor after: not observed. */
  lemma NotSeenBefore(ws: seq<World>, acts: seq<Action>, ws': seq<World>, acts': seq<Action>, held: seq<Held>, hs: Hashes, i: nat, part: Part)
    requires |ws| == |acts| + 1 && ws <= ws' && acts <= acts' && i < |held|
    requires GoesOn(ws', acts', held, hs, |acts|, i, part)
    requires !Observed(ws, acts, held, hs, |acts|, i, part)
    ensures !Observed(ws', acts', held, hs, |acts'|, i, part)
  {
    hide Next, Showed, CacheUndisturbed;
    SameCall(acts, acts', |acts'|);
    forall k | CallStart(acts', |acts'|) <= k <= |acts'| ensures !Showed(ws'[k], held[i].id, hs, part) {
      if k < |acts| { assert ws'[k] == ws[k]; }
    }
  }

  lemma {:induction false} SameCall(acts: seq<Action>, acts': seq<Action>, n: nat)
    requires acts <= acts' && n <= |acts'|
    requires forall k :: |acts| <= k < |acts'| ==> !StartsCall(acts'[k])
    ensures CallStart(acts', n) == CallStart(acts, if n < |acts| then n else |acts|)
  {
    if n > 0 { SameCall(acts, acts', n - 1); }
  }

  // ----- such a state is reached -----

  /** A file held as `a + b` and rewritten as `a + c`, and once more as `x + b` between the
      reading of its two blocks: what is read is `a + b`.  In the plainest case `a` and `x`
      have `BLOCK` bytes. */
  datatype Blocks = Blocks(a: Bytes, b: Bytes, c: Bytes, x: Bytes)

  const ONE: seq<Held> := [Held("model", 7)]

  predicate Mixes(m: Blocks, hs: Hashes) {
    && 0 < |m.a| == |m.x| <= DigestCache.BLOCK && 0 < |m.b| == |m.c| <= DigestCache.BLOCK
    && hs.hash(m.a + m.c) != hs.hash(m.a + m.b) && hs.hash(m.x + m.b) != hs.hash(m.a + m.b)
  }

  function Files(content: Bytes, stamp: int): map<FileId, File> {
    map[7 := File(content, stamp, stamp)]
  }

  /** An undisturbed run. */
  ghost predicate Path(ws: seq<World>, acts: seq<Action>, hs: Hashes) {
    && Run(ws, acts, ONE, hs)
    && (forall k :: 0 <= k < |acts| ==> Undisturbed(ws[k], ws[k + 1], acts[k]))
  }

  lemma GoOn(ws: seq<World>, acts: seq<Action>, w: World, a: Action, hs: Hashes)
    returns (ws': seq<World>, acts': seq<Action>)
    requires Path(ws, acts, hs) && Next(ws[|acts|], w, a, ONE, hs) && Undisturbed(ws[|acts|], w, a)
    ensures Path(ws', acts', hs) && acts' == acts + [a] && ws' == ws + [w]
  {
    hide Next, Undisturbed;
    ws', acts' := ws + [w], acts + [a];
    forall i | 0 <= i < |acts'|
      ensures Next(ws'[i], ws'[i + 1], acts'[i], ONE, hs) && Undisturbed(ws'[i], ws'[i + 1], acts'[i])
    {
      if i < |acts| { assert ws'[i] == ws[i] && ws'[i + 1] == ws[i + 1]; }
    }
  }

  function Reading(stat: Stat, bytes: Bytes): map<DigestCache.JobId, DigestCache.Job> {
    map[OWN := DigestCache.Reading(DigestCache.Key("model", stat), bytes)]
  }

  /** A disk with the one file, an empty cache and nobody hashing. */
  function AtRest(content: Bytes, stamp: int): DigestCache.World {
    DigestCache.World(Disk(Files(content, stamp), stamp, stamp), map[], map[])
  }

  function FirstStat(m: Blocks): Stat {
    Stat(7, |m.a + m.b|, 0, 0)
  }

  /** The snapshot of `a + b` at time 0. */
  function FirstSnapshot(m: Blocks, hs: Hashes): Snapshot {
    Snapshot(0, [FirstStat(m)], [PartOf(m.a + m.b, hs)])
  }

  /** The file is held as `a + b` at time 0, and rewritten at once. */
  lemma HeldThenRewritten(m: Blocks, hs: Hashes) returns (ws: seq<World>, acts: seq<Action>)
    requires Mixes(m, hs)
    ensures Path(ws, acts, hs) && |acts| == 10
    ensures ws[10] == World(AtRest(m.a + m.c, 0), FirstSnapshot(m, hs), hs.combine([PartOf(m.a + m.b, hs)]), Holding)
  {
    var ab := m.a + m.b;
    var part, stat := (|ab|, hs.hash(ab)), Stat(7, |ab|, 0, 0);
    var c := DigestCache.World(Disk(Files(ab, 0), 0, 0), map[], map[]);
    ws, acts := AboutToHash(m, hs);
    ws, acts := BothBlocks(ws, acts, m, hs);
    PathLength(ws, acts, hs);
    hide Path;
    var w := World(c, Snapshot(0, [stat], [part]), hs.combine([part]), Holding);
    ws, acts := GoOn(ws, acts, w, Conclude(None), hs);
    w := w.(c := c.(disk := c.disk.(files := Files(m.a + m.c, 0))));
    assert Files(ab, 0)[7 := File(m.a + m.c, 0, 0)] == Files(m.a + m.c, 0);
    ws, acts := GoOn(ws, acts, w, Outside(DigestCache.Change(7)), hs);
  }

  lemma AboutToHash(m: Blocks, hs: Hashes) returns (ws: seq<World>, acts: seq<Action>)
    ensures Path(ws, acts, hs) && |acts| == 3
    ensures ws[3] == World(AtRest(m.a + m.b, 0), Snapshot(0, [], []), 0, Hashing(true, 0, [FirstStat(m)], [], false))
  {
    hide DigestCache.Next;
    var ab := m.a + m.b;
    var part, stat := (|ab|, hs.hash(ab)), Stat(7, |ab|, 0, 0);
    var w := World(DigestCache.World(Disk(Files(ab, 0), 0, 0), map[], map[]), Snapshot(0, [], []), 0, Unheld);
    ws, acts := [w], [];
    w := w.(act := Taking(true, 0, [], []));
    ws, acts := GoOn(ws, acts, w, StartHold, hs);
    w := w.(act := Taking(true, 0, [stat], [part]));
    assert [] + [stat] == [stat] && [] + [part] == [part];
    ws, acts := GoOn(ws, acts, w, StatNext, hs);
    w := w.(act := Hashing(true, 0, [stat], [], false));
    ws, acts := GoOn(ws, acts, w, Compare, hs);
  }

  /** `fd_digest` begins on the one file, which is not in the cache. */
  lemma BeginsToRead(ws: seq<World>, acts: seq<Action>, hs: Hashes) returns (ws': seq<World>, acts': seq<Action>)
    requires Path(ws, acts, hs)
    requires var w := ws[|acts|];
      && 7 in w.c.disk.files && w.c.cache == map[] && w.c.jobs == map[]
      && w.act.Hashing? && !w.act.reading && w.act.parts == []
    ensures Path(ws', acts', hs) && acts' == acts + [HashBegin]
    ensures var w := ws[|acts|];
      ws' == ws + [w.(c := w.c.(jobs := Reading(Fstat(w.c.disk, 7), [])), act := w.act.(reading := true))]
  {
    var w := ws[|acts|];
    var w' := w.(c := w.c.(jobs := Reading(Fstat(w.c.disk, 7), [])), act := w.act.(reading := true));
    assert map[][OWN := DigestCache.Reading(DigestCache.Key("model", Fstat(w.c.disk, 7)), [])] == w'.c.jobs;
    assert Next(w, w', HashBegin, ONE, hs);
    ws', acts' := GoOn(ws, acts, w', HashBegin, hs);
  }

  /** One more block. */
  lemma ReadsOn(ws: seq<World>, acts: seq<Action>, hs: Hashes, stat: Stat, old': Bytes, block: Bytes)
    returns (ws': seq<World>, acts': seq<Action>)
    requires Path(ws, acts, hs) && 0 < |block| <= DigestCache.BLOCK && stat.id == 7
    requires var w := ws[|acts|];
      && 7 in w.c.disk.files && w.c.jobs == Reading(stat, old') && w.act.Hashing? && w.act.reading
      && |old'| + |block| <= |w.c.disk.files[7].content|
      && w.c.disk.files[7].content[|old'|..|old'| + |block|] == block
    ensures Path(ws', acts', hs) && acts' == acts + [HashRead(|block|)]
    ensures ws' == ws + [ws[|acts|].(c := ws[|acts|].c.(jobs := Reading(stat, old' + block)))]
  {
    var w := ws[|acts|];
    var w' := w.(c := w.c.(jobs := Reading(stat, old' + block)));
    assert w.c.jobs[OWN := DigestCache.Reading(DigestCache.Key("model", stat), old' + block)] == w'.c.jobs;
    assert Next(w, w', HashRead(|block|), ONE, hs);
    ws', acts' := GoOn(ws, acts, w', HashRead(|block|), hs);
  }

  /** The end: the result is returned, and too fresh to be stored. */
  lemma EndsReading(ws: seq<World>, acts: seq<Action>, hs: Hashes, stat: Stat, bytes: Bytes)
    returns (ws': seq<World>, acts': seq<Action>)
    requires Path(ws, acts, hs) && stat.id == 7
    requires var w := ws[|acts|];
      && 7 in w.c.disk.files && w.c.jobs == Reading(stat, bytes) && w.act.Hashing? && w.act.reading
      && w.act.parts == [] && |bytes| >= |w.c.disk.files[7].content| && stat.ctime >= w.c.disk.now - RACY
    ensures Path(ws', acts', hs) && |acts'| == |acts| + 2 && acts'[..|acts|] == acts
    ensures var w := ws[|acts|];
      ws'[|acts| + 2] == w.(c := w.c.(jobs := map[]),
                            act := w.act.(parts := [(|bytes|, hs.hash(bytes))], reading := false))
  {
    var w := ws[|acts|];
    var job := DigestCache.Checked(DigestCache.Key("model", stat), bytes, Fstat(w.c.disk, 7) == stat);
    var w1 := w.(c := w.c.(jobs := map[OWN := job]));
    assert w.c.jobs[OWN := job] == w1.c.jobs;
    assert Next(w, w1, HashRecheck, ONE, hs);
    ws', acts' := GoOn(ws, acts, w1, HashRecheck, hs);
    var w2 := w.(c := w.c.(jobs := map[]), act := w.act.(parts := [(|bytes|, hs.hash(bytes))], reading := false));
    assert w1.c.jobs - {OWN} == w2.c.jobs;
    assert [] + [(|bytes|, hs.hash(bytes))] == w2.act.parts;
    assert Next(w1, w2, HashEnd, ONE, hs);
    ws', acts' := GoOn(ws', acts', w2, HashEnd, hs);
  }

  /** Undisturbed, both blocks are read and hashed. */
  lemma BothBlocks(ws: seq<World>, acts: seq<Action>, m: Blocks, hs: Hashes) returns (ws': seq<World>, acts': seq<Action>)
    requires Mixes(m, hs) && Path(ws, acts, hs) && |acts| == 3
    requires ws[3].c == AtRest(m.a + m.b, 0) && ws[3].act == Hashing(true, 0, [FirstStat(m)], [], false)
    ensures Path(ws', acts', hs) && |acts'| == 8
    ensures ws'[8] == ws[3].(act := ws[3].act.(parts := [PartOf(m.a + m.b, hs)]))
  {
    hide Path, Next, Undisturbed;
    var ab, stat := m.a + m.b, Stat(7, |m.a + m.b|, 0, 0);
    assert |ws| == 4 by { PathLength(ws, acts, hs); }
    ws', acts' := BeginsToRead(ws, acts, hs);
    assert ab[0..|m.a|] == m.a && ab[|m.a|..|m.a| + |m.b|] == m.b && [] + m.a == m.a;
    ws', acts' := ReadsOn(ws', acts', hs, stat, [], m.a);
    ws', acts' := ReadsOn(ws', acts', hs, stat, m.a, m.b);
    ws', acts' := EndsReading(ws', acts', hs, stat, ab);
  }

  lemma PathLength(ws: seq<World>, acts: seq<Action>, hs: Hashes)
    requires Path(ws, acts, hs)
    ensures |ws| == |acts| + 1
  {
  }

  lemma {:induction false} CallBegan(acts: seq<Action>, m: nat, n: nat)
    requires m < n <= |acts| && (acts[m].StartHold? || acts[m].StartCheck?)
    ensures m < CallStart(acts, n)
  {
    if m + 1 < n && !acts[n - 1].StartHold? && !acts[n - 1].StartCheck? { CallBegan(acts, m, n - 1); }
  }

  /** The check finds the same stats, but too fresh to be trusted. */
  lemma AboutToCheck(m: Blocks, hs: Hashes) returns (ws: seq<World>, acts: seq<Action>)
    requires Mixes(m, hs)
    ensures Path(ws, acts, hs) && |acts| == 13 && acts[10] == StartCheck
    ensures forall k :: 10 <= k <= 13 ==> ws[k].c == AtRest(m.a + m.c, 0)
    ensures ws[13] == World(AtRest(m.a + m.c, 0), FirstSnapshot(m, hs), hs.combine([PartOf(m.a + m.b, hs)]),
                            Hashing(false, 0, [FirstStat(m)], [], false))
  {
    ws, acts := HeldThenRewritten(m, hs);
    PathLength(ws, acts, hs);
    hide DigestCache.Next, Path;
    var ac, stat := m.a + m.c, Stat(7, |m.a + m.b|, 0, 0);
    var w := ws[10];
    w := w.(act := Taking(false, 0, [], []));
    ws, acts := GoOn(ws, acts, w, StartCheck, hs);
    w := w.(act := Taking(false, 0, [stat], [(|ac|, hs.hash(ac))]));
    assert [] + [stat] == [stat] && [] + [(|ac|, hs.hash(ac))] == [(|ac|, hs.hash(ac))];
    ws, acts := GoOn(ws, acts, w, StatNext, hs);
    w := w.(act := Hashing(false, 0, [stat], [], false));
    assert w.snapshot.stats[0] == stat;
    ws, acts := GoOn(ws, acts, w, Compare, hs);
  }

  /** Reached from the start without disturbance; so there is a run in which only one
      rewrite falls on a file while it is hashed, the cache is undisturbed, the check
      vouches, and at no moment of the check did the file have the bytes that were consented
      to. */
  lemma MixedReadVouches(m: Blocks, hs: Hashes) returns (ws: seq<World>, acts: seq<Action>)
    requires Mixes(m, hs)
    ensures Run(ws, acts, ONE, hs) && forall k :: 0 <= k < |acts| ==> CacheUndisturbed(ws[k], ws[k + 1], acts[k])
    ensures ws[|acts|].act.Vouched? && ws[|acts|].act.seen == [PartOf(m.a + m.b, hs)]
    ensures !Observed(ws, acts, ONE, hs, |acts|, 0, PartOf(m.a + m.b, hs))
  {
    var ab := m.a + m.b;
    ws, acts := OneBlockRead(m, hs);
    var half, steps := ws, acts;
    assert m.x + ab[|m.a|..] == m.x + m.b;
    ws, acts := HalfReadFileVouches(ws, acts, ONE, hs, ab, m.x, 0);
    hide Next;
    forall k | 0 <= k < |acts| ensures CacheUndisturbed(ws[k], ws[k + 1], acts[k]) {
      if k < |steps| { assert ws[k] == half[k] && ws[k + 1] == half[k + 1] && acts[k] == steps[k]; }
    }
  }

  lemma OneBlockRead(m: Blocks, hs: Hashes) returns (ws: seq<World>, acts: seq<Action>)
    requires Mixes(m, hs)
    ensures Path(ws, acts, hs) && |acts| == 15 && Inv(ws[15], ONE, hs) && HalfRead(ws[15], ONE, hs, m.a + m.b)
    ensures ws[15].act.parts == [] && ws[15].c.jobs[OWN].bytes == m.a
    ensures ws[15].snapshot.parts == [PartOf(m.a + m.b, hs)]
    ensures !Observed(ws, acts, ONE, hs, 15, 0, PartOf(m.a + m.b, hs))
  {
    ws, acts := AboutToCheck(m, hs);
    PathLength(ws, acts, hs);
    assert (m.a + m.c)[0..|m.a|] == m.a && [] + m.a == m.a;
    hide Path;
    ws, acts := BeginsToRead(ws, acts, hs);
    ws, acts := ReadsOn(ws, acts, hs, FirstStat(m), [], m.a);
    PathIsSound(ws, acts, hs);
    assert (m.a + m.b)[..|m.a|] == m.a;
    assert forall k :: 10 <= k <= 15 ==> ws[k].c.disk == AtRest(m.a + m.c, 0).disk;
    hide Next, Undisturbed, Inv;
    CallBegan(acts, 10, 15);
    forall k | CallStart(acts, 15) <= k <= 15 ensures !Showed(ws[k], 7, hs, PartOf(m.a + m.b, hs)) {
      assert ws[k].c.disk == AtRest(m.a + m.c, 0).disk;
    }
  }

  lemma PathIsSound(ws: seq<World>, acts: seq<Action>, hs: Hashes)
    requires Path(ws, acts, hs)
    ensures Inv(ws[|acts|], ONE, hs)
  {
    RunKeepsInv(ws, acts, ONE, hs, |acts|);
  }

  // ----- the object, when nothing interferes with a call -----

  function StatsNow(d: Disk, held: seq<Held>): seq<Stat>
    requires HoldsFiles(d, held)
  {
    seq(|held|, i requires 0 <= i < |held| => Fstat(d, held[i].id))
  }

  function PartsNow(d: Disk, held: seq<Held>, h: Bytes -> int): seq<Part>
    requires HoldsFiles(d, held)
  {
    seq(|held|, i requires 0 <= i < |held| => Fresh(h, d.files[held[i].id]))
  }

  class HeldModel {
    const held: seq<Held>
    const hs: Hashes
    /** Shared with whoever else computes digests. */
    const digests: DigestCache.Digests
    var stats: seq<Stat>
    var statsTaken: int
    var payload: int
    ghost var parts: seq<Part>

    ghost predicate CacheIsSound(d: Disk)
      reads digests
    {
      HoldsFiles(d, held) && ClockSound(d) && DigestCache.CacheSound(d, digests.digests, hs.hash)
    }

    /** The snapshot still means what it meant. */
    ghost predicate Sound(d: Disk)
      reads this, digests
    {
      CacheIsSound(d) && SnapshotSound(d, Snapshot(statsTaken, stats, parts), payload, held, hs)
    }

    constructor (held: seq<Held>, hs: Hashes, digests: DigestCache.Digests)
      ensures this.held == held && this.hs == hs && this.digests == digests
    {
      this.held, this.hs, this.digests := held, hs, digests;
      stats, statsTaken, payload, parts := [], 0, 0, [];
    }

    method HeldStats(d: Disk) returns (found: seq<Stat>)
      requires HoldsFiles(d, held)
      ensures found == StatsNow(d, held)
    {
      found := [];
      for i := 0 to |held|
        invariant found == StatsNow(d, held)[..i]
      {
        found := found + [Fstat(d, held[i].id)];
      }
    }

    /** `payload_digest_of`: whatever the cache answers, the digest is that of the bytes. */
    method PayloadDigest(d: Disk) returns (found: int)
      requires CacheIsSound(d)
      modifies digests
      ensures CacheIsSound(d) && found == hs.combine(PartsNow(d, held, hs.hash))
    {
      var hashed: seq<Part> := [];
      for i := 0 to |held|
        invariant CacheIsSound(d) && hashed == PartsNow(d, held, hs.hash)[..i]
      {
        var part := digests.FdDigest(held[i].path, d, held[i].id, hs.hash);
        hashed := hashed + [part];
      }
      assert hashed == PartsNow(d, held, hs.hash);
      found := hs.combine(hashed);
    }

    /** `_hold`: refused exactly when consent was given for other bytes. */
    method Hold(d: Disk, consented: Option<int>) returns (ok: bool)
      requires CacheIsSound(d)
      modifies this, digests
      ensures payload == hs.combine(PartsNow(d, held, hs.hash)) && Sound(d)
      ensures ok <==> consented == None || consented.value == payload
    {
      statsTaken := d.now;
      stats := HeldStats(d);
      payload := PayloadDigest(d);
      parts := PartsNow(d, held, hs.hash);
      ok := consented == None || payload == consented.value;
    }

    /** `_require_unchanged`: it accepts exactly the consented bytes, whatever else
        about the files has changed. */
    method RequireUnchanged(d: Disk) returns (ok: bool)
      requires Sound(d)
      modifies this, digests
      ensures Sound(d) && payload == old(payload)
      ensures ok <==> hs.combine(PartsNow(d, held, hs.hash)) == payload
    {
      var found := HeldStats(d);
      if found == stats && Settled(Snapshot(statsTaken, stats, [])) {
        VouchedStats(d);
        return true;
      }
      var digest := PayloadDigest(d);
      ok := digest == payload;
      if ok {
        stats, statsTaken := found, d.now;
        parts := PartsNow(d, held, hs.hash);
      }
    }

    /** Between calls the files may change and time may pass. */
    lemma DiskMoves(d: Disk, d': Disk, id: FileId)
      requires Sound(d) && (Changed(d, d', id) || Ticked(d, d'))
      ensures Sound(d')
    {
      if Changed(d, d', id) {
        ChangeKeepsParts(d, d', id, held, statsTaken, stats, parts, hs.hash);
        DigestCache.ChangeKeepsCache(d, d', id, digests.digests, hs.hash);
      }
    }

    /** Equal and settled stats mean equal bytes. */
    lemma VouchedStats(d: Disk)
      requires Sound(d) && stats == StatsNow(d, held) && Settled(Snapshot(statsTaken, stats, []))
      ensures parts == PartsNow(d, held, hs.hash)
    {
      forall i | 0 <= i < |held| ensures parts[i] == PartsNow(d, held, hs.hash)[i] {
        assert StillHashed(d, statsTaken, stats[i], parts[i], hs.hash);
        assert Old(statsTaken, stats[i]);
      }
    }
  }
}
