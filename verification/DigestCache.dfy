/** The consent digest cache: `fd_digest` and `_DIGESTS`, run by any number of
    threads while files change underneath.
  */
module DigestCache {
  import opened Basics
  import opened Disk

  type JobId = nat

  datatype Key = Key(path: string, stat: Stat)

  type Cache = map<Key, (nat, int)>

  const BLOCK := 1024 * 1024

  /** A call of `fd_digest` that missed the cache: first reading, then, once the
      file was read to its end and stat-ed again, about to look at the clock. */
  datatype Job =
    | Reading(key: Key, bytes: Bytes)
    | Checked(key: Key, bytes: Bytes, stable: bool)

  datatype World = World(disk: Disk, cache: Cache, jobs: map<JobId, Job>)

  /** The storing rule, at the clock reading that ends the call. */
  function Remember(c: Cache, key: Key, result: (nat, int), stable: bool, now: int): Cache {
    var settled := now - RACY;
    if stable && key.stat.ctime < settled && key.stat.mtime < settled then c[key := result] else c
  }

  datatype Action =
    | Tick
    | Change(id: FileId)
    | Begin(j: JobId, path: string, id: FileId)
    | ReadBlock(j: JobId, n: nat)
    | Recheck(j: JobId)
    | End(j: JobId)

  predicate BeginStep(w: World, w': World, j: JobId, path: string, id: FileId) {
    && j !in w.jobs && id in w.disk.files
    && var key := Key(path, Fstat(w.disk, id));
       w' == if key in w.cache then w else w.(jobs := w.jobs[j := Reading(key, [])])
  }

  /** One pread at the current offset: some bytes, as many as the block allows. */
  predicate ReadStep(w: World, w': World, j: JobId, n: nat) {
    && j in w.jobs && w.jobs[j].Reading? && w.jobs[j].key.stat.id in w.disk.files
    && var bytes := w.jobs[j].bytes;
       var content := w.disk.files[w.jobs[j].key.stat.id].content;
       && 0 < n <= BLOCK && |bytes| + n <= |content|
       && w' == w.(jobs := w.jobs[j := Reading(w.jobs[j].key, bytes + content[|bytes|..|bytes| + n])])
  }

  /** An empty pread, then the second fstat. */
  predicate RecheckStep(w: World, w': World, j: JobId) {
    && j in w.jobs && w.jobs[j].Reading? && w.jobs[j].key.stat.id in w.disk.files
    && var key, bytes := w.jobs[j].key, w.jobs[j].bytes;
       && |bytes| >= |w.disk.files[key.stat.id].content|
       && w' == w.(jobs := w.jobs[j := Checked(key, bytes, Fstat(w.disk, key.stat.id) == key.stat)])
  }

  predicate EndStep(w: World, w': World, j: JobId, h: Bytes -> int) {
    && j in w.jobs && w.jobs[j].Checked?
    && var job := w.jobs[j];
       w' == w.(cache := Remember(w.cache, job.key, (|job.bytes|, h(job.bytes)), job.stable, w.disk.now),
                jobs := w.jobs - {j})
  }

  predicate Next(w: World, w': World, a: Action, h: Bytes -> int) {
    match a
    case Tick => Ticked(w.disk, w'.disk) && w' == w.(disk := w'.disk)
    case Change(id) => Changed(w.disk, w'.disk, id) && w' == w.(disk := w'.disk)
    case Begin(j, path, id) => BeginStep(w, w', j, path, id)
    case ReadBlock(j, n) => ReadStep(w, w', j, n)
    case Recheck(j) => RecheckStep(w, w', j)
    case End(j) => EndStep(w, w', j, h)
  }

  /** A change to what the file holds.  An unlink, a replacement of the path, a chmod or a
      set mtime is none. */
  predicate Rewrites(d: Disk, d': Disk, id: FileId) {
    !(id in d.files && id in d'.files && d'.files[id].content == d.files[id].content)
  }

  /** No rewrite falls on a file while it is being hashed, in the very tick that its
      ctime shows.  (Every other overlap is harmless.) */
  predicate NoRacyOverlap(w: World, w': World, a: Action) {
    a.Change? && Rewrites(w.disk, w'.disk, a.id) ==>
      forall j :: j in w.jobs && w.jobs[j].key.stat.id == a.id ==> w.disk.coarse != w.jobs[j].key.stat.ctime
  }

  // ----- the invariant -----

  predicate Matches(d: Disk, key: Key) {
    key.stat.id in d.files && Fstat(d, key.stat.id) == key.stat
  }

  ghost predicate EntrySound(d: Disk, key: Key, entry: (nat, int), h: Bytes -> int) {
    && key.stat.ctime < d.coarse
    && (Matches(d, key) ==> entry == Fresh(h, d.files[key.stat.id]))
  }

  ghost predicate CacheSound(d: Disk, c: Cache, h: Bytes -> int) {
    forall key :: key in c ==> EntrySound(d, key, c[key], h)
  }

  predicate JobSound(d: Disk, job: Job) {
    && job.key.stat.ctime <= d.coarse
    && (job.key.stat.id in d.files ==> job.key.stat.ctime <= d.files[job.key.stat.id].ctime)
    && (job.key.stat.id in d.files && d.files[job.key.stat.id].ctime == job.key.stat.ctime ==>
          var content := d.files[job.key.stat.id].content;
          && |job.bytes| <= |content| && job.bytes == content[..|job.bytes|]
          && (job.Checked? ==> job.bytes == content))
  }

  ghost predicate Inv(w: World, h: Bytes -> int) {
    && ClockSound(w.disk)
    && CacheSound(w.disk, w.cache, h)
    && forall j :: j in w.jobs ==> JobSound(w.disk, w.jobs[j])
  }

  /** Storing an entry under the racy rule: any later change is stamped with a
      newer ctime than the key's. */
  lemma RememberIsSound(d: Disk, c: Cache, key: Key, bytes: Bytes, stable: bool, h: Bytes -> int)
    requires ClockSound(d) && CacheSound(d, c, h)
    requires JobSound(d, Checked(key, bytes, stable))
    ensures CacheSound(d, Remember(c, key, (|bytes|, h(bytes)), stable, d.now), h)
  {
  }

  lemma ChangeKeepsCache(d: Disk, d': Disk, id: FileId, c: Cache, h: Bytes -> int)
    requires ClockSound(d) && CacheSound(d, c, h) && Changed(d, d', id)
    ensures CacheSound(d', c, h)
  {
    forall key | key in c ensures EntrySound(d', key, c[key], h) {
      assert EntrySound(d, key, c[key], h);
      if key.stat.id != id && Matches(d', key) {
        assert Matches(d, key);
      }
    }
  }

  lemma NextKeepsInv(w: World, w': World, a: Action, h: Bytes -> int)
    requires Inv(w, h) && Next(w, w', a, h) && NoRacyOverlap(w, w', a)
    ensures Inv(w', h)
  {
    match a
    case Tick =>
      forall key | key in w.cache ensures EntrySound(w'.disk, key, w.cache[key], h) {
        assert EntrySound(w.disk, key, w.cache[key], h);
      }
    case Change(id) =>
      ChangeKeepsCache(w.disk, w'.disk, id, w.cache, h);
    case Begin(j, path, id) =>
    case ReadBlock(j, n) =>
    case Recheck(j) =>
    case End(j) =>
      var job := w.jobs[j];
      RememberIsSound(w.disk, w.cache, job.key, job.bytes, job.stable, h);
  }

  // ----- whole runs -----

  predicate Run(ws: seq<World>, acts: seq<Action>, h: Bytes -> int) {
    && |ws| == |acts| + 1
    && ClockSound(ws[0].disk) && ws[0].cache == map[] && ws[0].jobs == map[]
    && forall i :: 0 <= i < |acts| ==> Next(ws[i], ws[i + 1], acts[i], h)
  }

  lemma {:induction false} RunKeepsInv(ws: seq<World>, acts: seq<Action>, h: Bytes -> int, i: nat)
    requires Run(ws, acts, h) && i < |ws|
    requires forall k :: 0 <= k < i ==> NoRacyOverlap(ws[k], ws[k + 1], acts[k])
    ensures Inv(ws[i], h)
  {
    if i > 0 {
      RunKeepsInv(ws, acts, h, i - 1);
      NextKeepsInv(ws[i - 1], ws[i], acts[i - 1], h);
    }
  }

  /** At every moment of every run, whatever `fd_digest` would answer from the cache
      for a file is what hashing that file afresh would give, for whichever path
      label it is asked under. */
  lemma HitEqualsFreshHash(ws: seq<World>, acts: seq<Action>, h: Bytes -> int, i: nat, path: string, id: FileId)
    requires Run(ws, acts, h) && i < |ws|
    requires forall k :: 0 <= k < i ==> NoRacyOverlap(ws[k], ws[k + 1], acts[k])
    requires id in ws[i].disk.files && Key(path, Fstat(ws[i].disk, id)) in ws[i].cache
    ensures ws[i].cache[Key(path, Fstat(ws[i].disk, id))] == Fresh(h, ws[i].disk.files[id])
  {
    RunKeepsInv(ws, acts, h, i);
  }

  // ----- why the hypothesis cannot be dropped -----

  /** The cache would answer for the file with something else than its hash. */
  predicate Poisoned(w: World, path: string, id: FileId, h: Bytes -> int) {
    && id in w.disk.files
    && var key := Key(path, Fstat(w.disk, id));
       key in w.cache && w.cache[key] != Fresh(h, w.disk.files[id])
  }

  predicate Leads(ws: seq<World>, acts: seq<Action>, h: Bytes -> int) {
    |ws| == |acts| + 1 && forall i :: 0 <= i < |acts| ==> Next(ws[i], ws[i + 1], acts[i], h)
  }

  lemma LeadsOn(ws: seq<World>, acts: seq<Action>, w: World, a: Action, h: Bytes -> int)
    requires Leads(ws, acts, h) && Next(ws[|acts|], w, a, h)
    ensures Leads(ws + [w], acts + [a], h)
  {
    hide Next;
    var ws', acts' := ws + [w], acts + [a];
    forall i | 0 <= i < |acts'| ensures Next(ws'[i], ws'[i + 1], acts'[i], h) {
      if i < |acts| { assert ws'[i] == ws[i] && ws'[i + 1] == ws[i + 1]; }
    }
  }

  /** A call that reads a file which still shows its key. */
  predicate Reads(w: World, j: JobId) {
    && j in w.jobs && w.jobs[j].Reading?
    && w.jobs[j].key.stat.id in w.disk.files && Fstat(w.disk, w.jobs[j].key.stat.id) == w.jobs[j].key.stat
  }

  /** Left alone, it reads the file to its end. */
  lemma ReadsToTheEnd(w: World, j: JobId, h: Bytes -> int) returns (ws: seq<World>, acts: seq<Action>)
    requires Inv(w, h) && Reads(w, j)
    ensures Leads(ws, acts, h) && ws[0] == w
    ensures var key := w.jobs[j].key;
      ws[|acts|] == w.(jobs := w.jobs[j := Reading(key, w.disk.files[key.stat.id].content)])
  {
    var key, bytes := w.jobs[j].key, w.jobs[j].bytes;
    var content := w.disk.files[key.stat.id].content;
    assert JobSound(w.disk, w.jobs[j]);
    ws, acts := [w], [];
    var n := |bytes|;
    while n < |content|
      invariant |bytes| <= n <= |content| && Leads(ws, acts, h) && ws[0] == w
      invariant ws[|acts|] == w.(jobs := w.jobs[j := Reading(key, content[..n])])
    {
      var m := Min(BLOCK, |content| - n);
      var w' := w.(jobs := w.jobs[j := Reading(key, content[..n + m])]);
      assert content[..n] + content[n..n + m] == content[..n + m];
      assert w.jobs[j := Reading(key, content[..n])][j := Reading(key, content[..n + m])] == w'.jobs;
      LeadsOn(ws, acts, w', ReadBlock(j, m), h);
      ws, acts := ws + [w'], acts + [ReadBlock(j, m)];
      n := n + m;
    }
    assert content[..|content|] == content;
  }

  function Later(stat: Stat, now: int): int {
    var last := if stat.mtime < stat.ctime then stat.ctime else stat.mtime;
    if now <= last + RACY then last + RACY + 1 else now
  }

  /** From every sound state in which a call reads a file that still shows its key, in the
      very tick of its ctime, the cache can be made wrong: by one write of the same size
      that another digest belongs to. */
  lemma RacyReaderPoisonsCache(w: World, j: JobId, other: Bytes, h: Bytes -> int)
    returns (ws: seq<World>, acts: seq<Action>)
    requires Inv(w, h) && Reads(w, j) && w.jobs[j].key.stat.ctime == w.disk.coarse
    requires |other| == w.jobs[j].key.stat.size
    requires h(other) != h(w.disk.files[w.jobs[j].key.stat.id].content)
    ensures Leads(ws, acts, h) && ws[0] == w
    ensures Poisoned(ws[|acts|], w.jobs[j].key.path, w.jobs[j].key.stat.id, h)
  {
    var key := w.jobs[j].key;
    var id := key.stat.id;
    var content := w.disk.files[id].content;
    ws, acts := ReadsToTheEnd(w, j, h);
    var read := ws[|acts|];

    var written := read.(disk := read.disk.(files := read.disk.files[id := File(other, key.stat.mtime, key.stat.ctime)]));
    LeadsOn(ws, acts, written, Change(id), h);
    ws, acts := ws + [written], acts + [Change(id)];

    var rechecked := written.(jobs := written.jobs[j := Checked(key, content, true)]);
    LeadsOn(ws, acts, rechecked, Recheck(j), h);
    ws, acts := ws + [rechecked], acts + [Recheck(j)];

    var later := Later(key.stat, rechecked.disk.now);
    var waited := rechecked.(disk := rechecked.disk.(now := later, coarse := later));
    LeadsOn(ws, acts, waited, Tick, h);
    ws, acts := ws + [waited], acts + [Tick];

    var stored := waited.(cache := waited.cache[key := (|content|, h(content))], jobs := waited.jobs - {j});
    LeadsOn(ws, acts, stored, End(j), h);
    ws, acts := ws + [stored], acts + [End(j)];
  }

  /** So for any two equally long contents that the digest tells apart there is a run
      that leaves the wrong digest in the cache. */
  lemma RacyOverlapPoisonsCache(a: Bytes, b: Bytes, path: string, id: FileId, h: Bytes -> int)
    returns (ws: seq<World>, acts: seq<Action>)
    requires |a| == |b| && h(a) != h(b)
    ensures Run(ws, acts, h) && Poisoned(ws[|acts|], path, id, h)
  {
    var start := World(Disk(map[id := File(a, 0, 0)], 0, 0), map[], map[]);
    var key := Key(path, Fstat(start.disk, id));
    var begun := start.(jobs := map[0 := Reading(key, [])]);
    assert Next(start, begun, Begin(0, path, id), h);
    assert Inv(begun, h);
    var more, steps := RacyReaderPoisonsCache(begun, 0, b, h);
    ws, acts := [start] + more, [Begin(0, path, id)] + steps;
    hide Next;
    forall i | 0 <= i < |acts| ensures Next(ws[i], ws[i + 1], acts[i], h) {
      if i > 0 { assert ws[i] == more[i - 1] && ws[i + 1] == more[i - 1 + 1] && acts[i] == steps[i - 1]; }
    }
  }

  // ----- the function itself, when nothing interferes -----

  function Min(a: nat, b: nat): nat {
    if a <= b then a else b
  }

  class Digests {
    var digests: Cache

    constructor ()
      ensures digests == map[]
    {
      digests := map[];
    }

    /** `fd_digest` on a file that nobody changes during the call. */
    method FdDigest(path: string, d: Disk, id: FileId, h: Bytes -> int) returns (result: (nat, int))
      requires ClockSound(d) && id in d.files && CacheSound(d, digests, h)
      modifies this
      ensures result == Fresh(h, d.files[id])
      ensures CacheSound(d, digests, h)
      ensures forall key :: key in old(digests) ==> key in digests && digests[key] == old(digests)[key]
      ensures digests.Keys <= old(digests).Keys + {Key(path, Fstat(d, id))}
      ensures var key := Key(path, Fstat(d, id));
        key in digests <==> key in old(digests) || (key.stat.ctime < d.now - RACY && key.stat.mtime < d.now - RACY)
    {
      var info := Fstat(d, id);
      var key := Key(path, info);
      if key in digests {
        return digests[key];
      }
      var content := d.files[id].content;
      var bytes: Bytes := [];
      var size := 0;
      while true
        invariant size == |bytes| <= |content| && bytes == content[..size]
        decreases |content| - size
      {
        var block := content[size..Min(size + BLOCK, |content|)];
        if block == [] {
          break;
        }
        size := size + |block|;
        bytes := bytes + block;
      }
      assert bytes == content;
      var after := Fstat(d, id);
      result := (size, h(bytes));
      RememberIsSound(d, digests, key, bytes, after == info, h);
      digests := Remember(digests, key, result, after == info, d.now);
    }
  }
}
