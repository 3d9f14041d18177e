/** Files as `fstat` shows them, under a clock that stamps changes coarsely. */
module Disk {
  import opened Basics

  /** A device and inode pair; a number may be reused by a later file. */
  type FileId = nat

  /** Times are in nanoseconds. */
  datatype File = File(content: Bytes, mtime: int, ctime: int)

  datatype Stat = Stat(id: FileId, size: nat, mtime: int, ctime: int)

  /** `now` is what time_ns reads; `coarse` is what the kernel stamps a change with. */
  datatype Disk = Disk(files: map<FileId, File>, now: int, coarse: int)

  const RACY := 2_000_000_000

  function Fstat(d: Disk, id: FileId): Stat
    requires id in d.files
  {
    Stat(id, |d.files[id].content|, d.files[id].mtime, d.files[id].ctime)
  }

  /** The stamping clock lags by less than `RACY`, and stamps come from it. */
  predicate ClockSound(d: Disk) {
    && d.coarse <= d.now < d.coarse + RACY
    && forall id :: id in d.files ==> d.files[id].ctime <= d.coarse
  }

  /** Any change to what an inode number names: a write, a timestamp change, a link
      count change, or a new file that got the number.  Contents and mtime may
      become anything; ctime is stamped. */
  predicate Changed(d: Disk, d': Disk, id: FileId) {
    && id in d'.files && d'.files[id].ctime == d.coarse
    && d' == d.(files := d.files[id := d'.files[id]])
  }

  predicate Ticked(d: Disk, d': Disk) {
    && d.now <= d'.now && d.coarse <= d'.coarse
    && d' == d.(now := d'.now, coarse := d'.coarse)
    && ClockSound(d')
  }

  /** What a fresh hash of the file's bytes gives. */
  function Fresh(h: Bytes -> int, f: File): (nat, int) {
    (|f.content|, h(f.content))
  }
}
