/** The open file or directory a bootloader reads its ESP through (`File` in
    `src/espfs.rs`). */
module EspFs {
  import opened Bytes
  import opened Disks
  import opened FatLayout
  import opened FatChain
  import opened Fats
  import opened Lfns
  import opened Dirs

  datatype Status = Success | NotFoundHere | DeviceError | VolumeCorrupted | BufferTooSmall | Unsupported

  function StatusOf(e: Error): Status {
    match e
    case NotFound => NotFoundHere
    case NotAFile => NotFoundHere
    case Io => DeviceError
    case _ => VolumeCorrupted
  }

  /** The file's chain is as long as the file and never comes back on itself. */
  ghost predicate WellChained(l: Layout, img: seq<byte>, file: Entry)
    requires OnDisk(l, img)
  {
    file.size > 0 ==>
      var last := LastOf(l, 0, file.size);
      && Clusters(l, img, file.firstCluster, last).Some?
      && NoRepeats(Clusters(l, img, file.firstCluster, last).value)
  }

  /** `out` is the file's bytes from `pos` on: that slice of its chain's
      clusters, one after another. */
  ghost predicate HasBytes(l: Layout, img: seq<byte>, file: Entry, pos: nat, out: seq<byte>)
    requires OnDisk(l, img)
  {
    |out| > 0 ==>
      var chain := Upto(l, img, file.firstCluster, LastOf(l, pos, |out|));
      pos + |out| <= |chain| && out == chain[pos..pos + |out|]
  }

  class File {
    const entry: Entry
    var pos: nat
    var hint: Hint

    ghost predicate Valid(fat: Fat)
      requires OnDisk(fat.l, fat.img)
      reads this`hint
    {
      HintTrue(fat.l, fat.img, entry, hint)
    }

    constructor (entry: Entry)
      ensures this.entry == entry && pos == 0 && hint == NO_HINT
    {
      this.entry, pos, hint := entry, 0, NO_HINT;
    }

    /** Read on from the position. Whatever reads and seeks came before, what
        comes back is the file's bytes there. */
    method Read(fat: Fat, disk: Disk, buffer: array<byte>) returns (s: Status, n: nat)
      requires fat.Valid(disk) && Valid(fat) && !entry.dir
      requires buffer != fat.fatCache.buf && buffer != fat.dirCache.buf
      modifies this, disk`bounce, disk`strays, disk.dev`faults, fat.fatCache`at, fat.fatCache.buf, buffer
      ensures fat.Valid(disk) && Valid(fat) && disk.strays == old(disk.strays)
              && old(disk.dev.faults) <= disk.dev.faults
      ensures s == Success ==>
                && n <= buffer.Length && old(pos) <= entry.size && n == Min(buffer.Length, entry.size - old(pos))
                && pos == old(pos) + n && HasBytes(fat.l, fat.img, entry, old(pos), buffer[..n])
      ensures s != Success ==> n == 0 && pos == old(pos) && hint == old(hint)
      ensures (&& disk.dev.faults == old(disk.dev.faults) && fat.l.End() <= |disk.dev.bytes|
               && WellChained(fat.l, fat.img, entry)) ==> (s == Success <==> old(pos) <= entry.size)
    {
      if pos > entry.size {
        return DeviceError, 0;
      }
      if buffer.Length == 0 {
        return Success, 0;
      }
      if pos < entry.size && WellChained(fat.l, fat.img, entry) {
        AcyclicIsNeverRefused(fat.l, fat.img, entry, pos, buffer.Length, hint);
      }
      assert OnDisk(fat.l, fat.img);
      hide Fat.Valid, OnDisk, LastOf, Upto, Clusters, Walk, NoRepeats;
      var r, after := fat.ReadAt(disk, entry, pos, buffer, hint);
      match r {
        case Ok(count) =>
          pos, hint := pos + count, after;
          return Success, count;
        case Err(e) =>
          return StatusOf(e), 0;
      }
    }

    /** All ones seeks to the end. */
    method SetPosition(position: nat) returns (s: Status)
      requires !entry.dir && position < U64_LIMIT
      modifies this`pos
      ensures s == Success && pos == if position == U64_LIMIT - 1 then entry.size else position
    {
      pos := if position == U64_LIMIT - 1 then entry.size else position;
      return Success;
    }
  }

  /** An open directory: its listing, from its first `Read` on. The listing is
      never at its end: the read that finds that leaves it where it was. */
  class Directory {
    const entry: Entry
    var list: DirCursor?

    ghost predicate Valid(fat: Fat)
      requires OnDisk(fat.l, fat.img)
      reads this, list, if list == null then {} else {list.lfn}, if list == null then {} else {list.lfn.units}
    {
      list != null ==> list.Valid(fat.l, fat.img) && !list.done && list.dir == RefOf(fat.l, entry)
    }

    constructor (entry: Entry)
      ensures this.entry == entry && list == null
    {
      this.entry, list := entry, null;
    }

    /** Where the listing is, and the long name under way there. */
    ghost predicate IsAt(fat: Fat, mark: Mark)
      reads this, list, if list == null then {} else {list.lfn}, if list == null then {} else {list.lfn.units}
    {
      if list == null then mark.behind == 0 && !mark.name.ok
      else mark.behind == list.Behind(fat.l) && mark.name == list.lfn.View()
    }

    /** The next entry, if there is room for it in the caller's buffer (`fits`).
        The listing moves on only once the entry is handed over, past just the
        records that led to it, so that none is lost to a small buffer. */
    method Read(fat: Fat, disk: Disk, fits: bool)
      returns (s: Status, listed: Option<Listed>, ghost at: Mark, ghost ahead: DirCursor?, ghost passed: seq<RawEntry>,
               ghost why: Option<Error>)
      requires fat.Valid(disk) && Valid(fat)
      modifies this, disk`bounce, disk`strays, disk.dev`faults,
               fat.fatCache`at, fat.fatCache.buf, fat.dirCache`at, fat.dirCache.buf
      ensures fat.Valid(disk) && Valid(fat) && disk.strays == old(disk.strays)
              && old(disk.dev.faults) <= disk.dev.faults
      ensures list != null ==> old(IsAt(fat, at))
      ensures listed.Some? ==> s == Success && fits && list != null && list == ahead
      ensures listed.None? ==> (if list == null then old(list) == null && s != Success else IsAt(fat, at))
      ensures ahead != null ==> ahead.Valid(fat.l, fat.img) && ahead.dir == RefOf(fat.l, entry)
      ensures s == Success ==> ahead != null && Looked(fat.l, fat.img, ahead, at, passed, listed)
      // An entry is held back only if there is one and no room for it.
      ensures s == BufferTooSmall ==>
                !fits && ahead != null && exists found :: Looked(fat.l, fat.img, ahead, at, passed, Some(found))
      // It fails only as the directory's entry, its chain or the device does.
      ensures why.Some? <==> s != Success && s != BufferTooSmall
      ensures why.Some? ==>
                && s == StatusOf(why.value)
                && if list == null then OpenRefused(fat.l, entry, why.value)
                   else ahead != null && LookFailed(fat.l, fat.img, ahead, at, passed, why.value)
      ensures disk.dev.faults == old(disk.dev.faults) && fat.l.End() <= |disk.dev.bytes| ==> why != Some(Io)
    {
      hide Fat.Valid, OnDisk, Looked, LookFailed, DirCursor.Behind, DirCursor.Valid;
      fat.ReadsADisk(disk);
      passed, listed, at, ahead, why := [], None, Start(), null, None;
      if list == null {
        s, why := Begin(fat, disk);
        if s != Success {
          return;
        }
      }
      ghost var l, img := fat.l, fat.img;
      at := Mark(list.Behind(l), list.lfn.View());
      var next, r;
      next, r, passed := LookAhead(fat, disk, list);
      ahead := next;
      match r {
        case Err(e) => s, why := StatusOf(e), Some(e);
        case Ok(None) => s := Success;
        case Ok(Some(found)) =>
          if fits {
            s, listed, list := Success, Some(found), next;
          } else {
            s := BufferTooSmall;
          }
      }
    }

    /** Position 0 forgets the listing; no other is taken. */
    method SetPosition(position: nat) returns (s: Status)
      modifies this`list
      ensures position == 0 ==> s == Success && list == null
      ensures position != 0 ==> s == Unsupported && list == old(list)
    {
      if position != 0 {
        return Unsupported;
      }
      list := null;
      return Success;
    }

    /** The first read opens the listing. */
    method Begin(fat: Fat, disk: Disk) returns (s: Status, ghost why: Option<Error>)
      requires fat.Valid(disk) && list == null
      modifies this`list
      ensures s == Success ==> list != null && fresh(list) && fresh(list.lfn) && fresh(list.lfn.units)
      ensures s == Success ==> Valid(fat) && list.Behind(fat.l) == 0 && !list.lfn.View().ok
      ensures s != Success ==>
                list == null && why.Some? && s == StatusOf(why.value) && OpenRefused(fat.l, entry, why.value)
      ensures s == Success ==> why == None
    {
      var begun := OpenDir(fat, disk, entry);
      match begun {
        case Err(e) => s, why := StatusOf(e), Some(e);
        case Ok(c) => s, list, why := Success, c, None;
      }
    }
  }

  /** How much of a directory is behind, and the name being put together. */
  datatype Mark = Mark(behind: int, name: Assembly)

  function Start(): Mark { Mark(0, Assembly([], 0, 0, 0, false)) }

  /** The next entry, and a cursor past it; the listing itself stays. */
  method LookAhead(fat: Fat, disk: Disk, c: DirCursor)
    returns (ahead: DirCursor, r: Result<Option<Listed>, Error>, ghost passed: seq<RawEntry>)
    requires fat.Valid(disk) && c.Valid(fat.l, fat.img) && !c.done
    modifies disk`bounce, disk`strays, disk.dev`faults, fat.fatCache`at, fat.fatCache.buf,
             fat.dirCache`at, fat.dirCache.buf
    ensures fat.Valid(disk) && disk.strays == old(disk.strays) && old(disk.dev.faults) <= disk.dev.faults
    ensures c.Valid(fat.l, fat.img) && !c.done
    ensures ahead.dir == c.dir && (r.Ok? && r.value.Some? ==> !ahead.done)
    ensures fresh(ahead) && fresh(ahead.lfn) && fresh(ahead.lfn.units)
    ensures ahead.Valid(fat.l, fat.img)
    ensures r.Ok? ==> Looked(fat.l, fat.img, ahead, Mark(c.Behind(fat.l), c.lfn.View()), passed, r.value)
    ensures r.Err? ==> LookFailed(fat.l, fat.img, ahead, Mark(c.Behind(fat.l), c.lfn.View()), passed, r.error)
    ensures disk.dev.faults == old(disk.dev.faults) && fat.l.End() <= |disk.dev.bytes| ==> r != Err(Io)
  {
    hide Fat.Valid, OnDisk, Passed, SkipAll, Look, ListingEnds, DirBytes, Assembly.Sound, Stuck;
    fat.ReadsADisk(disk);
    BehindStarts(fat.l, fat.img, c);
    ahead := Clone(c, fat.l, fat.img);
    r, passed := NextEntry(fat, disk, ahead);
  }

  /** The records from the mark to where the listing is now are what gave this
      entry, or there is nothing more. */
  ghost predicate Looked(l: Layout, img: seq<byte>, c: DirCursor, at: Mark, passed: seq<RawEntry>,
                         listed: Option<Listed>)
    requires OnDisk(l, img)
    reads c, c.lfn, c.lfn.units
  {
    && at.behind >= 0 && at.name.Sound()
    && Passed(l, img, c, at.behind, passed) && Answers(l, img, c, at.name, passed, Ok(listed))
  }

  /** Why there is no more of a listing that has been begun. */
  ghost predicate LookFailed(l: Layout, img: seq<byte>, c: DirCursor, at: Mark, passed: seq<RawEntry>, e: Error)
    requires OnDisk(l, img)
    reads c`at, c`end, c`cluster, c`steps
  {
    at.behind >= 0 && at.name.Sound() && Passed(l, img, c, at.behind, passed) && Stuck(l, img, c, at.name, passed, e)
  }

  /** Why a listing cannot be begun. */
  predicate OpenRefused(l: Layout, dir: Entry, e: Error) {
    if !dir.dir then e == NotFound else RefOf(l, dir).Chain? && !l.Valid(RefOf(l, dir).first) && e == StartsOutside
  }
}
