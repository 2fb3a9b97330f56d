/** Log files with rotation, and the checkpoint file. A file is the sequence of its lines; a
    line is an event, serialisation being assumed invertible. */
module Storage {
  import opened Prelude
  import opened Event
  import opened Checkpoint

  /** How a flush of the writer's buffer ends: everything written, or an error after the first
      `drained` lines. */
  datatype FlushOutcome = Flushed | Stuck(drained: nat)

  /** How a line write ends. In a failed one the line may have entered the buffer, to be written
      out by a later flush, and the first `drained` buffered lines may have been written already. */
  datatype WriteOutcome = Written | Failed(kept: bool, drained: nat)

  /** How many of `lines` a flush writes out. */
  function FlushCount(lines: seq<AuditEvent>, f: FlushOutcome): (n: nat)
    ensures n <= |lines|
  {
    match f
    case Flushed => |lines|
    case Stuck(drained) => if drained <= |lines| then drained else |lines|
  }

  /** The buffer a failed write leaves to be drained. */
  function Pending(buffer: seq<AuditEvent>, event: AuditEvent, kept: bool): (lines: seq<AuditEvent>) {
    if kept then buffer + [event] else buffer
  }

  datatype StorageError = Io

  // ---------- files by number ----------

  /** The number of the file in slot `j` after `n` rotations with room for `capacity` files: files
      are numbered in the order in which they were closed. */
  function SlotNumber(n: nat, capacity: nat, j: nat): (i: Option<nat>) {
    if 1 <= j <= capacity && j <= n then Some(n - j) else None
  }

  /** Slot `j` once the files in slots `i` up to `maxFiles - 1` have moved one up. */
  function ShiftedNumber(n: nat, maxFiles: nat, i: nat, j: nat): (k: Option<nat>) {
    if j < i || i >= maxFiles || j > maxFiles then SlotNumber(n, Room(maxFiles), j)
    else if j == i then None
    else SlotNumber(n, Room(maxFiles), j - 1)
  }

  /** How many closed files can exist; the rename of the current file always keeps one. */
  function Room(maxFiles: nat): (capacity: nat)
    ensures capacity >= 1
  {
    if maxFiles == 0 then 1 else maxFiles
  }

  /** The file `audit.log.j`, if it exists. */
  function Slot(slots: map<nat, seq<AuditEvent>>, j: nat): (file: Option<seq<AuditEvent>>) {
    if j in slots then Some(slots[j]) else None
  }

  function Numbered(closed: seq<seq<AuditEvent>>, i: Option<nat>): (file: Option<seq<AuditEvent>>) {
    if i.Some? && i.value < |closed| then Some(closed[i.value]) else None
  }

  /** Slot `j` holds the file closed `j` rotations ago, as far as there is room. */
  ghost predicate SlotsHold(slots: map<nat, seq<AuditEvent>>, closed: seq<seq<AuditEvent>>, capacity: nat) {
    forall j: nat :: Slot(slots, j) == Numbered(closed, SlotNumber(|closed|, capacity, j))
  }

  /** The slots once the current file has been renamed as well. */
  lemma RotatedSlots(slots: map<nat, seq<AuditEvent>>, closed: seq<seq<AuditEvent>>, file: seq<AuditEvent>, maxFiles: nat)
    requires forall j: nat :: Slot(slots, j) == Numbered(closed, ShiftedNumber(|closed|, maxFiles, 1, j))
    ensures SlotsHold(slots[1 := file], closed + [file], Room(maxFiles))
  {
    var renamed, more := slots[1 := file], closed + [file];
    forall j: nat
      ensures Slot(renamed, j) == Numbered(more, SlotNumber(|more|, Room(maxFiles), j))
    {
      assert Slot(slots, j) == Numbered(closed, ShiftedNumber(|closed|, maxFiles, 1, j));
    }
  }

  /** The first of `n` closed files that are in slots up to `i`. */
  function FirstUpTo(n: nat, i: nat): (k: nat)
    ensures k <= n
  {
    if n <= i then 0 else n - i
  }

  lemma FlattenNext(files: seq<seq<AuditEvent>>, lo: nat, hi: nat)
    requires lo <= hi < |files|
    ensures Flatten(files[lo..hi + 1]) == Flatten(files[lo..hi]) + files[hi]
  {
    FlattenAppend(files[lo..hi], [files[hi]]);
    assert files[lo..hi + 1] == files[lo..hi] + [files[hi]] && Flatten([files[hi]]) == files[hi];
  }

  lemma FlattenSplit(files: seq<seq<AuditEvent>>, k: nat)
    requires k <= |files|
    ensures Flatten(files) == Flatten(files[..k]) + Flatten(files[k..])
  {
    FlattenAppend(files[..k], files[k..]);
    assert files == files[..k] + files[k..];
  }

  /** The closed files in slots from `maxFiles` down to above `i`, oldest first. */
  ghost function ReadDownTo(closed: seq<seq<AuditEvent>>, maxFiles: nat, i: nat): (lines: seq<AuditEvent>)
    requires i <= maxFiles
  {
    Flatten(closed[FirstUpTo(|closed|, maxFiles)..FirstUpTo(|closed|, i)])
  }

  /** Reading slot `i` continues what was read from the higher slots. */
  lemma NextSlotRead(slots: map<nat, seq<AuditEvent>>, closed: seq<seq<AuditEvent>>, maxFiles: nat, i: nat)
    requires SlotsHold(slots, closed, Room(maxFiles)) && 1 <= i <= maxFiles
    ensures ReadDownTo(closed, maxFiles, i - 1)
         == if i in slots then ReadDownTo(closed, maxFiles, i) + slots[i] else ReadDownTo(closed, maxFiles, i)
  {
    assert Slot(slots, i) == Numbered(closed, SlotNumber(|closed|, Room(maxFiles), i));
    if i <= |closed| {
      FlattenNext(closed, FirstUpTo(|closed|, maxFiles), |closed| - i);
    }
  }

  lemma SlotsRead(closed: seq<seq<AuditEvent>>, current: seq<AuditEvent>, maxFiles: nat)
    ensures ReadDownTo(closed, maxFiles, maxFiles) == []
    ensures ReadDownTo(closed, maxFiles, 0) == Flatten(closed[FirstUpTo(|closed|, maxFiles)..])
    ensures Flatten(closed) + current
         == Flatten(closed[..FirstUpTo(|closed|, maxFiles)]) + (ReadDownTo(closed, maxFiles, 0) + current)
  {
    var k := FirstUpTo(|closed|, maxFiles);
    assert closed[k..|closed|] == closed[k..] && closed[k..k] == [];
    FlattenSplit(closed, k);
    Associative(Flatten(closed[..k]), Flatten(closed[k..]), current);
  }

  /** A rotation moves lines between files without losing or reordering any. */
  lemma ClosedHistory(closed: seq<seq<AuditEvent>>, current: seq<AuditEvent>, buffer: seq<AuditEvent>)
    ensures Flatten(closed) + current + buffer == Flatten(closed + [current + buffer]) + []
  {
    var file := current + buffer;
    FlattenAppend(closed, [file]);
    assert Flatten([file]) == file;
    assert Flatten(closed) + current + buffer == Flatten(closed) + file;
  }

  /** Size of a file, given the length of each line. */
  function FileBytes(lineLength: AuditEvent -> nat, file: seq<AuditEvent>): (n: nat) {
    if file == [] then 0 else FileBytes(lineLength, file[..|file| - 1]) + lineLength(file[|file| - 1])
  }

  lemma FileBytesSnoc(lineLength: AuditEvent -> nat, file: seq<AuditEvent>, e: AuditEvent)
    ensures FileBytes(lineLength, file + [e]) == FileBytes(lineLength, file) + lineLength(e)
  {
    assert (file + [e])[..|file|] == file;
  }

  lemma {:induction false} FileBytesGrow(lineLength: AuditEvent -> nat, file: seq<AuditEvent>, more: seq<AuditEvent>)
    ensures FileBytes(lineLength, file) <= FileBytes(lineLength, file + more)
  {
    if more == [] {
      assert file + more == file;
    } else {
      var n := |more| - 1;
      FileBytesGrow(lineLength, file, more[..n]);
      assert (file + more)[..|file| + n] == file + more[..n];
    }
  }

  lemma LineCounted(lineLength: AuditEvent -> nat, before: seq<AuditEvent>, current: seq<AuditEvent>, buffer: seq<AuditEvent>,
                    counted: seq<AuditEvent>, e: AuditEvent)
    ensures before + current + buffer + [e] == before + (current + buffer + [e])
    ensures FileBytes(lineLength, counted + [e]) == FileBytes(lineLength, counted) + lineLength(e)
    ensures FileBytes(lineLength, current) + lineLength(e) <= FileBytes(lineLength, current + buffer + [e])
  {
    FileBytesGrow(lineLength, current, buffer);
    FileBytesSnoc(lineLength, current + buffer, e);
    FileBytesSnoc(lineLength, counted, e);
  }

  /** All files ever closed in that order, whether or not a slot still holds them, the current file
      with the size that triggers rotation, lines left in the writer's buffer, and all lines ever
      written out. */
  datatype LogFiles = LogFiles(
    closed: seq<seq<AuditEvent>>, current: seq<AuditEvent>, size: nat, buffer: seq<AuditEvent>, history: seq<AuditEvent>)

  /** A rotation writes the buffer out, closes the current file and starts an empty one. */
  function AfterRotation(c: LogFiles): (c': LogFiles) {
    LogFiles(c.closed + [c.current + c.buffer], [], 0, [], c.history + c.buffer)
  }

  /** A flush moves lines from the front of the buffer to the end of the current file. */
  function AfterFlush(c: LogFiles, f: FlushOutcome): (c': LogFiles) {
    var n := FlushCount(c.buffer, f);
    c.(current := c.current + c.buffer[..n], buffer := c.buffer[n..], history := c.history + c.buffer[..n])
  }

  /** A line write; lines left by an earlier failed flush go out first. */
  function AfterLine(c: LogFiles, event: AuditEvent, outcome: WriteOutcome, length: nat): (c': LogFiles) {
    match outcome
    case Failed(kept, drained) => AfterFlush(c.(buffer := Pending(c.buffer, event, kept)), Stuck(drained))
    case Written => c.(current := c.current + c.buffer + [event], size := c.size + length,
                       buffer := [], history := c.history + c.buffer + [event])
  }

  class AuditStorage {
    const maxFileSize: nat
    const maxFiles: nat
    const lineLength: AuditEvent -> nat
    var slots: map<nat, seq<AuditEvent>>
    var current: seq<AuditEvent>
    var buffer: seq<AuditEvent>
    var currentSize: nat
    var checkpoint: Option<Checkpoint>
    ghost var closed: seq<seq<AuditEvent>>
    ghost var history: seq<AuditEvent>
    /** The lines that the size counts: those the current file held when it was opened, and those of
        successful writes since. */
    ghost var counted: seq<AuditEvent>

    /** Slot `j` holds the file closed `j` rotations ago, as far as there is room; every line written
        out is in a closed file or the current file, in the order of writing; and the size that
        triggers rotation is that of the counted lines, never more than the real size of the file. */
    ghost predicate Valid()
      reads this
    {
      && SlotsHold(slots, closed, Room(maxFiles))
      && history == Flatten(closed) + current
      && currentSize == FileBytes(lineLength, counted) <= FileBytes(lineLength, current)
    }

    ghost function Contents(): (c: LogFiles)
      reads this
    {
      LogFiles(closed, current, currentSize, buffer, history)
    }

    constructor (maxFileSize: nat, maxFiles: nat, lineLength: AuditEvent -> nat)
      ensures Valid() && Contents() == LogFiles([], [], 0, [], []) && counted == [] && checkpoint == None
      ensures this.maxFileSize == maxFileSize && this.maxFiles == maxFiles && this.lineLength == lineLength
    {
      this.maxFileSize, this.maxFiles, this.lineLength := maxFileSize, maxFiles, lineLength;
      slots, current, buffer, currentSize, checkpoint := map[], [], [], 0, None;
      closed, history, counted := [], [], [];
    }

    /** Renames files one slot up, from the highest slot down. */
    method ShiftSlots()
      requires Valid()
      modifies this`slots
      ensures forall j: nat :: Slot(slots, j) == Numbered(closed, ShiftedNumber(|closed|, maxFiles, 1, j))
    {
      if maxFiles == 0 {
        return;
      }
      for i := maxFiles downto 1
        invariant forall j: nat :: Slot(slots, j) == Numbered(closed, ShiftedNumber(|closed|, maxFiles, i, j))
      {
        ghost var before := slots;
        assert Slot(before, i) == Numbered(closed, ShiftedNumber(|closed|, maxFiles, i + 1, i));
        assert Slot(before, i + 1) == Numbered(closed, ShiftedNumber(|closed|, maxFiles, i + 1, i + 1));
        if i in slots {
          slots := (slots - {i})[i + 1 := slots[i]];
        }
        forall j: nat
          ensures Slot(slots, j) == Numbered(closed, ShiftedNumber(|closed|, maxFiles, i, j))
        {
          assert Slot(before, j) == Numbered(closed, ShiftedNumber(|closed|, maxFiles, i + 1, j));
        }
      }
    }

    /** The storage of the next process on the same directory: the files as they are, the buffer
        gone, and the size read from the current file. */
    constructor Reopen(left: AuditStorage)
      requires left.Valid()
      ensures Valid()
      ensures Contents() == old(left.Contents()).(buffer := [], size := FileBytes(left.lineLength, old(left.current)))
      ensures checkpoint == old(left.checkpoint) && slots == old(left.slots) && counted == current
      ensures maxFileSize == left.maxFileSize && maxFiles == left.maxFiles && lineLength == left.lineLength
    {
      maxFileSize, maxFiles, lineLength := left.maxFileSize, left.maxFiles, left.lineLength;
      slots, current, buffer, checkpoint := left.slots, left.current, [], left.checkpoint;
      currentSize := FileBytes(left.lineLength, left.current);
      closed, history, counted := left.closed, left.history, left.current;
    }

    /** `flush`: writes out what earlier failed flushes left behind, or the first lines of it. */
    method Flush(f: FlushOutcome) returns (r: Result<(), StorageError>)
      requires Valid()
      modifies this`current, this`buffer, this`history
      ensures Valid() && r == if f.Flushed? then Ok(()) else Err(Io)
      ensures Contents() == AfterFlush(old(Contents()), f)
    {
      var n := FlushCount(buffer, f);
      FileBytesGrow(lineLength, current, buffer[..n]);
      current, history, buffer := current + buffer[..n], history + buffer[..n], buffer[n..];
      return if f.Flushed? then Ok(()) else Err(Io);
    }

    /** Moves the current file to slot 1 and starts an empty one, after writing out the buffer. */
    method Rotate(f: FlushOutcome) returns (r: Result<(), StorageError>)
      requires Valid()
      modifies this
      ensures Valid() && checkpoint == old(checkpoint) && r == if f.Flushed? then Ok(()) else Err(Io)
      ensures Contents() == if f.Flushed? then AfterRotation(old(Contents())) else AfterFlush(old(Contents()), f)
      ensures counted == if f.Flushed? then [] else old(counted)
    {
      if f.Stuck? {
        r := Flush(f);
        return;
      }
      var file := current + buffer;
      ShiftSlots();
      RotatedSlots(slots, closed, file, maxFiles);
      slots := slots[1 := file];
      ClosedHistory(closed, current, buffer);
      closed, history, counted := closed + [file], history + buffer, [];
      current, buffer, currentSize := [], [], 0;
      return Ok(());
    }

    /** A line reaches the file, behind what was buffered, and is counted. */
    method PutLine(event: AuditEvent)
      requires Valid()
      modifies this`current, this`buffer, this`history, this`currentSize, this`counted
      ensures Valid() && counted == old(counted) + [event]
      ensures Contents() == AfterLine(old(Contents()), event, Written, lineLength(event))
    {
      LineCounted(lineLength, Flatten(closed), current, buffer, counted, event);
      current, buffer, history := current + buffer + [event], [], history + buffer + [event];
      counted := counted + [event];
      currentSize := currentSize + lineLength(event);
    }

    /** The second half of `write_event`. */
    method AppendLine(event: AuditEvent, outcome: WriteOutcome) returns (r: Result<(), StorageError>)
      requires Valid()
      modifies this`current, this`buffer, this`history, this`currentSize, this`counted
      ensures Valid() && r == if outcome.Written? then Ok(()) else Err(Io)
      ensures Contents() == AfterLine(old(Contents()), event, outcome, lineLength(event))
      ensures counted == if outcome.Written? then old(counted) + [event] else old(counted)
    {
      match outcome
      case Failed(kept, drained) =>
        buffer := Pending(buffer, event, kept);
        r := Flush(Stuck(drained));
      case Written =>
        PutLine(event);
        return Ok(());
    }

    /** `write_event`: rotates first when the current file has reached its size, then appends. */
    method WriteEvent(event: AuditEvent, rotation: FlushOutcome, outcome: WriteOutcome) returns (r: Result<(), StorageError>)
      requires Valid()
      modifies this
      ensures Valid() && checkpoint == old(checkpoint)
      ensures r.Ok? <==> outcome.Written? && (old(currentSize) >= maxFileSize ==> rotation.Flushed?)
      ensures old(currentSize) >= maxFileSize && rotation.Stuck? ==> Contents() == AfterFlush(old(Contents()), rotation)
      ensures old(currentSize) >= maxFileSize && rotation.Flushed? ==>
        Contents() == AfterLine(AfterRotation(old(Contents())), event, outcome, lineLength(event))
      ensures old(currentSize) < maxFileSize ==> Contents() == AfterLine(old(Contents()), event, outcome, lineLength(event))
      ensures r.Ok? ==> counted == (if old(currentSize) >= maxFileSize then [] else old(counted)) + [event]
    {
      if currentSize >= maxFileSize {
        r := Rotate(rotation);
        if r.Err? {
          return;
        }
      }
      r := AppendLine(event, outcome);
    }

    /** `read_all_events`: the closed files in slots up to `maxFiles`, oldest first, and then the
        current file. This is a contiguous tail of everything written out; what is missing are the
        files closed more than `maxFiles` rotations ago. */
    method ReadAllEvents() returns (all: seq<AuditEvent>)
      requires Valid()
      ensures all == Flatten(closed[FirstUpTo(|closed|, maxFiles)..]) + current
      ensures history == Flatten(closed[..FirstUpTo(|closed|, maxFiles)]) + all
    {
      all := [];
      var i := maxFiles;
      SlotsRead(closed, current, maxFiles);
      while i >= 1
        invariant 0 <= i <= maxFiles && all == ReadDownTo(closed, maxFiles, i)
      {
        NextSlotRead(slots, closed, maxFiles, i);
        if i in slots {
          all := all + slots[i];
        }
        i := i - 1;
      }
      all := all + current;
    }

    /** Atomic replacement of the checkpoint file; a failure leaves the previous one in place. */
    method WriteCheckpoint(c: Checkpoint, ok: bool) returns (r: Result<(), StorageError>)
      requires Valid()
      modifies this`checkpoint
      ensures Valid() && r.Ok? == ok && checkpoint == if ok then Some(c) else old(checkpoint)
    {
      if !ok {
        return Err(Io);
      }
      checkpoint := Some(c);
      return Ok(());
    }
  }

  // ---------- what becomes of a line ----------

  /** Where a line was written: how many files had been closed by then, and its place in the file. */
  datatype Place = Place(file: nat, line: nat)

  /** The line at a place, looking at all files ever begun. */
  ghost predicate Placed(closed: seq<seq<AuditEvent>>, current: seq<AuditEvent>, place: Place, e: AuditEvent) {
    if place.file < |closed| then place.line < |closed[place.file]| && closed[place.file][place.line] == e
    else place.file == |closed| && place.line < |current| && current[place.line] == e
  }

  /** Position of a place among all lines ever written out. */
  ghost function Position(closed: seq<seq<AuditEvent>>, place: Place): (k: nat)
    requires place.file <= |closed|
  {
    |Flatten(closed[..place.file])| + place.line
  }

  lemma {:induction false} FlattenShorter(files: seq<seq<AuditEvent>>, i: nat, j: nat)
    requires i <= j <= |files|
    ensures |Flatten(files[..i])| <= |Flatten(files[..j])|
  {
    if i < j {
      FlattenShorter(files, i, j - 1);
      FlattenNext(files, 0, j - 1);
      assert files[0..j] == files[..j] && files[0..j - 1] == files[..j - 1];
    }
  }

  /** A line that was written stands in the history at the position of its place. */
  lemma PlacedInHistory(closed: seq<seq<AuditEvent>>, current: seq<AuditEvent>, place: Place, e: AuditEvent)
    requires Placed(closed, current, place, e)
    ensures var history, k := Flatten(closed) + current, Position(closed, place); k < |history| && history[k] == e
  {
    var i, n := place.file, |closed|;
    if i < n {
      FlattenSplit(closed, i + 1);
      FlattenNext(closed, 0, i);
      assert closed[0..i + 1] == closed[..i + 1] && closed[0..i] == closed[..i];
    } else {
      assert closed[..n] == closed;
    }
  }

  /** File number `i` after `n` rotations is the current file or stands in a slot. */
  ghost predicate InSomeFile(n: nat, capacity: nat, i: nat) {
    i == n || exists j: nat :: SlotNumber(n, capacity, j) == Some(i)
  }

  /** A line is still in a file if and only if no more rotations followed its write than there is
      room for closed files. */
  lemma FiledIffRecent(n: nat, capacity: nat, i: nat)
    requires i <= n
    ensures InSomeFile(n, capacity, i) <==> n - i <= capacity
  {
    if i < n && n - i <= capacity {
      assert SlotNumber(n, capacity, n - i) == Some(i);
    }
  }

  /** And it is read back if and only if at most `maxFiles` rotations followed. */
  lemma ReadIffRecent(closed: seq<seq<AuditEvent>>, current: seq<AuditEvent>, maxFiles: nat, place: Place, e: AuditEvent)
    requires Placed(closed, current, place, e)
    ensures Position(closed, place) >= |Flatten(closed[..FirstUpTo(|closed|, maxFiles)])| <==> |closed| - place.file <= maxFiles
  {
    var i, first := place.file, FirstUpTo(|closed|, maxFiles);
    if i >= first {
      FlattenShorter(closed, first, i);
    } else {
      FlattenNext(closed, 0, i);
      assert closed[0..i + 1] == closed[..i + 1] && closed[0..i] == closed[..i];
      FlattenShorter(closed, i + 1, first);
    }
  }

  /** With room for one closed file, the line written before two rotations is in no file any more. */
  lemma OldestFileLost(e1: AuditEvent, e2: AuditEvent, e3: AuditEvent)
    ensures var c1 := AfterLine(LogFiles([], [], 0, [], []), e1, Written, 1);
            var c2 := AfterLine(AfterRotation(c1), e2, Written, 1);
            var c := AfterLine(AfterRotation(c2), e3, Written, 1);
            && c.closed == [[e1], [e2]] && c.current == [e3]
            && Placed(c.closed, c.current, Place(0, 0), e1) && !InSomeFile(|c.closed|, Room(1), 0)
            && Flatten(c.closed[FirstUpTo(|c.closed|, 1)..]) + c.current == [e2, e3]
  {
    var closed := [[e1], [e2]];
    assert [] + [] + [e1] == [e1] && [e1] + [] == [e1] && [e2] + [] == [e2] && [] + [] + [e2] == [e2] && [] + [] + [e3] == [e3];
    assert [] + [[e1]] == [[e1]] && [[e1]] + [[e2]] == closed;
    FiledIffRecent(2, 1, 0);
    assert closed[1..] == [[e2]] && Flatten([[e2]]) == [e2];
  }
}
