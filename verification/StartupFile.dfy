/**
 Writing the edited file back (internal/completionsetup/files.go), on a disk
 that may fail at every step: a write may stop part way, and truncating,
 closing and removing may fail.
 */
module StartupFile {
  import opened Bytes
  import opened BlockEdit
  import opened BlockFile
  import opened SharedFile
  import Utf16

  /** What the system calls of one change will do. A write puts down as many bytes as there is room for. */
  datatype Faults = Faults(
    opens: bool, room: nat, truncates: bool, closes: bool, restoreRoom: nat, restoreTruncates: bool, removes: bool)

  datatype Outcome = Done | NotOpened | NotClosed | PutBack | NotPutBack

  /** The status of the whole edit, or what became of a change that failed. */
  datatype Result = Finished(status: Status) | Failed(outcome: Outcome)

  function Overlaid(raw: Text, at: nat, data: Text): Text
    requires at <= |raw|
  {
    raw[..at] + data + if at + |data| <= |raw| then raw[at + |data|..] else []
  }

  /** Where a change starts to write: after the old content, if it is only added to. */
  function From(before: Text, content: Text): (from: nat)
    ensures from <= |before| && from <= |content|
  {
    if before <= content then |before| else 0
  }

  /** How a change of a file ends. */
  function OutcomeOf(before: Text, content: Text, faults: Faults): Outcome {
    var from := From(before, content);
    if !faults.opens then NotOpened
    else if |content| - from <= faults.room && faults.truncates then (if faults.closes then Done else NotClosed)
    else if |before| - from <= faults.restoreRoom && faults.restoreTruncates then PutBack
    else NotPutBack
  }

  class DiskFile {
    var file: File

    constructor (file: File)
      ensures this.file == file
    {
      this.file := file;
    }

    method WriteAt(data: Text, at: nat, room: nat) returns (ok: bool)
      requires file.Present? && at <= |file.raw|
      modifies this
      ensures ok <==> |data| <= room
      ensures file == old(file).(raw := Overlaid(old(file.raw), at, if ok then data else data[..room]))
    {
      ok := |data| <= room;
      file := file.(raw := Overlaid(file.raw, at, if ok then data else data[..room]));
    }

    method Truncate(size: nat, works: bool) returns (ok: bool)
      requires file.Present? && size <= |file.raw|
      modifies this
      ensures ok == works
      ensures file == old(file).(raw := if ok then old(file.raw)[..size] else old(file.raw))
    {
      ok := works;
      if works { file := file.(raw := file.raw[..size]); }
    }

    /**
     Changes a file from its old content to a new one in place. It holds the
     new content when that succeeds, and the old one again when the write or
     the truncation fails at whatever point and putting back works. A change
     that only adds to the end never loses a byte that was there.
     */
    method Rewrite(before: Text, content: Text, faults: Faults) returns (outcome: Outcome)
      requires file.Present? && file.raw == before
      modifies this
      ensures outcome == OutcomeOf(before, content, faults)
      ensures file.Present? && file.regular == old(file.regular)
      ensures outcome.Done? || outcome.NotClosed? ==> file.raw == content
      ensures outcome.NotOpened? || outcome.PutBack? ==> file.raw == before
      ensures before <= content ==> before <= file.raw
    {
      if !faults.opens {
        return NotOpened;
      }
      var from := 0;
      if before <= content {
        from := |before|;
      }
      var ok := WriteAt(content[from..], from, faults.room);
      var written := if ok then content[from..] else content[from..][..faults.room];
      assert file.raw[..from] == before[..from];
      if ok {
        assert file.raw[..|content|] == content;
        ok := Truncate(|content|, faults.truncates);
      }
      assert file.raw[..from] == before[..from];
      if !ok {
        var restored := Restore(before, from, faults);
        return if restored then PutBack else NotPutBack;
      }
      return if faults.closes then Done else NotClosed;
    }

    /** Puts back what a failed change may have written over or added. */
    method Restore(before: Text, from: nat, faults: Faults) returns (restored: bool)
      requires file.Present? && from <= |before| && from <= |file.raw| && file.raw[..from] == before[..from]
      modifies this
      ensures file.Present? && file.regular == old(file.regular)
      ensures restored <==> |before| - from <= faults.restoreRoom && faults.restoreTruncates
      ensures restored ==> file.raw == before
      ensures from <= |file.raw| && file.raw[..from] == before[..from]
    {
      restored := WriteAt(before[from..], from, faults.restoreRoom);
      assert file.raw[..from] == before[..from];
      if restored {
        assert file.raw[..|before|] == before;
        restored := Truncate(|before|, faults.restoreTruncates);
      }
    }

    /** Writes a file that is not there yet, and takes it away again when that fails. */
    method Create(content: Text, faults: Faults) returns (ok: bool)
      requires file.Absent?
      modifies this
      ensures ok <==> faults.opens && |content| <= faults.room && faults.closes
      ensures ok ==> file == Present(content, true)
      ensures !ok && (faults.removes || !faults.opens) ==> file.Absent?
    {
      if !faults.opens {
        return false;
      }
      file := Present([], true);
      ok := WriteAt(content, 0, faults.room);
      ok := ok && faults.closes;
      if !ok && faults.removes {
        file := Absent;
      }
    }

    /** Puts the block in: all of what installing does to a file, or a failure. */
    method InstallBlock(target: Target, default: string, faults: Faults) returns (result: Result)
      requires Sound(target) && IsNewline(default)
      modifies this
      ensures result.Finished? ==> (file, result.status) == Install(old(file), target, default)
      ensures result.Failed? && result.outcome.NotClosed? ==> file == Install(old(file), target, default).0
      ensures result.Failed? && (result.outcome.NotOpened? || result.outcome.PutBack?) ==> file == old(file)
      ensures result.Failed? && old(file).Present? && Install(old(file), target, default).1.Added?
        && Faithful(old(file.raw))
        ==> file.Present? && old(file.raw) <= file.raw
      ensures faults.opens && faults.truncates && faults.closes
        && Room(Install(old(file), target, default).0, faults.room)
        ==> result.Finished?
    {
      if file.Absent? {
        result := CreateBlock(target, default, faults);
        return;
      }
      result := ChangeBlock(target, default, faults);
    }

    method CreateBlock(target: Target, default: string, faults: Faults) returns (result: Result)
      requires file.Absent? && Sound(target) && IsNewline(default)
      modifies this
      ensures result.Finished? ==> (file, result.status) == Install(Absent, target, default)
      ensures result.Failed? ==> result.outcome.NotPutBack? || (result.outcome.PutBack? && file.Absent?)
      ensures faults.opens && faults.closes && Room(Install(Absent, target, default).0, faults.room) ==>
        result.Finished?
    {
      var ok := Create(Created(target, default), faults);
      return if ok then Finished(Added) else Failed(if file.Absent? then PutBack else NotPutBack);
    }

    method ChangeBlock(target: Target, default: string, faults: Faults) returns (result: Result)
      requires file.Present? && Sound(target) && IsNewline(default)
      modifies this
      ensures result.Finished? ==> (file, result.status) == Install(old(file), target, default)
      ensures result.Failed? && result.outcome.NotClosed? ==> file == Install(old(file), target, default).0
      ensures result.Failed? && (result.outcome.NotOpened? || result.outcome.PutBack?) ==> file == old(file)
      ensures result.Failed? && Install(old(file), target, default).1.Added? && Faithful(old(file.raw))
        ==> file.Present? && old(file.raw) <= file.raw
      ensures faults.opens && faults.truncates && faults.closes
        && Room(Install(old(file), target, default).0, faults.room)
        ==> result.Finished?
    {
      var reading := Read(file.raw);
      if reading.OddLength? {
        return Finished(Unreadable);
      }
      var (edited, status) := InstallText(file, reading.encoding, reading.text, target, default);
      InstallsText(file, target, default);
      if !status.Added? && !status.Updated? {
        return Finished(status);
      }
      if status.Added? {
        AddsToTheEnd(file, target, default);
      }
      var outcome := Rewrite(file.raw, edited.raw, faults);
      return if outcome.Done? then Finished(status) else Failed(outcome);
    }

    /** Takes the block out, and with it a file it was all there was to. */
    method RemoveBlock(target: Target, default: string, faults: Faults) returns (result: Result)
      modifies this
      ensures result.Finished? ==> (file, result.status) == Remove(old(file), target, default)
      ensures result.Failed? && result.outcome.NotClosed? ==> file == Remove(old(file), target, default).0
      ensures result.Failed? && (result.outcome.NotOpened? || result.outcome.PutBack?) ==> file == old(file)
      ensures faults.opens && faults.truncates && faults.closes && faults.removes
              && Room(Remove(old(file), target, default).0, faults.room)
        ==> result.Finished?
    {
      if file.Absent? {
        return Finished(NotThere);
      }
      var reading := Read(file.raw);
      if reading.OddLength? {
        return Finished(Unreadable);
      }
      var (edited, status) := RemoveText(file, reading.encoding, reading.text, target, default);
      if !status.TakenOut? {
        return Finished(status);
      }
      if edited.Absent? {
        if !faults.removes {
          return Failed(NotOpened);
        }
        file := Absent;
        return Finished(TakenOut);
      }
      var outcome := Rewrite(file.raw, edited.raw, faults);
      return if outcome.Done? then Finished(status) else Failed(outcome);
    }
  }

  predicate Room(file: File, room: nat) {
    file.Present? ==> |file.raw| <= room
  }

  /** Installing in a file that is read changes its bytes alone, and those only when it adds or updates. */
  lemma InstallsText(file: File, target: Target, default: string)
    requires file.Present? && Sound(target) && IsNewline(default) && Read(file.raw).Reading?
    ensures var reading, installed := Read(file.raw), Install(file, target, default);
      && installed == InstallText(file, reading.encoding, reading.text, target, default)
      && installed.0.Present? && installed.0 == file.(raw := installed.0.raw)
      && (!installed.1.Added? && !installed.1.Updated? ==> installed.0 == file)
  {
  }

  /** A first install in a well-formed file only adds to its end. */
  lemma AddsToTheEnd(file: File, target: Target, default: string)
    requires file.Present? && Sound(target) && IsNewline(default) && Install(file, target, default).1.Added?
    ensures Install(file, target, default).0.Present?
    ensures Faithful(file.raw) ==> file.raw <= Install(file, target, default).0.raw
  {
    var encoding, text := Read(file.raw).encoding, Read(file.raw).text;
    AddsWhereNone(file, encoding, text, target, default);
    InstallsMore(text, target, default);
    WriteReads(file.raw);
    WritesLonger(encoding, text, Installed(text, target.setup, default).text);
  }

  lemma InstallsMore(text: string, target: Target, default: string)
    requires FirstMarker(text, target.setup.open, 0) == -1
    ensures Installed(text, target.setup, default).Edited? && text <= Installed(text, target.setup, default).text
  {
    InstallsIntoNone(text, target.setup, default);
  }

  lemma WritesLonger(encoding: Encoding, text: string, longer: string)
    requires text <= longer && Writable(encoding, text) && Writable(encoding, longer)
    ensures Write(encoding, text) <= Write(encoding, longer)
  {
    var more := longer[|text|..];
    assert longer == text + more;
    if encoding.MarkedUtf16? {
      Utf16.EncodeAppends(text, more);
      Utf16.RawAppends(Utf16.Encode(text), Utf16.Encode(more), encoding.order);
    }
  }

  /**
   A change that only adds needs room for what it adds, and any other for all of the new content; when
   it fails, what was overwritten needs room to be put back.
   */
  lemma OutcomeIs(before: Text, content: Text, faults: Faults)
    ensures var added := if before <= content then |content| - |before| else |content|;
      var lost := if before <= content then 0 else |before|;
      OutcomeOf(before, content, faults) ==
        if !faults.opens then NotOpened
        else if faults.room >= added && faults.truncates then (if faults.closes then Done else NotClosed)
        else if faults.restoreRoom >= lost && faults.restoreTruncates then PutBack else NotPutBack
  {
  }

  /** A write replaces the bytes it covers, adds those beyond the end, and leaves all others. */
  lemma WriteCovers(raw: Text, at: nat, data: Text)
    requires at <= |raw|
    ensures var written := Overlaid(raw, at, data);
      && |written| == (if at + |data| > |raw| then at + |data| else |raw|)
      && forall i :: 0 <= i < |written| ==> written[i] == if at <= i < at + |data| then data[i - at] else raw[i]
  {
  }
}
