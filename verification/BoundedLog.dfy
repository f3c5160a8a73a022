/** log_files.py `BoundedLogWriter`: a byte stream whose file stays strictly bounded. */
module BoundedLog {
  import opened Collections
  import opened Wrappers
  import opened Utf8

  const MIB := 1024 * 1024

  function Ascii(s: string): (b: seq<Byte>)
    ensures |b| == |s|
  {
    seq(|s|, i requires 0 <= i < |s| => if s[i] as int < 128 then s[i] as int else 63)
  }

  const MARKER: seq<Byte> := Ascii("\r\n[LocalFlow] task output limit reached; later output is not stored.\r\n")

  datatype Reason = FileLimit | DiskReserve | WriteError | LegacyUnverified

  /** The integrity record beside a log. */
  datatype Health = Health(complete: Option<bool>, reason: Option<Reason>)

  predicate Stops(h: Health) {
    h.reason.Some? && h.reason.value != LegacyUnverified
  }

  // ---------------------------------------------------------------- the one-line meaning

  /** The whole input if it leaves room for the marker, else its beginning and the marker. */
  function Bounded(limit: nat, input: seq<Byte>): seq<Byte> {
    if limit == 0 || limit < |MARKER| || |input| + |MARKER| <= limit then input
    else input[..limit - |MARKER|] + MARKER
  }

  /** What one write without faults makes of a file that still accepts output. */
  function Written(limit: nat, content: seq<Byte>, data: seq<Byte>): seq<Byte> {
    if limit == 0 || |content| + |data| + |MARKER| <= limit then content + data
    else content + data[..Room(limit, content, data)] + MARKER
  }

  /** How much of `data` still fits in front of the marker. */
  function Room(limit: nat, content: seq<Byte>, data: seq<Byte>): (n: nat)
    ensures n <= |data|
  {
    if |content| + |MARKER| >= limit then 0
    else if limit - |MARKER| - |content| < |data| then limit - |MARKER| - |content| else |data|
  }

  predicate Fills(limit: nat, content: seq<Byte>, data: seq<Byte>) {
    limit != 0 && |content| + |data| + |MARKER| > limit
  }

  /** What holds of a log that has only ever been written with one limit. */
  ghost predicate IsSound(limit: nat, input: seq<Byte>, content: seq<Byte>, health: Option<Health>, faulted: bool) {
    && (!faulted ==> content == Bounded(limit, input))
    && (limit != 0 ==> |content| <= limit)
    && (match health
        case None => input == [] && content == [] && !faulted
        case Some(h) =>
          && (h == Health(Some(true), None) || (h.complete == Some(false) && Stops(h)))
          && (h.complete == Some(true) ==> content == input && !faulted && !Fills(limit, input, []))
          && (Stops(h) && !faulted ==> Fills(limit, input, [])))
  }

  /** A log on disk.  The ghost fields remember all bytes ever offered to its writers, and whether
      a write failed or the disk ran full. */
  class LogFile {
    var content: seq<Byte>
    var health: Option<Health>
    ghost var input: seq<Byte>
    ghost var faulted: bool

    constructor ()
      ensures content == [] && health.None? && input == [] && !faulted
    {
      content, health, input, faulted := [], None, [], false;
    }

    /** The log has only ever been written with this limit. */
    ghost predicate Sound(limit: nat)
      reads this
    {
      IsSound(limit, input, content, health, faulted)
    }

    /** One system call on the open file: it writes a part of the data, or fails. */
    method WriteSome(data: seq<Byte>) returns (size: Option<nat>)
      requires data != []
      modifies this`content
      ensures size.None? ==> content == old(content)
      ensures size.Some? ==> size.value <= |data| && content == old(content) + data[..size.value]
    {
      if * {
        size := None;
      } else {
        var n: nat :| n <= |data|;
        content := content + data[..n];
        size := Some(n);
      }
    }
  }

  class BoundedLogWriter {
    const file: LogFile
    const maxBytes: nat
    const keepFree: nat
    var size: nat
    var stopped: bool
    var sinceSpaceCheck: nat

    ghost predicate Valid()
      reads this, file
    {
      && size == |file.content|
      && file.health.Some?
      && (Stops(file.health.value) ==> stopped)
    }

    /** Opens a log; `maxBytes` has been checked by `Open`. */
    constructor (file: LogFile, maxBytes: nat, keepFree: nat)
      requires maxBytes == 0 || maxBytes > |MARKER|
      modifies file`health
      ensures Valid() && this.file == file && this.maxBytes == maxBytes && this.keepFree == keepFree
      ensures stopped == (Stops(file.health.value))
      ensures old(file.health).None? && !(maxBytes != 0 && |file.content| >= maxBytes) ==>
                file.health.value == if file.content == [] then Health(Some(true), None)
                  else Health(None, Some(LegacyUnverified))
      ensures old(file.health).Some? && !(maxBytes != 0 && |file.content| >= maxBytes) ==>
              file.health == old(file.health)
      ensures maxBytes != 0 && |file.content| >= maxBytes ==> file.health.value == Health(Some(false), Some(FileLimit))
    {
      this.file, this.maxBytes, this.keepFree := file, maxBytes, keepFree;
      size := |file.content|;
      stopped := false;
      sinceSpaceCheck := MIB;
      new;
      if file.health.None? {
        file.health := Some(if size == 0 then Health(Some(true), None) else Health(None, Some(LegacyUnverified)));
      }
      stopped := Stops(file.health.value);
      if maxBytes != 0 && size >= maxBytes {
        MarkIncomplete(FileLimit);
      }
    }

    method MarkIncomplete(reason: Reason)
      requires file.health.Some? && reason != LegacyUnverified
      modifies this`stopped, file`health
      ensures stopped && file.health == Some(Health(Some(false), Some(reason)))
    {
      stopped := true;
      file.health := Some(Health(Some(false), Some(reason)));
    }

    /** Writes all of `data` in as many system calls as it takes, or records a write error. */
    method Append(data: seq<Byte>) returns (ok: bool)
      requires Valid()
      modifies this, file`content, file`health, file`faulted
      ensures Valid() && sinceSpaceCheck == old(sinceSpaceCheck)
      ensures old(file.content) <= file.content <= old(file.content) + data
      ensures ok ==> file.content == old(file.content) + data && file.health == old(file.health)
                     && file.faulted == old(file.faulted) && stopped == old(stopped)
      ensures !ok ==> file.faulted && stopped && file.health == Some(Health(Some(false), Some(WriteError)))
    {
      var view := data;
      while view != []
        invariant Valid() && file.content + view == old(file.content) + data
        invariant old(file.content) <= file.content
        invariant file.health == old(file.health) && file.faulted == old(file.faulted) && stopped == old(stopped)
        invariant sinceSpaceCheck == old(sinceSpaceCheck)
        decreases |view|
      {
        var n := file.WriteSome(view);
        if n.None? || n.value == 0 {
          if n.Some? {
            assert view[..0] == [];
          }
          MarkIncomplete(WriteError);
          file.faulted := true;
          return false;
        }
        assert view == view[..n.value] + view[n.value..];
        size := size + n.value;
        view := view[n.value..];
      }
      ok := true;
    }

    /** `write`; `free` is what the disk reports when it is asked. */
    method Write(data: seq<Byte>, free: nat) returns (consumed: nat)
      requires Valid() && (maxBytes == 0 || maxBytes > |MARKER|)
      modifies this, file
      ensures Valid() && consumed == |data| && file.input == old(file.input) + data
      ensures data == [] || old(stopped) ==>
                file.content == old(file.content) && file.health == old(file.health) && stopped == old(stopped)
                && file.faulted == old(file.faulted)
      ensures data != [] && !old(stopped) ==>
                WriteSpec(maxBytes, data, old(file.content), file.content, old(file.health), file.health,
                          old(file.faulted), file.faulted, stopped)
    {
      hide Written, Fills, MARKER;
      consumed := |data|;
      file.input := file.input + data;
      if data == [] {
        return;
      }
      if stopped {
        return;
      }
      sinceSpaceCheck := sinceSpaceCheck + |data|;
      if sinceSpaceCheck >= MIB {
        sinceSpaceCheck := 0;
        if keepFree != 0 && free <= keepFree {
          MarkIncomplete(DiskReserve);
          file.faulted := true;
          NothingWritten(maxBytes, data, file.content);
          return;
        }
      }
      if maxBytes == 0 || size + |data| <= maxBytes - |MARKER| {
        FitsWhole(maxBytes, data, file.content);
        var _ := Append(data);
      } else {
        WriteLast(data);
      }
    }

    /** The write that reaches the limit: the marker closes the file. */
    method WriteLast(data: seq<Byte>)
      requires Valid() && !stopped && maxBytes > |MARKER| && size + |data| > maxBytes - |MARKER|
      modifies this, file`content, file`health, file`faulted
      ensures Valid()
      ensures WriteSpec(maxBytes, data, old(file.content), file.content, old(file.health), file.health,
                        old(file.faulted), file.faulted, stopped)
    {
      hide MARKER;
      ghost var c0 := file.content;
      var payloadLimit := maxBytes - |MARKER|;
      var remaining := if payloadLimit > size then payloadLimit - size else 0;
      ghost var part := data[..Room(maxBytes, c0, data)];
      assert remaining == |part| && Written(maxBytes, c0, data) == c0 + part + MARKER && Fills(maxBytes, c0, data);
      MarkIncomplete(FileLimit);
      if remaining != 0 {
        var ok := Append(data[..remaining]);
        if !ok {
          PrefixOfMore(file.content, c0 + part, MARKER);
          return;
        }
      }
      assert c0 + [] == c0;
      assert file.content == c0 + part;
      var _ := Append(MARKER);
      stopped := true;
    }
  }

  /** What a write of `data` to an accepting writer does: all of it, or a recorded fault. */
  ghost predicate WriteSpec(limit: nat, data: seq<Byte>, c0: seq<Byte>, c1: seq<Byte>,
                            h0: Option<Health>, h1: Option<Health>, f0: bool, f1: bool, stopped: bool)
  {
    && c0 <= c1 <= Written(limit, c0, data)
    && (f0 ==> f1)
    && (!f1 ==> c1 == Written(limit, c0, data) && stopped == Fills(limit, c0, data))
    && (stopped ==> h1.Some? && h1.value.complete == Some(false) && Stops(h1.value))
    && (!stopped ==> h1 == h0 && f1 == f0 && c1 == c0 + data && !Fills(limit, c0, data))
  }

  lemma FitsWhole(limit: nat, data: seq<Byte>, c: seq<Byte>)
    requires limit == 0 || |c| + |data| + |MARKER| <= limit
    ensures Written(limit, c, data) == c + data && !Fills(limit, c, data)
  {
    hide MARKER;
  }

  lemma NothingWritten(limit: nat, data: seq<Byte>, c: seq<Byte>)
    ensures c <= Written(limit, c, data)
  {
    hide MARKER;
  }

  lemma PrefixOfMore(a: seq<Byte>, b: seq<Byte>, c: seq<Byte>)
    requires a <= b
    ensures a <= b + c
  {
  }

  // ---------------------------------------------------------------- soundness

  /** Offering more to a full file changes nothing; offering to a file with room continues it. */
  lemma BoundedContinues(limit: nat, input: seq<Byte>, data: seq<Byte>)
    requires limit == 0 || limit > |MARKER|
    ensures Fills(limit, input, []) ==>
            Bounded(limit, input + data) == Bounded(limit, input) && Fills(limit, input + data, [])
    ensures !Fills(limit, input, []) ==>
              Bounded(limit, input) == input && Written(limit, input, data) == Bounded(limit, input + data)
              && Fills(limit, input, data) == Fills(limit, input + data, [])
  {
    hide MARKER;
    if limit != 0 {
      var n := limit - |MARKER|;
      if |input| > n {
        assert (input + data)[..n] == input[..n];
      } else if |input| + |data| > n {
        assert (input + data)[..n] == input + data[..n - |input|];
      }
    }
  }

  lemma WrittenBounded(limit: nat, c: seq<Byte>, data: seq<Byte>)
    requires limit > |MARKER| && (|c| + |MARKER| <= limit)
    ensures |Written(limit, c, data)| <= limit
  {
    hide MARKER;
  }

  /** A write keeps a log sound. */
  lemma SoundWrites(limit: nat, data: seq<Byte>, input: seq<Byte>, c0: seq<Byte>, c1: seq<Byte>, h0: Option<Health>,
                    h1: Option<Health>, f0: bool, f1: bool, s0: bool, s1: bool)
    requires limit == 0 || limit > |MARKER|
    requires IsSound(limit, input, c0, h0, f0) && h0.Some? && h1.Some? && s0 == Stops(h0.value)
    requires data == [] || s0 ==> c1 == c0 && h1 == h0 && s1 == s0 && f1 == f0
    requires data != [] && !s0 ==> WriteSpec(limit, data, c0, c1, h0, h1, f0, f1, s1)
    ensures IsSound(limit, input + data, c1, h1, f1) && s1 == Stops(h1.value)
  {
    hide MARKER, Bounded, Fills, Written;
    BoundedContinues(limit, input, data);
    if data == [] {
      assert input + data == input;
    } else if !s0 {
      if limit != 0 {
        NotFull(limit, input);
        WrittenBounded(limit, c0, data);
      }
    }
  }

  lemma NotFull(limit: nat, input: seq<Byte>)
    requires limit != 0 && !Fills(limit, input, [])
    ensures |input| + |MARKER| <= limit
  {
    hide MARKER;
  }

  /** Opening a sound log keeps it sound. */
  lemma OpenSound(limit: nat, input: seq<Byte>, content: seq<Byte>, h0: Option<Health>,
      h1: Option<Health>, faulted: bool)
    requires limit == 0 || limit > |MARKER|
    requires IsSound(limit, input, content, h0, faulted)
    requires limit != 0 && |content| >= limit ==> h1 == Some(Health(Some(false), Some(FileLimit)))
    requires !(limit != 0 && |content| >= limit) ==>
               h1 == if h0.None? && content == [] then Some(Health(Some(true), None))
                     else if h0.None? then Some(Health(None, Some(LegacyUnverified))) else h0
    ensures IsSound(limit, input, content, h1, faulted)
  {
  }

  /** A file from elsewhere is pushed past the limit by some write exactly when it is already
      longer than the limit less the marker. */
  lemma ForeignFileOvershoots(limit: nat, content: seq<Byte>)
    requires limit > |MARKER| && |content| < limit
    ensures (exists data: seq<Byte> :: |Written(limit, content, data)| > limit) <==> |content| + |MARKER| > limit
  {
    if |content| + |MARKER| > limit {
      var data: seq<Byte> := [0];
      assert |Written(limit, content, data)| == |content| + |MARKER|;
    } else {
      forall data: seq<Byte> ensures |Written(limit, content, data)| <= limit {
        WrittenBounded(limit, content, data);
      }
    }
  }

  /** Opens a log, unless the limit leaves no room for the marker. */
  method Open(file: LogFile, maxBytes: nat, keepFree: nat) returns (w: Result<BoundedLogWriter, string>)
    modifies file`health
    ensures w.Err? <==> 0 < maxBytes <= |MARKER|
    ensures w.Err? ==> file.health == old(file.health)
    ensures w.Ok? ==> fresh(w.value) && w.value.Valid() && w.value.file == file && w.value.maxBytes == maxBytes
    ensures w.Ok? && old(file.Sound(maxBytes)) ==> file.Sound(maxBytes)
  {
    hide MARKER, Bounded, Fills, IsSound;
    if maxBytes != 0 && maxBytes <= |MARKER| {
      return Err("max_bytes is too small for a bounded task log");
    }
    ghost var h := file.health;
    var writer := new BoundedLogWriter(file, maxBytes, keepFree);
    if old(file.Sound(maxBytes)) {
      OpenSound(maxBytes, file.input, file.content, h, file.health, file.faulted);
    }
    return Ok(writer);
  }

  /** Writes through one or more writers, one at a time, each with the same limit. */
  method RunSessions(file: LogFile, limit: nat, keepFree: nat, sessions: seq<seq<seq<Byte>>>, free: (nat, nat) -> nat)
    requires limit == 0 || limit > |MARKER|
    requires file.Sound(limit)
    modifies file
    ensures file.Sound(limit)
    ensures file.input == old(file.input) + Concat(Concat(sessions))
  {
    hide MARKER, Bounded, IsSound;
    var s := 0;
    assert Concat(sessions[..0]) == [] && old(file.input) + [] == old(file.input);
    while s < |sessions|
      invariant 0 <= s <= |sessions| && file.Sound(limit)
      invariant file.input == old(file.input) + Concat(Concat(sessions[..s]))
    {
      RunSession(file, limit, keepFree, sessions[s], (i: nat) => free(s, i));
      assert sessions[..s + 1][..s] == sessions[..s];
      ConcatAppend(Concat(sessions[..s]), sessions[s]);
      s := s + 1;
    }
    assert sessions[..s] == sessions;
  }

  /** One session: open, write piece by piece, close. */
  method RunSession(file: LogFile, limit: nat, keepFree: nat, pieces: seq<seq<Byte>>, free: nat -> nat)
    requires limit == 0 || limit > |MARKER|
    requires file.Sound(limit)
    modifies file
    ensures file.Sound(limit)
    ensures file.input == old(file.input) + Concat(pieces)
  {
    hide MARKER, Bounded, Fills, Written, IsSound, Concat;
    ghost var h := file.health;
    NothingJoined();
    var writer := new BoundedLogWriter(file, limit, keepFree);
    OpenSound(limit, file.input, file.content, h, file.health, file.faulted);
    var i := 0;
    assert pieces[..0] == [] && old(file.input) + [] == old(file.input);
    while i < |pieces|
      invariant 0 <= i <= |pieces| && writer.Valid() && file.Sound(limit)
      invariant fresh(writer) && writer.file == file && writer.maxBytes == limit
      invariant writer.stopped <==> Stops(file.health.value)
      invariant file.input == old(file.input) + Concat(pieces[..i])
    {
      ghost var c0, i0, h0, f0, s0 := file.content, file.input, file.health, file.faulted, writer.stopped;
      var _ := writer.Write(pieces[i], free(i));
      if pieces[i] == [] {
        assert i0 + [] == i0;
      }
      SoundWrites(limit, pieces[i], i0, c0, file.content, h0, file.health, f0, file.faulted, s0, writer.stopped);
      assert pieces[..i + 1] == pieces[..i] + [pieces[i]];
      ConcatSnoc(pieces[..i], pieces[i]);
      Associative(old(file.input), Concat(pieces[..i]), pieces[i]);
      i := i + 1;
    }
    assert pieces[..i] == pieces;
  }

  lemma NothingJoined()
    ensures Concat<Byte>([]) == []
  {
  }
}
