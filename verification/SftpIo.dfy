/** SFTP packets built in a growing buffer and written out (sftp/io_output.c), and
    read in a frame at a time (sftp/io_input.c). */
module SftpIo {
  import opened Wrappers
  import opened Numbers
  import opened SftpCodec

  lemma AfterStart(start: seq<Byte>, a: seq<Byte>, b: seq<Byte>, c: seq<Byte>, d: seq<Byte>, e: seq<Byte>)
    ensures start + a + b + c + d + e == start + (a + b + c + d + e)
  {
  }

  class Output {
    var data: array<Byte>
    var i: nat
    var msg: Byte
    var first: nat

    /** Everything write(2) has accepted, and how much it accepts before it fails. */
    var wire: seq<Byte>
    const room: Option<nat>

    ghost predicate Valid()
      reads this
    {
      i <= data.Length && first < WORD && (room.Some? ==> |wire| <= room.value)
    }

    /** The packet so far. */
    function Contents(): seq<Byte>
      requires Valid()
      reads this, data
    {
      data[..i]
    }

    constructor (room: Option<nat>)
      ensures this.room == room && Valid() && fresh(data) && Contents() == [] && wire == []
    {
      this.room := room;
      data, i, msg, first, wire := new Byte[0], 0, 0, 0, [];
    }

    /** How much of `n` bytes is accepted. */
    function Accepted(n: nat): nat
      requires room.Some? ==> |wire| <= room.value
      reads this
    {
      if room.Some? then Min(n, room.value - |wire|) else n
    }

    /** sftp_check_output: room for `length` more bytes. */
    method CheckOutput(length: nat)
      requires Valid()
      modifies this`data
      ensures Valid() && i + length <= data.Length && Contents() == old(Contents())
      ensures data == old(data) || fresh(data)
    {
      var needed := i + length;
      if needed > data.Length {
        ghost var before := data;
        var bigger := new Byte[2 * needed + 40];
        for k := 0 to i
          invariant data == before && bigger[..k] == data[..k]
        {
          bigger[k] := data[k];
        }
        data := bigger;
      }
    }

    /** sftp_put_data. */
    method PutData(s: seq<Byte>)
      requires Valid()
      modifies this`data, this`i, data
      ensures Valid() && Contents() == old(Contents()) + s
      ensures data == old(data) || fresh(data)
    {
      ghost var before := Contents();
      CheckOutput(|s|);
      for k := 0 to |s|
        invariant i == |before| && Valid() && i + |s| <= data.Length
        invariant data[..i + k] == before + s[..k]
        invariant data == old(data) || fresh(data)
      {
        data[i + k] := s[k];
        assert data[..i + k + 1] == data[..i + k] + [s[k]];
      }
      i := i + |s|;
      assert s[..|s|] == s;
    }

    /** sftp_put_string. */
    method PutString(s: seq<Byte>)
      requires Valid() && |s| < WORD
      modifies this`data, this`i, data
      ensures Valid() && Contents() == old(Contents()) + Word(|s|) + s
      ensures data == old(data) || fresh(data)
    {
      PutData(Word(|s|));
      PutData(s);
    }

    /** sftp_put_reserve_length: a word to be filled in later. */
    method PutReserveLength() returns (index: nat)
      requires Valid()
      modifies this`data, this`i
      ensures Valid() && index == old(i) && i == index + 4 && Contents()[..index] == old(Contents())
      ensures data == old(data) || fresh(data)
    {
      CheckOutput(4);
      index := i;
      i := i + 4;
    }

    /** sftp_put_length; false is a failed assert. */
    method PutLength(index: nat, length: nat) returns (ok: bool)
      requires Valid() && length < WORD
      modifies data
      ensures Valid() && (ok <==> index + 4 < i)
      ensures Contents() ==
              if ok then old(Contents()[..index] + Word(length) + Contents()[index + 4..]) else old(Contents())
    {
      if index + 4 >= i { return false; }
      var w := Word(length);
      ghost var before := Contents();
      data[index], data[index + 1], data[index + 2], data[index + 3] := w[0], w[1], w[2], w[3];
      assert Contents() == before[..index] + w + before[index + 4..];
      return true;
    }

    /** sftp_put_final_length. */
    method PutFinalLength(index: nat) returns (ok: bool)
      requires Valid() && index + 4 <= i && i - index - 4 < WORD
      modifies data
      ensures Valid() && (ok <==> index + 4 < i)
      ensures Contents() ==
              if ok then old(Contents()[..index] + Word(i - index - 4) + Contents()[index + 4..]) else old(Contents())
    {
      ok := PutLength(index, i - index - 4);
    }

    /** A length reserved, content put, and the length patched in: a string, and for
        empty content a failed assert. */
    method PutPatched(s: seq<Byte>) returns (ok: bool)
      requires Valid() && |s| < WORD
      modifies this`data, this`i, data
      ensures Valid() && (ok <==> s != [])
      ensures ok ==> Contents() == old(Contents()) + Word(|s|) + s
    {
      var index := PutReserveLength();
      ghost var head := Contents();
      PutData(s);
      ghost var all := Contents();
      assert all[..index] == head[..index] && all[index + 4..] == s;
      ok := PutFinalLength(index);
    }

    /** The words of a field, if its flag is set. */
    method PutField(present: bool, words: seq<Byte>)
      requires Valid()
      modifies this`data, this`i, data
      ensures Valid() && Contents() == old(Contents()) + (if present then words else [])
      ensures data == old(data) || fresh(data)
    {
      assert Contents() + [] == Contents();
      if present { PutData(words); }
    }

    /** sftp_put_attrib; its assert is the precondition on EXTENDED. */
    method PutAttributes(a: Attrib)
      requires Valid() && Fits(a) && !Has(a.flags, EXTENDED)
      modifies this`data, this`i, data
      ensures Valid() && Contents() == old(Contents()) + PutAttrib(a)
    {
      ghost var start := Contents();
      PutData(Word(a.flags));
      PutField(Has(a.flags, SIZE), Long(a.size));
      PutField(Has(a.flags, UIDGID), Word(a.uid) + Word(a.gid));
      PutField(Has(a.flags, PERMISSIONS), Word(a.permissions));
      PutField(Has(a.flags, ACMODTIME), Word(a.atime) + Word(a.mtime));
      AfterStart(start, Word(a.flags), SizePart(a), OwnerPart(a), ModePart(a), TimePart(a));
    }

    /** The write loops: write(2) takes any positive part of what it is offered, or fails. */
    method WriteAll(b: seq<Byte>) returns (ok: bool)
      requires room.Some? ==> |wire| <= room.value
      modifies this`wire
      ensures room.Some? ==> |wire| <= room.value
      ensures wire == old(wire) + b[..old(Accepted(|b|))] && (ok <==> old(Accepted(|b|)) == |b|)
    {
      ghost var n := Accepted(|b|);
      var written: nat := 0;
      assert b[..0] == [];
      while written < |b|
        invariant written <= n && wire == old(wire) + b[..written]
      {
        if room.Some? && |wire| >= room.value { return false; }
        var j: nat :| 0 < j <= |b| - written && (room.Some? ==> |wire| + j <= room.value);
        wire := wire + b[written..written + j];
        assert b[..written + j] == b[..written] + b[written..written + j];
        written := written + j;
      }
      return true;
    }

    /** sftp_write_packet: the packet goes out whole in its frame, and the next one is
        empty; or a part of the frame goes out, and the packet is kept. */
    method WritePacket() returns (ok: bool)
      requires Valid() && i + 5 < WORD
      modifies this`wire, this`i
      ensures Valid()
      ensures var frame := Framed(Packet(msg, first, old(Contents())));
              var n := old(Accepted(9 + i));
              wire == old(wire) + frame[..n] && (ok <==> n == |frame|)
      ensures Contents() == if ok then [] else old(Contents())
    {
      ghost var start, n := wire, Accepted(9 + i);
      var head := Word(i + 5) + [msg] + Word(first);
      ghost var frame := head + data[..i];
      assert frame == Framed(Packet(msg, first, Contents()));
      ok := WriteAll(head);
      if !ok {
        assert frame[..n] == head[..n];
        return;
      }
      ghost var m := Accepted(i);
      assert m == n - 9;
      ok := WriteAll(data[..i]);
      WireIs(start, head, data[..i], m);
      assert head[..9] == head;
      if ok { i := 0; }
    }
  }

  lemma WireIs(start: seq<Byte>, head: seq<Byte>, body: seq<Byte>, m: nat)
    requires m <= |body|
    ensures start + head + body[..m] == start + (head + body)[..|head| + m]
  {
    assert (head + body)[..|head| + m] == head + body[..m];
  }

  // ----- Input

  /** What read(2) gives when the stream is used up: nothing, or an error. */
  datatype Ending = Closes | Fails

  /** What sftp_get_data returns: 1, 0 or -1; or it reads nothing for ever. */
  datatype Code = Success | Refused | Error | Loops

  /** What a caller makes of it. */
  datatype Answer<T> = Value(value: T) | No | Hangs

  class Input {
    /** All the peer ever sends, how it ends, and how much of it has been read. */
    const stream: seq<Byte>
    const ending: Ending
    var pos: nat
    var left: nat

    /** What is in memory that nobody has written. */
    const junk: nat -> Byte

    /** Where the current frame ends. */
    ghost var end: nat

    ghost predicate Valid()
      reads this
    {
      pos <= |stream| && pos + left == end
    }

    /** The stream holds all of the current frame. */
    ghost predicate Whole()
      reads this
    {
      end <= |stream|
    }

    /** What is left of the current frame. */
    ghost function Frame(): seq<Byte>
      requires Valid() && Whole()
      reads this
    {
      stream[pos..end]
    }

    constructor (stream: seq<Byte>, ending: Ending, junk: nat -> Byte)
      ensures this.stream == stream && this.ending == ending && Valid() && pos == left == 0
    {
      this.stream, this.ending, this.junk, pos, left, end := stream, ending, junk, 0, 0, 0;
    }

    /** A buffer into which the first bytes have been read. */
    function Filled(got: seq<Byte>, length: nat): (b: seq<Byte>)
      requires |got| <= length
      ensures |b| == length
    {
      got + seq(length - |got|, (i: nat) => junk(|got| + i))
    }

    /** What sftp_get_data will return. */
    function Outcome(length: nat): Code
      requires pos <= |stream|
      reads this
    {
      if left < length then Refused
      else if pos + length <= |stream| then Success
      else if ending.Fails? then Error
      else Loops
    }

    /** sftp_get_data: position and `left` keep adding up to the end of the frame,
        whatever happens. Read(2) may deliver the bytes in parts; at the end of the
        stream it delivers nothing and nothing changes any more. */
    method GetData(length: nat) returns (code: Code, data: seq<Byte>)
      requires Valid()
      modifies this`pos, this`left
      ensures Valid() && code == old(Outcome(length))
      ensures pos == if code.Refused? then old(pos) else Min(old(pos) + length, |stream|)
      ensures !code.Refused? ==> data == Filled(stream[old(pos)..pos], length)
    {
      if left < length { return Refused, []; }
      ghost var start := pos;
      var got: seq<Byte> := [];
      while |got| < length
        invariant |got| <= length && pos == start + |got| <= |stream| && pos + left == end && length - |got| <= left
        invariant got == stream[start..pos]
      {
        if pos == |stream| {
          return if ending.Fails? then Error else Loops, Filled(got, length);
        }
        var j: nat :| 0 < j <= length - |got| && pos + j <= |stream|;
        assert stream[start..pos + j] == stream[start..pos] + stream[pos..pos + j];
        got := got + stream[pos..pos + j];
        pos, left := pos + j, left - j;
      }
      return Success, Filled(got, length);
    }

    /** The test all callers make: anything but zero is success. So they are told success
        without the bytes exactly when the frame should hold them and the stream fails
        before it does. */
    method GetBytes(length: nat) returns (r: Answer<seq<Byte>>)
      requires Valid()
      modifies this`pos, this`left
      ensures Valid()
      ensures r.No? <==> old(left) < length
      ensures r.Hangs? <==> old(left) >= length && old(pos) + length > |stream| && ending.Closes?
      ensures pos == if r.No? then old(pos) else Min(old(pos) + length, |stream|)
      ensures r.Value? ==> r.value == Filled(stream[old(pos)..pos], length)
      ensures r.Value? && pos != old(pos) + length <==>
              old(left) >= length && old(pos) + length > |stream| && ending.Fails?
    {
      var code, data := GetData(length);
      match code {
        case Refused => return No;
        case Loops => return Hangs;
        case Success => return Value(data);
        case Error => return Value(data);
      }
    }

    /** While the stream holds the frame, reading is taking from its front. */
    method TakeBytes(length: nat) returns (r: Answer<seq<Byte>>)
      requires Valid()
      modifies this`pos, this`left
      ensures Valid() && (r.Hangs? ==> !Whole()) && (r.Value? ==> |r.value| == length)
      ensures old(Whole()) ==>
                if length > |old(Frame())| then r.No? && pos == old(pos)
                else r == Value(old(Frame())[..length]) && Frame() == old(Frame())[length..]
    {
      ghost var start := pos;
      r := GetBytes(length);
      if Whole() && r.Value? {
        assert stream[start..end][..length] == stream[start..pos] && stream[start..end][length..] == stream[pos..end];
        assert Filled(stream[start..pos], length) == stream[start..pos];
      }
    }

    /** sftp_get_uint32. */
    method GetUint32() returns (r: Answer<nat>)
      requires Valid()
      modifies this`pos, this`left
      ensures Valid() && (r.Hangs? ==> !Whole())
      ensures r.Value? ==> r.value < WORD
      ensures old(Whole()) ==>
                match GetWord(old(Frame())) {
                  case Short => r.No? && pos == old(pos)
                  case Got(w, rest) => r == Value(w) && Frame() == rest
                }
    {
      var b := TakeBytes(4);
      match b {
        case Value(data) => return Value(ReadWord(data));
        case No => return No;
        case Hangs => return Hangs;
      }
    }

    /** sftp_get_string: the length is checked against the frame before room is made. */
    method GetText() returns (r: Answer<seq<Byte>>)
      requires Valid()
      modifies this`pos, this`left
      ensures Valid() && (r.Hangs? ==> !Whole())
      ensures old(Whole()) ==>
                match GetString(old(Frame())) {
                  case Short => r.No?
                  case Got(t, rest) => r == Value(t) && Frame() == rest
                }
    {
      var length := GetUint32();
      match length {
        case Hangs => return Hangs;
        case No => return No;
        case Value(n) =>
          if left < n { return No; }
          r := TakeBytes(n);
      }
    }

    /** sftp_get_uint64, if the field is there. */
    method GetSizeField(flags: nat) returns (r: Answer<int>)
      requires Valid()
      modifies this`pos, this`left
      ensures Valid() && (r.Hangs? ==> !Whole())
      ensures old(Whole()) ==>
                match GetSize(flags, old(Frame())) {
                  case Short => r.No?
                  case Got(w, rest) => r == Value(w) && Frame() == rest
                }
    {
      if !Has(flags, SIZE) { return Value(0); }
      var b := TakeBytes(8);
      match b {
        case Hangs => return Hangs;
        case No => return No;
        case Value(data) => return Value(ReadLong(data));
      }
    }

    method GetOneField(present: bool) returns (r: Answer<nat>)
      requires Valid()
      modifies this`pos, this`left
      ensures Valid() && (r.Hangs? ==> !Whole())
      ensures old(Whole()) ==>
                match GetOne(present, old(Frame())) {
                  case Short => r.No?
                  case Got(w, rest) => r == Value(w) && Frame() == rest
                }
    {
      if !present { return Value(0); }
      r := GetUint32();
    }

    method GetTwoFields(present: bool) returns (r: Answer<(nat, nat)>)
      requires Valid()
      modifies this`pos, this`left
      ensures Valid() && (r.Hangs? ==> !Whole())
      ensures old(Whole()) ==>
                match GetTwo(present, old(Frame())) {
                  case Short => r.No?
                  case Got(w, rest) => r == Value(w) && Frame() == rest
                }
    {
      if !present { return Value((0, 0)); }
      var first := GetUint32();
      if first.Hangs? { return Hangs; }
      if first.No? { return No; }
      var second := GetUint32();
      if second.Hangs? { return Hangs; }
      if second.No? { return No; }
      return Value((first.value, second.value));
    }

    /** sftp_skip_extension: a name and a value. */
    method SkipExtension() returns (r: Answer<()>)
      requires Valid()
      modifies this`pos, this`left
      ensures Valid() && (r.Hangs? ==> !Whole())
      ensures old(Whole()) ==>
                match SkipPair(old(Frame())) { case None => r.No? case Some(rest) => r.Value? && Frame() == rest }
    {
      var name := GetText();
      if name.Hangs? { return Hangs; }
      if name.No? { return No; }
      var value := GetText();
      if value.Hangs? { return Hangs; }
      if value.No? { return No; }
      return Value(());
    }

    method SkipOneMore(ghost n: nat, ghost start: seq<Byte>) returns (r: Answer<()>)
      requires Valid() && (Whole() ==> SkipExtensions(n, start) == Some(Frame()))
      modifies this`pos, this`left
      ensures Valid() && (r.Hangs? ==> !Whole())
      ensures old(Whole()) ==>
                match SkipExtensions(n + 1, start) { case None => r.No? case Some(rest) => r.Value? && Frame() == rest }
    {
      if Whole() { SkipNext(n, start, Frame()); }
      r := SkipExtension();
    }

    /** The extensions, which are skipped. */
    method SkipAll(count: nat) returns (r: Answer<()>)
      requires Valid()
      modifies this`pos, this`left
      ensures Valid() && (r.Hangs? ==> !Whole())
      ensures old(Whole()) ==>
                match SkipExtensions(count, old(Frame())) {
                  case None => r.No?
                  case Some(rest) => r.Value? && Frame() == rest
                }
    {
      ghost var start := if Whole() then Frame() else [];
      r := Value(());
      for n := 0 to count
        invariant Valid() && r.Value? && (Whole() ==> SkipExtensions(n, start) == Some(Frame()))
      {
        r := SkipOneMore(n, start);
        if !r.Value? {
          if Whole() { StuckStaysStuck(n + 1, count, start); }
          return;
        }
      }
    }

    method SkipExtensionFields(flags: nat) returns (r: Answer<()>)
      requires Valid()
      modifies this`pos, this`left
      ensures Valid() && (r.Hangs? ==> !Whole())
      ensures old(Whole()) ==>
                match GetExtensions(flags, old(Frame())) {
                  case None => r.No?
                  case Some(rest) => r.Value? && Frame() == rest
                }
    {
      if !Has(flags, EXTENDED) { return Value(()); }
      var count := GetUint32();
      if count.Hangs? { return Hangs; }
      if count.No? { return No; }
      r := SkipAll(count.value);
    }

    method GetEndFields(f: nat, size: int, owner: (nat, nat)) returns (r: Answer<Attrib>)
      requires Valid()
      modifies this`pos, this`left
      ensures Valid() && (r.Hangs? ==> !Whole())
      ensures old(Whole()) ==>
                match GetEnd(f, size, owner, old(Frame())) {
                  case Short => r.No?
                  case Got(v, rest) => r == Value(v) && Frame() == rest
                }
    {
      var mode := GetOneField(Has(f, PERMISSIONS));
      if mode.Hangs? { return Hangs; }
      if mode.No? { return No; }
      var time := GetTwoFields(Has(f, ACMODTIME));
      if time.Hangs? { return Hangs; }
      if time.No? { return No; }
      var extra := SkipExtensionFields(f);
      if extra.Hangs? { return Hangs; }
      if extra.No? { return No; }
      return Value(Attrib(f, size, owner.0, owner.1, mode.value, time.value.0, time.value.1));
    }

    /** sftp_get_attrib. */
    method GetAttributes() returns (r: Answer<Attrib>)
      requires Valid()
      modifies this`pos, this`left
      ensures Valid() && (r.Hangs? ==> !Whole())
      ensures old(Whole()) ==>
                match GetAttrib(old(Frame())) {
                  case Short => r.No?
                  case Got(v, rest) => r == Value(v) && Frame() == rest
                }
    {
      var flags := GetUint32();
      if flags.Hangs? { return Hangs; }
      if flags.No? { return No; }
      var size := GetSizeField(flags.value);
      if size.Hangs? { return Hangs; }
      if size.No? { return No; }
      var owner := GetTwoFields(Has(flags.value, UIDGID));
      if owner.Hangs? { return Hangs; }
      if owner.No? { return No; }
      r := GetEndFields(flags.value, size.value, owner.value);
    }

    /** The rest of a frame that was not read to its end; a read error ends the skipping,
        the end of the stream does not. */
    method SkipFrame() returns (hangs: bool)
      requires Valid()
      modifies this`pos, this`left
      ensures Valid() && pos == Min(end, |stream|)
      ensures hangs <==> !Whole() && ending.Closes?
    {
      while left > 0
        invariant Valid()
        decreases left
      {
        var code, d := GetData(1);
        if code.Loops? { return true; }
        if code.Error? { return false; }
      }
      return false;
    }

    /** sftp_read_packet returns 1, 0 or -1, or does not return. At the end of a frame
        the next one is entered; an unread rest is skipped first, and the caller must
        call again; -1 stands for the end of the stream and for errors, and 0 also for
        a length that the end of the stream cuts off. */
    method ReadPacket() returns (result: Answer<int>)
      requires Valid()
      modifies this
      ensures Valid()
      ensures old(left) > 0 ==>
                && end == old(end) && pos == Min(end, |stream|)
                && result == (if Whole() then Value(0) else if ending.Fails? then Value(-1) else Hangs)
      ensures old(left) == 0 ==>
                match GetWord(stream[old(pos)..]) {
                  case Got(length, rest) => result == Value(1) && left == length && pos == old(pos) + 4
                  case Short => left == 0 && pos == |stream| &&
                                result == Value(if ending.Fails? || old(pos) == |stream| then -1 else 0)
                }
    {
      if left > 0 {
        var hangs := SkipFrame();
        return if hangs then Hangs else if left > 0 then Value(-1) else Value(0);
      }
      var got: seq<Byte> := [];
      ghost var start := pos;
      while |got| < 4
        invariant |got| <= 4 && pos == start + |got| <= |stream| && got == stream[start..pos]
        invariant left == 0
      {
        if pos == |stream| {
          end := pos;
          return Value(if ending.Fails? || got == [] then -1 else 0);
        }
        var j: nat :| 0 < j <= 4 - |got| && pos + j <= |stream|;
        assert stream[start..pos + j] == stream[start..pos] + stream[pos..pos + j];
        got := got + stream[pos..pos + j];
        pos := pos + j;
      }
      assert got == stream[start..][..4];
      left := ReadWord(got);
      end := pos + left;
      return Value(1);
    }
  }
}
